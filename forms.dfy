/** The public form routes: the join, donation-pledge and contact submissions, each stored
    with a fresh ObjectId and the server time, and listed newest first. */
module Forms {
  import opened Common
  import opened Docs
  import opened Schema
  import opened Store
  import opened Records

  /** The page size of the submission lists (`to_list(500)`). */
  const FormsLimit: nat := 500

  /** A submission model: a record model that leaves `created_at` to the server. */
  predicate FormSchema(schema: seq<Field>) {
    RecordSchema(schema) && !Declares(schema, "created_at")
  }

  /** `JoinFormBase`. */
  function JoinFormBase(): (schema: seq<Field>)
    ensures FormSchema(schema)
  {
    [ Required("name", KStr), Required("email", KEmail),
      WithDefault("age_group", KStr, VStr("")), WithDefault("message", KStr, VStr("")) ]
  }

  /** `DonateFormBase`: a pledge, with the amount as a JSON number. */
  function DonateFormBase(): (schema: seq<Field>)
    ensures FormSchema(schema)
  {
    [ Required("name", KStr), Required("email", KEmail), Required("amount", KFloat),
      WithDefault("message", KStr, VStr("")) ]
  }

  /** `ContactFormBase`. */
  function ContactFormBase(): (schema: seq<Field>)
    ensures FormSchema(schema)
  {
    [ Required("first_name", KStr), Required("last_name", KStr), Required("email", KEmail),
      WithDefault("phone", KStr, VStr("")), WithDefault("topic", KStr, VStr("")),
      WithDefault("relation", KStr, VStr("")), WithDefault("city", KStr, VStr("")),
      Required("message", KStr) ]
  }

  /** The stored submission: the validated fields, the fresh `_id` and `created_at`. */
  function Submission(dump: Doc, freshId: string, now: int): (d: Doc)
    ensures KeyedBy(d, freshId) && "created_at" in d && d["created_at"] == VTime(now)
    ensures forall k :: k in d <==> k in dump || k == "_id" || k == "created_at"
    ensures forall k :: k in dump && k != "_id" && k != "created_at" ==> d[k] == dump[k]
  {
    dump["_id" := VStr(freshId)]["created_at" := VTime(now)]
  }

  /** `submit_*`: validate the body (422 otherwise), add `_id` (the ObjectId `freshId`) and
      `created_at` (the clock reading `now`), store the document and return it. */
  function SubmitSpec(t: Table, schema: seq<Field>, body: Doc, isEmail: string -> bool,
                      freshId: string, now: int): Step<Result<Doc>>
  {
    match Validate(schema, body, isEmail)
    case Err(e) => Step(Err(e), t)
    case Ok(dump) =>
      var d := Submission(dump, freshId, now);
      Step(Ok(d), Insert(t, d))
  }

  /** `list_*`: at most 500 submissions, newest `created_at` first. */
  function ListFormsSpec(t: Table): seq<Doc>
    requires WellFormed(t)
  {
    SortedPrefix(Rows(t), NewestFirstKey, FormsLimit)
  }

  /** A submission is a 422 that stores nothing when the body does not validate; otherwise
      the response holds the fresh id, the clock reading and every declared field with its
      validated value or default, and exactly that document is stored after the others. */
  lemma SubmitSpecProps(t: Table, schema: seq<Field>, body: Doc, isEmail: string -> bool,
                        freshId: string, now: int)
    requires WellFormed(t) && FormSchema(schema) && freshId !in t.docs
    ensures var step := SubmitSpec(t, schema, body, isEmail, freshId, now);
      && WellFormed(step.after)
      && (step.result.Ok? <==> Validate(schema, body, isEmail).Ok?)
      && (step.result.Err? ==> step.result == Err(Unprocessable) && step.after == t)
      && (step.result.Ok? ==>
            && "_id" in step.result.value && step.result.value["_id"] == VStr(freshId)
            && "created_at" in step.result.value && step.result.value["created_at"] == VTime(now)
            && (forall i :: 0 <= i < |schema| ==>
                  schema[i].name in step.result.value
                  && FieldValue(schema[i], body, isEmail) == Some(step.result.value[schema[i].name]))
            && (forall k :: k in step.result.value <==> k == "_id" || k == "created_at" || Declares(schema, k))
            && Rows(step.after) == Rows(t) + [step.result.value])
  {
    ValidateSpec(schema, body, isEmail);
    ValidateFails(schema, body, isEmail);
    match Validate(schema, body, isEmail)
    case Err(_) =>
    case Ok(dump) =>
      var d := Submission(dump, freshId, now);
      InsertSpec(t, d);
      forall i | 0 <= i < |schema| ensures schema[i].name != "_id" && schema[i].name != "created_at" {
        assert Declares(schema, schema[i].name);
      }
  }

  /** One declared field in a submission: without a value for it the submission is a 422;
      a stored submission holds the field with that value. */
  lemma SubmittedField(t: Table, schema: seq<Field>, body: Doc, isEmail: string -> bool,
                       freshId: string, now: int, i: nat)
    requires WellFormed(t) && FormSchema(schema) && freshId !in t.docs && i < |schema|
    ensures var r := SubmitSpec(t, schema, body, isEmail, freshId, now).result;
      && (FieldValue(schema[i], body, isEmail).None? ==> r == Err(Unprocessable))
      && (r.Ok? ==> schema[i].name in r.value && FieldValue(schema[i], body, isEmail) == Some(r.value[schema[i].name]))
  {
    SubmitSpecProps(t, schema, body, isEmail, freshId, now);
    FieldOutcome(schema, body, isEmail, i);
  }

  /** A join request needs a name and an email address that passes the check; `age_group`
      and `message` default to "". */
  lemma JoinFields(t: Table, body: Doc, isEmail: string -> bool, freshId: string, now: int)
    requires WellFormed(t) && freshId !in t.docs
    ensures var r := SubmitSpec(t, JoinFormBase(), body, isEmail, freshId, now).result;
      && (!HasStr(body, "name") ==> r == Err(Unprocessable))
      && (!HasStr(body, "email") || !isEmail(body["email"].s) ==> r == Err(Unprocessable))
      && (r.Ok? && "age_group" !in body ==> "age_group" in r.value && r.value["age_group"] == VStr(""))
      && (r.Ok? && "message" !in body ==> "message" in r.value && r.value["message"] == VStr(""))
  {
    var schema := JoinFormBase();
    SubmittedField(t, schema, body, isEmail, freshId, now, 0);
    SubmittedField(t, schema, body, isEmail, freshId, now, 1);
    SubmittedField(t, schema, body, isEmail, freshId, now, 2);
    SubmittedField(t, schema, body, isEmail, freshId, now, 3);
  }

  /** A pledge needs a name, a checked email address and a numeric amount; `message`
      defaults to "". */
  lemma DonateFields(t: Table, body: Doc, isEmail: string -> bool, freshId: string, now: int)
    requires WellFormed(t) && freshId !in t.docs
    ensures var r := SubmitSpec(t, DonateFormBase(), body, isEmail, freshId, now).result;
      && (!HasStr(body, "name") ==> r == Err(Unprocessable))
      && (!HasStr(body, "email") || !isEmail(body["email"].s) ==> r == Err(Unprocessable))
      && (("amount" !in body || !(body["amount"].VNumber? || body["amount"].VInt?)) ==> r == Err(Unprocessable))
      && (r.Ok? && "message" !in body ==> "message" in r.value && r.value["message"] == VStr(""))
  {
    var schema := DonateFormBase();
    SubmittedField(t, schema, body, isEmail, freshId, now, 0);
    SubmittedField(t, schema, body, isEmail, freshId, now, 1);
    SubmittedField(t, schema, body, isEmail, freshId, now, 2);
    SubmittedField(t, schema, body, isEmail, freshId, now, 3);
  }

  /** A contact message needs both names, a checked email address and the message itself;
      phone, topic, relation and city default to "". */
  lemma ContactRequired(t: Table, body: Doc, isEmail: string -> bool, freshId: string, now: int)
    requires WellFormed(t) && freshId !in t.docs
    ensures var r := SubmitSpec(t, ContactFormBase(), body, isEmail, freshId, now).result;
      && (!HasStr(body, "first_name") ==> r == Err(Unprocessable))
      && (!HasStr(body, "last_name") ==> r == Err(Unprocessable))
      && (!HasStr(body, "email") || !isEmail(body["email"].s) ==> r == Err(Unprocessable))
      && (!HasStr(body, "message") ==> r == Err(Unprocessable))
  {
    var schema := ContactFormBase();
    SubmittedField(t, schema, body, isEmail, freshId, now, 0);
    SubmittedField(t, schema, body, isEmail, freshId, now, 1);
    SubmittedField(t, schema, body, isEmail, freshId, now, 2);
    SubmittedField(t, schema, body, isEmail, freshId, now, 7);
  }

  /** The optional contact fields default to "". */
  lemma ContactDefaults(t: Table, body: Doc, isEmail: string -> bool, freshId: string, now: int)
    requires WellFormed(t) && freshId !in t.docs
    ensures var r := SubmitSpec(t, ContactFormBase(), body, isEmail, freshId, now).result;
      r.Ok? ==>
        && ("phone" !in body ==> "phone" in r.value && r.value["phone"] == VStr(""))
        && ("topic" !in body ==> "topic" in r.value && r.value["topic"] == VStr(""))
        && ("relation" !in body ==> "relation" in r.value && r.value["relation"] == VStr(""))
        && ("city" !in body ==> "city" in r.value && r.value["city"] == VStr(""))
  {
    var schema := ContactFormBase();
    SubmittedField(t, schema, body, isEmail, freshId, now, 3);
    SubmittedField(t, schema, body, isEmail, freshId, now, 4);
    SubmittedField(t, schema, body, isEmail, freshId, now, 5);
    SubmittedField(t, schema, body, isEmail, freshId, now, 6);
  }

  /** A list holds at most 500 stored submissions, newest first. */
  lemma ListFormsNewestFirst(t: Table)
    requires WellFormed(t)
    ensures var r := ListFormsSpec(t);
      && |r| == (if |t.ids| <= FormsLimit then |t.ids| else FormsLimit)
      && (forall i, j :: 0 <= i < j < |r| ==> TimeField(r[i], "created_at") >= TimeField(r[j], "created_at"))
      && (forall d :: d in r ==> d in Rows(t))
      && multiset(r) <= multiset(Rows(t))
      && (forall d, e :: d in Rows(t) && d !in r && e in r ==> TimeField(e, "created_at") >= TimeField(d, "created_at"))
  {
    var r := ListFormsSpec(t);
    forall i, j | 0 <= i < j < |r| ensures TimeField(r[i], "created_at") >= TimeField(r[j], "created_at") {
      assert NewestFirstKey(r[i]) <= NewestFirstKey(r[j]);
    }
    forall d, e | d in Rows(t) && d !in r && e in r ensures TimeField(e, "created_at") >= TimeField(d, "created_at") {
      assert NewestFirstKey(e) <= NewestFirstKey(d);
    }
  }

  /** With no more than 500 submissions stored, the list holds every one of them. */
  lemma ListFormsComplete(t: Table)
    requires WellFormed(t) && |t.ids| <= FormsLimit
    ensures forall k :: k in t.docs ==> t.docs[k] in ListFormsSpec(t)
  {
    var rows := Rows(t);
    var r := ListFormsSpec(t);
    assert multiset(r) == multiset(rows);
    forall k | k in t.docs ensures t.docs[k] in r {
      var i :| 0 <= i < |t.ids| && t.ids[i] == k;
      assert rows[i] == t.docs[k];
      assert t.docs[k] in multiset(rows);
    }
  }

  /** A submission made later than every stored one heads the next list. */
  lemma SubmitThenListFirst(t: Table, schema: seq<Field>, body: Doc, isEmail: string -> bool,
                            freshId: string, now: int)
    requires WellFormed(t) && FormSchema(schema) && freshId !in t.docs
    requires forall k :: k in t.docs ==> TimeField(t.docs[k], "created_at") < now
    ensures var step := SubmitSpec(t, schema, body, isEmail, freshId, now);
      step.result.Ok? ==> |ListFormsSpec(step.after)| > 0 && ListFormsSpec(step.after)[0] == step.result.value
  {
    var step := SubmitSpec(t, schema, body, isEmail, freshId, now);
    if step.result.Ok? {
      var d := Submission(Validate(schema, body, isEmail).value, freshId, now);
      assert step.result == Ok(d) && step.after == Insert(t, d);
      NewestHeadsList(t, d, now);
    }
  }

  /** A document stamped later than every stored one heads the list once inserted. */
  lemma NewestHeadsList(t: Table, d: Doc, now: int)
    requires WellFormed(t) && "_id" in d && d["_id"].VStr? && IdOf(d) !in t.docs
    requires "created_at" in d && d["created_at"] == VTime(now)
    requires forall k :: k in t.docs ==> TimeField(t.docs[k], "created_at") < now
    ensures WellFormed(Insert(t, d))
    ensures |ListFormsSpec(Insert(t, d))| > 0 && ListFormsSpec(Insert(t, d))[0] == d
  {
    InsertSpec(t, d);
    StoredBefore(t, now);
    NewestHeads(Rows(t), d, now);
  }

  /** Every stored document is older than `now` when every record is. */
  lemma StoredBefore(t: Table, now: int)
    requires WellFormed(t)
    requires forall k :: k in t.docs ==> TimeField(t.docs[k], "created_at") < now
    ensures forall y :: y in Rows(t) ==> TimeField(y, "created_at") < now
  {
    var stored := Rows(t);
    forall y | y in stored ensures TimeField(y, "created_at") < now {
      var i :| 0 <= i < |stored| && stored[i] == y;
      assert t.ids[i] in t.docs;
    }
  }

  /** `NewestHeadsList` on the stored documents `stored`. */
  lemma NewestHeads(stored: seq<Doc>, d: Doc, now: int)
    requires TimeField(d, "created_at") == now
    requires forall y :: y in stored ==> TimeField(y, "created_at") < now
    ensures var r := SortedPrefix(stored + [d], NewestFirstKey, FormsLimit); |r| > 0 && r[0] == d
  {
    var rows := stored + [d];
    forall y | y in rows && y != d ensures NewestFirstKey(d) < NewestFirstKey(y) {
      assert y in stored;
    }
    SortedFirst(rows, NewestFirstKey, d);
  }

  /** `submit_*` on a collection. */
  method Submit(c: Collection, schema: seq<Field>, body: Doc, isEmail: string -> bool,
                freshId: string, now: int) returns (r: Result<Doc>)
    requires c.Valid() && FormSchema(schema) && freshId !in c.docs
    modifies c
    ensures c.Valid()
    ensures var step := SubmitSpec(old(c.Value()), schema, body, isEmail, freshId, now);
      r == step.result && c.Value() == step.after
  {
    var dump := Validate(schema, body, isEmail);
    if dump.Err? {
      return Err(dump.status);
    }
    var doc := Submission(dump.value, freshId, now);
    c.InsertOne(doc);
    r := Ok(doc);
  }

  /** `list_*` on a collection. */
  method ListForms(c: Collection) returns (items: seq<Doc>)
    requires c.Valid()
    ensures items == ListFormsSpec(c.Value())
  {
    items := c.FindSorted(NewestFirstKey, FormsLimit);
  }

  /** `submit_join`. */
  method SubmitJoin(c: Collection, body: Doc, isEmail: string -> bool, freshId: string, now: int)
    returns (r: Result<Doc>)
    requires c.Valid() && freshId !in c.docs
    modifies c
    ensures c.Valid()
    ensures var step := SubmitSpec(old(c.Value()), JoinFormBase(), body, isEmail, freshId, now);
      r == step.result && c.Value() == step.after
  {
    r := Submit(c, JoinFormBase(), body, isEmail, freshId, now);
  }

  /** `submit_donate`. */
  method SubmitDonate(c: Collection, body: Doc, isEmail: string -> bool, freshId: string, now: int)
    returns (r: Result<Doc>)
    requires c.Valid() && freshId !in c.docs
    modifies c
    ensures c.Valid()
    ensures var step := SubmitSpec(old(c.Value()), DonateFormBase(), body, isEmail, freshId, now);
      r == step.result && c.Value() == step.after
  {
    r := Submit(c, DonateFormBase(), body, isEmail, freshId, now);
  }

  /** `submit_contact`. */
  method SubmitContact(c: Collection, body: Doc, isEmail: string -> bool, freshId: string, now: int)
    returns (r: Result<Doc>)
    requires c.Valid() && freshId !in c.docs
    modifies c
    ensures c.Valid()
    ensures var step := SubmitSpec(old(c.Value()), ContactFormBase(), body, isEmail, freshId, now);
      r == step.result && c.Value() == step.after
  {
    r := Submit(c, ContactFormBase(), body, isEmail, freshId, now);
  }
}
