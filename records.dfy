/** The five handlers the programs, events, gallery and leadership routes share: list
    (seed an empty collection with the defaults, then sort by `order`, at most 100), get,
    create (validated body plus a fresh uuid), update (`$set` of the non-null fields of a
    patch body) and delete. Each handler is a specification function from the collection
    before to its result and the collection after, and a method on a `Collection` proved
    against it. The admin dependency is the `admin` flag: without it a write is a 401
    before anything else. */
module Records {
  import opened Common
  import opened Docs
  import opened Schema
  import opened Store

  /** What a handler returns and the collection it leaves behind. */
  datatype Step<T> = Step(result: T, after: Table)

  /** The page size of the list endpoints (`to_list(100)`). */
  const ListLimit: nat := 100

  /** A record model: distinct field names, none of them `_id`. */
  predicate RecordSchema(schema: seq<Field>) {
    DistinctNames(schema) && !Declares(schema, "_id")
  }

  /** `{"message": text}` of the delete endpoints. */
  function Message(text: string): Doc {
    map["message" := VStr(text)]
  }

  /** The address of an Unsplash photo at the given width, as the default records use. */
  function UnsplashUrl(photo: string, width: string): (url: string)
    ensures |url| > 0
  {
    "https://images.unsplash.com/photo-" + photo + "?w=" + width
  }

  /** The collection a list request reads: seeded with the defaults when it was empty. */
  function Seeded(t: Table, defaults: seq<Doc>): (s: Table)
    requires WellFormed(t) && SeedsKeyed(defaults)
    ensures WellFormed(s)
    ensures |t.ids| > 0 ==> s == t
    ensures |t.ids| == 0 ==> Rows(s) == defaults
  {
    if |t.ids| == 0 then
      InsertManySpec(t, defaults);
      assert Rows(t) == [];
      InsertMany(t, defaults)
    else t
  }

  /** `list_*`: `find().sort("order", 1).to_list(100)`; when that is empty, insert the
      defaults one by one and read again. */
  function ListSpec(t: Table, defaults: seq<Doc>): Step<seq<Doc>>
    requires WellFormed(t) && SeedsKeyed(defaults)
  {
    var s := Seeded(t, defaults);
    Step(RenamedAll(SortedPrefix(Rows(s), OrderKey, ListLimit)), s)
  }

  /** `get_*`: the stored document under `id`, or 404. */
  function GetSpec(t: Table, id: string): Result<Doc> {
    if id in t.docs then Ok(Renamed(t.docs[id])) else Err(NotFound)
  }

  /** `doc = model.model_dump(); doc["_id"] = str(uuid.uuid4())`. */
  function NewRecord(dump: Doc, id: string): (d: Doc)
    ensures KeyedBy(d, id) && IdOf(d) == id
    ensures forall k :: k != "_id" ==> (k in d <==> k in dump)
    ensures forall k :: k in dump && k != "_id" ==> d[k] == dump[k]
  {
    dump["_id" := VStr(id)]
  }

  /** `create_*`: validate the body, store it under the fresh id `freshId`, return it. */
  function CreateSpec(t: Table, schema: seq<Field>, body: Doc, isEmail: string -> bool,
                      admin: bool, freshId: string): Step<Result<Doc>>
  {
    if !admin then Step(Err(Unauthorized), t)
    else
      match Validate(schema, body, isEmail)
      case Err(e) => Step(Err(e), t)
      case Ok(dump) =>
        var d := NewRecord(dump, freshId);
        Step(Ok(Renamed(d)), Insert(t, d))
  }

  /** `update_data` of an update handler: the non-null fields of the validated patch;
      an empty patch is a 400. */
  function PatchData(schema: seq<Field>, body: Doc, isEmail: string -> bool): (r: Result<Doc>)
    requires DistinctNames(schema) && AllOptional(schema)
    ensures r.Err? <==> Validate(schema, body, isEmail).Err? || Supplied(Validate(schema, body, isEmail).value) == map[]
    ensures r.Ok? ==> r.value != map[] && forall k :: k in r.value <==> Declares(schema, k) && k in body && body[k] != VNull
    ensures r.Ok? ==> forall k :: k in r.value ==> r.value[k] == body[k]
  {
    PatchSpec(schema, body, isEmail);
    match Validate(schema, body, isEmail)
    case Err(e) => Err(e)
    case Ok(dump) =>
      var data := Supplied(dump);
      if data == map[] then Err(BadRequest) else Ok(data)
  }

  /** `update_*`: an empty patch is a 400 before the id is looked up; an unknown id is a
      404; otherwise the supplied fields are `$set` and the document is read back. */
  function UpdateSpec(t: Table, schema: seq<Field>, id: string, body: Doc, isEmail: string -> bool,
                      admin: bool): Step<Result<Doc>>
    requires RecordSchema(schema) && AllOptional(schema)
  {
    if !admin then Step(Err(Unauthorized), t)
    else
      match PatchData(schema, body, isEmail)
      case Err(e) => Step(Err(e), t)
      case Ok(data) =>
        if id !in t.docs then Step(Err(NotFound), t)
        else
          var u := SetOne(t, id, data);
          Step(Ok(Renamed(u.docs[id])), u)
  }

  /** `delete_*`: `delete_one`, and 404 when it deleted nothing. */
  function DeleteSpec(t: Table, id: string, admin: bool, message: string): Step<Result<Doc>> {
    if !admin then Step(Err(Unauthorized), t)
    else if id !in t.docs then Step(Err(NotFound), t)
    else Step(Ok(Message(message)), Remove(t, id))
  }

  /** A list request seeds only an empty collection, returns at most 100 documents in
      non-decreasing `order`, each one a stored document with `_id` renamed, and holds
      every stored document when there are at most 100. */
  lemma ListSpecProps(t: Table, defaults: seq<Doc>)
    requires WellFormed(t) && SeedsKeyed(defaults)
    ensures var step := ListSpec(t, defaults);
      && WellFormed(step.after)
      && (|t.ids| > 0 ==> step.after == t)
      && (|t.ids| == 0 ==> Rows(step.after) == defaults)
      && |step.result| == (if |step.after.ids| <= ListLimit then |step.after.ids| else ListLimit)
      && (forall i, j :: 0 <= i < j < |step.result| ==> OrderKey(step.result[i]) <= OrderKey(step.result[j]))
      && (forall i :: 0 <= i < |step.result| ==> ListedFrom(step.after, step.result[i]))
      && (|step.after.ids| <= ListLimit ==> forall k :: k in step.after.docs ==> Renamed(step.after.docs[k]) in step.result)
      && (forall i, j :: 0 <= i < j < |step.result| ==>
            "id" in step.result[i] && "id" in step.result[j] && step.result[i]["id"] != step.result[j]["id"])
      && (forall k, i :: (k in step.after.docs && Renamed(step.after.docs[k]) !in step.result && 0 <= i < |step.result|)
            ==> OrderKey(step.result[i]) <= OrderKey(step.after.docs[k]))
  {
    var s := Seeded(t, defaults);
    ListedItemsProps(s, SortedPrefix(Rows(s), OrderKey, ListLimit));
  }

  /** What a sorted, capped selection of a table's rows gives once `_id` is renamed. */
  lemma ListedItemsProps(s: Table, items: seq<Doc>)
    requires WellFormed(s) && SortedBy(items, OrderKey)
    requires multiset(items) <= multiset(Rows(s))
    requires |Rows(s)| <= ListLimit ==> multiset(items) == multiset(Rows(s))
    requires forall d :: d in items ==> d in Rows(s)
    requires forall d, e :: d in Rows(s) && d !in items && e in items ==> OrderKey(e) <= OrderKey(d)
    ensures var r := RenamedAll(items);
      && (forall i, j :: 0 <= i < j < |r| ==> OrderKey(r[i]) <= OrderKey(r[j]))
      && (forall i :: 0 <= i < |r| ==> ListedFrom(s, r[i]))
      && (|s.ids| <= ListLimit ==> forall k :: k in s.docs ==> Renamed(s.docs[k]) in r)
      && (forall i, j :: 0 <= i < j < |r| ==> "id" in r[i] && "id" in r[j] && r[i]["id"] != r[j]["id"])
      && (forall k, i :: (k in s.docs && Renamed(s.docs[k]) !in r && 0 <= i < |r|) ==> OrderKey(r[i]) <= OrderKey(s.docs[k]))
  {
    RenamedKeepsOrder(items);
    ListedAreStored(s, items);
    if |s.ids| <= ListLimit {
      StoredAreListed(s, items);
    }
    RowsNoRepeats(s);
    NoRepeatsWithin(items, Rows(s));
    ListedOnce(s, items);
    LeftOutOrderedLater(s, items);
  }

  /** A stored document whose response is not listed has an `order` no smaller than any
      listed one's. */
  lemma LeftOutOrderedLater(s: Table, items: seq<Doc>)
    requires WellFormed(s)
    requires forall d, e :: d in Rows(s) && d !in items && e in items ==> OrderKey(e) <= OrderKey(d)
    ensures forall k, i :: (k in s.docs && Renamed(s.docs[k]) !in RenamedAll(items) && 0 <= i < |items|) ==>
              OrderKey(RenamedAll(items)[i]) <= OrderKey(s.docs[k])
  {
    var r := RenamedAll(items);
    forall k, i | k in s.docs && Renamed(s.docs[k]) !in r && 0 <= i < |items|
      ensures OrderKey(r[i]) <= OrderKey(s.docs[k])
    {
      var n :| 0 <= n < |s.ids| && s.ids[n] == k;
      assert Rows(s)[n] == s.docs[k];
      forall m | 0 <= m < |items| ensures items[m] != s.docs[k] {
        assert r[m] in r;
      }
      assert items[i] in items;
      assert OrderKey(r[i]) == OrderKey(items[i]);
    }
  }

  /** The documents of a table are told apart by their ids, so none is stored twice. */
  lemma RowsNoRepeats(s: Table)
    requires WellFormed(s)
    ensures NoRepeats(Rows(s))
  {
    var rows := Rows(s);
    forall i, j | 0 <= i < j < |rows| ensures rows[i] != rows[j] {
      assert s.ids[i] in s.docs && s.ids[j] in s.docs;
      assert KeyedBy(s.docs[s.ids[i]], s.ids[i]) && KeyedBy(s.docs[s.ids[j]], s.ids[j]);
    }
  }

  /** Stored documents listed without repeats carry distinct ids. */
  lemma ListedOnce(s: Table, items: seq<Doc>)
    requires WellFormed(s) && NoRepeats(items)
    requires forall d :: d in items ==> d in Rows(s)
    ensures forall i, j :: 0 <= i < j < |items| ==>
              "id" in RenamedAll(items)[i] && "id" in RenamedAll(items)[j] && RenamedAll(items)[i]["id"] != RenamedAll(items)[j]["id"]
  {
    var r := RenamedAll(items);
    forall i | 0 <= i < |items| ensures "id" in r[i] && r[i]["id"] == VStr(IdOf(items[i])) {
      assert items[i] in items;
      RowIsStored(s, items[i]);
    }
    forall i, j | 0 <= i < j < |items| ensures "id" in r[i] && "id" in r[j] && r[i]["id"] != r[j]["id"] {
      assert items[i] in items && items[j] in items;
      RowIsStored(s, items[i]);
      RowIsStored(s, items[j]);
    }
  }

  /** Renaming `_id` keeps the `order` of every document. */
  lemma RenamedKeepsOrder(items: seq<Doc>)
    requires SortedBy(items, OrderKey)
    ensures forall i, j :: 0 <= i < j < |items| ==> OrderKey(RenamedAll(items)[i]) <= OrderKey(RenamedAll(items)[j])
  {
    var r := RenamedAll(items);
    forall i, j | 0 <= i < j < |r| ensures OrderKey(r[i]) <= OrderKey(r[j]) {
      assert OrderKey(r[i]) == OrderKey(items[i]) && OrderKey(r[j]) == OrderKey(items[j]);
    }
  }

  /** A listed item is the response of the document stored under the id it carries. */
  ghost predicate ListedFrom(s: Table, r: Doc) {
    "id" in r && r["id"].VStr? && r["id"].s in s.docs && r == Renamed(s.docs[r["id"].s])
  }

  lemma ListedAreStored(s: Table, items: seq<Doc>)
    requires WellFormed(s)
    requires forall d :: d in items ==> d in Rows(s)
    ensures forall i :: 0 <= i < |items| ==> ListedFrom(s, RenamedAll(items)[i])
  {
    forall i | 0 <= i < |items| ensures ListedFrom(s, RenamedAll(items)[i]) {
      assert items[i] in items;
      RowIsStored(s, items[i]);
    }
  }

  /** A row is the document stored under its own id. */
  lemma RowIsStored(s: Table, d: Doc)
    requires WellFormed(s) && d in Rows(s)
    ensures IdOf(d) in s.docs && s.docs[IdOf(d)] == d
    ensures ListedFrom(s, Renamed(d))
  {
    var n :| 0 <= n < |Rows(s)| && Rows(s)[n] == d;
    assert s.ids[n] in s.docs;
    assert KeyedBy(s.docs[s.ids[n]], s.ids[n]);
  }

  lemma StoredAreListed(s: Table, items: seq<Doc>)
    requires WellFormed(s)
    requires multiset(items) == multiset(Rows(s))
    ensures forall k :: k in s.docs ==> Renamed(s.docs[k]) in RenamedAll(items)
  {
    var r := RenamedAll(items);
    forall k | k in s.docs ensures Renamed(s.docs[k]) in r {
      var n :| 0 <= n < |s.ids| && s.ids[n] == k;
      assert Rows(s)[n] == s.docs[k];
      assert s.docs[k] in multiset(items);
      var m :| 0 <= m < |items| && items[m] == s.docs[k];
      assert r[m] == Renamed(s.docs[k]);
    }
  }

  /** The first list of an empty collection whose defaults have distinct ids, are already
      in `order` and fit in one page returns exactly the defaults, each of which a get then
      finds. */
  lemma ListSeedsInOrder(t: Table, seeds: seq<Seed>)
    requires WellFormed(t) && |t.ids| == 0 && SeedsValid(seeds) && |seeds| <= ListLimit
    ensures SeedsKeyed(SeedDocs(seeds))
    ensures var step := ListSpec(t, SeedDocs(seeds));
      && |step.result| == |seeds|
      && forall i :: 0 <= i < |seeds| ==>
           step.result[i] == Renamed(SeedDoc(seeds[i])) && GetSpec(step.after, seeds[i].id) == Ok(step.result[i])
  {
    var defaults := SeedDocs(seeds);
    SeedDocsKeyed(seeds);
    var s := Seeded(t, defaults);
    SortSorted(defaults, OrderKey);
    forall i | 0 <= i < |defaults| ensures GetSpec(s, IdOf(defaults[i])) == Ok(Renamed(defaults[i])) {
      assert defaults[i] in Rows(s);
      RowIsStored(s, defaults[i]);
    }
  }

  /** The response of a default record: its id, its `order` and its other fields. */
  lemma SeedResponse(s: Seed)
    ensures var r := Renamed(SeedDoc(s));
      && "id" in r && r["id"] == VStr(s.id)
      && "order" in r && r["order"] == VInt(s.order)
      && forall k :: k in s.fields && k != "_id" && k != "id" && k != "order" ==> k in r && r[k] == s.fields[k]
  {
  }

  /** Listing twice: the second request seeds nothing and returns the same list. */
  lemma ListTwice(t: Table, defaults: seq<Doc>)
    requires WellFormed(t) && SeedsKeyed(defaults)
    ensures var first := ListSpec(t, defaults);
      ListSpec(first.after, defaults) == first
  {
    var s := Seeded(t, defaults);
    if |s.ids| == 0 {
      assert |defaults| == 0;
      assert InsertMany(s, defaults) == s;
    }
  }

  /** A created record is stored under the fresh id, after every earlier record; the
      response carries that id (whatever id the body held) and every declared field with
      its validated value or default; a later get returns the same response. */
  lemma CreateSpecProps(t: Table, schema: seq<Field>, body: Doc, isEmail: string -> bool, freshId: string)
    requires WellFormed(t) && RecordSchema(schema) && !Declares(schema, "id") && freshId !in t.docs
    ensures var step := CreateSpec(t, schema, body, isEmail, true, freshId);
      && WellFormed(step.after)
      && (step.result.Ok? <==> Validate(schema, body, isEmail).Ok?)
      && (step.result.Err? ==> step.result == Err(Unprocessable) && step.after == t)
      && (step.result.Ok? ==>
            && step.result.value["id"] == VStr(freshId)
            && "_id" !in step.result.value
            && (forall i :: 0 <= i < |schema| ==>
                  schema[i].name in step.result.value
                  && FieldValue(schema[i], body, isEmail) == Some(step.result.value[schema[i].name]))
            && (forall k :: k in step.result.value <==> k == "id" || Declares(schema, k))
            && Rows(step.after) == Rows(t) + [NewRecord(Validate(schema, body, isEmail).value, freshId)]
            && GetSpec(step.after, freshId) == step.result)
  {
    ValidateSpec(schema, body, isEmail);
    match Validate(schema, body, isEmail)
    case Err(e) =>
      assert Validate(schema, body, isEmail) == Err(Unprocessable) by { ValidateFails(schema, body, isEmail); }
    case Ok(dump) =>
      var d := NewRecord(dump, freshId);
      InsertSpec(t, d);
      CreatedResponse(schema, body, isEmail, freshId);
  }

  /** The response of a successful create: the fresh id and exactly the declared fields,
      each with its validated value. */
  lemma CreatedResponse(schema: seq<Field>, body: Doc, isEmail: string -> bool, freshId: string)
    requires RecordSchema(schema) && !Declares(schema, "id") && Validate(schema, body, isEmail).Ok?
    ensures var r := Renamed(NewRecord(Validate(schema, body, isEmail).value, freshId));
      && "id" in r && r["id"] == VStr(freshId)
      && (forall i :: 0 <= i < |schema| ==>
            schema[i].name in r && FieldValue(schema[i], body, isEmail) == Some(r[schema[i].name]))
      && (forall k :: k in r <==> k == "id" || Declares(schema, k))
  {
    ValidateSpec(schema, body, isEmail);
    forall i | 0 <= i < |schema| ensures schema[i].name != "_id" && schema[i].name != "id" {
      assert Declares(schema, schema[i].name);
    }
  }

  /** One declared field in a create: without a value for it the create is a 422; after
      a successful create the response holds the field with that value. */
  lemma CreatedField(t: Table, schema: seq<Field>, body: Doc, isEmail: string -> bool, freshId: string, i: nat)
    requires WellFormed(t) && RecordSchema(schema) && !Declares(schema, "id") && freshId !in t.docs
    requires i < |schema|
    ensures var r := CreateSpec(t, schema, body, isEmail, true, freshId).result;
      && (FieldValue(schema[i], body, isEmail).None? ==> r == Err(Unprocessable))
      && (r.Ok? ==> schema[i].name in r.value && FieldValue(schema[i], body, isEmail) == Some(r.value[schema[i].name]))
  {
    CreateSpecProps(t, schema, body, isEmail, freshId);
    FieldOutcome(schema, body, isEmail, i);
  }

  /** The error precedence of an update: 401, then 422, then 400 for a body supplying no
      declared non-null field (whatever the id), then 404; an error leaves the collection
      as it was. */
  lemma UpdatePrecedence(t: Table, schema: seq<Field>, id: string, body: Doc, isEmail: string -> bool, admin: bool)
    requires RecordSchema(schema) && AllOptional(schema)
    ensures var step := UpdateSpec(t, schema, id, body, isEmail, admin);
      && (step.result.Err? ==> step.after == t)
      && (step.result == Err(Unauthorized) <==> !admin)
      && (step.result == Err(Unprocessable) <==> admin && Validate(schema, body, isEmail).Err?)
      && (step.result == Err(BadRequest) <==>
            admin && Validate(schema, body, isEmail).Ok?
            && forall k :: Declares(schema, k) && k in body ==> body[k] == VNull)
      && (step.result == Err(NotFound) <==> admin && PatchData(schema, body, isEmail).Ok? && id !in t.docs)
  {
    ValidateFails(schema, body, isEmail);
    PatchSpec(schema, body, isEmail);
    var data := PatchData(schema, body, isEmail);
    if admin && Validate(schema, body, isEmail).Ok? {
      var supplied := Supplied(Validate(schema, body, isEmail).value);
      if supplied != map[] {
        var k :| k in supplied;
        assert Declares(schema, k) && k in body && body[k] != VNull;
      }
    }
  }

  /** A successful update changes only the document under `id`, and in it only the fields
      the body supplies non-null; the response is that document, which a get returns too. */
  lemma UpdateOnlySupplied(t: Table, schema: seq<Field>, id: string, body: Doc, isEmail: string -> bool)
    requires WellFormed(t) && RecordSchema(schema) && AllOptional(schema)
    ensures var step := UpdateSpec(t, schema, id, body, isEmail, true);
      && WellFormed(step.after)
      && (step.result.Ok? ==>
            && id in t.docs && id in step.after.docs
            && step.after.ids == t.ids
            && (forall k :: k in t.docs && k != id ==> step.after.docs[k] == t.docs[k])
            && (forall k :: Declares(schema, k) && k in body && body[k] != VNull ==>
                  k in step.after.docs[id] && step.after.docs[id][k] == body[k])
            && (forall k :: !(Declares(schema, k) && k in body && body[k] != VNull) ==>
                  (k in step.after.docs[id] <==> k in t.docs[id])
                  && (k in t.docs[id] ==> step.after.docs[id][k] == t.docs[id][k]))
            && GetSpec(step.after, id) == step.result)
  {
    match PatchData(schema, body, isEmail)
    case Err(_) =>
    case Ok(data) =>
      assert "_id" !in data;
      SetOneSpec(t, id, data);
  }

  /** A delete succeeds exactly when the id is stored; afterwards a get of it is a 404 and
      every other document is still there, unchanged. */
  lemma DeleteThenGet(t: Table, id: string, message: string)
    requires WellFormed(t)
    ensures var step := DeleteSpec(t, id, true, message);
      && WellFormed(step.after)
      && (step.result.Ok? <==> id in t.docs)
      && (step.result.Err? ==> step.result == Err(NotFound) && step.after == t)
      && GetSpec(step.after, id) == Err(NotFound)
      && (forall k :: k in t.docs && k != id ==> GetSpec(step.after, k) == GetSpec(t, k))
  {
    RemoveSpec(t, id);
  }

  /** `list_*` on a collection. */
  method List(c: Collection, defaults: seq<Doc>) returns (items: seq<Doc>)
    requires c.Valid() && SeedsKeyed(defaults)
    modifies c
    ensures c.Valid()
    ensures var step := ListSpec(old(c.Value()), defaults); items == step.result && c.Value() == step.after
  {
    var found := c.FindSorted(OrderKey, ListLimit);
    if |found| == 0 {
      c.InsertAll(defaults);
      found := c.FindSorted(OrderKey, ListLimit);
    }
    items := RenamedAll(found);
  }

  /** `get_*` on a collection. */
  method Get(c: Collection, id: string) returns (r: Result<Doc>)
    ensures r == GetSpec(c.Value(), id)
  {
    var doc := c.FindOne(id);
    if doc.None? {
      r := Err(NotFound);
    } else {
      r := Ok(Renamed(doc.value));
    }
  }

  /** `create_*` on a collection, with `freshId` the uuid it draws. */
  method Create(c: Collection, schema: seq<Field>, body: Doc, isEmail: string -> bool,
                admin: bool, freshId: string) returns (r: Result<Doc>)
    requires c.Valid() && freshId !in c.docs
    modifies c
    ensures c.Valid()
    ensures var step := CreateSpec(old(c.Value()), schema, body, isEmail, admin, freshId);
      r == step.result && c.Value() == step.after
  {
    if !admin {
      return Err(Unauthorized);
    }
    var validated := Validate(schema, body, isEmail);
    if validated.Err? {
      return Err(validated.status);
    }
    var doc := NewRecord(validated.value, freshId);
    c.InsertOne(doc);
    r := Ok(Renamed(doc));
  }

  /** `update_*` on a collection. */
  method Update(c: Collection, schema: seq<Field>, id: string, body: Doc, isEmail: string -> bool,
                admin: bool) returns (r: Result<Doc>)
    requires c.Valid() && RecordSchema(schema) && AllOptional(schema)
    modifies c
    ensures c.Valid()
    ensures var step := UpdateSpec(old(c.Value()), schema, id, body, isEmail, admin);
      r == step.result && c.Value() == step.after
  {
    if !admin {
      return Err(Unauthorized);
    }
    var data := PatchData(schema, body, isEmail);
    if data.Err? {
      return Err(data.status);
    }
    var matched := c.UpdateOne(id, data.value);
    if !matched {
      return Err(NotFound);
    }
    var doc := c.FindOne(id);
    r := Ok(Renamed(doc.value));
  }

  /** `delete_*` on a collection. */
  method Delete(c: Collection, id: string, admin: bool, message: string) returns (r: Result<Doc>)
    requires c.Valid()
    modifies c
    ensures c.Valid()
    ensures var step := DeleteSpec(old(c.Value()), id, admin, message);
      r == step.result && c.Value() == step.after
  {
    if !admin {
      return Err(Unauthorized);
    }
    var deleted := c.DeleteOne(id);
    if !deleted {
      return Err(NotFound);
    }
    r := Ok(Message(message));
  }
}
