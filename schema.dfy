/** Request validation as the pydantic models of the routes perform it: a model is a
    list of declared fields; validating a JSON body gives `model_dump()` (every declared
    field, with its default when the body leaves it out) or a 422 error. Undeclared keys
    of the body are ignored. Multipart forms (FastAPI `Form(...)` parameters) follow the
    same rules over text values, except that an empty text counts as missing. */
module Schema {
  import opened Common
  import opened Docs
  import Text

  datatype Kind = KStr | KInt | KStrs | KEmail | KFloat

  /** A declared field: `name: kind`, `Optional[kind]` when nullable, `= default` when it has one. */
  datatype Field = Field(name: string, kind: Kind, nullable: bool, default: Option<Value>)

  /** `name: kind` with no default: the body must supply it. */
  function Required(name: string, kind: Kind): Field {
    Field(name, kind, false, None)
  }

  /** `name: kind = default`. */
  function WithDefault(name: string, kind: Kind, default: Value): Field {
    Field(name, kind, false, Some(default))
  }

  /** `name: Optional[kind] = None`, the fields of a patch model. */
  function Patch(name: string, kind: Kind): Field {
    Field(name, kind, true, Some(VNull))
  }

  /** The e-mail check of a model with no `EmailStr` field (it is never consulted). */
  function NoEmailCheck(s: string): bool {
    false
  }

  predicate DistinctNames(schema: seq<Field>) {
    forall i, j :: 0 <= i < j < |schema| ==> schema[i].name != schema[j].name
  }

  predicate Declares(schema: seq<Field>, name: string) {
    exists i :: 0 <= i < |schema| && schema[i].name == name
  }

  /** The fields after the first: still distinct, and declaring exactly the names of the
      whole model other than the first. */
  lemma DeclaresTail(schema: seq<Field>)
    requires DistinctNames(schema) && |schema| > 0
    ensures DistinctNames(schema[1..])
    ensures forall k :: Declares(schema, k) <==> k == schema[0].name || Declares(schema[1..], k)
    ensures !Declares(schema[1..], schema[0].name)
  {
    var tail := schema[1..];
    forall i, j | 0 <= i < j < |tail| ensures tail[i].name != tail[j].name {
      assert tail[i] == schema[i + 1] && tail[j] == schema[j + 1];
    }
    forall k ensures Declares(schema, k) <==> k == schema[0].name || Declares(tail, k) {
      if Declares(tail, k) {
        var i :| 0 <= i < |tail| && tail[i].name == k;
        assert schema[i + 1].name == k;
      }
      if Declares(schema, k) && k != schema[0].name {
        var i :| 0 <= i < |schema| && schema[i].name == k;
        assert tail[i - 1].name == k;
      }
    }
  }

  /** Whether a non-null value has the declared kind (`EmailStr` by the `isEmail` check). */
  predicate HasKind(v: Value, k: Kind, isEmail: string -> bool) {
    match k
    case KStr => v.VStr?
    case KInt => v.VInt?
    case KStrs => v.VStrs?
    case KEmail => v.VStr? && isEmail(v.s)
    case KFloat => v.VNumber? || v.VInt?
  }

  /** The value the model gives field `f` for this body; None is a validation error. */
  function FieldValue(f: Field, body: Doc, isEmail: string -> bool): Option<Value> {
    if f.name in body then
      var v := body[f.name];
      if v.VNull? then (if f.nullable then Some(VNull) else None)
      else if HasKind(v, f.kind, isEmail) then Some(v)
      else None
    else f.default
  }

  /** `Model(**body).model_dump()`, or a 422 when a field is missing or has the wrong type. */
  function Validate(schema: seq<Field>, body: Doc, isEmail: string -> bool): Result<Doc> {
    if |schema| == 0 then Ok(map[])
    else
      match FieldValue(schema[0], body, isEmail)
      case None => Err(Unprocessable)
      case Some(v) =>
        match Validate(schema[1..], body, isEmail)
        case Err(e) => Err(e)
        case Ok(rest) => Ok(rest[schema[0].name := v])
  }

  /** Validation succeeds exactly when every declared field gets a value, and the dump
      holds exactly the declared fields, each with that value. */
  lemma {:induction false} ValidateSpec(schema: seq<Field>, body: Doc, isEmail: string -> bool)
    requires DistinctNames(schema)
    ensures Validate(schema, body, isEmail).Ok?
        <==> forall i :: 0 <= i < |schema| ==> FieldValue(schema[i], body, isEmail).Some?
    ensures Validate(schema, body, isEmail).Ok? ==>
        var dump := Validate(schema, body, isEmail).value;
        && (forall k :: k in dump <==> Declares(schema, k))
        && (forall i :: 0 <= i < |schema| ==> dump[schema[i].name] == FieldValue(schema[i], body, isEmail).value)
    decreases |schema|
  {
    if |schema| > 0 {
      var tail := schema[1..];
      DeclaresTail(schema);
      ValidateSpec(tail, body, isEmail);
      assert forall i :: 0 < i < |schema| ==> schema[i] == tail[i - 1];
    }
  }

  /** One field's part in validation: a field without a value fails the whole body with a
      422, and in a successful dump each field holds its own value. */
  lemma FieldOutcome(schema: seq<Field>, body: Doc, isEmail: string -> bool, i: nat)
    requires DistinctNames(schema) && i < |schema|
    ensures FieldValue(schema[i], body, isEmail).None? ==> Validate(schema, body, isEmail) == Err(Unprocessable)
    ensures Validate(schema, body, isEmail).Ok? ==>
      schema[i].name in Validate(schema, body, isEmail).value
      && FieldValue(schema[i], body, isEmail) == Some(Validate(schema, body, isEmail).value[schema[i].name])
  {
    ValidateSpec(schema, body, isEmail);
    ValidateFails(schema, body, isEmail);
  }

  /** `d` holds every declared field with the value validation gives it. */
  predicate HoldsFields(schema: seq<Field>, body: Doc, isEmail: string -> bool, d: Doc) {
    forall i :: 0 <= i < |schema| ==>
      schema[i].name in d && FieldValue(schema[i], body, isEmail) == Some(d[schema[i].name])
  }

  /** A successful dump holds every declared field, and so does any document it is merged
      into. */
  lemma DumpHoldsFields(schema: seq<Field>, body: Doc, isEmail: string -> bool, d: Doc)
    requires DistinctNames(schema) && Validate(schema, body, isEmail).Ok?
    ensures HoldsFields(schema, body, isEmail, Validate(schema, body, isEmail).value)
    ensures HoldsFields(schema, body, isEmail, SetFields(d, Validate(schema, body, isEmail).value))
  {
    ValidateSpec(schema, body, isEmail);
  }

  /** Merging a successful dump into `d` keeps every undeclared field of `d`. */
  lemma DumpKeepsUndeclared(schema: seq<Field>, body: Doc, isEmail: string -> bool, d: Doc)
    requires DistinctNames(schema) && Validate(schema, body, isEmail).Ok?
    ensures var r := SetFields(d, Validate(schema, body, isEmail).value);
      forall k :: k in d && !Declares(schema, k) ==> k in r && r[k] == d[k]
  {
    ValidateSpec(schema, body, isEmail);
  }

  /** A successful dump holds no undeclared name. */
  lemma DumpUndeclared(schema: seq<Field>, body: Doc, isEmail: string -> bool, name: string)
    requires DistinctNames(schema) && Validate(schema, body, isEmail).Ok? && !Declares(schema, name)
    ensures name !in Validate(schema, body, isEmail).value
  {
    ValidateSpec(schema, body, isEmail);
  }

  /** Validation only ever fails with 422. */
  lemma {:induction false} ValidateFails(schema: seq<Field>, body: Doc, isEmail: string -> bool)
    ensures Validate(schema, body, isEmail).Err? ==> Validate(schema, body, isEmail) == Err(Unprocessable)
    decreases |schema|
  {
    if |schema| > 0 {
      ValidateFails(schema[1..], body, isEmail);
    }
  }

  /** `{k: v for k, v in dump.items() if v is not None}`: the fields a patch supplies. */
  function Supplied(dump: Doc): (data: Doc)
    ensures forall k :: k in data <==> k in dump && dump[k] != VNull
    ensures forall k :: k in data ==> data[k] == dump[k]
  {
    map k | k in dump && dump[k] != VNull :: dump[k]
  }

  /** A patch model: every field `Optional[...] = None`. */
  predicate AllOptional(schema: seq<Field>) {
    forall i :: 0 <= i < |schema| ==> schema[i].nullable && schema[i].default == Some(VNull)
  }

  /** For a patch model, the update data holds exactly the declared keys the body gives a
      non-null value, with the body's value; a value of the wrong type is a 422. */
  lemma PatchSpec(schema: seq<Field>, body: Doc, isEmail: string -> bool)
    requires DistinctNames(schema) && AllOptional(schema)
    ensures Validate(schema, body, isEmail).Ok? <==>
        forall i :: 0 <= i < |schema| && schema[i].name in body && body[schema[i].name] != VNull
          ==> HasKind(body[schema[i].name], schema[i].kind, isEmail)
    ensures Validate(schema, body, isEmail).Ok? ==>
        var data := Supplied(Validate(schema, body, isEmail).value);
        && (forall k :: k in data <==> Declares(schema, k) && k in body && body[k] != VNull)
        && (forall k :: k in data ==> data[k] == body[k])
  {
    ValidateSpec(schema, body, isEmail);
    if Validate(schema, body, isEmail).Ok? {
      var dump := Validate(schema, body, isEmail).value;
      forall k | k in dump ensures dump[k] != VNull <==> k in body && body[k] != VNull {
        var i :| 0 <= i < |schema| && schema[i].name == k;
      }
      forall k | k in dump && dump[k] != VNull ensures dump[k] == body[k] {
        var i :| 0 <= i < |schema| && schema[i].name == k;
      }
    }
  }

  /** A multipart form: text parts by name (a file part is passed separately). */
  type FormFields = map<string, string>

  /** The value of a `Form(...)` parameter: FastAPI treats an empty text like a missing
      one; an `int` parameter parses its text. None is a validation error. */
  function FormValue(f: Field, fields: FormFields): Option<Value> {
    if f.name in fields && fields[f.name] != "" then
      var text := fields[f.name];
      match f.kind
      case KInt => (match Text.ParseInt(text) case Some(n) => Some(VInt(n)) case None => None)
      case _ => Some(VStr(text))
    else f.default
  }

  /** The form parameters of a handler, or a 422. */
  function ValidateForm(schema: seq<Field>, fields: FormFields): Result<Doc> {
    if |schema| == 0 then Ok(map[])
    else
      match FormValue(schema[0], fields)
      case None => Err(Unprocessable)
      case Some(v) =>
        match ValidateForm(schema[1..], fields)
        case Err(e) => Err(e)
        case Ok(rest) => Ok(rest[schema[0].name := v])
  }

  /** `after` holds every form parameter of `schema` that `fields` gives as a non-empty
      text, with its validated value. */
  predicate FormFieldsSet(schema: seq<Field>, fields: FormFields, after: Doc) {
    forall i :: 0 <= i < |schema| && schema[i].name in fields && fields[schema[i].name] != "" ==>
      schema[i].name in after && FormValue(schema[i], fields) == Some(after[schema[i].name])
  }

  /** For `Form(None)` parameters, the non-null validated values are exactly the declared
      parameters sent as non-empty texts, each with its form value. */
  lemma FormPatchSpec(schema: seq<Field>, fields: FormFields)
    requires DistinctNames(schema) && AllOptional(schema) && ValidateForm(schema, fields).Ok?
    ensures var data := Supplied(ValidateForm(schema, fields).value);
      && (forall k :: k in data <==> Declares(schema, k) && k in fields && fields[k] != "")
      && FormFieldsSet(schema, fields, data)
  {
    ValidateFormSpec(schema, fields);
    var params := ValidateForm(schema, fields).value;
    forall k | k in params ensures params[k] != VNull <==> k in fields && fields[k] != "" {
      var i :| 0 <= i < |schema| && schema[i].name == k;
    }
  }

  /** Some declared parameter is sent as a non-empty text. */
  predicate GivesField(schema: seq<Field>, fields: FormFields) {
    exists k :: k in fields && fields[k] != "" && Declares(schema, k)
  }

  /** For `Form(None)` parameters, the update data is empty exactly when no declared
      parameter is sent as a non-empty text. */
  lemma FormGivesField(schema: seq<Field>, fields: FormFields)
    requires DistinctNames(schema) && AllOptional(schema) && ValidateForm(schema, fields).Ok?
    ensures Supplied(ValidateForm(schema, fields).value) != map[] <==> GivesField(schema, fields)
  {
    FormPatchSpec(schema, fields);
    var data := Supplied(ValidateForm(schema, fields).value);
    if GivesField(schema, fields) {
      var k :| k in fields && fields[k] != "" && Declares(schema, k);
      assert k in data;
    } else {
      assert data.Keys == {};
    }
  }

  /** A form part that is missing or sent as an empty text. */
  predicate Blank(fields: FormFields, name: string) {
    name !in fields || fields[name] == ""
  }

  /** The validated parameters hold every parameter sent as a non-empty text, with its
      form value. */
  lemma FormParamsSet(schema: seq<Field>, fields: FormFields)
    requires DistinctNames(schema) && ValidateForm(schema, fields).Ok?
    ensures FormFieldsSet(schema, fields, ValidateForm(schema, fields).value)
  {
    ValidateFormSpec(schema, fields);
  }

  /** A parameter that is missing or empty in a valid form takes its default. */
  lemma FormDefault(schema: seq<Field>, fields: FormFields, i: nat)
    requires DistinctNames(schema) && ValidateForm(schema, fields).Ok? && i < |schema|
    requires Blank(fields, schema[i].name)
    ensures schema[i].default.Some?
    ensures schema[i].name in ValidateForm(schema, fields).value
    ensures ValidateForm(schema, fields).value[schema[i].name] == schema[i].default.value
  {
    ValidateFormSpec(schema, fields);
  }

  /** Setting a field the form does not declare keeps the form's values. */
  lemma FormFieldsSetKeeps(schema: seq<Field>, fields: FormFields, d: Doc, k: string, v: Value)
    requires FormFieldsSet(schema, fields, d) && !Declares(schema, k)
    ensures FormFieldsSet(schema, fields, d[k := v])
  {
  }

  /** A parameter without a value makes the whole form a 422. */
  lemma FormFieldMissing(schema: seq<Field>, fields: FormFields, i: nat)
    requires DistinctNames(schema) && i < |schema| && FormValue(schema[i], fields).None?
    ensures ValidateForm(schema, fields) == Err(Unprocessable)
  {
    ValidateFormSpec(schema, fields);
    ValidateFormFails(schema, fields);
  }

  /** Validated form parameters hold no undeclared name. */
  lemma FormUndeclared(schema: seq<Field>, fields: FormFields, name: string)
    requires DistinctNames(schema) && ValidateForm(schema, fields).Ok? && !Declares(schema, name)
    ensures name !in ValidateForm(schema, fields).value
  {
    ValidateFormSpec(schema, fields);
  }

  /** Form validation only ever fails with 422. */
  lemma {:induction false} ValidateFormFails(schema: seq<Field>, fields: FormFields)
    ensures ValidateForm(schema, fields).Err? ==> ValidateForm(schema, fields) == Err(Unprocessable)
    decreases |schema|
  {
    if |schema| > 0 {
      ValidateFormFails(schema[1..], fields);
    }
  }

  /** Form validation succeeds exactly when every parameter gets a value, and gives exactly
      the declared parameters, each with that value. */
  lemma {:induction false} ValidateFormSpec(schema: seq<Field>, fields: FormFields)
    requires DistinctNames(schema)
    ensures ValidateForm(schema, fields).Ok?
        <==> forall i :: 0 <= i < |schema| ==> FormValue(schema[i], fields).Some?
    ensures ValidateForm(schema, fields).Ok? ==>
        var params := ValidateForm(schema, fields).value;
        && (forall k :: k in params <==> Declares(schema, k))
        && (forall i :: 0 <= i < |schema| ==> params[schema[i].name] == FormValue(schema[i], fields).value)
    decreases |schema|
  {
    if |schema| > 0 {
      var tail := schema[1..];
      DeclaresTail(schema);
      ValidateFormSpec(tail, fields);
      assert forall i :: 0 < i < |schema| ==> schema[i] == tail[i - 1];
    }
  }
}
