/** The content routes: the media assets, and the two single-document collections that
    hold the hero banner and the about text, each read with a default inserted on first
    use and replaced by an admin. */
module Content {
  import opened Common
  import opened Docs
  import opened Schema
  import opened Store
  import opened Records
  import Text

  /** The page size of `list_media` (`to_list(200)`). */
  const MediaLimit: nat := 200

  /* ---------- ObjectId texts ---------- */

  predicate IsHexDigit(c: char) {
    ('0' <= c <= '9') || ('a' <= c <= 'f') || ('A' <= c <= 'F')
  }

  /** `ObjectId.is_valid` of a text: exactly 24 hexadecimal digits. */
  predicate IsObjectIdText(s: string) {
    |s| == 24 && forall i :: 0 <= i < |s| ==> IsHexDigit(s[i])
  }

  /** The stored id that an ObjectId text names: ids are kept as lower-case hex, and
      `ObjectId(s)` reads either case. */
  function ObjectIdKey(s: string): (key: string)
    requires IsObjectIdText(s)
    ensures IsObjectIdText(key) && forall i :: 0 <= i < 24 ==> !('A' <= key[i] <= 'Z')
  {
    Text.AsciiLower(s)
  }

  /** Reading an id in either case names the same stored document. */
  lemma ObjectIdKeyIgnoresCase(s: string)
    requires IsObjectIdText(s)
    ensures ObjectIdKey(Text.AsciiLower(s)) == ObjectIdKey(s)
  {
    var lower := Text.AsciiLower(s);
    assert IsObjectIdText(lower) by {
      forall i | 0 <= i < |lower| ensures IsHexDigit(lower[i]) {
        assert lower[i] == Text.AsciiLowerChar(s[i]);
      }
    }
    var twice := ObjectIdKey(lower);
    forall i | 0 <= i < 24 ensures twice[i] == lower[i] {
      assert twice[i] == Text.AsciiLowerChar(lower[i]);
    }
  }

  /* ---------- Media assets ---------- */

  /** `MediaAssetBase`: the alternative texts are optional and default to "". */
  function MediaAssetBase(): (schema: seq<Field>)
    ensures RecordSchema(schema)
  {
    [ Required("key", KStr), Required("url", KStr),
      Field("alt_en", KStr, true, Some(VStr(""))), Field("alt_fr", KStr, true, Some(VStr(""))) ]
  }

  /** `list_media`: the first 200 assets in insertion order, no sort and no default. */
  function ListMediaSpec(t: Table): seq<Doc>
    requires WellFormed(t)
  {
    Take(Rows(t), MediaLimit)
  }

  /** `create_media`: `asset.dict()` stored with the ObjectId `freshId` and returned. */
  function CreateMediaSpec(t: Table, body: Doc, admin: bool, freshId: string): Step<Result<Doc>> {
    if !admin then Step(Err(Unauthorized), t)
    else
      match Validate(MediaAssetBase(), body, NoEmailCheck)
      case Err(e) => Step(Err(e), t)
      case Ok(dump) =>
        var d := NewRecord(dump, freshId);
        Step(Ok(d), Insert(t, d))
  }

  /** `update_media`: the body is validated before the handler runs; an id that is not an
      ObjectId text raises (500); an unmatched id is a 404; otherwise all four fields are
      `$set` and the document is read back. */
  function UpdateMediaSpec(t: Table, mediaId: string, body: Doc, admin: bool): Step<Result<Doc>> {
    if !admin then Step(Err(Unauthorized), t)
    else
      match Validate(MediaAssetBase(), body, NoEmailCheck)
      case Err(e) => Step(Err(e), t)
      case Ok(dump) =>
        if !IsObjectIdText(mediaId) then Step(Err(ServerError), t)
        else
          var key := ObjectIdKey(mediaId);
          if key !in t.docs then Step(Err(NotFound), t)
          else
            var u := SetOne(t, key, dump);
            Step(Ok(u.docs[key]), u)
  }

  /** The media list holds the first 200 stored assets in the order they were stored,
      and all of them when there are no more. */
  lemma ListMediaProps(t: Table)
    requires WellFormed(t)
    ensures var r := ListMediaSpec(t);
      && |r| == (if |t.ids| <= MediaLimit then |t.ids| else MediaLimit)
      && (forall i :: 0 <= i < |r| ==> r[i] == t.docs[t.ids[i]])
  {
  }

  /** A media create needs `key` and `url` (422 otherwise, storing nothing); the alternative
      texts default to ""; the asset is stored under the fresh ObjectId after the others and
      returned with it as `_id`. */
  lemma CreateMediaProps(t: Table, body: Doc, freshId: string)
    requires WellFormed(t) && freshId !in t.docs
    ensures var step := CreateMediaSpec(t, body, true, freshId);
      && WellFormed(step.after)
      && (!HasStr(body, "key") ==> step == Step(Err(Unprocessable), t))
      && (!HasStr(body, "url") ==> step == Step(Err(Unprocessable), t))
      && (step.result.Err? ==> step == Step(Err(Unprocessable), t))
      && (step.result.Ok? ==>
            && "_id" in step.result.value && step.result.value["_id"] == VStr(freshId)
            && ("alt_en" !in body ==> "alt_en" in step.result.value && step.result.value["alt_en"] == VStr(""))
            && ("alt_fr" !in body ==> "alt_fr" in step.result.value && step.result.value["alt_fr"] == VStr(""))
            && Rows(step.after) == Rows(t) + [step.result.value])
  {
    var schema := MediaAssetBase();
    ValidateFails(schema, body, NoEmailCheck);
    FieldOutcome(schema, body, NoEmailCheck, 0);
    FieldOutcome(schema, body, NoEmailCheck, 1);
    FieldOutcome(schema, body, NoEmailCheck, 2);
    FieldOutcome(schema, body, NoEmailCheck, 3);
    match Validate(schema, body, NoEmailCheck)
    case Err(_) =>
    case Ok(dump) =>
      InsertSpec(t, NewRecord(dump, freshId));
  }

  /** The check order of a media update: 401, 422, 500 for an id that is not an ObjectId
      text, 404 for an unknown one; each of these changes nothing. */
  lemma UpdateMediaPrecedence(t: Table, mediaId: string, body: Doc, admin: bool)
    ensures var step := UpdateMediaSpec(t, mediaId, body, admin);
      && (!admin ==> step == Step(Err(Unauthorized), t))
      && (admin && Validate(MediaAssetBase(), body, NoEmailCheck).Err? ==> step == Step(Err(Unprocessable), t))
      && ((admin && Validate(MediaAssetBase(), body, NoEmailCheck).Ok? && !IsObjectIdText(mediaId))
            ==> step == Step(Err(ServerError), t))
      && ((admin && Validate(MediaAssetBase(), body, NoEmailCheck).Ok? && IsObjectIdText(mediaId)
             && ObjectIdKey(mediaId) !in t.docs)
            ==> step == Step(Err(NotFound), t))
  {
    ValidateFails(MediaAssetBase(), body, NoEmailCheck);
  }

  /** A successful media update replaces `key`, `url` and both alternative texts with the
      validated values, keeps the id, and leaves every other asset as it was. */
  lemma UpdateMediaChanges(t: Table, mediaId: string, body: Doc)
    requires WellFormed(t)
    ensures var step := UpdateMediaSpec(t, mediaId, body, true);
      step.result.Ok? ==>
        var key := ObjectIdKey(mediaId);
        && key in t.docs && key in step.after.docs && WellFormed(step.after)
        && step.result == Ok(step.after.docs[key])
        && KeyedBy(step.after.docs[key], key)
        && HoldsFields(MediaAssetBase(), body, NoEmailCheck, step.after.docs[key])
        && (forall k :: k in t.docs && k != key ==> k in step.after.docs && step.after.docs[k] == t.docs[k])
  {
    var schema := MediaAssetBase();
    if IsObjectIdText(mediaId) && Validate(schema, body, NoEmailCheck).Ok? {
      var key := ObjectIdKey(mediaId);
      var dump := Validate(schema, body, NoEmailCheck).value;
      DumpUndeclared(schema, body, NoEmailCheck, "_id");
      SetOneSpec(t, key, dump);
      if key in t.docs {
        DumpHoldsFields(schema, body, NoEmailCheck, t.docs[key]);
      }
    }
  }

  /* ---------- Single-document content ---------- */

  /** The texts of the default hero banner. Their wording is a parameter of the model:
      only its place in the document matters to the routes. */
  datatype HeroProse = HeroProse(titleEn: string, titleFr: string, subtitleEn: string,
                                 subtitleFr: string, taglineEn: string, taglineFr: string)

  /** The texts of the default about section. */
  datatype AboutProse = AboutProse(aboutEn: string, aboutFr: string, missionEn: string,
                                   missionFr: string, visionEn: string, visionFr: string)

  /** The default hero document of `get_hero_content`, shown with the `hero.main` photo. */
  function HeroDefault(prose: HeroProse): (d: Doc)
    ensures "_id" !in d && "media_key" in d && d["media_key"] == VStr("hero.main")
  {
    map["title_en" := VStr(prose.titleEn), "title_fr" := VStr(prose.titleFr),
      "subtitle_en" := VStr(prose.subtitleEn), "subtitle_fr" := VStr(prose.subtitleFr),
      "tagline_en" := VStr(prose.taglineEn), "tagline_fr" := VStr(prose.taglineFr),
      "media_key" := VStr("hero.main")]
  }

  /** The default about document of `get_about_content`. */
  function AboutDefault(prose: AboutProse): (d: Doc)
    ensures "_id" !in d
  {
    map["about_en" := VStr(prose.aboutEn), "about_fr" := VStr(prose.aboutFr),
      "mission_en" := VStr(prose.missionEn), "mission_fr" := VStr(prose.missionFr),
      "vision_en" := VStr(prose.visionEn), "vision_fr" := VStr(prose.visionFr)]
  }

  /** The content fields of `HeroContent` (its `id` is read by `ContentId`). */
  function HeroContent(): (schema: seq<Field>)
    ensures RecordSchema(schema) && !Declares(schema, "id")
  {
    [ Required("title_en", KStr), Required("title_fr", KStr),
      Required("subtitle_en", KStr), Required("subtitle_fr", KStr),
      Required("tagline_en", KStr), Required("tagline_fr", KStr), Required("media_key", KStr) ]
  }

  /** The content fields of `AboutContent`. */
  function AboutContent(): (schema: seq<Field>)
    ensures RecordSchema(schema) && !Declares(schema, "id")
  {
    [ Required("about_en", KStr), Required("about_fr", KStr),
      Required("mission_en", KStr), Required("mission_fr", KStr),
      Required("vision_en", KStr), Required("vision_fr", KStr) ]
  }

  /** `get_*_content`: the first stored document, or `default` stored under the ObjectId
      `freshId` and returned when there is none. */
  function GetContentSpec(t: Table, default: Doc, freshId: string): Step<Doc>
    requires WellFormed(t)
  {
    if |t.ids| == 0 then
      var d := default["_id" := VStr(freshId)];
      Step(d, Insert(t, d))
    else Step(Rows(t)[0], t)
  }

  /** The `id` of a content payload, under its alias `_id` or (by `populate_by_name`) its
      own name: an ObjectId text, or a 422; None when the payload gives neither. */
  function ContentId(body: Doc): (r: Result<Option<string>>)
    ensures r.Ok? && r.value.Some? ==> IsObjectIdText(r.value.value)
  {
    var key := if "_id" in body then "_id" else "id";
    if key !in body then Ok(None)
    else if body[key].VStr? && IsObjectIdText(body[key].s) then Ok(Some(ObjectIdKey(body[key].s)))
    else Err(Unprocessable)
  }

  /** `update_*_content` as written. The `id` field has a default factory, so a payload
      without one still yields a fresh ObjectId `freshOid` and the upsert branch is never
      taken: the `$set` matches nothing and the re-read `None` fails the response model
      (500). A payload naming a stored document has every content field `$set` on it. */
  function UpdateContentSpec(t: Table, schema: seq<Field>, body: Doc, admin: bool,
                             freshOid: string): Step<Result<Doc>>
  {
    if !admin then Step(Err(Unauthorized), t)
    else
      match Validate(schema, body, NoEmailCheck)
      case Err(e) => Step(Err(e), t)
      case Ok(data) =>
        match ContentId(body)
        case Err(e) => Step(Err(e), t)
        case Ok(id) =>
          var oid := id.GetOr(freshOid);
          if oid !in t.docs then Step(Err(ServerError), t)
          else
            var u := SetOne(t, oid, data);
            Step(Ok(u.docs[oid]), u)
  }

  /** `update_*_content` as its upsert branch intends: a payload without an id `$set`s its
      fields on the single document, inserting it under `freshOid` when there is none. */
  function UpdateContentFixed(t: Table, schema: seq<Field>, body: Doc, admin: bool,
                              freshOid: string): Step<Result<Doc>>
    requires WellFormed(t)
  {
    if !admin then Step(Err(Unauthorized), t)
    else
      match Validate(schema, body, NoEmailCheck)
      case Err(e) => Step(Err(e), t)
      case Ok(data) =>
        match ContentId(body)
        case Err(e) => Step(Err(e), t)
        case Ok(Some(oid)) =>
          if oid !in t.docs then Step(Err(ServerError), t)
          else
            var u := SetOne(t, oid, data);
            Step(Ok(u.docs[oid]), u)
        case Ok(None) =>
          if |t.ids| == 0 then
            var d := data["_id" := VStr(freshOid)];
            Step(Ok(d), Insert(t, d))
          else
            var u := SetOne(t, t.ids[0], data);
            Step(Ok(u.docs[t.ids[0]]), u)
  }

  /** On an empty collection a get stores the default under the fresh id and returns it;
      otherwise it returns the first stored document and changes nothing. */
  lemma GetContentProps(t: Table, default: Doc, freshId: string)
    requires WellFormed(t) && "_id" !in default
    ensures var step := GetContentSpec(t, default, freshId);
      && WellFormed(step.after)
      && (|t.ids| == 0 ==>
            && Rows(step.after) == [step.result]
            && KeyedBy(step.result, freshId)
            && (forall k :: k in default ==> k in step.result && step.result[k] == default[k]))
      && (|t.ids| > 0 ==> step.after == t && step.result == t.docs[t.ids[0]])
  {
    if |t.ids| == 0 {
      InsertSpec(t, default["_id" := VStr(freshId)]);
    }
  }

  /** The default is stored at most once: a second get returns the document the first one
      returned and changes nothing, whatever id it would have drawn. */
  lemma GetContentTwice(t: Table, default: Doc, freshId: string, otherId: string)
    requires WellFormed(t) && "_id" !in default
    ensures var first := GetContentSpec(t, default, freshId);
      var second := GetContentSpec(first.after, default, otherId);
      second.result == first.result && second.after == first.after
  {
    GetContentProps(t, default, freshId);
  }

  /** The hero banner of an empty collection is the default, showing `hero.main`. */
  lemma HeroDefaultShown(t: Table, prose: HeroProse, freshId: string)
    requires WellFormed(t) && |t.ids| == 0
    ensures var r := GetContentSpec(t, HeroDefault(prose), freshId).result;
      && "media_key" in r && r["media_key"] == VStr("hero.main")
      && "_id" in r && r["_id"] == VStr(freshId)
  {
  }

  /** The check order of a content update: 401, then 422 for a content field or an id of
      the wrong type; an error changes nothing. */
  lemma UpdateContentPrecedence(t: Table, schema: seq<Field>, body: Doc, admin: bool, freshOid: string)
    ensures var step := UpdateContentSpec(t, schema, body, admin, freshOid);
      && (!admin ==> step == Step(Err(Unauthorized), t))
      && ((admin && (Validate(schema, body, NoEmailCheck).Err? || ContentId(body).Err?))
            ==> step == Step(Err(Unprocessable), t))
      && (step.result.Err? ==> step.after == t)
  {
    ValidateFails(schema, body, NoEmailCheck);
  }

  /** An update naming a stored document `$set`s every content field to its validated
      value, keeps the id, returns the document as re-read and leaves every other document
      as it was. */
  lemma UpdateContentWithId(t: Table, schema: seq<Field>, body: Doc, freshOid: string)
    requires WellFormed(t) && RecordSchema(schema)
    requires ContentId(body).Ok? && ContentId(body).value.Some?
    ensures var oid := ContentId(body).value.value;
      var step := UpdateContentSpec(t, schema, body, true, freshOid);
      (Validate(schema, body, NoEmailCheck).Ok? && oid in t.docs) ==>
        && step.result.Ok? && oid in step.after.docs && WellFormed(step.after)
        && step.result.value == step.after.docs[oid]
        && KeyedBy(step.result.value, oid)
        && HoldsFields(schema, body, NoEmailCheck, step.result.value)
        && (forall k :: k in t.docs[oid] && !Declares(schema, k) ==> step.result.value[k] == t.docs[oid][k])
        && (forall k :: k in t.docs && k != oid ==> k in step.after.docs && step.after.docs[k] == t.docs[k])
  {
    var oid := ContentId(body).value.value;
    if Validate(schema, body, NoEmailCheck).Ok? && oid in t.docs {
      var data := Validate(schema, body, NoEmailCheck).value;
      DumpUndeclared(schema, body, NoEmailCheck, "_id");
      SetOneSpec(t, oid, data);
      DumpHoldsFields(schema, body, NoEmailCheck, t.docs[oid]);
      DumpKeepsUndeclared(schema, body, NoEmailCheck, t.docs[oid]);
    }
  }

  /** As written, a valid payload without an id is a 500 that changes nothing, even when
      the single document exists. */
  lemma UpdateContentIdlessFails(t: Table, schema: seq<Field>, body: Doc, freshOid: string)
    requires freshOid !in t.docs
    requires Validate(schema, body, NoEmailCheck).Ok? && "_id" !in body && "id" !in body
    ensures UpdateContentSpec(t, schema, body, true, freshOid) == Step(Err(ServerError), t)
  {
  }

  /** With the upsert in place, a valid payload without an id always succeeds: it `$set`s
      every content field on the single document (inserting it when there is none), and
      the next get returns exactly the document it returned. */
  lemma UpdateContentFixedUpserts(t: Table, schema: seq<Field>, body: Doc, freshOid: string, otherId: string)
    requires WellFormed(t) && RecordSchema(schema) && freshOid !in t.docs
    requires Validate(schema, body, NoEmailCheck).Ok? && "_id" !in body && "id" !in body
    ensures var step := UpdateContentFixed(t, schema, body, true, freshOid);
      && step.result.Ok? && WellFormed(step.after)
      && |step.after.ids| == (if |t.ids| == 0 then 1 else |t.ids|)
      && HoldsFields(schema, body, NoEmailCheck, step.result.value)
      && GetContentSpec(step.after, map[], otherId) == Step(step.result.value, step.after)
  {
    var data := Validate(schema, body, NoEmailCheck).value;
    DumpUndeclared(schema, body, NoEmailCheck, "_id");
    if |t.ids| == 0 {
      DumpHoldsFields(schema, body, NoEmailCheck, map["_id" := VStr(freshOid)]);
      assert data["_id" := VStr(freshOid)] == SetFields(map["_id" := VStr(freshOid)], data);
      InsertSpec(t, data["_id" := VStr(freshOid)]);
    } else {
      DumpHoldsFields(schema, body, NoEmailCheck, t.docs[t.ids[0]]);
      SetOneSpec(t, t.ids[0], data);
      var u := SetOne(t, t.ids[0], data);
      assert u.ids == t.ids;
      assert Rows(u)[0] == u.docs[t.ids[0]];
    }
  }

  /* ---------- Handlers ---------- */

  /** `list_media`. */
  method ListMedia(c: Collection) returns (items: seq<Doc>)
    requires c.Valid()
    ensures items == ListMediaSpec(c.Value())
  {
    items := c.FindAll(MediaLimit);
  }

  /** `create_media`, with `freshId` the ObjectId the insert draws. */
  method CreateMedia(c: Collection, body: Doc, admin: bool, freshId: string) returns (r: Result<Doc>)
    requires c.Valid() && freshId !in c.docs
    modifies c
    ensures c.Valid()
    ensures var step := CreateMediaSpec(old(c.Value()), body, admin, freshId);
      r == step.result && c.Value() == step.after
  {
    if !admin {
      return Err(Unauthorized);
    }
    var dump := Validate(MediaAssetBase(), body, NoEmailCheck);
    if dump.Err? {
      return Err(dump.status);
    }
    var doc := NewRecord(dump.value, freshId);
    c.InsertOne(doc);
    r := Ok(doc);
  }

  /** `update_media`. */
  method UpdateMedia(c: Collection, mediaId: string, body: Doc, admin: bool) returns (r: Result<Doc>)
    requires c.Valid()
    modifies c
    ensures c.Valid()
    ensures var step := UpdateMediaSpec(old(c.Value()), mediaId, body, admin);
      r == step.result && c.Value() == step.after
  {
    if !admin {
      return Err(Unauthorized);
    }
    var dump := Validate(MediaAssetBase(), body, NoEmailCheck);
    if dump.Err? {
      return Err(dump.status);
    }
    if !IsObjectIdText(mediaId) {
      return Err(ServerError);
    }
    var oid := ObjectIdKey(mediaId);
    DumpUndeclared(MediaAssetBase(), body, NoEmailCheck, "_id");
    var matched := c.UpdateOne(oid, dump.value);
    if !matched {
      return Err(NotFound);
    }
    var doc := c.FindOne(oid);
    r := Ok(doc.value);
  }

  /** `get_hero_content` and `get_about_content`, with `default` the document to insert. */
  method GetContent(c: Collection, default: Doc, freshId: string) returns (d: Doc)
    requires c.Valid() && "_id" !in default
    modifies c
    ensures c.Valid()
    ensures var step := GetContentSpec(old(c.Value()), default, freshId);
      d == step.result && c.Value() == step.after
  {
    var found := c.FindFirst();
    if found.Some? {
      return found.value;
    }
    d := default["_id" := VStr(freshId)];
    c.InsertOne(d);
  }

  /** `get_hero_content`. */
  method GetHeroContent(c: Collection, prose: HeroProse, freshId: string) returns (d: Doc)
    requires c.Valid()
    modifies c
    ensures c.Valid()
    ensures var step := GetContentSpec(old(c.Value()), HeroDefault(prose), freshId);
      d == step.result && c.Value() == step.after
  {
    d := GetContent(c, HeroDefault(prose), freshId);
  }

  /** `get_about_content`. */
  method GetAboutContent(c: Collection, prose: AboutProse, freshId: string) returns (d: Doc)
    requires c.Valid()
    modifies c
    ensures c.Valid()
    ensures var step := GetContentSpec(old(c.Value()), AboutDefault(prose), freshId);
      d == step.result && c.Value() == step.after
  {
    d := GetContent(c, AboutDefault(prose), freshId);
  }

  /** `update_hero_content` and `update_about_content` as written, with `freshOid` the
      ObjectId the `id` default factory draws. */
  method UpdateContent(c: Collection, schema: seq<Field>, body: Doc, admin: bool, freshOid: string)
    returns (r: Result<Doc>)
    requires c.Valid() && RecordSchema(schema)
    modifies c
    ensures c.Valid()
    ensures var step := UpdateContentSpec(old(c.Value()), schema, body, admin, freshOid);
      r == step.result && c.Value() == step.after
  {
    if !admin {
      return Err(Unauthorized);
    }
    var data := Validate(schema, body, NoEmailCheck);
    if data.Err? {
      return Err(data.status);
    }
    var id := ContentId(body);
    if id.Err? {
      return Err(id.status);
    }
    var oid := id.value.GetOr(freshOid);
    DumpUndeclared(schema, body, NoEmailCheck, "_id");
    var matched := c.UpdateOne(oid, data.value);
    var doc := c.FindOne(oid);
    if doc.None? {
      return Err(ServerError);
    }
    r := Ok(doc.value);
  }

  /** `update_hero_content`. */
  method UpdateHeroContent(c: Collection, body: Doc, admin: bool, freshOid: string) returns (r: Result<Doc>)
    requires c.Valid()
    modifies c
    ensures c.Valid()
    ensures var step := UpdateContentSpec(old(c.Value()), HeroContent(), body, admin, freshOid);
      r == step.result && c.Value() == step.after
  {
    r := UpdateContent(c, HeroContent(), body, admin, freshOid);
  }

  /** `update_about_content`. */
  method UpdateAboutContent(c: Collection, body: Doc, admin: bool, freshOid: string) returns (r: Result<Doc>)
    requires c.Valid()
    modifies c
    ensures c.Valid()
    ensures var step := UpdateContentSpec(old(c.Value()), AboutContent(), body, admin, freshOid);
      r == step.result && c.Value() == step.after
  {
    r := UpdateContent(c, AboutContent(), body, admin, freshOid);
  }
}
