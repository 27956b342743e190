/** The programs routes: the `ProgramCreate`/`ProgramUpdate` models, the five default
    programs and the five handlers over the `programs` collection. */
module Programs {
  import opened Common
  import opened Docs
  import opened Schema
  import opened Store
  import opened Records

  /** `ProgramCreate` (the fields of `ProgramBase`). */
  function ProgramCreate(): (schema: seq<Field>)
    ensures RecordSchema(schema) && !Declares(schema, "id")
  {
    [ Required("title_en", KStr), Required("title_fr", KStr),
      Required("description_en", KStr), Required("description_fr", KStr),
      WithDefault("bullets_en", KStrs, VStrs([])), WithDefault("bullets_fr", KStrs, VStrs([])),
      WithDefault("media_key", KStr, VStr("")), WithDefault("order", KInt, VInt(0)) ]
  }

  /** `ProgramUpdate`: every field optional. */
  function ProgramUpdate(): (schema: seq<Field>)
    ensures RecordSchema(schema) && AllOptional(schema)
  {
    [ Patch("title_en", KStr), Patch("title_fr", KStr),
      Patch("description_en", KStr), Patch("description_fr", KStr),
      Patch("bullets_en", KStrs), Patch("bullets_fr", KStrs),
      Patch("media_key", KStr), Patch("order", KInt) ]
  }

  /** The description and bullet texts of one default program. Their wording is a
      parameter of the model: only its place in the documents matters to the routes. */
  datatype ProgramProse = ProgramProse(descriptionEn: string, descriptionFr: string,
                                       bulletsEn: seq<string>, bulletsFr: seq<string>)

  /** The titles and media key of one default program. */
  datatype ProgramText = ProgramText(titleEn: string, titleFr: string, mediaKey: string)

  /** The literal part of the `i`th entry of `DEFAULT_PROGRAMS`. */
  function ProgramTexts(i: nat): ProgramText
    requires i < 5
  {
    if i == 0 then ProgramText("Youth Development", "Développement des jeunes", "programs.youth")
    else if i == 1 then ProgramText("Family Programs", "Programmes familiaux", "programs.family")
    else if i == 2 then ProgramText("Cultural Integration", "Intégration culturelle", "programs.culture")
    else if i == 3 then ProgramText("Career Development", "Développement de carrière", "programs.careers")
    else ProgramText("Recreational Soccer", "Soccer récréatif", "programs.soccer")
  }

  /** The fields of one entry of `DEFAULT_PROGRAMS` other than its id and order. */
  function ProgramFields(text: ProgramText, prose: ProgramProse): Doc {
    map["title_en" := VStr(text.titleEn), "title_fr" := VStr(text.titleFr),
      "description_en" := VStr(prose.descriptionEn), "description_fr" := VStr(prose.descriptionFr),
      "bullets_en" := VStrs(prose.bulletsEn), "bullets_fr" := VStrs(prose.bulletsFr),
      "media_key" := VStr(text.mediaKey)]
  }

  /** The ids of `DEFAULT_PROGRAMS`. */
  function ProgramIds(): (ids: seq<string>)
    ensures |ids| == 5 && Distinct(ids)
  {
    ["youth", "family", "culture", "careers", "soccer"]
  }

  /** `DEFAULT_PROGRAMS`, with the descriptions and bullets taken from `prose`; the `i`th
      program has order `i + 1`. */
  function ProgramSeeds(prose: seq<ProgramProse>): (seeds: seq<Seed>)
    requires |prose| == 5
    ensures |seeds| == 5 && SeedsValid(seeds)
  {
    Numbered(ProgramIds(), seq(5, i requires 0 <= i < 5 => ProgramFields(ProgramTexts(i), prose[i])))
  }

  /** The default programs as stored. */
  function DefaultPrograms(prose: seq<ProgramProse>): (ds: seq<Doc>)
    requires |prose| == 5
    ensures |ds| == 5 && SeedsKeyed(ds) && SortedBy(ds, OrderKey)
  {
    SeedDocsKeyed(ProgramSeeds(prose));
    SeedDocs(ProgramSeeds(prose))
  }

  /** The five defaults have the ids youth, family, culture, careers and soccer, the orders
      1 to 5, and the last one is titled "Recreational Soccer". */
  lemma ProgramSeedsContent(prose: seq<ProgramProse>)
    requires |prose| == 5
    ensures var seeds := ProgramSeeds(prose);
      && seeds[0].id == "youth" && seeds[1].id == "family" && seeds[2].id == "culture"
      && seeds[3].id == "careers" && seeds[4].id == "soccer"
      && (forall i :: 0 <= i < 5 ==> seeds[i].order == i + 1)
      && "title_en" in seeds[4].fields && seeds[4].fields["title_en"] == VStr("Recreational Soccer")
  {
  }

  /** The first list of an empty collection returns the five defaults in their order, each
      of which a get then finds by its id. */
  lemma ListProgramsSeeds(t: Table, prose: seq<ProgramProse>)
    requires WellFormed(t) && |t.ids| == 0 && |prose| == 5
    ensures var step := ListSpec(t, DefaultPrograms(prose));
      var seeds := ProgramSeeds(prose);
      && |step.result| == 5
      && forall i :: 0 <= i < 5 ==>
           step.result[i] == Renamed(SeedDoc(seeds[i])) && GetSpec(step.after, seeds[i].id) == Ok(step.result[i])
  {
    ListSeedsInOrder(t, ProgramSeeds(prose));
  }

  /** The last program of that first list is `soccer`, "Recreational Soccer", order 5. */
  lemma SoccerListedLast(t: Table, prose: seq<ProgramProse>)
    requires WellFormed(t) && |t.ids| == 0 && |prose| == 5
    ensures var r := ListSpec(t, DefaultPrograms(prose)).result;
      && |r| == 5
      && "id" in r[4] && r[4]["id"] == VStr("soccer")
      && "title_en" in r[4] && r[4]["title_en"] == VStr("Recreational Soccer")
      && "order" in r[4] && r[4]["order"] == VInt(5)
  {
    var seeds := ProgramSeeds(prose);
    ListProgramsSeeds(t, prose);
    ProgramSeedsContent(prose);
    SeedResponse(seeds[4]);
  }

  /** `create_program` needs the four titles and descriptions as strings: without any of
      them it is a 422. */
  lemma CreateProgramRequired(t: Table, body: Doc, freshId: string)
    requires WellFormed(t) && freshId !in t.docs
    ensures var r := CreateSpec(t, ProgramCreate(), body, NoEmailCheck, true, freshId).result;
      && (!HasStr(body, "title_en") ==> r == Err(Unprocessable))
      && (!HasStr(body, "title_fr") ==> r == Err(Unprocessable))
      && (!HasStr(body, "description_en") ==> r == Err(Unprocessable))
      && (!HasStr(body, "description_fr") ==> r == Err(Unprocessable))
  {
    var schema := ProgramCreate();
    CreatedField(t, schema, body, NoEmailCheck, freshId, 0);
    CreatedField(t, schema, body, NoEmailCheck, freshId, 1);
    CreatedField(t, schema, body, NoEmailCheck, freshId, 2);
    CreatedField(t, schema, body, NoEmailCheck, freshId, 3);
  }

  /** `create_program` defaults the bullets to `[]`, `media_key` to "" and `order` to 0. */
  lemma CreateProgramDefaults(t: Table, body: Doc, freshId: string)
    requires WellFormed(t) && freshId !in t.docs
    ensures var r := CreateSpec(t, ProgramCreate(), body, NoEmailCheck, true, freshId).result;
      r.Ok? ==>
        && ("bullets_en" !in body ==> "bullets_en" in r.value && r.value["bullets_en"] == VStrs([]))
        && ("bullets_fr" !in body ==> "bullets_fr" in r.value && r.value["bullets_fr"] == VStrs([]))
        && ("media_key" !in body ==> "media_key" in r.value && r.value["media_key"] == VStr(""))
        && ("order" !in body ==> "order" in r.value && r.value["order"] == VInt(0))
  {
    var schema := ProgramCreate();
    CreatedField(t, schema, body, NoEmailCheck, freshId, 4);
    CreatedField(t, schema, body, NoEmailCheck, freshId, 5);
    CreatedField(t, schema, body, NoEmailCheck, freshId, 6);
    CreatedField(t, schema, body, NoEmailCheck, freshId, 7);
  }

  /** `list_programs`, with `prose` the wording of the defaults. */
  method ListPrograms(c: Collection, prose: seq<ProgramProse>) returns (items: seq<Doc>)
    requires c.Valid() && |prose| == 5
    modifies c
    ensures c.Valid()
    ensures var step := ListSpec(old(c.Value()), DefaultPrograms(prose));
      items == step.result && c.Value() == step.after
  {
    items := List(c, DefaultPrograms(prose));
  }

  /** `get_program`. */
  method GetProgram(c: Collection, programId: string) returns (r: Result<Doc>)
    ensures r == GetSpec(c.Value(), programId)
  {
    r := Get(c, programId);
  }

  /** `create_program`, with `freshId` the uuid it draws. */
  method CreateProgram(c: Collection, body: Doc, admin: bool, freshId: string) returns (r: Result<Doc>)
    requires c.Valid() && freshId !in c.docs
    modifies c
    ensures c.Valid()
    ensures var step := CreateSpec(old(c.Value()), ProgramCreate(), body, NoEmailCheck, admin, freshId);
      r == step.result && c.Value() == step.after
  {
    r := Create(c, ProgramCreate(), body, NoEmailCheck, admin, freshId);
  }

  /** `update_program`. */
  method UpdateProgram(c: Collection, programId: string, body: Doc, admin: bool) returns (r: Result<Doc>)
    requires c.Valid()
    modifies c
    ensures c.Valid()
    ensures var step := UpdateSpec(old(c.Value()), ProgramUpdate(), programId, body, NoEmailCheck, admin);
      r == step.result && c.Value() == step.after
  {
    r := Update(c, ProgramUpdate(), programId, body, NoEmailCheck, admin);
  }

  /** `delete_program`. */
  method DeleteProgram(c: Collection, programId: string, admin: bool) returns (r: Result<Doc>)
    requires c.Valid()
    modifies c
    ensures c.Valid()
    ensures var step := DeleteSpec(old(c.Value()), programId, admin, "Program deleted");
      r == step.result && c.Value() == step.after
  {
    r := Delete(c, programId, admin, "Program deleted");
  }
}
