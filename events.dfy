/** The events routes: the `EventCreate`/`EventUpdate` models, the four default events and
    the five handlers over the `events` collection. */
module Events {
  import opened Common
  import opened Docs
  import opened Schema
  import opened Store
  import opened Records

  /** `EventCreate` (the fields of `EventBase`). */
  function EventCreate(): (schema: seq<Field>)
    ensures RecordSchema(schema) && !Declares(schema, "id")
  {
    [ Required("date_en", KStr), Required("date_fr", KStr),
      Required("title_en", KStr), Required("title_fr", KStr),
      Required("location_en", KStr), Required("location_fr", KStr),
      Required("summary_en", KStr), Required("summary_fr", KStr),
      WithDefault("media_key", KStr, VStr("")), WithDefault("image_url", KStr, VStr("")),
      WithDefault("order", KInt, VInt(0)) ]
  }

  /** `EventUpdate`: every field optional. */
  function EventUpdate(): (schema: seq<Field>)
    ensures RecordSchema(schema) && AllOptional(schema)
  {
    [ Patch("date_en", KStr), Patch("date_fr", KStr),
      Patch("title_en", KStr), Patch("title_fr", KStr),
      Patch("location_en", KStr), Patch("location_fr", KStr),
      Patch("summary_en", KStr), Patch("summary_fr", KStr),
      Patch("media_key", KStr), Patch("image_url", KStr), Patch("order", KInt) ]
  }

  /** The summaries and the picture address of one default event. Their wording is a
      parameter of the model: only its place in the documents matters to the routes. */
  datatype EventProse = EventProse(summaryEn: string, summaryFr: string, imageUrl: string)

  /** The dates, titles, locations and media key of one default event. */
  datatype EventText = EventText(dateEn: string, dateFr: string, titleEn: string, titleFr: string,
                                 locationEn: string, locationFr: string, mediaKey: string)

  /** The literal part of the `i`th entry of `DEFAULT_EVENTS`. */
  function EventTexts(i: nat): EventText
    requires i < 4
  {
    if i == 0 then
      EventText("August 15, 2025", "15 août 2025", "Summer Soccer Tournament", "Tournoi de soccer d'été",
        "Gatineau Sports Complex", "Complexe sportif de Gatineau", "events.soccer_tournament")
    else if i == 1 then
      EventText("September 5, 2025", "5 septembre 2025", "Back to School Family BBQ",
        "BBQ familial de rentrée scolaire", "GOSEC Community Center", "Centre communautaire GOSEC",
        "events.bbq")
    else if i == 2 then
      EventText("October 12, 2025", "12 octobre 2025", "Cultural Heritage Festival",
        "Festival du patrimoine culturel", "Ottawa Convention Centre", "Centre des congrès d'Ottawa",
        "events.cultural_festival")
    else
      EventText("November 20, 2025", "20 novembre 2025", "Youth Leadership Conference",
        "Conférence sur le leadership des jeunes", "University of Ottawa", "Université d'Ottawa",
        "events.youth_conference")
  }

  /** The fields name both dates and both locations. */
  predicate Dated(f: Doc) {
    "date_en" in f && "date_fr" in f && "location_en" in f && "location_fr" in f
  }

  /** The fields of one entry of `DEFAULT_EVENTS` other than its id and order. */
  function EventFields(text: EventText, prose: EventProse): (f: Doc)
    ensures Dated(f)
  {
    map["date_en" := VStr(text.dateEn), "date_fr" := VStr(text.dateFr),
      "title_en" := VStr(text.titleEn), "title_fr" := VStr(text.titleFr),
      "location_en" := VStr(text.locationEn), "location_fr" := VStr(text.locationFr),
      "summary_en" := VStr(prose.summaryEn), "summary_fr" := VStr(prose.summaryFr),
      "media_key" := VStr(text.mediaKey), "image_url" := VStr(prose.imageUrl)]
  }

  /** Four distinct ids, as `str(uuid.uuid4())` draws them once per process. */
  predicate EventIds(ids: seq<string>) {
    |ids| == 4 && Distinct(ids)
  }

  /** `DEFAULT_EVENTS`, with the ids drawn at load time and the summaries and pictures
      taken from `prose`; the `i`th event has order `i + 1`. */
  function EventSeeds(ids: seq<string>, prose: seq<EventProse>): (seeds: seq<Seed>)
    requires EventIds(ids) && |prose| == 4
    ensures |seeds| == 4 && SeedsValid(seeds)
    ensures forall i :: 0 <= i < 4 ==> seeds[i].id == ids[i] && Dated(seeds[i].fields)
  {
    Numbered(ids, seq(4, i requires 0 <= i < 4 => EventFields(EventTexts(i), prose[i])))
  }

  /** The default events as stored. */
  function DefaultEvents(ids: seq<string>, prose: seq<EventProse>): (ds: seq<Doc>)
    requires EventIds(ids) && |prose| == 4
    ensures |ds| == 4 && SeedsKeyed(ds) && SortedBy(ds, OrderKey)
  {
    SeedDocsKeyed(EventSeeds(ids, prose));
    SeedDocs(EventSeeds(ids, prose))
  }

  /** The first list of an empty collection returns the four defaults in `order`, each of
      which a get then finds by its id. */
  lemma ListEventsSeeds(t: Table, ids: seq<string>, prose: seq<EventProse>)
    requires WellFormed(t) && |t.ids| == 0 && EventIds(ids) && |prose| == 4
    ensures var step := ListSpec(t, DefaultEvents(ids, prose));
      var seeds := EventSeeds(ids, prose);
      && |step.result| == 4
      && forall i :: 0 <= i < 4 ==>
           step.result[i] == Renamed(SeedDoc(seeds[i])) && GetSpec(step.after, ids[i]) == Ok(step.result[i])
  {
    ListSeedsInOrder(t, EventSeeds(ids, prose));
  }

  /** Every event of that first list shows both dates and both locations. */
  lemma ListedEventsDated(t: Table, ids: seq<string>, prose: seq<EventProse>)
    requires WellFormed(t) && |t.ids| == 0 && EventIds(ids) && |prose| == 4
    ensures var r := ListSpec(t, DefaultEvents(ids, prose)).result;
      |r| == 4 && forall i :: 0 <= i < 4 ==> Dated(r[i])
  {
    var seeds := EventSeeds(ids, prose);
    ListEventsSeeds(t, ids, prose);
    forall i | 0 <= i < 4 ensures Dated(Renamed(SeedDoc(seeds[i]))) {
      SeedResponse(seeds[i]);
    }
  }

  /** `create_event` needs the eight dates, titles, locations and summaries as strings:
      without any of them it is a 422. */
  lemma CreateEventRequired(t: Table, body: Doc, freshId: string)
    requires WellFormed(t) && freshId !in t.docs
    ensures var r := CreateSpec(t, EventCreate(), body, NoEmailCheck, true, freshId).result;
      && (!HasStr(body, "date_en") ==> r == Err(Unprocessable))
      && (!HasStr(body, "date_fr") ==> r == Err(Unprocessable))
      && (!HasStr(body, "title_en") ==> r == Err(Unprocessable))
      && (!HasStr(body, "title_fr") ==> r == Err(Unprocessable))
      && (!HasStr(body, "location_en") ==> r == Err(Unprocessable))
      && (!HasStr(body, "location_fr") ==> r == Err(Unprocessable))
      && (!HasStr(body, "summary_en") ==> r == Err(Unprocessable))
      && (!HasStr(body, "summary_fr") ==> r == Err(Unprocessable))
  {
    var schema := EventCreate();
    CreatedField(t, schema, body, NoEmailCheck, freshId, 0);
    CreatedField(t, schema, body, NoEmailCheck, freshId, 1);
    CreatedField(t, schema, body, NoEmailCheck, freshId, 2);
    CreatedField(t, schema, body, NoEmailCheck, freshId, 3);
    CreatedField(t, schema, body, NoEmailCheck, freshId, 4);
    CreatedField(t, schema, body, NoEmailCheck, freshId, 5);
    CreatedField(t, schema, body, NoEmailCheck, freshId, 6);
    CreatedField(t, schema, body, NoEmailCheck, freshId, 7);
  }

  /** `create_event` defaults `media_key` and `image_url` to "" and `order` to 0. */
  lemma CreateEventDefaults(t: Table, body: Doc, freshId: string)
    requires WellFormed(t) && freshId !in t.docs
    ensures var r := CreateSpec(t, EventCreate(), body, NoEmailCheck, true, freshId).result;
      r.Ok? ==>
        && ("media_key" !in body ==> "media_key" in r.value && r.value["media_key"] == VStr(""))
        && ("image_url" !in body ==> "image_url" in r.value && r.value["image_url"] == VStr(""))
        && ("order" !in body ==> "order" in r.value && r.value["order"] == VInt(0))
  {
    var schema := EventCreate();
    CreatedField(t, schema, body, NoEmailCheck, freshId, 8);
    CreatedField(t, schema, body, NoEmailCheck, freshId, 9);
    CreatedField(t, schema, body, NoEmailCheck, freshId, 10);
  }

  /** `list_events`, with `ids` the uuids of the defaults and `prose` their wording. */
  method ListEvents(c: Collection, ids: seq<string>, prose: seq<EventProse>) returns (items: seq<Doc>)
    requires c.Valid() && EventIds(ids) && |prose| == 4
    modifies c
    ensures c.Valid()
    ensures var step := ListSpec(old(c.Value()), DefaultEvents(ids, prose));
      items == step.result && c.Value() == step.after
  {
    items := List(c, DefaultEvents(ids, prose));
  }

  /** `get_event`. */
  method GetEvent(c: Collection, eventId: string) returns (r: Result<Doc>)
    ensures r == GetSpec(c.Value(), eventId)
  {
    r := Get(c, eventId);
  }

  /** `create_event`, with `freshId` the uuid it draws. */
  method CreateEvent(c: Collection, body: Doc, admin: bool, freshId: string) returns (r: Result<Doc>)
    requires c.Valid() && freshId !in c.docs
    modifies c
    ensures c.Valid()
    ensures var step := CreateSpec(old(c.Value()), EventCreate(), body, NoEmailCheck, admin, freshId);
      r == step.result && c.Value() == step.after
  {
    r := Create(c, EventCreate(), body, NoEmailCheck, admin, freshId);
  }

  /** `update_event`. */
  method UpdateEvent(c: Collection, eventId: string, body: Doc, admin: bool) returns (r: Result<Doc>)
    requires c.Valid()
    modifies c
    ensures c.Valid()
    ensures var step := UpdateSpec(old(c.Value()), EventUpdate(), eventId, body, NoEmailCheck, admin);
      r == step.result && c.Value() == step.after
  {
    r := Update(c, EventUpdate(), eventId, body, NoEmailCheck, admin);
  }

  /** `delete_event`. */
  method DeleteEvent(c: Collection, eventId: string, admin: bool) returns (r: Result<Doc>)
    requires c.Valid()
    modifies c
    ensures c.Valid()
    ensures var step := DeleteSpec(old(c.Value()), eventId, admin, "Event deleted");
      r == step.result && c.Value() == step.after
  {
    r := Delete(c, eventId, admin, "Event deleted");
  }
}
