/** The gallery routes: the `GalleryItemCreate`/`GalleryItemUpdate` models, the six
    default pictures and the five handlers over the `gallery` collection. */
module Gallery {
  import opened Common
  import opened Docs
  import opened Schema
  import opened Store
  import opened Records

  /** `GalleryItemCreate` (the fields of `GalleryItemBase`). */
  function GalleryCreate(): (schema: seq<Field>)
    ensures RecordSchema(schema) && !Declares(schema, "id")
  {
    [ Required("title_en", KStr), Required("title_fr", KStr), Required("media_key", KStr),
      WithDefault("image_url", KStr, VStr("")), WithDefault("order", KInt, VInt(0)) ]
  }

  /** `GalleryItemUpdate`: every field optional. */
  function GalleryUpdate(): (schema: seq<Field>)
    ensures RecordSchema(schema) && AllOptional(schema)
  {
    [ Patch("title_en", KStr), Patch("title_fr", KStr), Patch("media_key", KStr),
      Patch("image_url", KStr), Patch("order", KInt) ]
  }

  /** The titles, media key and photo of one default picture. */
  datatype GalleryText = GalleryText(titleEn: string, titleFr: string, mediaKey: string, photo: string)

  /** The literal part of the `i`th entry of `DEFAULT_GALLERY`. */
  function GalleryTexts(i: nat): GalleryText
    requires i < 6
  {
    if i == 0 then
      GalleryText("Community Soccer Day", "Journée de soccer communautaire", "gallery.soccer1",
        "1574629810360-7efbbe195018")
    else if i == 1 then
      GalleryText("Youth Leadership Workshop", "Atelier de leadership pour les jeunes", "gallery.youth1",
        "1529156069898-49953e39b3ac")
    else if i == 2 then
      GalleryText("Family Fun Day", "Journée amusante en famille", "gallery.family1",
        "1511895426328-dc8714191300")
    else if i == 3 then
      GalleryText("Cultural Celebration", "Célébration culturelle", "gallery.culture1",
        "1533174072545-7a4b6ad7a6c3")
    else if i == 4 then
      GalleryText("Summer Tournament", "Tournoi d'été", "gallery.soccer2", "1431324155629-1a6deb1dec8d")
    else
      GalleryText("Community BBQ", "BBQ communautaire", "gallery.community1", "1555939594-58d7cb561ad1")
  }

  /** The fields carry a picture: a non-empty `image_url` text. */
  predicate Pictured(f: Doc) {
    "image_url" in f && f["image_url"].VStr? && |f["image_url"].s| > 0
  }

  /** The fields of one entry of `DEFAULT_GALLERY` other than its id and order. */
  function GalleryFields(text: GalleryText): (f: Doc)
    ensures Pictured(f)
  {
    map["title_en" := VStr(text.titleEn), "title_fr" := VStr(text.titleFr),
      "media_key" := VStr(text.mediaKey), "image_url" := VStr(UnsplashUrl(text.photo, "800"))]
  }

  /** Six distinct ids, as `str(uuid.uuid4())` draws them once per process. */
  predicate GalleryIds(ids: seq<string>) {
    |ids| == 6 && Distinct(ids)
  }

  /** `DEFAULT_GALLERY`, with the ids drawn at load time; the `i`th picture has order `i + 1`. */
  function GallerySeeds(ids: seq<string>): (seeds: seq<Seed>)
    requires GalleryIds(ids)
    ensures |seeds| == 6 && SeedsValid(seeds)
    ensures forall i :: 0 <= i < 6 ==> seeds[i].id == ids[i] && Pictured(seeds[i].fields)
  {
    Numbered(ids, seq(6, i requires 0 <= i < 6 => GalleryFields(GalleryTexts(i))))
  }

  /** The default pictures as stored. */
  function DefaultGallery(ids: seq<string>): (ds: seq<Doc>)
    requires GalleryIds(ids)
    ensures |ds| == 6 && SeedsKeyed(ds) && SortedBy(ds, OrderKey)
  {
    SeedDocsKeyed(GallerySeeds(ids));
    SeedDocs(GallerySeeds(ids))
  }

  /** The first list of an empty collection returns the six defaults in `order`, each of
      which a get then finds by its id. */
  lemma ListGallerySeeds(t: Table, ids: seq<string>)
    requires WellFormed(t) && |t.ids| == 0 && GalleryIds(ids)
    ensures var step := ListSpec(t, DefaultGallery(ids));
      var seeds := GallerySeeds(ids);
      && |step.result| == 6
      && forall i :: 0 <= i < 6 ==>
           step.result[i] == Renamed(SeedDoc(seeds[i])) && GetSpec(step.after, ids[i]) == Ok(step.result[i])
  {
    ListSeedsInOrder(t, GallerySeeds(ids));
  }

  /** Every picture of that first list has a non-empty `image_url`. */
  lemma ListedGalleryPictured(t: Table, ids: seq<string>)
    requires WellFormed(t) && |t.ids| == 0 && GalleryIds(ids)
    ensures var r := ListSpec(t, DefaultGallery(ids)).result;
      |r| == 6 && forall i :: 0 <= i < 6 ==> Pictured(r[i])
  {
    var seeds := GallerySeeds(ids);
    ListGallerySeeds(t, ids);
    forall i | 0 <= i < 6 ensures Pictured(Renamed(SeedDoc(seeds[i]))) {
      SeedResponse(seeds[i]);
    }
  }

  /** `create_gallery_item` needs both titles and the media key as strings: without any of
      them it is a 422. */
  lemma CreateGalleryRequired(t: Table, body: Doc, freshId: string)
    requires WellFormed(t) && freshId !in t.docs
    ensures var r := CreateSpec(t, GalleryCreate(), body, NoEmailCheck, true, freshId).result;
      && (!HasStr(body, "title_en") ==> r == Err(Unprocessable))
      && (!HasStr(body, "title_fr") ==> r == Err(Unprocessable))
      && (!HasStr(body, "media_key") ==> r == Err(Unprocessable))
  {
    var schema := GalleryCreate();
    CreatedField(t, schema, body, NoEmailCheck, freshId, 0);
    CreatedField(t, schema, body, NoEmailCheck, freshId, 1);
    CreatedField(t, schema, body, NoEmailCheck, freshId, 2);
  }

  /** `create_gallery_item` defaults `image_url` to "" and `order` to 0. */
  lemma CreateGalleryDefaults(t: Table, body: Doc, freshId: string)
    requires WellFormed(t) && freshId !in t.docs
    ensures var r := CreateSpec(t, GalleryCreate(), body, NoEmailCheck, true, freshId).result;
      r.Ok? ==>
        && ("image_url" !in body ==> "image_url" in r.value && r.value["image_url"] == VStr(""))
        && ("order" !in body ==> "order" in r.value && r.value["order"] == VInt(0))
  {
    var schema := GalleryCreate();
    CreatedField(t, schema, body, NoEmailCheck, freshId, 3);
    CreatedField(t, schema, body, NoEmailCheck, freshId, 4);
  }

  /** `list_gallery`, with `ids` the uuids of the defaults. */
  method ListGallery(c: Collection, ids: seq<string>) returns (items: seq<Doc>)
    requires c.Valid() && GalleryIds(ids)
    modifies c
    ensures c.Valid()
    ensures var step := ListSpec(old(c.Value()), DefaultGallery(ids));
      items == step.result && c.Value() == step.after
  {
    items := List(c, DefaultGallery(ids));
  }

  /** `get_gallery_item`. */
  method GetGalleryItem(c: Collection, galleryId: string) returns (r: Result<Doc>)
    ensures r == GetSpec(c.Value(), galleryId)
  {
    r := Get(c, galleryId);
  }

  /** `create_gallery_item`, with `freshId` the uuid it draws. */
  method CreateGalleryItem(c: Collection, body: Doc, admin: bool, freshId: string) returns (r: Result<Doc>)
    requires c.Valid() && freshId !in c.docs
    modifies c
    ensures c.Valid()
    ensures var step := CreateSpec(old(c.Value()), GalleryCreate(), body, NoEmailCheck, admin, freshId);
      r == step.result && c.Value() == step.after
  {
    r := Create(c, GalleryCreate(), body, NoEmailCheck, admin, freshId);
  }

  /** `update_gallery_item`. */
  method UpdateGalleryItem(c: Collection, galleryId: string, body: Doc, admin: bool) returns (r: Result<Doc>)
    requires c.Valid()
    modifies c
    ensures c.Valid()
    ensures var step := UpdateSpec(old(c.Value()), GalleryUpdate(), galleryId, body, NoEmailCheck, admin);
      r == step.result && c.Value() == step.after
  {
    r := Update(c, GalleryUpdate(), galleryId, body, NoEmailCheck, admin);
  }

  /** `delete_gallery_item`. */
  method DeleteGalleryItem(c: Collection, galleryId: string, admin: bool) returns (r: Result<Doc>)
    requires c.Valid()
    modifies c
    ensures c.Valid()
    ensures var step := DeleteSpec(old(c.Value()), galleryId, admin, "Gallery item deleted");
      r == step.result && c.Value() == step.after
  {
    r := Delete(c, galleryId, admin, "Gallery item deleted");
  }
}
