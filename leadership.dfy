/** The leadership routes: the member models, the eight default members, the five record
    handlers, and the photo uploads: the extension allow-list, the stored file name and
    its URL, the upload endpoint, the member delete that removes the photo, and the
    multipart create and update that take a photo. `UPLOAD_DIR` is an `UploadDir`, the
    set of the names of the files in it. */
module Leadership {
  import opened Common
  import opened Docs
  import opened Schema
  import opened Store
  import opened Records
  import Text

  /* ---------- File names ---------- */

  /** `Path(name).suffix` of a final path component: from its last dot on, when that dot
      is neither the first nor the last character; "" otherwise. */
  function Suffix(name: string): (ext: string)
    ensures ext == "" || (|ext| >= 2 && ext[0] == '.' && '.' !in ext[1..] && |ext| < |name|
                          && ext == name[|name| - |ext|..])
  {
    var i := Text.RFind(name, '.');
    if 0 < i < |name| - 1 then name[i..]
    else ""
  }

  /** `get_file_extension`: `Path(filename).suffix.lower()`; the final component is the
      text after the last `/`. */
  function FileExtension(filename: string): (ext: string)
    ensures ext == "" || (|ext| >= 2 && ext[0] == '.' && '.' !in ext[1..])
    ensures '/' !in ext
  {
    var suffix := Suffix(Text.LastSegment(filename, '/'));
    var ext := Text.AsciiLower(suffix);
    assert forall k :: 0 <= k < |ext| ==> (ext[k] == '.' <==> suffix[k] == '.') && (ext[k] == '/' <==> suffix[k] == '/');
    assert |ext| >= 2 ==> forall k :: 0 <= k < |ext[1..]| ==> ext[1..][k] == Text.AsciiLowerChar(suffix[1..][k]);
    ext
  }

  /** `ALLOWED_EXTENSIONS`. */
  const AllowedExtensions: set<string> := {".jpg", ".jpeg", ".png", ".gif", ".webp"}

  /** `is_allowed_file`. */
  predicate IsAllowedFile(filename: string) {
    FileExtension(filename) in AllowedExtensions
  }

  /** `name` is a non-empty stem followed by an extension: a dot, then at least one
      character, none of them a dot. */
  predicate StemAndExtension(name: string, stem: string, ext: string) {
    name == stem + ext && |stem| > 0 && |ext| >= 2 && ext[0] == '.' && '.' !in ext[1..]
  }

  /** The suffix of a stem and an extension is that extension. */
  lemma SuffixOf(name: string, stem: string, ext: string)
    requires StemAndExtension(name, stem, ext)
    ensures Suffix(name) == ext
  {
    assert name[|stem|] == '.';
    forall k | |stem| < k < |name| ensures name[k] != '.' {
      assert name[k] == ext[1..][k - |stem| - 1];
    }
    assert name[|stem|..] == ext;
  }

  /** `name` is a stem and an extension that lower-cases into `allowed`. */
  ghost predicate HasExtensionIn(name: string, allowed: set<string>) {
    exists stem, ext :: StemAndExtension(name, stem, ext) && Text.AsciiLower(ext) in allowed
  }

  /** A file is allowed exactly when its final component is a stem and an extension that
      lower-cases to one of the five allowed ones; so "PHOTO.JPG" passes, while a name
      without a dot, a dot file such as ".jpg" and "a.bmp" do not. */
  lemma AllowedFileIff(filename: string)
    ensures IsAllowedFile(filename) <==> HasExtensionIn(Text.LastSegment(filename, '/'), AllowedExtensions)
  {
    assert "" !in AllowedExtensions;
    FileExtensionIn(filename, AllowedExtensions);
  }

  /** `AllowedFileIff` for any set of extensions `allowed` that leaves out "". */
  lemma FileExtensionIn(filename: string, allowed: set<string>)
    requires "" !in allowed
    ensures FileExtension(filename) in allowed <==> HasExtensionIn(Text.LastSegment(filename, '/'), allowed)
  {
    var name := Text.LastSegment(filename, '/');
    assert FileExtension(filename) == Text.AsciiLower(Suffix(name));
    ExtensionIn(name, allowed);
  }

  /** `FileExtensionIn` for the final component `name`. */
  lemma ExtensionIn(name: string, allowed: set<string>)
    requires "" !in allowed
    ensures Text.AsciiLower(Suffix(name)) in allowed <==> HasExtensionIn(name, allowed)
  {
    var ext := Suffix(name);
    if Text.AsciiLower(ext) in allowed {
      assert ext != "";
      var stem := name[..|name| - |ext|];
      assert name == stem + ext;
      assert StemAndExtension(name, stem, ext);
    }
    forall stem, e | StemAndExtension(name, stem, e) && Text.AsciiLower(e) in allowed
      ensures Text.AsciiLower(Suffix(name)) in allowed
    {
      SuffixOf(name, stem, e);
    }
  }

  /** Lower-casing an already lower-cased text changes nothing. */
  lemma AsciiLowerTwice(s: string)
    ensures Text.AsciiLower(Text.AsciiLower(s)) == Text.AsciiLower(s)
  {
  }

  /* ---------- Stored names and their URLs ---------- */

  /** `f"{uuid.uuid4()}{file_extension}"`, with `fileUuid` the uuid drawn. */
  function StoredName(fileUuid: string, filename: string): string {
    fileUuid + FileExtension(filename)
  }

  /** `f"/api/uploads/leadership/{unique_filename}"`. */
  function UploadUrl(filename: string): string {
    "/api/uploads/leadership/" + filename
  }

  /** The file in `UPLOAD_DIR` a stored `image_url` names: when it starts with
      "/api/uploads/", its last `/`-segment (`image_url.split("/")[-1]`). */
  function UploadedFile(url: string): Option<string> {
    if Text.StartsWith(url, "/api/uploads/") then Some(Text.LastSegment(url, '/')) else None
  }

  /** The stored name of an allowed upload has no `/`, keeps the extension, and is itself
      an allowed file name. */
  lemma StoredNameKeepsExtension(fileUuid: string, filename: string)
    requires |fileUuid| > 0 && '/' !in fileUuid && IsAllowedFile(filename)
    ensures '/' !in StoredName(fileUuid, filename)
    ensures FileExtension(StoredName(fileUuid, filename)) == FileExtension(filename)
    ensures IsAllowedFile(StoredName(fileUuid, filename))
  {
    var ext := FileExtension(filename);
    var name := StoredName(fileUuid, filename);
    Text.SplitNoSep(name, '/');
    assert StemAndExtension(name, fileUuid, ext);
    SuffixOf(name, fileUuid, ext);
    AsciiLowerTwice(Suffix(Text.LastSegment(filename, '/')));
  }

  /** Round trip: the URL of a stored name that has no `/` names that file again. */
  lemma UploadUrlRoundTrip(filename: string)
    requires '/' !in filename
    ensures UploadedFile(UploadUrl(filename)) == Some(filename)
  {
    assert UploadUrl(filename) == "/api/uploads/leadership" + ['/'] + filename;
    assert UploadUrl(filename)[..|"/api/uploads/"|] == "/api/uploads/";
    Text.LastSegmentAfter("/api/uploads/leadership", '/', filename);
  }

  /* ---------- The upload directory ---------- */

  /** `UPLOAD_DIR`: the names of the files in it. */
  class UploadDir {
    var files: set<string>

    /** The directory as `mkdir` leaves it on a fresh install. */
    constructor ()
      ensures files == {}
    {
      files := {};
    }

    /** `(UPLOAD_DIR / name).exists()`: a stored file, or the directory itself or its
        parent. */
    method Exists(name: string) returns (b: bool)
      ensures b <==> name in files || NamesDirectory(name)
    {
      b := name in files || NamesDirectory(name);
    }

    /** `(UPLOAD_DIR / name).unlink()` of a path that exists; `ok` is false when the path
        is a directory, on which `unlink` raises and nothing is removed. */
    method Unlink(name: string) returns (ok: bool)
      requires name in files || NamesDirectory(name)
      modifies this
      ensures ok <==> !NamesDirectory(name)
      ensures files == if ok then old(files) - {name} else old(files)
    {
      ok := !NamesDirectory(name);
      if ok {
        files := files - {name};
      }
    }

    /** `open(UPLOAD_DIR / name, "wb")` and the copy of the upload into it; `ok` says
        whether the write succeeded. */
    method Write(name: string, ok: bool)
      modifies this
      ensures files == if ok then old(files) + {name} else old(files)
    {
      if ok {
        files := files + {name};
      }
    }
  }

  /** A last segment that makes `UPLOAD_DIR / name` the upload directory itself ("" and
      ".") or its parent (".."): a path that exists and is a directory. */
  predicate NamesDirectory(name: string) {
    name == "" || name == "." || name == ".."
  }

  /** Removing the photo `url` names raises: it is an upload address whose last segment
      names a directory. */
  predicate UnlinkFails(url: string) {
    UploadedFile(url).Some? && NamesDirectory(UploadedFile(url).value)
  }

  /** The directory after removing the file `url` names, if it names one that exists. */
  function WithoutUpload(files: set<string>, url: string): (r: set<string>)
    ensures r <= files
    ensures UploadedFile(url).None? ==> r == files
    ensures UploadedFile(url).Some? ==> r == files - {UploadedFile(url).value}
  {
    match UploadedFile(url)
    case None => files
    case Some(name) => files - {name}
  }

  /** `if url.startswith("/api/uploads/"): ... if path.exists(): path.unlink()`; `ok` is
      false when `unlink` raises, which leaves the directory as it was. */
  method RemoveUploaded(dir: UploadDir, url: string) returns (ok: bool)
    modifies dir
    ensures ok <==> !UnlinkFails(url)
    ensures dir.files == if ok then WithoutUpload(old(dir.files), url) else old(dir.files)
  {
    ok := true;
    if Text.StartsWith(url, "/api/uploads/") {
      var name := Text.LastSegment(url, '/');
      var present := dir.Exists(name);
      if present {
        ok := dir.Unlink(name);
      }
    }
  }

  /* ---------- Models ---------- */

  /** `LeadershipMemberCreate` (the fields of `LeadershipMemberBase`). */
  function MemberCreate(): (schema: seq<Field>)
    ensures RecordSchema(schema) && !Declares(schema, "id")
  {
    [ Required("name", KStr), Required("role_en", KStr), Required("role_fr", KStr),
      WithDefault("bio_en", KStr, VStr("")), WithDefault("bio_fr", KStr, VStr("")),
      WithDefault("email", KStr, VStr("")), WithDefault("linkedin", KStr, VStr("")),
      WithDefault("image_url", KStr, VStr("")), WithDefault("order", KInt, VInt(0)) ]
  }

  /** `LeadershipMemberUpdate`: every field optional. */
  function MemberUpdate(): (schema: seq<Field>)
    ensures RecordSchema(schema) && AllOptional(schema)
  {
    [ Patch("name", KStr), Patch("role_en", KStr), Patch("role_fr", KStr),
      Patch("bio_en", KStr), Patch("bio_fr", KStr), Patch("email", KStr),
      Patch("linkedin", KStr), Patch("image_url", KStr), Patch("order", KInt) ]
  }

  /** The text form parameters of `create_leadership_with_image`. */
  function MemberCreateForm(): (schema: seq<Field>)
    ensures DistinctNames(schema) && !Declares(schema, "_id") && !Declares(schema, "image_url")
  {
    [ Required("name", KStr), Required("role_en", KStr), Required("role_fr", KStr),
      WithDefault("bio_en", KStr, VStr("")), WithDefault("bio_fr", KStr, VStr("")),
      WithDefault("email", KStr, VStr("")), WithDefault("linkedin", KStr, VStr("")),
      WithDefault("order", KInt, VInt(0)) ]
  }

  /** The text form parameters of `update_leadership_with_image`, each `Form(None)`. */
  function MemberUpdateForm(): (schema: seq<Field>)
    ensures DistinctNames(schema) && !Declares(schema, "_id") && !Declares(schema, "image_url")
    ensures AllOptional(schema)
  {
    [ Patch("name", KStr), Patch("role_en", KStr), Patch("role_fr", KStr),
      Patch("bio_en", KStr), Patch("bio_fr", KStr), Patch("email", KStr),
      Patch("linkedin", KStr), Patch("order", KInt) ]
  }

  /* ---------- Default members ---------- */

  /** The two biographies of one default member. Their wording is a parameter of the
      model: only its place in the documents matters to the routes. */
  datatype MemberProse = MemberProse(bioEn: string, bioFr: string)

  /** The name, roles, e-mail address and photo of one default member. */
  datatype MemberText = MemberText(name: string, roleEn: string, roleFr: string, email: string, photo: string)

  /** The literal part of the `i`th entry of `DEFAULT_LEADERSHIP`. */
  function MemberTexts(i: nat): MemberText
    requires i < 8
  {
    if i == 0 then
      MemberText("Jean-Pierre Mbeki", "Founder & President", "Fondateur et Président",
        "president@gosec.ca", "1507003211169-0a1dd7228f2d")
    else if i == 1 then
      MemberText("Aminata Diallo", "Vice President", "Vice-Présidente", "vp@gosec.ca",
        "1573496359142-b8d87734a5a2")
    else if i == 2 then
      MemberText("Emmanuel Okonkwo", "Director of Soccer Programs", "Directeur des programmes de soccer",
        "soccer@gosec.ca", "1472099645785-5658abf4ff4e")
    else if i == 3 then
      MemberText("Marie-Claire Beaumont", "Director of Youth Development",
        "Directrice du développement des jeunes", "youth@gosec.ca", "1580489944761-15a19d654956")
    else if i == 4 then
      MemberText("David Ndongo", "Director of Cultural Programs", "Directeur des programmes culturels",
        "culture@gosec.ca", "1506794778202-cad84cf45f1d")
    else if i == 5 then
      MemberText("Fatou Sow", "Director of Family Programs", "Directrice des programmes familiaux",
        "family@gosec.ca", "1531123897727-8f129e1688ce")
    else if i == 6 then
      MemberText("Michel Tremblay", "Treasurer", "Trésorier", "treasurer@gosec.ca",
        "1560250097-0b93528c311a")
    else
      MemberText("Aisha Mohammed", "Secretary & Communications", "Secrétaire et Communications",
        "communications@gosec.ca", "1551836022-d5d88e9218df")
  }

  /** The fields of one entry of `DEFAULT_LEADERSHIP` other than its id and order. */
  function MemberFields(text: MemberText, prose: MemberProse): (f: Doc)
    ensures "name" in f && f["name"] == VStr(text.name)
  {
    map["name" := VStr(text.name), "role_en" := VStr(text.roleEn), "role_fr" := VStr(text.roleFr),
      "bio_en" := VStr(prose.bioEn), "bio_fr" := VStr(prose.bioFr), "email" := VStr(text.email),
      "linkedin" := VStr(""), "image_url" := VStr(UnsplashUrl(text.photo, "400"))]
  }

  /** Eight distinct ids, as `str(uuid.uuid4())` draws them once per process. */
  predicate MemberIds(ids: seq<string>) {
    |ids| == 8 && Distinct(ids)
  }

  /** `DEFAULT_LEADERSHIP`, with the ids drawn at load time and the biographies taken from
      `prose`; the `i`th member has order `i + 1`. */
  function MemberSeeds(ids: seq<string>, prose: seq<MemberProse>): (seeds: seq<Seed>)
    requires MemberIds(ids) && |prose| == 8
    ensures |seeds| == 8 && SeedsValid(seeds)
    ensures forall i :: 0 <= i < 8 ==> seeds[i].id == ids[i]
  {
    Numbered(ids, seq(8, i requires 0 <= i < 8 => MemberFields(MemberTexts(i), prose[i])))
  }

  /** The default members as stored. */
  function DefaultLeadership(ids: seq<string>, prose: seq<MemberProse>): (ds: seq<Doc>)
    requires MemberIds(ids) && |prose| == 8
    ensures |ds| == 8 && SeedsKeyed(ds) && SortedBy(ds, OrderKey)
  {
    SeedDocsKeyed(MemberSeeds(ids, prose));
    SeedDocs(MemberSeeds(ids, prose))
  }

  /** The first list of an empty collection returns the eight defaults in `order`, each
      of which a get then finds by its id. */
  lemma ListLeadershipSeeds(t: Table, ids: seq<string>, prose: seq<MemberProse>)
    requires WellFormed(t) && |t.ids| == 0 && MemberIds(ids) && |prose| == 8
    ensures var step := ListSpec(t, DefaultLeadership(ids, prose));
      var seeds := MemberSeeds(ids, prose);
      && |step.result| == 8
      && forall i :: 0 <= i < 8 ==>
           step.result[i] == Renamed(SeedDoc(seeds[i])) && GetSpec(step.after, ids[i]) == Ok(step.result[i])
  {
    ListSeedsInOrder(t, MemberSeeds(ids, prose));
  }

  /** Jean-Pierre Mbeki, order 1, comes first in that first list. */
  lemma FounderListedFirst(t: Table, ids: seq<string>, prose: seq<MemberProse>)
    requires WellFormed(t) && |t.ids| == 0 && MemberIds(ids) && |prose| == 8
    ensures var r := ListSpec(t, DefaultLeadership(ids, prose)).result;
      && |r| == 8
      && "name" in r[0] && r[0]["name"] == VStr("Jean-Pierre Mbeki")
      && "order" in r[0] && r[0]["order"] == VInt(1)
  {
    var seeds := MemberSeeds(ids, prose);
    ListLeadershipSeeds(t, ids, prose);
    SeedResponse(seeds[0]);
  }

  /** `create_leadership_member` needs the name and both roles as strings: without any of
      them it is a 422. */
  lemma CreateMemberRequired(t: Table, body: Doc, freshId: string)
    requires WellFormed(t) && freshId !in t.docs
    ensures var r := CreateSpec(t, MemberCreate(), body, NoEmailCheck, true, freshId).result;
      && (!HasStr(body, "name") ==> r == Err(Unprocessable))
      && (!HasStr(body, "role_en") ==> r == Err(Unprocessable))
      && (!HasStr(body, "role_fr") ==> r == Err(Unprocessable))
  {
    var schema := MemberCreate();
    CreatedField(t, schema, body, NoEmailCheck, freshId, 0);
    CreatedField(t, schema, body, NoEmailCheck, freshId, 1);
    CreatedField(t, schema, body, NoEmailCheck, freshId, 2);
  }

  /** `create_leadership_member` defaults the biographies, e-mail, LinkedIn and image
      address to "" and `order` to 0. */
  lemma CreateMemberDefaults(t: Table, body: Doc, freshId: string)
    requires WellFormed(t) && freshId !in t.docs
    ensures var r := CreateSpec(t, MemberCreate(), body, NoEmailCheck, true, freshId).result;
      r.Ok? ==>
        && ("bio_en" !in body ==> "bio_en" in r.value && r.value["bio_en"] == VStr(""))
        && ("bio_fr" !in body ==> "bio_fr" in r.value && r.value["bio_fr"] == VStr(""))
        && ("email" !in body ==> "email" in r.value && r.value["email"] == VStr(""))
        && ("linkedin" !in body ==> "linkedin" in r.value && r.value["linkedin"] == VStr(""))
        && ("image_url" !in body ==> "image_url" in r.value && r.value["image_url"] == VStr(""))
        && ("order" !in body ==> "order" in r.value && r.value["order"] == VInt(0))
  {
    var schema := MemberCreate();
    CreatedField(t, schema, body, NoEmailCheck, freshId, 3);
    CreatedField(t, schema, body, NoEmailCheck, freshId, 4);
    CreatedField(t, schema, body, NoEmailCheck, freshId, 5);
    CreatedField(t, schema, body, NoEmailCheck, freshId, 6);
    CreatedField(t, schema, body, NoEmailCheck, freshId, 7);
    CreatedField(t, schema, body, NoEmailCheck, freshId, 8);
  }

  /* ---------- Handlers that touch the upload directory ---------- */

  /** A handler's result, the collection after it and the upload directory after it. */
  datatype FileStep = FileStep(result: Result<Doc>, after: Table, files: set<string>)

  /** `doc.get("image_url", "")` when it is a text; None when the field holds something
      else, on which `.startswith` raises. */
  function ImageUrlOf(d: Doc): (url: Option<string>)
    ensures "image_url" !in d ==> url == Some("")
    ensures HasStr(d, "image_url") ==> url == Some(d["image_url"].s)
  {
    if "image_url" !in d then Some("")
    else if d["image_url"].VStr? then Some(d["image_url"].s)
    else None
  }

  /** An `UploadFile` part that was sent with a file name: `image and image.filename`.
      A part is given by its file name; None is no part. */
  predicate HasFile(image: Option<string>) {
    image.Some? && image.value != ""
  }

  /** `delete_leadership_member`: 404 for an unknown id; otherwise the photo the record's
      `image_url` names is removed when it exists, then the record. Reading a non-text
      `image_url` or unlinking a directory raises: a 500 before anything is removed. */
  function DeleteMemberSpec(t: Table, files: set<string>, id: string, admin: bool): FileStep {
    if !admin then FileStep(Err(Unauthorized), t, files)
    else if id !in t.docs then FileStep(Err(NotFound), t, files)
    else
      match ImageUrlOf(t.docs[id])
      case None => FileStep(Err(ServerError), t, files)
      case Some(url) =>
        if UnlinkFails(url) then FileStep(Err(ServerError), t, files)
        else FileStep(Ok(Message("Leadership member deleted")), Remove(t, id), WithoutUpload(files, url))
  }

  /** What an upload returns and the directory after it. */
  datatype Written = Written(result: Result<Doc>, files: set<string>)

  /** `upload_leadership_image`, with `file` the file name of the part (None when there is
      no part, a 422), `fileUuid` the uuid it draws and `writeOk` whether the write succeeds. */
  function UploadSpec(files: set<string>, admin: bool, file: Option<string>, fileUuid: string,
                      writeOk: bool): Written
  {
    if !admin then Written(Err(Unauthorized), files)
    else if file.None? then Written(Err(Unprocessable), files)
    else if file.value == "" || !IsAllowedFile(file.value) then Written(Err(BadRequest), files)
    else
      var name := StoredName(fileUuid, file.value);
      if !writeOk then Written(Err(ServerError), files)
      else
        Written(Ok(map["filename" := VStr(name), "image_url" := VStr(UploadUrl(name)),
                       "message" := VStr("Image uploaded successfully")]),
                files + {name})
  }

  /** An upload succeeds exactly for an admin's allowed, named file that is written; any
      failure writes nothing. A success stores `uuid + ext` with the upload's extension and
      returns it with its URL, which names the stored file again. */
  lemma UploadSpecProps(files: set<string>, admin: bool, file: Option<string>, fileUuid: string,
                        writeOk: bool)
    requires |fileUuid| > 0 && '/' !in fileUuid
    ensures var w := UploadSpec(files, admin, file, fileUuid, writeOk);
      && (w.result.Ok? <==> admin && HasFile(file) && IsAllowedFile(file.value) && writeOk)
      && (w.result.Err? ==> w.files == files)
      && (admin && file.Some? && !IsAllowedFile(file.value) ==> w.result == Err(BadRequest))
      && (w.result.Ok? ==>
            var name := StoredName(fileUuid, file.value);
            && w.files == files + {name}
            && FileExtension(name) == FileExtension(file.value)
            && "filename" in w.result.value && w.result.value["filename"] == VStr(name)
            && "image_url" in w.result.value && w.result.value["image_url"] == VStr(UploadUrl(name))
            && UploadedFile(UploadUrl(name)) == Some(name))
  {
    if admin && HasFile(file) && IsAllowedFile(file.value) {
      StoredNameKeepsExtension(fileUuid, file.value);
      UploadUrlRoundTrip(StoredName(fileUuid, file.value));
    }
  }

  /** A delete succeeds exactly for a stored record whose `image_url` is a text that does
      not name a directory. An unknown id is a 404, and a non-text `image_url` or one naming
      a directory a 500; these change nothing. A success removes the record (a later get
      is a 404, the others stay) and the one file its uploaded photo names; a record whose
      photo is not an upload leaves the directory alone. */
  lemma DeleteMemberProps(t: Table, files: set<string>, id: string)
    requires WellFormed(t)
    ensures var step := DeleteMemberSpec(t, files, id, true);
      && (step.result.Ok? <==>
            id in t.docs && ImageUrlOf(t.docs[id]).Some? && !UnlinkFails(ImageUrlOf(t.docs[id]).value))
      && (id !in t.docs ==> step == FileStep(Err(NotFound), t, files))
      && ((id in t.docs && ImageUrlOf(t.docs[id]).None?) ==> step == FileStep(Err(ServerError), t, files))
      && ((id in t.docs && ImageUrlOf(t.docs[id]).Some? && UnlinkFails(ImageUrlOf(t.docs[id]).value))
            ==> step == FileStep(Err(ServerError), t, files))
      && (step.result.Ok? ==>
            && step.result == Ok(Message("Leadership member deleted"))
            && GetSpec(step.after, id) == Err(NotFound)
            && (forall k :: k in t.docs && k != id ==> GetSpec(step.after, k) == GetSpec(t, k))
            && step.files == WithoutUpload(files, ImageUrlOf(t.docs[id]).value))
  {
    RemoveSpec(t, id);
  }

  /** Round trip: the photo an upload stored is removed again when a record holding its
      URL is deleted, unless its name makes the path a directory, which is a 500 that
      removes nothing. */
  lemma UploadThenDelete(t: Table, files: set<string>, id: string, name: string)
    requires WellFormed(t) && '/' !in name && id in t.docs && name in files
    requires HasStr(t.docs[id], "image_url") && t.docs[id]["image_url"].s == UploadUrl(name)
    ensures var step := DeleteMemberSpec(t, files, id, true);
      && (NamesDirectory(name) ==> step == FileStep(Err(ServerError), t, files))
      && (!NamesDirectory(name) ==> step.result.Ok? && step.files == files - {name})
  {
    UploadUrlRoundTrip(name);
  }

  /** `create_leadership_with_image`, with `fields` the text parts, `image` the photo part,
      `fileUuid` and `freshId` the two uuids it draws and `writeOk` whether the photo is
      written. */
  function CreateWithImageSpec(t: Table, files: set<string>, admin: bool, fields: FormFields,
                               image: Option<string>, fileUuid: string, writeOk: bool,
                               freshId: string): FileStep
  {
    if !admin then FileStep(Err(Unauthorized), t, files)
    else
      match ValidateForm(MemberCreateForm(), fields)
      case Err(e) => FileStep(Err(e), t, files)
      case Ok(params) => CreateValidated(t, files, params, image, fileUuid, writeOk, freshId)
  }

  /** The part of `create_leadership_with_image` after its form parameters `params` were
      validated. */
  function CreateValidated(t: Table, files: set<string>, params: Doc, image: Option<string>,
                           fileUuid: string, writeOk: bool, freshId: string): FileStep
  {
    if HasFile(image) && !IsAllowedFile(image.value) then FileStep(Err(BadRequest), t, files)
    else if HasFile(image) && !writeOk then FileStep(Err(ServerError), t, files)
    else
      var url := if HasFile(image) then UploadUrl(StoredName(fileUuid, image.value)) else "";
      var files' := if HasFile(image) then files + {StoredName(fileUuid, image.value)} else files;
      var doc := params["image_url" := VStr(url)]["_id" := VStr(freshId)];
      FileStep(Ok(Renamed(doc)), Insert(t, doc), files')
  }

  /** A multipart create needs a non-empty name and both roles: without any of them it is
      a 422 that changes nothing, before the photo is looked at. */
  lemma CreateWithImageRequired(t: Table, files: set<string>, fields: FormFields, image: Option<string>,
                                fileUuid: string, writeOk: bool, freshId: string)
    ensures var step := CreateWithImageSpec(t, files, true, fields, image, fileUuid, writeOk, freshId);
      && (("name" !in fields || fields["name"] == "") ==> step == FileStep(Err(Unprocessable), t, files))
      && (("role_en" !in fields || fields["role_en"] == "") ==> step == FileStep(Err(Unprocessable), t, files))
      && (("role_fr" !in fields || fields["role_fr"] == "") ==> step == FileStep(Err(Unprocessable), t, files))
  {
    var schema := MemberCreateForm();
    if "name" !in fields || fields["name"] == "" {
      FormFieldMissing(schema, fields, 0);
    }
    if "role_en" !in fields || fields["role_en"] == "" {
      FormFieldMissing(schema, fields, 1);
    }
    if "role_fr" !in fields || fields["role_fr"] == "" {
      FormFieldMissing(schema, fields, 2);
    }
  }

  /** A multipart create by an admin succeeds exactly when the form is valid and a photo,
      if given, is allowed and written. Once the form is valid, a disallowed photo is a
      400 and a failed write a 500, both changing nothing. Without a photo the record's `image_url` is "" and the directory
      is unchanged; with one it is the URL of the stored file, which is added. The record
      is stored under the fresh id, after the others, and a get returns the response. */
  lemma CreateWithImageProps(t: Table, files: set<string>, fields: FormFields, image: Option<string>,
                             fileUuid: string, writeOk: bool, freshId: string)
    requires WellFormed(t) && freshId !in t.docs
    ensures var step := CreateWithImageSpec(t, files, true, fields, image, fileUuid, writeOk, freshId);
      && (step.result.Ok? <==>
            ValidateForm(MemberCreateForm(), fields).Ok? && (HasFile(image) ==> IsAllowedFile(image.value) && writeOk))
      && ((ValidateForm(MemberCreateForm(), fields).Ok? && HasFile(image) && !IsAllowedFile(image.value))
            ==> step.result == Err(BadRequest))
      && ((ValidateForm(MemberCreateForm(), fields).Ok? && HasFile(image) && IsAllowedFile(image.value)
             && !writeOk)
            ==> step.result == Err(ServerError))
      && (step.result.Err? ==> step.after == t && step.files == files)
      && (step.result.Ok? && !HasFile(image) ==>
            step.files == files && "image_url" in step.result.value && step.result.value["image_url"] == VStr(""))
      && (step.result.Ok? && HasFile(image) ==>
            && step.files == files + {StoredName(fileUuid, image.value)}
            && "image_url" in step.result.value
            && step.result.value["image_url"] == VStr(UploadUrl(StoredName(fileUuid, image.value))))
      && (step.result.Ok? ==>
            && "id" in step.result.value && step.result.value["id"] == VStr(freshId)
            && WellFormed(step.after) && |Rows(step.after)| == |Rows(t)| + 1
            && GetSpec(step.after, freshId) == step.result
            && forall k :: k in t.docs ==> GetSpec(step.after, k) == GetSpec(t, k))
  {
    match ValidateForm(MemberCreateForm(), fields)
    case Err(_) =>
    case Ok(params) => CreateValidatedProps(t, files, params, image, fileUuid, writeOk, freshId);
  }

  /** The record a multipart create stores holds every form parameter sent as a non-empty
      text, with its value; a missing or empty biography, e-mail address or LinkedIn
      address is "", and a missing or empty `order` is 0. */
  lemma CreateWithImageFields(t: Table, files: set<string>, fields: FormFields, image: Option<string>,
                              fileUuid: string, writeOk: bool, freshId: string)
    requires WellFormed(t) && freshId !in t.docs
    ensures var step := CreateWithImageSpec(t, files, true, fields, image, fileUuid, writeOk, freshId);
      step.result.Ok? ==>
        && freshId in step.after.docs
        && FormFieldsSet(MemberCreateForm(), fields, step.after.docs[freshId])
        && (Blank(fields, "bio_en") ==> "bio_en" in step.after.docs[freshId] && step.after.docs[freshId]["bio_en"] == VStr(""))
        && (Blank(fields, "bio_fr") ==> "bio_fr" in step.after.docs[freshId] && step.after.docs[freshId]["bio_fr"] == VStr(""))
        && (Blank(fields, "email") ==> "email" in step.after.docs[freshId] && step.after.docs[freshId]["email"] == VStr(""))
        && (Blank(fields, "linkedin") ==> "linkedin" in step.after.docs[freshId] && step.after.docs[freshId]["linkedin"] == VStr(""))
        && (Blank(fields, "order") ==> "order" in step.after.docs[freshId] && step.after.docs[freshId]["order"] == VInt(0))
  {
    match ValidateForm(MemberCreateForm(), fields)
    case Err(_) =>
    case Ok(params) =>
      var url := if HasFile(image) then UploadUrl(StoredName(fileUuid, image.value)) else "";
      CreatedRecord(fields, params, url, freshId);
  }

  /** The document a multipart create builds from its valid form parameters `params`. */
  lemma CreatedRecord(fields: FormFields, params: Doc, url: string, freshId: string)
    requires ValidateForm(MemberCreateForm(), fields) == Ok(params)
    ensures var d := params["image_url" := VStr(url)]["_id" := VStr(freshId)];
      && FormFieldsSet(MemberCreateForm(), fields, d)
      && (Blank(fields, "bio_en") ==> "bio_en" in d && d["bio_en"] == VStr(""))
      && (Blank(fields, "bio_fr") ==> "bio_fr" in d && d["bio_fr"] == VStr(""))
      && (Blank(fields, "email") ==> "email" in d && d["email"] == VStr(""))
      && (Blank(fields, "linkedin") ==> "linkedin" in d && d["linkedin"] == VStr(""))
      && (Blank(fields, "order") ==> "order" in d && d["order"] == VInt(0))
  {
    var schema := MemberCreateForm();
    FormParamsSet(schema, fields);
    FormFieldsSetKeeps(schema, fields, params, "image_url", VStr(url));
    FormFieldsSetKeeps(schema, fields, params["image_url" := VStr(url)], "_id", VStr(freshId));
    CreatedDefaults(fields, params);
  }

  /** The defaults of the form parameters of a multipart create. */
  lemma CreatedDefaults(fields: FormFields, params: Doc)
    requires ValidateForm(MemberCreateForm(), fields) == Ok(params)
    ensures Blank(fields, "bio_en") ==> "bio_en" in params && params["bio_en"] == VStr("")
    ensures Blank(fields, "bio_fr") ==> "bio_fr" in params && params["bio_fr"] == VStr("")
    ensures Blank(fields, "email") ==> "email" in params && params["email"] == VStr("")
    ensures Blank(fields, "linkedin") ==> "linkedin" in params && params["linkedin"] == VStr("")
    ensures Blank(fields, "order") ==> "order" in params && params["order"] == VInt(0)
  {
    var schema := MemberCreateForm();
    if Blank(fields, "bio_en") { FormDefault(schema, fields, 3); }
    if Blank(fields, "bio_fr") { FormDefault(schema, fields, 4); }
    if Blank(fields, "email") { FormDefault(schema, fields, 5); }
    if Blank(fields, "linkedin") { FormDefault(schema, fields, 6); }
    if Blank(fields, "order") { FormDefault(schema, fields, 7); }
  }

  /** `CreateWithImageProps` once the form is valid. */
  lemma CreateValidatedProps(t: Table, files: set<string>, params: Doc, image: Option<string>,
                             fileUuid: string, writeOk: bool, freshId: string)
    requires WellFormed(t) && freshId !in t.docs
    ensures var step := CreateValidated(t, files, params, image, fileUuid, writeOk, freshId);
      && (step.result.Ok? <==> (HasFile(image) ==> IsAllowedFile(image.value) && writeOk))
      && ((HasFile(image) && !IsAllowedFile(image.value)) ==> step.result == Err(BadRequest))
      && ((HasFile(image) && IsAllowedFile(image.value) && !writeOk) ==> step.result == Err(ServerError))
      && (step.result.Err? ==> step.after == t && step.files == files)
      && (step.result.Ok? && !HasFile(image) ==>
            step.files == files && "image_url" in step.result.value && step.result.value["image_url"] == VStr(""))
      && (step.result.Ok? && HasFile(image) ==>
            && step.files == files + {StoredName(fileUuid, image.value)}
            && "image_url" in step.result.value
            && step.result.value["image_url"] == VStr(UploadUrl(StoredName(fileUuid, image.value))))
      && (step.result.Ok? ==>
            && "id" in step.result.value && step.result.value["id"] == VStr(freshId)
            && WellFormed(step.after) && |Rows(step.after)| == |Rows(t)| + 1
            && GetSpec(step.after, freshId) == step.result
            && forall k :: k in t.docs ==> GetSpec(step.after, k) == GetSpec(t, k))
  {
    var url := if HasFile(image) then UploadUrl(StoredName(fileUuid, image.value)) else "";
    var doc := params["image_url" := VStr(url)]["_id" := VStr(freshId)];
    InsertSpec(t, doc);
  }

  /** `update_leadership_with_image`, with `removeFirst` choosing where the old photo is
      removed: before the new one is written, as the handler does, or only once the write
      has succeeded. */
  function UpdateWithImageStep(t: Table, files: set<string>, admin: bool, id: string, fields: FormFields,
                               image: Option<string>, fileUuid: string, writeOk: bool,
                               removeFirst: bool): FileStep
  {
    if !admin then FileStep(Err(Unauthorized), t, files)
    else
      match ValidateForm(MemberUpdateForm(), fields)
      case Err(e) => FileStep(Err(e), t, files)
      case Ok(params) => UpdateValidated(t, files, id, params, image, fileUuid, writeOk, removeFirst)
  }

  /** The part of `update_leadership_with_image` after its form parameters `params` were
      validated. */
  function UpdateValidated(t: Table, files: set<string>, id: string, params: Doc,
                           image: Option<string>, fileUuid: string, writeOk: bool,
                           removeFirst: bool): FileStep
  {
    if id !in t.docs then FileStep(Err(NotFound), t, files)
    else
      var data := Supplied(params);
      var oldUrl := ImageUrlOf(t.docs[id]);
      if HasFile(image) && !IsAllowedFile(image.value) then FileStep(Err(BadRequest), t, files)
      else if HasFile(image) && oldUrl.None? then FileStep(Err(ServerError), t, files)
      else if HasFile(image) && UnlinkFails(oldUrl.value) then FileStep(Err(ServerError), t, files)
      else if HasFile(image) && !writeOk then
        FileStep(Err(ServerError), t, if removeFirst then WithoutUpload(files, oldUrl.value) else files)
      else
        var name := if HasFile(image) then StoredName(fileUuid, image.value) else "";
        var update := if HasFile(image) then data["image_url" := VStr(UploadUrl(name))] else data;
        var files' := if HasFile(image) then WithoutUpload(files, oldUrl.value) + {name} else files;
        if update == map[] then FileStep(Err(BadRequest), t, files')
        else
          var u := SetOne(t, id, update);
          FileStep(Ok(Renamed(u.docs[id])), u, files')
  }

  /** `update_leadership_with_image` as written: the old photo is removed before the new
      one is written. */
  function UpdateWithImageSpec(t: Table, files: set<string>, admin: bool, id: string, fields: FormFields,
                               image: Option<string>, fileUuid: string, writeOk: bool): FileStep
  {
    UpdateWithImageStep(t, files, admin, id, fields, image, fileUuid, writeOk, true)
  }

  /** `update_leadership_with_image` with the old photo removed only after the new one has
      been written. */
  function UpdateWithImageFixed(t: Table, files: set<string>, admin: bool, id: string, fields: FormFields,
                                image: Option<string>, fileUuid: string, writeOk: bool): FileStep
  {
    UpdateWithImageStep(t, files, admin, id, fields, image, fileUuid, writeOk, false)
  }

  /** The check order of a multipart update: 401, 422 for a form value of the wrong type,
      404 for an unknown id (before the photo is looked at), 400 for a disallowed photo,
      400 when neither a field nor a photo is given; each of these changes nothing. */
  lemma UpdateWithImagePrecedence(t: Table, files: set<string>, admin: bool, id: string, fields: FormFields,
                                  image: Option<string>, fileUuid: string, writeOk: bool)
    ensures var step := UpdateWithImageSpec(t, files, admin, id, fields, image, fileUuid, writeOk);
      && (!admin ==> step == FileStep(Err(Unauthorized), t, files))
      && (admin && ValidateForm(MemberUpdateForm(), fields).Err? ==> step == FileStep(Err(Unprocessable), t, files))
      && ((admin && ValidateForm(MemberUpdateForm(), fields).Ok? && id !in t.docs)
            ==> step == FileStep(Err(NotFound), t, files))
      && ((admin && ValidateForm(MemberUpdateForm(), fields).Ok? && id in t.docs
             && HasFile(image) && !IsAllowedFile(image.value))
            ==> step == FileStep(Err(BadRequest), t, files))
      && ((admin && ValidateForm(MemberUpdateForm(), fields).Ok? && id in t.docs && !HasFile(image)
             && !GivesField(MemberUpdateForm(), fields))
            ==> step == FileStep(Err(BadRequest), t, files))
  {
    var schema := MemberUpdateForm();
    ValidateFormFails(schema, fields);
    if admin && ValidateForm(schema, fields).Ok? {
      var params := ValidateForm(schema, fields).value;
      FormGivesField(schema, fields);
      UpdateValidatedErrors(t, files, id, params, image, fileUuid, writeOk);
    }
  }

  /** A multipart update by an admin succeeds exactly when the form is valid, the id is
      stored, some field or a photo is given, and a photo is allowed, replaces a text
      `image_url` that does not name a directory and is written. A non-text old
      `image_url` or one naming a directory is a 500 that changes nothing; a failed write
      is a 500 after the old photo was removed. No failure changes the collection. */
  lemma UpdateWithImageOutcome(t: Table, files: set<string>, id: string, fields: FormFields,
                               image: Option<string>, fileUuid: string, writeOk: bool)
    ensures var step := UpdateWithImageSpec(t, files, true, id, fields, image, fileUuid, writeOk);
      && (step.result.Ok? <==>
            && ValidateForm(MemberUpdateForm(), fields).Ok? && id in t.docs
            && (HasFile(image) || GivesField(MemberUpdateForm(), fields))
            && (HasFile(image) ==>
                  && IsAllowedFile(image.value) && ImageUrlOf(t.docs[id]).Some?
                  && !UnlinkFails(ImageUrlOf(t.docs[id]).value) && writeOk))
      && (step.result.Err? ==> step.after == t)
      && ((ValidateForm(MemberUpdateForm(), fields).Ok? && id in t.docs && HasFile(image)
             && IsAllowedFile(image.value)
             && (ImageUrlOf(t.docs[id]).None? || UnlinkFails(ImageUrlOf(t.docs[id]).value)))
            ==> step == FileStep(Err(ServerError), t, files))
      && ((ValidateForm(MemberUpdateForm(), fields).Ok? && id in t.docs && HasFile(image)
             && IsAllowedFile(image.value) && ImageUrlOf(t.docs[id]).Some?
             && !UnlinkFails(ImageUrlOf(t.docs[id]).value) && !writeOk)
            ==> step == FileStep(Err(ServerError), t, WithoutUpload(files, ImageUrlOf(t.docs[id]).value)))
  {
    var schema := MemberUpdateForm();
    if ValidateForm(schema, fields).Ok? {
      var params := ValidateForm(schema, fields).value;
      FormGivesField(schema, fields);
      UpdateValidatedErrors(t, files, id, params, image, fileUuid, writeOk);
    }
  }

  /** The outcomes of a multipart update once its form is valid. */
  lemma UpdateValidatedErrors(t: Table, files: set<string>, id: string, params: Doc,
                              image: Option<string>, fileUuid: string, writeOk: bool)
    ensures var step := UpdateValidated(t, files, id, params, image, fileUuid, writeOk, true);
      && (id !in t.docs ==> step == FileStep(Err(NotFound), t, files))
      && ((id in t.docs && HasFile(image) && !IsAllowedFile(image.value))
            ==> step == FileStep(Err(BadRequest), t, files))
      && ((id in t.docs && !HasFile(image) && Supplied(params) == map[])
            ==> step == FileStep(Err(BadRequest), t, files))
      && (step.result.Ok? <==>
            && id in t.docs && (HasFile(image) || Supplied(params) != map[])
            && (HasFile(image) ==>
                  && IsAllowedFile(image.value) && ImageUrlOf(t.docs[id]).Some?
                  && !UnlinkFails(ImageUrlOf(t.docs[id]).value) && writeOk))
      && (step.result.Err? ==> step.after == t)
      && ((id in t.docs && HasFile(image) && IsAllowedFile(image.value)
             && (ImageUrlOf(t.docs[id]).None? || UnlinkFails(ImageUrlOf(t.docs[id]).value)))
            ==> step == FileStep(Err(ServerError), t, files))
      && ((id in t.docs && HasFile(image) && IsAllowedFile(image.value) && ImageUrlOf(t.docs[id]).Some?
             && !UnlinkFails(ImageUrlOf(t.docs[id]).value) && !writeOk)
            ==> step == FileStep(Err(ServerError), t, WithoutUpload(files, ImageUrlOf(t.docs[id]).value)))
  {
    if id in t.docs && HasFile(image) {
      var update := Supplied(params)["image_url" := VStr(UploadUrl(StoredName(fileUuid, image.value)))];
      assert "image_url" in update;
    }
  }

  /** A successful multipart update `$set`s the non-empty form fields (with their values)
      and, when a photo is given, `image_url` to the URL of the stored photo, which
      replaces the old photo in the directory; without a photo the directory is unchanged.
      Every other field and every other record keeps its value. */
  lemma UpdateWithImageChanges(t: Table, files: set<string>, id: string, fields: FormFields,
                               image: Option<string>, fileUuid: string, writeOk: bool)
    requires WellFormed(t)
    ensures var step := UpdateWithImageSpec(t, files, true, id, fields, image, fileUuid, writeOk);
      step.result.Ok? ==>
        && id in t.docs && id in step.after.docs && WellFormed(step.after)
        && step.result == Ok(Renamed(step.after.docs[id]))
        && (forall k :: k in t.docs && k != id ==> k in step.after.docs && step.after.docs[k] == t.docs[k])
        && FormFieldsSet(MemberUpdateForm(), fields, step.after.docs[id])
        && (HasFile(image) ==>
              (&& "image_url" in step.after.docs[id]
               && step.after.docs[id]["image_url"] == VStr(UploadUrl(StoredName(fileUuid, image.value)))
               && ImageUrlOf(t.docs[id]).Some?
               && step.files == WithoutUpload(files, ImageUrlOf(t.docs[id]).value) + {StoredName(fileUuid, image.value)}))
        && (!HasFile(image) ==> step.files == files)
        && (forall k :: k in t.docs[id] && (k !in fields || fields[k] == "") && (k != "image_url" || !HasFile(image))
              ==> k in step.after.docs[id] && step.after.docs[id][k] == t.docs[id][k])
  {
    var schema := MemberUpdateForm();
    var step := UpdateWithImageSpec(t, files, true, id, fields, image, fileUuid, writeOk);
    if step.result.Ok? {
      assert id in t.docs && ValidateForm(schema, fields).Ok?;
      FormPatchSpec(schema, fields);
      var data := Supplied(ValidateForm(schema, fields).value);
      var url := if HasFile(image) then Some(UploadUrl(StoredName(fileUuid, image.value))) else None;
      var update := if url.Some? then data["image_url" := VStr(url.value)] else data;
      assert step.after == SetOne(t, id, update);
      PatchedRecord(t, id, fields, data, update, url);
    }
  }

  /** The record `$set` leaves for the update data `data` of a multipart update, with
      `url` the address of a new photo if there is one. */
  lemma PatchedRecord(t: Table, id: string, fields: FormFields, data: Doc, update: Doc, url: Option<string>)
    requires WellFormed(t) && id in t.docs
    requires FormFieldsSet(MemberUpdateForm(), fields, data)
    requires forall k :: k in data ==> Declares(MemberUpdateForm(), k) && k in fields && fields[k] != ""
    requires update == if url.Some? then data["image_url" := VStr(url.value)] else data
    ensures var u := SetOne(t, id, update);
      && id in u.docs && WellFormed(u)
      && (forall k :: k in t.docs && k != id ==> k in u.docs && u.docs[k] == t.docs[k])
      && FormFieldsSet(MemberUpdateForm(), fields, u.docs[id])
      && (url.Some? ==> "image_url" in u.docs[id] && u.docs[id]["image_url"] == VStr(url.value))
      && (forall k :: k in t.docs[id] && (k !in fields || fields[k] == "") && (k != "image_url" || url.None?)
            ==> k in u.docs[id] && u.docs[id][k] == t.docs[id][k])
  {
    assert "_id" !in update;
    SetOneSpec(t, id, update);
    assert FormFieldsSet(MemberUpdateForm(), fields, update);
  }

  /** As written, a photo write that fails after the old photo was removed answers 500 and
      leaves the record as it was, still naming the removed file. */
  lemma UpdateWithImageLosesPhoto(t: Table, files: set<string>, id: string, fields: FormFields,
                                  image: Option<string>, fileUuid: string)
    requires ValidateForm(MemberUpdateForm(), fields).Ok? && id in t.docs
    requires HasFile(image) && IsAllowedFile(image.value)
    requires HasStr(t.docs[id], "image_url") && UploadedFile(t.docs[id]["image_url"].s).Some?
    requires UploadedFile(t.docs[id]["image_url"].s).value in files
    requires !UnlinkFails(t.docs[id]["image_url"].s)
    ensures var step := UpdateWithImageSpec(t, files, true, id, fields, image, fileUuid, false);
      && step.result == Err(ServerError)
      && step.after == t
      && UploadedFile(step.after.docs[id]["image_url"].s).value !in step.files
  {
  }

  /** With the removal moved after the write, a failed write changes nothing, and every
      other request has the same outcome as the handler's. */
  lemma UpdateWithImageFixedProps(t: Table, files: set<string>, admin: bool, id: string, fields: FormFields,
                                  image: Option<string>, fileUuid: string, writeOk: bool)
    ensures var fixed := UpdateWithImageFixed(t, files, admin, id, fields, image, fileUuid, writeOk);
      && (fixed.result == Err(ServerError) ==> fixed.after == t && fixed.files == files)
      && (writeOk || !HasFile(image) ==>
            fixed == UpdateWithImageSpec(t, files, admin, id, fields, image, fileUuid, writeOk))
  {
    if admin && ValidateForm(MemberUpdateForm(), fields).Ok? {
      UpdateValidatedFixed(t, files, id, ValidateForm(MemberUpdateForm(), fields).value, image, fileUuid, writeOk);
    }
  }

  /** `UpdateWithImageFixedProps` once the form is valid. */
  lemma UpdateValidatedFixed(t: Table, files: set<string>, id: string, params: Doc,
                             image: Option<string>, fileUuid: string, writeOk: bool)
    ensures var fixed := UpdateValidated(t, files, id, params, image, fileUuid, writeOk, false);
      && (fixed.result == Err(ServerError) ==> fixed.after == t && fixed.files == files)
      && (writeOk || !HasFile(image) ==>
            fixed == UpdateValidated(t, files, id, params, image, fileUuid, writeOk, true))
  {
    var fixed := UpdateValidated(t, files, id, params, image, fileUuid, writeOk, false);
    if id in t.docs {
      var oldUrl := ImageUrlOf(t.docs[id]);
      if !HasFile(image) || (IsAllowedFile(image.value) && oldUrl.Some? && !UnlinkFails(oldUrl.value) && writeOk) {
        var name := if HasFile(image) then StoredName(fileUuid, image.value) else "";
        var data := Supplied(params);
        var update := if HasFile(image) then data["image_url" := VStr(UploadUrl(name))] else data;
        assert fixed.result.Ok? || fixed.result == Err(BadRequest);
      }
    }
  }

  /* ---------- Handlers ---------- */

  /** `list_leadership`, with `ids` the uuids of the defaults and `prose` their biographies. */
  method ListLeadership(c: Collection, ids: seq<string>, prose: seq<MemberProse>) returns (items: seq<Doc>)
    requires c.Valid() && MemberIds(ids) && |prose| == 8
    modifies c
    ensures c.Valid()
    ensures var step := ListSpec(old(c.Value()), DefaultLeadership(ids, prose));
      items == step.result && c.Value() == step.after
  {
    items := List(c, DefaultLeadership(ids, prose));
  }

  /** `get_leadership_member`. */
  method GetMember(c: Collection, memberId: string) returns (r: Result<Doc>)
    ensures r == GetSpec(c.Value(), memberId)
  {
    r := Get(c, memberId);
  }

  /** `create_leadership_member`, with `freshId` the uuid it draws. */
  method CreateMember(c: Collection, body: Doc, admin: bool, freshId: string) returns (r: Result<Doc>)
    requires c.Valid() && freshId !in c.docs
    modifies c
    ensures c.Valid()
    ensures var step := CreateSpec(old(c.Value()), MemberCreate(), body, NoEmailCheck, admin, freshId);
      r == step.result && c.Value() == step.after
  {
    r := Create(c, MemberCreate(), body, NoEmailCheck, admin, freshId);
  }

  /** `update_leadership_member`. */
  method UpdateMember(c: Collection, memberId: string, body: Doc, admin: bool) returns (r: Result<Doc>)
    requires c.Valid()
    modifies c
    ensures c.Valid()
    ensures var step := UpdateSpec(old(c.Value()), MemberUpdate(), memberId, body, NoEmailCheck, admin);
      r == step.result && c.Value() == step.after
  {
    r := Update(c, MemberUpdate(), memberId, body, NoEmailCheck, admin);
  }

  /** `delete_leadership_member`. */
  method DeleteMember(c: Collection, dir: UploadDir, memberId: string, admin: bool) returns (r: Result<Doc>)
    requires c.Valid()
    modifies c, dir
    ensures c.Valid()
    ensures var step := DeleteMemberSpec(old(c.Value()), old(dir.files), memberId, admin);
      r == step.result && c.Value() == step.after && dir.files == step.files
  {
    if !admin {
      return Err(Unauthorized);
    }
    var doc := c.FindOne(memberId);
    if doc.None? {
      return Err(NotFound);
    }
    var url := ImageUrlOf(doc.value);
    if url.None? {
      return Err(ServerError);
    }
    var removed := RemoveUploaded(dir, url.value);
    if !removed {
      return Err(ServerError);
    }
    var deleted := c.DeleteOne(memberId);
    r := Ok(Message("Leadership member deleted"));
  }

  /** `upload_leadership_image`. */
  method UploadImage(dir: UploadDir, admin: bool, file: Option<string>, fileUuid: string, writeOk: bool)
    returns (r: Result<Doc>)
    modifies dir
    ensures var w := UploadSpec(old(dir.files), admin, file, fileUuid, writeOk);
      r == w.result && dir.files == w.files
  {
    if !admin {
      return Err(Unauthorized);
    }
    if file.None? {
      return Err(Unprocessable);
    }
    if file.value == "" {
      return Err(BadRequest);
    }
    if !IsAllowedFile(file.value) {
      return Err(BadRequest);
    }
    var name := StoredName(fileUuid, file.value);
    dir.Write(name, writeOk);
    if !writeOk {
      return Err(ServerError);
    }
    r := Ok(map["filename" := VStr(name), "image_url" := VStr(UploadUrl(name)),
                "message" := VStr("Image uploaded successfully")]);
  }

  /** `create_leadership_with_image`. */
  method CreateWithImage(c: Collection, dir: UploadDir, admin: bool, fields: FormFields,
                         image: Option<string>, fileUuid: string, writeOk: bool, freshId: string)
    returns (r: Result<Doc>)
    requires c.Valid() && freshId !in c.docs
    modifies c, dir
    ensures c.Valid()
    ensures var step := CreateWithImageSpec(old(c.Value()), old(dir.files), admin, fields, image,
                                            fileUuid, writeOk, freshId);
      r == step.result && c.Value() == step.after && dir.files == step.files
  {
    if !admin {
      return Err(Unauthorized);
    }
    var params := ValidateForm(MemberCreateForm(), fields);
    if params.Err? {
      return Err(params.status);
    }
    var imageUrl := "";
    if HasFile(image) {
      if !IsAllowedFile(image.value) {
        return Err(BadRequest);
      }
      var name := StoredName(fileUuid, image.value);
      dir.Write(name, writeOk);
      if !writeOk {
        return Err(ServerError);
      }
      imageUrl := UploadUrl(name);
    }
    var doc := params.value["image_url" := VStr(imageUrl)]["_id" := VStr(freshId)];
    c.InsertOne(doc);
    r := Ok(Renamed(doc));
  }

  /** `update_leadership_with_image`, in the handler's order. */
  method UpdateWithImage(c: Collection, dir: UploadDir, admin: bool, memberId: string, fields: FormFields,
                         image: Option<string>, fileUuid: string, writeOk: bool) returns (r: Result<Doc>)
    requires c.Valid()
    modifies c, dir
    ensures c.Valid()
    ensures var step := UpdateWithImageSpec(old(c.Value()), old(dir.files), admin, memberId, fields, image,
                                            fileUuid, writeOk);
      r == step.result && c.Value() == step.after && dir.files == step.files
  {
    if !admin {
      return Err(Unauthorized);
    }
    var params := ValidateForm(MemberUpdateForm(), fields);
    if params.Err? {
      return Err(params.status);
    }
    FormUndeclared(MemberUpdateForm(), fields, "_id");
    r := ApplyUpdate(c, dir, memberId, params.value, image, fileUuid, writeOk);
  }

  /** The rest of `update_leadership_with_image` once its form parameters `params` were
      validated. */
  method ApplyUpdate(c: Collection, dir: UploadDir, memberId: string, params: Doc,
                     image: Option<string>, fileUuid: string, writeOk: bool) returns (r: Result<Doc>)
    requires c.Valid() && "_id" !in params
    modifies c, dir
    ensures c.Valid()
    ensures var step := UpdateValidated(old(c.Value()), old(dir.files), memberId, params, image,
                                        fileUuid, writeOk, true);
      r == step.result && c.Value() == step.after && dir.files == step.files
  {
    var doc := c.FindOne(memberId);
    if doc.None? {
      return Err(NotFound);
    }
    var update := Supplied(params);
    if HasFile(image) {
      if !IsAllowedFile(image.value) {
        return Err(BadRequest);
      }
      var oldUrl := ImageUrlOf(doc.value);
      if oldUrl.None? {
        return Err(ServerError);
      }
      var removed := RemoveUploaded(dir, oldUrl.value);
      if !removed {
        return Err(ServerError);
      }
      var name := StoredName(fileUuid, image.value);
      dir.Write(name, writeOk);
      if !writeOk {
        return Err(ServerError);
      }
      update := update["image_url" := VStr(UploadUrl(name))];
    }
    if update == map[] {
      return Err(BadRequest);
    }
    var matched := c.UpdateOne(memberId, update);
    var updated := c.FindOne(memberId);
    r := Ok(Renamed(updated.value));
  }
}
