/** The admin page for the leadership team: how a stored photo address is turned into
    an image source, which chosen files are accepted as a photo, the blank form a new
    member starts from, the edit handlers, and which API call a save makes. */
module LeadershipPage {
  import opened Common
  import opened Js
  import Text
  import Api
  import Leadership

  /* ---------- Photo addresses ---------- */

  /** `getImageUrl(url)`: a falsy address gives no image; an address on the API is
      served from the backend's base URL; any other address is used as it is. */
  function GetImageUrl(baseUrl: string, url: JsValue): string
    requires url.JStr? || !Truthy(url)
  {
    if !Truthy(url) then ""
    else if Text.StartsWith(url.s, "/api/") then baseUrl + url.s
    else url.s
  }

  /** A photo uploaded through the backend is shown from the backend's base URL. */
  lemma UploadedPhotoShown(baseUrl: string, filename: string)
    ensures GetImageUrl(baseUrl, JStr(Leadership.UploadUrl(filename)))
         == baseUrl + Leadership.UploadUrl(filename)
  {
    var u := Leadership.UploadUrl(filename);
    assert u[..5] == "/api/";
  }

  /** An external address is shown as it is, with no base URL every address is shown as
      it is, and no address shows no image. */
  lemma GetImageUrlProps(baseUrl: string, url: string)
    ensures !Text.StartsWith(url, "/api/") ==> GetImageUrl(baseUrl, JStr(url)) == url
    ensures GetImageUrl("", JStr(url)) == url
    ensures GetImageUrl(baseUrl, JStr("")) == "" && GetImageUrl(baseUrl, JNull) == ""
    ensures GetImageUrl(baseUrl, JUndefined) == ""
  {
  }

  /* ---------- Photo files ---------- */

  /** The image types the file picker accepts. */
  function AllowedImageTypes(): seq<string> {
    ["image/jpeg", "image/png", "image/gif", "image/webp"]
  }

  /** The largest photo accepted, 10 MiB. */
  const MaxImageBytes: nat := 10 * 1024 * 1024

  predicate AcceptableImage(f: JsFile) {
    f.mimeType in AllowedImageTypes() && f.size <= MaxImageBytes
  }

  /** A photo is accepted exactly when it is a JPEG, PNG, GIF or WebP image of at most
      10 MiB: exactly 10 MiB passes, one byte more does not. */
  lemma AcceptableImageIff(f: JsFile)
    ensures AcceptableImage(f) <==>
      (f.mimeType == "image/jpeg" || f.mimeType == "image/png" || f.mimeType == "image/gif"
       || f.mimeType == "image/webp") && f.size <= 10485760
    ensures AcceptableImage(JsFile(f.name, "image/png", 10485760))
    ensures !AcceptableImage(JsFile(f.name, "image/png", 10485761))
    ensures !AcceptableImage(JsFile(f.name, "image/svg+xml", 0))
  {
  }

  /* ---------- The member being edited ---------- */

  /** The blank form of a new member, when `count` members are listed. */
  function NewMember(count: nat): JsObject {
    map["name" := JStr(""), "role_en" := JStr(""), "role_fr" := JStr(""), "bio_en" := JStr(""),
        "bio_fr" := JStr(""), "email" := JStr(""), "linkedin" := JStr(""), "image_url" := JStr(""),
        "order" := JNum(count + 1)]
  }

  /** The API calls a save can make. */
  datatype MemberCall =
    | NoCall
    | Update(id: string, data: JsObject)
    | UpdateWithImage(id: string, form: seq<Api.Entry>)
    | Create(data: JsObject)
    | CreateWithImage(form: seq<Api.Entry>)

  predicate HasRequired(member: JsObject) {
    Truthy(Get(member, "name")) && Truthy(Get(member, "role_en")) && Truthy(Get(member, "role_fr"))
  }

  /** `saveMember`'s call: none while a required field is empty; an update of the
      member's id when it has one, a create otherwise, each with the chosen photo as a
      multipart form when there is one and as JSON otherwise. */
  function SaveMemberCall(member: JsObject, selected: Option<JsFile>): MemberCall {
    if !HasRequired(member) then NoCall
    else if Truthy(Get(member, "id")) then
      var id := ToJsString(Get(member, "id"));
      if selected.Some? then
        UpdateWithImage(id, Api.UpdateForm(Api.LeadershipUpdateKeys(), member, JFileValue(selected.value)))
      else Update(id, member)
    else if selected.Some? then
      CreateWithImage(Api.CreateForm(Api.LeadershipCreateKeys(), Api.LeadershipCreateDefaults(), member,
                                     JFileValue(selected.value)))
    else Create(member)
  }

  /** A save calls nothing exactly when the name or a role is empty. */
  lemma SaveMemberNoCall(member: JsObject, selected: Option<JsFile>)
    ensures SaveMemberCall(member, selected).NoCall? <==> !HasRequired(member)
  {
  }

  /** With the name and roles filled in, a save updates exactly when the member has an
      id, and sends a multipart form exactly when a photo is chosen; that form ends with
      the photo, and a JSON call sends the member as it is. */
  lemma SaveMemberDispatch(member: JsObject, selected: Option<JsFile>)
    requires HasRequired(member)
    ensures var call := SaveMemberCall(member, selected);
      && ((call.Update? || call.UpdateWithImage?) <==> Truthy(Get(member, "id")))
      && ((call.UpdateWithImage? || call.CreateWithImage?) <==> selected.Some?)
      && ((call.Update? || call.UpdateWithImage?) ==> call.id == ToJsString(Get(member, "id")))
      && ((call.Update? || call.Create?) ==> call.data == member)
      && ((call.UpdateWithImage? || call.CreateWithImage?) ==>
            |call.form| > 0 && call.form[|call.form| - 1] == Api.Entry("image", Api.PFile(selected.value)))
  {
    if selected.Some? {
      var f := selected.value;
      Api.ImageLast(Api.DefinedEntries(Api.LeadershipUpdateKeys(), member), f);
      Api.ImageLast(Api.AlwaysEntries(Api.LeadershipCreateKeys(), member)
                    + Api.DefaultedEntries(Api.LeadershipCreateDefaults(), member), f);
    }
  }

  /** A new member starts with every text field empty, no id and the next order number,
      so saving it before the name and roles are filled in calls nothing. */
  lemma NewMemberProps(count: nat, selected: Option<JsFile>)
    ensures var m := NewMember(count);
      && (forall k :: k in m && k != "order" ==> m[k] == JStr(""))
      && m["order"] == JNum(count + 1) && "id" !in m
      && SaveMemberCall(m, selected) == NoCall
  {
  }

  /** The page's state. */
  class Page {
    var members: seq<JsObject>
    var editDialog: bool
    var currentMember: Option<JsObject>
    var selectedFile: Option<JsFile>
    var previewUrl: string
    const baseUrl: string

    /** An open dialog edits a member, and a chosen photo was accepted. */
    predicate Valid()
      reads this
    {
      (editDialog ==> currentMember.Some?)
      && (selectedFile.Some? ==> AcceptableImage(selectedFile.value))
    }

    /** The state before the first render: nothing listed, no dialog. */
    constructor (baseUrl: string)
      ensures Valid() && this.baseUrl == baseUrl
      ensures members == [] && !editDialog && currentMember == None
      ensures selectedFile == None && previewUrl == ""
    {
      this.baseUrl := baseUrl;
      members := [];
      editDialog := false;
      currentMember := None;
      selectedFile := None;
      previewUrl := "";
    }

    /** `openEditDialog(member)`: a copy of the member with its photo shown, or the blank
        form of a new one; no file is chosen. */
    method OpenEditDialog(member: Option<JsObject>)
      requires member.Some? ==> var u := Get(member.value, "image_url"); u.JStr? || !Truthy(u)
      modifies this
      ensures Valid() && editDialog && selectedFile == None && members == old(members)
      ensures member.Some? ==>
                currentMember == member && previewUrl == GetImageUrl(baseUrl, Get(member.value, "image_url"))
      ensures member.None? ==> currentMember == Some(NewMember(|members|)) && previewUrl == ""
    {
      if member.Some? {
        currentMember := member;
        previewUrl := GetImageUrl(baseUrl, Get(member.value, "image_url"));
      } else {
        currentMember := Some(NewMember(|members|));
        previewUrl := "";
      }
      selectedFile := None;
      editDialog := true;
    }

    /** `handleChange(field, value)`: exactly that field of the member changes. */
    method HandleChange(field: string, value: JsValue)
      requires Valid()
      modifies this
      ensures Valid()
      ensures currentMember.Some?
      ensures Get(currentMember.value, field) == value
      ensures old(currentMember).Some? ==> currentMember.value == old(currentMember).value[field := value]
      ensures old(currentMember).None? ==> currentMember.value == map[field := value]
      ensures forall k :: k != field ==> Get(currentMember.value, k) == Get(old(currentMember).GetOr(map[]), k)
      ensures members == old(members) && editDialog == old(editDialog)
      ensures selectedFile == old(selectedFile) && previewUrl == old(previewUrl)
    {
      var prev := if currentMember.Some? then currentMember.value else map[];
      currentMember := Some(prev[field := value]);
    }

    /** The order box: `handleChange('order', parseInt(text))`. */
    method HandleOrderChange(text: string)
      requires Valid()
      modifies this
      ensures Valid() && currentMember.Some?
      ensures Get(currentMember.value, "order") == ParseIntJs(text)
      ensures forall k :: k != "order" ==> Get(currentMember.value, k) == Get(old(currentMember).GetOr(map[]), k)
      ensures selectedFile == old(selectedFile) && previewUrl == old(previewUrl)
    {
      HandleChange("order", ParseIntJs(text));
    }

    /** The image-address box: the address becomes the member's photo and its preview, and
        a chosen file is dropped. */
    method HandleImageUrlChange(value: string)
      requires Valid()
      modifies this
      ensures Valid() && currentMember.Some?
      ensures Get(currentMember.value, "image_url") == JStr(value)
      ensures forall k :: k != "image_url" ==> Get(currentMember.value, k) == Get(old(currentMember).GetOr(map[]), k)
      ensures selectedFile == None && previewUrl == value
      ensures members == old(members) && editDialog == old(editDialog)
    {
      HandleChange("image_url", JStr(value));
      selectedFile := None;
      previewUrl := value;
    }

    /** `handleFileSelect`: the first chosen file, when there is one and it is an
        acceptable photo, becomes the selected file; otherwise nothing changes. The
        preview the file reader produces later is not part of this model. */
    method HandleFileSelect(file: Option<JsFile>) returns (accepted: bool)
      requires Valid()
      modifies this
      ensures Valid()
      ensures accepted <==> file.Some? && AcceptableImage(file.value)
      ensures accepted ==> selectedFile == file
      ensures !accepted ==> selectedFile == old(selectedFile)
      ensures currentMember == old(currentMember) && previewUrl == old(previewUrl)
      ensures members == old(members) && editDialog == old(editDialog)
    {
      if file.None? {
        return false;
      }
      var f := file.value;
      if f.mimeType !in AllowedImageTypes() {
        return false;
      }
      if f.size > 10 * 1024 * 1024 {
        return false;
      }
      selectedFile := file;
      accepted := true;
    }

    /** `saveMember`, given whether the call it makes succeeds. With no call or a failed
        one the page stays as it is; after a successful one the dialog closes and the
        chosen file and preview are cleared (the list is then fetched again, which is
        not part of this model). */
    method SaveMember(succeeded: bool) returns (call: MemberCall)
      requires Valid() && currentMember.Some?
      modifies this
      ensures Valid()
      ensures call == SaveMemberCall(old(currentMember).value, old(selectedFile))
      ensures call.NoCall? || !succeeded ==>
                editDialog == old(editDialog) && selectedFile == old(selectedFile) && previewUrl == old(previewUrl)
      ensures !call.NoCall? && succeeded ==> !editDialog && selectedFile == None && previewUrl == ""
      ensures currentMember == old(currentMember) && members == old(members)
    {
      var member := currentMember.value;
      if !Truthy(Get(member, "name")) || !Truthy(Get(member, "role_en")) || !Truthy(Get(member, "role_fr")) {
        return NoCall;
      }
      var id := Get(member, "id");
      if Truthy(id) {
        if selectedFile.Some? {
          var fd := Api.LeadershipUpdateWithImage(member, JFileValue(selectedFile.value));
          call := UpdateWithImage(ToJsString(id), fd.entries);
        } else {
          call := Update(ToJsString(id), member);
        }
      } else {
        if selectedFile.Some? {
          var fd := Api.LeadershipCreateWithImage(member, JFileValue(selectedFile.value));
          call := CreateWithImage(fd.entries);
        } else {
          call := Create(member);
        }
      }
      if succeeded {
        editDialog := false;
        selectedFile := None;
        previewUrl := "";
      }
    }

    /** The dialog's Cancel button. */
    method Cancel()
      modifies this
      ensures !editDialog && selectedFile == None && previewUrl == ""
      ensures currentMember == old(currentMember) && members == old(members)
      ensures Valid()
    {
      editDialog := false;
      selectedFile := None;
      previewUrl := "";
    }
  }
}
