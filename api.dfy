/** The API client: the request interceptor that adds the admin's bearer token, the
    multipart field sets that the `createWithImage`/`updateWithImage` helpers of the
    leadership, events and gallery APIs build, and the login request. */
module Api {
  import opened Common
  import opened Js
  import Text

  /** The `localStorage` key of the admin token. */
  const TokenKey := "gosec_admin_token"

  /* ---------- Request interceptor ---------- */

  /** The headers of an outgoing request. */
  class RequestConfig {
    var headers: map<string, string>

    constructor (headers: map<string, string>)
      ensures this.headers == headers
    {
      this.headers := headers;
    }
  }

  /** The headers a request leaves with, given the storage at that moment. */
  function WithBearer(headers: map<string, string>, stored: map<string, string>): map<string, string> {
    if TokenKey in stored && stored[TokenKey] != "" then headers["Authorization" := "Bearer " + stored[TokenKey]]
    else headers
  }

  /** A request carries `Authorization: Bearer <token>` exactly when a non-empty token is
      stored; no other header changes, and without a token nothing changes. */
  lemma WithBearerIff(headers: map<string, string>, stored: map<string, string>)
    ensures var h := WithBearer(headers, stored);
      && (TokenKey in stored && stored[TokenKey] != "" ==>
            "Authorization" in h && h["Authorization"] == "Bearer " + stored[TokenKey])
      && (TokenKey !in stored || stored[TokenKey] == "" ==> h == headers)
      && (forall k :: k in headers && k != "Authorization" ==> k in h && h[k] == headers[k])
      && h.Keys <= headers.Keys + {"Authorization"}
  {
  }

  /** The interceptor: reads the token and, when it is truthy, sets the header. */
  method Intercept(config: RequestConfig, storage: LocalStorage)
    modifies config
    ensures config.headers == WithBearer(old(config.headers), storage.items)
  {
    var token := storage.GetItem(TokenKey);
    if token.Some? && token.value != "" {
      config.headers := config.headers["Authorization" := "Bearer " + token.value];
    }
  }

  /* ---------- Multipart field sets ---------- */

  /** The value of one `FormData` entry: `append` keeps a file and converts anything else
      to its text. */
  datatype Part = PText(text: string) | PFile(file: JsFile)

  datatype Entry = Entry(name: string, part: Part)

  function PartOf(v: JsValue): (p: Part)
    ensures v.JFileValue? ==> p == PFile(v.file)
    ensures !v.JFileValue? ==> p == PText(ToJsString(v))
  {
    if v.JFileValue? then PFile(v.file) else PText(ToJsString(v))
  }

  /** The entry names, in order. */
  function Names(entries: seq<Entry>): (names: seq<string>)
    ensures |names| == |entries| && forall i :: 0 <= i < |entries| ==> names[i] == entries[i].name
  {
    seq(|entries|, i requires 0 <= i < |entries| => entries[i].name)
  }

  /** `formData.append(k, data.k)`. */
  function ValueEntry(key: string, data: JsObject): Entry {
    Entry(key, PartOf(Get(data, key)))
  }

  /** `formData.append(k, data.k || fallback)`. */
  function OrEntry(key: string, data: JsObject, fallback: JsValue): Entry {
    Entry(key, PartOf(OrElse(Get(data, key), fallback)))
  }

  /** `if (data.k !== undefined) formData.append(k, data.k)`. */
  function IfDefined(key: string, data: JsObject): seq<Entry> {
    if Get(data, key) != JUndefined then [ValueEntry(key, data)] else []
  }

  /** A chain of such appends over the first `n` of `keys`, in order. */
  function DefinedPrefix(keys: seq<string>, n: nat, data: JsObject): seq<Entry>
    requires n <= |keys|
  {
    if n == 0 then [] else DefinedPrefix(keys, n - 1, data) + IfDefined(keys[n - 1], data)
  }

  /** The chain over all of `keys`. */
  function DefinedEntries(keys: seq<string>, data: JsObject): seq<Entry> {
    DefinedPrefix(keys, |keys|, data)
  }

  /** The keys of `keys` that `data` defines, in order. */
  function DefinedKeys(keys: seq<string>, data: JsObject): seq<string> {
    if |keys| == 0 then []
    else if Get(data, keys[0]) != JUndefined then [keys[0]] + DefinedKeys(keys[1..], data)
    else DefinedKeys(keys[1..], data)
  }

  /** `if (imageFile) formData.append('image', imageFile)`. */
  function ImageEntry(image: JsValue): seq<Entry> {
    if Truthy(image) then [Entry("image", PartOf(image))] else []
  }

  /** Filtering one more key at the end extends the filtered keys by that key exactly
      when it is defined. */
  lemma {:induction false} DefinedKeysSnoc(keys: seq<string>, k: string, data: JsObject)
    ensures DefinedKeys(keys + [k], data)
         == DefinedKeys(keys, data) + (if Get(data, k) != JUndefined then [k] else [])
    decreases |keys|
  {
    if |keys| > 0 {
      assert (keys + [k])[1..] == keys[1..] + [k];
      DefinedKeysSnoc(keys[1..], k, data);
    } else {
      assert keys + [k] == [k];
    }
  }

  /** A key is sent exactly when it is listed and defined. */
  lemma {:induction false} DefinedKeysMembers(keys: seq<string>, data: JsObject)
    ensures forall k :: k in DefinedKeys(keys, data) <==> k in keys && Get(data, k) != JUndefined
    decreases |keys|
  {
    if |keys| > 0 {
      DefinedKeysMembers(keys[1..], data);
      assert keys == [keys[0]] + keys[1..];
    }
  }

  /** The entries of a chain of `!== undefined` appends over the first `n` keys carry
      the defined ones among them in the listed order, each with the value `data` holds
      for it. */
  lemma {:induction false} DefinedPrefixSpec(keys: seq<string>, n: nat, data: JsObject)
    requires n <= |keys|
    ensures var es := DefinedPrefix(keys, n, data);
      && Names(es) == DefinedKeys(keys[..n], data)
      && forall i :: 0 <= i < |es| ==> es[i] == ValueEntry(es[i].name, data)
    decreases n
  {
    if n > 0 {
      var init := keys[..n - 1];
      var k := keys[n - 1];
      DefinedPrefixSpec(keys, n - 1, data);
      DefinedKeysSnoc(init, k, data);
      assert init + [k] == keys[..n];
      var es := DefinedPrefix(keys, n, data);
      assert es == DefinedPrefix(keys, n - 1, data) + IfDefined(k, data);
      assert Names(es) == Names(DefinedPrefix(keys, n - 1, data)) + (if Get(data, k) != JUndefined then [k] else []);
    } else {
      assert keys[..0] == [];
    }
  }

  /** The same for the whole chain. */
  lemma DefinedEntriesSpec(keys: seq<string>, data: JsObject)
    ensures var es := DefinedEntries(keys, data);
      && Names(es) == DefinedKeys(keys, data)
      && forall i :: 0 <= i < |es| ==> es[i] == ValueEntry(es[i].name, data)
  {
    DefinedPrefixSpec(keys, |keys|, data);
    assert keys[..|keys|] == keys;
  }

  /** A chosen file is the last part of the form. */
  lemma ImageLast(fields: seq<Entry>, f: JsFile)
    ensures var es := fields + ImageEntry(JFileValue(f));
      |es| == |fields| + 1 && es[|fields|] == Entry("image", PFile(f))
  {
  }

  /** The fields of `leadershipApi.updateWithImage`. */
  function LeadershipUpdateKeys(): (keys: seq<string>)
    ensures |keys| == 8
  {
    ["name", "role_en", "role_fr", "bio_en", "bio_fr", "email", "linkedin", "order"]
  }

  /** The fields of `eventsApi.updateWithImage`. */
  function EventUpdateKeys(): (keys: seq<string>)
    ensures |keys| == 10
  {
    ["date_en", "date_fr", "title_en", "title_fr", "location_en", "location_fr",
     "summary_en", "summary_fr", "media_key", "order"]
  }

  /** The fields of `galleryApi.updateWithImage`. */
  function GalleryUpdateKeys(): (keys: seq<string>)
    ensures |keys| == 4
  {
    ["title_en", "title_fr", "media_key", "order"]
  }

  /** The multipart body of an `updateWithImage` helper over `keys`. */
  function UpdateForm(keys: seq<string>, data: JsObject, image: JsValue): seq<Entry> {
    DefinedEntries(keys, data) + ImageEntry(image)
  }

  /** An update sends exactly the listed fields that `data` defines, with their values
      and in the listed order, then the image exactly when it is truthy. */
  lemma UpdateFormSpec(keys: seq<string>, data: JsObject, image: JsValue)
    ensures var es := UpdateForm(keys, data, image);
      var n := |DefinedKeys(keys, data)|;
      && (Truthy(image) <==> |es| == n + 1)
      && (!Truthy(image) <==> |es| == n)
      && Names(es)[..n] == DefinedKeys(keys, data)
      && (forall i :: 0 <= i < n ==> es[i] == ValueEntry(es[i].name, data))
      && (forall k :: k in Names(es)[..n] <==> k in keys && Get(data, k) != JUndefined)
      && (Truthy(image) ==> es[n] == Entry("image", PartOf(image)))
  {
    DefinedEntriesSpec(keys, data);
    DefinedKeysMembers(keys, data);
    var fields := DefinedEntries(keys, data);
    var es := UpdateForm(keys, data, image);
    assert Names(es)[..|fields|] == Names(fields);
  }

  /** `formData.append(k, data.k)` for each of `keys`. */
  function AlwaysEntries(keys: seq<string>, data: JsObject): (es: seq<Entry>)
    ensures |es| == |keys| && forall i :: 0 <= i < |keys| ==> es[i] == ValueEntry(keys[i], data)
  {
    seq(|keys|, i requires 0 <= i < |keys| => ValueEntry(keys[i], data))
  }

  /** `formData.append(k, data.k || fallback)` for each key and fallback of `defaults`. */
  function DefaultedEntries(defaults: seq<(string, JsValue)>, data: JsObject): (es: seq<Entry>)
    ensures |es| == |defaults|
    ensures forall i :: 0 <= i < |defaults| ==> es[i] == OrEntry(defaults[i].0, data, defaults[i].1)
  {
    seq(|defaults|, i requires 0 <= i < |defaults| => OrEntry(defaults[i].0, data, defaults[i].1))
  }

  /** The multipart body of a `createWithImage` helper: the fields sent as they are, then
      the defaulted ones, then the image. */
  function CreateForm(always: seq<string>, defaults: seq<(string, JsValue)>, data: JsObject, image: JsValue): seq<Entry> {
    AlwaysEntries(always, data) + DefaultedEntries(defaults, data) + ImageEntry(image)
  }

  /** A create sends every field of `always` with the data's value (an undefined one as
      the text "undefined"), then every defaulted field with the data's value when that
      is truthy and the fallback otherwise, then the image exactly when it is truthy. */
  lemma CreateFormSpec(always: seq<string>, defaults: seq<(string, JsValue)>, data: JsObject, image: JsValue)
    ensures var es := CreateForm(always, defaults, data, image);
      var n := |always| + |defaults|;
      && |es| == n + (if Truthy(image) then 1 else 0)
      && (forall i :: 0 <= i < |always| ==> es[i] == Entry(always[i], PartOf(Get(data, always[i]))))
      && (forall i :: 0 <= i < |defaults| ==>
            var e := es[|always| + i];
            && e.name == defaults[i].0
            && (Truthy(Get(data, e.name)) ==> e.part == PartOf(Get(data, e.name)))
            && (!Truthy(Get(data, e.name)) ==> e.part == PartOf(defaults[i].1)))
      && (Truthy(image) ==> es[n] == Entry("image", PartOf(image)))
  {
    var a := AlwaysEntries(always, data);
    var d := DefaultedEntries(defaults, data);
    var es := CreateForm(always, defaults, data, image);
    assert es == (a + d) + ImageEntry(image);
    assert forall i :: 0 <= i < |defaults| ==> es[|always| + i] == d[i];
  }

  /** The fallbacks the create helpers use: `''` is sent as the empty text, `0` as "0". */
  lemma FallbackTexts()
    ensures PartOf(JStr("")) == PText("") && PartOf(JNum(0)) == PText("0")
    ensures PartOf(JUndefined) == PText("undefined")
  {
    assert Text.IntToDecimal(0) == "0";
  }

  /** The fields `leadershipApi.createWithImage` sends as they are. */
  function LeadershipCreateKeys(): (keys: seq<string>)
    ensures |keys| == 3
  {
    ["name", "role_en", "role_fr"]
  }

  /** The fields it defaults. */
  function LeadershipCreateDefaults(): (defaults: seq<(string, JsValue)>)
    ensures |defaults| == 5
  {
    [("bio_en", JStr("")), ("bio_fr", JStr("")), ("email", JStr("")), ("linkedin", JStr("")), ("order", JNum(0))]
  }

  /** The fields `eventsApi.createWithImage` sends as they are. */
  function EventCreateKeys(): (keys: seq<string>)
    ensures |keys| == 8
  {
    ["date_en", "date_fr", "title_en", "title_fr", "location_en", "location_fr", "summary_en", "summary_fr"]
  }

  /** The fields the events and gallery create helpers default. */
  function MediaOrderDefaults(): (defaults: seq<(string, JsValue)>)
    ensures |defaults| == 2
  {
    [("media_key", JStr("")), ("order", JNum(0))]
  }

  /** The fields `galleryApi.createWithImage` sends as they are. */
  function GalleryCreateKeys(): (keys: seq<string>)
    ensures |keys| == 2
  {
    ["title_en", "title_fr"]
  }

  /** Each create helper sends the same field names as its update helper, in the same
      order, when every field is defined. */
  lemma CreateAndUpdateNames()
    ensures LeadershipCreateKeys() + ["bio_en", "bio_fr", "email", "linkedin", "order"] == LeadershipUpdateKeys()
    ensures EventCreateKeys() + ["media_key", "order"] == EventUpdateKeys()
    ensures GalleryCreateKeys() + ["media_key", "order"] == GalleryUpdateKeys()
  {
  }

  /** A `FormData` being filled. */
  class FormData {
    var entries: seq<Entry>

    constructor ()
      ensures entries == []
    {
      entries := [];
    }

    /** `append(name, v)`. */
    method Append(name: string, v: JsValue)
      modifies this
      ensures entries == old(entries) + [Entry(name, PartOf(v))]
    {
      entries := entries + [Entry(name, PartOf(v))];
    }

    /** `append(key, data[key])` for the next field `keys[n]` sent as it is. */
    method AppendValue(keys: seq<string>, n: nat, data: JsObject)
      requires n < |keys| && entries == AlwaysEntries(keys, data)[..n]
      modifies this
      ensures entries == AlwaysEntries(keys, data)[..n + 1]
    {
      var key := keys[n];
      ghost var all := AlwaysEntries(keys, data);
      assert all[..n + 1] == all[..n] + [all[n]];
      Append(key, Get(data, key));
    }

    /** `if (data[key] !== undefined) append(key, data[key])` for the next field
        `keys[n]` of an update: the chain over the first `n` keys grows to the chain over
        the first `n + 1`. */
    method AppendIfDefined(keys: seq<string>, n: nat, data: JsObject)
      requires n < |keys| && entries == DefinedPrefix(keys, n, data)
      modifies this
      ensures entries == DefinedPrefix(keys, n + 1, data)
    {
      var key := keys[n];
      var v := Get(data, key);
      if v != JUndefined {
        Append(key, v);
      }
    }

    /** `append(key, data[key] || fallback)` for the next defaulted field
        `defaults[n]`. */
    method AppendOr(ghost keys: seq<string>, defaults: seq<(string, JsValue)>, n: nat, data: JsObject)
      requires n < |defaults|
      requires entries == AlwaysEntries(keys, data) + DefaultedEntries(defaults, data)[..n]
      modifies this
      ensures entries == AlwaysEntries(keys, data) + DefaultedEntries(defaults, data)[..n + 1]
    {
      var (key, fallback) := defaults[n];
      ghost var all := DefaultedEntries(defaults, data);
      assert all[..n + 1] == all[..n] + [all[n]];
      Append(key, OrElse(Get(data, key), fallback));
    }

    /** `if (imageFile) append('image', imageFile)`. */
    method AppendImage(image: JsValue)
      modifies this
      ensures entries == old(entries) + ImageEntry(image)
    {
      if Truthy(image) {
        Append("image", image);
      }
    }
  }

  /** `leadershipApi.createWithImage`'s body. */
  method LeadershipCreateWithImage(data: JsObject, image: JsValue) returns (fd: FormData)
    ensures fresh(fd) && fd.entries == CreateForm(LeadershipCreateKeys(), LeadershipCreateDefaults(), data, image)
  {
    fd := new FormData();
    fd.AppendValue(LeadershipCreateKeys(), 0, data);
    fd.AppendValue(LeadershipCreateKeys(), 1, data);
    fd.AppendValue(LeadershipCreateKeys(), 2, data);
    assert AlwaysEntries(LeadershipCreateKeys(), data)[..3] == AlwaysEntries(LeadershipCreateKeys(), data);
    fd.AppendOr(LeadershipCreateKeys(), LeadershipCreateDefaults(), 0, data);
    fd.AppendOr(LeadershipCreateKeys(), LeadershipCreateDefaults(), 1, data);
    fd.AppendOr(LeadershipCreateKeys(), LeadershipCreateDefaults(), 2, data);
    fd.AppendOr(LeadershipCreateKeys(), LeadershipCreateDefaults(), 3, data);
    fd.AppendOr(LeadershipCreateKeys(), LeadershipCreateDefaults(), 4, data);
    assert DefaultedEntries(LeadershipCreateDefaults(), data)[..5] == DefaultedEntries(LeadershipCreateDefaults(), data);
    fd.AppendImage(image);
  }

  /** `leadershipApi.updateWithImage`'s body. */
  method LeadershipUpdateWithImage(data: JsObject, image: JsValue) returns (fd: FormData)
    ensures fresh(fd) && fd.entries == UpdateForm(LeadershipUpdateKeys(), data, image)
  {
    fd := new FormData();
    fd.AppendIfDefined(LeadershipUpdateKeys(), 0, data);
    fd.AppendIfDefined(LeadershipUpdateKeys(), 1, data);
    fd.AppendIfDefined(LeadershipUpdateKeys(), 2, data);
    fd.AppendIfDefined(LeadershipUpdateKeys(), 3, data);
    fd.AppendIfDefined(LeadershipUpdateKeys(), 4, data);
    fd.AppendIfDefined(LeadershipUpdateKeys(), 5, data);
    fd.AppendIfDefined(LeadershipUpdateKeys(), 6, data);
    fd.AppendIfDefined(LeadershipUpdateKeys(), 7, data);
    fd.AppendImage(image);
  }

  /** `eventsApi.createWithImage`'s body. */
  method EventCreateWithImage(data: JsObject, image: JsValue) returns (fd: FormData)
    ensures fresh(fd) && fd.entries == CreateForm(EventCreateKeys(), MediaOrderDefaults(), data, image)
  {
    fd := new FormData();
    fd.AppendValue(EventCreateKeys(), 0, data);
    fd.AppendValue(EventCreateKeys(), 1, data);
    fd.AppendValue(EventCreateKeys(), 2, data);
    fd.AppendValue(EventCreateKeys(), 3, data);
    fd.AppendValue(EventCreateKeys(), 4, data);
    fd.AppendValue(EventCreateKeys(), 5, data);
    fd.AppendValue(EventCreateKeys(), 6, data);
    fd.AppendValue(EventCreateKeys(), 7, data);
    assert AlwaysEntries(EventCreateKeys(), data)[..8] == AlwaysEntries(EventCreateKeys(), data);
    fd.AppendOr(EventCreateKeys(), MediaOrderDefaults(), 0, data);
    fd.AppendOr(EventCreateKeys(), MediaOrderDefaults(), 1, data);
    assert DefaultedEntries(MediaOrderDefaults(), data)[..2] == DefaultedEntries(MediaOrderDefaults(), data);
    fd.AppendImage(image);
  }

  /** `eventsApi.updateWithImage`'s body. */
  method EventUpdateWithImage(data: JsObject, image: JsValue) returns (fd: FormData)
    ensures fresh(fd) && fd.entries == UpdateForm(EventUpdateKeys(), data, image)
  {
    fd := new FormData();
    fd.AppendIfDefined(EventUpdateKeys(), 0, data);
    fd.AppendIfDefined(EventUpdateKeys(), 1, data);
    fd.AppendIfDefined(EventUpdateKeys(), 2, data);
    fd.AppendIfDefined(EventUpdateKeys(), 3, data);
    fd.AppendIfDefined(EventUpdateKeys(), 4, data);
    fd.AppendIfDefined(EventUpdateKeys(), 5, data);
    fd.AppendIfDefined(EventUpdateKeys(), 6, data);
    fd.AppendIfDefined(EventUpdateKeys(), 7, data);
    fd.AppendIfDefined(EventUpdateKeys(), 8, data);
    fd.AppendIfDefined(EventUpdateKeys(), 9, data);
    fd.AppendImage(image);
  }

  /** `galleryApi.createWithImage`'s body. */
  method GalleryCreateWithImage(data: JsObject, image: JsValue) returns (fd: FormData)
    ensures fresh(fd) && fd.entries == CreateForm(GalleryCreateKeys(), MediaOrderDefaults(), data, image)
  {
    fd := new FormData();
    fd.AppendValue(GalleryCreateKeys(), 0, data);
    fd.AppendValue(GalleryCreateKeys(), 1, data);
    assert AlwaysEntries(GalleryCreateKeys(), data)[..2] == AlwaysEntries(GalleryCreateKeys(), data);
    fd.AppendOr(GalleryCreateKeys(), MediaOrderDefaults(), 0, data);
    fd.AppendOr(GalleryCreateKeys(), MediaOrderDefaults(), 1, data);
    assert DefaultedEntries(MediaOrderDefaults(), data)[..2] == DefaultedEntries(MediaOrderDefaults(), data);
    fd.AppendImage(image);
  }

  /** `galleryApi.updateWithImage`'s body. */
  method GalleryUpdateWithImage(data: JsObject, image: JsValue) returns (fd: FormData)
    ensures fresh(fd) && fd.entries == UpdateForm(GalleryUpdateKeys(), data, image)
  {
    fd := new FormData();
    fd.AppendIfDefined(GalleryUpdateKeys(), 0, data);
    fd.AppendIfDefined(GalleryUpdateKeys(), 1, data);
    fd.AppendIfDefined(GalleryUpdateKeys(), 2, data);
    fd.AppendIfDefined(GalleryUpdateKeys(), 3, data);
    fd.AppendImage(image);
  }

  /* ---------- Login ---------- */

  /** A request as the client sends it: the path, the content type and the body fields. */
  datatype Request = Request(path: string, contentType: string, fields: seq<(string, string)>)

  /** `authApi.login`: the credentials as url-encoded form fields. */
  function LoginRequest(username: string, password: string): (r: Request)
    ensures r.path == "/api/auth/login" && r.contentType == "application/x-www-form-urlencoded"
    ensures r.fields == [("username", username), ("password", password)]
  {
    Request("/api/auth/login", "application/x-www-form-urlencoded",
            [("username", username), ("password", password)])
  }
}
