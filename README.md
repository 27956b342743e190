# GOSEC admin core in Dafny

A model of the GOSEC site as seen by the GOSEC admin. GOSEC is a community organisation's web site.

On the server side it covers the FastAPI route modules:
- the leadership, programmes, events and gallery record collections, with their seeded defaults;
- the leadership photo uploads;
- the three submission forms (join, donate, contact);
- the hero, about and media content.

On the client side it covers:
- the API client's bearer-token interceptor;
- its multipart `FormData` builders and its login request;
- the session kept by the authentication context;
- the state handlers of the admin leadership and programmes pages.

The model is built in layers:
- **Mongo documents** are maps from field names to values (`Docs`).
- **A collection** is a class: a table of documents in insertion order, whose methods are proved against pure functions on that table (`Store`).
- **Pydantic and FastAPI `Form(...)` validation** is one generic function over a list of declared fields (`Schema`).
- **The shared create/read/update/delete behaviour** of the four record collections is specified once (`Records`) and used by each route module.
- **Client values** are JavaScript values: `undefined`, `null`, numbers, texts, arrays and files (`Js`).
- **Pages:** each admin page is a class whose fields are the page's React state.

The environment becomes parameters of the model:
- uuids, ObjectIds and the clock;
- whether a file write succeeds;
- whether the caller is an admin;
- the e-mail check;
- the reply of the login request.

The client marks the submission getters `// Admin only` (`frontend/src/services/api.js:205`), but `backend/routes/forms_routes.py:52-55`, `83-86` and `118-121` carry no admin dependency. So `Forms.ListForms` has no admin parameter.

## Model

| member | source | states |
|---|---|---|
| Docs.ToResponse | backend/routes/programs_routes.py:13-20 | `None` stays `None`; otherwise `_id` becomes `id` as text, no `_id` remains, and every other key keeps its value |
| Docs.SetFields | backend/routes/programs_routes.py:153 | after `$set` the keys of the update hold its values and every other key of the document keeps its value |
| Docs.InsertSorted | backend/routes/programs_routes.py:119 | inserting into a key-sorted sequence keeps it sorted, and the new head is the smaller of the element and the old head |
| Docs.SortBy | backend/routes/programs_routes.py:119 | the sort returns a permutation of its input (same length and multiset) sorted by the key |
| Docs.SortSorted | backend/routes/programs_routes.py:119 | sorting an already sorted sequence changes nothing |
| Docs.SortedFirst | backend/routes/forms_routes.py:54 | an element whose key is strictly smallest comes first after sorting, and heads every non-empty prefix |
| Docs.SortedPrefix | backend/routes/programs_routes.py:119 | `find().sort(key).to_list(n)` returns `n` elements or all of them when fewer, sorted, each at most as often as it is stored; an element left out has a key no smaller than any returned one; with no more than `n` stored it returns exactly the stored ones |
| Store.InsertSpec | backend/routes/programs_routes.py:142 | `insert_one` of a new id keeps the table well formed, appends the document and leaves every other document unchanged |
| Store.InsertManySpec | backend/routes/programs_routes.py:120-123 | inserting fresh distinct-id documents one by one appends them in order |
| Store.SetOneSpec | backend/routes/programs_routes.py:153 | `update_one` `$set` keeps the table well formed, keeps the order and changes no other document |
| Store.RemoveSpec | backend/routes/programs_routes.py:164 | `delete_one` keeps the table well formed and the other documents in order |
| Store.Collection.FindOne | backend/routes/programs_routes.py:131 | `find_one` returns the stored document under the id exactly when there is one |
| Store.Collection.FindFirst | backend/routes/content_routes.py:86 | `find_one({})` returns the first document in insertion order, or none on an empty collection |
| Store.Collection.InsertOne | backend/routes/programs_routes.py:142 | the new table is `Insert(old table, d)` |
| Store.Collection.UpdateOne | backend/routes/programs_routes.py:153 | the result is whether the id matched; the new table is `SetOne` of the old one |
| Store.Collection.DeleteOne | backend/routes/programs_routes.py:164 | the result is whether a document was deleted; the new table is `Remove` of the old one |
| Store.Collection.FindSorted | backend/routes/programs_routes.py:119 | the sorted, capped rows of the table |
| Store.Collection.FindAll | backend/routes/content_routes.py:45 | the first rows in insertion order, capped |
| Store.Collection.InsertAll | backend/routes/programs_routes.py:120-123 | the seeding loop leaves the table as `InsertMany` of the defaults |
| Schema.ValidateSpec | backend/routes/programs_routes.py:24-32 | validation succeeds exactly when every declared field gets a value, and the dump holds exactly the declared fields with those values |
| Schema.FieldOutcome | backend/routes/programs_routes.py:24-32 | a field without a value makes the body a 422; a successful dump holds each field with its own value |
| Schema.ValidateFails | backend/routes/programs_routes.py:24-32 | validation only ever fails with 422 |
| Schema.DumpUndeclared | backend/routes/programs_routes.py:24-32 | the dump holds no undeclared name, so a client cannot set `_id` |
| Schema.PatchSpec | backend/routes/programs_routes.py:149 | the update data holds exactly the declared fields the body gives non-null, with the body's values |
| Schema.ValidateFormSpec | backend/routes/leadership_routes.py:282-289 | form validation succeeds exactly when every parameter gets a value, and gives exactly those values |
| Schema.FormPatchSpec | backend/routes/leadership_routes.py:331-338 | for `Form(None)` parameters, the non-null values are exactly the parameters sent as non-empty texts |
| Schema.FormFieldMissing | backend/routes/leadership_routes.py:282-284 | a required form parameter without a value makes the whole form a 422 |
| Schema.FormGivesField | backend/routes/leadership_routes.py:342-351 | for `Form(None)` parameters the update data is non-empty exactly when some declared parameter is sent as a non-empty text |
| Schema.FormParamsSet | backend/routes/leadership_routes.py:282-289 | the validated parameters hold every parameter sent as a non-empty text, with its form value |
| Schema.FormDefault | backend/routes/leadership_routes.py:285-289 | a parameter missing or empty in a valid form takes its declared default |
| Records.ListSpecProps | backend/routes/programs_routes.py:116-125 | a list seeds only an empty collection; returns at most 100 documents with distinct ids, non-decreasing in `order`, each stored; a stored document left out has an `order` no smaller than any listed one; holds every stored document when there are at most 100 |
| Records.ListSeedsInOrder | backend/routes/programs_routes.py:116-125 | the first list of an empty collection returns exactly the defaults, each of which a get then finds |
| Records.ListTwice | backend/routes/programs_routes.py:116-125 | a second list seeds nothing and returns the same list |
| Records.CreateSpecProps | backend/routes/programs_routes.py:137-143 | a create stores the body under the fresh id, after every earlier record; the response carries that id whatever id the body held, and every declared field; a later get returns it |
| Records.CreatedField | backend/routes/programs_routes.py:137-143 | without a value for a declared field a create is a 422; otherwise the response holds the field with that value |
| Records.UpdatePrecedence | backend/routes/programs_routes.py:146-152 | update errors come in the order 401, 422, 400 (no non-null field, whatever the id), 404; an error changes nothing |
| Records.UpdateOnlySupplied | backend/routes/programs_routes.py:146-158 | a successful update changes only the fields the body supplies non-null, in only that document; the response is what a get returns |
| Records.DeleteThenGet | backend/routes/programs_routes.py:161-167 | a delete succeeds exactly when the id is stored; afterwards a get of it is a 404 and every other document is unchanged |
| Records.List | backend/routes/programs_routes.py:116-125 | the result and new table are those of `ListSpec` |
| Records.Get | backend/routes/programs_routes.py:128-134 | the result is `GetSpec` of the table: the document or 404 |
| Records.Create | backend/routes/programs_routes.py:137-143 | the result and new table are those of `CreateSpec` |
| Records.Update | backend/routes/programs_routes.py:146-158 | the result and new table are those of `UpdateSpec` |
| Records.Delete | backend/routes/programs_routes.py:161-167 | the result and new table are those of `DeleteSpec` |
| Programs.ProgramCreate | backend/routes/programs_routes.py:24-32 | the create model is a record schema that declares no `id`, so a client-sent id is dropped |
| Programs.ProgramSeedsContent | backend/routes/programs_routes.py:57-113 | the five defaults have the ids youth, family, culture, careers and soccer, orders 1 to 5, and the last is titled "Recreational Soccer" |
| Programs.ListProgramsSeeds | backend/routes/programs_routes.py:116-125 | the first list of an empty collection returns the five defaults in order, each of which a get finds |
| Programs.SoccerListedLast | backend/routes/programs_routes.py:57-125 | the last programme of that list is `soccer`, "Recreational Soccer", order 5 |
| Programs.CreateProgramRequired | backend/routes/programs_routes.py:24-32 | a create without any of the four titles and descriptions is a 422 |
| Programs.CreateProgramDefaults | backend/routes/programs_routes.py:24-32 | the bullets default to `[]`, `media_key` to "" and `order` to 0 |
| Programs.ListPrograms | backend/routes/programs_routes.py:116-125 | `list_programs` on the collection, as `ListSpec` with the five defaults |
| Programs.GetProgram | backend/routes/programs_routes.py:128-134 | `get_program` as `GetSpec` |
| Programs.CreateProgram | backend/routes/programs_routes.py:137-143 | `create_program` as `CreateSpec` with the programme schema |
| Programs.UpdateProgram | backend/routes/programs_routes.py:146-158 | `update_program` as `UpdateSpec` with the patch schema |
| Programs.DeleteProgram | backend/routes/programs_routes.py:161-167 | `delete_program` as `DeleteSpec` |
| Events.EventCreate | backend/routes/events_routes.py:25-36 | the create model is a record schema that declares no `id`, so a client-sent id is dropped |
| Events.ListEventsSeeds | backend/routes/events_routes.py:124-133 | the first list of an empty collection returns the four defaults in order, each of which a get finds |
| Events.ListedEventsDated | backend/routes/events_routes.py:64-121 | every event of that first list has both dates and both locations |
| Events.CreateEventRequired | backend/routes/events_routes.py:25-36 | a create without any of the eight dates, titles, locations and summaries is a 422 |
| Events.CreateEventDefaults | backend/routes/events_routes.py:25-36 | `media_key` and `image_url` default to "" and `order` to 0 |
| Events.ListEvents | backend/routes/events_routes.py:124-133 | `list_events` as `ListSpec` with the four defaults |
| Events.GetEvent | backend/routes/events_routes.py:136-142 | `get_event` as `GetSpec` |
| Events.CreateEvent | backend/routes/events_routes.py:145-151 | `create_event` as `CreateSpec` |
| Events.UpdateEvent | backend/routes/events_routes.py:154-166 | `update_event` as `UpdateSpec` |
| Events.DeleteEvent | backend/routes/events_routes.py:169-175 | `delete_event` as `DeleteSpec` |
| Gallery.GalleryCreate | backend/routes/gallery_routes.py:24-29 | the create model is a record schema that declares no `id`, so a client-sent id is dropped |
| Gallery.ListGallerySeeds | backend/routes/gallery_routes.py:103-112 | the first list of an empty collection returns the six defaults in order, each of which a get finds |
| Gallery.ListedGalleryPictured | backend/routes/gallery_routes.py:51-100 | every picture of that list has a non-empty `image_url` |
| Gallery.CreateGalleryRequired | backend/routes/gallery_routes.py:24-29 | a create without a title or `media_key` is a 422 |
| Gallery.CreateGalleryDefaults | backend/routes/gallery_routes.py:24-29 | `image_url` defaults to "" and `order` to 0 |
| Gallery.ListGallery | backend/routes/gallery_routes.py:103-112 | `list_gallery` as `ListSpec` with the six defaults |
| Gallery.GetGalleryItem | backend/routes/gallery_routes.py:115-121 | `get_gallery_item` as `GetSpec` |
| Gallery.CreateGalleryItem | backend/routes/gallery_routes.py:124-130 | `create_gallery_item` as `CreateSpec` |
| Gallery.UpdateGalleryItem | backend/routes/gallery_routes.py:133-145 | `update_gallery_item` as `UpdateSpec` |
| Gallery.DeleteGalleryItem | backend/routes/gallery_routes.py:148-154 | `delete_gallery_item` as `DeleteSpec` |
| Leadership.FileExtensionIn | backend/routes/leadership_routes.py:19-27 | for any set of extensions without "", the extension is in it exactly when the final component is a stem plus an extension that lower-cases into it |
| Leadership.FileExtension | backend/routes/leadership_routes.py:22-23 | the extension is empty or a dot followed by at least one character, with no further dot and no `/` |
| Leadership.AllowedFileIff | backend/routes/leadership_routes.py:19-27 | a file is allowed exactly when its final component is a non-empty stem plus an extension (a dot and at least one more character, none of them a dot) that lower-cases to one of the five allowed ones |
| Leadership.StoredNameKeepsExtension | backend/routes/leadership_routes.py:249-250 | the stored name `uuid + ext` of an allowed upload keeps its extension and is an allowed name itself |
| Leadership.UploadUrlRoundTrip | backend/routes/leadership_routes.py:259-260 | the last `/`-segment of the upload URL is the stored file name |
| Leadership.UploadDir.Exists | backend/routes/leadership_routes.py:229 | true exactly when the directory holds the name, or when the name ("", "." or "..") makes the path the directory itself or its parent |
| Leadership.UploadDir.Unlink | backend/routes/leadership_routes.py:230 | removes exactly that name; on a name that makes the path a directory it fails and removes nothing |
| Leadership.UploadDir.Write | backend/routes/leadership_routes.py:253-256 | on success adds exactly that name; on failure leaves the directory as it was |
| Leadership.RemoveUploaded | backend/routes/leadership_routes.py:226-230 | succeeds exactly when the URL's last segment does not name a directory; then the file an uploaded URL names is removed when it exists (`WithoutUpload`); on failure the directory is unchanged |
| Leadership.MemberCreate | backend/routes/leadership_routes.py:40-49 | the create model is a record schema that declares no `id`, so a client-sent id is dropped |
| Leadership.ListLeadershipSeeds | backend/routes/leadership_routes.py:174-182 | the first list of an empty collection returns the eight defaults in order, each of which a get finds |
| Leadership.FounderListedFirst | backend/routes/leadership_routes.py:74-182 | Jean-Pierre Mbeki, order 1, heads that first list |
| Leadership.CreateMemberRequired | backend/routes/leadership_routes.py:40-49 | a create without the name or a role is a 422 |
| Leadership.CreateMemberDefaults | backend/routes/leadership_routes.py:40-49 | the biographies, e-mail, LinkedIn and image address default to "" and `order` to 0 |
| Leadership.UploadSpecProps | backend/routes/leadership_routes.py:237-260 | an upload succeeds exactly for an admin's allowed, named and written file; a failure writes nothing; a success stores `uuid + ext` and returns it with its URL |
| Leadership.DeleteMemberProps | backend/routes/leadership_routes.py:218-233 | a delete succeeds exactly for a stored record whose `image_url` is a text not naming a directory; an unknown id is a 404, and a non-text `image_url` or one naming a directory a 500, none changing anything; a success removes the record and the one file its uploaded photo names, and a non-upload photo leaves the directory alone |
| Leadership.UploadThenDelete | backend/routes/leadership_routes.py:218-260 | the photo an upload stored is removed again when a record holding its URL is deleted; a stored name that makes the path a directory is a 500 that removes nothing |
| Leadership.CreateWithImageRequired | backend/routes/leadership_routes.py:282-291 | a multipart create without a non-empty name or role is a 422 that changes nothing |
| Leadership.CreateWithImageProps | backend/routes/leadership_routes.py:280-324 | a create succeeds exactly when the form is valid and a photo, if any, is allowed and written; a disallowed photo is a 400 and a failed write a 500, both changing nothing; without a photo `image_url` is ""; with one it is the URL of the stored file, which is added; the record is stored under the fresh id and a get returns the response |
| Leadership.CreateWithImageFields | backend/routes/leadership_routes.py:282-321 | the stored record holds every form parameter sent as a non-empty text with its value; missing or empty biographies, e-mail and LinkedIn are "", and a missing or empty `order` is 0 |
| Leadership.CreatedDefaults | backend/routes/leadership_routes.py:285-289 | the validated form parameters give the biographies, e-mail and LinkedIn "" and `order` 0 when they are missing or empty |
| Leadership.UpdateWithImagePrecedence | backend/routes/leadership_routes.py:328-381 | errors come in the order 401, 422, 404 for an unknown id, 400 for a disallowed photo, 400 when no declared field is a non-empty text and no photo is given; each changes nothing |
| Leadership.UpdateWithImageOutcome | backend/routes/leadership_routes.py:342-384 | an update succeeds exactly when the form is valid, the id is stored, a field or a photo is given, and a photo is allowed, replaces a text `image_url` not naming a directory and is written; a non-text or directory-naming old `image_url` is a 500 that changes nothing; a failed write is a 500 after the old photo was removed; no failure changes the collection |
| Leadership.UpdateValidatedErrors | backend/routes/leadership_routes.py:342-384 | the same outcomes once the form parameters are valid, with "a field is given" read as non-empty update data |
| Leadership.UpdateWithImageChanges | backend/routes/leadership_routes.py:342-384 | a successful multipart update sets the non-empty form fields and, with a photo, `image_url` to the new URL, and the new photo replaces the old one in the directory; without a photo the directory is unchanged; every other field and record is unchanged |
| Leadership.UpdateWithImageLosesPhoto | backend/routes/leadership_routes.py:356-377 | as written, a failed photo write after the old photo was removed answers 500 while the record still names the removed file |
| Leadership.UpdateWithImageFixedProps | backend/routes/leadership_routes.py:356-377 | with the removal moved after the write, a failed write changes nothing and every other request has the handler's outcome |
| Leadership.ListLeadership | backend/routes/leadership_routes.py:174-182 | `list_leadership` as `ListSpec` with the eight defaults |
| Leadership.GetMember | backend/routes/leadership_routes.py:185-191 | `get_leadership_member` as `GetSpec` |
| Leadership.CreateMember | backend/routes/leadership_routes.py:194-200 | `create_leadership_member` as `CreateSpec` |
| Leadership.UpdateMember | backend/routes/leadership_routes.py:203-215 | `update_leadership_member` as `UpdateSpec` |
| Leadership.DeleteMember | backend/routes/leadership_routes.py:218-233 | the record and the directory become those of `DeleteMemberSpec` |
| Leadership.UploadImage | backend/routes/leadership_routes.py:237-260 | the result and the directory are those of `UploadSpec` |
| Leadership.CreateWithImage | backend/routes/leadership_routes.py:280-324 | the result, table and directory are those of `CreateWithImageSpec` |
| Leadership.UpdateWithImage | backend/routes/leadership_routes.py:328-384 | the result, table and directory are those of `UpdateWithImageSpec` |
| Leadership.ApplyUpdate | backend/routes/leadership_routes.py:342-384 | once the form is valid, the result, table and directory are those of the validated part of `UpdateWithImageSpec` |
| Forms.JoinFields | backend/routes/forms_routes.py:28-37 | a join request needs a name and a checked e-mail; `age_group` and `message` default to "" |
| Forms.DonateFields | backend/routes/forms_routes.py:59-68 | a pledge needs a name, a checked e-mail and a numeric amount; `message` defaults to "" |
| Forms.ContactRequired | backend/routes/forms_routes.py:90-103 | a contact message needs both names, a checked e-mail and the message |
| Forms.ContactDefaults | backend/routes/forms_routes.py:90-103 | phone, topic, relation and city default to "" |
| Forms.SubmitSpecProps | backend/routes/forms_routes.py:44-49 | an invalid body is a 422 that stores nothing; otherwise the response holds the fresh id, the clock reading and every declared field, and is stored after the others |
| Forms.SubmittedField | backend/routes/forms_routes.py:44-49 | a declared field without a value makes the submission a 422; a stored submission holds the field with that value |
| Forms.ListFormsNewestFirst | backend/routes/forms_routes.py:52-55 | a list holds at most 500 stored submissions, newest `created_at` first, each at most as often as stored; a stored submission left out is no newer than any listed one |
| Forms.ListFormsComplete | backend/routes/forms_routes.py:52-55 | with at most 500 stored, the list holds every submission |
| Forms.SubmitThenListFirst | backend/routes/forms_routes.py:44-55 | a submission later than every stored one heads the next list |
| Forms.ListForms | backend/routes/forms_routes.py:83-86 | the list is `ListFormsSpec` of the collection, which it does not change |
| Forms.SubmitJoin | backend/routes/forms_routes.py:44-49 | only the join collection changes, as `SubmitSpec` with the join model |
| Forms.SubmitDonate | backend/routes/forms_routes.py:75-80 | only the donate collection changes, as `SubmitSpec` with the donate model |
| Forms.SubmitContact | backend/routes/forms_routes.py:110-115 | only the contact collection changes, as `SubmitSpec` with the contact model |
| Content.ObjectIdKeyIgnoresCase | backend/routes/content_routes.py:13-24 | an ObjectId text read in either case names the same stored document |
| Content.ListMediaProps | backend/routes/content_routes.py:43-46 | the media list holds the first 200 assets in insertion order, and all of them when there are no more |
| Content.CreateMediaProps | backend/routes/content_routes.py:28-54 | a media create needs `key` and `url` (422 otherwise); the alternative texts default to ""; the asset is stored under the fresh ObjectId and returned with it |
| Content.UpdateMediaPrecedence | backend/routes/content_routes.py:57-65 | errors come in the order 401, 422, 500 for a malformed id, 404 for an unknown one; each changes nothing |
| Content.UpdateMediaChanges | backend/routes/content_routes.py:57-65 | a successful media update replaces `key`, `url` and both alternative texts, keeps the id and leaves the other assets alone |
| Content.GetContentProps | backend/routes/content_routes.py:84-101 | on an empty collection a get stores the default under the fresh id and returns it; otherwise it returns the first document and changes nothing |
| Content.GetContentTwice | backend/routes/content_routes.py:84-101 | a second get returns what the first returned and changes nothing |
| Content.HeroDefaultShown | backend/routes/content_routes.py:88-100 | the hero of an empty collection is the default, showing `hero.main` |
| Content.UpdateContentPrecedence | backend/routes/content_routes.py:104-117 | a content update is 401, then 422 for a field or id of the wrong type; an error changes nothing |
| Content.UpdateContentWithId | backend/routes/content_routes.py:104-117 | an update naming a stored document sets every content field, keeps the id, returns the re-read document and leaves the others alone |
| Content.UpdateContentIdlessFails | backend/routes/content_routes.py:104-117 | as written, a valid payload without an id is a 500 that changes nothing |
| Content.UpdateContentFixedUpserts | backend/routes/content_routes.py:104-117 | with the upsert reachable, a payload without an id sets every field on the single document, inserting it when there is none, and the next get returns it |
| Content.ListMedia | backend/routes/content_routes.py:43-46 | the list is `ListMediaSpec` of the collection |
| Content.CreateMedia | backend/routes/content_routes.py:49-54 | the result and table are those of `CreateMediaSpec` |
| Content.UpdateMedia | backend/routes/content_routes.py:57-65 | the result and table are those of `UpdateMediaSpec` |
| Content.GetHeroContent | backend/routes/content_routes.py:84-101 | the result and table are those of `GetContentSpec` with the hero default |
| Content.GetAboutContent | backend/routes/content_routes.py:135-150 | the result and table are those of `GetContentSpec` with the about default |
| Content.UpdateHeroContent | backend/routes/content_routes.py:104-117 | the result and table are those of `UpdateContentSpec` for hero content |
| Content.UpdateAboutContent | backend/routes/content_routes.py:153-165 | the result and table are those of `UpdateContentSpec` for about content |
| Js.OrElse | frontend/src/services/api.js:161-165 | `v \|\| fallback` is `v` when it is truthy and `fallback` otherwise |
| Js.ParseIntJsDecimal | frontend/src/pages/admin/AdminLeadershipPage.jsx:327 | `parseInt` reads back the decimal text of every integer |
| Js.ParseIntJsNaN | frontend/src/pages/admin/AdminLeadershipPage.jsx:327 | an emptied number box, or a text starting with neither sign, digit nor white space, gives the falsy NaN |
| Js.LocalStorage.GetItem | frontend/src/contexts/AuthContext.jsx:12 | the stored text under the key, or none exactly when it is absent |
| Js.LocalStorage.SetItem | frontend/src/contexts/AuthContext.jsx:24 | the storage becomes the old one with the key set |
| Js.LocalStorage.RemoveItem | frontend/src/contexts/AuthContext.jsx:30 | the storage becomes the old one without the key |
| Api.WithBearerIff | frontend/src/services/api.js:13-19 | `Authorization: Bearer <token>` is added exactly when a non-empty token is stored; every other header is kept |
| Api.Intercept | frontend/src/services/api.js:13-19 | the request headers become `WithBearer` of the old headers and the stored items |
| Api.DefinedEntriesSpec | frontend/src/services/api.js:176-183 | the entries appended are exactly the defined keys, in key order, each with its value's text |
| Api.UpdateFormSpec | frontend/src/services/api.js:174-190 | an update form holds exactly the defined fields, in order, with their values, and then `image` exactly when the file is truthy |
| Api.CreateFormSpec | frontend/src/services/api.js:156-172 | a create form always holds the required fields with their values, each defaulted field with its value when truthy and its fallback otherwise, and the image last when given |
| Api.FallbackTexts | frontend/src/services/api.js:160-168 | the fallbacks `''` and `0` are sent as "" and "0"; an undefined required field is sent as "undefined" |
| Api.CreateAndUpdateNames | frontend/src/services/api.js:156-190 | create and update send the same field names, in the same order |
| Api.LeadershipCreateWithImage | frontend/src/services/api.js:156-172 | the form built is `CreateForm` with the three required and five defaulted leadership fields |
| Api.LeadershipUpdateWithImage | frontend/src/services/api.js:174-190 | the form built is `UpdateForm` over the eight leadership fields |
| Api.EventCreateWithImage | frontend/src/services/api.js:99-117 | the form built is `CreateForm` with the eight event texts and `media_key`, `order` defaulted |
| Api.EventUpdateWithImage | frontend/src/services/api.js:119-137 | the form built is `UpdateForm` over the ten event fields |
| Api.GalleryCreateWithImage | frontend/src/services/api.js:54-66 | the form built is `CreateForm` with both titles and `media_key`, `order` defaulted |
| Api.GalleryUpdateWithImage | frontend/src/services/api.js:68-80 | the form built is `UpdateForm` over the four gallery fields |
| Api.LoginRequest | frontend/src/services/api.js:213-224 | the login posts `username` and `password`, in that order, form-urlencoded, to `/api/auth/login` |
| Auth.MountSignsInIff | frontend/src/contexts/AuthContext.jsx:10-19 | on a page load the admin is signed in exactly when a non-empty token is stored, always as "admin", and loading ends |
| Auth.LoginSpecProps | frontend/src/contexts/AuthContext.jsx:21-27 | a refused login changes nothing; a successful one stores the token, signs in the typed name and keeps every other stored item |
| Auth.LogoutSpecProps | frontend/src/contexts/AuthContext.jsx:29-32 | a logout signs out and removes the token, keeping every other stored item |
| Auth.LoginThenRequestAndReload | frontend/src/contexts/AuthContext.jsx:10-27 | after a login every request carries the token, and a reload keeps the admin signed in under the name "admin" |
| Auth.LogoutThenRequestAndReload | frontend/src/contexts/AuthContext.jsx:10-32 | after a logout requests carry no token and a reload signs nobody in |
| Auth.AuthProvider.Mount | frontend/src/contexts/AuthContext.jsx:10-19 | the session becomes `MountSpec` of the old one |
| Auth.AuthProvider.Login | frontend/src/contexts/AuthContext.jsx:21-27 | sends the login request; succeeds exactly when the server returned a token; the session becomes `LoginSpec` of the old one |
| Auth.AuthProvider.Logout | frontend/src/contexts/AuthContext.jsx:29-32 | the session becomes `LogoutSpec` of the old one |
| LeadershipPage.UploadedPhotoShown | frontend/src/pages/admin/AdminLeadershipPage.jsx:40-46 | the URL of an uploaded photo is shown as the server's base address followed by it |
| LeadershipPage.GetImageUrlProps | frontend/src/pages/admin/AdminLeadershipPage.jsx:40-46 | a falsy url gives ""; a url starting with `/api/` is prefixed with the base address; any other is unchanged |
| LeadershipPage.AcceptableImageIff | frontend/src/pages/admin/AdminLeadershipPage.jsx:74-91 | exactly the four image types up to 10 MiB pass: 10485760 bytes pass, 10485761 do not, and an SVG does not |
| LeadershipPage.SaveMemberNoCall | frontend/src/pages/admin/AdminLeadershipPage.jsx:93-97 | no API call is made exactly when the name or a role is empty |
| LeadershipPage.SaveMemberDispatch | frontend/src/pages/admin/AdminLeadershipPage.jsx:101-115 | an id leads to an update and none to a create, each with the multipart variant exactly when a file is selected, whose form ends with that file |
| LeadershipPage.NewMemberProps | frontend/src/pages/admin/AdminLeadershipPage.jsx:53-63 | a new member has every text field "", `order` one past the number of members and no id, and saving it unchanged makes no call |
| LeadershipPage.Page.OpenEditDialog | frontend/src/pages/admin/AdminLeadershipPage.jsx:48-68 | opens the dialog on the given member or a new one, with no file selected and the preview from its photo |
| LeadershipPage.Page.HandleChange | frontend/src/pages/admin/AdminLeadershipPage.jsx:70-72 | exactly one field of the current member changes |
| LeadershipPage.Page.HandleOrderChange | frontend/src/pages/admin/AdminLeadershipPage.jsx:325-327 | `order` becomes `parseInt` of the typed text; nothing else changes |
| LeadershipPage.Page.HandleImageUrlChange | frontend/src/pages/admin/AdminLeadershipPage.jsx:237-242 | sets `image_url` and the preview and clears the selected file |
| LeadershipPage.Page.HandleFileSelect | frontend/src/pages/admin/AdminLeadershipPage.jsx:74-91 | an acceptable file is selected; a rejected one leaves the selection as it was |
| LeadershipPage.Page.SaveMember | frontend/src/pages/admin/AdminLeadershipPage.jsx:93-126 | the call made is `SaveMemberCall` of the page state; on success the dialog closes and the file is cleared |
| LeadershipPage.Page.Cancel | frontend/src/pages/admin/AdminLeadershipPage.jsx:333-337 | closes the dialog and clears the selected file |
| ProgramsPage.ParseBulletsSpec | frontend/src/pages/admin/AdminProgramsPage.jsx:57-60 | a text is a bullet exactly when it is a non-blank line of the typed text, kept untrimmed; no bullet holds a line break or is blank |
| ProgramsPage.BulletsRoundTrip | frontend/src/pages/admin/AdminProgramsPage.jsx:190 | parsing the displayed `join('\n')` of a list without line breaks or blank entries gives the list back |
| ProgramsPage.ParseBulletsIdempotent | frontend/src/pages/admin/AdminProgramsPage.jsx:57-60 | parsing the display of a parsed list gives the same list |
| ProgramsPage.TypedLineBreakDropped | frontend/src/pages/admin/AdminProgramsPage.jsx:57-60 | as written, a typed text ending in a line break is not shown back as typed |
| ProgramsPage.TypedLineBreakExample | frontend/src/pages/admin/AdminProgramsPage.jsx:190 | typing "a" then Enter shows "a" again |
| ProgramsPage.BulletsBox.Type | frontend/src/pages/admin/AdminProgramsPage.jsx:57-60 | the box keeps the typed text and the bullets become its parse |
| ProgramsPage.BulletsBoxKeepsTyping | frontend/src/pages/admin/AdminProgramsPage.jsx:57-60 | a stored list round-trips through the box text, and a trailing line break typed into the box does not change the bullets |
| ProgramsPage.NewProgramProps | frontend/src/pages/admin/AdminProgramsPage.jsx:39-48 | a new programme has every text "", both bullet lists empty (shown as "") and `order` one past the number of programmes |
| ProgramsPage.SaveProgramDispatch | frontend/src/pages/admin/AdminProgramsPage.jsx:62-70 | an update exactly when the current programme's id is truthy, a create otherwise, with the current programme as data |
| ProgramsPage.Page.OpenEditDialog | frontend/src/pages/admin/AdminProgramsPage.jsx:35-51 | opens the dialog on the given programme or a new one |
| ProgramsPage.Page.HandleChange | frontend/src/pages/admin/AdminProgramsPage.jsx:53-55 | exactly one field of the current programme changes |
| ProgramsPage.Page.HandleBulletsChange | frontend/src/pages/admin/AdminProgramsPage.jsx:57-60 | the bullet field becomes `ParseBullets` of the typed text; nothing else changes |
| ProgramsPage.Page.SaveProgram | frontend/src/pages/admin/AdminProgramsPage.jsx:62-80 | the call made is `SaveProgramCall` of the page state; on success the dialog closes |

## Left out

- The database driver, FastAPI routing, dependency injection and response-model serialisation are not modelled. Each collection is a `Store.Collection` object passed to its handler.
- uuids, ObjectIds and `datetime.utcnow` are parameters (`freshId`, `fileUuid`, `freshOid`, `now`). Fresh ids are required not to be stored yet.
- `get_current_admin` is a boolean `admin` parameter that yields 401 before anything else. `backend/routes/auth_routes.py` (JWT signing and password hashing) is not part of this model.
- The `EmailStr` check is an opaque predicate parameter `isEmail`, since it belongs to an e-mail library.
- The donation `amount` is a float. It is kept as an opaque number value, with no arithmetic on it.
- The long texts of the default records (descriptions, bullets, biographies, summaries, photo addresses) are a `prose` parameter. The ids, titles, orders and other short fields are literal.
- Datetimes and ObjectIds are plain integers and texts. Their JSON serialisation is not modelled.
- File contents are not modelled. The upload directory is a set of file names, and a failed write is a `writeOk` parameter that leaves no file behind.
- `Leadership.FileExtension`: only ASCII letters are lower-cased, and `Path`'s normalisation is not modelled: a `.` or `..` component, and a trailing or doubled `/` (the suffix of `photo.jpg/` is `.jpg`), are taken as written.
- Schema.ValidateSpec: validation is strict: a value must already have its declared kind, so pydantic's coercions (for example a numeric text or an integral float given for an `int`, or a numeric text for a `float`) are not modelled and such bodies are 422s here.
- Schema.FieldOutcome: shares the strict kinds of `Schema.ValidateSpec`; a `Form` `int` parameter is read by `Text.ParseInt` (an optional sign and decimal digits), not by pydantic's full integer parser.
- LeadershipPage.GetImageUrl: requires a text or a falsy address, so the `TypeError` that `url.startsWith` raises on a truthy non-text is not modelled.
- `get_uploaded_leadership_image` (`backend/routes/leadership_routes.py:264-276`) only serves a file with a content type, and is not modelled.
- The three submission kinds share `Forms.ListForms` and `Forms.Submit` over separate collections. A submit's `modifies` clause names only its own collection, so the other two lists stay unchanged.
- JavaScript numbers are integers (`JNum`) or NaN. `parseInt` is modelled on decimal integer prefixes, not on radix prefixes or fractions.
- The client's HTTP transport is not modelled. `Auth.AuthProvider.Login` takes the login reply (a token or a refusal) as a parameter.
- LeadershipPage.Page.HandleFileSelect: the asynchronous `FileReader` preview is not modelled, so `previewUrl` stays as it was.
- The page reloads after a save and the delete handlers are not modelled, because each only refetches or calls a plain endpoint. The same goes for toasts and the plain API getters.
- Concurrent requests and React's batching of state updates are not modelled.

## Findings

| source | as written | input that shows it | evidently intended | confidence | as-written member | corrected member |
|---|---|---|---|---|---|---|
| backend/routes/content_routes.py:104-117 | `id` has a default factory, so `_id` is never `None` and the upsert branch is unreachable; an id-less payload matches nothing, `find_one` returns `None` and the response fails | a valid hero payload with no `id`, on a collection holding one hero document | an id-less update upserts the single document | not executed | Content.UpdateContentIdlessFails | Content.UpdateContentFixedUpserts |
| backend/routes/leadership_routes.py:356-377 | the old photo is unlinked before the new one is written; when the write fails the request is a 500 and the record still names the unlinked file | a member whose `image_url` is an uploaded file, updated with an allowed photo whose write fails | the old photo is removed only after the new one is stored | not executed | Leadership.UpdateWithImageLosesPhoto | Leadership.UpdateWithImageFixedProps |
| frontend/src/pages/admin/AdminProgramsPage.jsx:57-60 | the bullet box shows the re-joined parse of what was typed, so a trailing line break (and an empty line) vanishes as it is typed | typing "a" then Enter in a bullet box: the box shows "a" again | the box keeps the typed text and only the stored bullets are parsed | not executed | ProgramsPage.TypedLineBreakExample | ProgramsPage.BulletsBoxKeepsTyping |
