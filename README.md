# almaza backend core, modelled in Dafny

almaza is an Express and Mongoose backend. Every model gets a generic CRUD
router and controller. Beside them sit a media subsystem (uploads through
multer into GridFS or Google Cloud Storage, file streaming, listing with
signed urls), a `toJSON` transform installed on schemas, and a CORS policy.
This project models the request-handling logic of that core:

- the CRUD route table and its first-match dispatch (`CrudRoutes`);
- the dynamic list endpoint: field lists, the filter document built from
  query keys, sort, skip, the items query, totals and the response (`BulkRead`);
- the single-item readers: by id, by slug, by field, one field by id (`SingleRead`);
- the media categories, the file filter and the size limit (`MediaTypes`);
- the stored-file name and its sanitiser (`UploadNames`);
- the Media collection's upsert, the upload routing with its cloud
  fallback, and the `dynamicUpload` middleware (`MediaStore`);
- the media routes: MIME type, `encodeURI` of the download name, the three
  file routes, fetch by id and the paged list with signed urls (`MediaRoutes`);
- the ordered `toJSON` transform (`ToJson`);
- the CORS origin check and its error handler (`Cors`).

Supporting modules:

- `Json` and `Http`: JavaScript values, truthiness and responses.
- `FilterDoc`: MongoDB filter documents.
- `Text`: ASCII lower-casing, split and join, decimal digits, UTF-16 length.
- `PathName`: `path.basename` and `path.extname`.
- `Wrappers`: `Option` and `Result`.

Databases, cloud storage, multer's parser, the signed-url generator, the
clock and the random source are parameters. Each is an oracle function or
a value passed in. A database lookup may fail, and the media fetch and list
routes, like the CRUD readers, take its result as a `Result`. What the model
states is what the handlers do with the answers.

Where pure JavaScript logic is a computation, it is a function. Where the
source mutates state, it is imperative Dafny:

- The Media collection is a class whose methods update its records.
- `buildFilters` and the `toJSON` transform, which loop and mutate a local
  object, are methods with loop invariants, proved equal to their
  specification functions.
- The CORS origin callback, which builds a list and pushes onto it, is a method.

## Model

| member | source | states |
|---|---|---|
| CrudRoutes.Bind | routes/crudRoutes.js:7-31 | exactly the pattern's named parameters are bound; each is bound to the segment at its last position in the pattern, so a later parameter of the same name overrides an earlier one |
| CrudRoutes.FirstMatch | routes/crudRoutes.js:7-31 | the chosen route is the first, in declaration order, whose verb and pattern take the request; no earlier one does |
| CrudRoutes.Dispatch | routes/crudRoutes.js:7-31 | nothing is dispatched exactly when no route takes the verb (HEAD served as GET) and path; otherwise the first route that takes it runs, with its pattern's parameters bound from the path |
| CrudRoutes.GetRoutes | routes/crudRoutes.js:7-9 | GET with no segment lists items; one segment fetches by `_id`; two go to the key/value handler; longer paths match nothing |
| CrudRoutes.BulkUpdatesGoToItemRoutes | routes/crudRoutes.js:26-31 | PUT, PATCH and DELETE on `/bulk` reach the single-item handlers with id "bulk", because `/:id` is declared first |
| CrudRoutes.ManyUpdatesUnreachable | routes/crudRoutes.js:26-31 | no request can reach updateManyItems or deleteManyItems |
| CrudRoutes.BulkCreateReachable | routes/crudRoutes.js:24-25 | POST `/bulk`, in any letter case, reaches createManyItems |
| CrudRoutes.KeyValueChoice | routes/crudRoutes.js:9-23 | a valid ObjectId key reads the field named by the value by id; otherwise a bound, valid `slug` reads that item by id; otherwise the item is read by field, with the parameters unchanged |
| CrudRoutes.SlugBranchDead | routes/crudRoutes.js:9-23 | `/:key/:value` binds no `slug`, and `isValid(undefined)` is false, so the by-slug branch never runs: an id key reads a field, any other key reads by field |
| CrudRoutes.KeyValueFromRouter | routes/crudRoutes.js:9-15 | `GET /<id>/<field>` with a valid id reaches getFieldById with `_id` and `field` set from the path |
| BulkRead.ValidFields | controllers/crud/bulk/read.js:21-30 | a field is valid exactly when it is in the given list (by default the schema paths except `_id` and `__v`) and not excluded |
| BulkRead.FilterEntries | controllers/crud/bulk/read.js:2-14 | the filters are exactly the query pairs whose key is none of the ten reserved parameters; a query with no reserved key is kept unchanged, order included |
| BulkRead.FilterEntriesInOrder | controllers/crud/bulk/read.js:2-14 | the rest object keeps the query's order: filtering a concatenation concatenates the filtered parts |
| BulkRead.FilterEntriesOfOne | controllers/crud/bulk/read.js:2-14 | a single pair is kept exactly when its key is not reserved |
| BulkRead.OrClausesOnePerStringField | controllers/crud/bulk/read.js:80-87 | one `$or` clause per searchable String field, in field order, each a case-insensitive regex on the search target |
| BulkRead.SearchTargetLocalizedIffInSchema | controllers/crud/bulk/read.js:83-86 | the clause targets `<field>.<language>` exactly when that path is in the schema, and the field itself otherwise |
| BulkRead.KeywordLengthLimit | controllers/crud/bulk/read.js:79-90 | a keyword whose length in UTF-16 code units exceeds the limit fails with the length message; one within it succeeds |
| BulkRead.AstralKeywordCountsTwice | controllers/crud/bulk/read.js:79-89 | sixty emoji are 120 code units, so with a limit of 100 they are refused |
| BulkRead.KeywordBuildsOr | controllers/crud/bulk/read.js:79-87 | a keyword within the limit puts the `$or` of the clauses into the filter, and later filter keys do not disturb it |
| BulkRead.NoKeywordNoOr | controllers/crud/bulk/read.js:77-90 | without a keyword the filter has no `$or` |
| BulkRead.FieldNameLowersFirstLetter | controllers/crud/bulk/read.js:94 | the field a prefixed key names is the rest of the key with its first letter lower-cased |
| BulkRead.BuildFilters | controllers/crud/bulk/read.js:76-133 | the loop yields the filter specification; every key of the result is a schema path or `$or` |
| BulkRead.ApplyFilterKeys | controllers/crud/bulk/read.js:92-130 | one filter entry keeps every existing key and adds only schema paths |
| BulkRead.FiltersKeys | controllers/crud/bulk/read.js:92-130 | after all entries every key was there before or is a schema path |
| BulkRead.FiltersKeepOr | controllers/crud/bulk/read.js:92-130 | filter entries never add, remove or change `$or` |
| BulkRead.MinMaxSetsBound | controllers/crud/bulk/read.js:93-102 | `min<F>` / `max<F>` on a range-typed field writes `$gte` / `$lte` with a Date or Number operand into that field's condition and changes no other key |
| BulkRead.MinAndMaxCoexist | controllers/crud/bulk/read.js:93-102 | a min and a max on the same field combine into a single `{ $gte, $lte }` condition |
| BulkRead.MinMaxOnOtherTypeLeavesEmpty | controllers/crud/bulk/read.js:96-102 | a bound on a schema field of another type leaves an empty condition object under the field |
| BulkRead.MoreLessReplaces | controllers/crud/bulk/read.js:104-109 | `more<F>` / `less<F>` replaces the field's condition with a single `$size` / `$lt` |
| BulkRead.DirectKeyShaped | controllers/crud/bulk/read.js:110-120 | a schema key becomes a boolean for Boolean, a regex for String, not-exists for Null/Undefined, and the raw value otherwise |
| BulkRead.PrefixShadowsField | controllers/crud/bulk/read.js:93-110 | a min/max key whose field is not in the schema is ignored, even if the key itself is a schema path |
| BulkRead.ContainsOnlyForNonSchemaKeys | controllers/crud/bulk/read.js:110-129 | a `contains<F>` key that is itself a schema path is treated as a direct key; otherwise it sets a regex only on fields of the contains types |
| BulkRead.UnknownKeyIgnored | controllers/crud/bulk/read.js:92-130 | any other key leaves the filter unchanged |
| BulkRead.FiltersInOrder | controllers/crud/bulk/read.js:92-130 | the entries are applied one after another in order: applying a concatenation applies the first part, then the second |
| BulkRead.QueryPairsApplyInOrder | controllers/crud/bulk/read.js:2-130 | the filter from the query pairs `a + b` is the filter from `a`, further refined by the pairs of `b` |
| BulkRead.BuildSort | controllers/crud/bulk/read.js:137-143 | the sort is non-empty exactly when the field is given and sortable; its one entry is 1 for "asc" and -1 otherwise |
| BulkRead.SortNeverIdVersionOrExcluded | controllers/crud/bulk/read.js:21-36 | by default the sort never names `_id`, `__v` or an excluded field |
| BulkRead.SkipOf | controllers/crud/bulk/read.js:39 | with no offset the skip is `(page - 1) * limit`; a query-string offset is the skip's first part, and the rest is the decimal text of the product |
| BulkRead.SkipTextTail | controllers/crud/bulk/read.js:39 | from page 1 on, the text after the offset reads back as `(page - 1) * limit` |
| BulkRead.SkipConcatenatesOffset | controllers/crud/bulk/read.js:39 | `offset=5` on page 2 with limit 10 skips the text "510" |
| BulkRead.PlanFilterFromQuery | controllers/crud/bulk/read.js:33-54 | the items query fails exactly when building the filter from the query string's non-reserved pairs fails, with that error; otherwise every query runs on that filter |
| BulkRead.PlanUsesSchemaFieldsOnly | controllers/crud/bulk/read.js:42-54 | distinct and group-by queries use only the given schema field; the paged find uses the default skip |
| BulkRead.NonSchemaDistinctStillSwitchesTotal | controllers/crud/bulk/read.js:43-65 | a distinct field that is not a schema path falls through to the paged find, yet total is still the number of items |
| BulkRead.ReadItemsOutcome | controllers/crud/bulk/read.js:56-72 | 200 exactly when the plan, the items query and the count succeed, with the items, the total, `page`, `limit` and `Number(offset)`; otherwise 500 "Error fetching <model>s" with the first error: the plan's, else the items query's, else the count's |
| BulkRead.KeywordTooLongIs500 | controllers/crud/bulk/read.js:88-90 | a keyword over the limit in UTF-16 code units is answered 500 with the length message |
| SingleRead.ToNumber | controllers/crud/single/read.js:52 | `Number("")` is 0, and a non-NaN result comes only from digits with an optional sign |
| SingleRead.NumberOfDecimal | controllers/crud/single/read.js:63 | converting the decimal text of a natural number gives that number back |
| SingleRead.ReadItemOutcome | controllers/crud/single/read.js:3-34 | by id and by slug: 404 exactly when absent, 200 exactly when found, 500 exactly when the lookup fails |
| SingleRead.EffectiveLimit | controllers/crud/single/read.js:56-68 | the chain has no limit exactly when every step is a sort |
| SingleRead.LastLimitWins | controllers/crud/single/read.js:58-68 | `single` forces a limit of 1 whatever `limit` says; otherwise `Number(limit)` applies when given |
| SingleRead.SampleSizeDefaults | controllers/crud/single/read.js:49-54 | an absent, empty, "0" or non-numeric limit samples one item; "3" samples three |
| SingleRead.FieldLookupShape | controllers/crud/single/read.js:49-71 | `sort=rand` samples; otherwise a find on `{ key: value }`, limited to one item when `single` is set |
| SingleRead.ReadItemByFieldOutcome | controllers/crud/single/read.js:36-84 | 400 with the allowed list exactly when a non-empty list lacks the key; 404 on no match; 500 "Error fetching <model>" when the lookup fails; one object with `single`, else an array of every match in order |
| SingleRead.ReadFieldByIdOutcome | controllers/crud/single/read.js:86-110 | 400 with the not-found message exactly when the field is not a schema path; 500 "Error fetching <model>" when the lookup fails; 404 when absent; 200 with an object holding only that field |
| MediaTypes.GetMediaTypeTotal | middlewares/uploadFilesMiddleware.js:43-48 | every extension classifies as one of the four categories or "unknown" |
| MediaTypes.GetMediaTypeIgnoresCase | middlewares/uploadFilesMiddleware.js:43-48 | extensions differing only in letter case classify alike |
| MediaTypes.UnknownIffUnlisted | middlewares/uploadFilesMiddleware.js:43-48 | "unknown" exactly when no category lists the lower-cased extension |
| MediaTypes.ExtensionListsDisjoint | middlewares/uploadFilesMiddleware.js:19-40 | no extension is listed under two categories |
| MediaTypes.ListedExtensionClassified | middlewares/uploadFilesMiddleware.js:19-48 | an extension listed under a category classifies as that category |
| MediaTypes.UnknownCategoryLookups | middlewares/uploadFilesMiddleware.js:51-57 | an unknown category has no MIME types and a size limit of 0 |
| MediaTypes.MaxLimit | middlewares/uploadFilesMiddleware.js:100 | the upload limit is at least every category's limit and equal to one of them |
| MediaTypes.UploadLimitIsVideoLimit | middlewares/uploadFilesMiddleware.js:28 | the multer limit is the video limit, 2 GiB, the largest of the four |
| MediaTypes.FileFilterDecision | middlewares/uploadFilesMiddleware.js:60-75 | unknown types are rejected as invalid; a size above the category limit is rejected; a size at the limit or absent passes |
| UploadNames.SanitizeAsWritten | middlewares/uploadFilesMiddleware.js:92 | the replacement as written has one character for each UTF-16 code unit of the name |
| UploadNames.Sanitize | middlewares/uploadFilesMiddleware.js:92 | the corrected replacement has one character for each UTF-16 code unit of the name |
| UploadNames.AsWrittenConcat | middlewares/uploadFilesMiddleware.js:92 | the replacement as written works character by character: it distributes over concatenation |
| UploadNames.SanitizeConcat | middlewares/uploadFilesMiddleware.js:92 | the corrected replacement distributes over concatenation |
| UploadNames.SanitizeAt | middlewares/uploadFilesMiddleware.js:92 | the name's character i lands at the offset of its code units: kept when its class admits it, '_' otherwise, for both classes |
| UploadNames.SanitizeInPlace | middlewares/uploadFilesMiddleware.js:92 | on a name inside the Basic Multilingual Plane the length is kept and each character is kept or replaced in place |
| UploadNames.SanitizeAlphabet | middlewares/uploadFilesMiddleware.js:92 | every character of either result is one its class admits |
| UploadNames.KeptUnchanged | middlewares/uploadFilesMiddleware.js:92 | a name made only of admitted characters is left unchanged |
| UploadNames.AstralBecomesTwoUnderscores | middlewares/uploadFilesMiddleware.js:92 | without the `u` flag each half of a surrogate pair is replaced: "\u{1F600}.png" becomes "__.png" with either class |
| UploadNames.AsWrittenKeepsSlashReplacesHyphen | middlewares/uploadFilesMiddleware.js:92 | the class as written turns "my-photo.png" into "my_photo.png" and "../a-b" into "../a_b": it replaces '-' and keeps '/' |
| UploadNames.AsWrittenReplacesHyphen | middlewares/uploadFilesMiddleware.js:92 | as written, a hyphen between lower-case names (dots allowed) becomes '_' and nothing else changes |
| UploadNames.SanitizeOutputAlphabet | middlewares/uploadFilesMiddleware.js:92 | corrected output holds only allowed characters, never '/' or '\\'; at its offset a character is unchanged exactly when it is allowed |
| UploadNames.SanitizeIdempotent | middlewares/uploadFilesMiddleware.js:92 | sanitising twice equals sanitising once, for both classes |
| UploadNames.StoredFileNameShape | middlewares/uploadFilesMiddleware.js:93 | with the corrected sanitiser, the stored name is the timestamp digits, '-', and the sanitised name (one character per code unit of the original), with no '/' |
| UploadNames.StoredFileNameAsWrittenShape | middlewares/uploadFilesMiddleware.js:92-93 | as written, the stored name is the timestamp digits, '-', and the as-written sanitised name; a '/' in the original name survives and every '-' in it becomes '_' at the offset of its code units |
| PathName.Basename | routes/media.js:79 | the base name is the longest suffix without '/' of the path stripped of its trailing separators |
| PathName.ExtName | middlewares/uploadFilesMiddleware.js:61 | empty exactly for a base name that is empty, "..", or has no '.' after its first character; otherwise the suffix of the base name from its last '.' |
| MediaStore.FindByUrl | middlewares/uploadFilesMiddleware.js:110 | the first record with the url, or none exactly when no record has it |
| MediaStore.FindById | middlewares/uploadFilesMiddleware.js:246 | a found record is in the collection with that id; no id finds nothing |
| MediaStore.UpsertExisting | middlewares/uploadFilesMiddleware.js:110-115 | a known url updates that record in place, merges the new fields, returns its id and leaves every other record alone |
| MediaStore.UpsertNew | middlewares/uploadFilesMiddleware.js:116-121 | an unknown url appends one record with a fresh id no record had |
| MediaStore.UpsertKeepsIds | middlewares/uploadFilesMiddleware.js:108-122 | ids stay distinct and the returned id names a record with the url |
| MediaStore.UpsertKeepsUrlsUnique | middlewares/uploadFilesMiddleware.js:108-122 | urls stay unique, and exactly one record holds the upserted url |
| MediaStore.UpsertTwiceSameId | middlewares/uploadFilesMiddleware.js:108-122 | upserting the same data twice returns the same id and adds nothing the second time |
| MediaStore.FindByIdFindsRecord | middlewares/uploadFilesMiddleware.js:246 | with distinct ids a record is found by its own id |
| MediaStore.UpsertedRecordFound | middlewares/uploadFilesMiddleware.js:249-250 | the record an upsert returns is found again by its id, with the url |
| MediaStore.RoutingDecision | middlewares/uploadFilesMiddleware.js:165-224 | no buffer and no path fails first; video goes to cloud storage, the rest to GridFS under `/uploads/<type>/<name>`; a failed primary upload or a failed record of it falls back to the cloud; a failed fallback upload or record is the both-failed error |
| MediaStore.MediaDataDefaults | middlewares/uploadFilesMiddleware.js:172-179 | without body values the record takes the original name, empty alt text and the detected type, and has five attributes besides the url |
| MediaStore.DynamicUploadBranches | middlewares/uploadFilesMiddleware.js:231-253 | the field defaults to "file"; a file is processed; otherwise a body url is upserted; otherwise the request passes on |
| MediaStore.MediaCollection.CreateOrUpdate | middlewares/uploadFilesMiddleware.js:108-122 | a failing query returns its error and changes nothing; otherwise the collection becomes the upsert of its old state and keeps url uniqueness |
| MediaStore.MediaCollection.ProcessFileUpload | middlewares/uploadFilesMiddleware.js:157-226 | per route: the two errors change nothing; a stored primary upload keeps its record but returns no id; a fallback stores its record and returns its id |
| MediaStore.MediaCollection.DynamicUpload | middlewares/uploadFilesMiddleware.js:230-260 | parser errors, upload errors and a failed url-only write are 500 and change neither the records nor the id counter; pass-on changes nothing; otherwise the record is stored, and a failed `findById` is then 500; else a body url or a fallback upload answers 201 with the stored record and a primary upload 201 with null media |
| MediaRoutes.MimeTypeOfCategories | routes/media.js:10-13 | the served types of image, video, audio and file, and the default for anything else |
| MediaRoutes.Utf8 | routes/media.js:79 | one to four bytes by code point range, with a lead byte announcing the length and continuation bytes in 0x80 to 0xBF; decoding the bytes gives the code point back |
| MediaRoutes.PercentBytes | routes/media.js:79 | three characters per byte: '%' then two upper-case hex digits whose value is the byte |
| MediaRoutes.EncodeChar | routes/media.js:79 | the escape of a character uses only URI characters, and contains '/' only for '/' |
| MediaRoutes.EncodeURIConcat | routes/media.js:79 | encoding distributes over concatenation |
| MediaRoutes.EncodeURIAlphabet | routes/media.js:79 | the encoded text consists of URI characters only |
| MediaRoutes.EncodeURIKeepsNoSlash | routes/media.js:79 | a name without '/' encodes to text without '/' |
| MediaRoutes.EncodeURIKeepsPlainNames | routes/media.js:79 | names of letters, digits and safe punctuation are unchanged |
| MediaRoutes.EncodeURIEscapesSpace | routes/media.js:79 | a space between plain names becomes `%20` |
| MediaRoutes.EncodeURIEscapesTwoBytes | routes/media.js:79 | "é" becomes its UTF-8 escape `%C3%A9` |
| MediaRoutes.DownloadNameSafe | routes/media.js:79-81 | the download name has no '/', quote or line break, so the disposition header's quoted value is closed only by its final quote |
| MediaRoutes.ServeFileOutcome | routes/media.js:16-100 | a stream exactly when the name decodes and the file exists, under the category's MIME type, with a disposition only for downloads; missing is 404; a bad escape is 500 |
| MediaRoutes.ListQuery | routes/media.js:132-142 | mediaType is filtered only when given; a search gives a case-insensitive `$or` on fileName and altText; no other keys |
| MediaRoutes.Pages | routes/media.js:167 | pages is a number exactly when the limit is non-zero |
| MediaRoutes.PagesIsCeiling | routes/media.js:167 | with a positive limit, pages is the least page count holding the total |
| MediaRoutes.ListDefaults | routes/media.js:129-167 | page 1 and limit 10 by default: nothing skipped, 10 items fill one page, 11 two |
| MediaRoutes.SignedUrlChoice | routes/media.js:112-115 | non-video records get their stored url as signedUrl; videos get it signed from the fileName; all other fields are kept |
| MediaRoutes.SignAll | routes/media.js:151-159 | every item signed in order, or a failure exactly when some signing fails |
| MediaRoutes.GetMedia | routes/media.js:103-125 | a failed lookup is 500; absent is 404 "Media not found"; found and signed is 200 with the record; a failed signing is 500 |
| MediaRoutes.ListMediaShape | routes/media.js:128-173 | 200 exactly when the find, the count and every signing succeed, with the signed items in order, the total, the page (1 by default) and the pages for the limit in force (the ceiling of total over 10 by default, null for a zero limit); otherwise 500 |
| ToJson.Transform | middlewares/applyToJson.js:3-44 | the loop builds exactly the transformed object |
| ToJson.SetKeys | middlewares/applyToJson.js:19 | assigning a property keeps an existing key in place and appends a new one |
| ToJson.AssignAllKeys | middlewares/applyToJson.js:32 | `Object.assign` appends the source's new keys after the target's, in order |
| ToJson.OtherPropsShape | middlewares/applyToJson.js:10-29 | the forEach copies exactly the copied paths, in schema order, with their values |
| ToJson.TransformedShape | middlewares/applyToJson.js:4-43 | keys are `_id`, then the copied paths, then the truthy trailing fields not yet present; every value is the document's |
| ToJson.TransformedFirstAndDistinct | middlewares/applyToJson.js:4-5 | `_id` comes first and no key repeats |
| ToJson.TransformedKeys | middlewares/applyToJson.js:10-43 | a key is present exactly when it is `_id`, a copied schema path, or a truthy trailing field; `__v` never is |
| ToJson.UndefinedPathStillCopied | middlewares/applyToJson.js:19 | a copied path the document lacks is still present, as undefined |
| ToJson.SchemaOrderKept | middlewares/applyToJson.js:10-32 | two copied paths appear in schema order |
| Cors.AllowedOrigins | server.js:13-17 | the configured list ends with the local development origin |
| Cors.CheckOrigin | server.js:12-24 | an origin passes exactly when it is absent, listed in CORS_ORIGIN, or the local development origin |
| Cors.UnsetAllowsOnlyLocalhost | server.js:13-20 | with CORS_ORIGIN unset or empty only the local origin, or no origin, passes |
| Cors.EntriesNotTrimmed | server.js:14-19 | entries are not trimmed: with "a, b" the origin "b" is refused |
| Cors.SingleTrailingLocalhost | server.js:13-17 | each check sees the configured entries and exactly one local origin |
| Cors.HandleError | server.js:50-55 | only the CORS rejection becomes 403 "CORS policy violation."; other errors pass on unchanged |
| Cors.DisallowedOriginIs403 | server.js:12-55 | a refused origin is answered 403; an allowed one reaches the routes |
| Text.Split | server.js:14 | a split yields at least one piece and no piece holds the separator |
| Text.JoinSplit | server.js:14 | joining the pieces with the separator gives the original string back |
| Text.Utf16Length | controllers/crud/bulk/read.js:79-88 | a one-character string is one code unit inside the Basic Multilingual Plane and two outside; bounds and the two uniform cases |
| Text.Utf16LengthConcat | controllers/crud/bulk/read.js:79-88 | the length of a concatenation is the sum of the lengths, which with the one-character values fixes every length |

## Left out

- Streams, the GridFS bucket and Google Cloud Storage are oracles: an upload's outcome, a file's existence and a lookup's result are inputs.
- The signed-url generator is an oracle that may fail.
- Multer's storage, directory creation and stream parsing are left out. Its outcome, including a file-filter rejection, arrives through the parse oracle.
- `decodeURIComponent` is an input; None stands for the URIError it throws.
- The clock and `Math.random` behind slugs and stored names are parameters (`Seed`, `now`).
- MediaStore.MediaCollection.CreateOrUpdate: a failing `findOne`, `updateOne` or `save` is an input error, and the collection is then taken to be unchanged, since each writes one document or none. The `findById` that follows a stored record may fail too (MediaStore.MediaCollection.DynamicUpload).
- `Promise.all` runs the items query and the count concurrently. When both fail, the model reports the items query's error, whichever failed first.
- `toLowerCase` is modelled for ASCII letters only.
- `Number()` is modelled for integers only: no whitespace, decimals, exponents, hex or Infinity.
- In the list filter, `Number(...)` and `new Date(...)` stay symbolic operands, and `$regex` matching has no semantics.
- BulkRead.ReadItems: `page` and `limit` enter as their numeric values. The raw limit text is kept for the queries, but answering NaN for a non-numeric page is not modelled.
- MediaRoutes.ListMedia: page and limit are taken as numbers; query-string coercion is not modelled. The find and the count are lookup results that may fail.
- BulkRead.FieldName counts characters, not UTF-16 code units. It agrees with JavaScript: the prefixes are ASCII, so `slice(n)` cuts the same place. A `charAt(0)` that splits a surrogate pair leaves the lone half unchanged under `toLowerCase`, and `slice(n + 1)` puts the pair back together.
- BulkRead.PlanItems: the reserved parameters enter already parsed, as ListParams. Only the filters come from the raw query pairs.
- JavaScript places integer-like keys ahead of other keys in an object. The `toJSON` transform's ordered model ignores this. Filter documents are maps, without key order.
- JSON serialisation dropping undefined values is not modelled.
- SingleRead.ItemResponse, SingleRead.ReadItemByField and SingleRead.ReadFieldById answer with the document as looked up. On schemas with the `toJSON` transform installed, `res.json` serialises through that transform (modelled on its own in `ToJson`), so a lookup's document stands for its serialised form.
- Strings are sequences of Unicode scalar values, so a name holding a lone surrogate cannot be expressed.
- Only HEAD-as-GET is modelled of Express's method handling. Mount prefixes are left out: paths start below the router.
- Query-string values that are arrays (repeated keys) are not modelled.
- Mongoose schema declarations, connection handling and the controller wiring of each model are left out. Each enters only as the paths and types the handlers read.
- Dotted nested schema paths are treated as plain names.

## Findings

| source | as written | input that shows it | evidently intended | confidence | as-written member | corrected member |
|---|---|---|---|---|---|---|
| middlewares/uploadFilesMiddleware.js:92 | `[^a-zA-Z0-9.-_]` reads `.-_` as a character range from '.' to '_', which admits '/', the digits, ':' to '@', the capitals and '[' to '^', and excludes '-' | "my-photo.png" is stored as "<now>-my_photo.png": the hyphen is replaced. A '/' that reached the sanitiser would be kept ("../a-b" gives "../a_b"), but multer is configured without `preservePath` (lines 98-102) and probably strips directories first | keep letters, digits, '.', '-' and '_'; replace everything else, '/' included | high, not executed | UploadNames.AsWrittenKeepsSlashReplacesHyphen | UploadNames.SanitizeOutputAlphabet |

Two further observations about the routing are properties, not corrections. `PUT`, `PATCH` and `DELETE` on `/bulk` reach the single-item handlers, so the bulk update and delete handlers are unreachable (CrudRoutes.ManyUpdatesUnreachable). A successful primary upload returns no id, so `dynamicUpload` answers 201 with null media (MediaStore.MediaCollection.DynamicUpload). The model keeps both as written.
