/** The media collection and the upload pipeline of the upload middleware
    (middlewares/uploadFilesMiddleware.js): `createOrUpdateMedia` (upsert by
    url), `processFileUpload` (primary storage, then the cloud fallback) and
    the branches of `dynamicUpload`. The storage back-ends and the multipart
    parser are outcome oracles passed in; the clock and the random draw of a
    slug are passed in too. */
module MediaStore {
  import opened Wrappers
  import opened Text
  import opened Json
  import opened Http
  import opened PathName
  import opened MediaTypes

  /** One media document: its id, its url and its other fields. */
  datatype Media = Media(id: nat, url: Value, attrs: Doc)

  /** What a create-or-update call carries: the url it is keyed by and the other fields. */
  datatype MediaData = MediaData(url: Value, attrs: Doc)

  /** `Media.findOne({ url })`: the position of the first record with that url. */
  function FindByUrl(records: seq<Media>, url: Value): (r: Option<nat>)
    ensures r.None? ==> forall i :: 0 <= i < |records| ==> records[i].url != url
    ensures r.Some? ==> r.value < |records| && records[r.value].url == url &&
                        forall j :: 0 <= j < r.value ==> records[j].url != url
  {
    if records == [] then None
    else if records[0].url == url then Some(0)
    else match FindByUrl(records[1..], url)
         case None => None
         case Some(i) => Some(i + 1)
  }

  /** `Media.findById(id)`; an absent id finds nothing. */
  function FindById(records: seq<Media>, id: Option<nat>): (r: Option<Media>)
    ensures r.Some? ==> id.Some? && r.value in records && r.value.id == id.value
    ensures id.None? ==> r.None?
  {
    if id.None? || records == [] then None
    else if records[0].id == id.value then Some(records[0])
    else FindById(records[1..], id)
  }

  /** `updateOne({ _id }, data)`: the data's fields overwrite the record's. */
  function Updated(m: Media, data: MediaData): Media {
    Media(m.id, data.url, m.attrs + data.attrs)
  }

  /** `createOrUpdateMedia`: the records afterwards, the next free id, and the id returned. */
  function Upsert(records: seq<Media>, nextId: nat, data: MediaData): (seq<Media>, nat, nat) {
    match FindByUrl(records, data.url)
    case Some(i) => (records[i := Updated(records[i], data)], nextId, records[i].id)
    case None => (records + [Media(nextId, data.url, data.attrs)], nextId + 1, nextId)
  }

  /** Ids are distinct and below the next id to be handed out. */
  ghost predicate IdsValid(records: seq<Media>, nextId: nat) {
    (forall i :: 0 <= i < |records| ==> records[i].id < nextId) &&
    (forall i, j :: 0 <= i < j < |records| ==> records[i].id != records[j].id)
  }

  /** No url is held by two records. */
  ghost predicate UniqueUrls(records: seq<Media>) {
    forall i, j :: 0 <= i < j < |records| ==> records[i].url != records[j].url
  }

  /** The media record `processFileUpload` (and the url-only branch) answers with. */
  function MediaValue(m: Option<Media>): Value {
    match m
    case None => Null
    case Some(r) => Obj(r.attrs["_id" := Num(r.id)]["url" := r.url])
  }

  // ---------------------------------------------------------- upsert facts

  /** A url already present: that record is updated, its id returned, and the
      number of records is unchanged. */
  lemma UpsertExisting(records: seq<Media>, nextId: nat, data: MediaData, i: nat)
    requires FindByUrl(records, data.url) == Some(i)
    ensures var (after, next, id) := Upsert(records, nextId, data);
            |after| == |records| && next == nextId && id == records[i].id &&
            after[i] == Media(records[i].id, data.url, records[i].attrs + data.attrs) &&
            forall j :: 0 <= j < |records| && j != i ==> after[j] == records[j]
  {
  }

  /** A new url: exactly one record is appended, under a fresh id that is returned. */
  lemma UpsertNew(records: seq<Media>, nextId: nat, data: MediaData)
    requires IdsValid(records, nextId)
    requires FindByUrl(records, data.url).None?
    ensures var (after, next, id) := Upsert(records, nextId, data);
            after == records + [Media(id, data.url, data.attrs)] && next == nextId + 1 &&
            forall j :: 0 <= j < |records| ==> records[j].id != id
  {
  }

  /** The store stays well formed, and the returned id is that of a record
      holding the url. */
  lemma UpsertKeepsIds(records: seq<Media>, nextId: nat, data: MediaData)
    requires IdsValid(records, nextId)
    ensures var (after, next, id) := Upsert(records, nextId, data);
            IdsValid(after, next) &&
            exists k :: 0 <= k < |after| && after[k].id == id && after[k].url == data.url
  {
    var (after, next, id) := Upsert(records, nextId, data);
    match FindByUrl(records, data.url)
    case Some(i) =>
      assert after[i].id == id && after[i].url == data.url;
    case None =>
      assert after[|records|].id == id;
  }

  /** Upserting keeps urls unique, and afterwards exactly one record holds the url. */
  lemma UpsertKeepsUrlsUnique(records: seq<Media>, nextId: nat, data: MediaData)
    requires UniqueUrls(records)
    ensures var after := Upsert(records, nextId, data).0;
            UniqueUrls(after) &&
            (exists k :: 0 <= k < |after| && after[k].url == data.url) &&
            forall j, k :: 0 <= j < |after| && 0 <= k < |after| && after[j].url == data.url && after[k].url == data.url ==> j == k
  {
    var after := Upsert(records, nextId, data).0;
    match FindByUrl(records, data.url)
    case Some(i) =>
      assert after[i].url == data.url;
    case None =>
      assert after[|records|].url == data.url;
  }

  /** Upserting the same data twice adds at most one record and returns the same id. */
  lemma UpsertTwiceSameId(records: seq<Media>, nextId: nat, data: MediaData)
    ensures var (a1, n1, id1) := Upsert(records, nextId, data);
            var (a2, n2, id2) := Upsert(a1, n1, data);
            id2 == id1 && |a2| == |a1| && n2 == n1
  {
    var (a1, n1, id1) := Upsert(records, nextId, data);
    match FindByUrl(records, data.url)
    case Some(i) =>
      var k := FindByUrl(a1, data.url);
      assert a1[i].url == data.url;
      assert k.Some? && k.value <= i;
    case None =>
      var k := FindByUrl(a1, data.url);
      assert a1[|records|].url == data.url;
      assert k.Some?;
  }

  /** With distinct ids, finding by a record's id finds that record. */
  lemma {:induction false} FindByIdFindsRecord(records: seq<Media>, k: nat)
    requires k < |records|
    requires forall i, j :: 0 <= i < j < |records| ==> records[i].id != records[j].id
    ensures FindById(records, Some(records[k].id)) == Some(records[k])
  {
    if k > 0 {
      assert records[0].id != records[k].id;
      FindByIdFindsRecord(records[1..], k - 1);
    }
  }

  /** After an upsert, looking the returned id up finds the record holding the
      url, so a response built from it is never null. */
  lemma UpsertedRecordFound(records: seq<Media>, nextId: nat, data: MediaData)
    requires IdsValid(records, nextId)
    ensures var (after, _, id) := Upsert(records, nextId, data);
            var m := FindById(after, Some(id));
            m.Some? && m.value.id == id && m.value.url == data.url
  {
    UpsertKeepsIds(records, nextId, data);
    var (after, next, id) := Upsert(records, nextId, data);
    var k :| 0 <= k < |after| && after[k].id == id && after[k].url == data.url;
    FindByIdFindsRecord(after, k);
  }

  // ------------------------------------------------------------- uploads

  /** The file multer hands over: `buffer` (present or not), `path`, `originalname`, `mimetype`. */
  datatype UploadedFile = UploadedFile(originalname: string, mimetype: string, hasBuffer: bool, path: Option<string>)

  /** What a cloud-storage upload ends in: the public url, or a failure. */
  datatype CloudOutcome = CloudOk(publicUrl: string) | CloudFailed

  /** A clock reading and `Math.floor(Math.random() * 10000)`, for one slug. */
  datatype Seed = Seed(now: nat, draw: nat)

  /** The outcomes of the storage back-ends for one upload, the slug seeds of
      its two attempts, and the error, if any, that `createOrUpdateMedia`
      raises after the primary and after the fallback upload (a failing
      `findOne`, `updateOne` or `save`). */
  datatype Backends = Backends(gridFsOk: bool, cloudPrimary: CloudOutcome, cloudFallback: CloudOutcome,
                               primarySeed: Seed, fallbackSeed: Seed,
                               primaryWrite: Option<string>, fallbackWrite: Option<string>)

  /** The media type `processFileUpload` works with. */
  function UploadMediaType(file: UploadedFile): string {
    GetMediaType(Lower(ExtName(file.originalname)))
  }

  /** `generateSlug(type)`. */
  function Slug(mediaType: string, seed: Seed): string {
    mediaType + "-" + NatToDecimal(seed.now) + "-" + NatToDecimal(seed.draw)
  }

  /** `user?.id || null`. */
  function Owner(user: Option<Doc>): Value {
    if user.Some? && Truthy(Get(user.value, "id")) then Get(user.value, "id") else Null
  }

  /** `createMediaData(url)`. */
  function NewMediaData(file: UploadedFile, body: Doc, user: Option<Doc>, seed: Seed, url: string): MediaData {
    var mediaType := UploadMediaType(file);
    var fileName := if Truthy(Get(body, "fileName")) then Get(body, "fileName") else Str(file.originalname);
    var altText := if Truthy(Get(body, "altText")) then Get(body, "altText") else Str("");
    MediaData(Str(url), map["fileName" := fileName, "altText" := altText, "slug" := Str(Slug(mediaType, seed)),
                            "owner" := Owner(user), "mediaType" := Str(mediaType)])
  }

  /** The path `processFileUpload` takes. */
  datatype Route =
    | NoData                      // neither buffer nor path: throws before any upload
    | Primary(url: string)        // the primary store took the file
    | Fallback(url: string)       // the primary failed, the cloud fallback took it
    | BothFailed

  /** The url of a GridFS upload. */
  function GridFsUrl(mediaType: string, originalname: string): string {
    "/uploads/" + mediaType + "/" + originalname
  }

  /** The primary destination: cloud storage for video, GridFS for everything else. */
  function PrimaryUrl(file: UploadedFile, b: Backends): Option<string> {
    var mediaType := UploadMediaType(file);
    if mediaType == "video" then
      (match b.cloudPrimary case CloudOk(u) => Some(u) case CloudFailed => None)
    else if b.gridFsOk then Some(GridFsUrl(mediaType, file.originalname))
    else None
  }

  /** The primary upload succeeded and so did recording it. */
  predicate PrimaryStored(file: UploadedFile, b: Backends) {
    PrimaryUrl(file, b).Some? && b.primaryWrite.None?
  }

  /** A failure of the primary upload or of its record is caught by the same
      `catch`, which tries the cloud fallback. */
  function RouteOf(file: UploadedFile, b: Backends): Route {
    if !file.hasBuffer && !(file.path.Some? && file.path.value != "") then NoData
    else if PrimaryStored(file, b) then Primary(PrimaryUrl(file, b).value)
    else match b.cloudFallback
      case CloudOk(u) => if b.fallbackWrite.None? then Fallback(u) else BothFailed
      case CloudFailed => BothFailed
  }

  const NoDataMessage := "No valid file data available for upload."
  const BothFailedMessage := "Failed to upload media to both MongoDB and Google Cloud Storage."

  /** Video goes to cloud storage, everything else to GridFS under
      `/uploads/<type>/<originalname>`; a failure of the primary upload or of
      its record falls back to cloud storage; without buffer or path nothing
      is attempted. */
  lemma RoutingDecision(file: UploadedFile, b: Backends)
    ensures var t := UploadMediaType(file);
            var r := RouteOf(file, b);
            (r == NoData <==> !file.hasBuffer && (file.path.None? || file.path.value == "")) &&
            (r != NoData && t == "video" && b.cloudPrimary.CloudOk? && b.primaryWrite.None? ==>
               r == Primary(b.cloudPrimary.publicUrl)) &&
            (r != NoData && t != "video" && b.gridFsOk && b.primaryWrite.None? ==>
               r == Primary("/uploads/" + t + "/" + file.originalname)) &&
            (r.Primary? <==> r != NoData && PrimaryStored(file, b)) &&
            (r != NoData && !PrimaryStored(file, b) && b.cloudFallback.CloudOk? && b.fallbackWrite.None? ==>
               r == Fallback(b.cloudFallback.publicUrl)) &&
            (r == BothFailed <==> r != NoData && !PrimaryStored(file, b) &&
                                  (b.cloudFallback.CloudFailed? || b.fallbackWrite.Some?))
  {
  }

  /** The record's fileName falls back to the original name and its altText to ''. */
  lemma MediaDataDefaults(file: UploadedFile, body: Doc, user: Option<Doc>, seed: Seed, url: string)
    requires !Truthy(Get(body, "fileName")) && !Truthy(Get(body, "altText"))
    ensures var d := NewMediaData(file, body, user, seed, url);
            d.url == Str(url) && d.attrs["fileName"] == Str(file.originalname) && d.attrs["altText"] == Str("") &&
            d.attrs["mediaType"] == Str(UploadMediaType(file)) && d.attrs.Keys == {"fileName", "altText", "slug", "owner", "mediaType"}
  {
    AttrsEntries(Str(file.originalname), Str(""), Str(Slug(UploadMediaType(file), seed)), Owner(user),
                 Str(UploadMediaType(file)));
  }

  lemma AttrsEntries(fileName: Value, altText: Value, slug: Value, owner: Value, mediaType: Value)
    ensures var m := map["fileName" := fileName, "altText" := altText, "slug" := slug, "owner" := owner, "mediaType" := mediaType];
            m["fileName"] == fileName && m["altText"] == altText && m["mediaType"] == mediaType &&
            m.Keys == {"fileName", "altText", "slug", "owner", "mediaType"}
  {
  }

  /** The branch `dynamicUpload` takes once multer is done. */
  datatype MulterResult = MulterError(message: string) | Parsed(file: Option<UploadedFile>, body: Doc)

  datatype Branch = ParserFailed | ProcessFile | UpsertBody | PassOn

  /** `req.body.fieldName || 'file'`, read before multer has parsed the form. */
  function FieldName(body: Doc): Value {
    if Truthy(Get(body, "fieldName")) then Get(body, "fieldName") else Str("file")
  }

  function BranchOf(parsed: MulterResult): Branch {
    match parsed
    case MulterError(_) => ParserFailed
    case Parsed(file, body) =>
      if file.Some? then ProcessFile
      else if Truthy(Get(body, "url")) then UpsertBody
      else PassOn
  }

  /** A request with a file is processed; otherwise one with a url is
      upserted; otherwise the next handler runs. The field name is 'file'
      unless the body names another. */
  lemma DynamicUploadBranches(parsed: MulterResult, body: Doc)
    ensures !Truthy(Get(body, "fieldName")) ==> FieldName(body) == Str("file")
    ensures parsed.Parsed? && parsed.file.Some? ==> BranchOf(parsed) == ProcessFile
    ensures parsed.Parsed? && parsed.file.None? ==>
              (BranchOf(parsed) == UpsertBody <==> Truthy(Get(parsed.body, "url")))
    ensures BranchOf(parsed) == PassOn <==>
              parsed.Parsed? && parsed.file.None? && !Truthy(Get(parsed.body, "url"))
  {
  }

  /** What `dynamicUpload` does with the request: answer it, or call `next()`. */
  datatype Reply = Answer(response: Response) | Next

  function ServerError(message: string): Reply {
    Answer(Response(500, Obj(map["message" := Str("Internal server error"), "error" := Str(message)])))
  }

  function Created(message: string, media: Value): Reply {
    Answer(Response(201, Obj(map["message" := Str(message), "media" := media])))
  }

  /** `req.media = await Media.findById(mediaId)` and the 201 answer; a
      failing lookup goes to the `catch` and is answered 500, although the
      record is already stored. */
  function Fetched(message: string, records: seq<Media>, id: Option<nat>, lookup: Option<string>): Reply {
    if lookup.Some? then ServerError(lookup.value) else Created(message, MediaValue(FindById(records, id)))
  }

  /** The Media collection. Ids are handed out by a counter standing for ObjectId generation. */
  class MediaCollection {
    var records: seq<Media>
    var nextId: nat

    ghost predicate Valid()
      reads this
    {
      IdsValid(records, nextId)
    }

    constructor ()
      ensures Valid() && records == [] && nextId == 0
    {
      records := [];
      nextId := 0;
    }

    /** `createOrUpdateMedia`: find by url, then update that record or insert a
        new one. `fault` is the error of a failing query; `findOne` fails
        before anything is written and `updateOne` and `save` write one
        document or none, so a failure leaves the collection as it was. */
    method CreateOrUpdate(data: MediaData, fault: Option<string>) returns (r: Result<nat, string>)
      requires Valid()
      modifies this
      ensures Valid()
      ensures fault.Some? ==> r == Err(fault.value) && records == old(records) && nextId == old(nextId)
      ensures fault.None? ==> r.Ok? && (records, nextId, r.value) == Upsert(old(records), old(nextId), data)
      ensures old(UniqueUrls(records)) ==> UniqueUrls(records)
    {
      if fault.Some? {
        return Err(fault.value);
      }
      UpsertKeepsIds(records, nextId, data);
      if old(UniqueUrls(records)) {
        UpsertKeepsUrlsUnique(records, nextId, data);
      }
      var id;
      var existing := FindByUrl(records, data.url);
      if existing.Some? {
        var i := existing.value;
        id := records[i].id;
        records := records[i := Updated(records[i], data)];
      } else {
        id := nextId;
        records := records + [Media(nextId, data.url, data.attrs)];
        nextId := nextId + 1;
      }
      r := Ok(id);
    }

    /** `processFileUpload`. On a primary success the id is not returned; only
        the fallback path returns it. */
    method ProcessFileUpload(file: UploadedFile, body: Doc, user: Option<Doc>, b: Backends)
      returns (r: Result<Option<nat>, string>)
      requires Valid()
      modifies this
      ensures Valid()
      ensures match RouteOf(file, b)
              case NoData => r == Err(NoDataMessage) && records == old(records) && nextId == old(nextId)
              case BothFailed => r == Err(BothFailedMessage) && records == old(records) && nextId == old(nextId)
              case Primary(u) =>
                r == Ok(None) &&
                (records, nextId) == (var (a, n, _) := Upsert(old(records), old(nextId), NewMediaData(file, body, user, b.primarySeed, u)); (a, n))
              case Fallback(u) =>
                var (a, n, id) := Upsert(old(records), old(nextId), NewMediaData(file, body, user, b.fallbackSeed, u));
                r == Ok(Some(id)) && records == a && nextId == n
    {
      if !file.hasBuffer && !(file.path.Some? && file.path.value != "") {
        return Err(NoDataMessage);
      }
      var primary := PrimaryUrl(file, b);
      if primary.Some? {
        var stored := CreateOrUpdate(NewMediaData(file, body, user, b.primarySeed, primary.value), b.primaryWrite);
        if stored.Ok? {
          return Ok(None);
        }
      }
      if b.cloudFallback.CloudOk? {
        var stored := CreateOrUpdate(NewMediaData(file, body, user, b.fallbackSeed, b.cloudFallback.publicUrl), b.fallbackWrite);
        if stored.Ok? {
          return Ok(Some(stored.value));
        }
      }
      return Err(BothFailedMessage);
    }

    /** `dynamicUpload`: multer (the `parse` oracle, called with the field
        name) then the branch for a file, for a url-only body, or for neither.
        `bodyWrite` is the error, if any, of `createOrUpdateMedia` on a
        url-only body, and `lookup` that of the `findById` that follows a
        stored record. */
    method DynamicUpload(preBody: Doc, parse: Value -> MulterResult, user: Option<Doc>, b: Backends,
                         bodyWrite: Option<string>, lookup: Option<string>)
      returns (reply: Reply)
      requires Valid()
      modifies this
      ensures Valid()
      ensures var parsed := parse(FieldName(preBody));
              match BranchOf(parsed)
              case ParserFailed => reply == ServerError(parsed.message) && records == old(records) && nextId == old(nextId)
              case PassOn => reply == Next && records == old(records) && nextId == old(nextId)
              case UpsertBody =>
                if bodyWrite.Some? then
                  reply == ServerError(bodyWrite.value) && records == old(records) && nextId == old(nextId)
                else
                  var (a, n, id) := Upsert(old(records), old(nextId), MediaData(Get(parsed.body, "url"), parsed.body - {"url"}));
                  records == a && nextId == n &&
                  reply == Fetched("File data updated successfully", a, Some(id), lookup)
              case ProcessFile =>
                match RouteOf(parsed.file.value, b)
                case NoData => reply == ServerError(NoDataMessage) && records == old(records) && nextId == old(nextId)
                case BothFailed => reply == ServerError(BothFailedMessage) && records == old(records) && nextId == old(nextId)
                case Primary(u) =>
                  var (a, n, _) := Upsert(old(records), old(nextId), NewMediaData(parsed.file.value, parsed.body, user, b.primarySeed, u));
                  records == a && nextId == n &&
                  reply == (if lookup.Some? then ServerError(lookup.value) else Created("File uploaded successfully", Null))
                case Fallback(u) =>
                  var (a, n, id) := Upsert(old(records), old(nextId), NewMediaData(parsed.file.value, parsed.body, user, b.fallbackSeed, u));
                  records == a && nextId == n &&
                  reply == Fetched("File uploaded successfully", a, Some(id), lookup)
    {
      var parsed := parse(FieldName(preBody));
      match parsed {
        case MulterError(message) =>
          reply := ServerError(message);
        case Parsed(file, body) =>
          if file.Some? {
            var r := ProcessFileUpload(file.value, body, user, b);
            match r {
              case Err(message) =>
                reply := ServerError(message);
              case Ok(mediaId) =>
                reply := Fetched("File uploaded successfully", records, mediaId, lookup);
            }
          } else if Truthy(Get(body, "url")) {
            var stored := CreateOrUpdate(MediaData(Get(body, "url"), body - {"url"}), bodyWrite);
            match stored {
              case Err(message) =>
                reply := ServerError(message);
              case Ok(id) =>
                reply := Fetched("File data updated successfully", records, Some(id), lookup);
            }
          } else {
            reply := Next;
          }
      }
    }
  }
}
