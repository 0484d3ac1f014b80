/** The media classification of the upload middleware
    (middlewares/uploadFilesMiddleware.js): the category table, the lookups
    by extension and by category, the global upload size limit and the
    accept/reject file filter. */
module MediaTypes {
  import opened Wrappers
  import opened Text
  import opened PathName

  /** One entry of `mediaTypesSchema`. */
  datatype Category = Category(name: string, extensions: seq<string>, mimeTypes: seq<string>, sizeLimit: nat)

  const MiB: nat := 1024 * 1024

  const Image := Category("image",
    [".png", ".jpg", ".gif", ".jpeg", ".bmp", ".svg", ".webp"],
    ["image/jpeg", "image/png", "image/gif", "image/svg+xml", "image/webp", "image/bmp"],
    50 * MiB)

  const Video := Category("video",
    [".mp4", ".avi", ".mov", ".wmv", ".flv", ".mkv", ".webm"],
    ["video/mp4", "video/x-msvideo", "video/quicktime", "video/x-ms-wmv", "video/x-flv", "video/x-matroska", "video/webm"],
    2 * 1024 * MiB)

  const Audio := Category("audio",
    [".mp3", ".wav", ".ogg", ".wma", ".aac", ".flac", ".alac"],
    ["audio/mpeg", "audio/wav", "audio/ogg", "audio/x-ms-wma", "audio/aac", "audio/flac", "audio/alac"],
    12 * MiB)

  const File := Category("file",
    [".pdf", ".doc", ".docx", ".xls", ".xlsx", ".csv", ".txt", ".json", ".xml"],
    ["application/pdf", "application/msword",
     "application/vnd.openxmlformats-officedocument.wordprocessingml.document",
     "application/vnd.ms-excel",
     "application/vnd.openxmlformats-officedocument.spreadsheetml.sheet",
     "text/csv", "text/plain", "application/json", "application/xml"],
    150 * MiB)

  /** `mediaTypesSchema`, in its key order. */
  const Table: seq<Category> := [Image, Video, Audio, File]

  const Unknown := "unknown"

  /** The index of the first category in t whose extension list holds ext. */
  function FirstWithExtension(t: seq<Category>, ext: string): (r: nat)
    ensures r <= |t|
    ensures r < |t| ==> ext in t[r].extensions
    ensures forall j :: 0 <= j < r ==> ext !in t[j].extensions
  {
    if t == [] then 0
    else if ext in t[0].extensions then 0
    else 1 + FirstWithExtension(t[1..], ext)
  }

  /** `getMediaType`. */
  function GetMediaType(ext: string): string {
    var i := FirstWithExtension(Table, Lower(ext));
    if i < |Table| then Table[i].name else Unknown
  }

  /** The index of the category named name, or |t| when there is none. */
  function IndexOfName(t: seq<Category>, name: string): (r: nat)
    ensures r <= |t|
    ensures r < |t| ==> t[r].name == name
    ensures r == |t| ==> forall j :: 0 <= j < |t| ==> t[j].name != name
  {
    if t == [] then 0
    else if t[0].name == name then 0
    else 1 + IndexOfName(t[1..], name)
  }

  /** `getMimeTypes`: the category's MIME types, or none. */
  function GetMimeTypes(mediaType: string): seq<string> {
    var i := IndexOfName(Table, mediaType);
    if i < |Table| then Table[i].mimeTypes else []
  }

  /** `getFileSizeLimit`: the category's limit in bytes, or 0. */
  function GetFileSizeLimit(mediaType: string): nat {
    var i := IndexOfName(Table, mediaType);
    if i < |Table| then Table[i].sizeLimit else 0
  }

  /** `Math.max(...limits)` over a non-empty table. */
  function MaxLimit(t: seq<Category>): (r: nat)
    requires t != []
    ensures forall i :: 0 <= i < |t| ==> t[i].sizeLimit <= r
    ensures exists i :: 0 <= i < |t| && t[i].sizeLimit == r
  {
    if |t| == 1 then t[0].sizeLimit
    else
      var m := MaxLimit(t[1..]);
      assert forall i :: 1 <= i < |t| ==> t[i] == t[1..][i - 1];
      if t[0].sizeLimit >= m then t[0].sizeLimit else m
  }

  /** The `fileSize` limit multer is configured with. */
  function UploadLimit(): nat {
    MaxLimit(Table)
  }

  // ------------------------------------------------------------ properties

  /** Every answer is one of the four category names or "unknown". */
  lemma GetMediaTypeTotal(ext: string)
    ensures GetMediaType(ext) in ["image", "video", "audio", "file", "unknown"]
  {
  }

  /** The answer depends on the extension's letters, not their case. */
  lemma GetMediaTypeIgnoresCase(a: string, b: string)
    requires EqualsIgnoreCase(a, b)
    ensures GetMediaType(a) == GetMediaType(b)
  {
  }

  /** "unknown" exactly when no category lists the lower-cased extension. */
  lemma UnknownIffUnlisted(ext: string)
    ensures GetMediaType(ext) == Unknown <==> forall c :: c in Table ==> Lower(ext) !in c.extensions
  {
    var i := FirstWithExtension(Table, Lower(ext));
    if i < |Table| {
      assert Table[i].name != Unknown;
    } else {
      forall c | c in Table ensures Lower(ext) !in c.extensions {
        var j :| 0 <= j < |Table| && Table[j] == c;
      }
    }
  }

  predicate Disjoint(a: Category, b: Category) {
    forall e :: e in a.extensions ==> e !in b.extensions
  }

  lemma ImageVideoDisjoint()
    ensures Disjoint(Image, Video)
  {
    forall i | 0 <= i < |Image.extensions| ensures Image.extensions[i] !in Video.extensions {}
  }
  lemma ImageAudioDisjoint()
    ensures Disjoint(Image, Audio)
  {
    forall i | 0 <= i < |Image.extensions| ensures Image.extensions[i] !in Audio.extensions {}
  }
  lemma ImageFileDisjoint()
    ensures Disjoint(Image, File)
  {
    forall i | 0 <= i < |Image.extensions| ensures Image.extensions[i] !in File.extensions {}
  }
  lemma VideoAudioDisjoint()
    ensures Disjoint(Video, Audio)
  {
    forall i | 0 <= i < |Video.extensions| ensures Video.extensions[i] !in Audio.extensions {}
  }
  lemma VideoFileDisjoint()
    ensures Disjoint(Video, File)
  {
    forall i | 0 <= i < |Video.extensions| ensures Video.extensions[i] !in File.extensions {}
  }
  lemma AudioFileDisjoint()
    ensures Disjoint(Audio, File)
  {
    forall i | 0 <= i < |Audio.extensions| ensures Audio.extensions[i] !in File.extensions {}
  }

  /** No extension is listed under two categories. */
  lemma ExtensionListsDisjoint()
    ensures forall i, j :: 0 <= i < j < |Table| ==> Disjoint(Table[i], Table[j])
  {
    ImageVideoDisjoint();
    ImageAudioDisjoint();
    ImageFileDisjoint();
    VideoAudioDisjoint();
    VideoFileDisjoint();
    AudioFileDisjoint();
  }

  /** Every listed extension is in lower case and is classified under its own
      category, whatever case the client writes it in. */
  lemma ListedExtensionClassified(k: nat, ext: string)
    requires k < |Table| && Lower(ext) in Table[k].extensions
    ensures GetMediaType(ext) == Table[k].name
  {
    ExtensionListsDisjoint();
  }

  /** A name that is not a category has no MIME types and a zero size limit. */
  lemma UnknownCategoryLookups(mediaType: string)
    requires mediaType !in ["image", "video", "audio", "file"]
    ensures GetMimeTypes(mediaType) == [] && GetFileSizeLimit(mediaType) == 0
  {
  }

  /** The global limit is the largest category limit, the 2 GiB video limit. */
  lemma UploadLimitIsVideoLimit()
    ensures UploadLimit() == GetFileSizeLimit("video") == 2147483648
    ensures forall i :: 0 <= i < |Table| ==> Table[i].sizeLimit <= UploadLimit()
  {
    var k :| 0 <= k < |Table| && Table[k].sizeLimit == UploadLimit();
    assert Table[1].sizeLimit == 2147483648;
    assert IndexOfName(Table, "video") == 1 by { assert Table[1..][0] == Video; }
  }

  // ------------------------------------------------------------ file filter

  datatype Verdict = Accept | Reject(message: string)

  /** `fileFilter`: classify by the lower-cased extension of the original name,
      then compare the size with the category's limit. When the upload library
      supplies no size, `undefined > limit` is false and the file passes. */
  function FileFilter(originalname: string, size: Option<nat>): Verdict {
    var mediaType := GetMediaType(Lower(ExtName(originalname)));
    if mediaType == Unknown then Reject("Invalid file type.")
    else if size.Some? && size.value > GetFileSizeLimit(mediaType) then
      Reject("File size exceeds the limit for " + mediaType + ".")
    else Accept
  }

  /** Unknown extensions are rejected as an invalid file type; a size above
      the limit is rejected, a size equal to it (or absent) passes. */
  lemma FileFilterDecision(originalname: string, size: Option<nat>)
    ensures var t := GetMediaType(ExtName(originalname));
            (t == Unknown ==> FileFilter(originalname, size) == Reject("Invalid file type.")) &&
            (t != Unknown && size.Some? && size.value > GetFileSizeLimit(t) ==>
               FileFilter(originalname, size) == Reject("File size exceeds the limit for " + t + ".")) &&
            (t != Unknown && (size.None? || size.value <= GetFileSizeLimit(t)) ==> FileFilter(originalname, size) == Accept)
  {
    LowerIdempotent(ExtName(originalname));
  }
}
