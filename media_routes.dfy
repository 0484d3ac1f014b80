/** The decision logic of the media router (routes/media.js): the content
    type of a served file, the download file name, the list query and its
    paging, and the signed url attached to each media record. Streaming the
    file contents is left to the storage layer. */
module MediaRoutes {
  import opened Wrappers
  import opened Text
  import opened Json
  import opened Http
  import opened PathName
  import opened MediaTypes
  import opened FilterDoc

  const DefaultMimeType := "application/octet-stream"

  /** `getMimeType`: the category's first MIME type, or the generic binary type. */
  function GetMimeType(mediaType: string): (r: string)
    ensures GetMimeTypes(mediaType) != [] ==> r == GetMimeTypes(mediaType)[0]
    ensures GetMimeTypes(mediaType) == [] ==> r == DefaultMimeType
  {
    var types := GetMimeTypes(mediaType);
    if |types| > 0 then types[0] else DefaultMimeType
  }

  /** Served files carry their category's first MIME type; anything outside
      the four categories is sent as a generic binary. */
  lemma MimeTypeOfCategories(mediaType: string)
    ensures GetMimeType("image") == "image/jpeg" && GetMimeType("video") == "video/mp4"
    ensures GetMimeType("audio") == "audio/mpeg" && GetMimeType("file") == "application/pdf"
    ensures mediaType !in ["image", "video", "audio", "file"] ==> GetMimeType(mediaType) == DefaultMimeType
  {
    assert IndexOfName(Table, "image") == 0;
    assert IndexOfName(Table, "video") == 1 by { assert Table[1..][0] == Video; }
    assert IndexOfName(Table, "audio") == 2 by { assert Table[1..][1..][0] == Audio; }
    assert IndexOfName(Table, "file") == 3 by { assert Table[1..][1..][1..][0] == File; }
    if mediaType !in ["image", "video", "audio", "file"] {
      UnknownCategoryLookups(mediaType);
    }
  }

  // ----------------------------------------------------------- encodeURI

  /** The characters `encodeURI` leaves as they are. */
  predicate UriKept(c: char) {
    ('a' <= c <= 'z') || ('A' <= c <= 'Z') || ('0' <= c <= '9') ||
    c in {';', ',', '/', '?', ':', '@', '&', '=', '+', '$', '-', '_', '.', '!', '~', '*', '\'', '(', ')', '#'}
  }

  predicate IsHexDigit(c: char) { ('0' <= c <= '9') || ('A' <= c <= 'F') }

  function HexDigit(d: nat): (c: char)
    requires d < 16
    ensures IsHexDigit(c) && HexValue(c) == d
  {
    "0123456789ABCDEF"[d]
  }

  /** The value of a hex digit. */
  function HexValue(c: char): (n: nat)
    requires IsHexDigit(c)
    ensures n < 16
  {
    if '0' <= c <= '9' then c as int - '0' as int else c as int - 'A' as int + 10
  }

  /** The code point a UTF-8 sequence of one to four bytes spells: the lead
      byte's payload bits, then six bits per continuation byte. */
  function Utf8Value(b: seq<nat>): int
    requires 1 <= |b| <= 4
  {
    if |b| == 1 then b[0]
    else if |b| == 2 then (b[0] as int - 0xC0) * 64 + (b[1] as int - 0x80)
    else if |b| == 3 then ((b[0] as int - 0xE0) * 64 + (b[1] as int - 0x80)) * 64 + (b[2] as int - 0x80)
    else (((b[0] as int - 0xF0) * 64 + (b[1] as int - 0x80)) * 64 + (b[2] as int - 0x80)) * 64 + (b[3] as int - 0x80)
  }

  /** The UTF-8 encoding of one code point: one byte below 0x80, then two,
      three or four bytes with a lead byte announcing the length and
      continuation bytes in 0x80..0xBF, spelling the code point back. */
  function Utf8(c: char): (r: seq<nat>)
    ensures 1 <= |r| <= 4
    ensures forall i :: 0 <= i < |r| ==> r[i] < 256
    ensures (c as int < 0x80) <==> r == [c as int]
    ensures |r| == 2 <==> 0x80 <= c as int < 0x800
    ensures |r| == 3 <==> 0x800 <= c as int < 0x10000
    ensures |r| == 4 <==> 0x10000 <= c as int
    ensures |r| == 2 ==> 0xC0 <= r[0] < 0xE0
    ensures |r| == 3 ==> 0xE0 <= r[0] < 0xF0
    ensures |r| == 4 ==> 0xF0 <= r[0] < 0xF8
    ensures forall i :: 1 <= i < |r| ==> 0x80 <= r[i] < 0xC0
    ensures Utf8Value(r) == c as int
  {
    var cp := c as int;
    var q1, r1 := cp / 64, cp % 64;
    var q2, r2 := q1 / 64, q1 % 64;
    var q3, r3 := q2 / 64, q2 % 64;
    if cp < 0x80 then [cp]
    else if cp < 0x800 then [0xC0 + q1, 0x80 + r1]
    else if cp < 0x10000 then [0xE0 + q2, 0x80 + r2, 0x80 + r1]
    else [0xF0 + q3, 0x80 + r3, 0x80 + r2, 0x80 + r1]
  }

  /** `%XX` for one byte. */
  function PercentOf(b: nat): (r: string)
    requires b < 256
    ensures |r| == 3 && r[0] == '%' && IsHexDigit(r[1]) && IsHexDigit(r[2])
    ensures 16 * HexValue(r[1]) + HexValue(r[2]) == b
  {
    ['%', HexDigit(b / 16), HexDigit(b % 16)]
  }

  /** `%XX` for each byte, upper-case hex. */
  function PercentBytes(bytes: seq<nat>): (r: string)
    requires forall i :: 0 <= i < |bytes| ==> bytes[i] < 256
    ensures |r| == 3 * |bytes|
    ensures forall i :: 0 <= i < |r| ==> (if i % 3 == 0 then r[i] == '%' else IsHexDigit(r[i]))
    ensures forall i :: 0 <= i < |bytes| ==> 16 * HexValue(r[3 * i + 1]) + HexValue(r[3 * i + 2]) == bytes[i]
  {
    if bytes == [] then ""
    else
      var rest := PercentBytes(bytes[1..]);
      var r := PercentOf(bytes[0]) + rest;
      forall i | 3 <= i < |r|
        ensures if i % 3 == 0 then r[i] == '%' else IsHexDigit(r[i])
      {
        assert r[i] == rest[i - 3] && (i - 3) % 3 == i % 3;
      }
      forall i | 1 <= i < |bytes|
        ensures 16 * HexValue(r[3 * i + 1]) + HexValue(r[3 * i + 2]) == bytes[i]
      {
        assert r[3 * i + 1] == rest[3 * (i - 1) + 1] && r[3 * i + 2] == rest[3 * (i - 1) + 2];
        assert bytes[1..][i - 1] == bytes[i];
      }
      r
  }

  /** What `encodeURI` turns one character into. */
  function EncodeChar(c: char): (r: string)
    ensures forall i :: 0 <= i < |r| ==> UriChar(r[i])
    ensures '/' in r ==> c == '/'
  {
    if UriKept(c) then [c] else PercentBytes(Utf8(c))
  }

  /** `encodeURI(s)` on a string of Unicode scalar values. */
  function EncodeURI(s: string): (r: string)
  {
    if s == [] then "" else EncodeChar(s[0]) + EncodeURI(s[1..])
  }

  /** The characters an `encodeURI` result is made of. */
  predicate UriChar(c: char) { UriKept(c) || c == '%' || IsHexDigit(c) }

  predicate AllUriChars(r: string) { forall i :: 0 <= i < |r| ==> UriChar(r[i]) }

  /** Encoding distributes over concatenation. */
  lemma {:induction false} EncodeURIConcat(a: string, b: string)
    ensures EncodeURI(a + b) == EncodeURI(a) + EncodeURI(b)
  {
    if a == [] {
      assert a + b == b;
    } else {
      assert (a + b)[0] == a[0] && (a + b)[1..] == a[1..] + b;
      EncodeURIConcat(a[1..], b);
      assert EncodeURI(a + b) == EncodeChar(a[0]) + EncodeURI(a[1..] + b);
    }
  }

  /** Every character of the result is kept by `encodeURI`, or belongs to a
      `%XX` escape. */
  lemma {:induction false} EncodeURIAlphabet(s: string)
    ensures AllUriChars(EncodeURI(s))
  {
    if s != [] {
      EncodeURIAlphabet(s[1..]);
      AllUriCharsConcat(EncodeChar(s[0]), EncodeURI(s[1..]));
    }
  }

  lemma AllUriCharsConcat(head: string, tail: string)
    requires AllUriChars(head) && AllUriChars(tail)
    ensures AllUriChars(head + tail)
  {
    forall i | 0 <= i < |head + tail| ensures UriChar((head + tail)[i]) {
      if i >= |head| {
        assert (head + tail)[i] == tail[i - |head|];
      }
    }
  }

  /** So '"', CR and LF never appear in an encoded name: they are always escaped. */
  lemma NoQuoteInUriChars(r: string)
    requires AllUriChars(r)
    ensures '"' !in r && '\r' !in r && '\n' !in r
  {
    assert !UriChar('"') && !UriChar('\r') && !UriChar('\n');
  }

  /** A '/' in the result comes from a '/' in the input. */
  lemma {:induction false} EncodeURIKeepsNoSlash(s: string)
    requires '/' !in s
    ensures '/' !in EncodeURI(s)
  {
    if s != [] {
      EncodeURIKeepsNoSlash(s[1..]);
      assert EncodeURI(s) == EncodeChar(s[0]) + EncodeURI(s[1..]);
    }
  }

  /** A name made only of kept characters is left as it is. */
  lemma {:induction false} EncodeURIKeepsPlainNames(s: string)
    requires PlainName(s)
    ensures EncodeURI(s) == s
  {
    if s != [] {
      EncodeURIKeepsPlainNames(s[1..]);
    }
  }

  predicate PlainName(s: string) { forall i :: 0 <= i < |s| ==> UriKept(s[i]) }

  /** A space between two plain names becomes `%20`, as in "a b.pdf". */
  lemma EncodeURIEscapesSpace(a: string, b: string)
    requires PlainName(a) && PlainName(b)
    ensures EncodeURI(a + " " + b) == a + "%20" + b
  {
    EncodeURIKeepsPlainNames(a);
    EncodeURIKeepsPlainNames(b);
    SpaceEscaped();
    EncodeURIConcat(a, " ");
    EncodeURIConcat(a + " ", b);
  }

  lemma SpaceEscaped()
    ensures EncodeURI(" ") == "%20"
  {
    EncodeURIOne(' ');
    SpaceChar();
  }

  lemma SpaceChar()
    ensures EncodeChar(' ') == "%20"
  {
    SpaceBytes();
    SpacePercent();
  }

  lemma SpaceBytes()
    ensures !UriKept(' ') && Utf8(' ') == [32]
  {
  }

  lemma SpacePercent()
    ensures PercentBytes([32]) == "%20"
  {
    PercentByte(32);
    assert HexDigit(2) == '2' && HexDigit(0) == '0';
  }

  /** A two-byte letter becomes two escapes. */
  lemma EncodeURIEscapesTwoBytes()
    ensures EncodeURI("\U{E9}") == "%C3%A9"
  {
    EncodeURIOne('\U{E9}');
    AcuteChar();
  }

  lemma AcuteChar()
    ensures EncodeChar('\U{E9}') == "%C3%A9"
  {
    AcuteBytes();
    AcutePercent();
  }

  lemma AcuteBytes()
    ensures !UriKept('\U{E9}') && Utf8('\U{E9}') == [0xC3, 0xA9]
  {
  }

  lemma AcutePercent()
    ensures PercentBytes([0xC3, 0xA9]) == "%C3%A9"
  {
    PercentTwo(0xC3, 0xA9);
    LeadPercent();
    TrailPercent();
    assert "%C3" + "%A9" == "%C3%A9";
  }

  lemma LeadPercent()
    ensures PercentBytes([0xC3]) == "%C3"
  {
    PercentByte(0xC3);
    assert HexDigit(12) == 'C' && HexDigit(3) == '3';
  }

  lemma TrailPercent()
    ensures PercentBytes([0xA9]) == "%A9"
  {
    PercentByte(0xA9);
    assert HexDigit(10) == 'A' && HexDigit(9) == '9';
  }

  lemma EncodeURIOne(c: char)
    ensures EncodeURI([c]) == EncodeChar(c)
  {
    assert [c][1..] == [];
  }

  lemma PercentTwo(a: nat, b: nat)
    requires a < 256 && b < 256
    ensures PercentBytes([a, b]) == PercentBytes([a]) + PercentBytes([b])
  {
    assert [a, b][1..] == [b];
    assert [a][1..] == [];
  }

  lemma PercentByte(b: nat)
    requires b < 256
    ensures PercentBytes([b]) == ['%', HexDigit(b / 16), HexDigit(b % 16)]
  {
    assert [b][1..] == [];
  }

  /** The name the download route sends in Content-Disposition. */
  function DownloadName(decoded: string): string {
    EncodeURI(Basename(decoded))
  }

  /** `attachment; filename="<name>"`. */
  function ContentDisposition(decoded: string): string {
    "attachment; filename=\"" + DownloadName(decoded) + "\""
  }

  /** The download name has no directory separator and cannot close the quoted
      header parameter, whatever the client-supplied name holds. */
  lemma DownloadNameSafe(decoded: string)
    ensures var n := DownloadName(decoded);
            '/' !in n && '"' !in n && '\r' !in n && '\n' !in n
    ensures var h := ContentDisposition(decoded);
            h[|h| - 1] == '"' && forall i :: 22 <= i < |h| - 1 ==> h[i] != '"'
  {
    DownloadNameChars(Basename(decoded));
    QuotedParameter(DownloadName(decoded));
  }

  /** A name without '"' is closed only by the header's last quote. */
  lemma QuotedParameter(n: string)
    requires '"' !in n
    ensures var h := "attachment; filename=\"" + n + "\"";
            h[|h| - 1] == '"' && forall i :: 22 <= i < |h| - 1 ==> h[i] != '"'
  {
    var h := "attachment; filename=\"" + n + "\"";
    assert forall i :: 22 <= i < |h| - 1 ==> h[i] == n[i - 22];
  }

  /** Encoding a name without '/' leaves no '/', '"', CR or LF. */
  lemma DownloadNameChars(b: string)
    requires '/' !in b
    ensures var n := EncodeURI(b);
            '/' !in n && '"' !in n && '\r' !in n && '\n' !in n
  {
    EncodeURIAlphabet(b);
    NoQuoteInUriChars(EncodeURI(b));
    EncodeURIKeepsNoSlash(b);
  }

  // ------------------------------------------------------ file routes

  /** What the three file routes do: stream the stored file under a content
      type (and, for downloads, a disposition), or answer with an error text. */
  datatype FileReply =
    | Stream(contentType: string, disposition: Option<string>, storedName: string)
    | Fail(status: int, text: string)

  /** The message of the URIError `decodeURIComponent` throws on a malformed escape. */
  const UriMalformed := "URI malformed"

  /** The file routes. `decoded` is `decodeURIComponent(filename)`, None when
      it throws; `found` says whether the bucket has a file of that name. */
  function ServeFile(route: string, mediaType: string, decoded: Option<string>, found: bool): (r: FileReply)
    requires route in ["serve", "uploads", "download"]
  {
    match decoded
    case None =>
      if route == "serve" then Fail(500, "Internal Server Error")
      else Fail(500, "Error fetching file: " + UriMalformed)
    case Some(name) =>
      if !found then Fail(404, "File not found")
      else Stream(GetMimeType(mediaType),
                  if route == "download" then Some(ContentDisposition(name)) else None,
                  name)
  }

  /** Each route streams the file named by the decoded parameter, under the
      category's MIME type; only downloads add a disposition; a missing file
      is 404 'File not found'. */
  lemma ServeFileOutcome(route: string, mediaType: string, decoded: Option<string>, found: bool)
    requires route in ["serve", "uploads", "download"]
    ensures var r := ServeFile(route, mediaType, decoded, found);
            (r.Stream? <==> decoded.Some? && found) &&
            (r.Stream? ==> r.storedName == decoded.value && r.contentType == GetMimeType(mediaType) &&
                           (r.disposition.Some? <==> route == "download")) &&
            (decoded.Some? && !found ==> r == Fail(404, "File not found")) &&
            (decoded.None? ==> r.Fail? && r.status == 500)
  {
  }

  // ------------------------------------------------------ list and fetch

  /** `{ mediaType? , $or? }` of the list route: mediaType only when given,
      and the search a case-insensitive regex on fileName or altText. */
  function ListQuery(mediaType: Option<string>, searchQuery: Option<string>): (q: Query)
    ensures "mediaType" in q <==> mediaType.Some? && mediaType.value != ""
    ensures "mediaType" in q ==> q["mediaType"] == Raw(mediaType.value)
    ensures "$or" in q <==> searchQuery.Some? && searchQuery.value != ""
    ensures "$or" in q ==> q["$or"] == AnyOf([map["fileName" := Regex(searchQuery.value)],
                                              map["altText" := Regex(searchQuery.value)]])
    ensures q.Keys <= {"mediaType", "$or"}
  {
    var q1: Query := map[];
    var q2 := if mediaType.Some? && mediaType.value != "" then q1["mediaType" := Raw(mediaType.value)] else q1;
    if searchQuery.Some? && searchQuery.value != "" then
      q2["$or" := AnyOf([map["fileName" := Regex(searchQuery.value)], map["altText" := Regex(searchQuery.value)]])]
    else q2
  }

  /** The numeric page and limit, defaulting to 1 and 10 when absent. */
  function PageOf(page: Option<int>): int { if page.Some? then page.value else 1 }
  function LimitOf(limit: Option<int>): int { if limit.Some? then limit.value else 10 }

  /** `(page - 1) * limit`. */
  function SkipFor(page: int, limit: int): int { (page - 1) * limit }

  /** `Math.ceil(total / limit)` as JSON will show it: a division by zero
      gives Infinity or NaN, which serialise as null (None). */
  function Pages(total: nat, limit: int): (r: Option<int>)
    ensures limit != 0 <==> r.Some?
  {
    if limit > 0 then Some((total + limit - 1) / limit)
    else if limit < 0 then Some(-(total / -limit))
    else None
  }

  /** With a positive limit, `pages` pages of `limit` items hold the total and
      one page fewer does not. */
  lemma PagesIsCeiling(total: nat, limit: int)
    requires limit > 0
    ensures var p := Pages(total, limit).value;
            p * limit >= total && (total > 0 ==> (p - 1) * limit < total) &&
            (total == 0 ==> p == 0)
  {
    var p := Pages(total, limit).value;
    assert p == (total + limit - 1) / limit;
    assert p * limit <= total + limit - 1 < (p + 1) * limit;
  }

  /** The defaults: page 1 and limit 10, so nothing is skipped and 10 items
      make one page. */
  lemma ListDefaults(total: nat)
    ensures PageOf(None) == 1 && LimitOf(None) == 10
    ensures SkipFor(PageOf(None), LimitOf(None)) == 0
    ensures SkipFor(3, 10) == 20
    ensures Pages(10, 10) == Some(1) && Pages(11, 10) == Some(2) && Pages(0, 10) == Some(0)
  {
  }

  /** `{ ...media.toObject(), signedUrl }`: `sign` is the signed-url generator
      applied to the stored fileName; None when it throws. */
  function WithSignedUrl(media: Doc, sign: Value -> Option<Value>): (r: Option<Doc>)
  {
    if Get(media, "mediaType") == Str("video") then
      match sign(Get(media, "fileName"))
      case None => None
      case Some(u) => Some(media["signedUrl" := u])
    else Some(media["signedUrl" := Get(media, "url")])
  }

  /** signedUrl is the stored url unless the record is a video, whose url is
      signed from its fileName; every other field is kept. */
  lemma SignedUrlChoice(media: Doc, sign: Value -> Option<Value>)
    ensures Get(media, "mediaType") != Str("video") ==>
              WithSignedUrl(media, sign) == Some(media["signedUrl" := Get(media, "url")])
    ensures Get(media, "mediaType") == Str("video") ==>
              (WithSignedUrl(media, sign).Some? <==> sign(Get(media, "fileName")).Some?)
    ensures WithSignedUrl(media, sign).Some? ==>
              var d := WithSignedUrl(media, sign).value;
              d.Keys == media.Keys + {"signedUrl"} &&
              forall k :: k in media && k != "signedUrl" ==> d[k] == media[k]
  {
  }

  /** The items of the list route, each with its signed url; None when a signing throws. */
  function SignAll(items: seq<Doc>, sign: Value -> Option<Value>): (r: Option<seq<Doc>>)
    ensures r.Some? <==> forall i :: 0 <= i < |items| ==> WithSignedUrl(items[i], sign).Some?
    ensures r.Some? ==> |r.value| == |items| &&
                        forall i :: 0 <= i < |items| ==> r.value[i] == WithSignedUrl(items[i], sign).value
  {
    if items == [] then Some([])
    else match (WithSignedUrl(items[0], sign), SignAll(items[1..], sign))
      case (Some(d), Some(rest)) => Some([d] + rest)
      case _ => None
  }

  const ServerErrorBody := Obj(map["error" := Str("Internal Server Error")])

  /** `GET /api/v1/media/:id`: `found` is what `findById` resolved to, or its
      rejection (a cast error for a malformed id, a lost connection). */
  function GetMedia(found: Result<Option<Doc>, string>, sign: Value -> Option<Value>): (r: Response)
    ensures found.Err? ==> r == Response(500, ServerErrorBody)
    ensures found == Ok(None) ==> r == Response(404, Obj(map["error" := Str("Media not found")]))
    ensures found.Ok? && found.value.Some? && WithSignedUrl(found.value.value, sign).Some? ==>
              r == Response(200, Obj(WithSignedUrl(found.value.value, sign).value))
    ensures found.Ok? && found.value.Some? && WithSignedUrl(found.value.value, sign).None? ==>
              r == Response(500, ServerErrorBody)
  {
    match found
    case Err(_) => Response(500, ServerErrorBody)
    case Ok(None) => Response(404, Obj(map["error" := Str("Media not found")]))
    case Ok(Some(m)) =>
      match WithSignedUrl(m, sign)
      case None => Response(500, ServerErrorBody)
      case Some(d) => Response(200, Obj(d))
  }

  /** `Math.ceil(total / limit)` as JSON writes it: null when the limit is 0. */
  function PagesValue(total: nat, limit: int): Value {
    var pages := Pages(total, limit);
    if pages.Some? then Num(pages.value) else Null
  }

  /** `GET /api/v1/media`: `items` is what `find(query).skip(..).limit(..)`
      resolved to and `total` what `countDocuments(query)` resolved to; either
      may be a rejection. */
  function ListMedia(items: Result<seq<Doc>, string>, total: Result<nat, string>, page: Option<int>, limit: Option<int>,
                     sign: Value -> Option<Value>): (r: Response)
  {
    match items
    case Err(_) => Response(500, ServerErrorBody)
    case Ok(found) =>
      match SignAll(found, sign)
      case None => Response(500, ServerErrorBody)
      case Some(signed) =>
        match total
        case Err(_) => Response(500, ServerErrorBody)
        case Ok(n) =>
          Response(200, Obj(map["items" := Arr(seq(|signed|, i requires 0 <= i < |signed| => Obj(signed[i]))),
                                "total" := Num(n), "page" := Num(PageOf(page)),
                                "pages" := PagesValue(n, LimitOf(limit))]))
  }

  /** The list answers 200 exactly when the find, every signing and the count
      succeed, with the signed records in order, the count as total, the page
      (1 by default) and the ceiling of total over the limit as pages; any
      failure is a 500. */
  lemma ListMediaShape(items: Result<seq<Doc>, string>, total: Result<nat, string>, page: Option<int>, limit: Option<int>,
                       sign: Value -> Option<Value>)
    ensures var r := ListMedia(items, total, page, limit, sign);
            (r.status == 200 <==> items.Ok? && total.Ok? &&
                                  forall i :: 0 <= i < |items.value| ==> WithSignedUrl(items.value[i], sign).Some?) &&
            (r.status != 200 ==> r == Response(500, ServerErrorBody)) &&
            (r.status == 200 ==>
               var found := items.value;
               var o := r.body.fields;
               o.Keys == {"items", "total", "page", "pages"} &&
               o["items"] == Arr(seq(|found|, i requires 0 <= i < |found| => Obj(WithSignedUrl(found[i], sign).value))) &&
               o["total"] == Num(total.value) && o["page"] == Num(PageOf(page)) &&
               o["pages"] == PagesValue(total.value, LimitOf(limit)) &&
               (limit.None? ==> o["pages"] == Num((total.value + 9) / 10)))
  {
  }
}
