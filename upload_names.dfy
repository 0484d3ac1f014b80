/** The name multer's disk storage gives an uploaded file
    (middlewares/uploadFilesMiddleware.js, the `filename` callback): the
    original name with unwanted characters replaced by '_', after the
    upload's timestamp. The regular expression has no `u` flag, so it
    matches UTF-16 code units: a character outside the Basic Multilingual
    Plane is a surrogate pair, and each half is replaced on its own. */
module UploadNames {
  import opened Text

  /** The characters `/[^a-zA-Z0-9.-_]/g` leaves alone. Inside the class,
      `.-_` is the range from '.' (0x2E) to '_' (0x5F): it takes in '/',
      the digits, ':', ';', '<', '=', '>', '?', '@', the capitals, '[', '\',
      ']' and '^', and leaves out '-' (0x2D). */
  predicate KeptAsWritten(c: char) {
    ('a' <= c <= 'z') || ('A' <= c <= 'Z') || ('0' <= c <= '9') || ('.' <= c <= '_')
  }

  /** The characters the class evidently means to keep: letters, digits, '.', '-' and '_'. */
  predicate Kept(c: char) {
    ('a' <= c <= 'z') || ('A' <= c <= 'Z') || ('0' <= c <= '9') || c == '.' || c == '-' || c == '_'
  }

  /** What the replacement writes for one character: the character when the
      class keeps it (both classes keep only ASCII), otherwise one '_' per
      UTF-16 code unit. */
  function Piece(c: char, kept: bool): (r: string)
    requires kept ==> c as int < 0x80
    ensures |r| == CodeUnits(c)
    ensures forall i :: 0 <= i < |r| ==> r[i] == if kept then c else '_'
  {
    if kept then [c] else seq(CodeUnits(c), _ => '_')
  }

  /** `name.replace(/[^a-zA-Z0-9.-_]/g, '_')`, as written: as many characters
      as the name has code units. */
  function SanitizeAsWritten(name: string): (r: string)
    ensures |r| == Utf16Length(name)
  {
    if name == [] then [] else Piece(name[0], KeptAsWritten(name[0])) + SanitizeAsWritten(name[1..])
  }

  /** The sanitiser with the class read as intended: `[^a-zA-Z0-9._-]`. */
  function Sanitize(name: string): (r: string)
    ensures |r| == Utf16Length(name)
  {
    if name == [] then [] else Piece(name[0], Kept(name[0])) + Sanitize(name[1..])
  }

  /** The as-written replacement works character by character. */
  lemma {:induction false} AsWrittenConcat(a: string, b: string)
    ensures SanitizeAsWritten(a + b) == SanitizeAsWritten(a) + SanitizeAsWritten(b)
  {
    if a == [] {
      assert a + b == b;
    } else {
      assert (a + b)[0] == a[0] && (a + b)[1..] == a[1..] + b;
      AsWrittenConcat(a[1..], b);
      var p := Piece(a[0], KeptAsWritten(a[0]));
      var s1, s2 := SanitizeAsWritten(a[1..]), SanitizeAsWritten(b);
      assert SanitizeAsWritten(a + b) == p + (s1 + s2);
      assert SanitizeAsWritten(a) == p + s1;
      ConcatAssoc(p, s1, s2);
    }
  }

  /** Concatenation regroups. */
  lemma ConcatAssoc(p: string, x: string, y: string)
    ensures p + (x + y) == (p + x) + y
  {
  }

  /** The corrected replacement works character by character. */
  lemma {:induction false} SanitizeConcat(a: string, b: string)
    ensures Sanitize(a + b) == Sanitize(a) + Sanitize(b)
  {
    if a == [] {
      assert a + b == b;
    } else {
      assert (a + b)[0] == a[0] && (a + b)[1..] == a[1..] + b;
      SanitizeConcat(a[1..], b);
      var p := Piece(a[0], Kept(a[0]));
      var s1, s2 := Sanitize(a[1..]), Sanitize(b);
      assert Sanitize(a + b) == p + (s1 + s2);
      assert Sanitize(a) == p + s1;
      ConcatAssoc(p, s1, s2);
    }
  }

  /** The character at position i of the name lands at the offset of its code
      units in the result: there it is kept, or replaced by '_'. */
  lemma SanitizeAt(name: string, i: nat)
    requires i < |name|
    ensures var k := Utf16Length(name[..i]);
            k < |SanitizeAsWritten(name)| &&
            SanitizeAsWritten(name)[k] == (if KeptAsWritten(name[i]) then name[i] else '_') &&
            Sanitize(name)[k] == (if Kept(name[i]) then name[i] else '_')
  {
    var head, tail := name[..i], name[i..];
    assert name == head + tail;
    assert tail[0] == name[i];
    AsWrittenConcat(head, tail);
    SanitizeConcat(head, tail);
    var p := Piece(name[i], KeptAsWritten(name[i]));
    var q := Piece(name[i], Kept(name[i]));
    assert SanitizeAsWritten(tail) == p + SanitizeAsWritten(tail[1..]);
    assert Sanitize(tail) == q + Sanitize(tail[1..]);
    assert SanitizeAsWritten(name)[|SanitizeAsWritten(head)|] == p[0];
    assert Sanitize(name)[|Sanitize(head)|] == q[0];
  }

  /** Inside the Basic Multilingual Plane every character is kept or replaced
      in place. */
  lemma SanitizeInPlace(name: string)
    requires forall i :: 0 <= i < |name| ==> name[i] as int < 0x10000
    ensures |SanitizeAsWritten(name)| == |Sanitize(name)| == |name|
    ensures forall i :: 0 <= i < |name| ==> SanitizeAsWritten(name)[i] == if KeptAsWritten(name[i]) then name[i] else '_'
    ensures forall i :: 0 <= i < |name| ==> Sanitize(name)[i] == if Kept(name[i]) then name[i] else '_'
  {
    forall i | 0 <= i < |name|
      ensures SanitizeAsWritten(name)[i] == (if KeptAsWritten(name[i]) then name[i] else '_')
      ensures Sanitize(name)[i] == (if Kept(name[i]) then name[i] else '_')
    {
      assert forall j :: 0 <= j < |name[..i]| ==> name[..i][j] as int < 0x10000;
      SanitizeAt(name, i);
    }
  }

  /** Every character of the result is one the class keeps ('_' among them). */
  lemma {:induction false} SanitizeAlphabet(name: string)
    ensures forall i :: 0 <= i < |SanitizeAsWritten(name)| ==> KeptAsWritten(SanitizeAsWritten(name)[i])
    ensures forall i :: 0 <= i < |Sanitize(name)| ==> Kept(Sanitize(name)[i])
  {
    if name != [] {
      SanitizeAlphabet(name[1..]);
      var p := Piece(name[0], KeptAsWritten(name[0]));
      var q := Piece(name[0], Kept(name[0]));
      assert forall i :: |p| <= i < |SanitizeAsWritten(name)| ==>
               SanitizeAsWritten(name)[i] == SanitizeAsWritten(name[1..])[i - |p|];
      assert forall i :: |q| <= i < |Sanitize(name)| ==> Sanitize(name)[i] == Sanitize(name[1..])[i - |q|];
    }
  }

  /** A name made only of characters the class keeps is left unchanged. */
  lemma {:induction false} KeptUnchanged(s: string)
    ensures (forall i :: 0 <= i < |s| ==> KeptAsWritten(s[i])) ==> SanitizeAsWritten(s) == s
    ensures (forall i :: 0 <= i < |s| ==> Kept(s[i])) ==> Sanitize(s) == s
  {
    if s != [] {
      KeptUnchanged(s[1..]);
      assert s == [s[0]] + s[1..];
    }
  }

  /** Without the `u` flag a character outside the Basic Multilingual Plane is
      replaced by two '_': "\u{1F600}.png" is stored as "__.png". */
  lemma AstralBecomesTwoUnderscores()
    ensures SanitizeAsWritten("\U{1F600}.png") == "__.png"
    ensures Sanitize("\U{1F600}.png") == "__.png"
  {
    var face := "\U{1F600}";
    assert face + ".png" == "\U{1F600}.png";
    AsWrittenConcat(face, ".png");
    SanitizeConcat(face, ".png");
    AstralFace();
    PngKept();
    assert "__" + ".png" == "__.png";
  }

  /** ".png" passes both classes unchanged. */
  lemma PngKept()
    ensures SanitizeAsWritten(".png") == ".png" && Sanitize(".png") == ".png"
  {
    KeptUnchanged(".png");
  }

  /** The face alone is two code units, so two '_'. */
  lemma AstralFace()
    ensures SanitizeAsWritten("\U{1F600}") == "__" && Sanitize("\U{1F600}") == "__"
  {
    var face := "\U{1F600}";
    assert face[1..] == [];
    assert Piece(face[0], false) == "__";
  }

  /** As written, '-' does not pass: "my-photo.png" is stored as
      "my_photo.png". And '/' does: a name such as "../a-b", should one reach
      the callback, keeps its directory steps. */
  lemma AsWrittenKeepsSlashReplacesHyphen()
    ensures SanitizeAsWritten("my-photo.png") == "my_photo.png"
    ensures SanitizeAsWritten("../a-b") == "../a_b"
    ensures forall name: string :: '/' in name ==> '/' in SanitizeAsWritten(name)
  {
    AsWrittenHyphenExample();
    AsWrittenExample();
    forall name: string | '/' in name ensures '/' in SanitizeAsWritten(name) {
      AsWrittenKeepsSlash(name);
    }
  }

  lemma AsWrittenHyphenExample()
    ensures SanitizeAsWritten("my-photo.png") == "my_photo.png"
  {
    AsWrittenReplacesHyphen("my", "photo.png");
    assert "my" + "-" + "photo.png" == "my-photo.png";
    assert "my" + "_" + "photo.png" == "my_photo.png";
  }

  /** Between two names of characters the class keeps, the hyphen becomes '_'. */
  lemma AsWrittenReplacesHyphen(a: string, b: string)
    requires forall i :: 0 <= i < |a| ==> KeptAsWritten(a[i])
    requires forall i :: 0 <= i < |b| ==> KeptAsWritten(b[i])
    ensures SanitizeAsWritten(a + "-" + b) == a + "_" + b
  {
    AsWrittenConcat(a + "-", b);
    AsWrittenConcat(a, "-");
    KeptUnchanged(a);
    KeptUnchanged(b);
    assert "-"[1..] == [];
    assert SanitizeAsWritten("-") == "_";
  }

  lemma AsWrittenExample()
    ensures SanitizeAsWritten("../a-b") == "../a_b"
  {
    AsWrittenReplacesHyphen("../a", "b");
    assert "../a" + "-" + "b" == "../a-b";
    assert "../a" + "_" + "b" == "../a_b";
  }

  lemma AsWrittenKeepsSlash(name: string)
    requires '/' in name
    ensures '/' in SanitizeAsWritten(name)
  {
    var i :| 0 <= i < |name| && name[i] == '/';
    SanitizeAt(name, i);
    assert SanitizeAsWritten(name)[Utf16Length(name[..i])] == '/';
  }

  /** The intended sanitiser keeps exactly letters, digits, '.', '-' and '_',
      replaces everything else, and so leaves no path separator. */
  lemma SanitizeOutputAlphabet(name: string)
    ensures forall i :: 0 <= i < |Sanitize(name)| ==> Kept(Sanitize(name)[i])
    ensures forall i :: 0 <= i < |name| ==>
              Utf16Length(name[..i]) < |Sanitize(name)| &&
              (Sanitize(name)[Utf16Length(name[..i])] == name[i] <==> Kept(name[i]) || name[i] == '_')
    ensures '/' !in Sanitize(name) && '\\' !in Sanitize(name)
  {
    SanitizeAlphabet(name);
    forall i | 0 <= i < |name|
      ensures Utf16Length(name[..i]) < |Sanitize(name)|
      ensures Sanitize(name)[Utf16Length(name[..i])] == name[i] <==> Kept(name[i]) || name[i] == '_'
    {
      SanitizeAt(name, i);
    }
  }

  /** Sanitising twice is sanitising once, as written and as intended. */
  lemma SanitizeIdempotent(name: string)
    ensures Sanitize(Sanitize(name)) == Sanitize(name)
    ensures SanitizeAsWritten(SanitizeAsWritten(name)) == SanitizeAsWritten(name)
  {
    SanitizeAlphabet(name);
    KeptUnchanged(Sanitize(name));
    KeptUnchanged(SanitizeAsWritten(name));
  }

  /** `${Date.now()}-${sanitizedFileName}`, the clock reading passed in, with
      the intended sanitiser. */
  function StoredFileName(now: nat, originalname: string): string {
    NatToDecimal(now) + "-" + Sanitize(originalname)
  }

  /** The stored name is the timestamp's digits, one '-', then the sanitised
      name, which has as many characters as the original has code units and
      contains no '/'. */
  lemma StoredFileNameShape(now: nat, originalname: string)
    ensures var s := StoredFileName(now, originalname);
            var d := NatToDecimal(now);
            |s| == |d| + 1 + Utf16Length(originalname) &&
            s[..|d|] == d && s[|d|] == '-' && s[|d| + 1..] == Sanitize(originalname) &&
            '/' !in s
  {
    SanitizeOutputAlphabet(originalname);
    var s := StoredFileName(now, originalname);
    var d := NatToDecimal(now);
    assert forall i :: 0 <= i < |d| ==> s[i] == d[i] && IsDigit(s[i]);
    assert forall i :: |d| + 1 <= i < |s| ==> s[i] == Sanitize(originalname)[i - |d| - 1];
  }

  /** `${Date.now()}-${sanitizedFileName}` as the source builds it, with the
      class as written. */
  function StoredFileNameAsWritten(now: nat, originalname: string): string {
    NatToDecimal(now) + "-" + SanitizeAsWritten(originalname)
  }

  /** As written, the stored name has the same shape, but a '/' in the
      original name survives into it and every '-' of the name becomes '_'
      (at the offset of its code units). */
  lemma StoredFileNameAsWrittenShape(now: nat, originalname: string)
    ensures var s := StoredFileNameAsWritten(now, originalname);
            var d := NatToDecimal(now);
            |s| == |d| + 1 + Utf16Length(originalname) &&
            s[..|d|] == d && s[|d|] == '-' && s[|d| + 1..] == SanitizeAsWritten(originalname) &&
            ('/' in originalname ==> '/' in s) &&
            forall i :: 0 <= i < |originalname| && originalname[i] == '-' ==>
              |d| + 1 + Utf16Length(originalname[..i]) < |s| &&
              s[|d| + 1 + Utf16Length(originalname[..i])] == '_'
  {
    var s := StoredFileNameAsWritten(now, originalname);
    var d := NatToDecimal(now);
    forall i | 0 <= i < |originalname| && originalname[i] == '-'
      ensures |d| + 1 + Utf16Length(originalname[..i]) < |s|
      ensures s[|d| + 1 + Utf16Length(originalname[..i])] == '_'
    {
      StoredHyphenAt(now, originalname, i);
    }
    if '/' in originalname {
      AsWrittenKeepsSlash(originalname);
      var j :| 0 <= j < |SanitizeAsWritten(originalname)| && SanitizeAsWritten(originalname)[j] == '/';
      assert s[|d| + 1 + j] == '/';
    }
  }

  lemma StoredHyphenAt(now: nat, originalname: string, i: nat)
    requires i < |originalname| && originalname[i] == '-'
    ensures var s := StoredFileNameAsWritten(now, originalname);
            var k := |NatToDecimal(now)| + 1 + Utf16Length(originalname[..i]);
            k < |s| && s[k] == '_'
  {
    SanitizeAt(originalname, i);
    var d := NatToDecimal(now);
    var k := Utf16Length(originalname[..i]);
    assert StoredFileNameAsWritten(now, originalname)[|d| + 1 + k] == SanitizeAsWritten(originalname)[k];
  }
}
