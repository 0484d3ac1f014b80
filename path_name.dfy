/** The POSIX `path.basename` and `path.extname` of Node.js, which the upload
    filter and the download route apply to client-supplied file names. */
module PathName {
  import opened Wrappers

  /** The path without its trailing '/' characters. */
  function StripTrailingSlashes(p: string): (r: string)
    ensures |r| <= |p| && r == p[..|r|]
    ensures r == [] || r[|r| - 1] != '/'
    ensures forall i :: |r| <= i < |p| ==> p[i] == '/'
  {
    if p != [] && p[|p| - 1] == '/' then StripTrailingSlashes(p[..|p| - 1]) else p
  }

  /** The index of the last occurrence of c in s. */
  function LastIndexOf(s: string, c: char): (r: Option<nat>)
    ensures r.None? <==> c !in s
    ensures r.Some? ==> r.value < |s| && s[r.value] == c && c !in s[r.value + 1..]
  {
    if s == [] then None
    else if s[|s| - 1] == c then Some(|s| - 1)
    else
      var r := LastIndexOf(s[..|s| - 1], c);
      assert r.Some? ==> s[r.value + 1..] == s[..|s| - 1][r.value + 1..] + [s[|s| - 1]];
      r
  }

  /** `path.basename(p)`: the last segment, trailing separators ignored. The
      result is the longest suffix without '/' of the path stripped of its
      trailing separators. */
  function Basename(p: string): (r: string)
    ensures var t := StripTrailingSlashes(p);
            |r| <= |t| && r == t[|t| - |r|..] && '/' !in r &&
            (|r| < |t| ==> t[|t| - |r| - 1] == '/')
  {
    var t := StripTrailingSlashes(p);
    match LastIndexOf(t, '/')
    case None => t
    case Some(i) => t[i + 1..]
  }

  /** `path.extname(p)`: from the last '.' of the basename to its end; empty
      when the basename has no '.', when its only leading character is the '.'
      (a dot-file such as ".png"), and for "..". */
  function ExtName(p: string): (r: string)
    ensures r == [] || r[0] == '.'
    ensures '/' !in r
    ensures var b := Basename(p);
            (r == [] <==> b == [] || b == ".." || '.' !in b[1..]) &&
            (r != [] ==> |r| < |b| && r == b[|b| - |r|..] && '.' !in r[1..])
  {
    var b := Basename(p);
    assert '/' !in b;
    ExtOf(b)
  }

  /** The extension of a base name b. */
  function ExtOf(b: string): (r: string)
    ensures r == [] || r[0] == '.'
    ensures '/' !in b ==> '/' !in r
    ensures r == [] <==> b == [] || b == ".." || '.' !in b[1..]
    ensures r != [] ==> |r| < |b| && r == b[|b| - |r|..] && '.' !in r[1..]
  {
    if b == ".." then ""
    else
      match LastIndexOf(b, '.')
      case None =>
        assert b != [] ==> '.' !in b[1..] by {
          if b != [] {
            assert forall i :: 0 <= i < |b| - 1 ==> b[1..][i] == b[i + 1];
          }
        }
        ""
      case Some(d) =>
        if d == 0 then ""
        else
          assert b[1..][d - 1] == '.';
          assert b[d..][1..] == b[d + 1..];
          b[d..]
  }
}
