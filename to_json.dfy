/** The `toJSON` transform that middlewares/applyToJson.js installs on a
    schema: a new object with `_id` first, then the copied schema paths in
    schema order, then the truthy ones of contactDetails, bio, createdAt and
    updatedAt. A JavaScript object keeps its keys in insertion order and
    assigning an existing key keeps its place; the model is an ordered list of
    entries with that behaviour. */
module ToJson {
  import opened Json

  /** An insertion-ordered object. */
  type Entries = seq<(string, Value)>

  function KeysOf(m: Entries): (r: seq<string>)
    ensures |r| == |m| && forall i :: 0 <= i < |m| ==> r[i] == m[i].0
  {
    seq(|m|, i requires 0 <= i < |m| => m[i].0)
  }

  /** The position of the first occurrence of k. */
  function IndexOf(ks: seq<string>, k: string): (r: nat)
    requires k in ks
    ensures r < |ks| && ks[r] == k && k !in ks[..r]
  {
    if ks[0] == k then 0 else 1 + IndexOf(ks[1..], k)
  }

  /** `o[k] = v`: an existing key keeps its place, a new key goes last. */
  function Set(m: Entries, k: string, v: Value): Entries {
    var ks := KeysOf(m);
    if k in ks then m[IndexOf(ks, k) := (k, v)] else m + [(k, v)]
  }

  /** `Object.assign(target, source)`: the source's entries assigned in order. */
  function AssignAll(target: Entries, source: Entries): Entries
    decreases |source|
  {
    if source == [] then target
    else Set(AssignAll(target, source[..|source| - 1]), source[|source| - 1].0, source[|source| - 1].1)
  }

  /** The keys of ks followed by the keys of add not seen before, in order. */
  function AppendNew(ks: seq<string>, add: seq<string>): seq<string>
    decreases |add|
  {
    if add == [] then ks
    else
      var r := AppendNew(ks, add[..|add| - 1]);
      if add[|add| - 1] in r then r else r + [add[|add| - 1]]
  }

  /** The elements of xs that are not in ys, in order. */
  function Outside(xs: seq<string>, ys: seq<string>): (r: seq<string>)
    decreases |xs|
  {
    if xs == [] then []
    else
      var r := Outside(xs[..|xs| - 1], ys);
      if xs[|xs| - 1] in ys then r else r + [xs[|xs| - 1]]
  }

  predicate Distinct(ks: seq<string>) {
    forall i, j :: 0 <= i < j < |ks| ==> ks[i] != ks[j]
  }

  /** Every entry holds `ret`'s value for its key. */
  predicate Agrees(m: Entries, ret: Doc) {
    forall i :: 0 <= i < |m| ==> m[i].1 == Get(ret, m[i].0)
  }

  // ---------------------------------------------------------- schema paths

  /** What a path's options say about its `type`. */
  datatype TypeOption = NoOptions | NoType | ScalarType | ArrayType

  /** One entry of `schema.paths`: its name, its `instance` and its options. */
  datatype PathDecl = PathDecl(path: string, instance: string, options: TypeOption)

  const SimpleTypes := ["String", "Number", "Date", "Boolean"]
  const TrailingOrder := ["contactDetails", "bio", "createdAt", "updatedAt"]

  /** The forEach body copies a path, other than `__v`, when its instance is a
      simple type, or its options carry a type, or it is an array. */
  predicate Copied(p: PathDecl) {
    p.path != "__v" &&
    (p.instance in SimpleTypes || p.options == ScalarType || p.options == ArrayType || p.instance == "Array")
  }

  /** `otherProps` after the forEach over the given paths. */
  function OtherProps(paths: seq<PathDecl>, ret: Doc): Entries
    decreases |paths|
  {
    if paths == [] then []
    else
      var r := OtherProps(paths[..|paths| - 1], ret);
      var p := paths[|paths| - 1];
      if Copied(p) then Set(r, p.path, Get(ret, p.path)) else r
  }

  /** The names of the copied paths, in schema order. */
  function CopiedPaths(paths: seq<PathDecl>): (r: seq<string>)
    ensures |r| <= |paths|
    decreases |paths|
  {
    if paths == [] then []
    else
      var r := CopiedPaths(paths[..|paths| - 1]);
      if Copied(paths[|paths| - 1]) then r + [paths[|paths| - 1].path] else r
  }

  /** The trailing keys set by the four `if (ret.k)` statements. */
  function TrailingKeys(ret: Doc): seq<string> {
    (if Truthy(Get(ret, "contactDetails")) then ["contactDetails"] else []) +
    (if Truthy(Get(ret, "bio")) then ["bio"] else []) +
    (if Truthy(Get(ret, "createdAt")) then ["createdAt"] else []) +
    (if Truthy(Get(ret, "updatedAt")) then ["updatedAt"] else [])
  }

  /** Assigning each of the keys with its value in `ret`. */
  function FromRet(ks: seq<string>, ret: Doc): (r: Entries)
    ensures KeysOf(r) == ks && Agrees(r, ret)
  {
    seq(|ks|, i requires 0 <= i < |ks| => (ks[i], Get(ret, ks[i])))
  }

  /** The object the transform returns. */
  function Transformed(paths: seq<PathDecl>, ret: Doc): Entries {
    AssignAll(Assigned(paths, ret), FromRet(TrailingKeys(ret), ret))
  }

  /** `schema.paths` is an object: its keys are distinct. */
  predicate WellFormed(paths: seq<PathDecl>) {
    forall i, j :: 0 <= i < j < |paths| ==> paths[i].path != paths[j].path
  }

  /** `transform(doc, ret)`, with the forEach over the schema paths. */
  method Transform(paths: seq<PathDecl>, ret: Doc) returns (transformed: Entries)
    ensures transformed == Transformed(paths, ret)
  {
    transformed := [("_id", Get(ret, "_id"))];
    var otherProps: Entries := [];
    var i := 0;
    while i < |paths|
      invariant 0 <= i <= |paths|
      invariant otherProps == OtherProps(paths[..i], ret)
    {
      var p := paths[i];
      assert paths[..i + 1][..i] == paths[..i];
      if p.path != "__v" {
        if p.instance in SimpleTypes {
          otherProps := Set(otherProps, p.path, Get(ret, p.path));
        } else if p.options == ScalarType || p.options == ArrayType {
          otherProps := Set(otherProps, p.path, Get(ret, p.path));
        } else if p.instance == "Array" || p.options == ArrayType {
          otherProps := Set(otherProps, p.path, Get(ret, p.path));
        }
      }
      i := i + 1;
    }
    assert paths[..|paths|] == paths;
    transformed := AssignAll(transformed, otherProps);
    ghost var base := transformed;
    ghost var t1 := if Truthy(Get(ret, "contactDetails")) then ["contactDetails"] else [];
    ghost var t2 := t1 + (if Truthy(Get(ret, "bio")) then ["bio"] else []);
    ghost var t3 := t2 + (if Truthy(Get(ret, "createdAt")) then ["createdAt"] else []);
    if Truthy(Get(ret, "contactDetails")) {
      transformed := Set(transformed, "contactDetails", Get(ret, "contactDetails"));
    }
    AssignOneMore(base, [], "contactDetails", ret, Truthy(Get(ret, "contactDetails")));
    if Truthy(Get(ret, "bio")) {
      transformed := Set(transformed, "bio", Get(ret, "bio"));
    }
    AssignOneMore(base, t1, "bio", ret, Truthy(Get(ret, "bio")));
    if Truthy(Get(ret, "createdAt")) {
      transformed := Set(transformed, "createdAt", Get(ret, "createdAt"));
    }
    AssignOneMore(base, t2, "createdAt", ret, Truthy(Get(ret, "createdAt")));
    if Truthy(Get(ret, "updatedAt")) {
      transformed := Set(transformed, "updatedAt", Get(ret, "updatedAt"));
    }
    AssignOneMore(base, t3, "updatedAt", ret, Truthy(Get(ret, "updatedAt")));
  }

  /** One more conditional assignment extends the assigned key list by that key. */
  lemma AssignOneMore(base: Entries, ks: seq<string>, k: string, ret: Doc, taken: bool)
    ensures var ks' := ks + (if taken then [k] else []);
            AssignAll(base, FromRet(ks', ret)) ==
            if taken then Set(AssignAll(base, FromRet(ks, ret)), k, Get(ret, k)) else AssignAll(base, FromRet(ks, ret))
  {
    var ks' := ks + (if taken then [k] else []);
    if taken {
      assert FromRet(ks', ret)[..|ks'| - 1] == FromRet(ks, ret);
    } else {
      assert ks' == ks;
    }
  }

  // ---------------------------------------------------------- ordered maps

  /** Assignment keeps every earlier key in place and adds a new key last. */
  lemma SetKeys(m: Entries, k: string, v: Value)
    ensures KeysOf(Set(m, k, v)) == AppendNew(KeysOf(m), [k])
  {
    var ks := KeysOf(m);
    assert [k][..0] == [];
    if k in ks {
      var i := IndexOf(ks, k);
      assert KeysOf(Set(m, k, v)) == ks;
    } else {
      assert KeysOf(m + [(k, v)]) == ks + [k];
    }
  }

  /** An assignment of ret's own value keeps every entry equal to ret's value. */
  lemma SetAgrees(m: Entries, k: string, ret: Doc)
    requires Agrees(m, ret)
    ensures Agrees(Set(m, k, Get(ret, k)), ret)
  {
  }

  /** `Object.assign` appends the new keys of the source after the target's keys. */
  lemma {:induction false} AssignAllKeys(target: Entries, source: Entries)
    ensures KeysOf(AssignAll(target, source)) == AppendNew(KeysOf(target), KeysOf(source))
    decreases |source|
  {
    if source != [] {
      var n := |source| - 1;
      AssignAllKeys(target, source[..n]);
      SetKeys(AssignAll(target, source[..n]), source[n].0, source[n].1);
      assert KeysOf(source)[..n] == KeysOf(source[..n]);
      assert AppendNew(AppendNew(KeysOf(target), KeysOf(source[..n])), [source[n].0]) ==
             AppendNew(KeysOf(target), KeysOf(source)) by {
        assert [source[n].0][..0] == [];
      }
    }
  }

  lemma {:induction false} AssignAllAgrees(target: Entries, source: Entries, ret: Doc)
    requires Agrees(target, ret) && Agrees(source, ret)
    ensures Agrees(AssignAll(target, source), ret)
    decreases |source|
  {
    if source != [] {
      var n := |source| - 1;
      AssignAllAgrees(target, source[..n], ret);
      SetAgrees(AssignAll(target, source[..n]), source[n].0, ret);
    }
  }

  /** The forEach's keys are the copied paths. */
  lemma {:induction false} OtherPropsShape(paths: seq<PathDecl>, ret: Doc)
    ensures KeysOf(OtherProps(paths, ret)) == AppendNew([], CopiedPaths(paths))
    ensures Agrees(OtherProps(paths, ret), ret)
    decreases |paths|
  {
    if paths != [] {
      var n := |paths| - 1;
      OtherPropsShape(paths[..n], ret);
      var r := OtherProps(paths[..n], ret);
      if Copied(paths[n]) {
        SetKeys(r, paths[n].path, Get(ret, paths[n].path));
        SetAgrees(r, paths[n].path, ret);
        var c := CopiedPaths(paths[..n]);
        assert (c + [paths[n].path])[..|c|] == c;
        assert AppendNew(AppendNew([], c), [paths[n].path]) == AppendNew([], c + [paths[n].path]) by {
          assert [paths[n].path][..0] == [];
        }
      }
    }
  }

  /** AppendNew keeps the prefix and adds exactly the elements not yet present. */
  lemma {:induction false} AppendNewMembers(ks: seq<string>, add: seq<string>)
    ensures forall x :: x in AppendNew(ks, add) <==> x in ks || x in add
    ensures Distinct(ks) ==> Distinct(AppendNew(ks, add))
    decreases |add|
  {
    if add != [] {
      var n := |add| - 1;
      AppendNewMembers(ks, add[..n]);
      assert add == add[..n] + [add[n]];
    }
  }

  /** On a list without repeats, AppendNew adds the elements lying outside ks. */
  lemma {:induction false} AppendNewDistinct(ks: seq<string>, add: seq<string>)
    requires Distinct(add)
    ensures AppendNew(ks, add) == ks + Outside(add, ks)
    decreases |add|
  {
    if add != [] {
      var n := |add| - 1;
      var r := AppendNew(ks, add[..n]);
      AppendNewDistinct(ks, add[..n]);
      AppendNewMembers(ks, add[..n]);
      assert add[n] !in add[..n];
      assert add[n] in r <==> add[n] in ks;
      if add[n] !in ks {
        assert ks + Outside(add, ks) == (ks + Outside(add[..n], ks)) + [add[n]];
      }
    }
  }

  /** The copied paths are schema paths other than `__v`, and are distinct. */
  lemma {:induction false} CopiedPathsMembers(paths: seq<PathDecl>)
    ensures forall x :: x in CopiedPaths(paths) <==> exists i :: 0 <= i < |paths| && paths[i].path == x && Copied(paths[i])
    ensures WellFormed(paths) ==> Distinct(CopiedPaths(paths))
    decreases |paths|
  {
    if paths != [] {
      var n := |paths| - 1;
      CopiedPathsMembers(paths[..n]);
      forall x ensures x in CopiedPaths(paths) <==> exists i :: 0 <= i < |paths| && paths[i].path == x && Copied(paths[i]) {
        if x in CopiedPaths(paths) && x !in CopiedPaths(paths[..n]) {
          assert paths[n].path == x && Copied(paths[n]);
        }
        if exists i :: 0 <= i < |paths| && paths[i].path == x && Copied(paths[i]) {
          var i :| 0 <= i < |paths| && paths[i].path == x && Copied(paths[i]);
          if i < n {
            assert paths[..n][i] == paths[i];
          }
        }
      }
      if WellFormed(paths) {
        assert WellFormed(paths[..n]);
        if Copied(paths[n]) {
          assert paths[n].path !in CopiedPaths(paths[..n]);
        }
      }
    }
  }

  // --------------------------------------------------------- the transform

  /** The object after `Object.assign(transformed, otherProps)`. */
  function Assigned(paths: seq<PathDecl>, ret: Doc): Entries {
    AssignAll([("_id", Get(ret, "_id"))], OtherProps(paths, ret))
  }

  /** After the assign step: `_id`, then the copied paths other than `_id`. */
  lemma AssignedShape(paths: seq<PathDecl>, ret: Doc)
    requires WellFormed(paths)
    ensures KeysOf(Assigned(paths, ret)) == ["_id"] + Outside(CopiedPaths(paths), ["_id"])
    ensures Agrees(Assigned(paths, ret), ret)
  {
    var c := CopiedPaths(paths);
    var other := OtherProps(paths, ret);
    var start: Entries := [("_id", Get(ret, "_id"))];
    assert KeysOf(other) == c by {
      OtherPropsShape(paths, ret);
      CopiedPathsMembers(paths);
      AppendNewDistinct([], c);
      OutsideNothing(c);
    }
    assert KeysOf(Assigned(paths, ret)) == AppendNew(["_id"], c) by {
      AssignAllKeys(start, other);
      assert KeysOf(start) == ["_id"];
    }
    assert Distinct(c) by {
      CopiedPathsMembers(paths);
    }
    AppendNewDistinct(["_id"], c);
    assert Agrees(other, ret) by {
      OtherPropsShape(paths, ret);
    }
    AssignAllAgrees(start, other, ret);
  }

  lemma TrailingKeysDistinct(ret: Doc)
    ensures Distinct(TrailingKeys(ret))
    ensures forall k :: k in TrailingKeys(ret) <==> k in TrailingOrder && Truthy(Get(ret, k))
  {
  }

  /** The output's keys in order: `_id`, then the copied schema paths in
      schema order, then the truthy trailing keys that are not already there;
      every value is `ret`'s value for its key. */
  lemma TransformedShape(paths: seq<PathDecl>, ret: Doc)
    requires WellFormed(paths)
    ensures var a := Outside(CopiedPaths(paths), ["_id"]);
            KeysOf(Transformed(paths, ret)) == ["_id"] + a + Outside(TrailingKeys(ret), ["_id"] + a)
    ensures Agrees(Transformed(paths, ret), ret)
  {
    var mid := Assigned(paths, ret);
    AssignedShape(paths, ret);
    TrailingKeysDistinct(ret);
    AssignAllKeys(mid, FromRet(TrailingKeys(ret), ret));
    AppendNewDistinct(KeysOf(mid), TrailingKeys(ret));
    AssignAllAgrees(mid, FromRet(TrailingKeys(ret), ret), ret);
  }

  lemma {:induction false} OutsideNothing(xs: seq<string>)
    ensures Outside(xs, []) == xs
    decreases |xs|
  {
    if xs != [] {
      OutsideNothing(xs[..|xs| - 1]);
    }
  }

  lemma {:induction false} OutsideMembers(xs: seq<string>, ys: seq<string>)
    ensures forall x :: x in Outside(xs, ys) <==> x in xs && x !in ys
    ensures Distinct(xs) ==> Distinct(Outside(xs, ys))
    decreases |xs|
  {
    if xs != [] {
      var n := |xs| - 1;
      OutsideMembers(xs[..n], ys);
      assert xs == xs[..n] + [xs[n]];
    }
  }

  /** A head element, a list without it, and a list of elements in neither, each without repeats. */
  lemma DistinctJoin(h: string, a: seq<string>, b: seq<string>)
    requires h !in a && Distinct(a) && Distinct(b)
    requires forall x :: x in b ==> x != h && x !in a
    ensures Distinct([h] + a + b)
  {
    var ks := [h] + a + b;
    forall i, j | 0 <= i < j < |ks| ensures ks[i] != ks[j] {
      if i == 0 {
        assert ks[j] in a + b;
      } else if j <= |a| {
        assert ks[i] == a[i - 1] && ks[j] == a[j - 1];
      } else if i <= |a| {
        assert ks[i] in a && ks[j] == b[j - 1 - |a|];
      } else {
        assert ks[i] == b[i - 1 - |a|] && ks[j] == b[j - 1 - |a|];
      }
    }
  }

  /** `_id` comes first and holds `ret._id`, and no key appears twice. */
  lemma TransformedFirstAndDistinct(paths: seq<PathDecl>, ret: Doc)
    requires WellFormed(paths)
    ensures var t := Transformed(paths, ret);
            |t| >= 1 && t[0] == ("_id", Get(ret, "_id")) && Distinct(KeysOf(t))
  {
    TransformedShape(paths, ret);
    var c := CopiedPaths(paths);
    assert Distinct(c) by { CopiedPathsMembers(paths); }
    var a := Outside(c, ["_id"]);
    OutsideMembers(c, ["_id"]);
    var b := Outside(TrailingKeys(ret), ["_id"] + a);
    TrailingKeysDistinct(ret);
    OutsideMembers(TrailingKeys(ret), ["_id"] + a);
    DistinctJoin("_id", a, b);
    assert KeysOf(Transformed(paths, ret))[0] == "_id";
  }

  /** A key appears exactly when it is `_id`, a copied schema path, or a
      trailing key whose value is truthy; so `__v` never appears. */
  lemma TransformedKeys(paths: seq<PathDecl>, ret: Doc)
    requires WellFormed(paths)
    ensures var ks := KeysOf(Transformed(paths, ret));
            forall k :: k in ks <==>
              k == "_id" ||
              (exists i :: 0 <= i < |paths| && paths[i].path == k && Copied(paths[i])) ||
              (k in TrailingOrder && Truthy(Get(ret, k)))
    ensures "__v" !in KeysOf(Transformed(paths, ret))
  {
    TransformedShape(paths, ret);
    var c := CopiedPaths(paths);
    CopiedPathsMembers(paths);
    var a := Outside(c, ["_id"]);
    OutsideMembers(c, ["_id"]);
    OutsideMembers(TrailingKeys(ret), ["_id"] + a);
    TrailingKeysDistinct(ret);
    assert "__v" !in TrailingOrder;
  }

  /** A copied path whose value in `ret` is undefined is still a key of the
      output, holding undefined (JSON serialisation drops it later). */
  lemma UndefinedPathStillCopied(paths: seq<PathDecl>, ret: Doc, k: nat)
    requires WellFormed(paths) && k < |paths| && Copied(paths[k]) && paths[k].path !in ret
    ensures paths[k].path in KeysOf(Transformed(paths, ret))
    ensures forall j :: 0 <= j < |Transformed(paths, ret)| && Transformed(paths, ret)[j].0 == paths[k].path ==>
              Transformed(paths, ret)[j].1 == Undefined
  {
    TransformedKeys(paths, ret);
    TransformedShape(paths, ret);
  }

  /** Copied schema paths keep schema order: of two copied paths, the earlier
      in the schema comes earlier in the output. */
  lemma SchemaOrderKept(paths: seq<PathDecl>, ret: Doc, i: nat, j: nat)
    requires WellFormed(paths) && i < j < |paths| && Copied(paths[i]) && Copied(paths[j])
    requires paths[i].path != "_id" && paths[j].path != "_id"
    ensures var ks := KeysOf(Transformed(paths, ret));
            paths[i].path in ks && paths[j].path in ks &&
            IndexOf(ks, paths[i].path) < IndexOf(ks, paths[j].path)
  {
    var c := CopiedPaths(paths);
    var a := Outside(c, ["_id"]);
    var pi, pj := CopiedPathsOrder(paths, i, j);
    var qi, qj := OutsideOrder(c, ["_id"], pi, pj);
    TransformedShape(paths, ret);
    TransformedFirstAndDistinct(paths, ret);
    OrderAfterId(KeysOf(Transformed(paths, ret)), a, Outside(TrailingKeys(ret), ["_id"] + a), qi, qj);
  }

  lemma OrderAfterId(ks: seq<string>, a: seq<string>, b: seq<string>, qi: nat, qj: nat)
    requires Distinct(ks) && ks == ["_id"] + a + b && qi < qj < |a|
    ensures a[qi] in ks && a[qj] in ks && IndexOf(ks, a[qi]) < IndexOf(ks, a[qj])
  {
    assert ks[qi + 1] == a[qi] && ks[qj + 1] == a[qj];
    DistinctIndex(ks, qi + 1);
    DistinctIndex(ks, qj + 1);
  }

  lemma DistinctIndex(ks: seq<string>, p: nat)
    requires Distinct(ks) && p < |ks|
    ensures IndexOf(ks, ks[p]) == p
  {
    var q := IndexOf(ks, ks[p]);
    assert ks[q] == ks[p];
  }

  lemma {:induction false} CopiedPathsOrder(paths: seq<PathDecl>, i: nat, j: nat) returns (pi: nat, pj: nat)
    requires i < j < |paths| && Copied(paths[i]) && Copied(paths[j])
    ensures pi < pj < |CopiedPaths(paths)|
    ensures CopiedPaths(paths)[pi] == paths[i].path && CopiedPaths(paths)[pj] == paths[j].path
    decreases |paths|
  {
    var n := |paths| - 1;
    var c := CopiedPaths(paths);
    var c0 := CopiedPaths(paths[..n]);
    assert c == c0 || c == c0 + [paths[n].path];
    if j < n {
      assert paths[..n][i] == paths[i] && paths[..n][j] == paths[j];
      pi, pj := CopiedPathsOrder(paths[..n], i, j);
    } else {
      CopiedPathsMembers(paths[..n]);
      assert paths[..n][i] == paths[i];
      assert paths[i].path in c0;
      var k :| 0 <= k < |c0| && c0[k] == paths[i].path;
      pi, pj := k, |c0|;
    }
  }

  lemma {:induction false} OutsideOrder(xs: seq<string>, ys: seq<string>, i: nat, j: nat) returns (qi: nat, qj: nat)
    requires i < j < |xs| && xs[i] !in ys && xs[j] !in ys
    ensures qi < qj < |Outside(xs, ys)|
    ensures Outside(xs, ys)[qi] == xs[i] && Outside(xs, ys)[qj] == xs[j]
    decreases |xs|
  {
    var n := |xs| - 1;
    var o := Outside(xs, ys);
    var o0 := Outside(xs[..n], ys);
    assert o == o0 || o == o0 + [xs[n]];
    if j < n {
      assert xs[..n][i] == xs[i] && xs[..n][j] == xs[j];
      qi, qj := OutsideOrder(xs[..n], ys, i, j);
    } else {
      OutsideMembers(xs[..n], ys);
      assert xs[..n][i] == xs[i];
      var k :| 0 <= k < |o0| && o0[k] == xs[i];
      qi, qj := k, |o0|;
    }
  }
}
