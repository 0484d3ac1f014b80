/** The dynamic list endpoint of the generic CRUD controller
    (controllers/crud/bulk/read.js): field lists derived from the schema,
    the filter document built from query-string keys, the sort document,
    and the pagination figures of the response. */
module BulkRead {
  import opened Wrappers
  import opened Text
  import opened FilterDoc
  import Json
  import Http
  import SingleRead

  /** One entry of `Model.schema.paths`: a path and its `instance` type name. */
  datatype SchemaPath = SchemaPath(path: string, instance: string)

  /** The schema's paths in declaration order. */
  type Schema = seq<SchemaPath>

  /** `Object.keys(Model.schema.paths)`. */
  function Paths(schema: Schema): (r: seq<string>)
    ensures |r| == |schema|
    ensures forall i :: 0 <= i < |schema| ==> r[i] == schema[i].path
  {
    if schema == [] then [] else [schema[0].path] + Paths(schema[1..])
  }

  /** `Model.schema.paths[field]?.instance`. */
  function InstanceOf(schema: Schema, field: string): (r: Option<string>)
    ensures r.Some? <==> field in Paths(schema)
  {
    if schema == [] then None
    else if schema[0].path == field then Some(schema[0].instance)
    else InstanceOf(schema[1..], field)
  }

  predicate HasInstance(schema: Schema, field: string, types: seq<string>) {
    var t := InstanceOf(schema, field);
    t.Some? && t.value in types
  }

  /** The instance types a `min`/`max` bound is written for. */
  const RangeTypes: seq<string> := ["Date", "Number", "Decimal128", "Int32", "Int64", "Timestamp", "Double"]

  /** The instance types a `contains` key applies to. */
  const ContainsTypes: seq<string> := ["Code", "RegExp", "Binary", "Symbol"]

  /** The query-string keys `readItems` takes for itself; all others are filters. */
  const ReservedKeys: seq<string> :=
    ["page", "limit", "offset", "keyword", "sortField", "distinctField", "groupByField", "sortOrder", "language", "random"]

  // ---------------------------------------------------------------- field lists

  /** `fields.filter(field => !drop.includes(field))`. */
  function Without(fields: seq<string>, drop: seq<string>): (r: seq<string>)
    ensures |r| <= |fields|
    ensures forall f :: f in r <==> f in fields && f !in drop
  {
    if fields == [] then []
    else (if fields[0] in drop then [] else [fields[0]]) + Without(fields[1..], drop)
  }

  /** The default searchable and sortable fields: every path but `_id` and `__v`. */
  function DefaultFields(schema: Schema): seq<string> {
    Without(Paths(schema), ["_id", "__v"])
  }

  /** The searchable (or sortable) fields after `excludedFields` is applied;
      `given` is the list the controller's options supply, if any. */
  function ValidFields(schema: Schema, given: Option<seq<string>>, excluded: seq<string>): (r: seq<string>)
    ensures forall f :: f in r ==> f !in excluded
    ensures forall f :: f in r <==> f in given.GetOr(DefaultFields(schema)) && f !in excluded
    ensures given.None? ==> forall f :: f in r <==> f in Paths(schema) && f != "_id" && f != "__v" && f !in excluded
  {
    Without(given.GetOr(DefaultFields(schema)), excluded)
  }

  /** The filter entries: the query-string pairs whose key is not reserved, in order. */
  function FilterEntries(q: seq<(string, string)>): (r: seq<(string, string)>)
    ensures forall e :: e in r <==> e in q && e.0 !in ReservedKeys
    ensures (forall i :: 0 <= i < |q| ==> q[i].0 !in ReservedKeys) ==> r == q
  {
    if q == [] then []
    else Kept(q[0]) + FilterEntries(q[1..])
  }

  /** The filter entries keep the query's order: those of a prefix come
      before those of the rest. */
  lemma {:induction false} FilterEntriesInOrder(a: seq<(string, string)>, b: seq<(string, string)>)
    ensures FilterEntries(a + b) == FilterEntries(a) + FilterEntries(b)
    decreases |a|
  {
    if a == [] {
      assert a + b == b;
    } else {
      var h := Kept(a[0]);
      var t := a[1..];
      assert a == [a[0]] + t;
      assert a + b == [a[0]] + (t + b);
      calc {
        FilterEntries(a + b);
        { FilterEntriesCons(a[0], t + b); }
        h + FilterEntries(t + b);
        { FilterEntriesInOrder(t, b); }
        h + (FilterEntries(t) + FilterEntries(b));
        (h + FilterEntries(t)) + FilterEntries(b);
        { FilterEntriesCons(a[0], t); }
        FilterEntries(a) + FilterEntries(b);
      }
    }
  }

  /** The pair itself when its key is not reserved, nothing otherwise. */
  function Kept(e: (string, string)): seq<(string, string)> {
    if e.0 in ReservedKeys then [] else [e]
  }

  lemma FilterEntriesCons(e: (string, string), q: seq<(string, string)>)
    ensures FilterEntries([e] + q) == Kept(e) + FilterEntries(q)
  {
    assert ([e] + q)[0] == e && ([e] + q)[1..] == q;
  }

  /** A single pair is kept exactly when its key is not reserved. */
  lemma FilterEntriesOfOne(e: (string, string))
    ensures FilterEntries([e]) == if e.0 in ReservedKeys then [] else [e]
  {
    assert [e][1..] == [];
  }


  // ------------------------------------------------------------------ keyword

  /** `${field}.${language}`: an absent language renders as "undefined". */
  function LocalizedField(field: string, language: Option<string>): string {
    field + "." + language.GetOr("undefined")
  }

  /** The path a keyword clause for `field` targets. */
  function SearchTarget(schema: Schema, field: string, language: Option<string>): string {
    var localized := LocalizedField(field, language);
    if localized in Paths(schema) then localized else field
  }

  predicate IsStringField(schema: Schema, field: string) {
    InstanceOf(schema, field) == Some("String")
  }

  /** The searchable fields whose schema type is String, in order. */
  function StringFields(schema: Schema, fields: seq<string>): (r: seq<string>)
    ensures |r| <= |fields|
    ensures forall f :: f in r <==> f in fields && IsStringField(schema, f)
  {
    if fields == [] then []
    else (if IsStringField(schema, fields[0]) then [fields[0]] else []) + StringFields(schema, fields[1..])
  }

  function KeywordClause(schema: Schema, field: string, keyword: string, language: Option<string>): map<string, Cond> {
    map[SearchTarget(schema, field, language) := Regex(keyword)]
  }

  /** The `$or` clauses for a keyword: one per searchable String field. */
  function OrClauses(schema: Schema, fields: seq<string>, keyword: string, language: Option<string>): seq<map<string, Cond>> {
    if fields == [] then []
    else
      (if IsStringField(schema, fields[0]) then [KeywordClause(schema, fields[0], keyword, language)] else [])
      + OrClauses(schema, fields[1..], keyword, language)
  }

  /** Exactly one clause per searchable String field, in field order, each a
      case-insensitive regex on the localized path when the schema has it and
      on the field itself otherwise. */
  lemma {:induction false} OrClausesOnePerStringField(schema: Schema, fields: seq<string>, keyword: string, language: Option<string>)
    ensures var cs := OrClauses(schema, fields, keyword, language);
            var sf := StringFields(schema, fields);
            |cs| == |sf| &&
            forall i :: 0 <= i < |cs| ==> cs[i] == KeywordClause(schema, sf[i], keyword, language)
  {
    if fields != [] {
      OrClausesOnePerStringField(schema, fields[1..], keyword, language);
      var cs' := OrClauses(schema, fields[1..], keyword, language);
      var sf' := StringFields(schema, fields[1..]);
      if IsStringField(schema, fields[0]) {
        assert OrClauses(schema, fields, keyword, language) == [KeywordClause(schema, fields[0], keyword, language)] + cs';
        assert StringFields(schema, fields) == [fields[0]] + sf';
        ConsClause(schema, fields[0], cs', sf', keyword, language);
      } else {
        assert OrClauses(schema, fields, keyword, language) == cs';
        assert StringFields(schema, fields) == sf';
      }
    }
  }

  lemma ConsClause(schema: Schema, f: string, cs: seq<map<string, Cond>>, sf: seq<string>, keyword: string, language: Option<string>)
    requires |cs| == |sf| && forall i :: 0 <= i < |cs| ==> cs[i] == KeywordClause(schema, sf[i], keyword, language)
    ensures var cs' := [KeywordClause(schema, f, keyword, language)] + cs;
            var sf' := [f] + sf;
            |cs'| == |sf'| && forall i :: 0 <= i < |cs'| ==> cs'[i] == KeywordClause(schema, sf'[i], keyword, language)
  {
    var cs' := [KeywordClause(schema, f, keyword, language)] + cs;
    var sf' := [f] + sf;
    forall i | 1 <= i < |cs'| ensures cs'[i] == KeywordClause(schema, sf'[i], keyword, language) {
      assert cs'[i] == cs[i - 1] && sf'[i] == sf[i - 1];
    }
  }

  /** A clause targets the localized path exactly when the schema has that path. */
  lemma SearchTargetLocalizedIffInSchema(schema: Schema, field: string, language: Option<string>)
    ensures (SearchTarget(schema, field, language) == LocalizedField(field, language))
              <==> (LocalizedField(field, language) in Paths(schema))
    ensures SearchTarget(schema, field, language) in {field, LocalizedField(field, language)}
  {
    assert |LocalizedField(field, language)| > |field|;
  }

  /** A keyword that is neither absent nor empty. */
  predicate KeywordGiven(keyword: Option<string>) {
    keyword.Some? && keyword.value != ""
  }

  function KeywordTooLongMessage(maxKeywordLength: nat): string {
    "Keyword too long. Maximum length is " + NatToDecimal(maxKeywordLength) + " characters."
  }

  // ------------------------------------------------------- one filter entry

  /** `key.slice(n).charAt(0).toLowerCase() + key.slice(n + 1)`: the field a
      prefixed key names. */
  function FieldName(key: string, n: nat): string {
    Lower(CharAt(key, n)) + Drop(key, n + 1)
  }

  lemma FieldNameLowersFirstLetter(prefix: string, c: char, rest: string)
    ensures FieldName(prefix + [c] + rest, |prefix|) == [LowerChar(c)] + rest
  {
    var key := prefix + [c] + rest;
    assert CharAt(key, |prefix|) == [c];
    assert Drop(key, |prefix| + 1) == rest;
  }

  /** `query[field] || {}`. */
  function OrEmpty(query: Query, field: string): Cond {
    if field in query && Truthy(query[field]) then query[field] else Doc(map[])
  }

  /** `c[op] = x`: an operator object gains (or overwrites) the operator; a
      string or boolean ignores the write, as primitives do outside strict mode.
      An array never stands under a schema path. */
  function WriteOp(c: Cond, op: string, x: Operand): Cond {
    match c
    case Doc(ops) => Doc(ops[op := x])
    case _ => c
  }

  predicate IsMinMax(key: string) { StartsWith(key, "min") || StartsWith(key, "max") }

  predicate IsMoreLess(key: string) { StartsWith(key, "more") || StartsWith(key, "less") }

  /** The operand a bound is written with: a Date field converts with
      `new Date(value)`, a numeric one with `Number(value)`. */
  function BoundOperand(instance: string, value: string): Operand {
    if instance == "Date" then DateOf(value) else NumberOf(value)
  }

  /** The condition a direct schema key sets, shaped by the field's type. */
  function DirectCond(instance: Option<string>, value: string): Cond {
    if instance == Some("Boolean") then Is(value == "true")
    else if instance == Some("String") then Regex(value)
    else if instance == Some("Null") || instance == Some("Undefined") then NotExists()
    else Raw(value)
  }

  /** One iteration of the `forEach` over the filter entries. */
  function ApplyFilter(query: Query, schema: Schema, key: string, value: string): Query {
    if IsMinMax(key) then
      var field := FieldName(key, 3);
      var op := if StartsWith(key, "min") then "$gte" else "$lte";
      if field in Paths(schema) then
        var base := OrEmpty(query, field);
        var t := InstanceOf(schema, field);
        if t.Some? && t.value in RangeTypes then query[field := WriteOp(base, op, BoundOperand(t.value, value))]
        else query[field := base]
      else query
    else if IsMoreLess(key) then
      var field := FieldName(key, 4);
      if field in Paths(schema) then
        var op := if StartsWith(key, "more") then "$size" else "$lt";
        query[field := Doc(map[op := NumberOf(value)])]
      else query
    else if key in Paths(schema) then
      query[key := DirectCond(InstanceOf(schema, key), value)]
    else if StartsWith(key, "contains") then
      var field := FieldName(key, 8);
      if HasInstance(schema, field, ContainsTypes) then query[field := Regex(value)] else query
    else query
  }

  /** The filter document after the remaining entries have been applied in order. */
  function Filters(query: Query, schema: Schema, entries: seq<(string, string)>): Query
    decreases |entries|
  {
    if entries == [] then query
    else Filters(ApplyFilter(query, schema, entries[0].0, entries[0].1), schema, entries[1..])
  }
  /** Entries apply in order: the later ones act on what the earlier ones built. */
  lemma {:induction false} FiltersInOrder(query: Query, schema: Schema, a: seq<(string, string)>, b: seq<(string, string)>)
    ensures Filters(query, schema, a + b) == Filters(Filters(query, schema, a), schema, b)
    decreases |a|
  {
    if a == [] {
      assert a + b == b;
    } else {
      assert (a + b)[1..] == a[1..] + b;
      FiltersInOrder(ApplyFilter(query, schema, a[0].0, a[0].1), schema, a[1..], b);
    }
  }

  /** The filters of a query string are those of its first pairs, refined by
      those of the pairs after them. */
  lemma QueryPairsApplyInOrder(query: Query, schema: Schema, a: seq<(string, string)>, b: seq<(string, string)>)
    ensures Filters(query, schema, FilterEntries(a + b)) ==
            Filters(Filters(query, schema, FilterEntries(a)), schema, FilterEntries(b))
  {
    FilterEntriesInOrder(a, b);
    FiltersInOrder(query, schema, FilterEntries(a), FilterEntries(b));
  }


  /** `buildFilters`: the keyword clauses, then every filter entry. */
  function FilterSpec(entries: seq<(string, string)>, searchable: seq<string>, schema: Schema,
                      keyword: Option<string>, language: Option<string>, maxKeywordLength: nat): Result<Query, string>
  {
    if KeywordGiven(keyword) && Utf16Length(keyword.value) <= maxKeywordLength then
      Ok(Filters(map["$or" := AnyOf(OrClauses(schema, searchable, keyword.value, language))], schema, entries))
    else if KeywordGiven(keyword) then
      Err(KeywordTooLongMessage(maxKeywordLength))
    else
      Ok(Filters(map[], schema, entries))
  }

  /** `buildFilters`: the `forEach` over the filter entries updates `query` in place. */
  method BuildFilters(entries: seq<(string, string)>, searchable: seq<string>, schema: Schema,
                      keyword: Option<string>, language: Option<string>, maxKeywordLength: nat)
    returns (r: Result<Query, string>)
    ensures r == FilterSpec(entries, searchable, schema, keyword, language, maxKeywordLength)
    ensures r.Ok? ==> forall k :: k in r.value ==> k in Paths(schema) || k == "$or"
  {
    var query: Query := map[];
    if KeywordGiven(keyword) && Utf16Length(keyword.value) <= maxKeywordLength {
      query := query["$or" := AnyOf(OrClauses(schema, searchable, keyword.value, language))];
    } else if KeywordGiven(keyword) && Utf16Length(keyword.value) > maxKeywordLength {
      return Err(KeywordTooLongMessage(maxKeywordLength));
    }
    ghost var start := query;
    var i := 0;
    while i < |entries|
      invariant 0 <= i <= |entries|
      invariant Filters(query, schema, entries[i..]) == Filters(start, schema, entries)
      invariant forall k :: k in query ==> k in Paths(schema) || k == "$or"
    {
      var (key, value) := entries[i];
      ApplyFilterKeys(query, schema, key, value);
      query := ApplyFilter(query, schema, key, value);
      i := i + 1;
    }
    r := Ok(query);
  }

  // ------------------------------------------------------------- properties

  /** A filter entry only ever touches the key it names, and only schema paths. */
  lemma ApplyFilterKeys(query: Query, schema: Schema, key: string, value: string)
    ensures var q := ApplyFilter(query, schema, key, value);
            (forall k :: k in q ==> k in query || k in Paths(schema)) &&
            (forall k :: k in query ==> k in q)
  {
  }

  /** Every key of the filter document is a schema path or `$or`. */
  lemma {:induction false} FiltersKeys(query: Query, schema: Schema, entries: seq<(string, string)>)
    ensures forall k :: k in Filters(query, schema, entries) ==> k in query || k in Paths(schema)
    decreases |entries|
  {
    if entries != [] {
      var q := ApplyFilter(query, schema, entries[0].0, entries[0].1);
      ApplyFilterKeys(query, schema, entries[0].0, entries[0].1);
      FiltersKeys(q, schema, entries[1..]);
    }
  }

  /** A keyword longer than the limit throws; the limit itself is accepted. */
  lemma KeywordLengthLimit(entries: seq<(string, string)>, searchable: seq<string>, schema: Schema,
                           keyword: string, language: Option<string>, maxKeywordLength: nat)
    requires keyword != ""
    ensures Utf16Length(keyword) > maxKeywordLength ==>
              FilterSpec(entries, searchable, schema, Some(keyword), language, maxKeywordLength)
                == Err("Keyword too long. Maximum length is " + NatToDecimal(maxKeywordLength) + " characters.")
    ensures Utf16Length(keyword) <= maxKeywordLength ==>
              FilterSpec(entries, searchable, schema, Some(keyword), language, maxKeywordLength).Ok?
  {
  }
  /** The limit counts UTF-16 code units: sixty emoji are 120 units, over a
      limit of 100. */
  lemma AstralKeywordCountsTwice(entries: seq<(string, string)>, searchable: seq<string>, schema: Schema,
                                 language: Option<string>)
    ensures var keyword := seq(60, i => '\U{1F600}');
            FilterSpec(entries, searchable, schema, Some(keyword), language, 100) == Err(KeywordTooLongMessage(100))
  {
    var keyword := seq(60, i => '\U{1F600}');
    assert Utf16Length(keyword) == 120;
  }


  /** Entries never overwrite `$or`, a key no schema path can take. */
  lemma {:induction false} FiltersKeepOr(query: Query, schema: Schema, entries: seq<(string, string)>)
    requires "$or" !in Paths(schema)
    ensures "$or" in query ==> "$or" in Filters(query, schema, entries) && Filters(query, schema, entries)["$or"] == query["$or"]
    ensures "$or" !in query ==> "$or" !in Filters(query, schema, entries)
    decreases |entries|
  {
    if entries != [] {
      FiltersKeepOr(ApplyFilter(query, schema, entries[0].0, entries[0].1), schema, entries[1..]);
    }
  }

  /** With an accepted keyword the document's `$or` holds exactly the keyword clauses. */
  lemma KeywordBuildsOr(entries: seq<(string, string)>, searchable: seq<string>, schema: Schema,
                        keyword: string, language: Option<string>, maxKeywordLength: nat)
    requires keyword != "" && Utf16Length(keyword) <= maxKeywordLength
    requires "$or" !in Paths(schema)
    ensures var r := FilterSpec(entries, searchable, schema, Some(keyword), language, maxKeywordLength);
            r.Ok? && "$or" in r.value && r.value["$or"] == AnyOf(OrClauses(schema, searchable, keyword, language))
  {
    FiltersKeepOr(map["$or" := AnyOf(OrClauses(schema, searchable, keyword, language))], schema, entries);
  }

  /** Without a keyword there is no `$or`. */
  lemma NoKeywordNoOr(entries: seq<(string, string)>, searchable: seq<string>, schema: Schema,
                      keyword: Option<string>, language: Option<string>, maxKeywordLength: nat)
    requires !KeywordGiven(keyword)
    requires "$or" !in Paths(schema)
    ensures var r := FilterSpec(entries, searchable, schema, keyword, language, maxKeywordLength);
            r.Ok? && "$or" !in r.value
  {
    FiltersKeepOr(map[], schema, entries);
  }

  /** A `min`/`max` key on a Date or numeric field sets `$gte`/`$lte` on the
      field its suffix names (first letter lowered), keeping what was there. */
  lemma MinMaxSetsBound(query: Query, schema: Schema, c: char, rest: string, isMin: bool, value: string)
    requires var field := [LowerChar(c)] + rest; HasInstance(schema, field, RangeTypes)
    ensures var key := (if isMin then "min" else "max") + [c] + rest;
            var field := [LowerChar(c)] + rest;
            var q := ApplyFilter(query, schema, key, value);
            var op := if isMin then "$gte" else "$lte";
            field in q &&
            q[field] == WriteOp(OrEmpty(query, field), op, BoundOperand(InstanceOf(schema, field).value, value)) &&
            (forall k :: k != field ==> (k in q <==> k in query) && (k in q ==> q[k] == query[k]))
  {
    var key := (if isMin then "min" else "max") + [c] + rest;
    FieldNameLowersFirstLetter(if isMin then "min" else "max", c, rest);
    assert key[..3] == if isMin then "min" else "max";
  }

  /** A `min` and a `max` key on the same Date or numeric field end up side by side in one object. */
  lemma MinAndMaxCoexist(query: Query, schema: Schema, c: char, rest: string, lo: string, hi: string)
    requires var field := [LowerChar(c)] + rest; HasInstance(schema, field, RangeTypes) && field !in query
    ensures var field := [LowerChar(c)] + rest;
            var t := InstanceOf(schema, field).value;
            var q := Filters(query, schema, [("min" + [c] + rest, lo), ("max" + [c] + rest, hi)]);
            field in q && q[field] == Doc(map["$gte" := BoundOperand(t, lo), "$lte" := BoundOperand(t, hi)])
  {
    var field := [LowerChar(c)] + rest;
    var t := InstanceOf(schema, field).value;
    var q1 := ApplyFilter(query, schema, "min" + [c] + rest, lo);
    MinMaxSetsBound(query, schema, c, rest, true, lo);
    assert q1[field] == Doc(map["$gte" := BoundOperand(t, lo)]);
    var q2 := ApplyFilter(q1, schema, "max" + [c] + rest, hi);
    MinMaxSetsBound(q1, schema, c, rest, false, hi);
    assert q2[field] == Doc(map["$gte" := BoundOperand(t, lo)]["$lte" := BoundOperand(t, hi)]);
    var entries := [("min" + [c] + rest, lo), ("max" + [c] + rest, hi)];
    assert Filters(query, schema, entries) == Filters(q1, schema, entries[1..]);
    assert Filters(q1, schema, entries[1..]) == Filters(q2, schema, []);
  }

  /** A `min`/`max` key naming a field that is not Date or numeric still
      leaves an empty object under that field when it had nothing truthy. */
  lemma MinMaxOnOtherTypeLeavesEmpty(query: Query, schema: Schema, key: string, value: string)
    requires IsMinMax(key)
    requires FieldName(key, 3) in Paths(schema) && !HasInstance(schema, FieldName(key, 3), RangeTypes)
    requires FieldName(key, 3) !in query
    ensures ApplyFilter(query, schema, key, value) == query[FieldName(key, 3) := Doc(map[])]
  {
  }

  /** `moreX` sets `{ $size: n }`, `lessX` sets `{ $lt: n }`, replacing any earlier entry. */
  lemma MoreLessReplaces(query: Query, schema: Schema, key: string, value: string)
    requires IsMoreLess(key) && !IsMinMax(key)
    requires FieldName(key, 4) in Paths(schema)
    ensures ApplyFilter(query, schema, key, value)
              == query[FieldName(key, 4) := Doc(map[(if StartsWith(key, "more") then "$size" else "$lt") := NumberOf(value)])]
  {
  }

  /** A direct schema key: Boolean compares with 'true', String becomes a
      case-insensitive regex, Null/Undefined becomes "does not exist", any
      other type keeps the raw value. */
  lemma DirectKeyShaped(query: Query, schema: Schema, key: string, value: string)
    requires !IsMinMax(key) && !IsMoreLess(key) && key in Paths(schema)
    ensures var q := ApplyFilter(query, schema, key, value);
            var t := InstanceOf(schema, key).value;
            key in q &&
            (t == "Boolean" ==> q[key] == Is(value == "true")) &&
            (t == "String" ==> q[key] == Doc(map["$regex" := Text(value), "$options" := Text("i")])) &&
            (t == "Null" || t == "Undefined" ==> q[key] == Doc(map["$not" := Sub(map["$exists" := Flag(true)])])) &&
            (t !in ["Boolean", "String", "Null", "Undefined"] ==> q[key] == Raw(value)) &&
            (forall k :: k != key ==> (k in q <==> k in query) && (k in q ==> q[k] == query[k]))
  {
  }

  /** The prefixes win over a direct match: a schema field whose name starts
      with `min`, `max`, `more` or `less` cannot be filtered directly, and the
      key does nothing when the suffix names no field. */
  lemma PrefixShadowsField(query: Query, schema: Schema, key: string, value: string)
    requires IsMinMax(key) && FieldName(key, 3) !in Paths(schema)
    ensures ApplyFilter(query, schema, key, value) == query
  {
  }

  /** `contains` applies only to keys that are not schema paths themselves. */
  lemma ContainsOnlyForNonSchemaKeys(query: Query, schema: Schema, key: string, value: string)
    requires StartsWith(key, "contains")
    ensures key in Paths(schema) ==> ApplyFilter(query, schema, key, value) == query[key := DirectCond(InstanceOf(schema, key), value)]
    ensures key !in Paths(schema) ==>
              ApplyFilter(query, schema, key, value) ==
                (if HasInstance(schema, FieldName(key, 8), ContainsTypes) then query[FieldName(key, 8) := Doc(map["$regex" := Text(value), "$options" := Text("i")])]
                 else query)
  {
    ContainsIsNoBound(key);
  }

  lemma ContainsIsNoBound(key: string)
    requires StartsWith(key, "contains")
    ensures !IsMinMax(key) && !IsMoreLess(key)
  {
    assert key[..3] == "con" && key[..4] == "cont";
  }

  /** A key that is neither prefixed nor a schema path adds nothing. */
  lemma UnknownKeyIgnored(query: Query, schema: Schema, key: string, value: string)
    requires !IsMinMax(key) && !IsMoreLess(key) && !StartsWith(key, "contains") && key !in Paths(schema)
    ensures ApplyFilter(query, schema, key, value) == query
  {
  }

  // ------------------------------------------------------------------- sort

  /** `sortOrder` defaults to 'asc'. */
  function SortOrder(sortOrder: Option<string>): string {
    sortOrder.GetOr("asc")
  }

  /** `buildSort`. */
  function BuildSort(sortField: Option<string>, sortOrder: string, sortable: seq<string>): (r: map<string, int>)
    ensures r != map[] <==> sortField.Some? && sortField.value != "" && sortField.value in sortable
    ensures forall f :: f in r ==> Some(f) == sortField && (r[f] == 1 <==> sortOrder == "asc") && (r[f] == 1 || r[f] == -1)
  {
    if sortField.Some? && sortField.value != "" && sortField.value in sortable then
      var s := map[sortField.value := if sortOrder == "asc" then 1 else -1];
      assert sortField.value in s;
      s
    else map[]
  }

  /** With the default sortable fields the sort document never names `_id`,
      `__v` or an excluded field. */
  lemma SortNeverIdVersionOrExcluded(schema: Schema, excluded: seq<string>, sortField: Option<string>, sortOrder: string)
    ensures var s := BuildSort(sortField, sortOrder, ValidFields(schema, None, excluded));
            "_id" !in s && "__v" !in s && forall f :: f in excluded ==> f !in s
  {
  }

  // ------------------------------------------------------- items and totals

  /** `skip = offset + (page - 1) * limit`: with the default offset (the number
      0) this is arithmetic; an `offset` from the query string is a string, so
      `+` concatenates it with the decimal form of the product. */
  datatype Skip = SkipBy(n: int) | SkipText(s: string)

  function SkipOf(offset: Option<string>, page: int, limit: int): (r: Skip)
    ensures offset.None? ==> r == SkipBy((page - 1) * limit)
    ensures offset.Some? ==> r.SkipText? && StartsWith(r.s, offset.value) &&
                             r.s[|offset.value|..] == IntToDecimal((page - 1) * limit)
  {
    match offset
    case None => SkipBy(0 + (page - 1) * limit)
    case Some(o) => SkipText(o + IntToDecimal((page - 1) * limit))
  }

  /** Past the offset text, the skip holds the number `(page - 1) * limit`:
      from page 1 on, `Number` reads it back. */
  lemma SkipTextTail(o: string, page: int, limit: nat)
    requires page >= 1
    ensures SingleRead.ToNumber(SkipOf(Some(o), page, limit).s[|o|..]) == SingleRead.Int((page - 1) * limit)
  {
    SingleRead.NumberOfDecimal((page - 1) * limit);
  }

  /** `offset=5` on page 2 of 10 skips "5" followed by "10": the text "510". */
  lemma SkipConcatenatesOffset()
    ensures SkipOf(Some("5"), 2, 10) == SkipText("510")
  {
    assert NatToDecimal(10) == "10" by {
      assert NatToDecimal(1) == "1";
    }
  }

  /** The query `readItems` runs for its items. */
  datatype ItemsQuery =
    | Distinct(field: string, filter: Query)
    | GroupBy(field: string, filter: Query)
    | Sample(filter: Query, size: string)
    | Find(filter: Query, sort: map<string, int>, skip: Skip, limit: string)

  /** The query-string parameters `readItems` takes for itself. `page` and
      `limit` are their numeric values (`limitText` is the raw limit handed to
      `Number`); an absent `random` is false and any non-empty string, 'false'
      included, is truthy. */
  datatype ListParams = ListParams(
    page: int, limit: int, limitText: string, offset: Option<string>,
    keyword: Option<string>, sortField: Option<string>, distinctField: Option<string>,
    groupByField: Option<string>, sortOrder: Option<string>, language: Option<string>,
    random: Option<string>)

  /** The controller's options: explicit field lists, exclusions and the keyword limit. */
  datatype ListOptions = ListOptions(
    searchableFields: Option<seq<string>>, sortableFields: Option<seq<string>>,
    excludedFields: seq<string>, maxKeywordLength: nat)

  predicate Given(p: Option<string>) { p.Some? && p.value != "" }

  /** The items query `readItems` runs, or the error message it answers 500 with. */
  function PlanItems(p: ListParams, options: ListOptions, schema: Schema, pairs: seq<(string, string)>): (r: Result<ItemsQuery, string>)
  {
    var searchable := ValidFields(schema, options.searchableFields, options.excludedFields);
    var sortable := ValidFields(schema, options.sortableFields, options.excludedFields);
    match FilterSpec(FilterEntries(pairs), searchable, schema, p.keyword, p.language, options.maxKeywordLength)
    case Err(e) => Err(e)
    case Ok(query) =>
      if Given(p.distinctField) && p.distinctField.value in Paths(schema) then Ok(Distinct(p.distinctField.value, query))
      else if Given(p.groupByField) && p.groupByField.value in Paths(schema) then Ok(GroupBy(p.groupByField.value, query))
      else if Given(p.random) then Ok(Sample(query, p.limitText))
      else Ok(Find(query, BuildSort(p.sortField, SortOrder(p.sortOrder), sortable), SkipOf(p.offset, p.page, p.limit), p.limitText))
  }

  /** Every items query runs on the filter built from the query string's
      non-reserved pairs, and the plan fails exactly when building it does. */
  lemma PlanFilterFromQuery(p: ListParams, options: ListOptions, schema: Schema, pairs: seq<(string, string)>)
    ensures var spec := FilterSpec(FilterEntries(pairs), ValidFields(schema, options.searchableFields, options.excludedFields),
                                   schema, p.keyword, p.language, options.maxKeywordLength);
            var plan := PlanItems(p, options, schema, pairs);
            (plan.Err? <==> spec.Err?) &&
            (plan.Err? ==> plan.error == spec.error) &&
            (plan.Ok? ==> plan.value.filter == spec.value)
  {
    var spec := FilterSpec(FilterEntries(pairs), ValidFields(schema, options.searchableFields, options.excludedFields),
                           schema, p.keyword, p.language, options.maxKeywordLength);
    match spec
    case Err(e) =>
      assert PlanItems(p, options, schema, pairs) == Err(e);
    case Ok(query) =>
      assert PlanItems(p, options, schema, pairs).Ok? && PlanItems(p, options, schema, pairs).value.filter == query;
  }

  /** Distinct and group-by apply only to schema fields; otherwise, without
      `random`, the items come from a paged, sorted find with the default skip. */
  lemma PlanUsesSchemaFieldsOnly(p: ListParams, options: ListOptions, schema: Schema, pairs: seq<(string, string)>)
    requires PlanItems(p, options, schema, pairs).Ok?
    ensures var q := PlanItems(p, options, schema, pairs).value;
            (q.Distinct? ==> q.field in Paths(schema) && Some(q.field) == p.distinctField) &&
            (q.GroupBy? ==> q.field in Paths(schema) && Some(q.field) == p.groupByField) &&
            (q.Find? && p.offset.None? ==> q.skip == SkipBy((p.page - 1) * p.limit))
  {
    var spec := FilterSpec(FilterEntries(pairs), ValidFields(schema, options.searchableFields, options.excludedFields),
                           schema, p.keyword, p.language, options.maxKeywordLength);
    PlanFilterFromQuery(p, options, schema, pairs);
    assert spec.Ok?;
  }

  /** `total` in the response: the number of items returned when a distinct or
      group-by field was given (schema path or not), the count otherwise. */
  function Total(p: ListParams, itemsLength: nat, count: nat): (r: nat)
    ensures (Given(p.distinctField) || Given(p.groupByField)) ==> r == itemsLength
    ensures !(Given(p.distinctField) || Given(p.groupByField)) ==> r == count
  {
    if Given(p.distinctField) || Given(p.groupByField) then itemsLength else count
  }

  /** A distinct field that is not a schema path still switches `total` to the
      number of items, although the items then come from the paged find. */
  lemma NonSchemaDistinctStillSwitchesTotal(p: ListParams, options: ListOptions, schema: Schema,
                                            pairs: seq<(string, string)>, itemsLength: nat, count: nat)
    requires Given(p.distinctField) && p.distinctField.value !in Paths(schema)
    requires !Given(p.groupByField) && !Given(p.random)
    requires PlanItems(p, options, schema, pairs).Ok?
    ensures PlanItems(p, options, schema, pairs).value.Find?
    ensures Total(p, itemsLength, count) == itemsLength
  {
  }

  // ------------------------------------------------------------ the response

  /** The 500 answer: `{ message: "Error fetching <model>s", error }`. */
  function FetchListError(modelName: string, error: string): Http.Response {
    Http.Response(500, Json.Obj(map["message" := Json.Str("Error fetching " + modelName + "s"), "error" := Json.Str(error)]))
  }

  /** `Number(offset)`: 0 by default; a query-string offset converted, NaN
      written as null. */
  function OffsetValue(offset: Option<string>): Json.Value {
    match offset
    case None => Json.Num(0)
    case Some(o) =>
      match SingleRead.ToNumber(o)
      case Int(n) => Json.Num(n)
      case NaN => Json.Null
  }

  /** `readItems`: `fetch` runs the items query and `count` the
      `countDocuments` on its filter; either may fail. */
  function ReadItems(modelName: string, p: ListParams, options: ListOptions, schema: Schema,
                     pairs: seq<(string, string)>,
                     fetch: ItemsQuery -> Result<seq<Json.Value>, string>,
                     count: Query -> Result<nat, string>): Http.Response
  {
    match PlanItems(p, options, schema, pairs)
    case Err(e) => FetchListError(modelName, e)
    case Ok(q) =>
      match (fetch(q), count(q.filter))
      case (Err(e), _) => FetchListError(modelName, e)
      case (_, Err(e)) => FetchListError(modelName, e)
      case (Ok(items), Ok(n)) =>
        Http.Response(200, Json.Obj(map["items" := Json.Arr(items), "total" := Json.Num(Total(p, |items|, n)),
                                        "page" := Json.Num(p.page), "limit" := Json.Num(p.limit),
                                        "offset" := OffsetValue(p.offset)]))
  }

  /** The list answers 200 exactly when the plan, the items query and the
      count all succeed, with the items, the total, page, limit and offset;
      any failure is a 500 naming the model in the plural and carrying the
      first error: the plan's, else the items query's, else the count's. */
  lemma ReadItemsOutcome(modelName: string, p: ListParams, options: ListOptions, schema: Schema,
                         pairs: seq<(string, string)>,
                         fetch: ItemsQuery -> Result<seq<Json.Value>, string>,
                         count: Query -> Result<nat, string>)
    ensures var r := ReadItems(modelName, p, options, schema, pairs, fetch, count);
            var plan := PlanItems(p, options, schema, pairs);
            (r.status == 200 <==> plan.Ok? && fetch(plan.value).Ok? && count(plan.value.filter).Ok?) &&
            (plan.Err? ==> r == FetchListError(modelName, plan.error)) &&
            (plan.Ok? && fetch(plan.value).Err? ==> r == FetchListError(modelName, fetch(plan.value).error)) &&
            (plan.Ok? && fetch(plan.value).Ok? && count(plan.value.filter).Err? ==>
               r == FetchListError(modelName, count(plan.value.filter).error)) &&
            (r.status != 200 ==> r.status == 500 && r.body.Obj? && "error" in r.body.fields &&
                                 r.body.fields["message"] == Json.Str("Error fetching " + modelName + "s")) &&
            (r.status == 200 ==>
               var o := r.body.fields;
               var items := fetch(plan.value).value;
               o.Keys == {"items", "total", "page", "limit", "offset"} &&
               o["items"] == Json.Arr(items) &&
               o["total"] == Json.Num(Total(p, |items|, count(plan.value.filter).value)) &&
               o["page"] == Json.Num(p.page) && o["limit"] == Json.Num(p.limit) &&
               o["offset"] == OffsetValue(p.offset) &&
               (p.offset.None? ==> o["offset"] == Json.Num(0)))
  {
  }

  /** A keyword longer than the limit is answered 500 with the length message,
      before any query runs. */
  lemma KeywordTooLongIs500(modelName: string, p: ListParams, options: ListOptions, schema: Schema,
                            pairs: seq<(string, string)>,
                            fetch: ItemsQuery -> Result<seq<Json.Value>, string>,
                            count: Query -> Result<nat, string>)
    requires p.keyword.Some? && p.keyword.value != "" && Utf16Length(p.keyword.value) > options.maxKeywordLength
    ensures ReadItems(modelName, p, options, schema, pairs, fetch, count) ==
            FetchListError(modelName, KeywordTooLongMessage(options.maxKeywordLength))
  {
    KeywordLengthLimit(FilterEntries(pairs), ValidFields(schema, options.searchableFields, options.excludedFields), schema,
                       p.keyword.value, p.language, options.maxKeywordLength);
  }
}
