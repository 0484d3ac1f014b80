/** The single-item read controllers (controllers/crud/single/read.js):
    read by id, by slug, by an arbitrary field (optionally sorted, limited,
    sampled or reduced to one item) and one field of an item by id. The
    database is an oracle from the query to its result: a value, or the
    message of the error it throws. */
module SingleRead {
  import opened Wrappers
  import opened Text
  import opened Json
  import opened Http

  // -------------------------------------------------------------- Number()

  /** `Number(s)` on a query-string value, for integers: the value, or NaN. */
  datatype Number = Int(n: int) | NaN

  predicate NumberTruthy(x: Number) { x.Int? && x.n != 0 }

  function DigitValue(c: char): nat
    requires IsDigit(c)
  {
    c as int - '0' as int
  }

  predicate AllDigits(s: string) { forall i :: 0 <= i < |s| ==> IsDigit(s[i]) }

  /** The value of a string of decimal digits. */
  function DecimalValue(s: string): nat
    requires AllDigits(s)
    decreases |s|
  {
    if s == [] then 0 else 10 * DecimalValue(s[..|s| - 1]) + DigitValue(s[|s| - 1])
  }

  /** `Number(s)`: the empty string is 0, an optionally signed run of digits is
      its value, anything else is NaN. */
  function ToNumber(s: string): (r: Number)
    ensures s == "" ==> r == Int(0)
    ensures r.Int? && s != "" ==> AllDigits(s) || ((s[0] == '-' || s[0] == '+') && |s| > 1 && AllDigits(s[1..]))
  {
    if s == "" then Int(0)
    else if AllDigits(s) then Int(DecimalValue(s))
    else if (s[0] == '-' || s[0] == '+') && |s| > 1 && AllDigits(s[1..]) then
      var v: int := DecimalValue(s[1..]);
      Int(if s[0] == '-' then -v else v)
    else NaN
  }

  /** The decimal rendering of a number reads back as that number. */
  lemma {:induction false} DecimalRoundTrip(n: nat)
    ensures DecimalValue(NatToDecimal(n)) == n
    decreases n
  {
    var d := NatToDecimal(n);
    if n >= 10 {
      DecimalRoundTrip(n / 10);
      assert d[..|d| - 1] == NatToDecimal(n / 10);
    }
  }

  lemma NumberOfDecimal(n: nat)
    ensures ToNumber(NatToDecimal(n)) == Int(n)
  {
    DecimalRoundTrip(n);
  }

  /** `Number(raw)` of an optional query parameter: NaN when absent. */
  function NumberParam(raw: Option<string>): Number {
    if raw.Some? then ToNumber(raw.value) else NaN
  }

  // --------------------------------------------------------------- replies

  /** `{ message: "Error fetching <model>", error }`, with status 500. */
  function FetchError(modelName: string, error: string): Response {
    Response(500, Obj(map["message" := Str("Error fetching " + modelName), "error" := Str(error)]))
  }

  function NotFound(modelName: string): Response {
    Response(404, Message(modelName + " not found"))
  }

  /** The answer to a lookup of one item. */
  function ItemResponse(modelName: string, found: Result<Option<Doc>, string>): (r: Response)
    ensures found.Err? ==> r == FetchError(modelName, found.error)
    ensures found == Ok(None) ==> r == NotFound(modelName)
    ensures found.Ok? && found.value.Some? ==> r == Response(200, Obj(found.value.value))
  {
    match found
    case Err(e) => FetchError(modelName, e)
    case Ok(None) => NotFound(modelName)
    case Ok(Some(item)) => Response(200, Obj(item))
  }

  // --------------------------------------------------------------- queries

  /** One step applied to a find query. */
  datatype Step = SortBy(spec: string) | LimitTo(n: Number)

  /** The queries these controllers run. */
  datatype Lookup =
    | ById(id: Option<string>, select: Option<string>)
    | BySlug(slug: Option<string>)
    | Sample(key: string, value: string, size: Number)
    | Find(key: string, value: string, steps: seq<Step>)

  function Param(params: map<string, string>, name: string): Option<string> {
    if name in params then Some(params[name]) else None
  }

  /** `readItem`: find by `req.params._id`. */
  function ReadItem(modelName: string, params: map<string, string>, db: Lookup -> Result<Option<Doc>, string>): Response {
    ItemResponse(modelName, db(ById(Param(params, "_id"), None)))
  }

  /** `readItemBySlug`: find one by `{ slug: req.params.slug }`. */
  function ReadItemBySlug(modelName: string, params: map<string, string>, db: Lookup -> Result<Option<Doc>, string>): Response {
    ItemResponse(modelName, db(BySlug(Param(params, "slug"))))
  }

  /** An absent item is 404 "<model> not found", a present one 200 with the
      item, a failing lookup 500; the lookups use the id and the slug parameter. */
  lemma ReadItemOutcome(modelName: string, params: map<string, string>, db: Lookup -> Result<Option<Doc>, string>)
    ensures var found := db(ById(Param(params, "_id"), None));
            var r := ReadItem(modelName, params, db);
            (r.status == 404 <==> found == Ok(None)) &&
            (r.status == 404 ==> r.body == Obj(map["message" := Str(modelName + " not found")])) &&
            (r.status == 200 <==> found.Ok? && found.value.Some?) &&
            (r.status == 500 <==> found.Err?)
    ensures var found := db(BySlug(Param(params, "slug")));
            var r := ReadItemBySlug(modelName, params, db);
            (r.status == 404 <==> found == Ok(None)) &&
            (r.status == 200 <==> found.Ok? && found.value.Some?) &&
            (r.status == 500 <==> found.Err?)
  {
  }

  // ------------------------------------------------------ readItemByField

  /** The find query's steps: sort if given, then `limit(Number(limit))` if
      given, then `limit(1)` if `single` is given. */
  function FindSteps(single: Option<string>, sort: Option<string>, limit: Option<string>): seq<Step> {
    (if sort.Some? && sort.value != "" then [SortBy(sort.value)] else []) +
    (if limit.Some? && limit.value != "" then [LimitTo(ToNumber(limit.value))] else []) +
    (if single.Some? && single.value != "" then [LimitTo(Int(1))] else [])
  }

  /** The limit a chain of steps ends up with: the last one set. */
  function EffectiveLimit(steps: seq<Step>): (r: Option<Number>)
    ensures r.None? <==> forall i :: 0 <= i < |steps| ==> steps[i].SortBy?
    decreases |steps|
  {
    if steps == [] then None
    else if steps[|steps| - 1].LimitTo? then Some(steps[|steps| - 1].n)
    else EffectiveLimit(steps[..|steps| - 1])
  }

  /** `single` always wins: the last limit is 1, whatever `limit` says;
      without it the limit is `Number(limit)` when given. */
  lemma LastLimitWins(single: Option<string>, sort: Option<string>, limit: Option<string>)
    ensures single.Some? && single.value != "" ==> EffectiveLimit(FindSteps(single, sort, limit)) == Some(Int(1))
    ensures !(single.Some? && single.value != "") && limit.Some? && limit.value != "" ==>
              EffectiveLimit(FindSteps(single, sort, limit)) == Some(ToNumber(limit.value))
    ensures !(single.Some? && single.value != "") && !(limit.Some? && limit.value != "") ==>
              EffectiveLimit(FindSteps(single, sort, limit)).None?
  {
    var steps := FindSteps(single, sort, limit);
    if !(single.Some? && single.value != "") && limit.Some? && limit.value != "" {
      assert steps[|steps| - 1] == LimitTo(ToNumber(limit.value));
    }
  }

  /** `Number(limit) || 1`: the sample size. */
  function SampleSize(limit: Option<string>): (r: Number)
    ensures NumberTruthy(NumberParam(limit)) ==> r == NumberParam(limit)
    ensures !NumberTruthy(NumberParam(limit)) ==> r == Int(1)
  {
    var n := NumberParam(limit);
    if NumberTruthy(n) then n else Int(1)
  }

  /** A missing, zero or non-numeric limit samples one item. */
  lemma SampleSizeDefaults()
    ensures SampleSize(None) == Int(1)
    ensures SampleSize(Some("0")) == Int(1)
    ensures SampleSize(Some("")) == Int(1)
    ensures SampleSize(Some("x")) == Int(1)
    ensures SampleSize(Some("3")) == Int(3)
  {
    assert "0"[..0] == "" && "3"[..0] == "";
    assert AllDigits("0") && DecimalValue("0") == 0;
    assert "x"[0] == 'x' && !IsDigit('x');
    assert AllDigits("3") && DecimalValue("3") == 3;
  }

  /** `Invalid field '<key>'. Allowed fields: a, b, ...`. */
  function InvalidFieldMessage(key: string, allowedKeys: seq<string>): string {
    "Invalid field '" + key + "'. Allowed fields: " + Join(allowedKeys, ", ")
  }

  /** The query `readItemByField` runs. */
  function FieldLookup(key: string, value: string, single: Option<string>, sort: Option<string>, limit: Option<string>): Lookup {
    if sort == Some("rand") then Sample(key, value, SampleSize(limit))
    else Find(key, value, FindSteps(single, sort, limit))
  }

  /** `readItemByField`. */
  function ReadItemByField(modelName: string, allowedKeys: seq<string>, key: string, value: string,
                           single: Option<string>, sort: Option<string>, limit: Option<string>,
                           db: Lookup -> Result<seq<Doc>, string>): Response
  {
    if |allowedKeys| > 0 && key !in allowedKeys then Response(400, Message(InvalidFieldMessage(key, allowedKeys)))
    else match db(FieldLookup(key, value, single, sort, limit))
      case Err(e) => FetchError(modelName, e)
      case Ok(items) =>
        if |items| == 0 then NotFound(modelName)
        else if single.Some? && single.value != "" then Response(200, Obj(items[0]))
        else Response(200, Arr(seq(|items|, i requires 0 <= i < |items| => Obj(items[i]))))
  }

  /** A key outside a non-empty allow-list is refused with 400 before any
      query; an empty allow-list accepts every key; a failed lookup is 500;
      an empty result is 404; with `single` the body is the first item,
      otherwise every match in order. */
  lemma ReadItemByFieldOutcome(modelName: string, allowedKeys: seq<string>, key: string, value: string,
                               single: Option<string>, sort: Option<string>, limit: Option<string>,
                               db: Lookup -> Result<seq<Doc>, string>)
    ensures var r := ReadItemByField(modelName, allowedKeys, key, value, single, sort, limit, db);
            var result := db(FieldLookup(key, value, single, sort, limit));
            (r.status == 400 <==> |allowedKeys| > 0 && key !in allowedKeys) &&
            (r.status == 400 ==> r.body == Message(InvalidFieldMessage(key, allowedKeys))) &&
            (allowedKeys == [] ==> r.status != 400) &&
            (r.status != 400 && result == Ok([]) ==> r == NotFound(modelName)) &&
            (r.status != 400 && result.Ok? && |result.value| > 0 && single.Some? && single.value != "" ==>
               r == Response(200, Obj(result.value[0]))) &&
            (r.status != 400 && result.Err? ==> r == FetchError(modelName, result.error)) &&
            (r.status != 400 && result.Ok? && |result.value| > 0 && !(single.Some? && single.value != "") ==>
               r.status == 200 && r.body.Arr? && |r.body.items| == |result.value| &&
               forall i :: 0 <= i < |result.value| ==> r.body.items[i] == Obj(result.value[i]))
  {
  }

  /** `sort=rand` samples; any other sort is a find whose last limit decides. */
  lemma FieldLookupShape(key: string, value: string, single: Option<string>, sort: Option<string>, limit: Option<string>)
    ensures sort == Some("rand") ==> FieldLookup(key, value, single, sort, limit) == Sample(key, value, SampleSize(limit))
    ensures sort != Some("rand") ==>
              var q := FieldLookup(key, value, single, sort, limit);
              q.Find? && q.key == key && q.value == value &&
              (single.Some? && single.value != "" ==> EffectiveLimit(q.steps) == Some(Int(1)))
  {
    LastLimitWins(single, sort, limit);
  }

  // -------------------------------------------------------- readFieldById

  /** `readFieldById`: the field must be a schema path; the item is fetched by
      id selecting that field, and the body holds that one key. */
  function ReadFieldById(modelName: string, schemaPaths: seq<string>, id: Option<string>, field: string,
                         db: Lookup -> Result<Option<Doc>, string>): Response
  {
    if field !in schemaPaths then Response(400, Message("Field '" + field + "' not found in " + modelName))
    else match db(ById(id, Some(field + " _id")))
      case Err(e) => FetchError(modelName, e)
      case Ok(None) => NotFound(modelName)
      case Ok(Some(item)) => Response(200, Obj(map[field := Get(item, field)]))
  }

  /** A field that is not a schema path is 400 with no lookup; a failed lookup
      is 500; a missing item is 404; otherwise the body has exactly the one
      key, holding the item's value. */
  lemma ReadFieldByIdOutcome(modelName: string, schemaPaths: seq<string>, id: Option<string>, field: string,
                             db: Lookup -> Result<Option<Doc>, string>)
    ensures var r := ReadFieldById(modelName, schemaPaths, id, field, db);
            var found := db(ById(id, Some(field + " _id")));
            (r.status == 400 <==> field !in schemaPaths) &&
            (field !in schemaPaths ==> r.body == Message("Field '" + field + "' not found in " + modelName)) &&
            (field in schemaPaths && found.Err? ==> r == FetchError(modelName, found.error)) &&
            (field in schemaPaths && found == Ok(None) ==> r == NotFound(modelName)) &&
            (field in schemaPaths && found.Ok? && found.value.Some? ==>
               r.status == 200 && r.body.Obj? && r.body.fields.Keys == {field} &&
               r.body.fields[field] == Get(found.value.value, field))
  {
  }
}
