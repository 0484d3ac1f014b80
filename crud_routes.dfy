/** The router every model's CRUD controller is mounted with
    (routes/crudRoutes.js): the route table, matched first to last as the
    Express router does, and the `/:key/:value` handler that picks a
    controller. Paths are given as their '/'-separated segments. */
module CrudRoutes {
  import opened Wrappers
  import opened Text

  /** A pattern segment: a literal (matched ignoring case) or a named parameter. */
  datatype Segment = Lit(text: string) | Param(name: string)

  datatype Handler =
    | GetItems | GetItem | KeyValue | CreateItem | CreateManyItems
    | UpdateItem | UpdateManyItems | DeleteItem | DeleteManyItems

  datatype Route = Route(verb: string, pattern: seq<Segment>, handler: Handler)

  /** The declarations in source order. */
  const Table: seq<Route> := [
    Route("GET", [], GetItems),
    Route("GET", [Param("_id")], GetItem),
    Route("GET", [Param("key"), Param("value")], KeyValue),
    Route("POST", [], CreateItem),
    Route("POST", [Lit("bulk")], CreateManyItems),
    Route("PUT", [Param("id")], UpdateItem),
    Route("PUT", [Lit("bulk")], UpdateManyItems),
    Route("PATCH", [Param("_id")], UpdateItem),
    Route("PATCH", [Lit("bulk")], UpdateManyItems),
    Route("DELETE", [Param("id")], DeleteItem),
    Route("DELETE", [Lit("bulk")], DeleteManyItems)
  ]

  /** A request segment matches a literal ignoring case and a parameter when non-empty. */
  predicate SegmentMatches(p: Segment, s: string) {
    match p
    case Lit(t) => EqualsIgnoreCase(t, s)
    case Param(_) => s != ""
  }

  predicate Matches(pattern: seq<Segment>, segs: seq<string>) {
    |pattern| == |segs| && forall i :: 0 <= i < |segs| ==> SegmentMatches(pattern[i], segs[i])
  }

  /** The parameters a matching pattern binds: each name to its segment, a
      later occurrence of a name overriding an earlier one. */
  function Bind(pattern: seq<Segment>, segs: seq<string>): (r: map<string, string>)
    requires |pattern| == |segs|
    ensures forall i :: 0 <= i < |pattern| && pattern[i].Param? ==> pattern[i].name in r
    ensures forall k :: k in r ==> exists i :: 0 <= i < |pattern| && pattern[i] == Param(k)
    ensures forall i :: 0 <= i < |pattern| && pattern[i].Param? && LastOccurrence(pattern, i) ==>
              r[pattern[i].name] == segs[i]
  {
    if pattern == [] then map[]
    else
      var rest := Bind(pattern[1..], segs[1..]);
      assert forall i :: 1 <= i < |pattern| && LastOccurrence(pattern, i) ==> LastOccurrence(pattern[1..], i - 1);
      match pattern[0]
      case Lit(_) => rest
      case Param(n) => map[n := segs[0]] + rest
  }

  /** No later segment of the pattern is the same parameter as segment i. */
  predicate LastOccurrence(pattern: seq<Segment>, i: nat)
    requires i < |pattern|
  {
    forall j :: i < j < |pattern| ==> pattern[j] != pattern[i]
  }

  /** A HEAD request is served by the GET routes. */
  function RouteVerb(verb: string): string {
    if verb == "HEAD" then "GET" else verb
  }

  /** The index of the first route of t that takes the request, or |t|. */
  function FirstMatch(t: seq<Route>, verb: string, segs: seq<string>): (r: nat)
    ensures r <= |t|
    ensures r < |t| ==> t[r].verb == RouteVerb(verb) && Matches(t[r].pattern, segs)
    ensures forall j :: 0 <= j < r ==> !(t[j].verb == RouteVerb(verb) && Matches(t[j].pattern, segs))
  {
    if t == [] then 0
    else if t[0].verb == RouteVerb(verb) && Matches(t[0].pattern, segs) then 0
    else 1 + FirstMatch(t[1..], verb, segs)
  }

  /** The route serves the request's verb and its pattern matches the path. */
  predicate Takes(route: Route, verb: string, segs: seq<string>) {
    route.verb == RouteVerb(verb) && Matches(route.pattern, segs)
  }

  datatype Dispatched = Dispatched(handler: Handler, params: map<string, string>)

  /** The handler the router runs for a request, with its bound parameters;
      None when no route takes it. */
  function Dispatch(verb: string, segs: seq<string>): (r: Option<Dispatched>)
    ensures r.None? <==> forall i :: 0 <= i < |Table| ==> !Takes(Table[i], verb, segs)
    ensures r.Some? ==> exists i :: 0 <= i < |Table| && Takes(Table[i], verb, segs) &&
                                   (forall j :: 0 <= j < i ==> !Takes(Table[j], verb, segs)) &&
                                   r.value == Dispatched(Table[i].handler, Bind(Table[i].pattern, segs))
  {
    var i := FirstMatch(Table, verb, segs);
    if i < |Table| then Some(Dispatched(Table[i].handler, Bind(Table[i].pattern, segs))) else None
  }

  /** Under first-match order the `/bulk` routes for PUT, PATCH and DELETE are
      taken by the earlier `/:id` and `/:_id` routes, with "bulk" as the id. */
  lemma BulkUpdatesGoToItemRoutes()
    ensures Dispatch("PUT", ["bulk"]) == Some(Dispatched(UpdateItem, map["id" := "bulk"]))
    ensures Dispatch("PATCH", ["bulk"]) == Some(Dispatched(UpdateItem, map["_id" := "bulk"]))
    ensures Dispatch("DELETE", ["bulk"]) == Some(Dispatched(DeleteItem, map["id" := "bulk"]))
  {
    BulkPut();
    BulkPatch();
    BulkDelete();
  }

  lemma BulkPut()
    ensures Dispatch("PUT", ["bulk"]) == Some(Dispatched(UpdateItem, map["id" := "bulk"]))
  {
    BindOne("id", "bulk");
    SkipTo(Table, "PUT", ["bulk"], 5);
  }

  lemma BulkPatch()
    ensures Dispatch("PATCH", ["bulk"]) == Some(Dispatched(UpdateItem, map["_id" := "bulk"]))
  {
    BindOne("_id", "bulk");
    SkipTo(Table, "PATCH", ["bulk"], 7);
  }

  lemma BulkDelete()
    ensures Dispatch("DELETE", ["bulk"]) == Some(Dispatched(DeleteItem, map["id" := "bulk"]))
  {
    BindOne("id", "bulk");
    SkipTo(Table, "DELETE", ["bulk"], 9);
  }

  /** POST `/bulk` reaches createManyItems, in any letter case. */
  lemma BulkCreateReachable()
    ensures Dispatch("POST", ["bulk"]) == Some(Dispatched(CreateManyItems, map[]))
    ensures Dispatch("POST", ["BULK"]) == Some(Dispatched(CreateManyItems, map[]))
  {
    assert Lower("bulk") == "bulk" == Lower("BULK");
    BulkCreate("bulk");
    BulkCreate("BULK");
  }

  lemma BulkCreate(seg: string)
    requires EqualsIgnoreCase("bulk", seg)
    ensures Dispatch("POST", [seg]) == Some(Dispatched(CreateManyItems, map[]))
  {
    SkipTo(Table, "POST", [seg], 4);
  }

  lemma BindOne(name: string, seg: string)
    ensures Bind([Param(name)], [seg]) == map[name := seg]
  {
    assert [Param(name)][1..] == [] && [seg][1..] == [];
  }

  /** When route k takes the request and none before it does, it is the first match. */
  lemma {:induction false} SkipTo(t: seq<Route>, verb: string, segs: seq<string>, k: nat)
    requires k < |t| && t[k].verb == RouteVerb(verb) && Matches(t[k].pattern, segs)
    requires forall j :: 0 <= j < k ==> t[j].verb != RouteVerb(verb) || |t[j].pattern| != |segs|
    ensures FirstMatch(t, verb, segs) == k
  {
    if k > 0 {
      SkipTo(t[1..], verb, segs, k - 1);
    }
  }

  /** updateManyItems and deleteManyItems are never reached. */
  lemma ManyUpdatesUnreachable(verb: string, segs: seq<string>)
    ensures Dispatch(verb, segs).Some? ==>
              Dispatch(verb, segs).value.handler != UpdateManyItems &&
              Dispatch(verb, segs).value.handler != DeleteManyItems
  {
    var i := FirstMatch(Table, verb, segs);
    FirstMatchNotBulk(verb, segs);
    if i < |Table| {
      OnlyBulkRoutesUpdateMany(i);
    }
  }

  lemma OnlyBulkRoutesUpdateMany(i: nat)
    requires i < |Table| && i !in {6, 8, 10}
    ensures Table[i].handler != UpdateManyItems && Table[i].handler != DeleteManyItems
  {
  }

  /** The first match is never one of the `/bulk` routes for PUT, PATCH or DELETE. */
  lemma FirstMatchNotBulk(verb: string, segs: seq<string>)
    ensures FirstMatch(Table, verb, segs) !in {6, 8, 10}
  {
    var v := RouteVerb(verb);
    if |segs| == 1 && segs[0] != "" {
      if v == "PUT" {
        FirstMatchAtMost(Table, verb, segs, 5);
      } else if v == "PATCH" {
        FirstMatchAtMost(Table, verb, segs, 7);
      } else if v == "DELETE" {
        FirstMatchAtMost(Table, verb, segs, 9);
      }
    } else if |segs| == 1 {
      assert Lower(segs[0]) == "";
    }
  }

  /** A route that takes the request bounds the first match. */
  lemma FirstMatchAtMost(t: seq<Route>, verb: string, segs: seq<string>, j: nat)
    requires j < |t| && t[j].verb == RouteVerb(verb) && Matches(t[j].pattern, segs)
    ensures FirstMatch(t, verb, segs) <= j
  {
  }

  /** GET requests: no segment lists the items, one segment fetches by id, two
      go to the key/value handler; more find no route. */
  lemma GetRoutes(verb: string, segs: seq<string>)
    requires verb == "GET" || verb == "HEAD"
    requires forall i :: 0 <= i < |segs| ==> segs[i] != ""
    ensures |segs| == 0 ==> Dispatch(verb, segs) == Some(Dispatched(GetItems, map[]))
    ensures |segs| == 1 ==> Dispatch(verb, segs) == Some(Dispatched(GetItem, map["_id" := segs[0]]))
    ensures |segs| == 2 ==> Dispatch(verb, segs) == Some(Dispatched(KeyValue, map["key" := segs[0], "value" := segs[1]]))
    ensures |segs| > 2 ==> Dispatch(verb, segs).None?
  {
    if |segs| == 0 {
      SkipTo(Table, verb, segs, 0);
    } else if |segs| == 1 {
      GetOneSegment(verb, segs);
    } else if |segs| == 2 {
      GetTwoSegments(verb, segs);
    } else if |segs| > 2 {
      NoRouteTakesLongPaths(Table, verb, segs);
    }
  }

  lemma GetOneSegment(verb: string, segs: seq<string>)
    requires (verb == "GET" || verb == "HEAD") && |segs| == 1 && segs[0] != ""
    ensures Dispatch(verb, segs) == Some(Dispatched(GetItem, map["_id" := segs[0]]))
  {
    SkipTo(Table, verb, segs, 1);
    assert segs == [segs[0]];
    BindOne("_id", segs[0]);
  }

  lemma GetTwoSegments(verb: string, segs: seq<string>)
    requires (verb == "GET" || verb == "HEAD") && |segs| == 2 && segs[0] != "" && segs[1] != ""
    ensures Dispatch(verb, segs) == Some(Dispatched(KeyValue, map["key" := segs[0], "value" := segs[1]]))
  {
    SkipTo(Table, verb, segs, 2);
    var pat := [Param("key"), Param("value")];
    assert Table[2].pattern == pat;
    assert pat[1..] == [Param("value")] && segs[1..] == [segs[1]];
    BindOne("value", segs[1]);
    assert Bind(pat, segs) == map["key" := segs[0]] + map["value" := segs[1]];
    assert map["key" := segs[0]] + map["value" := segs[1]] == map["key" := segs[0], "value" := segs[1]];
  }

  /** No route has more than two segments. */
  lemma {:induction false} NoRouteTakesLongPaths(t: seq<Route>, verb: string, segs: seq<string>)
    requires forall j :: 0 <= j < |t| ==> |t[j].pattern| <= 2
    requires |segs| > 2
    ensures FirstMatch(t, verb, segs) == |t|
  {
    if t != [] {
      NoRouteTakesLongPaths(t[1..], verb, segs);
    }
  }

  // ------------------------------------------------------ /:key/:value

  datatype Controller = GetFieldById | GetItemById | GetItemByField

  datatype Call = Call(controller: Controller, params: map<string, string>)

  /** `mongoose.Types.ObjectId.isValid` of a route parameter: `isValid` judges
      a string, and an unbound parameter (undefined) is never valid. */
  predicate ValidParam(p: Option<string>, isValid: string -> bool) {
    p.Some? && isValid(p.value)
  }

  /** The `/:key/:value` handler. */
  function KeyValueDispatch(params: map<string, string>, isValid: string -> bool): (r: Call)
    requires "key" in params && "value" in params
  {
    var key := params["key"];
    var slug := if "slug" in params then Some(params["slug"]) else None;
    if isValid(key) then Call(GetFieldById, params["_id" := key]["field" := params["value"]])
    else if ValidParam(slug, isValid) then Call(GetItemById, params["_id" := slug.value])
    else Call(GetItemByField, params)
  }

  /** A valid ObjectId key fetches the field named by the value of the item
      with that id; otherwise a valid `slug` parameter would fetch that item,
      and anything else is looked up by field. */
  lemma KeyValueChoice(params: map<string, string>, isValid: string -> bool)
    requires "key" in params && "value" in params
    ensures var key := params["key"];
            var r := KeyValueDispatch(params, isValid);
            (isValid(key) ==> r == Call(GetFieldById, params["_id" := key]["field" := params["value"]])) &&
            (r.controller == GetItemById <==> !isValid(key) && "slug" in params && isValid(params["slug"])) &&
            (r.controller == GetItemById ==> r.params == params["_id" := params["slug"]]) &&
            (r.controller == GetItemByField <==> !isValid(key) && !ValidParam(if "slug" in params then Some(params["slug"]) else None, isValid)) &&
            (r.controller == GetItemByField ==> r.params == params)
  {
  }

  /** The route `/:key/:value` binds no `slug`, so the by-slug branch is dead:
      an id key reads a field by id and any other key reads by field. */
  lemma SlugBranchDead(key: string, value: string, isValid: string -> bool)
    ensures var params := map["key" := key, "value" := value];
            var r := KeyValueDispatch(params, isValid);
            r.controller != GetItemById &&
            (r.controller == GetFieldById <==> isValid(key)) &&
            (!isValid(key) ==> r == Call(GetItemByField, params))
  {
    var params := map["key" := key, "value" := value];
    assert "slug" !in params;
  }

  /** Through the router: a GET of `/<key>/<value>` with a valid id key calls
      getFieldById with `_id` the key and `field` the value. */
  lemma KeyValueFromRouter(key: string, value: string, isValid: string -> bool)
    requires key != "" && value != ""
    requires isValid(key)
    ensures Dispatch("GET", [key, value]) == Some(Dispatched(KeyValue, map["key" := key, "value" := value]))
    ensures KeyValueDispatch(map["key" := key, "value" := value], isValid) ==
            Call(GetFieldById, map["key" := key, "value" := value, "_id" := key, "field" := value])
  {
    GetRoutes("GET", [key, value]);
  }
}
