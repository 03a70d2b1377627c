/**
  The plugin file openai-specification-generator.php: endpoint discovery
  with de-duplication by route, the filter-word list of the settings page,
  the sanitiser of the per-route settings, and the OpenAPI 3.0.1 document
  built from the discovered endpoints and the saved settings.

  The WordPress calls are inputs: the REST server's route table, the saved
  options, the site name and the REST URL; sanitize_text_field and
  wp_kses_post are function parameters.
 */
module OpenAiSpecGenerator {
  import opened PhpArray
  import opened PhpString

  // =====================================================================
  // The route table and endpoint discovery
  // =====================================================================

  /** What `$handler['callback']` holds: nothing (unset or null), an array callable, or another callable. */
  datatype Callback = NoCallback | ArrayCallback | OtherCallback

  /** One handler of a route: its callback and the values of its `methods` array. */
  datatype Handler = Handler(callback: Callback, methods: seq<string>)

  /** `rest_get_server()->get_routes()`: route pattern to its handlers. */
  type RouteTable = Assoc<string, seq<Handler>>

  /** One discovered endpoint: `array('route' => ..., 'methods' => ...)`. */
  datatype Endpoint = Endpoint(route: string, methods: seq<string>)

  /** The marker of a named capture group: routes containing it are dynamic. */
  const DynamicMarker: string := "(?P<"

  predicate IsDynamic(route: string) {
    Contains(route, DynamicMarker)
  }

  /** A handler that discovery takes: array callback on a static route. */
  predicate Eligible(route: string, h: Handler) {
    h.callback == ArrayCallback && !IsDynamic(route)
  }

  /** One record per eligible handler of one route, in handler order. */
  function RouteCandidates(route: string, handlers: seq<Handler>): (r: seq<Endpoint>)
    ensures |r| <= |handlers|
  {
    if handlers == [] then []
    else
      var h := handlers[|handlers| - 1];
      RouteCandidates(route, handlers[..|handlers| - 1])
      + (if Eligible(route, h) then [Endpoint(route, h.methods)] else [])
  }

  /** One record per eligible handler of the whole table, in table order. */
  function Candidates(table: RouteTable): seq<Endpoint> {
    if table == [] then []
    else
      var (route, handlers) := table[|table| - 1];
      Candidates(table[..|table| - 1]) + RouteCandidates(route, handlers)
  }

  predicate HasRoute(es: seq<Endpoint>, route: string) {
    exists k | 0 <= k < |es| :: es[k].route == route
  }

  predicate DistinctRoutes(es: seq<Endpoint>) {
    forall i, j :: 0 <= i < j < |es| ==> es[i].route != es[j].route
  }

  /** Append e unless a record with its route is already there. */
  function AddIfAbsent(es: seq<Endpoint>, e: Endpoint): (r: seq<Endpoint>)
    ensures es <= r && |r| <= |es| + 1
  {
    if HasRoute(es, e.route) then es else es + [e]
  }

  /** The records of `cands`, keeping only the first one for each route. */
  function KeepFirst(cands: seq<Endpoint>): (r: seq<Endpoint>)
    ensures |r| <= |cands|
  {
    if cands == [] then []
    else AddIfAbsent(KeepFirst(cands[..|cands| - 1]), cands[|cands| - 1])
  }

  /** What `wp_openapi_generator_discover_endpoints` returns for a route table. */
  function Discovered(table: RouteTable): (r: seq<Endpoint>)
    ensures |r| <= |Candidates(table)|
    ensures DistinctRoutes(r)
  {
    KeepFirstDistinct(Candidates(table));
    KeepFirst(Candidates(table))
  }

  /** Position of the first record with the given route. */
  function FirstIndex(es: seq<Endpoint>, route: string): (p: nat)
    requires HasRoute(es, route)
    ensures p < |es| && es[p].route == route
    ensures forall q :: 0 <= q < p ==> es[q].route != route
  {
    if es[0].route == route then 0
    else
      assert HasRoute(es[1..], route) by {
        var k :| 0 <= k < |es| && es[k].route == route;
        assert es[1..][k - 1].route == route;
      }
      1 + FirstIndex(es[1..], route)
  }

  lemma HasRouteSnoc(es: seq<Endpoint>, e: Endpoint, r: string)
    ensures HasRoute(es + [e], r) <==> HasRoute(es, r) || r == e.route
  {
    if HasRoute(es, r) {
      var q :| 0 <= q < |es| && es[q].route == r;
      assert (es + [e])[q].route == r;
    }
    if r == e.route {
      assert (es + [e])[|es|].route == r;
    }
    if HasRoute(es + [e], r) && r != e.route {
      var q :| 0 <= q < |es + [e]| && (es + [e])[q].route == r;
      assert es[q].route == r;
    }
  }

  lemma HasRouteAppend(a: seq<Endpoint>, b: seq<Endpoint>, r: string)
    ensures HasRoute(a + b, r) <==> HasRoute(a, r) || HasRoute(b, r)
  {
    if HasRoute(a, r) {
      var q :| 0 <= q < |a| && a[q].route == r;
      assert (a + b)[q].route == r;
    }
    if HasRoute(b, r) {
      var q :| 0 <= q < |b| && b[q].route == r;
      assert (a + b)[|a| + q].route == r;
    }
    if HasRoute(a + b, r) {
      var q :| 0 <= q < |a + b| && (a + b)[q].route == r;
      if q < |a| { assert a[q].route == r; } else { assert b[q - |a|].route == r; }
    }
  }

  lemma FirstIndexSnoc(es: seq<Endpoint>, e: Endpoint, route: string)
    requires HasRoute(es, route)
    ensures HasRoute(es + [e], route)
    ensures FirstIndex(es + [e], route) == FirstIndex(es, route)
  {
    var p := FirstIndex(es, route);
    assert (es + [e])[p].route == route;
    var p' := FirstIndex(es + [e], route);
    assert forall q :: 0 <= q < |es| ==> (es + [e])[q] == es[q];
  }

  lemma FirstIndexLast(es: seq<Endpoint>, e: Endpoint)
    requires !HasRoute(es, e.route)
    ensures HasRoute(es + [e], e.route)
    ensures FirstIndex(es + [e], e.route) == |es|
  {
    HasRouteSnoc(es, e, e.route);
  }

  lemma KeepFirstSnoc(cands: seq<Endpoint>, c: Endpoint)
    ensures KeepFirst(cands + [c]) == AddIfAbsent(KeepFirst(cands), c)
  {
    assert (cands + [c])[..|cands|] == cands;
  }

  /** Keeping the first record per route keeps exactly the routes of the input. */
  lemma {:induction false} KeepFirstRoutes(cands: seq<Endpoint>, r: string)
    ensures HasRoute(KeepFirst(cands), r) <==> HasRoute(cands, r)
  {
    if cands != [] {
      var c, x := cands[..|cands| - 1], cands[|cands| - 1];
      assert cands == c + [x];
      KeepFirstRoutes(c, r);
      KeepFirstRoutes(c, x.route);
      HasRouteSnoc(c, x, r);
      HasRouteSnoc(KeepFirst(c), x, r);
    }
  }

  /** Keeping the first record per route lists each route once. */
  lemma {:induction false} KeepFirstDistinct(cands: seq<Endpoint>)
    ensures DistinctRoutes(KeepFirst(cands))
  {
    if cands != [] {
      var c, x := cands[..|cands| - 1], cands[|cands| - 1];
      KeepFirstDistinct(c);
      var k := KeepFirst(c);
      if !HasRoute(k, x.route) {
        forall i | 0 <= i < |k| ensures k[i].route != x.route {
        }
      }
    }
  }

  /** Each kept record is the first record of its route in the input. */
  lemma {:induction false} KeepFirstElement(cands: seq<Endpoint>, i: nat)
    requires i < |KeepFirst(cands)|
    ensures HasRoute(cands, KeepFirst(cands)[i].route)
    ensures KeepFirst(cands)[i] == cands[FirstIndex(cands, KeepFirst(cands)[i].route)]
  {
    var c, x := cands[..|cands| - 1], cands[|cands| - 1];
    assert cands == c + [x];
    var k := KeepFirst(c);
    KeepFirstRoutes(c, x.route);
    if i < |k| {
      KeepFirstElement(c, i);
      assert KeepFirst(cands)[i] == k[i];
      FirstIndexSnoc(c, x, k[i].route);
    } else {
      assert KeepFirst(cands)[i] == x;
      FirstIndexLast(c, x);
    }
  }

  /** Kept records are ordered by where their routes first appear in the input. */
  lemma {:induction false} KeepFirstOrder(cands: seq<Endpoint>, i: nat, j: nat)
    requires i < j < |KeepFirst(cands)|
    ensures HasRoute(cands, KeepFirst(cands)[i].route) && HasRoute(cands, KeepFirst(cands)[j].route)
    ensures FirstIndex(cands, KeepFirst(cands)[i].route) < FirstIndex(cands, KeepFirst(cands)[j].route)
  {
    var c, x := cands[..|cands| - 1], cands[|cands| - 1];
    assert cands == c + [x];
    var k := KeepFirst(c);
    KeepFirstRoutes(c, x.route);
    KeepFirstElement(cands, i);
    KeepFirstElement(cands, j);
    KeepFirstElement(c, i);
    assert KeepFirst(cands)[i] == k[i];
    FirstIndexSnoc(c, x, k[i].route);
    if j < |k| {
      KeepFirstOrder(c, i, j);
      assert KeepFirst(cands)[j] == k[j];
      FirstIndexSnoc(c, x, k[j].route);
    } else {
      FirstIndexLast(c, x);
    }
  }

  /** The records for one route's handlers all carry that route. */
  lemma {:induction false} RouteCandidatesRoute(route: string, handlers: seq<Handler>, k: nat)
    requires k < |RouteCandidates(route, handlers)|
    ensures RouteCandidates(route, handlers)[k].route == route && !IsDynamic(route)
  {
    var hs, h := handlers[..|handlers| - 1], handlers[|handlers| - 1];
    if k < |RouteCandidates(route, hs)| {
      RouteCandidatesRoute(route, hs, k);
    }
  }

  /** One route's records are non-empty iff one of its handlers is eligible. */
  lemma {:induction false} RouteCandidatesNonEmpty(route: string, handlers: seq<Handler>, r: string)
    ensures HasRoute(RouteCandidates(route, handlers), r) <==>
      r == route && exists j :: 0 <= j < |handlers| && Eligible(route, handlers[j])
  {
    if handlers != [] {
      var hs, h := handlers[..|handlers| - 1], handlers[|handlers| - 1];
      RouteCandidatesNonEmpty(route, hs, r);
      var tail := if Eligible(route, h) then [Endpoint(route, h.methods)] else [];
      HasRouteAppend(RouteCandidates(route, hs), tail, r);
      assert HasRoute(tail, r) <==> r == route && Eligible(route, h) by {
        if HasRoute(tail, r) { assert tail[0].route == r; }
        if r == route && Eligible(route, h) { assert tail[0].route == r; }
      }
      if exists j :: 0 <= j < |handlers| && Eligible(route, handlers[j]) {
        var j :| 0 <= j < |handlers| && Eligible(route, handlers[j]);
        if j < |hs| { assert hs[j] == handlers[j]; }
      }
      if exists j :: 0 <= j < |hs| && Eligible(route, hs[j]) {
        var j :| 0 <= j < |hs| && Eligible(route, hs[j]);
        assert handlers[j] == hs[j];
      }
    }
  }

  /** No record of the whole table has a dynamic route. */
  lemma {:induction false} CandidatesStatic(table: RouteTable, k: nat)
    requires k < |Candidates(table)|
    ensures !IsDynamic(Candidates(table)[k].route)
  {
    var t := table[..|table| - 1];
    var (route, handlers) := table[|table| - 1];
    var c: seq<Endpoint> := Candidates(t);
    if k < |c| {
      CandidatesStatic(t, k);
    } else {
      RouteCandidatesRoute(route, handlers, k - |c|);
    }
  }

  /** A route has a record iff the table gives it an eligible handler. */
  lemma {:induction false} CandidatesRoutes(table: RouteTable, r: string)
    ensures HasRoute(Candidates(table), r) <==>
      exists i, j :: 0 <= i < |table| && table[i].0 == r && 0 <= j < |table[i].1| && Eligible(r, table[i].1[j])
  {
    if table != [] {
      var t := table[..|table| - 1];
      var (route, handlers) := table[|table| - 1];
      CandidatesRoutes(t, r);
      RouteCandidatesNonEmpty(route, handlers, r);
      HasRouteAppend(Candidates(t), RouteCandidates(route, handlers), r);
      if exists i, j :: 0 <= i < |table| && table[i].0 == r && 0 <= j < |table[i].1| && Eligible(r, table[i].1[j]) {
        var i, j :| 0 <= i < |table| && table[i].0 == r && 0 <= j < |table[i].1| && Eligible(r, table[i].1[j]);
        if i < |t| {
          assert t[i] == table[i];
        } else {
          assert handlers[j] == table[i].1[j];
        }
      }
      if exists i, j :: 0 <= i < |t| && t[i].0 == r && 0 <= j < |t[i].1| && Eligible(r, t[i].1[j]) {
        var i, j :| 0 <= i < |t| && t[i].0 == r && 0 <= j < |t[i].1| && Eligible(r, t[i].1[j]);
        assert table[i] == t[i];
      }
      if r == route && exists j :: 0 <= j < |handlers| && Eligible(route, handlers[j]) {
        var j :| 0 <= j < |handlers| && Eligible(route, handlers[j]);
        assert table[|table| - 1].1[j] == handlers[j];
      }
    }
  }

  /**
    Discovery lists each route at most once; no listed route is dynamic; a
    route is listed iff one of its handlers has an array callback and the
    route is static; each record is the first eligible handler's record
    (later handlers' methods are not merged in); and records are ordered by
    first appearance in the table.
   */
  lemma DiscoveredSpec(table: RouteTable)
    ensures DistinctRoutes(Discovered(table))
    ensures forall i :: 0 <= i < |Discovered(table)| ==> !IsDynamic(Discovered(table)[i].route)
    ensures forall r :: HasRoute(Discovered(table), r) <==>
      exists i, j :: 0 <= i < |table| && table[i].0 == r && 0 <= j < |table[i].1| && Eligible(r, table[i].1[j])
    ensures forall i :: 0 <= i < |Discovered(table)| ==>
      HasRoute(Candidates(table), Discovered(table)[i].route)
      && Discovered(table)[i] == Candidates(table)[FirstIndex(Candidates(table), Discovered(table)[i].route)]
    ensures forall i, j :: 0 <= i < j < |Discovered(table)| ==>
      HasRoute(Candidates(table), Discovered(table)[i].route)
      && HasRoute(Candidates(table), Discovered(table)[j].route)
      && FirstIndex(Candidates(table), Discovered(table)[i].route)
         < FirstIndex(Candidates(table), Discovered(table)[j].route)
  {
    var cands := Candidates(table);
    KeepFirstDistinct(cands);
    forall i | 0 <= i < |Discovered(table)|
      ensures HasRoute(cands, Discovered(table)[i].route)
      ensures Discovered(table)[i] == cands[FirstIndex(cands, Discovered(table)[i].route)]
      ensures !IsDynamic(Discovered(table)[i].route)
    {
      KeepFirstElement(cands, i);
      CandidatesStatic(table, FirstIndex(cands, Discovered(table)[i].route));
    }
    forall r ensures HasRoute(Discovered(table), r) <==>
      exists i, j :: 0 <= i < |table| && table[i].0 == r && 0 <= j < |table[i].1| && Eligible(r, table[i].1[j])
    {
      KeepFirstRoutes(cands, r);
      CandidatesRoutes(table, r);
    }
    forall i, j | 0 <= i < j < |Discovered(table)|
      ensures HasRoute(cands, Discovered(table)[i].route) && HasRoute(cands, Discovered(table)[j].route)
      ensures FirstIndex(cands, Discovered(table)[i].route) < FirstIndex(cands, Discovered(table)[j].route)
    {
      KeepFirstOrder(cands, i, j);
    }
  }

  lemma RouteCandidatesSnoc(route: string, handlers: seq<Handler>, j: nat)
    requires j < |handlers|
    ensures RouteCandidates(route, handlers[..j + 1])
         == RouteCandidates(route, handlers[..j])
            + (if Eligible(route, handlers[j]) then [Endpoint(route, handlers[j].methods)] else [])
  {
    assert handlers[..j + 1][..j] == handlers[..j];
  }

  lemma CandidatesSnoc(table: RouteTable, i: nat)
    requires i < |table|
    ensures Candidates(table[..i + 1]) == Candidates(table[..i]) + RouteCandidates(table[i].0, table[i].1)
  {
    assert table[..i + 1][..i] == table[..i];
  }

  /** The inner scan of discovery: is a record for `route` already listed? Stops at the first match. */
  method RouteListed(endpoints: seq<Endpoint>, route: string) returns (routeExists: bool)
    ensures routeExists <==> HasRoute(endpoints, route)
  {
    routeExists := false;
    var k := 0;
    while k < |endpoints|
      invariant 0 <= k <= |endpoints|
      invariant !routeExists
      invariant forall q :: 0 <= q < k ==> endpoints[q].route != route
    {
      if endpoints[k].route == route {
        routeExists := true;
        break;
      }
      k := k + 1;
    }
  }

  /** `wp_openapi_generator_discover_endpoints`: one pass over the table with a linear duplicate scan. */
  method DiscoverEndpoints(table: RouteTable) returns (endpoints: seq<Endpoint>)
    ensures endpoints == Discovered(table)
    ensures DistinctRoutes(endpoints)
    ensures forall i :: 0 <= i < |endpoints| ==> !IsDynamic(endpoints[i].route)
  {
    endpoints := [];
    for i := 0 to |table|
      invariant endpoints == KeepFirst(Candidates(table[..i]))
    {
      var (route, handlers) := table[i];
      ghost var done := Candidates(table[..i]);
      assert handlers[..0] == [] && done + [] == done;
      for j := 0 to |handlers|
        invariant endpoints == KeepFirst(done + RouteCandidates(route, handlers[..j]))
      {
        var handler := handlers[j];
        KeepFirstStep(done, route, handlers, j);
        if handler.callback == ArrayCallback && !Contains(route, DynamicMarker) {
          var routeExists := RouteListed(endpoints, route);
          if !routeExists {
            endpoints := endpoints + [Endpoint(route, handler.methods)];
          }
        }
      }
      assert handlers[..|handlers|] == handlers;
      CandidatesSnoc(table, i);
    }
    assert table[..|table|] == table;
    assert DistinctRoutes(endpoints) && forall i :: 0 <= i < |endpoints| ==> !IsDynamic(endpoints[i].route) by {
      DiscoveredSpec(table);
    }
  }

  /** One step of the inner loop of discovery: an eligible handler is added unless its route is listed. */
  lemma KeepFirstStep(done: seq<Endpoint>, route: string, handlers: seq<Handler>, j: nat)
    requires j < |handlers|
    ensures KeepFirst(done + RouteCandidates(route, handlers[..j + 1]))
         == if Eligible(route, handlers[j])
            then AddIfAbsent(KeepFirst(done + RouteCandidates(route, handlers[..j])), Endpoint(route, handlers[j].methods))
            else KeepFirst(done + RouteCandidates(route, handlers[..j]))
  {
    var before := done + RouteCandidates(route, handlers[..j]);
    RouteCandidatesSnoc(route, handlers, j);
    if Eligible(route, handlers[j]) {
      KeepFirstSnoc(before, Endpoint(route, handlers[j].methods));
      assert before + [Endpoint(route, handlers[j].methods)] == done + RouteCandidates(route, handlers[..j + 1]);
    } else {
      assert before == done + RouteCandidates(route, handlers[..j + 1]);
    }
  }

  // =====================================================================
  // The filter words of the settings page
  // =====================================================================

  /** The value of the filter-words option when it was never saved. */
  const DefaultFilterWords: string := "oembed\nblocks"

  /** `get_option('wp_openapi_generator_filter_words', "oembed\nblocks")`. */
  function FilterText(saved: Option<string>): (r: string)
    ensures saved.Some? ==> r == saved.value
    ensures saved.None? ==> r == DefaultFilterWords
  {
    saved.GetOr(DefaultFilterWords)
  }

  /** The closure passed to array_filter: false as soon as one word occurs in the route. */
  predicate KeptBy(route: string, words: seq<string>)
    ensures KeptBy(route, words) ==> forall k :: 0 <= k < |words| ==> !ContainsIgnoreCase(route, words[k])
  {
    words == [] || (!ContainsIgnoreCase(route, words[0]) && KeptBy(route, words[1..]))
  }

  /** The closure keeps a route iff no word is a case-insensitive substring of it. */
  lemma {:induction false} KeptByIff(route: string, words: seq<string>)
    ensures KeptBy(route, words) <==> forall k :: 0 <= k < |words| ==> !ContainsIgnoreCase(route, words[k])
  {
    if words != [] {
      KeptByIff(route, words[1..]);
      assert forall k :: 1 <= k < |words| ==> words[k] == words[1..][k - 1];
    }
  }

  /** `array_filter($endpoints, closure)`, as the order in which `foreach` visits the result. */
  function FilterEndpoints(es: seq<Endpoint>, words: seq<string>): (r: seq<Endpoint>)
    ensures |r| <= |es|
    ensures forall i :: 0 <= i < |r| ==> KeptBy(r[i].route, words)
  {
    if es == [] then []
    else (if KeptBy(es[0].route, words) then [es[0]] else []) + FilterEndpoints(es[1..], words)
  }

  /** The endpoints listed on the settings page for a given filter text. */
  function ShownEndpoints(es: seq<Endpoint>, filterText: string): (r: seq<Endpoint>)
    ensures |r| <= |es|
    ensures forall i :: 0 <= i < |r| ==> KeptBy(r[i].route, SplitLines(filterText))
  {
    FilterEndpoints(es, SplitLines(filterText))
  }

  /** An endpoint survives the filter iff it was there and no word matches its route. */
  lemma {:induction false} FilterEndpointsMember(es: seq<Endpoint>, words: seq<string>, e: Endpoint)
    ensures e in FilterEndpoints(es, words) <==> e in es && KeptBy(e.route, words)
  {
    if es != [] {
      FilterEndpointsMember(es[1..], words, e);
      assert es == [es[0]] + es[1..];
    }
  }

  /** The filter keeps relative order: it distributes over concatenation. */
  lemma {:induction false} FilterEndpointsAppend(a: seq<Endpoint>, b: seq<Endpoint>, words: seq<string>)
    ensures FilterEndpoints(a + b, words) == FilterEndpoints(a, words) + FilterEndpoints(b, words)
  {
    if a == [] {
      assert a + b == b;
    } else {
      var ab := a + b;
      assert ab != [] && ab[0] == a[0] && ab[1..] == a[1..] + b;
      FilterEndpointsAppend(a[1..], b, words);
      var head := if KeptBy(a[0].route, words) then [a[0]] else [];
      assert FilterEndpoints(ab, words) == head + (FilterEndpoints(a[1..], words) + FilterEndpoints(b, words));
    }
  }

  /** With no words everything is kept, in the original order. */
  lemma {:induction false} FilterEndpointsNoWords(es: seq<Endpoint>, filterText: string)
    requires forall i :: 0 <= i < |filterText| ==> IsLineBreak(filterText[i])
    ensures ShownEndpoints(es, filterText) == es
  {
    SplitLinesEmpty(filterText);
    if es != [] {
      FilterEndpointsNoWords(es[1..], filterText);
    }
  }

  /** Filtering twice with the same words is filtering once. */
  lemma {:induction false} FilterEndpointsIdempotent(es: seq<Endpoint>, words: seq<string>)
    ensures FilterEndpoints(FilterEndpoints(es, words), words) == FilterEndpoints(es, words)
  {
    if es != [] {
      FilterEndpointsIdempotent(es[1..], words);
      var rest := FilterEndpoints(es[1..], words);
      if KeptBy(es[0].route, words) {
        var once := [es[0]] + rest;
        assert FilterEndpoints(es, words) == once;
        assert once[0] == es[0] && once[1..] == rest;
        assert FilterEndpoints(once, words) == [es[0]] + FilterEndpoints(rest, words);
      } else {
        assert FilterEndpoints(es, words) == rest;
      }
    }
  }

  /** The default filter text is the two words "oembed" and "blocks". */
  lemma DefaultFilterWordsSplit()
    ensures SplitLines(FilterText(None)) == ["oembed", "blocks"]
  {
    SplitJoinLines(["oembed", "blocks"]);
    assert JoinLines(["oembed", "blocks"]) == DefaultFilterWords;
  }

  /** The settings page: discovery, then the filter with the saved (or default) words. */
  method SettingsPageEndpoints(table: RouteTable, savedFilterWords: Option<string>) returns (shown: seq<Endpoint>)
    ensures shown == ShownEndpoints(Discovered(table), FilterText(savedFilterWords))
    ensures forall e :: e in shown <==>
      e in Discovered(table) && KeptBy(e.route, SplitLines(FilterText(savedFilterWords)))
  {
    var endpoints := DiscoverEndpoints(table);
    var words := SplitLines(FilterText(savedFilterWords));
    shown := FilterEndpoints(endpoints, words);
    forall e ensures e in shown <==> e in endpoints && KeptBy(e.route, words) {
      FilterEndpointsMember(endpoints, words, e);
    }
  }

  // =====================================================================
  // The saved settings and their sanitiser
  // =====================================================================

  /** The fields of one route posted by the settings form (absent = not posted). */
  datatype Submitted = Submitted(includeFlag: Option<string>, summary: Option<string>, description: Option<string>)

  /** The fields saved for one route; `include` is an integer read with PHP truthiness. */
  datatype Setting = Setting(includeFlag: Option<int>, summary: Option<string>, description: Option<string>)

  /**
    One route's entry after sanitising: include becomes 1 or 0; an absent
    summary or description is read as null, which both sanitisers turn into
    the empty string they are given here.
   */
  function SanitizeEntry(e: Submitted, sanitizeText: string -> string, ksesPost: string -> string): (r: Setting)
    ensures r.includeFlag.Some? && 0 <= r.includeFlag.value <= 1
    ensures r.includeFlag.value == 1 <==> e.includeFlag.Some?
    ensures r.summary.Some? && r.description.Some?
  {
    Setting(
      Some(if e.includeFlag.Some? then 1 else 0),
      Some(sanitizeText(e.summary.GetOr(""))),
      Some(ksesPost(e.description.GetOr(""))))
  }

  /** The whole posted array, entry by entry. */
  function SanitizedArray(posted: Assoc<string, Submitted>, sanitizeText: string -> string, ksesPost: string -> string)
    : (saved: Assoc<string, Setting>)
    ensures |saved| == |posted|
  {
    if posted == [] then []
    else [(posted[0].0, SanitizeEntry(posted[0].1, sanitizeText, ksesPost))]
         + SanitizedArray(posted[1..], sanitizeText, ksesPost)
  }

  /** `wp_openapi_generator_sanitize_endpoints`: rewrites every entry in place. */
  method SanitizeEndpoints(posted: Assoc<string, Submitted>, sanitizeText: string -> string, ksesPost: string -> string)
    returns (saved: Assoc<string, Setting>)
    ensures saved == SanitizedArray(posted, sanitizeText, ksesPost)
    ensures Keys(saved) == Keys(posted)
    ensures forall i :: 0 <= i < |saved| ==>
      saved[i].1.includeFlag.Some?
      && (saved[i].1.includeFlag.value == 1 <==> posted[i].1.includeFlag.Some?)
      && (saved[i].1.includeFlag.value == 0 <==> posted[i].1.includeFlag.None?)
  {
    saved := [];
    for i := 0 to |posted|
      invariant saved == SanitizedArray(posted[..i], sanitizeText, ksesPost)
    {
      var (route, entry) := posted[i];
      SanitizedArraySnoc(posted[..i], route, entry, sanitizeText, ksesPost);
      assert posted[..i + 1] == posted[..i] + [(route, entry)];
      saved := saved + [(route, SanitizeEntry(entry, sanitizeText, ksesPost))];
    }
    assert posted[..|posted|] == posted;
    SanitizedArraySpec(posted, sanitizeText, ksesPost);
  }

  lemma {:induction false} SanitizedArraySnoc(posted: Assoc<string, Submitted>, route: string, e: Submitted,
                                               sanitizeText: string -> string, ksesPost: string -> string)
    ensures SanitizedArray(posted + [(route, e)], sanitizeText, ksesPost)
         == SanitizedArray(posted, sanitizeText, ksesPost) + [(route, SanitizeEntry(e, sanitizeText, ksesPost))]
  {
    if posted != [] {
      assert (posted + [(route, e)])[1..] == posted[1..] + [(route, e)];
      SanitizedArraySnoc(posted[1..], route, e, sanitizeText, ksesPost);
    }
  }

  /** Sanitising keeps every key in place and rewrites each entry by itself. */
  lemma {:induction false} SanitizedArraySpec(posted: Assoc<string, Submitted>, sanitizeText: string -> string, ksesPost: string -> string)
    ensures Keys(SanitizedArray(posted, sanitizeText, ksesPost)) == Keys(posted)
    ensures forall i :: 0 <= i < |posted| ==>
      SanitizedArray(posted, sanitizeText, ksesPost)[i].1 == SanitizeEntry(posted[i].1, sanitizeText, ksesPost)
    ensures forall r :: (Get(SanitizedArray(posted, sanitizeText, ksesPost), r)
      == if HasKey(posted, r) then Some(SanitizeEntry(Get(posted, r).value, sanitizeText, ksesPost)) else None)
  {
    if posted != [] {
      SanitizedArraySpec(posted[1..], sanitizeText, ksesPost);
      var s := SanitizedArray(posted, sanitizeText, ksesPost);
      assert s[1..] == SanitizedArray(posted[1..], sanitizeText, ksesPost);
      assert Keys(posted) == [posted[0].0] + Keys(posted[1..]);
      assert Keys(s) == [s[0].0] + Keys(s[1..]);
    }
  }

  // =====================================================================
  // The OpenAPI 3.0.1 document
  // =====================================================================

  datatype Response = Response(description: string, mediaType: string, schemaRef: string)

  /** One operation: `summary`, `description`, and the `200` and `default` responses. */
  datatype Operation = Operation(summary: string, description: string, ok: Response, fallback: Response)

  datatype Info = Info(title: string, description: string, version: string)

  datatype Server = Server(url: string)

  datatype Property = Property(kind: string, description: string)

  datatype Schema = Schema(kind: string, properties: Assoc<string, Property>)

  /** Lower-cased method to operation, for one path. */
  type Operations = Assoc<string, Operation>

  /** Route to its operations: the Paths Object. */
  type Paths = Assoc<string, Operations>

  datatype Document = Document(openapi: string, info: Info, servers: seq<Server>, paths: Paths, schemas: Assoc<string, Schema>)

  const OpenApiVersion: string := "3.0.1"

  const SchemaRefPrefix: string := "#/components/schemas/"

  const ErrorSchemaName: string := "error_response"

  /** The schema every `default` response refers to. */
  const ErrorResponseSchema: Schema :=
    Schema("object", [("error", Property("string", "A description of the error that occurred."))])

  /** The name of the per-operation response schema: slashes of the route become underscores. */
  function ResponseSchemaName(route: string, key: string): (r: string)
    ensures '/' !in key ==> '/' !in r
  {
    ReplaceSlashes(route) + "_" + key + "_response"
  }

  /** The operation written under the lower-cased method `key`. */
  function NewOperation(route: string, key: string, summary: string, description: string): (r: Operation)
    ensures r.summary == summary && r.description == description
    ensures r.ok.schemaRef != r.fallback.schemaRef
  {
    ResponseSchemaUndefined(route, key);
    assert Keys(Schemas) == [ErrorSchemaName];
    assert (SchemaRefPrefix + ResponseSchemaName(route, key))[|SchemaRefPrefix|..] == ResponseSchemaName(route, key);
    assert (SchemaRefPrefix + ErrorSchemaName)[|SchemaRefPrefix|..] == ErrorSchemaName;
    Operation(
      summary,
      description,
      Response("OK", "application/json", SchemaRefPrefix + ResponseSchemaName(route, key)),
      Response("An error occurred", "application/json", SchemaRefPrefix + ErrorSchemaName))
  }

  /** `isset($settings[$route]['include']) && $settings[$route]['include']`. */
  predicate Included(settings: Assoc<string, Setting>, route: string)
    ensures Included(settings, route) ==> Get(settings, route).Some?
  {
    var s := Get(settings, route);
    s.Some? && s.value.includeFlag.Some? && s.value.includeFlag.value != 0
  }

  /** `isset($settings[$route]['summary']) ? $settings[$route]['summary'] : ''`. */
  function SummaryOf(settings: Assoc<string, Setting>, route: string): (r: string)
    ensures !HasKey(settings, route) ==> r == ""
  {
    var s := Get(settings, route);
    if s.Some? then s.value.summary.GetOr("") else ""
  }

  /** `isset($settings[$route]['description']) ? $settings[$route]['description'] : ''`. */
  function DescriptionOf(settings: Assoc<string, Setting>, route: string): (r: string)
    ensures !HasKey(settings, route) ==> r == ""
  {
    var s := Get(settings, route);
    if s.Some? then s.value.description.GetOr("") else ""
  }

  /** The inner loop: one write per method, under `strtolower($method)`. */
  function PutOperations(ops: Operations, route: string, methods: seq<string>, summary: string, description: string)
    : (r: Operations)
    ensures methods == [] ==> r == ops
    ensures |r| <= |ops| + |methods|
  {
    if methods == [] then ops
    else
      var key := Lower(methods[|methods| - 1]);
      Put(PutOperations(ops, route, methods[..|methods| - 1], summary, description),
          key, NewOperation(route, key, summary, description))
  }

  /** The outer loop over the endpoints, skipping those not included. */
  function BuildPaths(es: seq<Endpoint>, settings: Assoc<string, Setting>): (r: Paths)
    ensures |r| <= |es|
  {
    if es == [] then []
    else
      var paths := BuildPaths(es[..|es| - 1], settings);
      var e := es[|es| - 1];
      if Included(settings, e.route) then
        Put(paths, e.route,
            PutOperations(Get(paths, e.route).GetOr([]), e.route, e.methods,
                          SummaryOf(settings, e.route), DescriptionOf(settings, e.route)))
      else paths
  }

  /**
    With no saved settings (`get_option` returns `false`, so every `isset`
    fails) no route is included and `paths` stays empty.
   */
  lemma {:induction false} NothingSaved(es: seq<Endpoint>)
    ensures BuildPaths(es, []) == []
  {
    if es != [] {
      NothingSaved(es[..|es| - 1]);
    }
  }

  /** The routes of the included endpoints, in order. */
  function IncludedRoutes(es: seq<Endpoint>, settings: Assoc<string, Setting>): seq<string> {
    if es == [] then []
    else
      var e := es[|es| - 1];
      IncludedRoutes(es[..|es| - 1], settings) + (if Included(settings, e.route) then [e.route] else [])
  }

  /** The keys of one path's operations are the lower-cased methods. */
  lemma {:induction false} PutOperationsKeys(route: string, methods: seq<string>, summary: string, description: string, k: string)
    ensures HasKey(PutOperations([], route, methods, summary, description), k) <==> LowersTo(methods, k)
  {
    if methods != [] {
      var ms := methods[..|methods| - 1];
      var key := Lower(methods[|methods| - 1]);
      var prev := PutOperations([], route, ms, summary, description);
      PutOperationsKeys(route, ms, summary, description, k);
      GetPut(prev, key, NewOperation(route, key, summary, description), k);
      LowersToSnoc(methods, k);
    }
  }

  /** Every operation of a path is the one built from the route and its own key. */
  lemma {:induction false} PutOperationsValue(route: string, methods: seq<string>, summary: string, description: string, k: string)
    requires HasKey(PutOperations([], route, methods, summary, description), k)
    ensures Get(PutOperations([], route, methods, summary, description), k) == Some(NewOperation(route, k, summary, description))
  {
    var ms := methods[..|methods| - 1];
    var key := Lower(methods[|methods| - 1]);
    var prev := PutOperations([], route, ms, summary, description);
    GetPut(prev, key, NewOperation(route, key, summary, description), k);
    if k != key {
      PutOperationsValue(route, ms, summary, description, k);
    }
  }

  /** Each lower-cased method is a key once, however many methods lower-case to it. */
  lemma {:induction false} PutOperationsDistinct(route: string, methods: seq<string>, summary: string, description: string)
    ensures Distinct(Keys(PutOperations([], route, methods, summary, description)))
  {
    if methods != [] {
      var ms := methods[..|methods| - 1];
      var key := Lower(methods[|methods| - 1]);
      PutOperationsDistinct(route, ms, summary, description);
      PutKeepsDistinct(PutOperations([], route, ms, summary, description), key, NewOperation(route, key, summary, description));
    }
  }

  /** A route is a key of `paths` iff some endpoint has it and the settings include it. */
  lemma {:induction false} BuildPathsKeys(es: seq<Endpoint>, settings: Assoc<string, Setting>, r: string)
    ensures HasKey(BuildPaths(es, settings), r) <==> HasRoute(es, r) && Included(settings, r)
  {
    if es != [] {
      var pre, e := es[..|es| - 1], es[|es| - 1];
      assert es == pre + [e];
      BuildPathsKeys(pre, settings, r);
      HasRouteSnoc(pre, e, r);
      var paths := BuildPaths(pre, settings);
      if Included(settings, e.route) {
        var ops := PutOperations(Get(paths, e.route).GetOr([]), e.route, e.methods,
                                 SummaryOf(settings, e.route), DescriptionOf(settings, e.route));
        GetPut(paths, e.route, ops, r);
      }
    }
  }

  /** With distinct routes, the keys of `paths` are the included routes in endpoint order. */
  lemma {:induction false} BuildPathsOrder(es: seq<Endpoint>, settings: Assoc<string, Setting>)
    requires DistinctRoutes(es)
    ensures Keys(BuildPaths(es, settings)) == IncludedRoutes(es, settings)
  {
    if es != [] {
      var pre, e := es[..|es| - 1], es[|es| - 1];
      assert DistinctRoutes(pre);
      BuildPathsOrder(pre, settings);
      if Included(settings, e.route) {
        BuildPathsKeys(pre, settings, e.route);
        assert !HasRoute(pre, e.route);
      }
    }
  }

  /**
    With distinct routes, an included endpoint's path holds exactly the
    operations of its own methods, written into an empty array.
   */
  lemma {:induction false} BuildPathsEntry(es: seq<Endpoint>, settings: Assoc<string, Setting>, i: nat)
    requires DistinctRoutes(es)
    requires i < |es| && Included(settings, es[i].route)
    ensures Get(BuildPaths(es, settings), es[i].route)
         == Some(PutOperations([], es[i].route, es[i].methods,
                               SummaryOf(settings, es[i].route), DescriptionOf(settings, es[i].route)))
  {
    var n := |es| - 1;
    var pre, e := es[..n], es[n];
    assert DistinctRoutes(pre);
    BuildPathsSnoc(es, settings, n);
    assert es[..n + 1] == es;
    var paths := BuildPaths(pre, settings);
    var ops := PutOperations(Get(paths, e.route).GetOr([]), e.route, e.methods,
                             SummaryOf(settings, e.route), DescriptionOf(settings, e.route));
    if i == n {
      BuildPathsKeys(pre, settings, e.route);
      assert !HasRoute(pre, e.route);
      assert Get(paths, e.route) == None;
      GetPut(paths, e.route, ops, e.route);
    } else {
      assert es[i] == pre[i];
      BuildPathsEntry(pre, settings, i);
      if Included(settings, e.route) {
        GetPut(paths, e.route, ops, es[i].route);
      }
    }
  }


  /**
    An operation of the generated paths: under each key that a method of an
    included endpoint lower-cases to, the operation carries the saved
    summary and description, a 200 response referring to the schema named
    after the route (slashes made underscores) and the key, and the shared
    error response; the key has no upper-case letter.
   */
  lemma GeneratedOperation(es: seq<Endpoint>, settings: Assoc<string, Setting>, i: nat, k: string)
    requires DistinctRoutes(es)
    requires i < |es| && Included(settings, es[i].route)
    requires LowersTo(es[i].methods, k)
    ensures HasKey(BuildPaths(es, settings), es[i].route)
    ensures var ops := Get(BuildPaths(es, settings), es[i].route).value;
      Get(ops, k).Some?
      && Get(ops, k).value.summary == SummaryOf(settings, es[i].route)
      && Get(ops, k).value.description == DescriptionOf(settings, es[i].route)
      && Get(ops, k).value.ok
         == Response("OK", "application/json", SchemaRefPrefix + ResponseSchemaName(es[i].route, k))
      && Get(ops, k).value.fallback
         == Response("An error occurred", "application/json", SchemaRefPrefix + ErrorSchemaName)
    ensures forall c :: 0 <= c < |k| ==> !IsUpper(k[c])
  {
    var route := es[i].route;
    var summary, description := SummaryOf(settings, route), DescriptionOf(settings, route);
    var ops := PutOperations([], route, es[i].methods, summary, description);
    BuildPathsEntry(es, settings, i);
    assert Get(BuildPaths(es, settings), route) == Some(ops);
    PutOperationsKeys(route, es[i].methods, summary, description, k);
    PutOperationsValue(route, es[i].methods, summary, description, k);
    assert Get(ops, k) == Some(NewOperation(route, k, summary, description));
    var m :| 0 <= m < |es[i].methods| && Lower(es[i].methods[m]) == k;
  }

  /** An included endpoint without methods still gets a path, with no operations. */
  lemma IncludedWithoutMethods(es: seq<Endpoint>, settings: Assoc<string, Setting>, i: nat)
    requires DistinctRoutes(es)
    requires i < |es| && Included(settings, es[i].route) && es[i].methods == []
    ensures Get(BuildPaths(es, settings), es[i].route) == Some([])
  {
    BuildPathsEntry(es, settings, i);
  }

  /** Methods that lower-case alike give one operation, stored once. */
  lemma MethodsCollapse(route: string, summary: string, description: string)
    ensures PutOperations([], route, ["GET", "get"], summary, description)
         == [("get", NewOperation(route, "get", summary, description))]
  {
    var op := NewOperation(route, "get", summary, description);
    assert Lower("GET") == "get";
    assert Lower("get") == "get";
    assert ["GET", "get"][..1] == ["GET"];
    assert ["GET"][..0] == [];
    assert PutOperations([], route, ["GET"], summary, description) == Put([], "get", op) == [("get", op)];
    assert Put([("get", op)], "get", op) == [("get", op)];
  }

  /** The only schema the document defines. */
  const Schemas: Assoc<string, Schema> := [(ErrorSchemaName, ErrorResponseSchema)]

  /**
    The schema a 200 response refers to is never among the defined
    schemas: every such reference is left dangling.
   */
  lemma ResponseSchemaUndefined(route: string, key: string)
    ensures !HasKey(Schemas, ResponseSchemaName(route, key))
  {
    var n := ResponseSchemaName(route, key);
    var p := |ReplaceSlashes(route)|;
    assert Keys(Schemas) == [ErrorSchemaName];
    if |n| == |ErrorSchemaName| {
      assert n[p] == '_' && p < 5;
      assert ErrorSchemaName[p] != '_';
    }
  }

  /**
    The inner loop of generation for one included route: make sure the
    route has an entry, then write one operation per method.
   */
  method WriteOperations(paths: Paths, route: string, methods: seq<string>, summary: string, description: string)
    returns (paths': Paths)
    ensures paths' == Put(paths, route, PutOperations(Get(paths, route).GetOr([]), route, methods, summary, description))
  {
    paths' := paths;
    if !HasKey(paths', route) {
      paths' := Put(paths', route, []);
    }
    ghost var start := paths';
    ghost var existing := Get(paths, route).GetOr([]);
    assert Get(start, route) == Some(existing);
    PutSame(start, route);
    for j := 0 to |methods|
      invariant paths' == Put(start, route, PutOperations(existing, route, methods[..j], summary, description))
    {
      var key := Lower(methods[j]);
      var op := NewOperation(route, key, summary, description);
      WriteOperationsStep(start, route, existing, methods, j, summary, description);
      paths' := Put(paths', route, Put(Get(paths', route).value, key, op));
    }
    assert methods[..|methods|] == methods;
    if !HasKey(paths, route) {
      PutPut(paths, route, [], PutOperations([], route, methods, summary, description));
    }
  }

  /** One method of the inner loop: rewriting the route's entry with one more operation. */
  lemma WriteOperationsStep(start: Paths, route: string, existing: Operations, methods: seq<string>, j: nat,
                            summary: string, description: string)
    requires j < |methods|
    ensures var ops := PutOperations(existing, route, methods[..j], summary, description);
      var key := Lower(methods[j]);
      Put(Put(start, route, ops), route, Put(ops, key, NewOperation(route, key, summary, description)))
      == Put(start, route, PutOperations(existing, route, methods[..j + 1], summary, description))
  {
    var ops := PutOperations(existing, route, methods[..j], summary, description);
    var key := Lower(methods[j]);
    assert methods[..j + 1][..j] == methods[..j];
    PutPut(start, route, ops, Put(ops, key, NewOperation(route, key, summary, description)));
  }

  /** One endpoint of the outer loop. */
  lemma BuildPathsSnoc(es: seq<Endpoint>, settings: Assoc<string, Setting>, i: nat)
    requires i < |es|
    ensures var paths := BuildPaths(es[..i], settings);
      BuildPaths(es[..i + 1], settings)
      == if Included(settings, es[i].route) then
           Put(paths, es[i].route,
               PutOperations(Get(paths, es[i].route).GetOr([]), es[i].route, es[i].methods,
                             SummaryOf(settings, es[i].route), DescriptionOf(settings, es[i].route)))
         else paths
  {
    assert es[..i + 1][..i] == es[..i];
  }

  /** `wp_openapi_generator_generate_oas`, up to the document that is then JSON-encoded. */
  method GenerateOas(table: RouteTable, settings: Assoc<string, Setting>, siteName: string, restUrl: string)
    returns (doc: Document)
    ensures doc.openapi == OpenApiVersion
    ensures doc.info == Info(siteName + " API", "Your API description goes here.", "1.0.0")
    ensures doc.servers == [Server(restUrl)]
    ensures doc.schemas == Schemas
    ensures doc.paths == BuildPaths(Discovered(table), settings)
    ensures forall r :: HasKey(doc.paths, r) <==> HasRoute(Discovered(table), r) && Included(settings, r)
    ensures Keys(doc.paths) == IncludedRoutes(Discovered(table), settings)
  {
    var endpoints := DiscoverEndpoints(table);
    var paths: Paths := [];
    for i := 0 to |endpoints|
      invariant paths == BuildPaths(endpoints[..i], settings)
    {
      var route := endpoints[i].route;
      BuildPathsSnoc(endpoints, settings, i);
      if Included(settings, route) {
        paths := WriteOperations(paths, route, endpoints[i].methods,
                                 SummaryOf(settings, route), DescriptionOf(settings, route));
      }
    }
    assert endpoints[..|endpoints|] == endpoints;
    forall r ensures HasKey(paths, r) <==> HasRoute(endpoints, r) && Included(settings, r) {
      BuildPathsKeys(endpoints, settings, r);
    }
    BuildPathsOrder(endpoints, settings);
    doc := Document(
      OpenApiVersion,
      Info(siteName + " API", "Your API description goes here.", "1.0.0"),
      [Server(restUrl)],
      paths,
      Schemas);
  }
}
