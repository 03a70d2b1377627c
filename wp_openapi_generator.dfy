/**
  The plugin file wp-openapi-generator.php: endpoint discovery that lists
  one record per handler plus two records per custom post type with a REST
  base, and the OpenAPI 3.1.0 document built from those records and the
  per-position summary and description options.

  The WordPress calls are inputs: the REST server's route table, the
  `rest_base` of each public custom post type, the saved options, the site
  name and the REST URL.
 */
module WpOpenApiGenerator {
  import opened PhpArray
  import opened PhpString

  // =====================================================================
  // The route table and endpoint discovery
  // =====================================================================

  /** One handler of a route: the keys of its `methods` array, in order. */
  datatype Handler = Handler(methodKeys: seq<string>)

  /** `rest_get_server()->get_routes()`: route pattern to its handlers. */
  type RouteTable = Assoc<string, seq<Handler>>

  /**
    A public, non-built-in post type: its `rest_base` when it is set, as
    the string that interpolation into a route produces.
   */
  datatype PostType = PostType(restBase: Option<string>)

  /** One discovered endpoint: its route and its methods joined by ", ". */
  datatype Endpoint = Endpoint(route: string, methods: string)

  /** The methods string of a handler: `implode(', ', array_keys($handler['methods']))`. */
  function MethodsOf(h: Handler): (r: string)
    ensures h.methodKeys == [] ==> r == ""
    ensures |h.methodKeys| == 1 ==> r == h.methodKeys[0]
  {
    Implode(h.methodKeys)
  }

  /** The records of one route, one per handler, in handler order. */
  function RouteEndpoints(route: string, handlers: seq<Handler>): (es: seq<Endpoint>)
    ensures |es| == |handlers|
    ensures forall j :: 0 <= j < |handlers| ==> es[j] == Endpoint(route, MethodsOf(handlers[j]))
  {
    if handlers == [] then []
    else RouteEndpoints(route, handlers[..|handlers| - 1]) + [Endpoint(route, MethodsOf(handlers[|handlers| - 1]))]
  }

  /** The records of the whole route table, in table order. */
  function TableEndpoints(table: RouteTable): seq<Endpoint> {
    if table == [] then []
    else
      var (route, handlers) := table[|table| - 1];
      TableEndpoints(table[..|table| - 1]) + RouteEndpoints(route, handlers)
  }

  /** The total number of handlers in the table. */
  function HandlerCount(table: RouteTable): nat {
    if table == [] then 0
    else HandlerCount(table[..|table| - 1]) + |table[|table| - 1].1|
  }

  const CollectionMethods: string := "GET, POST"

  const ItemMethods: string := "GET, PUT, DELETE"

  /** The collection route: `/wp/v2/` followed by the base. */
  function CollectionRoute(base: string): (r: string)
    ensures |r| == |base| + 7 && r[7..] == base
  {
    "/wp/v2/" + base
  }

  /** The item route extends the collection route of the same base. */
  function ItemRoute(base: string): (r: string)
    ensures |CollectionRoute(base)| < |r| && r[..|CollectionRoute(base)|] == CollectionRoute(base)
  {
    "/wp/v2/" + base + "/{id}"
  }

  /** The two records of one post type, or none when its `rest_base` is not set. */
  function PostTypeRecords(pt: PostType): (r: seq<Endpoint>)
    ensures |r| == if pt.restBase.Some? then 2 else 0
  {
    match pt.restBase
    case None => []
    case Some(b) => [Endpoint(CollectionRoute(b), CollectionMethods), Endpoint(ItemRoute(b), ItemMethods)]
  }

  /** The records of all post types, in order. */
  function PostTypeEndpoints(postTypes: seq<PostType>): (r: seq<Endpoint>)
    ensures |r| <= 2 * |postTypes|
  {
    if postTypes == [] then []
    else PostTypeEndpoints(postTypes[..|postTypes| - 1]) + PostTypeRecords(postTypes[|postTypes| - 1])
  }

  /** The number of post types whose `rest_base` is set. */
  function BaseCount(postTypes: seq<PostType>): nat {
    if postTypes == [] then 0
    else BaseCount(postTypes[..|postTypes| - 1]) + (if postTypes[|postTypes| - 1].restBase.Some? then 1 else 0)
  }

  /** What `wp_openapi_generator_discover_endpoints` returns. */
  function Discovered(table: RouteTable, postTypes: seq<PostType>): seq<Endpoint> {
    TableEndpoints(table) + PostTypeEndpoints(postTypes)
  }

  /** The table part has one record per handler. */
  lemma {:induction false} TableEndpointsLength(table: RouteTable)
    ensures |TableEndpoints(table)| == HandlerCount(table)
  {
    if table != [] {
      TableEndpointsLength(table[..|table| - 1]);
    }
  }

  /** The post-type part has two records per post type with a `rest_base`. */
  lemma {:induction false} PostTypeEndpointsLength(postTypes: seq<PostType>)
    ensures |PostTypeEndpoints(postTypes)| == 2 * BaseCount(postTypes)
  {
    if postTypes != [] {
      PostTypeEndpointsLength(postTypes[..|postTypes| - 1]);
    }
  }

  /** Discovery lists every handler and two records per post type with a `rest_base`, and nothing else. */
  lemma DiscoveredLength(table: RouteTable, postTypes: seq<PostType>)
    ensures |Discovered(table, postTypes)| == HandlerCount(table) + 2 * BaseCount(postTypes)
  {
    TableEndpointsLength(table);
    PostTypeEndpointsLength(postTypes);
  }

  /**
    Handler j of route i is listed at position HandlerCount(table[..i]) + j,
    with the route unchanged (dynamic or not) and its joined method keys:
    records follow table order and none is dropped or merged.
   */
  lemma {:induction false} TableEndpointsAt(table: RouteTable, i: nat, j: nat)
    requires i < |table| && j < |table[i].1|
    ensures HandlerCount(table[..i]) + j < |TableEndpoints(table)|
    ensures TableEndpoints(table)[HandlerCount(table[..i]) + j] == Endpoint(table[i].0, MethodsOf(table[i].1[j]))
  {
    var t := table[..|table| - 1];
    var (route, handlers) := table[|table| - 1];
    TableEndpointsLength(table);
    TableEndpointsLength(t);
    if i < |t| {
      assert t[..i] == table[..i];
      assert t[i] == table[i];
      TableEndpointsAt(t, i, j);
      TableEndpointsLength(table[..i]);
      HandlerCountPrefix(t, i);
    } else {
      assert table[..i] == t;
    }
  }

  /** A prefix of the table has no more handlers than the table. */
  lemma {:induction false} HandlerCountPrefix(table: RouteTable, i: nat)
    requires i < |table|
    ensures HandlerCount(table[..i]) + |table[i].1| <= HandlerCount(table)
  {
    if i < |table| - 1 {
      var t := table[..|table| - 1];
      assert t[..i] == table[..i];
      HandlerCountPrefix(t, i);
    } else {
      assert table[..|table| - 1] == table[..i];
    }
  }

  /** A post type with `rest_base` b contributes its collection and item records, at positions set by the earlier ones. */
  lemma {:induction false} PostTypeEndpointsAt(postTypes: seq<PostType>, k: nat)
    requires k < |postTypes| && postTypes[k].restBase.Some?
    ensures 2 * BaseCount(postTypes[..k]) + 1 < |PostTypeEndpoints(postTypes)|
    ensures PostTypeEndpoints(postTypes)[2 * BaseCount(postTypes[..k])]
         == Endpoint(CollectionRoute(postTypes[k].restBase.value), CollectionMethods)
    ensures PostTypeEndpoints(postTypes)[2 * BaseCount(postTypes[..k]) + 1]
         == Endpoint(ItemRoute(postTypes[k].restBase.value), ItemMethods)
  {
    var p := postTypes[..|postTypes| - 1];
    PostTypeEndpointsLength(p);
    if k < |p| {
      assert p[..k] == postTypes[..k];
      assert p[k] == postTypes[k];
      PostTypeEndpointsAt(p, k);
    } else {
      assert postTypes[..k] == p;
    }
  }

  lemma RouteEndpointsSnoc(route: string, handlers: seq<Handler>, j: nat)
    requires j < |handlers|
    ensures RouteEndpoints(route, handlers[..j + 1])
         == RouteEndpoints(route, handlers[..j]) + [Endpoint(route, MethodsOf(handlers[j]))]
  {
    assert handlers[..j + 1][..j] == handlers[..j];
  }

  lemma TableEndpointsSnoc(table: RouteTable, i: nat)
    requires i < |table|
    ensures TableEndpoints(table[..i + 1]) == TableEndpoints(table[..i]) + RouteEndpoints(table[i].0, table[i].1)
  {
    assert table[..i + 1][..i] == table[..i];
  }

  lemma PostTypeEndpointsSnoc(postTypes: seq<PostType>, k: nat)
    requires k < |postTypes|
    ensures PostTypeEndpoints(postTypes[..k + 1]) == PostTypeEndpoints(postTypes[..k]) + PostTypeRecords(postTypes[k])
  {
    assert postTypes[..k + 1][..k] == postTypes[..k];
  }

  /** One post type of the second loop of discovery. */
  lemma PostTypeLoopStep(fromTable: seq<Endpoint>, postTypes: seq<PostType>, k: nat)
    requires k < |postTypes|
    ensures fromTable + PostTypeEndpoints(postTypes[..k]) + PostTypeRecords(postTypes[k])
         == fromTable + PostTypeEndpoints(postTypes[..k + 1])
  {
    PostTypeEndpointsSnoc(postTypes, k);
  }

  /** `wp_openapi_generator_discover_endpoints`: every handler, then the post-type routes. */
  method DiscoverEndpoints(table: RouteTable, postTypes: seq<PostType>) returns (endpoints: seq<Endpoint>)
    ensures endpoints == Discovered(table, postTypes)
    ensures |endpoints| == HandlerCount(table) + 2 * BaseCount(postTypes)
  {
    endpoints := [];
    for i := 0 to |table|
      invariant endpoints == TableEndpoints(table[..i])
    {
      var (route, handlers) := table[i];
      ghost var done := endpoints;
      for j := 0 to |handlers|
        invariant endpoints == done + RouteEndpoints(route, handlers[..j])
      {
        var methods := MethodsOf(handlers[j]);
        RouteEndpointsSnoc(route, handlers, j);
        endpoints := endpoints + [Endpoint(route, methods)];
      }
      assert handlers[..|handlers|] == handlers;
      TableEndpointsSnoc(table, i);
    }
    assert table[..|table|] == table;
    ghost var fromTable := endpoints;
    for k := 0 to |postTypes|
      invariant endpoints == fromTable + PostTypeEndpoints(postTypes[..k])
    {
      ghost var before := endpoints;
      if postTypes[k].restBase.Some? {
        var restBase := postTypes[k].restBase.value;
        endpoints := endpoints + [Endpoint(CollectionRoute(restBase), CollectionMethods)];
        endpoints := endpoints + [Endpoint(ItemRoute(restBase), ItemMethods)];
      }
      assert endpoints == before + PostTypeRecords(postTypes[k]);
      PostTypeLoopStep(fromTable, postTypes, k);
    }
    assert postTypes[..|postTypes|] == postTypes;
    DiscoveredLength(table, postTypes);
  }

  // =====================================================================
  // The OpenAPI 3.1.0 document
  // =====================================================================

  datatype Response = Response(description: string)

  /**
    One operation. `summary` and `description` are the options read for the
    endpoint's position; None stands for the `false` that get_option returns
    when the option was never saved.
   */
  datatype Operation = Operation(
    summary: Option<string>,
    description: Option<string>,
    parameters: seq<string>,
    responses: Assoc<string, Response>)

  datatype Info = Info(title: string, version: string)

  datatype Server = Server(url: string)

  /** Lower-cased method to operation, for one path. */
  type Operations = Assoc<string, Operation>

  /** Route to its operations: the Paths Object. */
  type Paths = Assoc<string, Operations>

  datatype Document = Document(openapi: string, info: Info, servers: seq<Server>, paths: Paths)

  const OpenApiVersion: string := "3.1.0"

  /** The only response of every operation. */
  const GenericResponses: Assoc<string, Response> := [("default", Response("A generic response"))]

  /**
    The options `wp_openapi_generator_endpoints[i][summary]` (or
    `[description]`) that generation reads: saved values by endpoint
    position i. The plugin itself never writes options under these names.
   */
  type PositionOptions = map<nat, string>

  /** `get_option(...)` for position i: the saved value, or None for `false`. */
  function OptionAt(options: PositionOptions, i: nat): (r: Option<string>)
    ensures r.Some? <==> i in options
    ensures r.Some? ==> r.value == options[i]
  {
    if i in options then Some(options[i]) else None
  }

  function NewOperation(summary: Option<string>, description: Option<string>): (r: Operation)
    ensures r.summary == summary && r.description == description
    ensures r.parameters == [] && Keys(r.responses) == ["default"]
  {
    Operation(summary, description, [], GenericResponses)
  }

  /** The inner loop: the same operation written under `strtolower` of each method, in order. */
  function PutOperations(ops: Operations, methods: seq<string>, op: Operation): (r: Operations)
    ensures methods == [] ==> r == ops
    ensures |r| <= |ops| + |methods|
  {
    if methods == [] then ops
    else Put(PutOperations(ops, methods[..|methods| - 1], op), Lower(methods[|methods| - 1]), op)
  }

  /** The outer loop over the endpoints, position i reading the options of position i. */
  function BuildPaths(es: seq<Endpoint>, summaries: PositionOptions, descriptions: PositionOptions): (r: Paths)
    ensures |r| <= |es|
  {
    if es == [] then []
    else
      var i := |es| - 1;
      var paths := BuildPaths(es[..i], summaries, descriptions);
      var e := es[i];
      Put(paths, e.route,
          PutOperations(Get(paths, e.route).GetOr([]), Explode(e.methods),
                        NewOperation(OptionAt(summaries, i), OptionAt(descriptions, i))))
  }

  predicate HasRoute(es: seq<Endpoint>, route: string) {
    exists i | 0 <= i < |es| :: es[i].route == route
  }

  /** Endpoint i writes the operation under key k of `route`. */
  predicate Writes(es: seq<Endpoint>, i: nat, route: string, k: string)
    requires i < |es|
  {
    es[i].route == route && LowersTo(Explode(es[i].methods), k)
  }

  /** The last endpoint that writes key k of `route`, or -1 when none does. */
  function LastWriter(es: seq<Endpoint>, route: string, k: string): (w: int)
    ensures -1 <= w < |es|
    ensures w >= 0 ==> Writes(es, w, route, k)
    ensures forall j :: w < j < |es| ==> !Writes(es, j, route, k)
  {
    if es == [] then -1
    else if Writes(es, |es| - 1, route, k) then |es| - 1
    else
      var w := LastWriter(es[..|es| - 1], route, k);
      assert forall j :: 0 <= j < |es| - 1 ==> (Writes(es, j, route, k) <==> Writes(es[..|es| - 1], j, route, k));
      w
  }

  /** The routes in order of first appearance, each once. */
  function RoutesOnce(es: seq<Endpoint>): seq<string> {
    if es == [] then []
    else
      var rs := RoutesOnce(es[..|es| - 1]);
      if es[|es| - 1].route in rs then rs else rs + [es[|es| - 1].route]
  }

  /** Writing one endpoint's methods sets exactly the keys its methods lower-case to. */
  lemma {:induction false} PutOperationsGet(ops: Operations, methods: seq<string>, op: Operation, k: string)
    ensures Get(PutOperations(ops, methods, op), k) == if LowersTo(methods, k) then Some(op) else Get(ops, k)
  {
    if methods != [] {
      var ms := methods[..|methods| - 1];
      PutOperationsGet(ops, ms, op, k);
      GetPut(PutOperations(ops, ms, op), Lower(methods[|methods| - 1]), op, k);
      LowersToSnoc(methods, k);
    }
  }

  lemma HasRouteSnoc(es: seq<Endpoint>, r: string)
    requires es != []
    ensures HasRoute(es, r) <==> HasRoute(es[..|es| - 1], r) || es[|es| - 1].route == r
  {
    var pre := es[..|es| - 1];
    if HasRoute(es, r) {
      var q :| 0 <= q < |es| && es[q].route == r;
      if q < |pre| { assert pre[q].route == r; }
    }
    if HasRoute(pre, r) {
      var q :| 0 <= q < |pre| && pre[q].route == r;
      assert es[q].route == r;
    }
  }

  /** Every discovered route is a key of `paths`, and nothing else is: there is no include check. */
  lemma {:induction false} BuildPathsKeys(es: seq<Endpoint>, summaries: PositionOptions, descriptions: PositionOptions, r: string)
    ensures HasKey(BuildPaths(es, summaries, descriptions), r) <==> HasRoute(es, r)
  {
    if es != [] {
      var i := |es| - 1;
      var paths := BuildPaths(es[..i], summaries, descriptions);
      BuildPathsKeys(es[..i], summaries, descriptions, r);
      HasRouteSnoc(es, r);
      var ops := PutOperations(Get(paths, es[i].route).GetOr([]), Explode(es[i].methods),
                               NewOperation(OptionAt(summaries, i), OptionAt(descriptions, i)));
      GetPut(paths, es[i].route, ops, r);
    }
  }

  /** Endpoints sharing a route merge into one entry: the keys are the routes once each, by first appearance. */
  lemma {:induction false} BuildPathsOrder(es: seq<Endpoint>, summaries: PositionOptions, descriptions: PositionOptions)
    ensures Keys(BuildPaths(es, summaries, descriptions)) == RoutesOnce(es)
  {
    if es != [] {
      var i := |es| - 1;
      BuildPathsOrder(es[..i], summaries, descriptions);
    }
  }

  /** The keys of `paths`: each discovered route once, by first appearance. */
  lemma BuildPathsRoutes(es: seq<Endpoint>, summaries: PositionOptions, descriptions: PositionOptions)
    ensures forall r :: HasKey(BuildPaths(es, summaries, descriptions), r) <==> HasRoute(es, r)
    ensures Keys(BuildPaths(es, summaries, descriptions)) == RoutesOnce(es)
  {
    forall r ensures HasKey(BuildPaths(es, summaries, descriptions), r) <==> HasRoute(es, r) {
      BuildPathsKeys(es, summaries, descriptions, r);
    }
    BuildPathsOrder(es, summaries, descriptions);
  }

  /** The routes listed once each are distinct. */
  lemma {:induction false} RoutesOnceDistinct(es: seq<Endpoint>)
    ensures Distinct(RoutesOnce(es))
  {
    if es != [] {
      RoutesOnceDistinct(es[..|es| - 1]);
    }
  }

  /**
    Under a discovered route, key k holds an operation iff some endpoint
    with that route has a method lower-casing to k, and the operation is
    the one the last such endpoint wrote, with the options of that
    endpoint's position: later endpoints overwrite earlier ones.
   */
  lemma {:induction false} BuildPathsOperation(es: seq<Endpoint>, summaries: PositionOptions, descriptions: PositionOptions,
                                               r: string, k: string)
    requires HasRoute(es, r)
    ensures HasKey(BuildPaths(es, summaries, descriptions), r)
    ensures var w := LastWriter(es, r, k);
      Get(Get(BuildPaths(es, summaries, descriptions), r).value, k)
      == if w < 0 then None else Some(NewOperation(OptionAt(summaries, w), OptionAt(descriptions, w)))
  {
    BuildPathsKeys(es, summaries, descriptions, r);
    var i := |es| - 1;
    var pre := es[..i];
    var paths := BuildPaths(pre, summaries, descriptions);
    var op := NewOperation(OptionAt(summaries, i), OptionAt(descriptions, i));
    var earlier := Get(paths, es[i].route).GetOr([]);
    var ops := PutOperations(earlier, Explode(es[i].methods), op);
    GetPut(paths, es[i].route, ops, r);
    HasRouteSnoc(es, r);
    if es[i].route == r {
      PutOperationsGet(earlier, Explode(es[i].methods), op, k);
      if !Writes(es, i, r, k) {
        if HasRoute(pre, r) {
          BuildPathsOperation(pre, summaries, descriptions, r, k);
        } else {
          BuildPathsKeys(pre, summaries, descriptions, r);
        }
      }
    } else {
      BuildPathsOperation(pre, summaries, descriptions, r, k);
    }
  }

  /** Every operation in `paths` has no parameters and only the generic `default` response. */
  lemma GeneratedOperationShape(es: seq<Endpoint>, summaries: PositionOptions, descriptions: PositionOptions,
                                r: string, k: string)
    requires HasKey(BuildPaths(es, summaries, descriptions), r)
    requires HasKey(Get(BuildPaths(es, summaries, descriptions), r).value, k)
    ensures var op := Get(Get(BuildPaths(es, summaries, descriptions), r).value, k).value;
      op.parameters == [] && op.responses == [("default", Response("A generic response"))]
  {
    BuildPathsKeys(es, summaries, descriptions, r);
    BuildPathsOperation(es, summaries, descriptions, r, k);
  }

  /**
    The settings form saves one array option, `wp_openapi_generator_endpoints`,
    so no option is ever stored under a per-position name: with no saved
    values, every operation has neither summary nor description.
   */
  lemma OptionsNeverSaved(es: seq<Endpoint>, r: string, k: string)
    requires HasKey(BuildPaths(es, map[], map[]), r)
    requires HasKey(Get(BuildPaths(es, map[], map[]), r).value, k)
    ensures var op := Get(Get(BuildPaths(es, map[], map[]), r).value, k).value;
      op.summary == None && op.description == None
  {
    BuildPathsKeys(es, map[], map[], r);
    BuildPathsOperation(es, map[], map[], r, k);
  }

  /**
    A handler's method keys are recovered by the split exactly when there is
    at least one and none contains ", "; then its endpoint writes exactly the
    keys its methods lower-case to.
   */
  lemma HandlerMethodsRecovered(h: Handler, k: string)
    ensures Explode(MethodsOf(h)) == h.methodKeys
        <==> |h.methodKeys| >= 1 && forall m :: 0 <= m < |h.methodKeys| ==> NoSeparator(h.methodKeys[m])
    ensures |h.methodKeys| >= 1 && (forall m :: 0 <= m < |h.methodKeys| ==> NoSeparator(h.methodKeys[m]))
        ==> (LowersTo(Explode(MethodsOf(h)), k) <==> LowersTo(h.methodKeys, k))
  {
    ExplodeImplodeIff(h.methodKeys);
  }

  /**
    A handler with an empty methods map gives the methods string "", which
    splits into one empty method: its route gets one operation, under the
    empty key.
   */
  lemma EmptyMethodsQuirk(route: string, summaries: PositionOptions, descriptions: PositionOptions)
    ensures MethodsOf(Handler([])) == ""
    ensures BuildPaths([Endpoint(route, MethodsOf(Handler([])))], summaries, descriptions)
         == [(route, [("", NewOperation(OptionAt(summaries, 0), OptionAt(descriptions, 0)))])]
  {
    var es := [Endpoint(route, "")];
    var op := NewOperation(OptionAt(summaries, 0), OptionAt(descriptions, 0));
    assert es[..0] == [];
    assert BuildPaths(es[..0], summaries, descriptions) == [];
    assert Explode("") == [""];
    assert Lower("") == "";
    assert PutOperations([], [""], op) == [("", op)];
  }

  /** The methods of a post type's collection route split into its two verbs. */
  lemma CollectionMethodsSplit()
    ensures Explode(CollectionMethods) == ["GET", "POST"]
  {
    ExplodeSingle("POST");
    ExplodeCons("GET", "POST");
    assert CollectionMethods == "GET" + ", " + "POST";
  }

  /** The methods of a post type's item route split into its three verbs. */
  lemma ItemMethodsSplit()
    ensures Explode(ItemMethods) == ["GET", "PUT", "DELETE"]
  {
    var verbs := ["GET", "PUT", "DELETE"];
    assert Implode(verbs) == ItemMethods by {
      assert Implode(verbs[2..]) == "DELETE";
      assert Implode(verbs[1..]) == "PUT" + ", " + "DELETE";
    }
    assert forall m :: 0 <= m < |verbs| ==> NoSeparator(verbs[m]);
    ExplodeImplode(verbs);
  }

  lemma BuildPathsSnoc(es: seq<Endpoint>, summaries: PositionOptions, descriptions: PositionOptions, i: nat)
    requires i < |es|
    ensures BuildPaths(es[..i + 1], summaries, descriptions)
         == Put(BuildPaths(es[..i], summaries, descriptions), es[i].route,
                PutOperations(Get(BuildPaths(es[..i], summaries, descriptions), es[i].route).GetOr([]),
                              Explode(es[i].methods),
                              NewOperation(OptionAt(summaries, i), OptionAt(descriptions, i))))
  {
    assert es[..i + 1][..i] == es[..i];
  }

  /** The inner loop for one endpoint: make sure the route has an entry, then write one operation per method. */
  method WriteOperations(paths: Paths, route: string, methods: seq<string>, op: Operation) returns (paths': Paths)
    ensures paths' == Put(paths, route, PutOperations(Get(paths, route).GetOr([]), methods, op))
  {
    paths' := paths;
    if !HasKey(paths', route) {
      paths' := Put(paths', route, []);
    }
    ghost var start := paths';
    ghost var existing := Get(paths, route).GetOr([]);
    assert Get(start, route) == Some(existing);
    PutSame(start, route);
    for j := 0 to |methods|
      invariant paths' == Put(start, route, PutOperations(existing, methods[..j], op))
    {
      WriteOperationsStep(start, route, existing, methods, j, op);
      paths' := Put(paths', route, Put(Get(paths', route).value, Lower(methods[j]), op));
    }
    assert methods[..|methods|] == methods;
    if !HasKey(paths, route) {
      PutPut(paths, route, [], PutOperations([], methods, op));
    }
  }

  /** One method of the inner loop: rewriting the route's entry with one more operation. */
  lemma WriteOperationsStep(start: Paths, route: string, existing: Operations, methods: seq<string>, j: nat, op: Operation)
    requires j < |methods|
    ensures var ops := PutOperations(existing, methods[..j], op);
      Put(Put(start, route, ops), route, Put(ops, Lower(methods[j]), op))
      == Put(start, route, PutOperations(existing, methods[..j + 1], op))
  {
    var ops := PutOperations(existing, methods[..j], op);
    assert methods[..j + 1][..j] == methods[..j];
    PutPut(start, route, ops, Put(ops, Lower(methods[j]), op));
  }

  /** `wp_openapi_generator_generate_oas`, up to the document that is then JSON-encoded. */
  method GenerateOas(table: RouteTable, postTypes: seq<PostType>, summaries: PositionOptions, descriptions: PositionOptions,
                     siteName: string, restUrl: string)
    returns (doc: Document)
    ensures doc.openapi == OpenApiVersion
    ensures doc.info == Info(siteName + " API", "1.0.0")
    ensures doc.servers == [Server(restUrl)]
    ensures doc.paths == BuildPaths(Discovered(table, postTypes), summaries, descriptions)
    ensures forall r :: HasKey(doc.paths, r) <==> HasRoute(Discovered(table, postTypes), r)
    ensures Keys(doc.paths) == RoutesOnce(Discovered(table, postTypes))
  {
    var endpoints := DiscoverEndpoints(table, postTypes);
    var paths: Paths := [];
    for index := 0 to |endpoints|
      invariant paths == BuildPaths(endpoints[..index], summaries, descriptions)
    {
      var route := endpoints[index].route;
      var methods := Explode(endpoints[index].methods);
      var summary := OptionAt(summaries, index);
      var description := OptionAt(descriptions, index);
      BuildPathsSnoc(endpoints, summaries, descriptions, index);
      paths := WriteOperations(paths, route, methods, NewOperation(summary, description));
    }
    assert endpoints[..|endpoints|] == endpoints;
    BuildPathsRoutes(endpoints, summaries, descriptions);
    doc := Document(OpenApiVersion, Info(siteName + " API", "1.0.0"), [Server(restUrl)], paths);
  }
}
