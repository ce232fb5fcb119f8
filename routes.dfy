/**
 The route-table builder of `lib/builders/routes.js`: for every path of the
 API document and every key of its path object that is an HTTP verb, find the
 handler in the handler tree (`pathfinder`/`matchpath`), fall back to the
 `x-handler` references, and emit a route when a handler resolves.

 The inputs are the already-resolved values of the builder's promises: the
 API document, the handler tree (`files`) and the parameter validators.
 */
module Routes {
  import opened Wrappers
  import opened Strings
  import opened Js
  import opened Externals
  import opened Utils
  import opened Security
  import opened Folds

  // ---------------------------------------------------------------------
  // Path segments

  /** `path.split('/').filter(el => el)`. */
  function Segments(path: string): seq<string> {
    NonEmpty(Split(path, '/'))
  }

  /** Every segment is a non-empty piece of the path without a slash. */
  lemma SegmentsShape(path: string)
    ensures forall i :: 0 <= i < |Segments(path)| ==> Segments(path)[i] != "" && '/' !in Segments(path)[i]
  {
    SplitPiecesFree(path, '/');
    NonEmptyFrom(Split(path, '/'));
  }

  /** A leading slash adds no segment. */
  lemma LeadingSlash(path: string)
    ensures Segments("/" + path) == Segments(path)
  {
    assert ("/" + path)[1..] == path;
  }

  /** A trailing slash adds no segment. */
  lemma TrailingSlash(path: string)
    ensures Segments(path + "/") == Segments(path)
  {
    SplitTrailing(path, '/');
    NonEmptyAppend(Split(path, '/'), [""]);
  }

  /** A doubled slash counts as one. */
  lemma DoubledSlash(a: string, b: string)
    ensures Segments(a + "//" + b) == Segments(a + "/" + b)
  {
    assert a + "//" + b == a + ['/'] + ("/" + b);
    assert a + "/" + b == a + ['/'] + b;
    SplitAround(a, "/" + b, '/');
    SplitAround(a, b, '/');
    assert ("/" + b)[1..] == b;
    NonEmptyAppend(Split(a, '/'), Split("/" + b, '/'));
    NonEmptyAppend(Split(a, '/'), Split(b, '/'));
  }

  /** The segments of `/s0/s1/…/sn` are s0 … sn when each is non-empty and slash-free. */
  lemma SegmentsOfTemplate(segs: seq<string>)
    requires |segs| >= 1
    requires forall i :: 0 <= i < |segs| ==> segs[i] != "" && '/' !in segs[i]
    ensures Segments("/" + Join(segs, '/')) == segs
  {
    LeadingSlash(Join(segs, '/'));
    SplitJoin(segs, '/');
    NonEmptyKeeps(segs);
  }

  // ---------------------------------------------------------------------
  // Handler-tree lookup

  /** The `pathnames` array that `matchpath` shifts while it recurses. */
  class PathNames {
    var items: seq<string>

    constructor (items: seq<string>)
      ensures this.items == items
    {
      this.items := items;
    }

    /** `pathnames.shift()`; the callers ignore the removed element. */
    method Shift()
      modifies this
      ensures items == if old(items) == [] then [] else old(items)[1..]
    {
      if items != [] {
        items := items[1..];
      }
    }

    /** `pathnames[0]` used as a property key: `"undefined"` when the array is empty. */
    function Head(): string
      reads this
    {
      if items == [] then "undefined" else items[0]
    }
  }

  /** The last element of `pathnames` as a property key. */
  function LastKey(s: seq<string>): string {
    if s == [] then "undefined" else s[|s| - 1]
  }

  /** The descent from `node` along `keys`, None as soon as a node on the way is falsy. */
  function Walk(node: Value, keys: seq<string>): Option<Value>
    decreases |keys|
  {
    if !Truthy(node) then None
    else if keys == [] then Some(node)
    else Walk(Get(node, keys[0]), keys[1..])
  }

  /** `handlers[last] ? handlers[last] : handlers[method]`. */
  function Leaf(node: Value, last: string, verb: string): Value {
    if Truthy(Get(node, last)) then Get(node, last) else Get(node, verb)
  }

  /**
   What `matchpath(method, pathnames, handlers)` returns: `handlers` is the
   subtree for the first segment; descend along the remaining ones, and at
   the node reached look up the last segment, else the method.
   */
  function Matched(verb: string, pathnames: seq<string>, handlers: Value): Value {
    match Walk(handlers, if pathnames == [] then [] else pathnames[1..])
    case None => Null
    case Some(node) => Leaf(node, LastKey(pathnames), verb)
  }

  /**
   What is left of `pathnames` when `matchpath` returns: one element is
   shifted off per level descended, so what is left is a suffix.
   */
  function Remaining(pathnames: seq<string>, handlers: Value): seq<string>
    decreases |pathnames|
  {
    if !Truthy(handlers) || |pathnames| <= 1 then pathnames
    else Remaining(pathnames[1..], Get(handlers, pathnames[1]))
  }

  /** What is left is a suffix of `pathnames`, and never longer. */
  lemma {:induction false} RemainingSuffix(pathnames: seq<string>, handlers: Value)
    ensures var r := Remaining(pathnames, handlers);
            |r| <= |pathnames| && r == pathnames[|pathnames| - |r|..]
    decreases |pathnames|
  {
    if Truthy(handlers) && |pathnames| > 1 {
      RemainingSuffix(pathnames[1..], Get(handlers, pathnames[1]));
      var r := Remaining(pathnames, handlers);
      assert pathnames[1..][|pathnames| - 1 - |r|..] == pathnames[|pathnames| - |r|..];
    }
  }

  /** When the descent reaches a node, only the last segment is left in `pathnames`. */
  lemma {:induction false} RemainingLast(pathnames: seq<string>, handlers: Value)
    requires pathnames != [] && Walk(handlers, pathnames[1..]).Some?
    ensures Remaining(pathnames, handlers) == [pathnames[|pathnames| - 1]]
    decreases |pathnames|
  {
    if |pathnames| > 1 {
      assert pathnames[1..][1..] == pathnames[2..];
      RemainingLast(pathnames[1..], Get(handlers, pathnames[1]));
    }
  }

  /** `matchpath(method, pathnames, handlers)`, shifting `pathnames` in place. */
  method Matchpath(verb: string, pathnames: PathNames, handlers: Value) returns (r: Value)
    modifies pathnames
    ensures r == Matched(verb, old(pathnames.items), handlers)
    ensures pathnames.items == Remaining(old(pathnames.items), handlers)
    decreases |pathnames.items|
  {
    if !Truthy(handlers) {
      return Null;
    }
    if |pathnames.items| > 1 {
      ghost var before := pathnames.items;
      ghost var next := Get(handlers, before[1]);
      pathnames.Shift();
      assert pathnames.items == before[1..] && pathnames.Head() == before[1];
      assert before[1..][1..] == before[2..];
      assert Remaining(before, handlers) == Remaining(before[1..], next);
      assert Matched(verb, before, handlers) == Matched(verb, before[1..], next);
      r := Matchpath(verb, pathnames, Get(handlers, pathnames.Head()));
      return;
    }
    var last := pathnames.Head();
    if Truthy(Get(handlers, last)) {
      return Get(handlers, last);
    }
    return Get(handlers, verb);
  }

  /** What `pathfinder(path, operation, files)` returns. */
  function TreeHandler(path: string, operation: string, files: Value): Value {
    var segs := Segments(path);
    if !Truthy(files) then Undef
    else if segs != [] then Matched(operation, segs, Get(files, segs[0]))
    else Get(files, operation)
  }

  /** `pathfinder(path, operation, files)`. */
  method Pathfinder(path: string, operation: string, files: Value) returns (r: Value)
    ensures r == TreeHandler(path, operation, files)
  {
    var segs := Segments(path);
    var pathnames := new PathNames(segs);
    if !Truthy(files) {
      return Undef;
    }
    var first := if |segs| > 0 then Str(segs[0]) else Undef;
    if Truthy(first) {
      r := Matchpath(operation, pathnames, Get(files, segs[0]));
    } else {
      r := Get(files, operation);
    }
  }

  /** `files[s0][s1]…[sk]`, with no check on the way. */
  function Descend(node: Value, keys: seq<string>): Value
    decreases |keys|
  {
    if keys == [] then node else Descend(Get(node, keys[0]), keys[1..])
  }

  /** Every node from `node` down to `Descend(node, keys)` is truthy. */
  ghost predicate Reachable(node: Value, keys: seq<string>) {
    forall k :: 0 <= k <= |keys| ==> Truthy(Descend(node, keys[..k]))
  }

  lemma {:induction false} WalkDescends(node: Value, keys: seq<string>)
    ensures Walk(node, keys) == if Reachable(node, keys) then Some(Descend(node, keys)) else None
    decreases |keys|
  {
    assert keys[..0] == [];
    if Truthy(node) && keys != [] {
      var child := Get(node, keys[0]);
      WalkDescends(child, keys[1..]);
      forall k | 1 <= k <= |keys|
        ensures Descend(node, keys[..k]) == Descend(child, keys[1..][..k - 1])
      {
        assert keys[..k][1..] == keys[1..][..k - 1];
      }
      if Reachable(child, keys[1..]) {
        forall k | 0 <= k <= |keys| ensures Truthy(Descend(node, keys[..k])) {
          if k > 0 {
            assert Truthy(Descend(child, keys[1..][..k - 1]));
          }
        }
      } else {
        var k :| 0 <= k <= |keys[1..]| && !Truthy(Descend(child, keys[1..][..k]));
        assert !Truthy(Descend(node, keys[..k + 1]));
      }
    }
  }

  /** No handler tree: no handler. */
  lemma NoTree(path: string, operation: string, files: Value)
    requires !Truthy(files)
    ensures !Truthy(TreeHandler(path, operation, files))
  {
  }

  /** A path without segments resolves to `files[operation]`. */
  lemma RootPath(path: string, operation: string, files: Value)
    requires Truthy(files) && Segments(path) == []
    ensures TreeHandler(path, operation, files) == Get(files, operation)
  {
  }

  /**
   With segments s0 … sn and `node = files[s0]…[sn]`: when every node on the
   way is truthy the handler is `node[sn]` if that is truthy, else
   `node[operation]`; otherwise it is `null`.
   */
  lemma TreeDescent(path: string, operation: string, files: Value)
    requires Truthy(files) && Segments(path) != []
    ensures var segs := Segments(path);
            TreeHandler(path, operation, files) ==
              if Reachable(files, segs)
              then Leaf(Descend(files, segs), segs[|segs| - 1], operation)
              else Null
  {
    var segs := Segments(path);
    WalkDescends(files, segs);
  }

  // ---------------------------------------------------------------------
  // The route table

  /** The resolved inputs of the builder and its options. */
  datatype Context = Context(api: Value, files: Value, validators: Value, options: Options, host: Host)

  /** A route record. */
  datatype Route = Route(
    path: string,
    name: Value,
    description: Value,
    verb: string,
    security: Option<SecurityObject>,
    validators: Value,
    handler: Value,
    consumes: Value,
    produces: Value)

  function PathObj(ctx: Context, path: string): Value {
    Get(Get(ctx.api, "paths"), path)
  }

  /**
   The handler of an operation: the tree's, else the operation's `x-handler`,
   else the path's `x-handler`, resolved against `basedir`. Reading
   `x-handler` of an `undefined` or `null` operation object throws.
   */
  function ChosenHandler(ctx: Context, path: string, operation: string): Result<Value> {
    var tree := TreeHandler(path, operation, ctx.files);
    var pathObj := PathObj(ctx, path);
    var operationObj := Get(pathObj, operation);
    if Truthy(tree) then Ok(tree)
    else if operationObj.Undef? || operationObj.Null? then Err(TypeError)
    else
      var reference := Or(Get(operationObj, "x-handler"), Get(pathObj, "x-handler"));
      if Truthy(reference) then Ok(ctx.host.resolve(ctx.options.basedir, reference, Str(operation)))
      else Ok(reference)
  }

  /** The `security` requirement in force: the first truthy of operation, path and document security. */
  function RequiredSecurity(ctx: Context, pathObj: Value, security: Value): Value {
    Or(Or(security, Get(pathObj, "security")), Get(ctx.api, "security"))
  }

  /**
   The route for one key of a path object: none for a non-verb key or when no
   handler resolves, else the route record for the handler.
   */
  function RouteAt(ctx: Context, path: string, operation: string): (r: Result<Option<Route>>)
    ensures r.Ok? && r.value.Some? ==> r.value.value.path == path && r.value.value.verb == operation
  {
    if operation !in Verbs then Ok(None)
    else
      var handler :- ChosenHandler(ctx, path, operation);
      if !Truthy(handler) then Ok(None)
      else
        var route :- RouteRecord(ctx, path, operation, handler);
        Ok(Some(route))
  }

  /**
   The route record for a resolved handler. Reading the fields of an
   `undefined` or `null` operation object throws, and so does binding the
   security requirement in force.
   */
  function RouteRecord(ctx: Context, path: string, operation: string, handler: Value): (r: Result<Route>)
    ensures r.Ok? ==> r.value.path == path && r.value.verb == operation && r.value.handler == handler
  {
    var pathObj := PathObj(ctx, path);
    var operationObj := Get(pathObj, operation);
    if operationObj.Undef? || operationObj.Null? then Err(TypeError)
    else
      var security :- SecurityOf(RequiredSecurity(ctx, pathObj, Get(operationObj, "security")),
                                 Get(ctx.api, "securityDefinitions"), ctx.options, ctx.host);
      RouteFinish(ctx, path, operation, handler, security)
  }

  /**
   The record once its security object is bound: reading
   `validators[path][operation].parameters` through a missing level throws.
   */
  function RouteFinish(ctx: Context, path: string, operation: string, handler: Value,
                       security: Option<SecurityObject>): (r: Result<Route>)
    ensures r.Ok? ==> r.value.path == path && r.value.verb == operation && r.value.handler == handler
    ensures r.Ok? ==> r.value.security == security
  {
    var operationObj := Get(PathObj(ctx, path), operation);
    var byPath :- Prop(ctx.validators, path);
    var byOperation :- Prop(byPath, operation);
    var parameters :- Prop(byOperation, "parameters");
    Ok(Route(path, Get(operationObj, "operationId"), Get(operationObj, "description"), operation,
             security, parameters, handler,
             Or(Get(operationObj, "consumes"), Get(ctx.api, "consumes")),
             Or(Get(operationObj, "produces"), Get(ctx.api, "produces"))))
  }

  function OptionSeq<T>(o: Option<T>): seq<T> {
    match o
    case None => []
    case Some(x) => [x]
  }

  /** The routes one key of a path object contributes: none or one. */
  function KeyRoutes(ctx: Context, path: string, operation: string): (r: Result<seq<Route>>)
    ensures r.Ok? ==> |r.value| <= 1
  {
    var route :- RouteAt(ctx, path, operation);
    Ok(OptionSeq(route))
  }

  /** The callback `Object.keys(pathObj).forEach` runs for each key. */
  function OperationCallback(ctx: Context, path: string): string -> Result<seq<Route>> {
    operation => KeyRoutes(ctx, path, operation)
  }

  /** The routes of one path, over the keys `operations` of its path object, in key order. */
  function PathRoutes(ctx: Context, path: string, operations: seq<string>): Result<seq<Route>> {
    Concat(Contributions(OperationCallback(ctx, path), operations))
  }

  /** The routes of one path: `Object.keys(pathObj)` throws on `undefined` or `null`. */
  function RoutesOfPath(ctx: Context, path: string): Result<seq<Route>> {
    var operations :- ObjectKeys(PathObj(ctx, path));
    PathRoutes(ctx, path, operations)
  }

  /** The callback `Object.keys(api.paths).forEach` runs for each path. */
  function PathCallback(ctx: Context): string -> Result<seq<Route>> {
    path => RoutesOfPath(ctx, path)
  }

  /** The routes of the paths `keys`, in key order. */
  function AllRoutes(ctx: Context, keys: seq<string>): Result<seq<Route>> {
    Concat(Contributions(PathCallback(ctx), keys))
  }

  /** What `Buildroutes` resolves to (or rejects with). */
  function RoutesOf(ctx: Context): Result<seq<Route>> {
    var paths :- Prop(ctx.api, "paths");
    var keys :- ObjectKeys(paths);
    AllRoutes(ctx, keys)
  }

  /** The callback for one key of a path object. */
  method RouteForOperation(ctx: Context, path: string, pathObj: Value, operation: string)
    returns (r: Result<Option<Route>>)
    requires pathObj == PathObj(ctx, path)
    ensures r == RouteAt(ctx, path, operation)
  {
    if operation !in Verbs {
      return Ok(None);
    }
    var operationObj := Get(pathObj, operation);
    var handler := Pathfinder(path, operation, ctx.files);
    if !Truthy(handler) {
      if operationObj.Undef? || operationObj.Null? {
        // reading `x-handler` of a missing operation object throws
        return Err(TypeError);
      }
      handler := Or(Get(operationObj, "x-handler"), Get(pathObj, "x-handler"));
      if Truthy(handler) {
        handler := ctx.host.resolve(ctx.options.basedir, handler, Str(operation));
      }
    }
    if !Truthy(handler) {
      return Ok(None);
    }
    var route := BuildRecord(ctx, path, pathObj, operation, handler);
    if route.Err? {
      return Err(route.error);
    }
    return Ok(Some(route.value));
  }

  /** The route record the callback builds once a handler has resolved. */
  method BuildRecord(ctx: Context, path: string, pathObj: Value, operation: string, handler: Value)
    returns (r: Result<Route>)
    requires pathObj == PathObj(ctx, path)
    ensures r == RouteRecord(ctx, path, operation, handler)
  {
    var operationObj := Get(pathObj, operation);
    if operationObj.Undef? || operationObj.Null? {
      // reading `operationId` of a missing operation object throws
      return Err(TypeError);
    }
    var security := Buildsecurity(RequiredSecurity(ctx, pathObj, Get(operationObj, "security")),
                                  Get(ctx.api, "securityDefinitions"), ctx.options, ctx.host);
    if security.Err? {
      return Err(security.error);
    }
    r := FinishRecord(ctx, path, operation, handler, security.value);
  }

  /** The record's remaining fields, read from the validators, the operation object and the document. */
  method FinishRecord(ctx: Context, path: string, operation: string, handler: Value, security: Option<SecurityObject>)
    returns (r: Result<Route>)
    ensures r == RouteFinish(ctx, path, operation, handler, security)
  {
    var operationObj := Get(PathObj(ctx, path), operation);
    var byPath := Prop(ctx.validators, path);
    if byPath.Err? {
      return Err(byPath.error);
    }
    var byOperation := Prop(byPath.value, operation);
    if byOperation.Err? {
      return Err(byOperation.error);
    }
    var parameters := Prop(byOperation.value, "parameters");
    if parameters.Err? {
      return Err(parameters.error);
    }
    return Ok(Route(path, Get(operationObj, "operationId"), Get(operationObj, "description"), operation,
                    security, parameters.value, handler,
                    Or(Get(operationObj, "consumes"), Get(ctx.api, "consumes")),
                    Or(Get(operationObj, "produces"), Get(ctx.api, "produces"))));
  }

  /**
   The callback for one path, as statements: `Object.keys(pathObj).forEach`
   with `OperationCallback`, whose statements `RouteForOperation` carries out.
   */
  method RoutesForPath(ctx: Context, path: string) returns (r: Result<seq<Route>>)
    ensures r == RoutesOfPath(ctx, path)
  {
    var pathObj := Get(Get(ctx.api, "paths"), path);
    var keys := ObjectKeys(pathObj);
    if keys.Err? {
      return Err(keys.error);
    }
    r := ForEach(OperationCallback(ctx, path), keys.value);
  }

  /**
   `Buildroutes(api, options)` once its promises have resolved to `ctx`:
   `Object.keys(api.paths).forEach` with `PathCallback`, whose statements
   `RoutesForPath` carries out.
   */
  method Buildroutes(ctx: Context) returns (r: Result<seq<Route>>)
    ensures r == RoutesOf(ctx)
  {
    var paths := Prop(ctx.api, "paths");
    if paths.Err? {
      return Err(paths.error);
    }
    var keys := ObjectKeys(paths.value);
    if keys.Err? {
      return Err(keys.error);
    }
    r := ForEach(PathCallback(ctx), keys.value);
  }

  // ---------------------------------------------------------------------
  // Properties of the route table

  /** The keys of a path object. */
  function OperationsOf(ctx: Context, path: string): seq<string> {
    Keys(PathObj(ctx, path))
  }

  /**
   A route exists for a verb key exactly when a handler resolves; keys that
   are not HTTP verbs never yield one.
   */
  lemma RouteIffHandler(ctx: Context, path: string, operation: string)
    requires RouteAt(ctx, path, operation).Ok?
    ensures RouteAt(ctx, path, operation).value.Some? <==>
              operation in Verbs && ChosenHandler(ctx, path, operation).Ok? && Truthy(ChosenHandler(ctx, path, operation).value)
  {
    if operation in Verbs {
      var handler := ChosenHandler(ctx, path, operation);
      if handler.Ok? && Truthy(handler.value) {
        assert RouteAt(ctx, path, operation).value.Some?;
      }
    }
  }

  /** An emitted route is for a verb key, and carries the handler that resolved. */
  lemma RouteHandlerFields(ctx: Context, path: string, operation: string, r: Route)
    requires RouteAt(ctx, path, operation) == Ok(Some(r))
    ensures operation in Verbs
    ensures r.path == path && r.verb == operation
    ensures ChosenHandler(ctx, path, operation) == Ok(r.handler) && Truthy(r.handler)
  {
  }

  /** An emitted route is the record built for the handler that resolved. */
  lemma RouteRecordOf(ctx: Context, path: string, operation: string, r: Route)
    requires RouteAt(ctx, path, operation) == Ok(Some(r))
    ensures RouteRecord(ctx, path, operation, r.handler) == Ok(r)
  {
    RouteHandlerFields(ctx, path, operation, r);
  }

  /** A record carries the binder's result for the security requirement in force. */
  lemma RecordSecurityField(ctx: Context, path: string, operation: string, handler: Value, r: Route)
    requires RouteRecord(ctx, path, operation, handler) == Ok(r)
    ensures var pathObj := PathObj(ctx, path);
            SecurityOf(RequiredSecurity(ctx, pathObj, Get(Get(pathObj, operation), "security")),
                       Get(ctx.api, "securityDefinitions"), ctx.options, ctx.host) == Ok(r.security)
  {
  }

  /** The fields a record copies from the operation object, the document and the validators. */
  lemma FinishDocumentFields(ctx: Context, path: string, operation: string, handler: Value,
                             security: Option<SecurityObject>, r: Route)
    requires RouteFinish(ctx, path, operation, handler, security) == Ok(r)
    ensures var operationObj := Get(PathObj(ctx, path), operation);
            && r.name == Get(operationObj, "operationId")
            && r.description == Get(operationObj, "description")
            && Prop(ctx.validators, path).Ok? && Prop(Get(ctx.validators, path), operation).Ok?
            && r.validators == Get(Get(Get(ctx.validators, path), operation), "parameters")
            && r.consumes == Or(Get(operationObj, "consumes"), Get(ctx.api, "consumes"))
            && r.produces == Or(Get(operationObj, "produces"), Get(ctx.api, "produces"))
  {
  }

  /** A record is finished from the security object bound for it. */
  lemma RecordFinish(ctx: Context, path: string, operation: string, handler: Value, r: Route)
    requires RouteRecord(ctx, path, operation, handler) == Ok(r)
    ensures RouteFinish(ctx, path, operation, handler, r.security) == Ok(r)
  {
  }

  /** Where each field of an emitted route comes from. */
  lemma RouteFields(ctx: Context, path: string, operation: string, r: Route)
    requires RouteAt(ctx, path, operation) == Ok(Some(r))
    ensures var pathObj := PathObj(ctx, path);
            var operationObj := Get(pathObj, operation);
            && operation in Verbs
            && r.path == path && r.verb == operation
            && ChosenHandler(ctx, path, operation) == Ok(r.handler) && Truthy(r.handler)
            && r.name == Get(operationObj, "operationId")
            && r.description == Get(operationObj, "description")
            && SecurityOf(RequiredSecurity(ctx, pathObj, Get(operationObj, "security")),
                          Get(ctx.api, "securityDefinitions"), ctx.options, ctx.host) == Ok(r.security)
            && Prop(ctx.validators, path).Ok? && Prop(Get(ctx.validators, path), operation).Ok?
            && r.validators == Get(Get(Get(ctx.validators, path), operation), "parameters")
            && r.consumes == Or(Get(operationObj, "consumes"), Get(ctx.api, "consumes"))
            && r.produces == Or(Get(operationObj, "produces"), Get(ctx.api, "produces"))
  {
    RouteHandlerFields(ctx, path, operation, r);
    RouteRecordOf(ctx, path, operation, r);
    RecordSecurityField(ctx, path, operation, r.handler, r);
    RecordFinish(ctx, path, operation, r.handler, r);
    FinishDocumentFields(ctx, path, operation, r.handler, r.security, r);
  }

  /**
   The handler precedence: the handler tree wins; otherwise the operation's
   `x-handler`, then the path's, resolved against `basedir` with the verb.
   */
  lemma HandlerPrecedence(ctx: Context, path: string, operation: string)
    ensures Truthy(TreeHandler(path, operation, ctx.files)) ==>
              ChosenHandler(ctx, path, operation) == Ok(TreeHandler(path, operation, ctx.files))
    ensures var operationObj := Get(PathObj(ctx, path), operation);
            var own := Get(operationObj, "x-handler");
            var inherited := Get(PathObj(ctx, path), "x-handler");
            !Truthy(TreeHandler(path, operation, ctx.files)) && !operationObj.Undef? && !operationObj.Null? ==>
              && (Truthy(own) ==> ChosenHandler(ctx, path, operation) == Ok(ctx.host.resolve(ctx.options.basedir, own, Str(operation))))
              && (!Truthy(own) && Truthy(inherited) ==>
                    ChosenHandler(ctx, path, operation) == Ok(ctx.host.resolve(ctx.options.basedir, inherited, Str(operation))))
              && (!Truthy(own) && !Truthy(inherited) ==> !Truthy(ChosenHandler(ctx, path, operation).value))
  {
  }

  /** The security requirement is the operation's, else the path's, else the document's. */
  lemma SecurityFallback(ctx: Context, pathObj: Value, security: Value)
    ensures Truthy(security) ==> RequiredSecurity(ctx, pathObj, security) == security
    ensures !Truthy(security) && Truthy(Get(pathObj, "security")) ==> RequiredSecurity(ctx, pathObj, security) == Get(pathObj, "security")
    ensures !Truthy(security) && !Truthy(Get(pathObj, "security")) ==> RequiredSecurity(ctx, pathObj, security) == Get(ctx.api, "security")
  {
  }

  /** `x` occurs at a strictly earlier position of `keys` than `y`. */
  ghost predicate KeyBefore(keys: seq<string>, x: string, y: string) {
    exists ja, jb :: 0 <= ja < jb < |keys| && keys[ja] == x && keys[jb] == y
  }

  /** `x` occurs at a position of `keys` no later than one where `y` occurs. */
  ghost predicate KeyNotAfter(keys: seq<string>, x: string, y: string) {
    exists ia, ib :: 0 <= ia <= ib < |keys| && keys[ia] == x && keys[ib] == y
  }

  /** Some route of `rs` is for `verb` on `path`. */
  ghost predicate HasRoute(rs: seq<Route>, path: string, verb: string) {
    exists k :: 0 <= k < |rs| && rs[k].path == path && rs[k].verb == verb
  }

  /** The contribution of key `j` of a path object is what `KeyRoutes` gives for it. */
  lemma KeyContribution(ctx: Context, path: string, operations: seq<string>, j: nat)
    requires j < |operations|
    ensures Contributions(OperationCallback(ctx, path), operations)[j] == KeyRoutes(ctx, path, operations[j])
  {
    ContributionsAt(OperationCallback(ctx, path), operations, j);
  }

  /** An element of the `j`-th key's contribution is that key's route. */
  lemma KeyRouteAt(ctx: Context, path: string, operations: seq<string>, j: int, m: int, x: Route)
    requires At(Contributions(OperationCallback(ctx, path), operations), j, m, x)
    ensures m == 0 && RouteAt(ctx, path, operations[j]) == Ok(Some(x))
    ensures x.path == path && x.verb == operations[j]
  {
    KeyContribution(ctx, path, operations, j);
  }

  /** Each route of one path is the route of one of its keys. */
  lemma PathRoutesOrigin(ctx: Context, path: string, operations: seq<string>, rs: seq<Route>)
    requires PathRoutes(ctx, path, operations) == Ok(rs)
    ensures forall k :: 0 <= k < |rs| ==> rs[k].path == path && rs[k].verb in operations
    ensures forall k :: 0 <= k < |rs| ==> RouteAt(ctx, path, rs[k].verb) == Ok(Some(rs[k]))
  {
    var parts := Contributions(OperationCallback(ctx, path), operations);
    ConcatOrigin(parts, rs);
    forall k | 0 <= k < |rs|
      ensures rs[k].path == path && rs[k].verb in operations
      ensures RouteAt(ctx, path, rs[k].verb) == Ok(Some(rs[k]))
    {
      assert Among(parts, rs[k]);
      var j, m :| At(parts, j, m, rs[k]);
      KeyRouteAt(ctx, path, operations, j, m, rs[k]);
    }
  }

  /** No key of one path is skipped: each is visited without error, and each route it has is kept. */
  lemma PathRoutesComplete(ctx: Context, path: string, operations: seq<string>, rs: seq<Route>)
    requires PathRoutes(ctx, path, operations) == Ok(rs)
    ensures forall j :: 0 <= j < |operations| ==> RouteAt(ctx, path, operations[j]).Ok?
    ensures forall j :: 0 <= j < |operations| && RouteAt(ctx, path, operations[j]).Ok? && RouteAt(ctx, path, operations[j]).value.Some? ==>
              Listed(rs, RouteAt(ctx, path, operations[j]).value.value)
  {
    var parts := Contributions(OperationCallback(ctx, path), operations);
    ConcatComplete(parts, rs);
    forall j | 0 <= j < |operations|
      ensures RouteAt(ctx, path, operations[j]).Ok?
      ensures RouteAt(ctx, path, operations[j]).Ok? && RouteAt(ctx, path, operations[j]).value.Some? ==>
                Listed(rs, RouteAt(ctx, path, operations[j]).value.value)
    {
      KeyContribution(ctx, path, operations, j);
      assert parts[j].Ok?;
      if RouteAt(ctx, path, operations[j]).value.Some? {
        assert parts[j].value[0] == RouteAt(ctx, path, operations[j]).value.value;
      }
    }
  }

  /** The routes of one path follow the key order of its path object. */
  lemma PathRoutesOrder(ctx: Context, path: string, operations: seq<string>, rs: seq<Route>)
    requires PathRoutes(ctx, path, operations) == Ok(rs)
    ensures forall a, b :: 0 <= a < b < |rs| ==> KeyBefore(operations, rs[a].verb, rs[b].verb)
  {
    var parts := Contributions(OperationCallback(ctx, path), operations);
    ConcatOrder(parts, rs);
    forall a, b | 0 <= a < b < |rs|
      ensures KeyBefore(operations, rs[a].verb, rs[b].verb)
    {
      assert Before(parts, rs[a], rs[b]);
      var ja, ma, jb, mb :| At(parts, ja, ma, rs[a]) && At(parts, jb, mb, rs[b]) && (ja < jb || (ja == jb && ma < mb));
      KeyRouteAt(ctx, path, operations, ja, ma, rs[a]);
      KeyRouteAt(ctx, path, operations, jb, mb, rs[b]);
    }
  }

  /** A list of keys without repetitions (as `Object.keys` reports for an object). */
  predicate Distinct(xs: seq<string>) {
    forall p, q :: 0 <= p < q < |xs| ==> xs[p] != xs[q]
  }

  /** The `i`-th path's contribution is its route list, whose routes all carry that path. */
  lemma PathContribution(ctx: Context, keys: seq<string>, i: nat)
    requires i < |keys|
    ensures Contributions(PathCallback(ctx), keys)[i] == RoutesOfPath(ctx, keys[i])
    ensures RoutesOfPath(ctx, keys[i]).Ok? ==>
              && PathRoutes(ctx, keys[i], OperationsOf(ctx, keys[i])) == RoutesOfPath(ctx, keys[i])
              && forall k :: 0 <= k < |RoutesOfPath(ctx, keys[i]).value| ==>
                   var r := RoutesOfPath(ctx, keys[i]).value[k];
                   r.path == keys[i] && r.verb in OperationsOf(ctx, keys[i]) && RouteAt(ctx, keys[i], r.verb) == Ok(Some(r))
  {
    ContributionsAt(PathCallback(ctx), keys, i);
    if RoutesOfPath(ctx, keys[i]).Ok? {
      PathRoutesOrigin(ctx, keys[i], OperationsOf(ctx, keys[i]), RoutesOfPath(ctx, keys[i]).value);
    }
  }

  /** Each route is the route of a key of a path object of one of the paths `keys`. */
  lemma AllRoutesOrigin(ctx: Context, keys: seq<string>, rs: seq<Route>)
    requires AllRoutes(ctx, keys) == Ok(rs)
    ensures forall k :: 0 <= k < |rs| ==>
              && rs[k].path in keys
              && rs[k].verb in OperationsOf(ctx, rs[k].path)
              && RouteAt(ctx, rs[k].path, rs[k].verb) == Ok(Some(rs[k]))
  {
    var parts := Contributions(PathCallback(ctx), keys);
    ConcatOrigin(parts, rs);
    forall k | 0 <= k < |rs|
      ensures rs[k].path in keys
      ensures rs[k].verb in OperationsOf(ctx, rs[k].path)
      ensures RouteAt(ctx, rs[k].path, rs[k].verb) == Ok(Some(rs[k]))
    {
      assert Among(parts, rs[k]);
      var i, m :| At(parts, i, m, rs[k]);
      PathContribution(ctx, keys, i);
    }
  }

  /** No path is skipped: each path's routes are computed without error and all appear. */
  lemma AllRoutesComplete(ctx: Context, keys: seq<string>, rs: seq<Route>)
    requires AllRoutes(ctx, keys) == Ok(rs)
    ensures forall i :: 0 <= i < |keys| ==> RoutesOfPath(ctx, keys[i]).Ok?
    ensures forall i, m :: 0 <= i < |keys| && RoutesOfPath(ctx, keys[i]).Ok? && 0 <= m < |RoutesOfPath(ctx, keys[i]).value| ==>
              Listed(rs, RoutesOfPath(ctx, keys[i]).value[m])
  {
    var parts := Contributions(PathCallback(ctx), keys);
    ConcatComplete(parts, rs);
    forall i | 0 <= i < |keys|
      ensures RoutesOfPath(ctx, keys[i]).Ok?
      ensures forall m :: RoutesOfPath(ctx, keys[i]).Ok? && 0 <= m < |RoutesOfPath(ctx, keys[i]).value| ==>
                Listed(rs, RoutesOfPath(ctx, keys[i]).value[m])
    {
      ContributionsAt(PathCallback(ctx), keys, i);
    }
  }

  /** Routes follow the order of the paths `keys` and, for distinct paths, each path's key order. */
  lemma AllRoutesOrder(ctx: Context, keys: seq<string>, rs: seq<Route>)
    requires AllRoutes(ctx, keys) == Ok(rs)
    ensures forall a, b :: 0 <= a < b < |rs| ==> KeyNotAfter(keys, rs[a].path, rs[b].path)
    ensures Distinct(keys) ==> forall a, b :: 0 <= a < b < |rs| && rs[a].path == rs[b].path ==>
              KeyBefore(OperationsOf(ctx, rs[a].path), rs[a].verb, rs[b].verb)
  {
    var parts := Contributions(PathCallback(ctx), keys);
    ConcatOrder(parts, rs);
    forall a, b | 0 <= a < b < |rs|
      ensures KeyNotAfter(keys, rs[a].path, rs[b].path)
      ensures Distinct(keys) && rs[a].path == rs[b].path ==> KeyBefore(OperationsOf(ctx, rs[a].path), rs[a].verb, rs[b].verb)
    {
      assert Before(parts, rs[a], rs[b]);
      var ia, ma, ib, mb :| At(parts, ia, ma, rs[a]) && At(parts, ib, mb, rs[b]) && (ia < ib || (ia == ib && ma < mb));
      PathContribution(ctx, keys, ia);
      PathContribution(ctx, keys, ib);
      assert keys[ia] == rs[a].path && keys[ib] == rs[b].path;
      if Distinct(keys) && rs[a].path == rs[b].path {
        assert ia == ib;
        var mine := parts[ia].value;
        PathRoutesOrder(ctx, keys[ia], OperationsOf(ctx, keys[ia]), mine);
        assert mine[ma] == rs[a] && mine[mb] == rs[b];
      }
    }
  }

  /** Every route is an HTTP-verb key of a path object of one of `paths`, with a resolved handler. */
  lemma RouteTableOrigin(ctx: Context, paths: seq<string>, rs: seq<Route>)
    requires AllRoutes(ctx, paths) == Ok(rs)
    ensures forall k :: 0 <= k < |rs| ==>
              && rs[k].path in paths
              && rs[k].verb in OperationsOf(ctx, rs[k].path)
              && rs[k].verb in Verbs
              && Truthy(rs[k].handler)
              && ChosenHandler(ctx, rs[k].path, rs[k].verb) == Ok(rs[k].handler)
  {
    AllRoutesOrigin(ctx, paths, rs);
    forall k | 0 <= k < |rs|
      ensures rs[k].verb in Verbs && Truthy(rs[k].handler) && ChosenHandler(ctx, rs[k].path, rs[k].verb) == Ok(rs[k].handler)
    {
      RouteFields(ctx, rs[k].path, rs[k].verb, rs[k]);
    }
  }

  /** The `j`-th key of the `i`-th path, when it is a verb with a resolved handler, has its route. */
  lemma RouteListed(ctx: Context, paths: seq<string>, rs: seq<Route>, i: nat, j: nat)
    requires AllRoutes(ctx, paths) == Ok(rs)
    requires i < |paths| && j < |OperationsOf(ctx, paths[i])|
    ensures var op := OperationsOf(ctx, paths[i])[j];
            op in Verbs && ChosenHandler(ctx, paths[i], op).Ok? && Truthy(ChosenHandler(ctx, paths[i], op).value) ==>
              HasRoute(rs, paths[i], op)
  {
    AllRoutesComplete(ctx, paths, rs);
    var ops := OperationsOf(ctx, paths[i]);
    var op := ops[j];
    var mine := RoutesOfPath(ctx, paths[i]).value;
    assert PathRoutes(ctx, paths[i], ops) == Ok(mine);
    PathRoutesComplete(ctx, paths[i], ops, mine);
    RouteIffHandler(ctx, paths[i], op);
    if op in Verbs && ChosenHandler(ctx, paths[i], op).Ok? && Truthy(ChosenHandler(ctx, paths[i], op).value) {
      var route := RouteAt(ctx, paths[i], op).value.value;
      assert Listed(mine, route);
      var k :| 0 <= k < |mine| && mine[k] == route;
      assert Listed(rs, mine[k]);
      var k' :| 0 <= k' < |rs| && rs[k'] == mine[k];
      assert rs[k'].path == paths[i] && rs[k'].verb == op;
    }
  }

  /**
   The route table: every route is an HTTP-verb key of a path object of the
   document with a resolved handler; every such key with a resolved handler
   has its route; routes follow the document's path order and, when the
   paths are distinct, each path's key order.
   */
  lemma RouteTable(ctx: Context, rs: seq<Route>)
    requires RoutesOf(ctx) == Ok(rs)
    ensures var paths := Keys(Get(ctx.api, "paths"));
            forall k :: 0 <= k < |rs| ==>
              && rs[k].path in paths
              && rs[k].verb in OperationsOf(ctx, rs[k].path)
              && rs[k].verb in Verbs
              && Truthy(rs[k].handler)
              && ChosenHandler(ctx, rs[k].path, rs[k].verb) == Ok(rs[k].handler)
    ensures var paths := Keys(Get(ctx.api, "paths"));
            forall i, j :: 0 <= i < |paths| && 0 <= j < |OperationsOf(ctx, paths[i])| ==>
              var op := OperationsOf(ctx, paths[i])[j];
              op in Verbs && ChosenHandler(ctx, paths[i], op).Ok? && Truthy(ChosenHandler(ctx, paths[i], op).value) ==>
                HasRoute(rs, paths[i], op)
    ensures var paths := Keys(Get(ctx.api, "paths"));
            forall a, b :: 0 <= a < b < |rs| ==> KeyNotAfter(paths, rs[a].path, rs[b].path)
    ensures var paths := Keys(Get(ctx.api, "paths"));
            Distinct(paths) ==> forall a, b :: 0 <= a < b < |rs| && rs[a].path == rs[b].path ==>
              KeyBefore(OperationsOf(ctx, rs[a].path), rs[a].verb, rs[b].verb)
  {
    var paths := Keys(Get(ctx.api, "paths"));
    RouteTableOrigin(ctx, paths, rs);
    forall i, j | 0 <= i < |paths| && 0 <= j < |OperationsOf(ctx, paths[i])|
      ensures var op := OperationsOf(ctx, paths[i])[j];
              op in Verbs && ChosenHandler(ctx, paths[i], op).Ok? && Truthy(ChosenHandler(ctx, paths[i], op).value) ==>
                HasRoute(rs, paths[i], op)
    {
      RouteListed(ctx, paths, rs, i, j);
    }
    AllRoutesOrder(ctx, paths, rs);
  }
}
