/**
 The older route builder (`lib/buildroutes.js`): for every path of the API
 document and every HTTP verb in the fixed order of `Verbs`, a verb the path
 object declares gets a route with one validator per path-level parameter
 and the handler found in the handler tree under `'$' + verb`; the route is
 kept only when that handler is truthy.

 The handler tree is the value `readhandlers` produced, taken as an input.
 */
module LegacyRoutes {
  import opened Wrappers
  import opened Strings
  import opened Js
  import opened Utils
  import opened Validation
  import opened Folds
  import Routes

  /** One entry of `route.validators`. */
  datatype ValidatorEntry = ValidatorEntry(parameter: Value, validate: InputValidator)

  /** A route record of the older builder. */
  datatype LegacyRoute = LegacyRoute(
    path: string,
    name: Value,
    description: Value,
    verb: string,
    validators: seq<ValidatorEntry>,
    handler: Value,
    produces: Value)

  // ---------------------------------------------------------------------
  // Validators

  /** `models && models[parameter.type]`: reading `type` of a missing parameter throws. */
  function ParameterModel(models: Value, parameter: Value): (r: Result<Value>)
    ensures !Truthy(models) ==> r == Ok(models)
    ensures Truthy(models) ==> (r.Err? <==> parameter.Undef? || parameter.Null?)
    ensures Truthy(models) && r.Ok? ==> r.value == Get(models, ToStr(Get(parameter, "type")))
  {
    if !Truthy(models) then Ok(models)
    else
      var t :- Prop(parameter, "type");
      Ok(Get(models, ToStr(t)))
  }

  /** The entry pushed for one parameter: `{parameter, validate: validation.input(parameter, model)}`. */
  function ValidatorFor(models: Value, parameter: Value): (r: Result<ValidatorEntry>)
    ensures r.Ok? ==> r.value.parameter == parameter
  {
    var model :- ParameterModel(models, parameter);
    var v :- Input(parameter, model);
    Ok(ValidatorEntry(parameter, v))
  }

  /** The entry for each parameter, as a function value. */
  function EntryOf(models: Value): Value -> Result<ValidatorEntry> {
    parameter => ValidatorFor(models, parameter)
  }

  /** The callback `def.parameters.forEach` runs for each parameter: it pushes one entry. */
  function ParameterCallback(models: Value): Value -> Result<seq<ValidatorEntry>> {
    Singles(EntryOf(models))
  }

  /**
   `def.parameters && def.parameters.forEach(...)`: no entries when the list
   is missing; anything else that is not an array has no `forEach` and throws.
   */
  function RouteValidators(def: Value, models: Value): Result<seq<ValidatorEntry>> {
    var params := Get(def, "parameters");
    if !Truthy(params) then Ok([])
    else if !params.Arr? then Err(TypeError)
    else Concat(Contributions(ParameterCallback(models), params.items))
  }

  /** A list of entries built by the callback holds one entry per parameter, in order. */
  lemma ValidatorsEach(models: Value, params: seq<Value>, entries: seq<ValidatorEntry>)
    requires Concat(Contributions(ParameterCallback(models), params)) == Ok(entries)
    ensures |entries| == |params|
    ensures forall i :: 0 <= i < |params| ==> ValidatorFor(models, params[i]) == Ok(entries[i])
  {
    ConcatSingles(EntryOf(models), params, entries);
  }

  /** The statements of the parameter callback: `{parameter, validate: validation.input(parameter, model)}`. */
  method ValidatorStep(models: Value, parameter: Value) returns (r: Result<ValidatorEntry>)
    ensures r == ValidatorFor(models, parameter)
  {
    var model: Value := models;
    if Truthy(models) {
      if parameter.Undef? || parameter.Null? {
        // reading `parameter.type` throws
        return Err(TypeError);
      }
      model := Get(models, ToStr(Get(parameter, "type")));
    }
    var validate := Input(parameter, model);
    if validate.Err? {
      return Err(validate.error);
    }
    return Ok(ValidatorEntry(parameter, validate.value));
  }

  /** `def.parameters.forEach` with `ParameterCallback`, pushing into `route.validators`. */
  method BuildValidators(def: Value, models: Value) returns (r: Result<seq<ValidatorEntry>>)
    ensures r == RouteValidators(def, models)
  {
    var params := Get(def, "parameters");
    if !Truthy(params) {
      return Ok([]);
    }
    if !params.Arr? {
      return Err(TypeError);
    }
    r := ForEach(ParameterCallback(models), params.items);
  }

  /** Exactly one entry per path-level parameter, in declaration order, each holding its parameter. */
  lemma ValidatorsExact(def: Value, models: Value, entries: seq<ValidatorEntry>)
    requires RouteValidators(def, models) == Ok(entries)
    ensures var params := Get(def, "parameters");
            && (!Truthy(params) ==> entries == [])
            && (Truthy(params) ==>
                  && params.Arr? && |entries| == |params.items|
                  && forall i :: 0 <= i < |entries| ==>
                       entries[i].parameter == params.items[i] &&
                       ValidatorFor(models, params.items[i]) == Ok(entries[i]))
  {
    var params := Get(def, "parameters");
    if Truthy(params) {
      ValidatorsEach(models, params.items, entries);
    }
  }

  // ---------------------------------------------------------------------
  // Path names and handler lookup

  /** `path.split('/').forEach(element => element && pathnames.push(element))`. */
  method Pathnames(path: string) returns (pathnames: seq<string>)
    ensures pathnames == Routes.Segments(path)
  {
    var pieces := Split(path, '/');
    pathnames := [];
    var i := 0;
    while i < |pieces|
      invariant 0 <= i <= |pieces|
      invariant pathnames == NonEmpty(pieces[..i])
    {
      assert pieces[..i + 1] == pieces[..i] + [pieces[i]];
      NonEmptyAppend(pieces[..i], [pieces[i]]);
      if pieces[i] != "" {
        pathnames := pathnames + [pieces[i]];
      }
      i := i + 1;
    }
    assert pieces[..i] == pieces;
  }

  /** `pathnames[0]` as a property key: `"undefined"` when there is no segment. */
  function FirstKey(s: seq<string>): string {
    if s == [] then "undefined" else s[0]
  }

  /**
   `matchpath('$' + verb, pathnames, handlers[pathnames[0]])`: reading a
   property of a missing handler tree throws.
   */
  function HandlerOf(handlers: Value, path: string, verb: string): (r: Result<Value>)
    ensures r.Err? <==> handlers.Undef? || handlers.Null?
  {
    var segs := Routes.Segments(path);
    var subtree :- Prop(handlers, FirstKey(segs));
    Ok(Routes.Matched("$" + verb, segs, subtree))
  }

  /**
   With segments s0 … sn, the handler is `node[sn]` if truthy, else
   `node['$' + verb]`, where `node = handlers[s0]…[sn]`; it is `null` as soon
   as a node on the way is falsy. (A path without segments looks under
   `handlers.undefined`; that case is `HandlerOf` with `FirstKey([])`.)
   */
  lemma HandlerLookup(handlers: Value, path: string, verb: string)
    requires !handlers.Undef? && !handlers.Null?
    ensures var segs := Routes.Segments(path);
            segs != [] ==>
              HandlerOf(handlers, path, verb) ==
                Ok(if Routes.Reachable(handlers, segs)
                   then Routes.Leaf(Routes.Descend(handlers, segs), segs[|segs| - 1], "$" + verb)
                   else Null)
  {
    var segs := Routes.Segments(path);
    if segs != [] {
      var subtree := Get(handlers, segs[0]);
      Routes.WalkDescends(subtree, segs[1..]);
      if Truthy(handlers) {
        ReachableFromFirst(handlers, segs);
      } else {
        assert segs[..0] == [];
      }
    }
  }

  /** Descending from `handlers[s0]` along s1 … sn is descending from `handlers` along s0 … sn, minus the root. */
  lemma ReachableFromFirst(handlers: Value, segs: seq<string>)
    requires segs != [] && Truthy(handlers)
    ensures Routes.Descend(Get(handlers, segs[0]), segs[1..]) == Routes.Descend(handlers, segs)
    ensures Routes.Reachable(Get(handlers, segs[0]), segs[1..]) <==> Routes.Reachable(handlers, segs)
  {
    var child := Get(handlers, segs[0]);
    assert segs[..0] == [];
    forall k | 1 <= k <= |segs|
      ensures Routes.Descend(handlers, segs[..k]) == Routes.Descend(child, segs[1..][..k - 1])
    {
      assert segs[..k][1..] == segs[1..][..k - 1];
    }
    if Routes.Reachable(child, segs[1..]) {
      forall k | 0 <= k <= |segs| ensures Truthy(Routes.Descend(handlers, segs[..k])) {
        if k > 0 {
          assert Truthy(Routes.Descend(child, segs[1..][..k - 1]));
        }
      }
    }
    if Routes.Reachable(handlers, segs) {
      forall k | 0 <= k <= |segs[1..]| ensures Truthy(Routes.Descend(child, segs[1..][..k])) {
        assert Truthy(Routes.Descend(handlers, segs[..k + 1]));
      }
    }
    assert segs[..|segs|] == segs;
  }

  // ---------------------------------------------------------------------
  // The route list
  //
  // The builders below take the verb list as a parameter; `buildroutes`
  // itself runs them on `Verbs`.

  /** `options.api.paths[path]`. */
  function PathDef(api: Value, path: string): Value {
    Get(Get(api, "paths"), path)
  }

  /** The route of one verb of one path: none when the path object does not declare it or no handler is found. */
  function VerbRoute(api: Value, handlers: Value, path: string, verb: string): (r: Result<Option<LegacyRoute>>)
    ensures r.Ok? && r.value.Some? ==> r.value.value.path == path && r.value.value.verb == verb
  {
    var operation :- Prop(PathDef(api, path), verb);
    if !Truthy(operation) then Ok(None)
    else VerbRecord(api, handlers, path, verb, operation)
  }

  /**
   The route record for a declared operation: the record is created with no
   validators and an `undefined` handler, then the validators are filled in.
   */
  function VerbRecord(api: Value, handlers: Value, path: string, verb: string, operation: Value): (r: Result<Option<LegacyRoute>>)
    ensures r.Ok? && r.value.Some? ==> r.value.value.path == path && r.value.value.verb == verb
  {
    var draft := LegacyRoute(path, Get(operation, "operationId"), Get(operation, "description"), verb,
                             [], Undef, Get(operation, "produces"));
    var validators :- RouteValidators(PathDef(api, path), Get(api, "definitions"));
    VerbKept(handlers, draft.(validators := validators))
  }

  /** The draft route with its handler, kept only when the handler is truthy. */
  function VerbKept(handlers: Value, draft: LegacyRoute): (r: Result<Option<LegacyRoute>>)
    ensures r.Ok? && r.value.Some? ==> r.value.value == draft.(handler := r.value.value.handler)
  {
    var handler :- HandlerOf(handlers, draft.path, draft.verb);
    if !Truthy(handler) then Ok(None) else Ok(Some(draft.(handler := handler)))
  }

  /** The callback `utils.verbs.forEach` runs for each verb of one path. */
  function VerbCallback(api: Value, handlers: Value, path: string): string -> Result<seq<LegacyRoute>> {
    verb => (var route :- VerbRoute(api, handlers, path, verb); Ok(Routes.OptionSeq(route)))
  }

  /** The routes of the verbs `verbs` of one path, in that order. */
  function VerbRoutes(api: Value, handlers: Value, path: string, verbs: seq<string>): Result<seq<LegacyRoute>> {
    Concat(Contributions(VerbCallback(api, handlers, path), verbs))
  }

  /** The callback `Object.keys(api.paths).forEach` runs for each path. */
  function PathCallback(api: Value, handlers: Value, verbs: seq<string>): string -> Result<seq<LegacyRoute>> {
    path => VerbRoutes(api, handlers, path, verbs)
  }

  /** The routes of the paths `keys`, in key order. */
  function AllLegacyRoutes(api: Value, handlers: Value, verbs: seq<string>, keys: seq<string>): Result<seq<LegacyRoute>> {
    Concat(Contributions(PathCallback(api, handlers, verbs), keys))
  }

  /** The route list over the verb list `verbs`; throws where `api.paths` is missing. */
  function RoutesOver(api: Value, handlers: Value, verbs: seq<string>): Result<seq<LegacyRoute>> {
    var paths :- Prop(api, "paths");
    var keys :- ObjectKeys(paths);
    AllLegacyRoutes(api, handlers, verbs, keys)
  }

  /** What `buildroutes(options)` returns (or throws). */
  function LegacyRoutesOf(api: Value, handlers: Value): Result<seq<LegacyRoute>> {
    RoutesOver(api, handlers, Verbs)
  }

  /** The callback for one verb: reads `def[verb]` and builds the route when it is declared. */
  method RouteForVerb(api: Value, handlers: Value, path: string, def: Value, verb: string)
    returns (r: Result<Option<LegacyRoute>>)
    requires def == PathDef(api, path)
    ensures r == VerbRoute(api, handlers, path, verb)
  {
    var operation := Prop(def, verb);
    if operation.Err? {
      return Err(operation.error);
    }
    if !Truthy(operation.value) {
      return Ok(None);
    }
    r := RecordForVerb(api, handlers, path, def, verb, operation.value);
  }

  /** The route record of a declared operation, with `handler: undefined` until the lookup. */
  method RecordForVerb(api: Value, handlers: Value, path: string, def: Value, verb: string, operation: Value)
    returns (r: Result<Option<LegacyRoute>>)
    requires def == PathDef(api, path)
    ensures r == VerbRecord(api, handlers, path, verb, operation)
  {
    var route := LegacyRoute(path, Get(operation, "operationId"), Get(operation, "description"), verb,
                             [], Undef, Get(operation, "produces"));
    var validators := BuildValidators(def, Get(api, "definitions"));
    if validators.Err? {
      return Err(validators.error);
    }
    route := route.(validators := validators.value);
    r := KeepForVerb(handlers, route);
  }

  /** `route.handler = matchpath(...)` and `route.handler && routes.push(route)`. */
  method KeepForVerb(handlers: Value, route: LegacyRoute) returns (r: Result<Option<LegacyRoute>>)
    ensures r == VerbKept(handlers, route)
  {
    var route := route;
    var pathnames := Pathnames(route.path);
    var subtree := Prop(handlers, FirstKey(pathnames));
    if subtree.Err? {
      return Err(subtree.error);
    }
    var names := new Routes.PathNames(pathnames);
    var handler := Routes.Matchpath("$" + route.verb, names, subtree.value);
    route := route.(handler := handler);
    if !Truthy(route.handler) {
      return Ok(None);
    }
    return Ok(Some(route));
  }

  /**
   The callback for one path: `utils.verbs.forEach` (over `verbs`) with
   `VerbCallback`, whose statements `RouteForVerb` carries out.
   */
  method RoutesForPath(api: Value, handlers: Value, verbs: seq<string>, path: string) returns (r: Result<seq<LegacyRoute>>)
    ensures r == VerbRoutes(api, handlers, path, verbs)
  {
    r := ForEach(VerbCallback(api, handlers, path), verbs);
  }

  /**
   The body of `buildroutes` over the verb list `verbs`:
   `Object.keys(api.paths).forEach` with `PathCallback`, whose statements
   `RoutesForPath` carries out.
   */
  method BuildroutesOver(api: Value, handlers: Value, verbs: seq<string>) returns (r: Result<seq<LegacyRoute>>)
    ensures r == RoutesOver(api, handlers, verbs)
  {
    var paths := Prop(api, "paths");
    if paths.Err? {
      return Err(paths.error);
    }
    var keys := ObjectKeys(paths.value);
    if keys.Err? {
      return Err(keys.error);
    }
    r := ForEach(PathCallback(api, handlers, verbs), keys.value);
  }

  /** `buildroutes(options)` with `options.api` and the handler tree `readhandlers(options.handlers)`. */
  method Buildroutes(api: Value, handlers: Value) returns (r: Result<seq<LegacyRoute>>)
    ensures r == LegacyRoutesOf(api, handlers)
  {
    r := BuildroutesOver(api, handlers, Verbs);
  }

  // ---------------------------------------------------------------------
  // Properties of one path's routes

  /** A verb the path object does not declare (a falsy entry) yields no route. */
  lemma AbsentVerbSkipped(api: Value, handlers: Value, path: string, verb: string)
    requires !PathDef(api, path).Undef? && !PathDef(api, path).Null?
    requires !Truthy(Get(PathDef(api, path), verb))
    ensures VerbRoute(api, handlers, path, verb) == Ok(None)
  {
  }

  /** Where each field of a kept route comes from. */
  lemma VerbRouteFields(api: Value, handlers: Value, path: string, verb: string, r: LegacyRoute)
    requires VerbRoute(api, handlers, path, verb) == Ok(Some(r))
    ensures var operation := Get(PathDef(api, path), verb);
            && Truthy(operation)
            && r.path == path && r.verb == verb
            && r.name == Get(operation, "operationId")
            && r.description == Get(operation, "description")
            && r.produces == Get(operation, "produces")
            && RouteValidators(PathDef(api, path), Get(api, "definitions")) == Ok(r.validators)
            && HandlerOf(handlers, path, verb) == Ok(r.handler) && Truthy(r.handler)
  {
  }

  /** A declared verb whose handler is found has its route. */
  lemma DeclaredVerbKept(api: Value, handlers: Value, path: string, verb: string)
    requires Prop(PathDef(api, path), verb).Ok? && Truthy(Get(PathDef(api, path), verb))
    requires RouteValidators(PathDef(api, path), Get(api, "definitions")).Ok?
    requires HandlerOf(handlers, path, verb).Ok? && Truthy(HandlerOf(handlers, path, verb).value)
    ensures VerbRoute(api, handlers, path, verb).Ok? && VerbRoute(api, handlers, path, verb).value.Some?
  {
  }

  /** The contribution of the `j`-th verb is what the callback gives for it. */
  lemma VerbContribution(api: Value, handlers: Value, path: string, verbs: seq<string>, j: nat)
    requires j < |verbs|
    ensures Contributions(VerbCallback(api, handlers, path), verbs)[j] == VerbCallback(api, handlers, path)(verbs[j])
  {
    ContributionsAt(VerbCallback(api, handlers, path), verbs, j);
  }

  /** An element of the `j`-th verb's contribution is that verb's route. */
  lemma VerbRouteAt(api: Value, handlers: Value, path: string, verbs: seq<string>, j: int, m: int, x: LegacyRoute)
    requires At(Contributions(VerbCallback(api, handlers, path), verbs), j, m, x)
    ensures m == 0 && VerbRoute(api, handlers, path, verbs[j]) == Ok(Some(x))
    ensures x.path == path && x.verb == verbs[j]
  {
    VerbContribution(api, handlers, path, verbs, j);
  }

  /** Each route of one path is the route of one of `verbs`. */
  lemma VerbRoutesOrigin(api: Value, handlers: Value, path: string, verbs: seq<string>, rs: seq<LegacyRoute>)
    requires VerbRoutes(api, handlers, path, verbs) == Ok(rs)
    ensures forall k :: 0 <= k < |rs| ==> rs[k].path == path && rs[k].verb in verbs
    ensures forall k :: 0 <= k < |rs| ==> VerbRoute(api, handlers, path, rs[k].verb) == Ok(Some(rs[k]))
  {
    var parts := Contributions(VerbCallback(api, handlers, path), verbs);
    ConcatOrigin(parts, rs);
    forall k | 0 <= k < |rs|
      ensures rs[k].path == path && rs[k].verb in verbs
      ensures VerbRoute(api, handlers, path, rs[k].verb) == Ok(Some(rs[k]))
    {
      assert Among(parts, rs[k]);
      var j, m :| At(parts, j, m, rs[k]);
      VerbRouteAt(api, handlers, path, verbs, j, m, rs[k]);
    }
  }

  /** No verb is skipped: each is visited without error, and each route it has is kept. */
  lemma VerbRoutesComplete(api: Value, handlers: Value, path: string, verbs: seq<string>, rs: seq<LegacyRoute>)
    requires VerbRoutes(api, handlers, path, verbs) == Ok(rs)
    ensures forall j :: 0 <= j < |verbs| ==> VerbRoute(api, handlers, path, verbs[j]).Ok?
    ensures forall j :: 0 <= j < |verbs| && VerbRoute(api, handlers, path, verbs[j]).Ok? && VerbRoute(api, handlers, path, verbs[j]).value.Some? ==>
              Listed(rs, VerbRoute(api, handlers, path, verbs[j]).value.value)
  {
    var parts := Contributions(VerbCallback(api, handlers, path), verbs);
    ConcatComplete(parts, rs);
    forall j | 0 <= j < |verbs|
      ensures VerbRoute(api, handlers, path, verbs[j]).Ok?
      ensures VerbRoute(api, handlers, path, verbs[j]).Ok? && VerbRoute(api, handlers, path, verbs[j]).value.Some? ==>
                Listed(rs, VerbRoute(api, handlers, path, verbs[j]).value.value)
    {
      VerbContribution(api, handlers, path, verbs, j);
      assert parts[j].Ok?;
      if VerbRoute(api, handlers, path, verbs[j]).value.Some? {
        assert parts[j].value[0] == VerbRoute(api, handlers, path, verbs[j]).value.value;
      }
    }
  }

  /** The routes of one path follow the order of `verbs`. */
  lemma VerbRoutesOrder(api: Value, handlers: Value, path: string, verbs: seq<string>, rs: seq<LegacyRoute>)
    requires VerbRoutes(api, handlers, path, verbs) == Ok(rs)
    ensures forall a, b :: 0 <= a < b < |rs| ==> Routes.KeyBefore(verbs, rs[a].verb, rs[b].verb)
  {
    var parts := Contributions(VerbCallback(api, handlers, path), verbs);
    ConcatOrder(parts, rs);
    forall a, b | 0 <= a < b < |rs|
      ensures Routes.KeyBefore(verbs, rs[a].verb, rs[b].verb)
    {
      assert Before(parts, rs[a], rs[b]);
      var ja, ma, jb, mb :| At(parts, ja, ma, rs[a]) && At(parts, jb, mb, rs[b]) && (ja < jb || (ja == jb && ma < mb));
      VerbRouteAt(api, handlers, path, verbs, ja, ma, rs[a]);
      VerbRouteAt(api, handlers, path, verbs, jb, mb, rs[b]);
    }
  }

  /** 1 for each of `verbs` that the path object declares (with a truthy entry), else 0. */
  function DeclaredFlags(def: Value, verbs: seq<string>): seq<nat> {
    seq(|verbs|, j requires 0 <= j < |verbs| => if Truthy(Get(def, verbs[j])) then 1 else 0)
  }

  /** A verb contributes at most one route, and none when the path object does not declare it. */
  lemma AtMostDeclared(api: Value, handlers: Value, path: string, verb: string)
    ensures var part := VerbCallback(api, handlers, path)(verb);
            part.Ok? ==> |part.value| <= if Truthy(Get(PathDef(api, path), verb)) then 1 else 0
  {
    var part := VerbCallback(api, handlers, path)(verb);
    if part.Ok? && |part.value| > 0 {
      VerbRouteFields(api, handlers, path, verb, part.value[0]);
    }
  }

  /** One path yields at most one route per verb it declares. */
  lemma VerbRoutesCount(api: Value, handlers: Value, path: string, verbs: seq<string>, rs: seq<LegacyRoute>)
    requires VerbRoutes(api, handlers, path, verbs) == Ok(rs)
    ensures |rs| <= Sum(DeclaredFlags(PathDef(api, path), verbs))
  {
    var parts := Contributions(VerbCallback(api, handlers, path), verbs);
    var bounds := DeclaredFlags(PathDef(api, path), verbs);
    forall j | 0 <= j < |parts| && parts[j].Ok?
      ensures |parts[j].value| <= bounds[j]
    {
      VerbContribution(api, handlers, path, verbs, j);
      AtMostDeclared(api, handlers, path, verbs[j]);
    }
    ConcatBound(parts, rs, bounds);
  }

  // ---------------------------------------------------------------------
  // Properties of the whole route list

  /** The `i`-th path's contribution is its route list, whose routes all carry that path. */
  lemma PathContribution(api: Value, handlers: Value, verbs: seq<string>, keys: seq<string>, i: nat)
    requires i < |keys|
    ensures Contributions(PathCallback(api, handlers, verbs), keys)[i] == VerbRoutes(api, handlers, keys[i], verbs)
    ensures VerbRoutes(api, handlers, keys[i], verbs).Ok? ==>
              forall k :: 0 <= k < |VerbRoutes(api, handlers, keys[i], verbs).value| ==>
                var r := VerbRoutes(api, handlers, keys[i], verbs).value[k];
                r.path == keys[i] && r.verb in verbs && VerbRoute(api, handlers, keys[i], r.verb) == Ok(Some(r))
  {
    ContributionsAt(PathCallback(api, handlers, verbs), keys, i);
    if VerbRoutes(api, handlers, keys[i], verbs).Ok? {
      VerbRoutesOrigin(api, handlers, keys[i], verbs, VerbRoutes(api, handlers, keys[i], verbs).value);
    }
  }

  /** Each route is the route of one of `verbs` of one of the paths `keys`. */
  lemma AllOrigin(api: Value, handlers: Value, verbs: seq<string>, keys: seq<string>, rs: seq<LegacyRoute>)
    requires AllLegacyRoutes(api, handlers, verbs, keys) == Ok(rs)
    ensures forall k :: 0 <= k < |rs| ==>
              && rs[k].path in keys && rs[k].verb in verbs
              && VerbRoute(api, handlers, rs[k].path, rs[k].verb) == Ok(Some(rs[k]))
  {
    var parts := Contributions(PathCallback(api, handlers, verbs), keys);
    ConcatOrigin(parts, rs);
    forall k | 0 <= k < |rs|
      ensures rs[k].path in keys && rs[k].verb in verbs
      ensures VerbRoute(api, handlers, rs[k].path, rs[k].verb) == Ok(Some(rs[k]))
    {
      assert Among(parts, rs[k]);
      var i, m :| At(parts, i, m, rs[k]);
      PathContribution(api, handlers, verbs, keys, i);
    }
  }

  /** No path is skipped: each path's routes are computed without error and all appear. */
  lemma AllComplete(api: Value, handlers: Value, verbs: seq<string>, keys: seq<string>, rs: seq<LegacyRoute>)
    requires AllLegacyRoutes(api, handlers, verbs, keys) == Ok(rs)
    ensures forall i :: 0 <= i < |keys| ==> VerbRoutes(api, handlers, keys[i], verbs).Ok?
    ensures forall i, m :: 0 <= i < |keys| && VerbRoutes(api, handlers, keys[i], verbs).Ok? && 0 <= m < |VerbRoutes(api, handlers, keys[i], verbs).value| ==>
              Listed(rs, VerbRoutes(api, handlers, keys[i], verbs).value[m])
  {
    var parts := Contributions(PathCallback(api, handlers, verbs), keys);
    ConcatComplete(parts, rs);
    forall i | 0 <= i < |keys|
      ensures VerbRoutes(api, handlers, keys[i], verbs).Ok?
      ensures forall m :: VerbRoutes(api, handlers, keys[i], verbs).Ok? && 0 <= m < |VerbRoutes(api, handlers, keys[i], verbs).value| ==>
                Listed(rs, VerbRoutes(api, handlers, keys[i], verbs).value[m])
    {
      ContributionsAt(PathCallback(api, handlers, verbs), keys, i);
    }
  }

  /** Routes follow the order of the paths `keys` and, for distinct paths, the order of `verbs`. */
  lemma AllOrder(api: Value, handlers: Value, verbs: seq<string>, keys: seq<string>, rs: seq<LegacyRoute>)
    requires AllLegacyRoutes(api, handlers, verbs, keys) == Ok(rs)
    ensures forall a, b :: 0 <= a < b < |rs| ==> Routes.KeyNotAfter(keys, rs[a].path, rs[b].path)
    ensures Routes.Distinct(keys) ==> forall a, b :: 0 <= a < b < |rs| && rs[a].path == rs[b].path ==>
              Routes.KeyBefore(verbs, rs[a].verb, rs[b].verb)
  {
    var parts := Contributions(PathCallback(api, handlers, verbs), keys);
    ConcatOrder(parts, rs);
    forall a, b | 0 <= a < b < |rs|
      ensures Routes.KeyNotAfter(keys, rs[a].path, rs[b].path)
      ensures Routes.Distinct(keys) && rs[a].path == rs[b].path ==> Routes.KeyBefore(verbs, rs[a].verb, rs[b].verb)
    {
      assert Before(parts, rs[a], rs[b]);
      var ia, ma, ib, mb :| At(parts, ia, ma, rs[a]) && At(parts, ib, mb, rs[b]) && (ia < ib || (ia == ib && ma < mb));
      PathContribution(api, handlers, verbs, keys, ia);
      PathContribution(api, handlers, verbs, keys, ib);
      assert keys[ia] == rs[a].path && keys[ib] == rs[b].path;
      if Routes.Distinct(keys) && rs[a].path == rs[b].path {
        assert ia == ib;
        var mine := parts[ia].value;
        VerbRoutesOrder(api, handlers, keys[ia], verbs, mine);
        assert mine[ma] == rs[a] && mine[mb] == rs[b];
      }
    }
  }

  /** How many (path, verb) operations the paths `keys` declare, path by path. */
  function DeclaredCounts(api: Value, verbs: seq<string>, keys: seq<string>): seq<nat> {
    seq(|keys|, i requires 0 <= i < |keys| => Sum(DeclaredFlags(PathDef(api, keys[i]), verbs)))
  }

  /** There are at most as many routes as declared operations. */
  lemma AllCount(api: Value, handlers: Value, verbs: seq<string>, keys: seq<string>, rs: seq<LegacyRoute>)
    requires AllLegacyRoutes(api, handlers, verbs, keys) == Ok(rs)
    ensures |rs| <= Sum(DeclaredCounts(api, verbs, keys))
  {
    var parts := Contributions(PathCallback(api, handlers, verbs), keys);
    var bounds := DeclaredCounts(api, verbs, keys);
    forall i | 0 <= i < |parts| && parts[i].Ok?
      ensures |parts[i].value| <= bounds[i]
    {
      PathContribution(api, handlers, verbs, keys, i);
      VerbRoutesCount(api, handlers, keys[i], verbs, parts[i].value);
    }
    ConcatBound(parts, rs, bounds);
  }

  /** Every route of `buildroutes` is a declared operation of the document whose handler is truthy. */
  lemma LegacyOrigin(api: Value, handlers: Value, paths: seq<string>, rs: seq<LegacyRoute>)
    requires AllLegacyRoutes(api, handlers, Verbs, paths) == Ok(rs)
    ensures forall k :: 0 <= k < |rs| ==>
              && rs[k].path in paths && rs[k].verb in Verbs
              && Truthy(Get(PathDef(api, rs[k].path), rs[k].verb))
              && HandlerOf(handlers, rs[k].path, rs[k].verb) == Ok(rs[k].handler) && Truthy(rs[k].handler)
  {
    AllOrigin(api, handlers, Verbs, paths, rs);
    forall k | 0 <= k < |rs|
      ensures Truthy(Get(PathDef(api, rs[k].path), rs[k].verb))
      ensures HandlerOf(handlers, rs[k].path, rs[k].verb) == Ok(rs[k].handler) && Truthy(rs[k].handler)
    {
      VerbRouteFields(api, handlers, rs[k].path, rs[k].verb, rs[k]);
    }
  }

  /** Every (path, verb) pair of `buildroutes` is visited without error, and each route it has is listed. */
  lemma LegacyComplete(api: Value, handlers: Value, paths: seq<string>, rs: seq<LegacyRoute>)
    requires AllLegacyRoutes(api, handlers, Verbs, paths) == Ok(rs)
    ensures forall i, j :: 0 <= i < |paths| && 0 <= j < |Verbs| ==>
              var route := VerbRoute(api, handlers, paths[i], Verbs[j]);
              route.Ok? && (route.value.Some? ==> Listed(rs, route.value.value))
  {
    AllComplete(api, handlers, Verbs, paths, rs);
    forall i, j | 0 <= i < |paths| && 0 <= j < |Verbs|
      ensures var route := VerbRoute(api, handlers, paths[i], Verbs[j]);
              route.Ok? && (route.value.Some? ==> Listed(rs, route.value.value))
    {
      var mine := VerbRoutes(api, handlers, paths[i], Verbs).value;
      VerbRoutesComplete(api, handlers, paths[i], Verbs, mine);
      var route := VerbRoute(api, handlers, paths[i], Verbs[j]);
      if route.value.Some? {
        var m :| 0 <= m < |mine| && mine[m] == route.value.value;
      }
    }
  }

  /** The routes of `buildroutes` follow the path order and, for distinct paths, the order of `Verbs`. */
  lemma LegacyOrder(api: Value, handlers: Value, paths: seq<string>, rs: seq<LegacyRoute>)
    requires AllLegacyRoutes(api, handlers, Verbs, paths) == Ok(rs)
    ensures forall a, b :: 0 <= a < b < |rs| ==> Routes.KeyNotAfter(paths, rs[a].path, rs[b].path)
    ensures Routes.Distinct(paths) ==> forall a, b :: 0 <= a < b < |rs| && rs[a].path == rs[b].path ==>
              rs[a].verb in Verbs && rs[b].verb in Verbs && VerbIndex(rs[a].verb) < VerbIndex(rs[b].verb)
  {
    AllOrigin(api, handlers, Verbs, paths, rs);
    AllOrder(api, handlers, Verbs, paths, rs);
    VerbsShape();
  }

  /**
   The route list of `buildroutes`: every route is a declared operation (a
   verb of `Verbs` with a truthy entry in a path object of the document)
   whose handler is truthy; every declared operation with a truthy handler
   has its route; routes follow the document's path order and, for distinct
   paths, the order of `Verbs`; there are at most as many routes as
   declared operations.
   */
  lemma LegacyRouteTable(api: Value, handlers: Value, rs: seq<LegacyRoute>)
    requires LegacyRoutesOf(api, handlers) == Ok(rs)
    ensures var paths := Keys(Get(api, "paths"));
            forall k :: 0 <= k < |rs| ==>
              && rs[k].path in paths && rs[k].verb in Verbs
              && Truthy(Get(PathDef(api, rs[k].path), rs[k].verb))
              && HandlerOf(handlers, rs[k].path, rs[k].verb) == Ok(rs[k].handler) && Truthy(rs[k].handler)
    ensures var paths := Keys(Get(api, "paths"));
            forall i, j :: 0 <= i < |paths| && 0 <= j < |Verbs| ==>
              var route := VerbRoute(api, handlers, paths[i], Verbs[j]);
              route.Ok? && (route.value.Some? ==> Listed(rs, route.value.value))
    ensures var paths := Keys(Get(api, "paths"));
            forall a, b :: 0 <= a < b < |rs| ==> Routes.KeyNotAfter(paths, rs[a].path, rs[b].path)
    ensures var paths := Keys(Get(api, "paths"));
            Routes.Distinct(paths) ==> forall a, b :: 0 <= a < b < |rs| && rs[a].path == rs[b].path ==>
              rs[a].verb in Verbs && rs[b].verb in Verbs && VerbIndex(rs[a].verb) < VerbIndex(rs[b].verb)
    ensures |rs| <= Sum(DeclaredCounts(api, Verbs, Keys(Get(api, "paths"))))
  {
    var paths := Keys(Get(api, "paths"));
    LegacyOrigin(api, handlers, paths, rs);
    LegacyComplete(api, handlers, paths, rs);
    LegacyOrder(api, handlers, paths, rs);
    AllCount(api, handlers, Verbs, paths, rs);
  }
}
