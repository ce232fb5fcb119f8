/**
 The security binder of `lib/builders/security.js`: checks the schemes and
 scopes a route requires against `securityDefinitions` and attaches the
 `authorize` reference of each scheme.

 The binder's output object is a map from scheme name to binding; the order
 in which its keys were inserted is not modelled.
 */
module Security {
  import opened Strings
  import opened Js
  import opened Externals
  import opened Wrappers

  /** The options the binder reads: `basedir` and `security` (the authorize-handler directory). */
  datatype Options = Options(basedir: Value, security: Value)

  /** `securityObj[defName]`: the required scopes, verbatim, and the resolved `authorize`, if any. */
  datatype Binding = Binding(scopes: Value, authorize: Option<Value>)

  type SecurityObject = map<string, Binding>

  function UnknownScheme(defName: string): Error {
    AssertionError("Unrecognized security definition (" + defName + ")")
  }

  function UnknownScope(scope: Value): Error {
    AssertionError("Unrecognized scope ( " + ToStr(scope) + ").")
  }

  /** A scope is valid when it is a string naming a key of the scheme's `scopes`. */
  predicate ValidScope(defObj: Value, scope: Value) {
    scope.Str? && Declares(Keys(Get(defObj, "scopes")), scope.s)
  }

  /** `declared.indexOf(x) > -1`. */
  predicate Declares(declared: seq<string>, x: string) {
    IndexOfValue(declared, x) > -1
  }

  /** The assertion on one scope; `Object.keys(defObj.scopes)` throws when `scopes` is missing. */
  function CheckScope(defObj: Value, scope: Value): (r: Result<()>)
    ensures r.Ok? <==> ValidScope(defObj, scope)
  {
    if !scope.Str? then Err(UnknownScope(scope))
    else
      var declared :- ObjectKeys(Get(defObj, "scopes"));
      if Declares(declared, scope.s) then Ok(()) else Err(UnknownScope(scope))
  }

  /** `Array.prototype.indexOf` on a list of strings. */
  function IndexOfValue(xs: seq<string>, x: string): (r: int)
    ensures r >= -1
    ensures r > -1 <==> x in xs
  {
    if |xs| == 0 then -1
    else if xs[0] == x then 0
    else
      var i := IndexOfValue(xs[1..], x);
      assert xs == [xs[0]] + xs[1..];
      if i == -1 then -1 else i + 1
  }

  /** Running `check` over a list in order (`forEach` with a throwing callback): the first failure aborts. */
  function CheckEach(check: Value -> Result<()>, xs: seq<Value>): Result<()>
  {
    if |xs| == 0 then Ok(())
    else
      var _ :- CheckEach(check, xs[..|xs| - 1]);
      check(xs[|xs| - 1])
  }

  /** The check of one scope against a scheme. */
  function ScopeCheck(defObj: Value): Value -> Result<()> {
    scope => CheckScope(defObj, scope)
  }

  /** The scope checks of one scheme, in list order. */
  function CheckScopes(defObj: Value, scopes: seq<Value>): Result<()>
  {
    CheckEach(ScopeCheck(defObj), scopes)
  }

  /**
   The `authorize` entry: resolved from the security directory option when it
   is set, replaced by the scheme's own `x-authorize` when that is set.
   `path.join` throws a TypeError on a directory that is not a string.
   */
  function Authorize(defName: string, defObj: Value, options: Options, host: Host): Result<Option<Value>> {
    var fromDirectory :-
      if !Truthy(options.security) then Ok(None)
      else if !options.security.Str? then Err(TypeError)
      else Ok(Some(host.resolve(options.basedir, Str(host.pathJoin(options.security.s, defName + ".js")), Undef)));
    var override := Get(defObj, "x-authorize");
    if Truthy(override) then Ok(Some(host.resolve(options.basedir, override, Undef)))
    else Ok(fromDirectory)
  }

  /** The binding of one scheme named in a requirement object, or the error that aborts the binder. */
  function BindScheme(defs: Value, options: Options, host: Host, defName: string, scopes: Value): Result<Binding> {
    var defObj := Get(defs, defName);
    if !Truthy(defObj) then Err(UnknownScheme(defName))
    else if !scopes.Arr? then Err(TypeError)
    else
      var _ :- CheckScopes(defObj, scopes.items);
      var authorize :- Authorize(defName, defObj, options, host);
      Ok(Binding(scopes, authorize))
  }

  /** Binding the scheme names of one requirement object in order, with `bind` binding one of them. */
  function FoldNames(bind: (SecurityObject, string) -> Result<SecurityObject>, acc: SecurityObject, names: seq<string>): Result<SecurityObject>
  {
    if |names| == 0 then Ok(acc)
    else
      var m :- FoldNames(bind, acc, names[..|names| - 1]);
      bind(m, names[|names| - 1])
  }

  /** The `defName => ...` step of the binder, for requirement object `routeDef`. */
  function SchemeBinder(defs: Value, options: Options, host: Host, routeDef: Value): (SecurityObject, string) -> Result<SecurityObject> {
    (m, defName) => BindOne(defs, options, host, m, routeDef, defName)
  }

  /** Binding the schemes `names` of one requirement object, on top of `acc`. */
  function BindNames(defs: Value, options: Options, host: Host, acc: SecurityObject, routeDef: Value, names: seq<string>): Result<SecurityObject>
  {
    FoldNames(SchemeBinder(defs, options, host, routeDef), acc, names)
  }

  /** `securityObj[defName] = ...`: adds the binding of scheme `defName` to `m`. */
  function BindOne(defs: Value, options: Options, host: Host, m: SecurityObject, routeDef: Value, defName: string): Result<SecurityObject> {
    var b :- BindScheme(defs, options, host, defName, Get(routeDef, defName));
    Ok(m[defName := b])
  }

  /** Binding every scheme one requirement object names, on top of `acc`. */
  function BindRequirementOf(defs: Value, options: Options, host: Host, acc: SecurityObject, routeDef: Value): Result<SecurityObject> {
    var names :- ObjectKeys(routeDef);
    BindNames(defs, options, host, acc, routeDef, names)
  }

  /** Binding every requirement object of the list, in order, with `bind` binding one of them. */
  function FoldRequirements(bind: (SecurityObject, Value) -> Result<SecurityObject>, reqs: seq<Value>): Result<SecurityObject>
  {
    if |reqs| == 0 then Ok(map[])
    else
      var m :- FoldRequirements(bind, reqs[..|reqs| - 1]);
      bind(m, reqs[|reqs| - 1])
  }

  /** The `routeDef => ...` step of the binder. */
  function RequirementBinder(defs: Value, options: Options, host: Host): (SecurityObject, Value) -> Result<SecurityObject> {
    (acc, routeDef) => BindRequirementOf(defs, options, host, acc, routeDef)
  }

  /** Binding every requirement object of the list, in order. */
  function BindAll(defs: Value, options: Options, host: Host, reqs: seq<Value>): Result<SecurityObject>
  {
    FoldRequirements(RequirementBinder(defs, options, host), reqs)
  }

  /** What `Buildsecurity` returns: `undefined` (None), the security object, or the exception. */
  function SecurityOf(routeSecurity: Value, defs: Value, options: Options, host: Host): Result<Option<SecurityObject>> {
    if !Truthy(defs) || !Truthy(routeSecurity) || !routeSecurity.Arr? then Ok(None)
    else
      var m :- BindAll(defs, options, host, routeSecurity.items);
      Ok(Some(m))
  }

  /** The `scope => Assert.ok(...)` callback run over a scheme's scope list. */
  method CheckScopeList(defObj: Value, scopes: seq<Value>) returns (r: Result<()>)
    ensures r == CheckScopes(defObj, scopes)
  {
    var k := 0;
    while k < |scopes|
      invariant 0 <= k <= |scopes|
      invariant CheckScopes(defObj, scopes[..k]) == Ok(())
    {
      var checked := CheckScope(defObj, scopes[k]);
      CheckEachStep(ScopeCheck(defObj), scopes, k);
      if checked.Err? {
        CheckScopesAbort(defObj, scopes, k + 1);
        return Err(checked.error);
      }
      k := k + 1;
    }
    assert scopes[..k] == scopes;
    return Ok(());
  }

  /**
   The `defName => ...` callback: builds `securityObj[defName]` field by field
   (`{}`, then `.scopes`, then `.authorize`), with the assertions on the way.
   */
  method BindSchemeEntry(defs: Value, options: Options, host: Host, defName: string, routeDef: Value)
    returns (r: Result<Binding>)
    ensures r == BindScheme(defs, options, host, defName, Get(routeDef, defName))
  {
    var defObj := Get(defs, defName);
    if !Truthy(defObj) {
      return Err(UnknownScheme(defName));
    }
    var entry := Binding(Undef, None);
    entry := entry.(scopes := Get(routeDef, defName));
    if !entry.scopes.Arr? {
      return Err(TypeError);
    }
    var checked := CheckScopeList(defObj, entry.scopes.items);
    if checked.Err? {
      return Err(checked.error);
    }
    if Truthy(options.security) {
      if !options.security.Str? {
        return Err(TypeError);
      }
      entry := entry.(authorize := Some(host.resolve(options.basedir, Str(host.pathJoin(options.security.s, defName + ".js")), Undef)));
    }
    if Truthy(Get(defObj, "x-authorize")) {
      entry := entry.(authorize := Some(host.resolve(options.basedir, Get(defObj, "x-authorize"), Undef)));
    }
    return Ok(entry);
  }

  /** The `routeDef => ...` callback: binds every scheme one requirement object names. */
  method BindRequirement(defs: Value, options: Options, host: Host, securityObj: SecurityObject, routeDef: Value)
    returns (r: Result<SecurityObject>)
    ensures r == BindRequirementOf(defs, options, host, securityObj, routeDef)
  {
    var keys := ObjectKeys(routeDef);
    if keys.Err? {
      return Err(keys.error);
    }
    var names := keys.value;
    var acc := securityObj;
    var j := 0;
    while j < |names|
      invariant 0 <= j <= |names|
      invariant BindNames(defs, options, host, securityObj, routeDef, names[..j]) == Ok(acc)
    {
      var entry := BindSchemeEntry(defs, options, host, names[j], routeDef);
      BindNamesStep(defs, options, host, securityObj, routeDef, names, j, acc);
      if entry.Err? {
        BindNamesAbort(defs, options, host, securityObj, routeDef, names, j + 1);
        return Err(entry.error);
      }
      acc := acc[names[j] := entry.value];
      j := j + 1;
    }
    assert names[..j] == names;
    return Ok(acc);
  }

  /** One more name of a requirement object: the binding so far, updated with that scheme's binding. */
  lemma BindNamesStep(defs: Value, options: Options, host: Host, acc0: SecurityObject, routeDef: Value, names: seq<string>, j: nat, acc: SecurityObject)
    requires j < |names| && BindNames(defs, options, host, acc0, routeDef, names[..j]) == Ok(acc)
    ensures BindNames(defs, options, host, acc0, routeDef, names[..j + 1]) == BindOne(defs, options, host, acc, routeDef, names[j])
  {
    assert names[..j + 1][..j] == names[..j];
  }

  /** One more requirement object: the names it lists, bound on top of the binding so far. */
  lemma BindAllStep(defs: Value, options: Options, host: Host, reqs: seq<Value>, i: nat, acc: SecurityObject)
    requires i < |reqs| && BindAll(defs, options, host, reqs[..i]) == Ok(acc)
    ensures BindAll(defs, options, host, reqs[..i + 1]) == BindRequirementOf(defs, options, host, acc, reqs[i])
  {
    assert reqs[..i + 1][..i] == reqs[..i];
  }

  /** `routeSecurity.forEach(routeDef => ...)`: binds the requirement objects in order. */
  method BindRequirements(securityDefinitions: Value, options: Options, host: Host, reqs: seq<Value>)
    returns (r: Result<SecurityObject>)
    ensures r == BindAll(securityDefinitions, options, host, reqs)
  {
    var securityObj: SecurityObject := map[];
    var i := 0;
    while i < |reqs|
      invariant 0 <= i <= |reqs|
      invariant BindAll(securityDefinitions, options, host, reqs[..i]) == Ok(securityObj)
    {
      var next := BindRequirement(securityDefinitions, options, host, securityObj, reqs[i]);
      BindAllStep(securityDefinitions, options, host, reqs, i, securityObj);
      if next.Err? {
        BindAllAbort(securityDefinitions, options, host, reqs, i + 1);
        return next;
      }
      securityObj := next.value;
      i := i + 1;
    }
    assert reqs[..i] == reqs;
    return Ok(securityObj);
  }

  /** `Buildsecurity(routeSecurity, securityDefinitions, options)`. */
  method Buildsecurity(routeSecurity: Value, securityDefinitions: Value, options: Options, host: Host)
    returns (r: Result<Option<SecurityObject>>)
    ensures r == SecurityOf(routeSecurity, securityDefinitions, options, host)
  {
    if !Truthy(securityDefinitions) || !Truthy(routeSecurity) || !routeSecurity.Arr? {
      return Ok(None);
    }
    var bound := BindRequirements(securityDefinitions, options, host, routeSecurity.items);
    if bound.Err? {
      return Err(bound.error);
    }
    return Ok(Some(bound.value));
  }

  /** Once a prefix of the scope list fails, the whole check fails the same way. */
  lemma {:induction false} CheckScopesAbort(defObj: Value, scopes: seq<Value>, k: nat)
    requires k <= |scopes| && CheckScopes(defObj, scopes[..k]).Err?
    ensures CheckScopes(defObj, scopes) == CheckScopes(defObj, scopes[..k])
    decreases |scopes| - k
  {
    if k < |scopes| {
      var longer := scopes[..k + 1];
      assert longer[..k] == scopes[..k];
      CheckScopesAbort(defObj, scopes, k + 1);
    } else {
      assert scopes[..k] == scopes;
    }
  }

  lemma {:induction false} BindNamesAbort(defs: Value, options: Options, host: Host, acc: SecurityObject, routeDef: Value, names: seq<string>, j: nat)
    requires j <= |names| && BindNames(defs, options, host, acc, routeDef, names[..j]).Err?
    ensures BindNames(defs, options, host, acc, routeDef, names) == BindNames(defs, options, host, acc, routeDef, names[..j])
    decreases |names| - j
  {
    if j < |names| {
      assert names[..j + 1][..j] == names[..j];
      BindNamesAbort(defs, options, host, acc, routeDef, names, j + 1);
    } else {
      assert names[..j] == names;
    }
  }

  lemma {:induction false} BindAllAbort(defs: Value, options: Options, host: Host, reqs: seq<Value>, i: nat)
    requires i <= |reqs| && BindAll(defs, options, host, reqs[..i]).Err?
    ensures BindAll(defs, options, host, reqs) == BindAll(defs, options, host, reqs[..i])
    decreases |reqs| - i
  {
    if i < |reqs| {
      assert reqs[..i + 1][..i] == reqs[..i];
      BindAllAbort(defs, options, host, reqs, i + 1);
    } else {
      assert reqs[..i] == reqs;
    }
  }

  // ---------------------------------------------------------------------
  // Properties of the binder

  /** No definitions, no requirement, or a requirement that is not a list: `undefined`, not an error. */
  lemma Unsecured(routeSecurity: Value, defs: Value, options: Options, host: Host)
    requires !Truthy(defs) || !Truthy(routeSecurity) || !routeSecurity.Arr?
    ensures SecurityOf(routeSecurity, defs, options, host) == Ok(None)
  {
  }

  /** An empty requirement list gives an empty security object, not `undefined`. */
  lemma EmptyRequirementList(defs: Value, options: Options, host: Host)
    requires Truthy(defs)
    ensures SecurityOf(Arr([]), defs, options, host) == Ok(Some(map[]))
  {
  }

  /** What a successful binding of one scheme holds. */
  lemma {:induction false} BindSchemeSound(defs: Value, options: Options, host: Host, defName: string, scopes: Value, b: Binding)
    requires BindScheme(defs, options, host, defName, scopes) == Ok(b)
    ensures Truthy(Get(defs, defName))
    ensures b.scopes == scopes && scopes.Arr?
    ensures forall i :: 0 <= i < |scopes.items| ==> ValidScope(Get(defs, defName), scopes.items[i])
    ensures Truthy(Get(Get(defs, defName), "x-authorize")) ==>
              b.authorize == Some(host.resolve(options.basedir, Get(Get(defs, defName), "x-authorize"), Undef))
    ensures !Truthy(Get(Get(defs, defName), "x-authorize")) && Truthy(options.security) ==>
              options.security.Str? &&
              b.authorize == Some(host.resolve(options.basedir, Str(host.pathJoin(options.security.s, defName + ".js")), Undef))
    ensures !Truthy(Get(Get(defs, defName), "x-authorize")) && !Truthy(options.security) ==> b.authorize == None
  {
    CheckScopesSound(Get(defs, defName), scopes.items);
  }

  /** One more element: after a passing prefix, the outcome is that element's check. */
  lemma CheckEachStep(check: Value -> Result<()>, xs: seq<Value>, k: nat)
    requires k < |xs| && CheckEach(check, xs[..k]).Ok?
    ensures CheckEach(check, xs[..k + 1]) == check(xs[k])
  {
    assert xs[..k + 1][..k] == xs[..k];
  }

  /** The checks of a list all pass exactly when each element's check passes. */
  lemma {:induction false} CheckEachSound(check: Value -> Result<()>, xs: seq<Value>)
    ensures CheckEach(check, xs).Ok? <==> forall i :: 0 <= i < |xs| ==> check(xs[i]).Ok?
  {
    if |xs| > 0 {
      var front := xs[..|xs| - 1];
      CheckEachSound(check, front);
      assert forall i :: 0 <= i < |front| ==> front[i] == xs[i];
    }
  }

  lemma CheckScopesSound(defObj: Value, scopes: seq<Value>)
    ensures CheckScopes(defObj, scopes).Ok? <==> forall i :: 0 <= i < |scopes| ==> ValidScope(defObj, scopes[i])
  {
    CheckEachSound(ScopeCheck(defObj), scopes);
  }

  /** Requirement object `req` names scheme `k`. */
  predicate Names(req: Value, k: string) {
    k in Keys(req)
  }

  /** The last index of `xs` whose element satisfies `p`, or -1. */
  function LastWhere(p: Value -> bool, xs: seq<Value>): (r: int)
    ensures -1 <= r < |xs|
    ensures r >= 0 ==> p(xs[r])
    ensures forall j :: r < j < |xs| ==> !p(xs[j])
  {
    if |xs| == 0 then -1
    else if p(xs[|xs| - 1]) then |xs| - 1
    else
      var front := xs[..|xs| - 1];
      var r := LastWhere(p, front);
      assert forall j :: r < j < |front| ==> front[j] == xs[j];
      r
  }

  function Naming(k: string): Value -> bool {
    req => Names(req, k)
  }

  /** The last requirement object (index) that names `k`, or -1. */
  function LastNaming(reqs: seq<Value>, k: string): (r: int)
    ensures -1 <= r < |reqs|
    ensures r >= 0 ==> Names(reqs[r], k)
    ensures forall j :: r < j < |reqs| ==> !Names(reqs[j], k)
  {
    LastWhere(Naming(k), reqs)
  }

  /** Every scheme of one requirement object binds. */
  ghost predicate AllBind(defs: Value, options: Options, host: Host, routeDef: Value, names: seq<string>) {
    forall i :: 0 <= i < |names| ==> BindScheme(defs, options, host, names[i], Get(routeDef, names[i])).Ok?
  }

  /** One more name: the binding so far, updated with that scheme's binding. */
  lemma BindNamesLast(defs: Value, options: Options, host: Host, acc: SecurityObject, routeDef: Value, names: seq<string>, m: SecurityObject)
    requires |names| > 0 && BindNames(defs, options, host, acc, routeDef, names) == Ok(m)
    ensures var front := names[..|names| - 1];
            var d := names[|names| - 1];
            && BindNames(defs, options, host, acc, routeDef, front).Ok?
            && BindScheme(defs, options, host, d, Get(routeDef, d)).Ok?
            && m == BindNames(defs, options, host, acc, routeDef, front).value[d := BindScheme(defs, options, host, d, Get(routeDef, d)).value]
  {
  }

  /** One more name adds that name's key. */
  lemma BindNamesLastKeys(defs: Value, options: Options, host: Host, acc: SecurityObject, routeDef: Value, names: seq<string>, m: SecurityObject)
    requires |names| > 0 && BindNames(defs, options, host, acc, routeDef, names) == Ok(m)
    ensures var front := names[..|names| - 1];
            && BindNames(defs, options, host, acc, routeDef, front).Ok?
            && m.Keys == BindNames(defs, options, host, acc, routeDef, front).value.Keys + {names[|names| - 1]}
  {
  }

  /** The keys of a requirement object's bindings are added to the output. */
  lemma {:induction false} BindNamesKeys(defs: Value, options: Options, host: Host, acc: SecurityObject, routeDef: Value, names: seq<string>, m: SecurityObject)
    requires BindNames(defs, options, host, acc, routeDef, names) == Ok(m)
    ensures m.Keys == acc.Keys + set n | n in names
  {
    if |names| > 0 {
      var front := names[..|names| - 1];
      var d := names[|names| - 1];
      BindNamesLastKeys(defs, options, host, acc, routeDef, names, m);
      BindNamesKeys(defs, options, host, acc, routeDef, front, BindNames(defs, options, host, acc, routeDef, front).value);
      assert names == front + [d];
      assert (set n | n in names) == (set n | n in front) + {d};
    }
  }

  /** Each named scheme gets its own binding; the other entries are left as they were. */
  lemma {:induction false} BindNamesValues(defs: Value, options: Options, host: Host, acc: SecurityObject, routeDef: Value, names: seq<string>, m: SecurityObject)
    requires BindNames(defs, options, host, acc, routeDef, names) == Ok(m)
    ensures forall i :: 0 <= i < |names| ==>
              names[i] in m && BindScheme(defs, options, host, names[i], Get(routeDef, names[i])) == Ok(m[names[i]])
    ensures forall k :: k in m && k !in names ==> k in acc && m[k] == acc[k]
  {
    if |names| > 0 {
      var front := names[..|names| - 1];
      var d := names[|names| - 1];
      BindNamesLast(defs, options, host, acc, routeDef, names, m);
      BindNamesValues(defs, options, host, acc, routeDef, front, BindNames(defs, options, host, acc, routeDef, front).value);
      forall i | 0 <= i < |names|
        ensures names[i] in m && BindScheme(defs, options, host, names[i], Get(routeDef, names[i])) == Ok(m[names[i]])
      {
        if names[i] != d {
          assert names[i] == front[i];
        }
      }
    }
  }

  /** A successful binding of a requirement object bound every scheme it names. */
  lemma BindNamesAll(defs: Value, options: Options, host: Host, acc: SecurityObject, routeDef: Value, names: seq<string>, m: SecurityObject)
    requires BindNames(defs, options, host, acc, routeDef, names) == Ok(m)
    ensures AllBind(defs, options, host, routeDef, names)
  {
    BindNamesValues(defs, options, host, acc, routeDef, names, m);
  }

  lemma BindNamesSound(defs: Value, options: Options, host: Host, acc: SecurityObject, routeDef: Value, names: seq<string>, m: SecurityObject)
    requires BindNames(defs, options, host, acc, routeDef, names) == Ok(m)
    ensures m.Keys == acc.Keys + set n | n in names
    ensures forall k :: k in m && k in names ==> BindScheme(defs, options, host, k, Get(routeDef, k)) == Ok(m[k])
    ensures forall k :: k in m && k !in names ==> m[k] == acc[k]
    ensures AllBind(defs, options, host, routeDef, names)
  {
    BindNamesKeys(defs, options, host, acc, routeDef, names, m);
    BindNamesValues(defs, options, host, acc, routeDef, names, m);
    forall k | k in m && k in names
      ensures BindScheme(defs, options, host, k, Get(routeDef, k)) == Ok(m[k])
    {
      var i :| 0 <= i < |names| && names[i] == k;
    }
  }

  /** One more requirement object: the binding so far, with that object's schemes bound into it. */
  lemma BindAllLast(defs: Value, options: Options, host: Host, reqs: seq<Value>, m: SecurityObject)
    requires |reqs| > 0 && BindAll(defs, options, host, reqs) == Ok(m)
    ensures var front := reqs[..|reqs| - 1];
            var last := reqs[|reqs| - 1];
            && BindAll(defs, options, host, front).Ok?
            && BindNames(defs, options, host, BindAll(defs, options, host, front).value, last, Keys(last)) == Ok(m)
  {
  }

  /** The last object naming `k` is the final one if it does, else the last among the others. */
  lemma LastNamingStep(reqs: seq<Value>, k: string)
    requires |reqs| > 0
    ensures LastNaming(reqs, k) ==
              if Names(reqs[|reqs| - 1], k) then |reqs| - 1 else LastNaming(reqs[..|reqs| - 1], k)
  {
  }

  /** The output keys are exactly the schemes some requirement object names. */
  lemma {:induction false} BindAllKeys(defs: Value, options: Options, host: Host, reqs: seq<Value>, m: SecurityObject)
    requires BindAll(defs, options, host, reqs) == Ok(m)
    ensures forall k :: k in m <==> LastNaming(reqs, k) >= 0
  {
    if |reqs| > 0 {
      var front := reqs[..|reqs| - 1];
      var last := reqs[|reqs| - 1];
      BindAllLast(defs, options, host, reqs, m);
      var m' := BindAll(defs, options, host, front).value;
      BindAllKeys(defs, options, host, front, m');
      BindNamesKeys(defs, options, host, m', last, Keys(last), m);
      forall k
        ensures k in m <==> LastNaming(reqs, k) >= 0
      {
        LastNamingStep(reqs, k);
      }
    }
  }

  /** Each output binding comes from the last requirement object naming its scheme. */
  lemma {:induction false} BindAllValues(defs: Value, options: Options, host: Host, reqs: seq<Value>, m: SecurityObject)
    requires BindAll(defs, options, host, reqs) == Ok(m)
    ensures forall k :: k in m ==>
              (LastNaming(reqs, k) >= 0 &&
               BindScheme(defs, options, host, k, Get(reqs[LastNaming(reqs, k)], k)) == Ok(m[k]))
  {
    if |reqs| > 0 {
      var front := reqs[..|reqs| - 1];
      var last := reqs[|reqs| - 1];
      BindAllLast(defs, options, host, reqs, m);
      var m' := BindAll(defs, options, host, front).value;
      BindAllValues(defs, options, host, front, m');
      var names := Keys(last);
      BindNamesValues(defs, options, host, m', last, names, m);
      forall k | k in m
        ensures LastNaming(reqs, k) >= 0 &&
                BindScheme(defs, options, host, k, Get(reqs[LastNaming(reqs, k)], k)) == Ok(m[k])
      {
        LastNamingStep(reqs, k);
        if Names(last, k) {
          var i :| 0 <= i < |names| && names[i] == k;
        } else {
          assert reqs[LastNaming(front, k)] == front[LastNaming(front, k)];
        }
      }
    }
  }

  /** Every scheme of every requirement object bound successfully. */
  lemma {:induction false} BindAllEach(defs: Value, options: Options, host: Host, reqs: seq<Value>, m: SecurityObject)
    requires BindAll(defs, options, host, reqs) == Ok(m)
    ensures forall i :: 0 <= i < |reqs| ==> AllBind(defs, options, host, reqs[i], Keys(reqs[i]))
  {
    if |reqs| > 0 {
      var front := reqs[..|reqs| - 1];
      var last := reqs[|reqs| - 1];
      BindAllLast(defs, options, host, reqs, m);
      var m' := BindAll(defs, options, host, front).value;
      BindAllEach(defs, options, host, front, m');
      BindNamesAll(defs, options, host, m', last, Keys(last), m);
      forall i | 0 <= i < |reqs|
        ensures AllBind(defs, options, host, reqs[i], Keys(reqs[i]))
      {
        if i < |reqs| - 1 {
          assert reqs[i] == front[i];
        }
      }
    }
  }

  /**
   What a successful binding of a whole requirement list holds: the output keys
   are exactly the schemes named by some requirement object, each binding comes
   from the LAST requirement object naming that scheme, and every scheme of
   every requirement object bound successfully.
   */
  lemma BindAllSound(defs: Value, options: Options, host: Host, reqs: seq<Value>, m: SecurityObject)
    requires BindAll(defs, options, host, reqs) == Ok(m)
    ensures forall k :: k in m <==> LastNaming(reqs, k) >= 0
    ensures forall k :: k in m ==> BindScheme(defs, options, host, k, Get(reqs[LastNaming(reqs, k)], k)) == Ok(m[k])
    ensures forall i :: 0 <= i < |reqs| ==> AllBind(defs, options, host, reqs[i], Keys(reqs[i]))
  {
    BindAllKeys(defs, options, host, reqs, m);
    BindAllValues(defs, options, host, reqs, m);
    BindAllEach(defs, options, host, reqs, m);
  }

  /**
   The binder's result, when it succeeds: every output key is a scheme that
   some requirement object names and that `securityDefinitions` defines; its
   `scopes` is the scope list of the last requirement object naming it,
   verbatim, and every scope is a declared one; `authorize` is resolved from
   `x-authorize`, else from the security directory, else absent.
   */
  lemma SecuritySound(routeSecurity: Value, defs: Value, options: Options, host: Host, m: SecurityObject)
    requires SecurityOf(routeSecurity, defs, options, host) == Ok(Some(m))
    ensures routeSecurity.Arr?
    ensures forall k :: k in m <==> exists i :: 0 <= i < |routeSecurity.items| && Names(routeSecurity.items[i], k)
    ensures forall k :: k in m ==>
              var i := LastNaming(routeSecurity.items, k);
              0 <= i && m[k].scopes == Get(routeSecurity.items[i], k) &&
              forall j :: i < j < |routeSecurity.items| ==> !Names(routeSecurity.items[j], k)
    ensures forall k :: k in m ==>
              Truthy(Get(defs, k)) && m[k].scopes.Arr? &&
              forall i :: 0 <= i < |m[k].scopes.items| ==> ValidScope(Get(defs, k), m[k].scopes.items[i])
    ensures forall k :: k in m && Truthy(Get(Get(defs, k), "x-authorize")) ==>
              m[k].authorize == Some(host.resolve(options.basedir, Get(Get(defs, k), "x-authorize"), Undef))
    ensures forall k :: k in m && !Truthy(Get(Get(defs, k), "x-authorize")) && Truthy(options.security) ==>
              options.security.Str? &&
              m[k].authorize == Some(host.resolve(options.basedir, Str(host.pathJoin(options.security.s, k + ".js")), Undef))
    ensures forall k :: k in m && !Truthy(Get(Get(defs, k), "x-authorize")) && !Truthy(options.security) ==>
              m[k].authorize == None
  {
    var reqs := routeSecurity.items;
    BindAllSound(defs, options, host, reqs, m);
    forall k | k in m
      ensures Truthy(Get(defs, k)) && m[k].scopes.Arr? &&
              forall i :: 0 <= i < |m[k].scopes.items| ==> ValidScope(Get(defs, k), m[k].scopes.items[i])
      ensures Truthy(Get(Get(defs, k), "x-authorize")) ==>
              m[k].authorize == Some(host.resolve(options.basedir, Get(Get(defs, k), "x-authorize"), Undef))
      ensures !Truthy(Get(Get(defs, k), "x-authorize")) && Truthy(options.security) ==>
                options.security.Str? &&
                m[k].authorize == Some(host.resolve(options.basedir, Str(host.pathJoin(options.security.s, k + ".js")), Undef))
      ensures !Truthy(Get(Get(defs, k), "x-authorize")) && !Truthy(options.security) ==> m[k].authorize == None
      ensures m[k].scopes == Get(reqs[LastNaming(reqs, k)], k)
    {
      BindSchemeSound(defs, options, host, k, Get(reqs[LastNaming(reqs, k)], k), m[k]);
    }
    forall k | exists i :: 0 <= i < |reqs| && Names(reqs[i], k)
      ensures k in m
    {
      var i :| 0 <= i < |reqs| && Names(reqs[i], k);
      assert LastNaming(reqs, k) >= i;
    }
  }

  /**
   A scheme name that `securityDefinitions` does not define, or a scope that
   the scheme does not declare, anywhere in a requirement list makes the binder
   fail: it never returns a binding that skips the check.
   */
  lemma BadRequirementFails(routeSecurity: Value, defs: Value, options: Options, host: Host, i: nat, k: string)
    requires Truthy(defs) && routeSecurity.Arr?
    requires i < |routeSecurity.items| && Names(routeSecurity.items[i], k)
    requires !Truthy(Get(defs, k)) || !Get(routeSecurity.items[i], k).Arr? ||
             exists j :: 0 <= j < |Get(routeSecurity.items[i], k).items| && !ValidScope(Get(defs, k), Get(routeSecurity.items[i], k).items[j])
    ensures SecurityOf(routeSecurity, defs, options, host).Err?
  {
    var r := BindAll(defs, options, host, routeSecurity.items);
    if r.Ok? {
      BindAllSound(defs, options, host, routeSecurity.items, r.value);
      var keys := Keys(routeSecurity.items[i]);
      assert AllBind(defs, options, host, routeSecurity.items[i], keys);
      var j :| 0 <= j < |keys| && keys[j] == k;
      var b := BindScheme(defs, options, host, k, Get(routeSecurity.items[i], k));
      BindSchemeSound(defs, options, host, k, Get(routeSecurity.items[i], k), b.value);
    }
  }

  /** A list of one requirement object naming one scheme: the result is that scheme's binding, or its error. */
  lemma OneScheme(defs: Value, options: Options, host: Host, k: string, scopes: Value)
    requires Truthy(defs)
    ensures SecurityOf(Arr([Obj([Member(k, scopes)])]), defs, options, host) ==
              (var b :- BindScheme(defs, options, host, k, scopes); Ok(Some(map[k := b])))
  {
    var req := Obj([Member(k, scopes)]);
    var reqs := [req];
    assert reqs[..0] == [];
    assert Keys(req) == [k];
    assert [k][..0] == [];
    assert Get(req, k) == scopes;
    assert FoldNames(SchemeBinder(defs, options, host, req), map[], []) == Ok(map[]);
    assert BindNames(defs, options, host, map[], req, [k]) == BindOne(defs, options, host, map[], req, k);
    assert FoldRequirements(RequirementBinder(defs, options, host), []) == Ok(map[]);
    assert BindAll(defs, options, host, reqs) == BindRequirementOf(defs, options, host, map[], req);
  }

  /** The assertion's message names the undefined scheme. */
  lemma UnknownSchemeMessage(defs: Value, options: Options, host: Host, k: string, scopes: Value)
    requires Truthy(defs) && !Truthy(Get(defs, k))
    ensures SecurityOf(Arr([Obj([Member(k, scopes)])]), defs, options, host)
              == Err(AssertionError("Unrecognized security definition (" + k + ")"))
  {
    OneScheme(defs, options, host, k, scopes);
  }

  /** A scope the scheme does not declare fails with a message naming the scope. */
  lemma UnknownScopeMessage(defs: Value, options: Options, host: Host, k: string, scope: string)
    requires Truthy(defs) && Get(defs, k).Obj?
    requires Get(Get(defs, k), "scopes").Obj? && scope !in Keys(Get(Get(defs, k), "scopes"))
    ensures SecurityOf(Arr([Obj([Member(k, Arr([Str(scope)]))])]), defs, options, host)
              == Err(AssertionError("Unrecognized scope ( " + scope + ")."))
  {
    var defObj := Get(defs, k);
    OneScheme(defs, options, host, k, Arr([Str(scope)]));
    assert [Str(scope)][..0] == [];
    assert IndexOfValue(Keys(Get(defObj, "scopes")), scope) == -1;
    assert CheckEach(ScopeCheck(defObj), []) == Ok(());
    assert CheckScopes(defObj, [Str(scope)]) == Err(UnknownScope(Str(scope)));
  }
}
