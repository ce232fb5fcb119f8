# swaggerize-routes route compilation, modelled in Dafny

swaggerize-routes compiles a Swagger 2.0 API document into a route table.
There is one route per (path, HTTP verb) with a resolved handler. Each route
carries its parameter validators and its security bindings. The repository
holds two generations of this logic, and both are modelled here:

- **Newer generation.**
  - `lib/builders/routes.js`: the route builder; its `pathfinder` and `matchpath` walk the handler tree, with an `x-handler` fallback.
  - `lib/builders/security.js`: the security binder. It checks the requested schemes and scopes against `securityDefinitions` and resolves `authorize` handlers.
  - `lib/validator.js`: the parameter layer. It covers the `$ref` walker `refresolver`, the coercion table with `pathsep` and `normalizetype`, the schema choice and flags of `make`, and the coercion and error rewriting of `validate`.
- **Older generation.**
  - `lib/buildroutes.js`: the fixed verb order, the `'$' + verb` handler keys, one validator per path-level parameter, and the path-name split.
  - `lib/validation.js`: `inputValidator` with its required/absent decision and message formats, the primitive type check `map`, `jsontype`, and its own coercion table.
- **Shared.** `lib/utils.js`: the `verbs` list and the string helpers `endsWith`, `prefix`, `unprefix`, `suffix` and `unsuffix`.

JavaScript values are the datatype `Js.Value`:

- `undefined`, `null`, booleans, integers, strings, arrays, functions;
- objects, as ordered member lists, because the newer builder follows document key order.

A thrown exception (a `TypeError` from reading a property of `undefined`, or
a failed `assert`) is the `Err` case of `Js.Result`. Everything outside the
core is a field of `Externals.Host`, a record of arbitrary functions passed
in as a parameter:

- module resolution (`Utils.resolve`);
- `path.join`;
- the Joi and tv4 validators;
- `new Buffer(data)[0]` and `Date.parse`.

Files and modules:

| file | module | models |
|---|---|---|
| `js.dfy` | `Js` | values, truthiness, `typeof`, property reads, `Object.keys`, `String(v)`, `Number(v)` |
| `strings.dfy` | `Strings` | `indexOf`, `split`/`join` on one character, `replace` of the first match, decimal numbers |
| `wrappers.dfy` | `Wrappers` | `Option` |
| `externals.dfy` | `Externals` | the host functions and the Joi result type |
| `folds.dfy` | `Folds` | nested `forEach` loops that push, as `ForEach` over a callback function |
| `utils.dfy` | `Utils` | `lib/utils.js` |
| `security.dfy` | `Security` | `lib/builders/security.js` |
| `routes.dfy` | `Routes` | `lib/builders/routes.js` |
| `validator.dfy` | `Validator` | `lib/validator.js` |
| `buildroutes.dfy` | `LegacyRoutes` | `lib/buildroutes.js` |
| `validation.dfy` | `Validation` | `lib/validation.js` |

Loops and in-place updates are methods. Each is proved equal to a
specification function, and the lemmas state the properties of that function:

- the `forEach` loops;
- the `shift` of `pathnames`;
- the field-by-field building of `securityObj[defName]`;
- the rewriting of a Joi error's message and details, through the class `Validator.ValidationError`.

Behaviours of the code as written that are worth noting:

- `refresolver` only asserts that the root schema exists. A segment that does not resolve gives a falsy fragment, not an error (`Validator.Resolved`).
- The newer boolean coercion (lib/validator.js:205-209) turns every value other than `'true'`, `'1'` and `true` into `false`; it passes nothing through. The `multi` format splits on `'&'`.
- Coercion is skipped for every falsy value, not only for `undefined` and `null`.
- The empty-object rule also applies to an empty array, because `isObject` holds for arrays.
- In `lib/validation.js`, `'tsv'` falls through to `'pipes'` and splits on `'|'`. Boolean coercion there is `Boolean`, so a coerced value is always `true`.
- The newer builder tries the handler tree before `x-handler`. Its routes follow document key order, not verb order.
- The older builder uses only the path-level `parameters`; no parameter lists are merged. It looks up handlers under `'$' + verb`.
- The builders can also throw `TypeError`s, for example for a missing parameter or operation object, not only for unresolved references.

## Model

| member | source | states |
|---|---|---|
| Utils.VerbsShape | lib/utils.js:8-18 | the verb list has nine distinct lower-case verbs, in the fixed order |
| Utils.VerbIndex | lib/utils.js:8-18 | the position of a listed verb, at which the list holds that verb |
| Utils.EndsWithEmpty | lib/utils.js:20-23 | `endsWith` is false when either argument is missing or empty |
| Utils.EndsWithIff | lib/utils.js:25-29 | otherwise `endsWith` holds iff the last \|needle\| characters are the needle; the one-character shortcut agrees |
| Utils.SliceFrom | lib/utils.js:29 | `slice` from an in-range start is the suffix from there, and never longer than the string |
| Utils.Prefix | lib/utils.js:32-40 | the result always starts with `pre` |
| Utils.PrefixKeeps | lib/utils.js:33-36 | a string that already starts with `pre` is returned unchanged |
| Utils.PrefixIdempotent | lib/utils.js:32-40 | prefixing twice is prefixing once |
| Utils.Unprefix | lib/utils.js:42-50 | one leading `pre` is dropped when present, otherwise the string is unchanged |
| Utils.UnprefixPrefix | lib/utils.js:32-50 | `unprefix` undoes `prefix` on a string that did not start with `pre` |
| Utils.Suffix | lib/utils.js:52-60 | the result starts with the given string and, for a non-empty `suff`, ends with `suff` |
| Utils.SuffixKeeps | lib/utils.js:52-60 | a string that already ends with a non-empty `suff` is returned unchanged |
| Utils.SuffixIdempotent | lib/utils.js:52-60 | suffixing twice is suffixing once |
| Utils.Unsuffix | lib/utils.js:62-70 | one trailing `suff` is dropped when present, otherwise the string is unchanged |
| Utils.UnsuffixSuffix | lib/utils.js:52-70 | `unsuffix` undoes `suffix` on a string that did not end with `suff` |
| Utils.MissingIsEmpty | lib/utils.js:32-70 | a missing `str` behaves as `''` in all four helpers |
| Security.CheckScope | lib/builders/security.js:34 | the scope assertion passes iff the scope is a string naming a key of the scheme's `scopes` |
| Security.IndexOfValue | lib/builders/security.js:34 | `indexOf(x) > -1` iff `x` is in the list |
| Security.CheckScopeList | lib/builders/security.js:33-35 | the scope loop gives the scope checks in list order; the first failure aborts it |
| Security.CheckScopesSound | lib/builders/security.js:33-35 | the scope checks pass iff every scope is a declared string scope |
| Security.CheckScopesAbort | lib/builders/security.js:33-35 | once a prefix of the scope list fails, the whole loop fails the same way |
| Security.BindSchemeEntry | lib/builders/security.js:26-45 | building `securityObj[defName]` field by field gives the scheme's binding or its error |
| Security.BindSchemeSound | lib/builders/security.js:26-45 | a bound scheme is defined; its `scopes` is the requirement's list verbatim, and each scope is declared; `authorize` comes from `x-authorize`, else from the security directory, else is absent |
| Security.BindRequirement | lib/builders/security.js:25-46 | the loop over one requirement object's schemes binds each of them in key order |
| Security.BindNamesSound | lib/builders/security.js:25-46 | one requirement object adds exactly its scheme names; each gets its own binding, and other entries stay unchanged |
| Security.BindNamesAbort | lib/builders/security.js:25-46 | a failing scheme aborts the rest of the object |
| Security.BindRequirements | lib/builders/security.js:23-47 | the loop over the requirement list binds the objects in order |
| Security.BindAllAbort | lib/builders/security.js:23-47 | a failing requirement object aborts the rest of the list |
| Security.LastNaming | lib/builders/security.js:29 | the last requirement object naming a scheme, or -1 when none does |
| Security.BindAllSound | lib/builders/security.js:23-47 | the output keys are exactly the named schemes; each binding comes from the LAST object naming it, and every named scheme bound |
| Security.Buildsecurity | lib/builders/security.js:15-50 | the binder returns `undefined`, the security object, or the assertion failure |
| Security.Unsecured | lib/builders/security.js:19-21 | missing definitions, a missing requirement or a non-array requirement gives `undefined`, not an error |
| Security.EmptyRequirementList | lib/builders/security.js:16-49 | an empty requirement list gives an empty object, not `undefined` |
| Security.SecuritySound | lib/builders/security.js:15-50 | output keys are the schemes some requirement names, each defined, with the last requirement's scopes verbatim, all declared, and `authorize` from `x-authorize`, else from the security directory (`<security>/<name>.js` resolved against `basedir`), else absent |
| Security.BadRequirementFails | lib/builders/security.js:25-35 | an undefined scheme, or a non-list or undeclared scope, anywhere in the list makes the binder fail |
| Security.OneScheme | lib/builders/security.js:23-46 | a single requirement naming one scheme gives that scheme's binding, or its error |
| Security.UnknownSchemeMessage | lib/builders/security.js:27 | the assertion names the undefined scheme: `Unrecognized security definition (<name>)` |
| Security.UnknownScopeMessage | lib/builders/security.js:34 | an undeclared scope fails with `Unrecognized scope ( <scope>).` |
| Routes.SegmentsShape | lib/builders/routes.js:56 | every path segment is non-empty and slash-free |
| Routes.LeadingSlash | lib/builders/routes.js:56 | a leading slash adds no segment |
| Routes.TrailingSlash | lib/builders/routes.js:56 | a trailing slash adds no segment |
| Routes.DoubledSlash | lib/builders/routes.js:56 | a doubled slash counts as one |
| Routes.SegmentsOfTemplate | lib/builders/routes.js:56 | the segments of `/s0/…/sn` are s0 … sn |
| Routes.PathNames.constructor | lib/builders/routes.js:56 | the `pathnames` array holds the given segments |
| Routes.PathNames.Shift | lib/builders/routes.js:75 | `shift` removes the first element and leaves the rest |
| Routes.Matchpath | lib/builders/routes.js:70-80 | the recursion, which shifts `pathnames` in place, returns the descent-then-last-segment-else-method handler of the initial segments, and leaves `pathnames` as `Remaining` of them; each recursive call follows a `shift`, so the recursion terminates (the older `matchpath`, lib/buildroutes.js:82-92, is the same text) |
| Routes.RemainingSuffix | lib/builders/routes.js:71-76 | what `matchpath` leaves in `pathnames` (`Remaining`: one element shifted off per level descended) is a suffix of it, never longer |
| Routes.RemainingLast | lib/builders/routes.js:71-76 | when the descent reaches a node, only the last segment is left |
| Routes.WalkDescends | lib/builders/routes.js:71-77 | the descent yields `files[s0]…[sk]` when every node on the way is truthy, and stops (null) otherwise |
| Routes.Pathfinder | lib/builders/routes.js:55-61 | `pathfinder` returns the handler the tree gives for the path and operation |
| Routes.NoTree | lib/builders/routes.js:57-59 | without a handler tree there is no handler |
| Routes.RootPath | lib/builders/routes.js:60 | a path without segments resolves to `files[operation]` |
| Routes.TreeDescent | lib/builders/routes.js:71-79 | with `node = files[s0]…[sn]` all truthy, the handler is `node[sn]` if truthy else `node[operation]`; otherwise null |
| Routes.RouteAt | lib/builders/routes.js:17-47 | an emitted route carries its path and operation key |
| Routes.RouteRecord | lib/builders/routes.js:36-46 | the record carries the path, the verb and the resolved handler |
| Routes.RouteFinish | lib/builders/routes.js:36-46 | the record carries the path, the verb, the handler and the bound security |
| Routes.KeyRoutes | lib/builders/routes.js:17-47 | a key of a path object contributes at most one route |
| Routes.RouteForOperation | lib/builders/routes.js:18-47 | the per-key callback's statements compute that key's route, none, or the exception |
| Routes.BuildRecord | lib/builders/routes.js:36-46 | the record's statements compute the route record for the handler |
| Routes.FinishRecord | lib/builders/routes.js:38-45 | the remaining fields are read from the validators, the operation object and the document |
| Routes.RoutesForPath | lib/builders/routes.js:16-48 | the loop over a path object's keys computes that path's routes in key order |
| Routes.Buildroutes | lib/builders/routes.js:12-51 | the loop over `api.paths` computes the route table in path order |
| Routes.RouteIffHandler | lib/builders/routes.js:21-35 | a route exists for a key iff it is an HTTP verb and a handler resolves |
| Routes.RouteHandlerFields | lib/builders/routes.js:21-43 | an emitted route is for a verb key and carries the truthy handler that resolved |
| Routes.RouteRecordOf | lib/builders/routes.js:35-46 | an emitted route is the record built for its handler |
| Routes.RecordSecurityField | lib/builders/routes.js:41 | `security` is the binder's result for operation, else path, else document security |
| Routes.FinishDocumentFields | lib/builders/routes.js:37-45 | `name`, `description`, `validators`, and `consumes`/`produces` fall back to the document's values |
| Routes.RecordFinish | lib/builders/routes.js:36-46 | a record is finished from the security object bound for it |
| Routes.RouteFields | lib/builders/routes.js:36-46 | where every field of an emitted route comes from |
| Routes.HandlerPrecedence | lib/builders/routes.js:26-33 | the tree's handler wins; else the operation's `x-handler`, else the path's, resolved against `basedir` |
| Routes.SecurityFallback | lib/builders/routes.js:41 | the requirement is the first truthy of operation, path and document security |
| Routes.KeyContribution | lib/builders/routes.js:17-47 | the contribution of the j-th key is that key's route list |
| Routes.KeyRouteAt | lib/builders/routes.js:17-47 | an element of the j-th key's contribution is that key's route |
| Routes.PathRoutesOrigin | lib/builders/routes.js:17-47 | each route of a path comes from one of its keys |
| Routes.PathRoutesComplete | lib/builders/routes.js:17-47 | no key is skipped, and every route a key has is kept |
| Routes.PathRoutesOrder | lib/builders/routes.js:17-47 | a path's routes follow the key order of its path object |
| Routes.PathContribution | lib/builders/routes.js:15-49 | the i-th path contributes its route list, whose routes carry that path |
| Routes.AllRoutesOrigin | lib/builders/routes.js:15-49 | each route comes from a key of one of the paths |
| Routes.AllRoutesComplete | lib/builders/routes.js:15-49 | no path is skipped, and all its routes appear |
| Routes.AllRoutesOrder | lib/builders/routes.js:15-49 | routes follow path order and, for distinct paths, key order |
| Routes.RouteTableOrigin | lib/builders/routes.js:15-49 | every route is an HTTP-verb key of a document path with a resolved handler |
| Routes.RouteListed | lib/builders/routes.js:15-49 | every verb key with a resolved handler has its route in the table |
| Routes.RouteTable | lib/builders/routes.js:15-49 | the route table is sound, complete and ordered as above |
| LegacyRoutes.ParameterModel | lib/buildroutes.js:49 | `models && models[parameter.type]`; throws only on a missing parameter when models exist |
| LegacyRoutes.ValidatorFor | lib/buildroutes.js:49-54 | the entry holds its parameter |
| LegacyRoutes.ValidatorStep | lib/buildroutes.js:49-54 | the parameter callback's statements compute that parameter's entry |
| LegacyRoutes.ValidatorsEach | lib/buildroutes.js:48-55 | the loop's entries are one per parameter, in order |
| LegacyRoutes.BuildValidators | lib/buildroutes.js:48-55 | the `def.parameters.forEach` loop computes the validator list |
| LegacyRoutes.ValidatorsExact | lib/buildroutes.js:48-55 | exactly one entry per path-level parameter, in declaration order, each holding its parameter; none when the list is missing |
| LegacyRoutes.Pathnames | lib/buildroutes.js:57-64 | the loop collects the non-empty `'/'`-separated segments in order |
| LegacyRoutes.HandlerOf | lib/buildroutes.js:66 | the lookup throws exactly when the handler tree is `undefined` or `null` |
| LegacyRoutes.HandlerLookup | lib/buildroutes.js:66-92 | with `node = handlers[s0]…[sn]` all truthy, the handler is `node[sn]` if truthy else `node['$' + verb]`; otherwise null |
| LegacyRoutes.ReachableFromFirst | lib/buildroutes.js:86-89 | descending from `handlers[s0]` along s1 … sn is descending from `handlers` along s0 … sn |
| LegacyRoutes.VerbRoute | lib/buildroutes.js:30-69 | a verb's route carries its path and verb |
| LegacyRoutes.VerbRecord | lib/buildroutes.js:36-55 | the record built for a declared operation carries its path and verb |
| LegacyRoutes.VerbKept | lib/buildroutes.js:66-68 | a kept route is the draft with the handler filled in |
| LegacyRoutes.RouteForVerb | lib/buildroutes.js:28-69 | the verb callback's statements compute that verb's route, none, or the exception |
| LegacyRoutes.RecordForVerb | lib/buildroutes.js:36-55 | the record is created with no validators and no handler, then filled with the validators |
| LegacyRoutes.KeepForVerb | lib/buildroutes.js:66-68 | the handler is set and the route is pushed only when it is truthy |
| LegacyRoutes.RoutesForPath | lib/buildroutes.js:27-69 | the loop over the verb list computes a path's routes |
| LegacyRoutes.BuildroutesOver | lib/buildroutes.js:20-70 | the loop over `api.paths` computes the route list |
| LegacyRoutes.Buildroutes | lib/buildroutes.js:12-73 | `buildroutes` is that loop over `utils.verbs` |
| LegacyRoutes.AbsentVerbSkipped | lib/buildroutes.js:30-34 | a verb the path object does not declare yields no route |
| LegacyRoutes.VerbRouteFields | lib/buildroutes.js:36-68 | a kept route has `path`, `name` = operationId, `description`, `method` = verb, `validators`, a truthy `handler`, `produces` |
| LegacyRoutes.DeclaredVerbKept | lib/buildroutes.js:30-68 | a declared verb whose handler is found has its route |
| LegacyRoutes.VerbContribution | lib/buildroutes.js:27-69 | the j-th verb contributes that verb's route list |
| LegacyRoutes.VerbRouteAt | lib/buildroutes.js:27-69 | an element of the j-th verb's contribution is that verb's route |
| LegacyRoutes.VerbRoutesOrigin | lib/buildroutes.js:27-69 | each route of a path comes from one of the verbs |
| LegacyRoutes.VerbRoutesComplete | lib/buildroutes.js:27-69 | no verb is skipped, and every route a verb has is kept |
| LegacyRoutes.VerbRoutesOrder | lib/buildroutes.js:27-69 | a path's routes follow the verb order |
| LegacyRoutes.AtMostDeclared | lib/buildroutes.js:30-68 | a verb contributes at most one route, and none when undeclared |
| LegacyRoutes.VerbRoutesCount | lib/buildroutes.js:27-69 | a path yields at most one route per declared verb |
| LegacyRoutes.PathContribution | lib/buildroutes.js:20-70 | the i-th path contributes its route list, whose routes carry that path |
| LegacyRoutes.AllOrigin | lib/buildroutes.js:20-70 | each route is a verb of one of the paths |
| LegacyRoutes.AllComplete | lib/buildroutes.js:20-70 | no path is skipped, and all its routes appear |
| LegacyRoutes.AllOrder | lib/buildroutes.js:20-70 | routes follow path order and, for distinct paths, verb order |
| LegacyRoutes.AllCount | lib/buildroutes.js:20-70 | there are at most as many routes as declared operations |
| LegacyRoutes.LegacyOrigin | lib/buildroutes.js:12-73 | every route is a declared operation of the document with a truthy handler |
| LegacyRoutes.LegacyComplete | lib/buildroutes.js:12-73 | every (path, verb) pair is visited, and each route it has is listed |
| LegacyRoutes.LegacyOrder | lib/buildroutes.js:12-73 | routes follow path order and, for distinct paths, the order of `utils.verbs` |
| LegacyRoutes.LegacyRouteTable | lib/buildroutes.js:12-73 | the route list is sound, complete, ordered, and no longer than the declared operation count |
| Validation.Jsontype | lib/validation.js:123-140 | the result is one of the five `typeof` names the switch produces |
| Validation.JsontypeTable | lib/validation.js:123-140 | the whole switch, both directions; everything else maps to `'undefined'` |
| Validation.TypeOfNeverArray | lib/validation.js:102-105 | `typeof` is never `'array'`, and is `'undefined'` only for `undefined` |
| Validation.ErrorObject | lib/validation.js:106 | the error is truthy, with the message and no `dataPath` |
| Validation.TypeCheck | lib/validation.js:94-116 | a string model, or an object model against a primitive, fails iff `typeof` differs from the expected type |
| Validation.TypeErrorMessage | lib/validation.js:106 | the message is `invalid type: <actual> (expected <model>)` |
| Validation.SchemaCheck | lib/validation.js:109-112 | any other model goes to tv4, and its error is passed on when invalid |
| Validation.CoercionOf | lib/validation.js:147-211 | there is no coercion iff the type has no case and there is no schema |
| Validation.Separator | lib/validation.js:154-169 | a separator, when there is one, is one of `,`, space, `\|`, `&`; an unknown format has none |
| Validation.SeparatorTable | lib/validation.js:154-169 | csv (and the default) `,`, ssv space, tsv AND pipes `\|`, multi `&`, both directions |
| Validation.Coerce | lib/validation.js:150-208 | coercion throws iff an array parameter's value is not a string |
| Validation.SplitListJoin | lib/validation.js:152-171 | splitting the joined list of separator-free strings gives the list back |
| Validation.NumericCoercion | lib/validation.js:177-182 | a value `Number` cannot read is unchanged; any other value is read |
| Validation.BooleanCoercionTrue | lib/validation.js:192-193 | `Boolean` of a value that gets coerced (a truthy one) is `true` |
| Validation.ArrayModel | lib/validation.js:17-18 | the replacement model is an object with exactly the keys `type` and `items`, read from the parameter |
| Validation.Input | lib/validation.js:14-23 | throws iff the parameter is missing; keeps the parameter and its coercion; a string model `'array'` becomes `ArrayModel`, another truthy model is kept, and a falsy one becomes `parameter.type` |
| Validation.Coerced | lib/validation.js:25 | a falsy value, or one without coercion, is not coerced |
| Validation.ValidateInput | lib/validation.js:24-54 | the validator throws iff the coercion throws |
| Validation.AbsentValue | lib/validation.js:27-35 | an absent value fails with `required parameter '<name>' missing.` iff required, else it is accepted |
| Validation.PresentValue | lib/validation.js:37-53 | a present value is accepted (coerced) iff the check gives no error, else rejected with `<message> (at <path>)` |
| Validation.TypeFailureAtRoot | lib/validation.js:41 | a type error is reported `(at /)` |
| Validation.EmptyObjectIsAbsent | lib/validation.js:201-208 | with a schema and no coercion, `{}` becomes `null` and is treated as absent |
| Validation.PresentBooleanIsTrue | lib/validation.js:25 | a present boolean parameter reaches the check as `true` |
| Validation.ArrayTypeNameRejects | lib/validation.js:17-21 | an array parameter without a model never accepts a present value |
| Validator.Entry | lib/validator.js:147 | `schemas[key]`, `undefined` for a missing key |
| Validator.AssignAll | lib/validator.js:28-30 | the `forEach` copies each key's value into the table, in order |
| Validator.BuildSchemas | lib/validator.js:24-30 | the table is `'#'` → the API plus the entries of `options.schemas` |
| Validator.AssignedEntries | lib/validator.js:28-30 | after the copy, a key is present iff it was before or was copied; copied keys hold the copied value, and others are unchanged |
| Validator.SchemasEntries | lib/validator.js:24-30 | the table holds exactly `'#'` and the extra keys; an extra key maps to its schema, and `'#'` otherwise maps to the API |
| Validator.Refresolver | lib/validator.js:140-163 | the method, with its loop, computes the JSON Pointer walk of the `$ref` fragment: a TypeError for a non-string, an assertion failure for a missing root, else the walk |
| Validator.ResolveWithId | lib/validator.js:143-162 | `name#path` starts at `schemas['name#'] \|\| schemas['name']`, walks the segments after the first, and fails when that root is missing |
| Validator.ResolveWithoutId | lib/validator.js:143-162 | a reference without `'#'` starts at `schemas['#']` |
| Validator.PointerSegments | lib/validator.js:156 | `/a/b` splits into `''`, `a`, `b` |
| Validator.PointerReference | lib/validator.js:140-163 | `#/a/b` (such as `#/definitions/Pet`) resolves to `root[a][b]` |
| Validator.WalkTwo | lib/validator.js:158-160 | a two-segment walk through objects reads both levels |
| Validator.WalkStops | lib/validator.js:158 | a falsy fragment stops the walk, which never raises |
| Validator.WalkPastScalar | lib/validator.js:159 | a truthy non-object fragment turns into `false` |
| Validator.WalkAppend | lib/validator.js:158-160 | walking `a + b` is walking `a`, then `b` |
| Validator.Pathsep | lib/validator.js:254-267 | a separator, when there is one, is one of the five listed |
| Validator.PathsepTable | lib/validator.js:254-267 | csv `,`, ssv space, tsv tab, pipes `\|`, multi `&`, anything else none, both directions |
| Validator.NormalizetypeTable | lib/validator.js:238-252 | long/byte → integer, float/double → number, date/dateTime → string, all else unchanged; idempotent |
| Validator.CoercionOf | lib/validator.js:170-236 | throws iff the parameter is missing; no coercion iff the type has no case and there is no schema |
| Validator.FileCoercion | lib/validator.js:214-223 | a file parameter wraps with the route's `consumes` and its own `in` |
| Validator.SchemaCoercion | lib/validator.js:226-233 | a parameter with a schema and no type case gets the empty-to-`undefined` rule |
| Validator.Coerce | lib/validator.js:174-233 | coercion throws iff an array parameter's value is neither an array nor a string |
| Validator.ArrayPassesThrough | lib/validator.js:178-180 | an array is returned unchanged |
| Validator.ArrayJoinRoundTrip | lib/validator.js:182-183 | joining separator-free strings with the format's separator and coercing gives the list back |
| Validator.CsvByDefault | lib/validator.js:182 | without a collection format the separator is `,` |
| Validator.BooleanCoercion | lib/validator.js:206-208 | `true` exactly for `'true'`, `'1'` and `true`; `false` for everything else |
| Validator.NumericCoercion | lib/validator.js:190-195 | a value `Number` cannot read is unchanged; any other value is read |
| Validator.EmptyBecomesUndefined | lib/validator.js:227-232 | `{}` and `[]` become `undefined`; every other value is unchanged |
| Validator.FileWrapping | lib/validator.js:215-221 | a file value becomes `{value, consumes, in}` |
| Validator.TemplateMembers | lib/validator.js:62-82 | the template's keys are the listed keywords |
| Validator.TemplateMembersAt | lib/validator.js:62-82 | each keyword reads the parameter's value, with `type` normalized |
| Validator.TemplateReads | lib/validator.js:62-82 | the template has the nineteen keywords; `template.type` is the normalized type and `template.schema` the parameter's schema |
| Validator.EnjoiSchema | lib/validator.js:84-107 | the statements choose the source and apply `required`, `allow('')` and `unknown(false)` |
| Validator.Dereference | lib/validator.js:56-58 | the parameter, or what its truthy `$ref` resolves to |
| Validator.Make | lib/validator.js:53-130 | `make` computes the validator or the exception |
| Validator.MakeFails | lib/validator.js:56-60 | `make` throws iff the parameter, or its resolved target, is missing or the reference fails |
| Validator.MakeSchema | lib/validator.js:56-107 | the validator holds the resolved parameter and its coercion; the schema is the parameter's own for body/formData with a schema, else the template; required follows the parameter; allowEmptyValue is ignored in the body; strip sets `unknown(false)` |
| Validator.MakeAll | lib/validator.js:38-46 | the loop builds one validator per key |
| Validator.MakeAllEach | lib/validator.js:38-46 | one validator per key of `validators`, in order, each made with `route.consumes` |
| Validator.ValidationError.constructor | lib/validator.js:115 | the error holds Joi's message and details |
| Validator.ValidationError.Rewrite | lib/validator.js:117-122 | the message is renamed; every detail's message is renamed and its path set to `[name]` |
| Validator.Validate | lib/validator.js:112-128 | `validate` computes the callback's outcome or the coercion's exception |
| Validator.FalsyNotCoerced | lib/validator.js:113-114 | a falsy value reaches Joi uncoerced |
| Validator.ValidateThrows | lib/validator.js:113 | `validate` throws iff an array coercion meets a truthy value that is neither an array nor a string |
| Validator.FailureRewritten | lib/validator.js:115-124 | details keep their number and order; every path is `[name]`; a message without `'value'` is unchanged; otherwise it is the text before the first `'value'`, then the name, then the text after it |
| Validator.RenamedQuoted | lib/validator.js:117-120 | a message `"value" …` becomes `"<name>" …`, for example `"value" is required` for `id` becomes `"id" is required` |
| Validator.ReportedKind | lib/validator.js:115-127 | the callback gets an error iff Joi reports one, else Joi's value |
| Strings.IndexOf | lib/validator.js:143 | `indexOf` is -1 iff the pattern is absent, else its first occurrence |
| Strings.IndexOfFirstChar | lib/validator.js:143 | the first `'#'` of `a#b` (no `'#'` in `a`) is at `\|a\|` |
| Strings.ReplaceFirst | lib/validator.js:117 | `replace` with a string pattern changes nothing when the pattern is absent; otherwise the replacement stands at the first occurrence and the text before and after that occurrence is kept |
| Strings.ReplaceFirstSplice | lib/validator.js:117 | the result is the text before the first occurrence, the replacement, and the text after it |
| Strings.SplitJoin | lib/validator.js:182-183 | splitting undoes joining, for separator-free pieces |
| Strings.SplitPiecesFree | lib/validator.js:183 | no piece of `split` contains the separator |
| Strings.NonEmpty | lib/builders/routes.js:56 | `filter(el => el)` keeps only non-empty pieces, never more than it is given |

## Left out

- I/O and asynchrony, which have no model:
  - reading the handler directory (`readhandlers`, and `merge-object-files` in the newer builder), whose result is the input `handlers`/`files`;
  - the promise plumbing of `Buildroutes`;
  - `debuglog` output, and `util.format` beyond the message formats written out.
- JavaScript's ordering of integer-like object keys: `Js` objects keep every member in insertion order, whereas `Object.keys` lists integer-like keys first, in ascending order.
- The validator library `openapi-param-validator`, used by the newer builder. Its result is the input `validators` of `Routes.Context`.
- Joi, enjoi and tv4 are oracles (`Host.joiValidate`, `Host.tv4Validate`). `Validator.Make`: the enjoi schema is the record of its source, its sub-schemas and the three flags applied. The `extensions` for files are not modelled.
- Module resolution (`Utils.resolve`) and `path.join` are host functions.
- Numbers are integers. `Number(v)` is modelled for optional-sign decimal digits and `''`; every other numeric syntax is NaN here. `Validator.Coerce` and `Validation.Coerce` therefore do not model fractions, exponents or hexadecimal. `Date.parse` and `new Buffer(data)[0]` are host functions.
- Property reads see own members only. Inherited properties and methods of `Object.prototype` are not modelled.
- `Security.Buildsecurity`: the security object is a map from scheme name to binding, so the insertion order of its keys is lost. That order is what `Object.keys(route.security)` would report.
- `Strings.ReplaceFirst`: `$` patterns in the replacement string are not interpreted.
- `Js.ToStr`: a function value is rendered as a fixed placeholder, not as its source text.
- `Validator.ValidationError.Rewrite`: the error's detail objects are values, so aliasing between the details and other references is not modelled.
- `Validator.MakeAll` passes `undefined` as `stripUnknownProperties`, as the code does; the other strip values are covered by `Validator.Make`.
- `Validator.Refresolver`: the `Array.isArray(path)` alternative is dead code, because the path is always a string, and it is not modelled.
- `LegacyRoutes.Buildroutes`: the operation-level `model` computed at lib/buildroutes.js:46 is never used, and it is not modelled. The verb list is a parameter of `BuildroutesOver`; `Buildroutes` fixes it to `utils.verbs`.
- The `forEach` callbacks are functions, which the loops (`Folds.ForEach`) apply. Each callback is also written as statements in a method proved equal to it, such as `Routes.RouteForOperation`, `LegacyRoutes.RouteForVerb` and `LegacyRoutes.ValidatorStep`. Dafny methods are not values, so the loops apply the functions instead of calling those methods.
- `outputValidator` (lib/validation.js:62-87), `lib/schema/index.js`, `lib/index.js` and `lib/readhandlers.js` are not part of this model.
