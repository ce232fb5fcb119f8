/**
 The parameter layer of the newer generation (`lib/validator.js`): the table
 of schemas that `$ref`s resolve against, the JSON Pointer walk of a `$ref`
 fragment (`refresolver`), the coercion table with `pathsep` and
 `normalizetype`, the choice of the schema `make` hands to enjoi, and `validate`, which coerces a truthy value, asks the
 Joi validator (an oracle of the host) and rewrites the messages and paths of
 a failure.
 */
module Validator {
  import opened Wrappers
  import opened Strings
  import opened Js
  import opened Externals
  import opened Folds

  // ---------------------------------------------------------------------
  // The schemas table: `validator(options)`

  /** `schemas[key]`: the entry, or `undefined` for a key the table lacks. */
  function Entry(schemas: map<string, Value>, key: string): (r: Value)
    ensures key in schemas ==> r == schemas[key]
    ensures key !in schemas ==> r == Undef
  {
    if key in schemas then schemas[key] else Undef
  }

  /** `schemas[key] = options.schemas[key]` for each of `keys`, in order. */
  function Assigned(table: map<string, Value>, extra: Value, keys: seq<string>): map<string, Value> {
    if |keys| == 0 then table
    else Assigned(table, extra, keys[..|keys| - 1])[keys[|keys| - 1] := Get(extra, keys[|keys| - 1])]
  }

  /** The table `validator(options)` builds from `options.api` and `options.schemas`. */
  function SchemasOf(api: Value, extra: Value): map<string, Value> {
    if Truthy(extra) then Assigned(map["#" := api], extra, Keys(extra)) else map["#" := api]
  }

  /** The `forEach` that copies `options.schemas[key]` into the table for each key. */
  method AssignAll(table: map<string, Value>, extra: Value, keys: seq<string>) returns (r: map<string, Value>)
    ensures r == Assigned(table, extra, keys)
  {
    r := table;
    var i := 0;
    while i < |keys|
      invariant 0 <= i <= |keys|
      invariant r == Assigned(table, extra, keys[..i])
    {
      assert keys[..i + 1][..i] == keys[..i];
      r := r[keys[i] := Get(extra, keys[i])];
      i := i + 1;
    }
    assert keys[..i] == keys;
  }

  /**
   `schemas['#'] = options.api`, then `options.schemas && Object.keys(options.schemas).forEach(...)`.
   A truthy value is neither `undefined` nor `null`, so `Object.keys` does
   not throw here.
   */
  method BuildSchemas(api: Value, extra: Value) returns (schemas: map<string, Value>)
    ensures schemas == SchemasOf(api, extra)
  {
    schemas := map["#" := api];
    if Truthy(extra) {
      schemas := AssignAll(schemas, extra, Keys(extra));
    }
  }

  lemma {:induction false} AssignedEntries(table: map<string, Value>, extra: Value, keys: seq<string>, key: string)
    ensures key in Assigned(table, extra, keys) <==> key in table || key in keys
    ensures key in keys ==> Assigned(table, extra, keys)[key] == Get(extra, key)
    ensures key !in keys && key in table ==> Assigned(table, extra, keys)[key] == table[key]
  {
    if |keys| > 0 {
      var n := |keys| - 1;
      assert keys == keys[..n] + [keys[n]];
      AssignedEntries(table, extra, keys[..n], key);
    }
  }

  /**
   The table holds `'#'` and every key of `options.schemas`, and nothing else;
   such a key maps to its value there (a `'#'` among them replaces the API
   document), and `'#'` otherwise maps to the API document.
   */
  lemma SchemasEntries(api: Value, extra: Value, key: string)
    ensures var named := if Truthy(extra) then Keys(extra) else [];
            && (key in SchemasOf(api, extra) <==> key == "#" || key in named)
            && (key in named ==> SchemasOf(api, extra)[key] == Get(extra, key))
            && (key == "#" && key !in named ==> SchemasOf(api, extra)[key] == api)
  {
    if Truthy(extra) {
      AssignedEntries(map["#" := api], extra, Keys(extra), key);
    }
  }

  // ---------------------------------------------------------------------
  // `refresolver(schemas, value)`

  /** `value.substr(0, value.indexOf('#') + 1)`: up to and including the first `'#'`, or empty. */
  function RefId(ref: string): string {
    var h := IndexOf(ref, "#");
    if h < 0 then "" else ref[..h + 1]
  }

  /** `value.substr(value.indexOf('#') + 1)`: after the first `'#'`, or the whole reference. */
  function RefPath(ref: string): string {
    var h := IndexOf(ref, "#");
    if h < 0 then ref else ref[h + 1..]
  }

  /** `schemas[id] || schemas[id without its '#']`, or `schemas['#']` when the id is empty. */
  function RootSchema(schemas: map<string, Value>, id: string): Value {
    if id != "" then Or(Entry(schemas, id), Entry(schemas, id[..|id| - 1])) else Entry(schemas, "#")
  }

  /** One turn of the walk: `typeof fragment === 'object' && fragment[segment]`. */
  function StepInto(fragment: Value, segment: string): Value {
    if TypeOf(fragment) == "object" then Get(fragment, segment) else Bool(false)
  }

  /** The loop over the segments, which stops as soon as the fragment is falsy. */
  function Walk(fragment: Value, segments: seq<string>): Value
    decreases |segments|
  {
    if |segments| == 0 || !Truthy(fragment) then fragment
    else Walk(StepInto(fragment, segments[0]), segments[1..])
  }

  function MissingReference(ref: string): string {
    "Can not find schema reference: " + ref + "."
  }

  /**
   What `refresolver` returns: a reference without `indexOf`/`substr` (not a
   string) throws a TypeError, a missing root schema fails the assertion, and
   otherwise the walk follows the `'/'`-separated segments after the first.
   */
  function Resolved(schemas: map<string, Value>, ref: Value): Result<Value> {
    if !ref.Str? then Err(TypeError)
    else
      var root := RootSchema(schemas, RefId(ref.s));
      if !Truthy(root) then Err(AssertionError(MissingReference(ref.s)))
      else Ok(Walk(root, Split(RefPath(ref.s), '/')[1..]))
  }

  /** The `for` loop of `refresolver` over the segments after the first. */
  method WalkSegments(refschema: Value, paths: seq<string>) returns (fragment: Value)
    requires |paths| >= 1
    ensures fragment == Walk(refschema, paths[1..])
  {
    fragment := refschema;
    var i := 1;
    while i < |paths| && Truthy(fragment)
      invariant 1 <= i <= |paths|
      invariant Walk(fragment, paths[i..]) == Walk(refschema, paths[1..])
    {
      assert paths[i..][1..] == paths[i + 1..];
      fragment := StepInto(fragment, paths[i]);
      i := i + 1;
    }
  }

  /**
   `refresolver(schemas, value)`. The path is always a string, so the
   `Array.isArray(path)` alternative never applies.
   */
  method Refresolver(schemas: map<string, Value>, ref: Value) returns (r: Result<Value>)
    ensures r == Resolved(schemas, ref)
  {
    if !ref.Str? {
      return Err(TypeError);
    }
    var value := ref.s;
    var h := IndexOf(value, "#");
    var id := if h < 0 then "" else value[..h + 1];
    var path := if h < 0 then value else value[h + 1..];
    assert id == RefId(value) && path == RefPath(value);
    var refschema: Value;
    if id != "" {
      refschema := Or(Entry(schemas, id), Entry(schemas, id[..|id| - 1]));
    } else {
      refschema := Entry(schemas, "#");
    }
    assert refschema == RootSchema(schemas, id);
    if !Truthy(refschema) {
      return Err(AssertionError(MissingReference(value)));
    }
    var fragment := WalkSegments(refschema, Split(path, '/'));
    return Ok(fragment);
  }

  /**
   A reference `name#path` (no `'#'` in `name`) starts from
   `schemas['name#'] || schemas['name']` and walks the segments of `path`
   after the first; a missing root schema is an assertion failure.
   */
  lemma ResolveWithId(schemas: map<string, Value>, name: string, path: string)
    requires '#' !in name
    ensures var root := Or(Entry(schemas, name + "#"), Entry(schemas, name));
            Resolved(schemas, Str(name + "#" + path)) ==
              if Truthy(root) then Ok(Walk(root, Split(path, '/')[1..]))
              else Err(AssertionError(MissingReference(name + "#" + path)))
  {
    var ref := name + "#" + path;
    IndexOfFirstChar(name, '#', path);
    assert ref[..|name| + 1] == name + "#";
    assert ref[|name| + 1..] == path;
    assert (name + "#")[..|name|] == name;
  }

  /** A reference without `'#'` starts from `schemas['#']` and walks its own segments after the first. */
  lemma ResolveWithoutId(schemas: map<string, Value>, ref: string)
    requires '#' !in ref
    ensures var root := Entry(schemas, "#");
            Resolved(schemas, Str(ref)) ==
              if Truthy(root) then Ok(Walk(root, Split(ref, '/')[1..]))
              else Err(AssertionError(MissingReference(ref)))
  {
    IndexOfAbsentChar(ref, '#');
    assert RefId(ref) == "" && RefPath(ref) == ref;
  }

  /** Once the fragment is falsy the walk stops there, and it never raises. */
  lemma WalkStops(fragment: Value, segments: seq<string>)
    requires !Truthy(fragment)
    ensures Walk(fragment, segments) == fragment
  {
  }

  /** A truthy fragment that is not an object turns the walk into `false`. */
  lemma WalkPastScalar(fragment: Value, segments: seq<string>)
    requires Truthy(fragment) && TypeOf(fragment) != "object" && |segments| > 0
    ensures Walk(fragment, segments) == Bool(false)
  {
  }

  /** Walking `a` and then `b` is walking `a + b`. */
  lemma {:induction false} WalkAppend(fragment: Value, a: seq<string>, b: seq<string>)
    ensures Walk(fragment, a + b) == Walk(Walk(fragment, a), b)
    decreases |a|
  {
    if |a| == 0 {
      assert a + b == b;
    } else if Truthy(fragment) {
      assert (a + b)[0] == a[0];
      assert (a + b)[1..] == a[1..] + b;
      WalkAppend(StepInto(fragment, a[0]), a[1..], b);
    }
  }

  /** The segments of `/<a>/<b>`, for segments without `'/'`. */
  lemma PointerSegments(a: string, b: string)
    requires '/' !in a && '/' !in b
    ensures Split("/" + a + "/" + b, '/') == ["", a, b]
  {
    assert "/" + a + "/" + b == "" + ['/'] + (a + ['/'] + b);
    SplitAround("", a + ['/'] + b, '/');
    SplitAround(a, b, '/');
    SplitFree("", '/');
    SplitFree(a, '/');
    SplitFree(b, '/');
  }

  /**
   A local two-segment reference `#/<a>/<b>` (segments without `'/'`), such
   as `#/definitions/Pet`, reads `root[a][b]` where the root is
   `schemas['#'] || schemas['']`.
   */
  lemma PointerReference(schemas: map<string, Value>, a: string, b: string)
    requires '/' !in a && '/' !in b
    requires var root := Or(Entry(schemas, "#"), Entry(schemas, ""));
             root.Obj? && Get(root, a).Obj?
    ensures var root := Or(Entry(schemas, "#"), Entry(schemas, ""));
            Resolved(schemas, Str("#/" + a + "/" + b)) == Ok(Get(Get(root, a), b))
  {
    var path := "/" + a + "/" + b;
    var ref := "#/" + a + "/" + b;
    assert ref == "" + ['#'] + path;
    IndexOfFirstChar("", '#', path);
    assert RefId(ref) == "#" by {
      assert ref[..1] == "#";
    }
    assert RefPath(ref) == path by {
      assert ref[1..] == path;
    }
    assert "#"[..0] == "";
    PointerSegments(a, b);
    assert Split(path, '/')[1..] == [a, b];
    WalkTwo(RootSchema(schemas, "#"), a, b);
  }

  lemma WalkTwo(root: Value, a: string, b: string)
    requires root.Obj? && Get(root, a).Obj?
    ensures Walk(root, [a, b]) == Get(Get(root, a), b)
  {
    assert [a, b][1..] == [b];
    assert [b][1..] == [];
    var inner := Get(root, a);
    assert Walk(root, [a, b]) == Walk(inner, [b]);
    assert Walk(inner, [b]) == Walk(Get(inner, b), []);
  }

  // ---------------------------------------------------------------------
  // `pathsep`, `normalizetype` and `coercion`

  /** `pathsep(format)`; a format it does not list has no separator (None). */
  function Pathsep(format: Value): (r: Option<char>)
    ensures r.Some? ==> r.value in {',', ' ', '\t', '|', '&'}
  {
    if format == Str("csv") then Some(',')
    else if format == Str("ssv") then Some(' ')
    else if format == Str("tsv") then Some('\t')
    else if format == Str("pipes") then Some('|')
    else if format == Str("multi") then Some('&')
    else None
  }

  /** Each separator belongs to exactly one collection format. */
  lemma PathsepTable(format: Value)
    ensures Pathsep(format) == Some(',') <==> format == Str("csv")
    ensures Pathsep(format) == Some(' ') <==> format == Str("ssv")
    ensures Pathsep(format) == Some('\t') <==> format == Str("tsv")
    ensures Pathsep(format) == Some('|') <==> format == Str("pipes")
    ensures Pathsep(format) == Some('&') <==> format == Str("multi")
    ensures Pathsep(format) == None <==> !(format.Str? && format.s in {"csv", "ssv", "tsv", "pipes", "multi"})
  {
  }

  /** `normalizetype(type)`: the JSON-schema type enjoi is given for a Swagger type. */
  function Normalizetype(t: Value): Value {
    if t == Str("long") || t == Str("byte") then Str("integer")
    else if t == Str("float") || t == Str("double") then Str("number")
    else if t == Str("date") || t == Str("dateTime") then Str("string")
    else t
  }

  /** The renaming table; every other value is left as it is, so normalizing twice changes nothing. */
  lemma NormalizetypeTable(t: Value)
    ensures t in {Str("long"), Str("byte")} ==> Normalizetype(t) == Str("integer")
    ensures t in {Str("float"), Str("double")} ==> Normalizetype(t) == Str("number")
    ensures t in {Str("date"), Str("dateTime")} ==> Normalizetype(t) == Str("string")
    ensures t !in {Str("long"), Str("byte"), Str("float"), Str("double"), Str("date"), Str("dateTime")} ==>
              Normalizetype(t) == t
    ensures Normalizetype(Normalizetype(t)) == Normalizetype(t)
  {
  }

  /** The coercion functions `coercion(parameter, consumes)` can return. */
  datatype Coercion =
    | SplitArray                                // array: arrays as they are, strings split by `pathsep`
    | Numeric                                   // integer, float, long, double: `isNaN(data) ? data : Number(data)`
    | Stringify                                 // string: `String`
    | ByteValue                                 // byte: `isNaN(data) ? new Buffer(data)[0] : Number(data)`
    | BooleanOf                                 // boolean: `data === 'true' || data === '1' || data === true`
    | DateValue                                 // date, dateTime: `Date.parse`
    | FileWrap(consumes: Value, location: Value) // file: `{value: data, consumes, in: parameter.in}`
    | EmptyToUndefined                          // no type coercion, but a schema

  /** A `type` the coercion switch has a case for. */
  predicate IsCoercedType(t: Value) {
    t.Str? && t.s in {"array", "integer", "float", "long", "double", "string", "byte", "boolean", "date", "dateTime", "file"}
  }

  /**
   `coercion(parameter, consumes)`: None where it returns `undefined`.
   Reading `parameter.type` of `undefined` or `null` throws.
   */
  function CoercionOf(parameter: Value, consumes: Value): (r: Result<Option<Coercion>>)
    ensures r.Err? <==> parameter.Undef? || parameter.Null?
    ensures r.Ok? ==> (r.value == None <==> !IsCoercedType(Get(parameter, "type")) && !Truthy(Get(parameter, "schema")))
  {
    if parameter.Undef? || parameter.Null? then Err(TypeError)
    else
      var t := Get(parameter, "type");
      var typed :=
        if t == Str("array") then Some(SplitArray)
        else if t in {Str("integer"), Str("float"), Str("long"), Str("double")} then Some(Numeric)
        else if t == Str("string") then Some(Stringify)
        else if t == Str("byte") then Some(ByteValue)
        else if t == Str("boolean") then Some(BooleanOf)
        else if t in {Str("date"), Str("dateTime")} then Some(DateValue)
        else if t == Str("file") then Some(FileWrap(consumes, Get(parameter, "in")))
        else None;
      Ok(if typed == None && Truthy(Get(parameter, "schema")) then Some(EmptyToUndefined) else typed)
  }

  /** A file parameter's value is wrapped with the route's `consumes` and the parameter's `in`. */
  lemma FileCoercion(parameter: Value, consumes: Value)
    requires Get(parameter, "type") == Str("file")
    ensures CoercionOf(parameter, consumes) == Ok(Some(FileWrap(consumes, Get(parameter, "in"))))
  {
  }

  /** Without a type the switch knows, a parameter with a schema gets the `{}`-to-`undefined` rule. */
  lemma SchemaCoercion(parameter: Value, consumes: Value)
    requires Get(parameter, "type") != Str("file") && !IsCoercedType(Get(parameter, "type"))
    requires Truthy(Get(parameter, "schema"))
    ensures CoercionOf(parameter, consumes) == Ok(Some(EmptyToUndefined))
  {
  }

  /** The separator for an array parameter: `pathsep(parameter.collectionFormat || 'csv')`. */
  function ArraySeparator(parameter: Value): Option<char> {
    Pathsep(Or(Get(parameter, "collectionFormat"), Str("csv")))
  }

  /**
   Calling the coercion function on `data`. `split` exists only on strings,
   so splitting a value that is neither an array nor a string throws.
   */
  function Coerce(c: Coercion, parameter: Value, data: Value, host: Host): (r: Result<Value>)
    ensures r.Err? <==> c == SplitArray && !data.Arr? && !data.Str?
  {
    match c
    case SplitArray =>
      if data.Arr? then Ok(data)
      else if data.Str? then Ok(Arr(Strs(SplitBy(data.s, ArraySeparator(parameter)))))
      else Err(TypeError)
    case Numeric =>
      (match NumberOf(data)
       case None => Ok(data)
       case Some(n) => Ok(Num(n)))
    case Stringify => Ok(Str(ToStr(data)))
    case ByteValue =>
      (match NumberOf(data)
       case None => Ok(host.bufferFirstByte(data))
       case Some(n) => Ok(Num(n)))
    case BooleanOf => Ok(Bool(data == Str("true") || data == Str("1") || data == Bool(true)))
    case DateValue => Ok(host.dateParse(data))
    case FileWrap(consumes, location) =>
      Ok(Obj([Member("value", data), Member("consumes", consumes), Member("in", location)]))
    case EmptyToUndefined => Ok(if IsObject(data) && |Keys(data)| == 0 then Undef else data)
  }

  /** An array is passed through unchanged. */
  lemma ArrayPassesThrough(parameter: Value, xs: seq<Value>, host: Host)
    ensures Coerce(SplitArray, parameter, Arr(xs), host) == Ok(Arr(xs))
  {
  }

  /**
   Joining separator-free strings with the separator of the parameter's
   collection format (csv when it has none) and coercing gives the list back.
   */
  lemma ArrayJoinRoundTrip(parameter: Value, items: seq<string>, c: char, host: Host)
    requires ArraySeparator(parameter) == Some(c)
    requires |items| >= 1 && forall i :: 0 <= i < |items| ==> c !in items[i]
    ensures Coerce(SplitArray, parameter, Str(Join(items, c)), host) == Ok(Arr(Strs(items)))
  {
    SplitJoin(items, c);
  }

  /** A parameter without a collection format splits on commas. */
  lemma CsvByDefault(parameter: Value)
    requires !Truthy(Get(parameter, "collectionFormat"))
    ensures ArraySeparator(parameter) == Some(',')
  {
  }

  /** Boolean coercion yields `true` exactly for `'true'`, `'1'` and `true`, and `false` for all else. */
  lemma BooleanCoercion(parameter: Value, data: Value, host: Host)
    ensures Coerce(BooleanOf, parameter, data, host) == Ok(Bool(true)) <==>
              data == Str("true") || data == Str("1") || data == Bool(true)
    ensures Coerce(BooleanOf, parameter, data, host) == Ok(Bool(false)) <==>
              !(data == Str("true") || data == Str("1") || data == Bool(true))
  {
  }

  /** A numeric coercion leaves a value `Number` cannot read unchanged, and reads every other one. */
  lemma NumericCoercion(parameter: Value, data: Value, host: Host)
    ensures NumberOf(data).None? ==> Coerce(Numeric, parameter, data, host) == Ok(data)
    ensures NumberOf(data).Some? ==> Coerce(Numeric, parameter, data, host) == Ok(Num(NumberOf(data).value))
  {
  }

  /** Under the schema rule an empty object (or array) becomes `undefined`; anything else is unchanged. */
  lemma EmptyBecomesUndefined(parameter: Value, data: Value, host: Host)
    ensures Coerce(EmptyToUndefined, parameter, data, host) ==
              Ok(if data == Obj([]) || data == Arr([]) then Undef else data)
  {
    if data.Obj? {
      assert |Keys(data)| == |data.members|;
    }
  }

  /** A file value is wrapped as `{value, consumes, in}`. */
  lemma FileWrapping(consumes: Value, location: Value, parameter: Value, data: Value, host: Host)
    ensures var r := Coerce(FileWrap(consumes, location), parameter, data, host);
            && r.Ok? && Keys(r.value) == ["value", "consumes", "in"]
            && Get(r.value, "value") == data
            && Get(r.value, "consumes") == consumes
            && Get(r.value, "in") == location
  {
    var ms := [Member("value", data), Member("consumes", consumes), Member("in", location)];
    assert ms[1..][1..] == [Member("in", location)];
    assert Lookup(ms, "in") == Lookup(ms[1..], "in") == Lookup(ms[1..][1..], "in");
  }

  // ---------------------------------------------------------------------
  // `make(parameter, consumes, stripUnknownProperties)`

  /** The validator `make` returns: the parameter, its enjoi schema, and what `validate` closes over. */
  datatype ParameterValidator = ParameterValidator(
    parameter: Value,
    schema: JoiSchema,
    coerce: Option<Coercion>,
    stripUnknown: Value)

  /** The keywords the `template` object copies from the parameter, in its order. */
  const TemplateKeywords: seq<string> := [
    "required", "enum", "type", "schema", "items", "properties", "pattern", "format",
    "allowEmptyValue", "collectionFormat", "default", "maximum", "minimum", "maxLength",
    "minLength", "maxItems", "minItems", "uniqueItems", "multipleOf"]

  /** The template's value for a keyword: the parameter's, with `type` normalized. */
  function Keyword(p: Value, key: string): Value {
    if key == "type" then Normalizetype(Get(p, "type")) else Get(p, key)
  }

  function TemplateMembers(p: Value, keys: seq<string>): (r: seq<Member>)
    ensures MemberKeys(r) == keys
  {
    seq(|keys|, i requires 0 <= i < |keys| => Member(keys[i], Keyword(p, keys[i])))
  }

  /** The `template` object `make` hands to enjoi when the parameter's own schema is not used. */
  function Template(p: Value): Value {
    Obj(TemplateMembers(p, TemplateKeywords))
  }

  lemma TemplateMembersAt(p: Value, keys: seq<string>, i: nat)
    requires i < |keys| && forall j :: 0 <= j < i ==> keys[j] != keys[i]
    ensures Lookup(TemplateMembers(p, keys), keys[i]) == Keyword(p, keys[i])
  {
    var ms := TemplateMembers(p, keys);
    LookupPast(ms, keys[i], i);
    assert ms[i..][0] == ms[i];
  }

  /**
   The template has exactly the nineteen keywords; `template.type` is the
   parameter's normalized type and `template.schema` its own schema.
   */
  lemma TemplateReads(p: Value)
    ensures Keys(Template(p)) == TemplateKeywords
    ensures Get(Template(p), "type") == Normalizetype(Get(p, "type"))
    ensures Get(Template(p), "schema") == Get(p, "schema")
  {
    var keys := TemplateKeywords;
    assert keys[2] == "type" && keys[3] == "schema";
    assert keys[0] != "type" && keys[1] != "type" && keys[2] != "schema";
    TemplateMembersAt(p, keys, 2);
    TemplateMembersAt(p, keys, 3);
  }

  /** A parameter carried in the body or a form. */
  predicate InBodyOrForm(p: Value) {
    Get(p, "in") == Str("body") || Get(p, "in") == Str("formData")
  }

  /**
   The enjoi schema: the parameter's own schema (`template.schema`, see
   `TemplateReads`) for a body or form parameter that has one, the template
   otherwise; then `.required()`,
   `.allow('').optional()` and `.unknown(false)` where they apply.
   */
  function SchemaFor(schemas: map<string, Value>, p: Value, strip: Value): JoiSchema {
    var source := if InBodyOrForm(p) && Truthy(Get(p, "schema")) then Get(p, "schema") else Template(p);
    JoiSchema(source, schemas,
              Truthy(Get(p, "required")),
              Get(p, "in") != Str("body") && Truthy(Get(p, "allowEmptyValue")),
              Truthy(strip))
  }

  /** The statements of `make` that build the enjoi schema. */
  method EnjoiSchema(schemas: map<string, Value>, p: Value, strip: Value) returns (schema: JoiSchema)
    ensures schema == SchemaFor(schemas, p, strip)
  {
    var source := Template(p);
    if InBodyOrForm(p) && Truthy(Get(p, "schema")) {
      source := Get(p, "schema");
    }
    schema := JoiSchema(source, schemas, false, false, false);
    if Truthy(Get(p, "required")) {
      schema := schema.(required := true);
    }
    if Get(p, "in") != Str("body") && Truthy(Get(p, "allowEmptyValue")) {
      schema := schema.(allowEmpty := true);
    }
    if Truthy(strip) {
      schema := schema.(noUnknown := true);
    }
  }

  /** The parameter `make` works on: the one given, or what its truthy `$ref` resolves to. */
  function Target(schemas: map<string, Value>, parameter: Value): Result<Value> {
    var ref :- Prop(parameter, "$ref");
    if Truthy(ref) then Resolved(schemas, ref) else Ok(parameter)
  }

  /**
   What `make` returns. Reading `$ref` of a missing parameter throws; a truthy
   `$ref` replaces the parameter by what it resolves to, and `coercion`
   throws when that is `undefined` or `null`.
   */
  function MakeOf(schemas: map<string, Value>, parameter: Value, consumes: Value, strip: Value): Result<ParameterValidator> {
    var p :- Target(schemas, parameter);
    ValidatorFor(schemas, p, consumes, strip)
  }

  /** The validator `make` builds once the parameter is known. */
  function ValidatorFor(schemas: map<string, Value>, p: Value, consumes: Value, strip: Value): Result<ParameterValidator> {
    var coerce :- CoercionOf(p, consumes);
    Ok(ParameterValidator(p, SchemaFor(schemas, p, strip), coerce, strip))
  }

  /** `if (parameter.$ref) { parameter = refresolver(schemas, parameter.$ref); }` */
  method Dereference(schemas: map<string, Value>, parameter: Value) returns (r: Result<Value>)
    ensures r == Target(schemas, parameter)
  {
    var ref := Prop(parameter, "$ref");
    if ref.Err? {
      return Err(ref.error);
    }
    r := Ok(parameter);
    if Truthy(ref.value) {
      r := Refresolver(schemas, ref.value);
    }
  }

  /** `make(parameter, consumes, stripUnknownProperties)`. */
  method Make(schemas: map<string, Value>, parameter: Value, consumes: Value, strip: Value)
    returns (r: Result<ParameterValidator>)
    ensures r == MakeOf(schemas, parameter, consumes, strip)
  {
    var target := Dereference(schemas, parameter);
    if target.Err? {
      return Err(target.error);
    }
    var p := target.value;
    assert MakeOf(schemas, parameter, consumes, strip) == ValidatorFor(schemas, p, consumes, strip);
    var coerce := CoercionOf(p, consumes);
    if coerce.Err? {
      return Err(coerce.error);
    }
    var schema := EnjoiSchema(schemas, p, strip);
    return Ok(ParameterValidator(p, schema, coerce.value, strip));
  }

  /** `make` fails exactly when the parameter, or what its `$ref` resolves to, is missing, or the reference does not resolve. */
  lemma MakeFails(schemas: map<string, Value>, parameter: Value, consumes: Value, strip: Value)
    ensures MakeOf(schemas, parameter, consumes, strip).Err? <==>
              || parameter.Undef? || parameter.Null?
              || (var ref := Get(parameter, "$ref");
                  Truthy(ref) &&
                  (Resolved(schemas, ref).Err? || Resolved(schemas, ref).value.Undef? || Resolved(schemas, ref).value.Null?))
  {
    var target := Target(schemas, parameter);
    if target.Ok? {
      var p := target.value;
      assert MakeOf(schemas, parameter, consumes, strip) == ValidatorFor(schemas, p, consumes, strip);
      assert ValidatorFor(schemas, p, consumes, strip).Err? <==> p.Undef? || p.Null?;
    }
  }

  /**
   The validator holds the resolved parameter and its coercion; the schema
   is the parameter's own for a body or form parameter that has one and the
   template otherwise; `required` follows the parameter, `allowEmptyValue`
   is ignored in the body, and the table of schemas is passed along.
   */
  lemma MakeSchema(schemas: map<string, Value>, parameter: Value, consumes: Value, strip: Value, v: ParameterValidator)
    requires MakeOf(schemas, parameter, consumes, strip) == Ok(v)
    ensures var ref := Get(parameter, "$ref");
            v.parameter == if Truthy(ref) then Resolved(schemas, ref).value else parameter
    ensures CoercionOf(v.parameter, consumes) == Ok(v.coerce)
    ensures var p := v.parameter;
            && v.schema.source == (if InBodyOrForm(p) && Truthy(Get(p, "schema")) then Get(p, "schema") else Template(p))
            && v.schema.subSchemas == schemas
            && (v.schema.required <==> Truthy(Get(p, "required")))
            && (Get(p, "in") == Str("body") ==> !v.schema.allowEmpty)
            && (Get(p, "in") != Str("body") ==> (v.schema.allowEmpty <==> Truthy(Get(p, "allowEmptyValue"))))
            && (v.schema.noUnknown <==> Truthy(strip))
  {
    TemplateReads(v.parameter);
  }

  // ---------------------------------------------------------------------
  // `validate(value, callback)`

  /** What a parameter validator reports through its callback. */
  datatype Outcome =
    | Invalid(message: string, details: seq<Detail>) // `callback(result.error)`
    | Valid(value: Value)                            // `callback(null, result.value)`

  /** `message.replace('value', parameter.name)`. */
  function Renamed(message: string, name: Value): string {
    ReplaceFirst(message, "value", ToStr(name))
  }

  /** Each detail with its message renamed and its path set to `[name]`. */
  function Relabelled(details: seq<Detail>, name: Value): seq<Detail> {
    seq(|details|, k requires 0 <= k < |details| => Detail(Renamed(details[k].message, name), [name]))
  }

  /** The error object of a failed Joi validation, which `validate` rewrites in place. */
  class ValidationError {
    var message: string
    var details: seq<Detail>

    constructor (message: string, details: seq<Detail>)
      ensures this.message == message && this.details == details
    {
      this.message := message;
      this.details := details;
    }

    /** The message, then every detail's message and path, rewritten for the parameter `name`. */
    method Rewrite(name: Value)
      modifies this
      ensures message == Renamed(old(message), name)
      ensures details == Relabelled(old(details), name)
    {
      message := Renamed(message, name);
      var k := 0;
      while k < |details|
        invariant 0 <= k <= |details| && |details| == |old(details)|
        invariant message == Renamed(old(message), name)
        invariant forall j :: 0 <= j < k ==> details[j] == Detail(Renamed(old(details)[j].message, name), [name])
        invariant forall j :: k <= j < |details| ==> details[j] == old(details)[j]
      {
        details := details[k := Detail(Renamed(details[k].message, name), [name])];
        k := k + 1;
      }
    }
  }

  /** The value after `coerce && value && (value = coerce(value))`. */
  function CoercedValue(v: ParameterValidator, value: Value, host: Host): Result<Value> {
    if v.coerce.Some? && Truthy(value) then Coerce(v.coerce.value, v.parameter, value, host) else Ok(value)
  }

  /** The callback's outcome for the result of `schema.validate`. */
  function Reported(v: ParameterValidator, result: JoiResult): Outcome {
    match result
    case JoiValid(value) => Valid(value)
    case JoiInvalid(message, details) =>
      var name := Get(v.parameter, "name");
      Invalid(Renamed(message, name), Relabelled(details, name))
  }

  /** What `validate(value, callback)` reports, or the exception coercion throws. */
  function ValidationOf(v: ParameterValidator, value: Value, host: Host): Result<Outcome> {
    var data :- CoercedValue(v, value, host);
    Ok(Reported(v, host.joiValidate(v.schema, data, v.stripUnknown)))
  }

  /** `validate(value, callback)`. */
  method Validate(v: ParameterValidator, value: Value, host: Host) returns (r: Result<Outcome>)
    ensures r == ValidationOf(v, value, host)
  {
    var data := value;
    if v.coerce.Some? && Truthy(data) {
      var coerced := Coerce(v.coerce.value, v.parameter, data, host);
      if coerced.Err? {
        return Err(coerced.error);
      }
      data := coerced.value;
    }
    var result := host.joiValidate(v.schema, data, v.stripUnknown);
    if result.JoiInvalid? {
      var error := new ValidationError(result.message, result.details);
      error.Rewrite(Get(v.parameter, "name"));
      return Ok(Invalid(error.message, error.details));
    }
    return Ok(Valid(result.value));
  }

  /** A falsy value reaches the Joi validator as it is, whatever the coercion. */
  lemma FalsyNotCoerced(v: ParameterValidator, value: Value, host: Host)
    requires !Truthy(value)
    ensures ValidationOf(v, value, host) == Ok(Reported(v, host.joiValidate(v.schema, value, v.stripUnknown)))
  {
  }

  /** `validate` throws only where an array coercion meets a truthy value it cannot split. */
  lemma ValidateThrows(v: ParameterValidator, value: Value, host: Host)
    ensures ValidationOf(v, value, host).Err? <==>
              v.coerce == Some(SplitArray) && Truthy(value) && !value.Arr? && !value.Str?
  {
  }

  /**
   A failure keeps its details, in order; every path becomes `[name]`, and a
   message changes only where it contains `'value'`: its first occurrence is
   replaced by the name and the text around it is kept.
   */
  lemma FailureRewritten(v: ParameterValidator, message: string, details: seq<Detail>)
    ensures var name := Get(v.parameter, "name");
            var out := Reported(v, JoiInvalid(message, details));
            && out.Invalid? && |out.details| == |details|
            && (!Contains(message, "value") ==> out.message == message)
            && (Contains(message, "value") ==>
                  var i := IndexOf(message, "value");
                  out.message == message[..i] + ToStr(name) + message[i + 5..])
            && forall k :: 0 <= k < |details| ==>
                 && out.details[k].path == [name]
                 && (!Contains(details[k].message, "value") ==> out.details[k].message == details[k].message)
                 && (Contains(details[k].message, "value") ==>
                       var i := IndexOf(details[k].message, "value");
                       out.details[k].message == details[k].message[..i] + ToStr(name) + details[k].message[i + 5..])
  {
    var name := ToStr(Get(v.parameter, "name"));
    if Contains(message, "value") {
      ReplaceFirstSplice(message, "value", name);
    }
    forall k | 0 <= k < |details| && Contains(details[k].message, "value")
      ensures var m := details[k].message;
              var i := IndexOf(m, "value");
              Renamed(m, Get(v.parameter, "name")) == m[..i] + name + m[i + 5..]
    {
      ReplaceFirstSplice(details[k].message, "value", name);
    }
  }

  /**
   Joi's messages start with the quoted label: `"value" is required` for the
   parameter `id` becomes `"id" is required`.
   */
  lemma RenamedQuoted(rest: string, name: string)
    ensures Renamed("\"value\"" + rest, Str(name)) == "\"" + name + "\"" + rest
  {
    var m := "\"value\"" + rest;
    assert m[1..6] == "value";
    assert OccursAt(m, "value", 1);
    assert m[0..5][0] == '"';
    assert IndexOf(m, "value") == 1;
    ReplaceFirstSplice(m, "value", name);
    assert m[..1] == "\"" && m[6..] == "\"" + rest;
  }

  /** The callback gets an error exactly when Joi reports one, and otherwise Joi's (possibly converted) value. */
  lemma ReportedKind(v: ParameterValidator, result: JoiResult)
    ensures Reported(v, result).Invalid? <==> result.JoiInvalid?
    ensures result.JoiValid? ==> Reported(v, result) == Valid(result.value)
  {
  }

  // ---------------------------------------------------------------------
  // `makeAll(validators, route)`

  /** The validator for one key of `validators`: `make(validators[k], route.consumes)`. */
  function MakeEach(schemas: map<string, Value>, validators: Value, route: Value): string -> Result<ParameterValidator> {
    key => (var consumes :- Prop(route, "consumes"); MakeOf(schemas, Get(validators, key), consumes, Undef))
  }

  /** What `makeAll` returns: one validator per key, in key order; the first exception escapes. */
  function MakeAllOf(schemas: map<string, Value>, validators: Value, route: Value): Result<seq<ParameterValidator>> {
    var keys :- ObjectKeys(validators);
    Concat(Contributions(Singles(MakeEach(schemas, validators, route)), keys))
  }

  /** `makeAll(validators, route)`: `Object.keys(validators).map(...)`. */
  method MakeAll(schemas: map<string, Value>, validators: Value, route: Value) returns (r: Result<seq<ParameterValidator>>)
    ensures r == MakeAllOf(schemas, validators, route)
  {
    var keys := ObjectKeys(validators);
    if keys.Err? {
      return Err(keys.error);
    }
    r := ForEach(Singles(MakeEach(schemas, validators, route)), keys.value);
  }

  /** `makeAll` gives one validator per key of `validators`, in order, each made with the route's `consumes`. */
  lemma MakeAllEach(schemas: map<string, Value>, validators: Value, route: Value, vs: seq<ParameterValidator>)
    requires MakeAllOf(schemas, validators, route) == Ok(vs)
    ensures var keys := Keys(validators);
            && |vs| == |keys|
            && (|keys| > 0 ==> !route.Undef? && !route.Null?)
            && forall i :: 0 <= i < |keys| ==> MakeOf(schemas, Get(validators, keys[i]), Get(route, "consumes"), Undef) == Ok(vs[i])
  {
    var keys := Keys(validators);
    ConcatSingles(MakeEach(schemas, validators, route), keys, vs);
    if |keys| > 0 {
      assert MakeEach(schemas, validators, route)(keys[0]).Ok?;
    }
  }
}
