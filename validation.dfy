/**
 The parameter validators of the older route builder (`lib/validation.js`):
 `inputValidator` builds, for one declared parameter and its model, a
 function that coerces a raw request value, rejects a missing required
 value and type-checks the rest. A validator is modelled as the data it
 closes over; `ValidateInput` is what calling it does.
 */
module Validation {
  import opened Wrappers
  import opened Strings
  import opened Js
  import opened Externals

  // ---------------------------------------------------------------------
  // Type names

  /** `jsontype(type)`: the `typeof` name a primitive model expects (a `switch` on `===`). */
  function Jsontype(model: Value): (r: string)
    ensures r in {"array", "number", "string", "boolean", "undefined"}
  {
    match model
    case Str(t) =>
      if t == "array" then "array"
      else if t in {"integer", "float", "long", "double", "byte"} then "number"
      else if t == "string" then "string"
      else if t == "boolean" then "boolean"
      else "undefined"
    case _ => "undefined"
  }

  /** The whole `jsontype` table; everything that is not one of its strings maps to `'undefined'`. */
  lemma JsontypeTable(model: Value)
    ensures Jsontype(model) == "array" <==> model == Str("array")
    ensures Jsontype(model) == "number" <==>
              model in {Str("integer"), Str("float"), Str("long"), Str("double"), Str("byte")}
    ensures Jsontype(model) == "string" <==> model == Str("string")
    ensures Jsontype(model) == "boolean" <==> model == Str("boolean")
  {
  }

  /** No value has `typeof` `'array'`, and no present value has `typeof` `'undefined'`. */
  lemma TypeOfNeverArray(value: Value)
    ensures TypeOf(value) != "array"
    ensures !value.Undef? ==> TypeOf(value) != "undefined"
  {
  }

  // ---------------------------------------------------------------------
  // The primitive check: `map(model)`

  /** An `Error` whose `message` is `message` (its `dataPath` is `undefined`). */
  function ErrorObject(message: string): (r: Value)
    ensures Truthy(r) && Get(r, "message") == Str(message) && Get(r, "dataPath") == Undef
  {
    Obj([Member("message", Str(message))])
  }

  /** What the `(expected %s)` of a type error names: the model, or an object model's `id` or `$ref`. */
  function Expected(model: Value): string {
    if IsObject(model) then ToStr(Or(Get(model, "id"), Get(model, "$ref"))) else ToStr(model)
  }

  /**
   `map(model)(value)`: the error handed to the callback, `undefined` when
   there is none. A string model, or an object model against a primitive
   value, is checked by `typeof`; anything else goes to the tv4 validator.
   */
  function TypeCheck(model: Value, value: Value, host: Host): (err: Value)
    ensures model.Str? ==> (Truthy(err) <==> TypeOf(value) != Jsontype(model))
    ensures IsObject(model) && !IsObject(value) ==> (Truthy(err) <==> TypeOf(value) != "undefined")
  {
    if model.Str? || (IsObject(model) && !IsObject(value)) then
      var actual := TypeOf(value);
      var expected := Jsontype(model);
      if actual != expected then
        ErrorObject("invalid type: " + actual + " (expected " + Expected(model) + ")")
      else Undef
    else
      var result := host.tv4Validate(value, model);
      if result.valid then Undef else result.error
  }

  /** A type error names the actual and the expected type. */
  lemma TypeErrorMessage(model: Value, value: Value, host: Host)
    requires model.Str?
    requires TypeOf(value) != Jsontype(model)
    ensures Get(TypeCheck(model, value, host), "message") ==
              Str("invalid type: " + TypeOf(value) + " (expected " + model.s + ")")
  {
  }

  /** A model that is neither a string nor an object is handed to tv4, whose error is passed on when invalid. */
  lemma SchemaCheck(model: Value, value: Value, host: Host)
    requires !model.Str? && (!IsObject(model) || IsObject(value))
    ensures TypeCheck(model, value, host) ==
              if host.tv4Validate(value, model).valid then Undef else host.tv4Validate(value, model).error
  {
  }

  // ---------------------------------------------------------------------
  // Coercion: `coercion(parameter)`

  /** The coercion functions `coercion` can return. */
  datatype Coercion =
    | SplitList      // arrays: `data.split(sep)`
    | Numeric        // integer, float, long, double: `isNaN(data) ? data : Number(data)`
    | Stringify      // string: `String`
    | ByteValue      // byte: `isNaN(data) ? new Buffer(data)[0] : Number(data)`
    | BooleanOf      // boolean: `Boolean`
    | DateValue      // date, dateTime: `Date.parse`
    | EmptyToNull    // a parameter with a schema and none of the above types

  /** `coercion(parameter)`: None where it returns `undefined`. */
  function CoercionOf(parameter: Value): (r: Option<Coercion>)
    ensures r == None <==>
              !(Get(parameter, "type").Str? &&
                Get(parameter, "type").s in {"array", "integer", "float", "long", "double", "string",
                                             "byte", "boolean", "date", "dateTime"}) &&
              !Truthy(Get(parameter, "schema"))
  {
    var t := Get(parameter, "type");
    var typed :=
      if t == Str("array") then Some(SplitList)
      else if t in {Str("integer"), Str("float"), Str("long"), Str("double")} then Some(Numeric)
      else if t == Str("string") then Some(Stringify)
      else if t == Str("byte") then Some(ByteValue)
      else if t == Str("boolean") then Some(BooleanOf)
      else if t in {Str("date"), Str("dateTime")} then Some(DateValue)
      else None;
    if typed == None && Truthy(Get(parameter, "schema")) then Some(EmptyToNull) else typed
  }

  /**
   The separator of an array parameter, from `parameter.collectionFormat || 'csv'`.
   `'tsv'` has no `break`, so it falls through to `'pipes'`; an unknown
   format leaves the separator `undefined` (None).
   */
  function Separator(format: Value): (r: Option<char>)
    ensures r.Some? ==> r.value in {',', ' ', '|', '&'}
  {
    var f := Or(format, Str("csv"));
    if f == Str("csv") then Some(',')
    else if f == Str("ssv") then Some(' ')
    else if f == Str("tsv") || f == Str("pipes") then Some('|')
    else if f == Str("multi") then Some('&')
    else None
  }

  /** The separator table, with csv as the default for a missing format. */
  lemma SeparatorTable(format: Value)
    ensures !Truthy(format) ==> Separator(format) == Some(',')
    ensures Separator(format) == Some(',') <==> !Truthy(format) || format == Str("csv")
    ensures Separator(format) == Some(' ') <==> format == Str("ssv")
    ensures Separator(format) == Some('|') <==> format == Str("tsv") || format == Str("pipes")
    ensures Separator(format) == Some('&') <==> format == Str("multi")
  {
  }

  /**
   Calling the coercion function on `data`. `split` exists only on strings,
   so splitting anything else throws a TypeError.
   */
  function Coerce(parameter: Value, c: Coercion, data: Value, host: Host): (r: Result<Value>)
    ensures r.Err? <==> c == SplitList && !data.Str?
  {
    match c
    case SplitList =>
      if data.Str? then Ok(Arr(Strs(SplitBy(data.s, Separator(Get(parameter, "collectionFormat"))))))
      else Err(TypeError)
    case Numeric =>
      (match NumberOf(data)
       case None => Ok(data)
       case Some(n) => Ok(Num(n)))
    case Stringify => Ok(Str(ToStr(data)))
    case ByteValue =>
      (match NumberOf(data)
       case None => Ok(host.bufferFirstByte(data))
       case Some(n) => Ok(Num(n)))
    case BooleanOf => Ok(Bool(Truthy(data)))
    case DateValue => Ok(host.dateParse(data))
    case EmptyToNull => Ok(if IsObject(data) && |Keys(data)| == 0 then Null else data)
  }

  /** Splitting a string into its list, whatever the separator. */
  lemma SplitListJoin(parameter: Value, items: seq<string>, c: char, host: Host)
    requires Separator(Get(parameter, "collectionFormat")) == Some(c)
    requires |items| >= 1 && forall i :: 0 <= i < |items| ==> c !in items[i]
    ensures Coerce(parameter, SplitList, Str(Join(items, c)), host) == Ok(Arr(Strs(items)))
  {
    SplitJoin(items, c);
  }

  /** A numeric coercion leaves a value `Number` cannot read unchanged, and reads every other one. */
  lemma NumericCoercion(parameter: Value, data: Value, host: Host)
    ensures NumberOf(data).None? ==> Coerce(parameter, Numeric, data, host) == Ok(data)
    ensures NumberOf(data).Some? ==> Coerce(parameter, Numeric, data, host) == Ok(Num(NumberOf(data).value))
  {
  }

  /** `Boolean` of a value that coercion is applied to (a truthy one) is always `true`. */
  lemma BooleanCoercionTrue(parameter: Value, data: Value, host: Host)
    requires Truthy(data)
    ensures Coerce(parameter, BooleanOf, data, host) == Ok(Bool(true))
  {
  }

  // ---------------------------------------------------------------------
  // The validator: `inputValidator(parameter, model)`

  /** The state `validateInput` closes over: the parameter, the model to check against, its coercion. */
  datatype InputValidator = InputValidator(parameter: Value, model: Value, coerce: Option<Coercion>)

  /** The model a string model `'array'` is replaced by: `{type, items}` of the parameter. */
  function ArrayModel(parameter: Value): (r: Value)
    ensures r.Obj? && MemberKeys(r.members) == ["type", "items"]
    ensures Get(r, "type") == Get(parameter, "type") && Get(r, "items") == Get(parameter, "items")
  {
    Obj([Member("type", Get(parameter, "type")), Member("items", Get(parameter, "items"))])
  }

  /**
   `inputValidator(parameter, model)`: reading `parameter.type` of an
   `undefined` or `null` parameter throws.
   */
  function Input(parameter: Value, model: Value): (r: Result<InputValidator>)
    ensures r.Err? <==> parameter.Undef? || parameter.Null?
    ensures r.Ok? ==> r.value.parameter == parameter && r.value.coerce == CoercionOf(parameter)
    ensures r.Ok? && model != Str("array") && Truthy(model) ==> r.value.model == model
    ensures r.Ok? && !Truthy(model) ==> r.value.model == Get(parameter, "type")
    ensures r.Ok? && model == Str("array") ==> r.value.model == ArrayModel(parameter)
  {
    if parameter.Undef? || parameter.Null? then Err(TypeError)
    else
      var fixed := if model == Str("array") then ArrayModel(parameter) else model;
      Ok(InputValidator(parameter, Or(fixed, Get(parameter, "type")), CoercionOf(parameter)))
  }

  /** What a validator reports through its callback. */
  datatype Outcome =
    | Rejected(message: string)  // `callback(new Error(message))`
    | Accepted(value: Value)     // `callback(null, value)`

  /** `required parameter '<name>' missing.` */
  function MissingMessage(parameter: Value): string {
    "required parameter '" + ToStr(Get(parameter, "name")) + "' missing."
  }

  /** `'<message> (at <dataPath or "/">)'` for the error of a failed check. */
  function FailureMessage(err: Value): string {
    ToStr(Get(err, "message")) + " (at " + ToStr(Or(Get(err, "dataPath"), Str("/"))) + ")"
  }

  /** The value after `value && coerce && (value = coerce(value))`. */
  function Coerced(v: InputValidator, value: Value, host: Host): (r: Result<Value>)
    ensures !Truthy(value) || v.coerce.None? ==> r == Ok(value)
  {
    if Truthy(value) && v.coerce.Some? then Coerce(v.parameter, v.coerce.value, value, host)
    else Ok(value)
  }

  /** `validateInput(value, callback)`: the callback's outcome, or the exception coercion throws. */
  function ValidateInput(v: InputValidator, value: Value, host: Host): (r: Result<Outcome>)
    ensures r.Err? <==> Coerced(v, value, host).Err?
  {
    var coerced :- Coerced(v, value, host);
    if coerced.Undef? || coerced.Null? then
      if Truthy(Get(v.parameter, "required")) then Ok(Rejected(MissingMessage(v.parameter)))
      else Ok(Accepted(coerced))
    else
      var err := TypeCheck(v.model, coerced, host);
      if Truthy(err) then Ok(Rejected(FailureMessage(err))) else Ok(Accepted(coerced))
  }

  // ---------------------------------------------------------------------
  // Properties

  /** An absent value is rejected exactly when the parameter is required, with the fixed message. */
  lemma AbsentValue(v: InputValidator, value: Value, host: Host)
    requires value.Undef? || value.Null?
    ensures Truthy(Get(v.parameter, "required")) ==> ValidateInput(v, value, host) == Ok(Rejected(MissingMessage(v.parameter)))
    ensures !Truthy(Get(v.parameter, "required")) ==> ValidateInput(v, value, host) == Ok(Accepted(value))
  {
  }

  /** A present value is accepted unchanged or coerced exactly when the check raises no error. */
  lemma PresentValue(v: InputValidator, value: Value, host: Host, coerced: Value)
    requires Coerced(v, value, host) == Ok(coerced)
    requires !coerced.Undef? && !coerced.Null?
    ensures ValidateInput(v, value, host) ==
              if Truthy(TypeCheck(v.model, coerced, host)) then Ok(Rejected(FailureMessage(TypeCheck(v.model, coerced, host))))
              else Ok(Accepted(coerced))
  {
  }

  /** A type error is reported at `/`, since it has no `dataPath`. */
  lemma TypeFailureAtRoot(message: string)
    ensures FailureMessage(ErrorObject(message)) == message + " (at /)"
  {
  }

  /** With a schema and no type coercion, `{}` becomes `null` and is then treated as absent. */
  lemma EmptyObjectIsAbsent(v: InputValidator, value: Value, host: Host)
    requires v.coerce == Some(EmptyToNull)
    requires value == Obj([])
    ensures Truthy(Get(v.parameter, "required")) ==> ValidateInput(v, value, host) == Ok(Rejected(MissingMessage(v.parameter)))
    ensures !Truthy(Get(v.parameter, "required")) ==> ValidateInput(v, value, host) == Ok(Accepted(Null))
  {
  }

  /** A boolean parameter that is present always reaches the check as `true`. */
  lemma PresentBooleanIsTrue(parameter: Value, model: Value, value: Value, host: Host)
    requires Get(parameter, "type") == Str("boolean") && Input(parameter, model).Ok?
    requires Truthy(value)
    ensures Coerced(Input(parameter, model).value, value, host) == Ok(Bool(true))
  {
  }

  /**
   An array parameter checked against its own type name can never pass with
   a present value: the check expects `typeof` to be `'array'`, which no
   value has, so it is rejected (or, when it is not a string, splitting it throws).
   */
  lemma ArrayTypeNameRejects(parameter: Value, value: Value, host: Host)
    requires Get(parameter, "type") == Str("array") && Input(parameter, Undef).Ok?
    requires Truthy(value)
    ensures var r := ValidateInput(Input(parameter, Undef).value, value, host);
            r.Err? || r.value.Rejected?
  {
    var v := Input(parameter, Undef).value;
    assert v.model == Str("array");
    var coerced := Coerced(v, value, host);
    if coerced.Ok? {
      assert coerced.value.Arr?;
      TypeOfNeverArray(coerced.value);
    }
  }
}
