/**
 The collaborators the route compiler calls but does not define: module
 resolution (`Utils.resolve`), `path.join`, the Joi/enjoi schema validator,
 the tv4 schema validator, `Buffer` byte extraction and `Date.parse`.
 Each is an arbitrary total function supplied by the caller, so every
 property proved here holds whatever they do.
 */
module Externals {
  import opened Js

  /** An enjoi schema: the JSON schema it was built from and the Joi modifiers applied to it. */
  datatype JoiSchema = JoiSchema(
    source: Value,                 // the parameter's own schema, or the synthesized template
    subSchemas: map<string, Value>, // the `schemas` table handed to enjoi
    required: bool,                // `.required()` was applied
    allowEmpty: bool,              // `.allow('').optional()` was applied
    noUnknown: bool)               // `.unknown(false)` was applied

  /** One entry of a Joi error's `details`. */
  datatype Detail = Detail(message: string, path: seq<Value>)

  /** What `schema.validate(value, options)` returns. */
  datatype JoiResult =
    | JoiValid(value: Value)
    | JoiInvalid(message: string, details: seq<Detail>)

  /** What tv4's `validate(value, model)` returns: `{valid, error}`. */
  datatype Tv4Result = Tv4Result(valid: bool, error: Value)

  datatype Host = Host(
    resolve: (Value, Value, Value) -> Value,   // Utils.resolve(basedir, reference, operation)
    pathJoin: (string, string) -> string,      // path.join
    joiValidate: (JoiSchema, Value, Value) -> JoiResult, // schema.validate(value, {stripUnknown})
    tv4Validate: (Value, Value) -> Tv4Result,  // schema.validate(value, model) of lib/schema
    bufferFirstByte: Value -> Value,           // new Buffer(data)[0]
    dateParse: Value -> Value)                 // Date.parse
}
