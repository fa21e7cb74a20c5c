/**
 * The part of Joi's validation semantics the request schemas use. With
 * `abortEarly: false` every key is checked and each failing key reports one
 * message: a type error ("base" error) stops the rules of its key.
 */
module Joi {
  import opened Wrappers
  import opened JsValues

  /** The outcome of one key's rules: the converted value, or the message reported for the key. */
  datatype Check<+T> = Pass(value: T) | Fail(message: string)

  /** The messages a key contributes to the error list: none when it passes. */
  function Messages<T>(c: Check<T>): seq<string>
  {
    if c.Fail? then [c.message] else []
  }

  /** Joi's default `string.base` message for the key named `key`. */
  function MustBeString(key: string): string
  {
    "\"" + key + "\" must be a string"
  }

  /**
   * `Joi.string().required()`, with the schema's messages for a missing key
   * and for the empty string.
   */
  function RequiredString(v: Value, key: string, missing: string, empty: string): (r: Check<string>)
    ensures r.Pass? <==> v.Str? && v.s != ""
    ensures r.Pass? ==> r.value == v.s
    ensures v.Undefined? ==> r == Fail(missing)
    ensures v == Str("") ==> r == Fail(empty)
    ensures !v.Undefined? && !v.Str? ==> r == Fail(MustBeString(key))
  {
    match v
    case Undefined => Fail(missing)
    case Str(s) => if s == "" then Fail(empty) else Pass(s)
    case _ => Fail(MustBeString(key))
  }

  /**
   * The conversion `Joi.number()` applies before its checks: a string that
   * spells an integer becomes that number; every other value is left alone.
   */
  function CoerceNumber(v: Value): (r: Value)
    ensures !v.Str? ==> r == v
    ensures v.Str? && ParseInteger(v.s).Some? ==> r == Num(ParseInteger(v.s).value)
    ensures v.Str? && ParseInteger(v.s).None? ==> r == v
  {
    if v.Str? && ParseInteger(v.s).Some? then Num(ParseInteger(v.s).value) else v
  }
}
