/** The part of Joi's schema semantics the validators use: a required
    `Joi.string()` or `Joi.number()` field inside an object schema, validated
    with `abortEarly: false`, of which the validators report only the first
    error detail. The checks run in Joi's order: presence, then the base type
    (with the empty-string check for strings), then the rules in the order
    they were added. */
module Joi {
  import opened Wrappers
  import opened Js

  /** The message each error kind renders to. */
  datatype Messages = Messages(
    required: string,   // any.required
    base: string,       // string.base or number.base
    empty: string,      // string.empty
    tooShort: string,   // string.min
    tooLong: string,    // string.max
    rule: string)       // string.email, string.pattern.base or number.unsafe

  /** The validators throw every Joi failure with code BAD_USER_INPUT. */
  function Reject<T>(message: string): Result<T> {
    Err(Error(BadUserInput, message))
  }

  /** A required `Joi.string()` with optional `min` and `max` rules followed by
      one further rule (`email()`, `pattern(...)`, or none, which is `rule`
      accepting everything). Yields the string on success. */
  function CheckString(v: JsValue, min: Option<nat>, max: Option<nat>, rule: string -> bool, m: Messages): (r: Result<string>)
    ensures r.Ok? <==>
      && v.Str? && v.s != ""
      && (min.Some? ==> |v.s| >= min.value)
      && (max.Some? ==> |v.s| <= max.value)
      && rule(v.s)
    ensures r.Ok? ==> r.value == v.s
    ensures r.Err? ==> r.error.code == BadUserInput
    ensures v.Undefined? ==> r == Reject(m.required)
    ensures !v.Undefined? && !v.Str? ==> r == Reject(m.base)
    ensures v == Str("") ==> r == Reject(m.empty)
  {
    match v
    case Undefined => Reject(m.required)
    case Str(s) =>
      if s == "" then Reject(m.empty)
      else if min.Some? && |s| < min.value then Reject(m.tooShort)
      else if max.Some? && |s| > max.value then Reject(m.tooLong)
      else if !rule(s) then Reject(m.rule)
      else Ok(s)
    case _ => Reject(m.base)
  }

  /** The rule slot of a string schema that has no further rule. */
  function NoRule(s: string): bool { true }

  /** `Number.MAX_SAFE_INTEGER`, 2^53 - 1. */
  const MaxSafeInteger: real := 9007199254740991.0

  /** Whether a number lies in the range `Joi.number()` accepts without `unsafe()`. */
  predicate Safe(x: real) {
    -MaxSafeInteger <= x <= MaxSafeInteger
  }

  /** The number a value stands for: a number itself, or a string that Joi's
      default conversion `convert` turns into one. */
  function NumberValue(v: JsValue, convert: string -> Option<real>): Option<real> {
    match v
    case Num(x) => Some(x)
    case Str(s) => convert(s)
    case _ => None
  }

  /** A required `Joi.number()`. Joi converts a numeric string by default;
      `convert` is that conversion, which is not modelled. A number outside
      the safe-integer range is rejected as `number.unsafe`, reported in the
      `rule` slot. */
  function CheckNumber(v: JsValue, convert: string -> Option<real>, m: Messages): (r: Outcome)
    ensures r.Ok? <==> NumberValue(v, convert).Some? && Safe(NumberValue(v, convert).value)
    ensures r.Err? ==> r.error.code == BadUserInput
    ensures r.Err? && v.Undefined? ==> r.error.message == m.required
    ensures r.Err? && NumberValue(v, convert).None? && !v.Undefined? ==> r.error.message == m.base
    ensures r.Err? && NumberValue(v, convert).Some? ==> r.error.message == m.rule
  {
    match v
    case Undefined => Reject(m.required)
    case Num(x) => if Safe(x) then Pass() else Reject(m.rule)
    case Str(s) =>
      (match convert(s)
       case None => Reject(m.base)
       case Some(x) => if Safe(x) then Pass() else Reject(m.rule))
    case _ => Reject(m.base)
  }

  /** Of the length rules the lower bound is checked first: a string that is
      too short reports `min` whatever the further rule says. */
  lemma ShortStringReportsMin(s: string, lo: nat, max: Option<nat>, rule: string -> bool, m: Messages)
    requires 0 < |s| < lo
    ensures CheckString(Str(s), Some(lo), max, rule, m) == Reject(m.tooShort)
  {
  }
}
