/**
 * The few JavaScript runtime notions the card generator depends on:
 * values that may be a string, `undefined` or `false`, their truthiness,
 * the short-circuit `||` operator and template-literal stringification.
 */
module Js {

  datatype Option<T> = None | Some(value: T)

  /** A value as the generator sees it: a string, `undefined` (an absent
      dictionary entry) or the boolean `false` (the missing-title sentinel). */
  datatype JsVal = Undefined | False | Str(s: string)

  /** JavaScript truthiness restricted to JsVal: only a non-empty string is truthy. */
  predicate Truthy(v: JsVal)
    ensures Truthy(v) <==> v != Undefined && v != False && v != Str("")
  {
    v.Str? && v.s != ""
  }

  /** `a || b`: the left operand when it is truthy, otherwise the right one. */
  function Or(a: JsVal, b: JsVal): (r: JsVal)
    ensures !Truthy(a) ==> r == b
    ensures Truthy(r) <==> Truthy(a) || Truthy(b)
    ensures Truthy(a) ==> r == a
  {
    if Truthy(a) then a else b
  }

  /** `${v}`: how a template literal renders the value. */
  function ToJsString(v: JsVal): (r: string)
    ensures v.Str? ==> r == v.s
    ensures v == Undefined ==> r == "undefined"
    ensures v == False ==> r == "false"
    ensures r == "" <==> v == Str("")
  {
    match v
    case Undefined => "undefined"
    case False => "false"
    case Str(s) => s
  }
}
