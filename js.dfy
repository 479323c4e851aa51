/**
 * The few JavaScript runtime notions the two request handlers depend on:
 * values and their truthiness, `a || b`, property reads that may yield
 * `undefined`, thrown values and how a handler turns one into a message,
 * and the settlement of an awaited promise.
 */
module Js {

  /** A JavaScript value as the handlers see it. Objects and arrays are opaque
      references (always truthy); numbers are reals, with NaN apart. */
  datatype JsValue =
    | Undefined
    | Null
    | Bool(b: bool)
    | Num(x: real)
    | NaN
    | Str(s: string)
    | Ref(id: nat)

  /** ToBoolean: the test behind `if (!url)` and `f.url` used as a filter. */
  predicate Truthy(v: JsValue)
    ensures !Truthy(v) <==>
              v == Undefined || v == Null || v == Bool(false) || v == Num(0.0) || v == NaN || v == Str("")
  {
    match v
    case Undefined => false
    case Null => false
    case Bool(b) => b
    case Num(x) => x != 0.0
    case NaN => false
    case Str(s) => s != ""
    case Ref(_) => true
  }

  /** `a || b`: the first operand when it is truthy, otherwise the second. */
  function Or(a: JsValue, b: JsValue): (r: JsValue)
    ensures r == a || r == b
    ensures Truthy(r) <==> Truthy(a) || Truthy(b)
    ensures Truthy(a) ==> r == a
  {
    if Truthy(a) then a else b
  }

  /** A plain object: its own properties. */
  type Object = map<string, JsValue>

  /** `o.key`: a property that is not there reads as `undefined`. */
  function Get(o: Object, key: string): JsValue {
    if key in o then o[key] else Undefined
  }

  /** A value thrown by an awaited call: an `Error` (name and message), or
      anything else, kept as the text `String(value)` gives for it. */
  datatype Thrown =
    | Error(name: string, message: string)
    | Other(text: string)

  /** `String(e)` for a thrown value (Error.prototype.toString for errors). */
  function Stringify(e: Thrown): (s: string)
    ensures e.Other? ==> s == e.text
    ensures e.Error? ==> (s == "" <==> e.name == "" && e.message == "")
    ensures e.Error? ==> e.name <= s
    ensures e.Error? ==> |e.message| <= |s| && s[|s| - |e.message|..] == e.message
  {
    match e
    case Error(name, message) =>
      if name == "" then message
      else if message == "" then name
      else name + ": " + message
    case Other(text) => text
  }

  /** `e.message || String(e)`: the text a handler reports for `e`. */
  function RawMessage(e: Thrown): (m: string)
    ensures e.Error? && e.message != "" ==> m == e.message
    ensures e.Error? && e.message == "" ==> m == e.name
    ensures e.Other? ==> m == e.text
  {
    if e.Error? && e.message != "" then e.message else Stringify(e)
  }

  /** How an awaited promise settles. */
  datatype Outcome<+T> = Resolved(value: T) | Rejected(reason: Thrown)

  datatype Option<+T> = None | Some(value: T)
}
