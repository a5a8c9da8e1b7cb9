/** The slice of JavaScript's value model that the mock timers touch:
    the arguments stored with a timer, the value a promisified timeout
    resolves with, and the truthiness test behind JavaScript's `||`. */
module JsValues {

  /** An optional value; `None` stands for an omitted (undefined) argument. */
  datatype Option<+T> = None | Some(value: T)

  /** JavaScript values, with numbers restricted to integers. */
  datatype Value =
    | Undefined
    | Null
    | Bool(b: bool)
    | Num(n: int)
    | Str(s: string)
    | Object(ref: nat)

  /** ECMAScript ToBoolean: the falsy values are undefined, null, false,
      0 and the empty string; every object is truthy. */
  function Truthy(v: Value): (b: bool)
    ensures !b <==> v == Undefined || v == Null || v == Bool(false) || v == Num(0) || v == Str("")
    ensures v.Object? ==> b
  {
    match v
    case Undefined => false
    case Null => false
    case Bool(b) => b
    case Num(n) => n != 0
    case Str(s) => |s| > 0
    case Object(_) => true
  }

  /** ECMAScript ToNumber on a boolean: true is 1 and false is 0. */
  function BoolToNumber(b: bool): (n: int)
    ensures 0 <= n <= 1
    ensures n != 0 <==> b
  {
    if b then 1 else 0
  }

  /** JavaScript's `a || b`: the left operand when it is truthy, else the
      right one. */
  function Or(a: Value, b: Value): (r: Value)
    ensures r == a || r == b
    ensures Truthy(r) <==> Truthy(a) || Truthy(b)
    ensures !Truthy(a) ==> r == b
    ensures Truthy(a) ==> r == a
  {
    if Truthy(a) then a else b
  }
}
