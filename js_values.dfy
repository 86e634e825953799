/** JavaScript values, as far as the interceptors look at them at their call boundaries. */
module JsValues {

  datatype Option<+T> = None | Some(value: T)

  /** A JavaScript value. Only the shapes an interceptor inspects are told apart;
      every other object is `Obj`. NaN is not representable as a `real`. */
  datatype Value =
    | Undefined
    | Null
    | Bool(b: bool)
    | Num(n: real)
    | Str(s: string)
    | Arr(elems: seq<Value>)
    | Obj

  /** JavaScript truthiness: `undefined`, `null`, `false`, `0` and `""` are falsy. */
  predicate Truthy(v: Value) {
    match v
    case Undefined => false
    case Null => false
    case Bool(b) => b
    case Num(n) => n != 0.0
    case Str(s) => s != ""
    case Arr(_) => true
    case Obj => true
  }

  /** `a || b`: the first operand when it is truthy, the second otherwise. */
  function Or(a: Value, b: Value): (r: Value)
    ensures Truthy(a) ==> r == a
    ensures !Truthy(a) ==> r == b
  {
    if Truthy(a) then a else b
  }

  /** `Math.abs` on a number. */
  function Abs(v: real): real { if v < 0.0 then -v else v }

  /** Property read `obj[key]` on a plain object: a missing key reads as `undefined`. */
  function Get(props: map<string, Value>, key: string): (r: Value)
    ensures key !in props ==> r == Undefined
    ensures key in props ==> r == props[key]
  {
    if key in props then props[key] else Undefined
  }

  /** A plain object whose own properties an interceptor reads and assigns in place
      (the caller's `options`, the `resolvedOptions()` result). */
  class JsObject {
    var props: map<string, Value>

    constructor (props: map<string, Value>)
      ensures this.props == props
    {
      this.props := props;
    }
  }

  /** An array that an interceptor pushes onto (the `supportedLocalesOf` result). */
  class JsArray {
    var elems: seq<Value>

    constructor (elems: seq<Value>)
      ensures this.elems == elems
    {
      this.elems := elems;
    }
  }
}
