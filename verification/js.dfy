/** The fragment of JavaScript's value world that the server's option
    handling and manifest resolution inspect: the values, `typeof`, and the
    lodash type tests the constructor uses. Also the option and result
    wrappers used for `undefined`-able slots and thrown errors. */
module Js {

  /** A slot that may hold `undefined` (None) or a value. */
  datatype Option<+T> = None | Some(value: T)

  /** Either a value or the error a JavaScript call would have thrown. */
  datatype Result<+T, +E> = Success(value: T) | Failure(error: E)

  /** An `Error` thrown by the server itself carries its message; an error
      raised inside a collaborator (the composer, a manifest function, a
      loaded module) is opaque and known only by identity. */
  datatype Error = Message(text: string) | Foreign(id: nat)

  /** JavaScript values: the primitives, functions and plain objects.
      Numbers are reals plus NaN (infinities are not modelled); functions and
      objects are references, identified by a number. Boxed primitives
      (`new String`, `new Boolean`, `new Number`), which lodash's type tests
      also accept, are not modelled. */
  datatype Value =
    | Undefined
    | Null
    | Bool(b: bool)
    | Num(x: real)
    | NaN
    | Str(s: string)
    | Func(fn: nat)
    | Obj(ref: nat)

  /** The `typeof` operator. */
  function TypeOf(v: Value): (r: string)
    ensures r == "function" <==> v.Func?
    ensures r == "string" <==> v.Str?
    ensures r == "number" <==> (v.Num? || v.NaN?)
    ensures r == "object" <==> (v.Null? || v.Obj?)
  {
    match v
    case Undefined => "undefined"
    case Null => "object"
    case Bool(_) => "boolean"
    case Num(_) => "number"
    case NaN => "number"
    case Str(_) => "string"
    case Func(_) => "function"
    case Obj(_) => "object"
  }

  /** lodash `isUndefined`. */
  predicate IsUndefined(v: Value) { v.Undefined? }

  /** lodash `isString`. */
  predicate IsString(v: Value) { v.Str? }

  /** lodash `isBoolean`. */
  predicate IsBoolean(v: Value) { v.Bool? }

  /** lodash `isNumber`: true of NaN as well. */
  predicate IsNumber(v: Value) { v.Num? || v.NaN? }

  /** lodash `isFunction`. */
  predicate IsFunction(v: Value) { v.Func? }

  /** lodash `isObject`: true of functions and objects, false of `null` and
      of every primitive. */
  predicate IsObject(v: Value) { v.Func? || v.Obj? }

  /** JavaScript `v >= 0` for a value already known to be a number: NaN
      compares false with everything. */
  predicate AtLeastZero(v: Value) {
    match v
    case Num(x) => x >= 0.0
    case _ => false
  }
}
