/**
 * The untrusted data carried by a window `message` event, after the browser's
 * structured clone, restricted to primitives, arrays and plain objects. A
 * cloned plain object or array has no inherited properties beyond those of
 * `Object.prototype` and `Array.prototype`, neither of which defines `type`
 * or `payload`; its own keys are kept, and an array keeps its named
 * (non-index) keys as well as its elements.
 *
 * Numbers are modelled as integers: only their truthiness matters to the
 * protocol, and NaN and negative zero are not represented.
 */
module JsValue {

  datatype Value =
    | Null
    | Undefined
    | Bool(b: bool)
    | Num(n: int)
    | Str(s: string)
    | Arr(items: seq<Value>, props: map<string, Value>)
    | Obj(fields: map<string, Value>)

  /** JavaScript's ToBoolean: the falsy values are null, undefined, false, 0 and "". */
  predicate Truthy(v: Value) {
    match v
    case Null => false
    case Undefined => false
    case Bool(b) => b
    case Num(n) => n != 0
    case Str(s) => s != ""
    case Arr(_, _) => true
    case Obj(_) => true
  }

  /** The `typeof` operator; note that `typeof null` is "object". */
  function TypeOf(v: Value): string {
    match v
    case Null => "object"
    case Undefined => "undefined"
    case Bool(_) => "boolean"
    case Num(_) => "number"
    case Str(_) => "string"
    case Arr(_, _) => "object"
    case Obj(_) => "object"
  }

  /**
   * The named own keys of an object or array, with their values. For an
   * array these are the keys beside its elements and `length` (which is
   * never one of them).
   */
  function OwnProps(v: Value): map<string, Value>
    requires v.Arr? || v.Obj?
  {
    match v
    case Arr(_, props) => props - {"length"}
    case Obj(f) => f
  }

  /**
   * The `in` operator on an object or array. It throws on primitives, hence
   * the precondition. Array index keys are not modelled: the adapters only
   * ever ask for the non-numeric key "type".
   */
  predicate HasProperty(v: Value, key: string)
    requires v.Arr? || v.Obj?
    ensures HasProperty(v, key) <==> key in OwnProps(v) || (v.Arr? && key == "length")
  {
    match v
    case Arr(_, props) => key == "length" || key in props
    case Obj(f) => key in f
  }

  /** Property read `v[key]` on an object or array: a missing key reads as undefined. */
  function GetProperty(v: Value, key: string): (r: Value)
    requires v.Arr? || v.Obj?
    ensures key in OwnProps(v) ==> r == OwnProps(v)[key]
    ensures key !in OwnProps(v) && key != "length" ==> r == Undefined
  {
    match v
    case Arr(items, props) =>
      if key == "length" then Num(|items|) else if key in props then props[key] else Undefined
    case Obj(f) => if key in f then f[key] else Undefined
  }
}
