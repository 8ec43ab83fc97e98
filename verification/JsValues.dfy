/** JavaScript values as far as the route table needs them: the values a
    route-definition module can export, and JavaScript's truthiness rule. */
module JsValues {

  datatype Option<+T> = None | Some(value: T)

  /** A JavaScript value. Functions, regular expressions and other objects
      are opaque references: the route table only ever tests them for
      truthiness or hands them on to the dispatcher. */
  datatype JsValue =
    | Undefined
    | Null
    | Bool(b: bool)
    | Number(x: real)   // every finite number, -0 included (it equals 0)
    | Infinity(negative: bool)
    | NaN
    | Str(s: string)
    | Function(fid: nat)
    | Object(oid: nat)

  /** JavaScript's ToBoolean: undefined, null, false, 0, NaN and "" are falsy,
      every other value is truthy. */
  predicate Truthy(v: JsValue) {
    match v
    case Undefined => false
    case Null => false
    case Bool(b) => b
    case Number(x) => x != 0.0
    case Infinity(_) => true
    case NaN => false
    case Str(s) => s != ""
    case Function(_) => true
    case Object(_) => true
  }

  /** What `require` yields for a route-definition file: an object whose own
      properties are given by name. A property it does not have reads as
      `undefined`. */
  datatype Exports = Exports(props: map<string, JsValue>) {
    function Get(key: string): JsValue {
      if key in props then props[key] else Undefined
    }
  }

  /** The falsy values are exactly the six that JavaScript names. */
  lemma FalsyValues(v: JsValue)
    ensures !Truthy(v) <==>
      v in {Undefined, Null, Bool(false), Number(0.0), NaN, Str("")}
  {
  }
}
