/** The fragment of JavaScript's value semantics that the form binder relies on:
    truthiness, the `a || b` operator, property access that yields `undefined`
    for a missing property, and reading a plain object used as a dictionary. */
module JsValues {

  datatype Option<+T> = None | Some(value: T)

  /** A JavaScript value. Numbers are integers here (no NaN, no fractions);
      an object is its own enumerable properties. */
  datatype JsValue =
    | Undefined
    | Null
    | Bool(b: bool)
    | Num(n: int)
    | Str(s: string)
    | Obj(props: map<string, JsValue>)

  /** JavaScript's ToBoolean: `undefined`, `null`, `false`, `0` and `''` are
      falsy; every object, even an empty one, is truthy. */
  predicate Truthy(v: JsValue) {
    match v
    case Undefined => false
    case Null => false
    case Bool(b) => b
    case Num(n) => n != 0
    case Str(s) => s != ""
    case Obj(_) => true
  }

  /** `a || b`: the left operand when it is truthy, otherwise the right one. */
  function Or(a: JsValue, b: JsValue): (r: JsValue)
    ensures Truthy(a) ==> r == a
    ensures !Truthy(a) ==> r == b
    ensures Truthy(r) <==> Truthy(a) || Truthy(b)
  {
    if Truthy(a) then a else b
  }

  /** `v.name` for any `v` other than `null` and `undefined` (on which the
      access throws, so callers exclude them): objects yield their own
      property, primitives have none of the properties used here. */
  function Prop(v: JsValue, name: string): (r: JsValue)
    requires !v.Null? && !v.Undefined?
    ensures r != Undefined ==> v.Obj? && name in v.props && r == v.props[name]
    ensures v.Obj? && name in v.props ==> r == v.props[name]
  {
    match v
    case Obj(m) => if name in m then m[name] else Undefined
    case _ => Undefined
  }

  /** `dict[key]` on a plain object used as a dictionary. */
  function Lookup(dict: map<string, JsValue>, key: string): (r: JsValue)
    ensures key in dict ==> r == dict[key]
    ensures key !in dict ==> r == Undefined
  {
    if key in dict then dict[key] else Undefined
  }

  /** The empty string, the fallback the binder uses throughout. */
  const Empty: JsValue := Str("")
}
