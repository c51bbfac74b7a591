/** The JavaScript values that travel through the messaging code: parsed JSON frames,
    message objects and the configuration tree. */
module JsValue {

  /** A JavaScript value. Numbers are exact reals (JSON never yields NaN or the infinities);
      objects are maps from property name to value, so their key order is not kept. */
  datatype Value =
    | Undefined
    | Null
    | Bool(b: bool)
    | Num(n: real)
    | Str(s: string)
    | Arr(items: seq<Value>)
    | Obj(fields: map<string, Value>)

  /** JavaScript truthiness: undefined, null, false, 0 and "" are falsy. */
  predicate Truthy(v: Value)
  {
    match v
    case Undefined => false
    case Null => false
    case Bool(b) => b
    case Num(n) => n != 0.0
    case Str(s) => s != ""
    case Arr(_) => true
    case Obj(_) => true
  }

  /** The properties every plain object inherits from `Object.prototype`. `Get` does not model
      inherited properties, so it answers only for other keys as JavaScript does. */
  const ObjectPrototypeNames: set<string> := {
    "constructor", "__proto__", "hasOwnProperty", "isPrototypeOf", "propertyIsEnumerable",
    "toLocaleString", "toString", "valueOf",
    "__defineGetter__", "__defineSetter__", "__lookupGetter__", "__lookupSetter__"}

  /** `v[key]` on an object: the property, or undefined when the object lacks it.
      On any other value the lookup is modelled as undefined. */
  function Get(v: Value, key: string): (r: Value)
    ensures v.Obj? && key in v.fields ==> r == v.fields[key]
    ensures !(v.Obj? && key in v.fields) ==> r == Undefined
  {
    if v.Obj? && key in v.fields then v.fields[key] else Undefined
  }

  /** `v[key] = x` on an object; other values are left as they are. */
  function Set(v: Value, key: string, x: Value): (r: Value)
    ensures v.Obj? ==> r.Obj? && r.fields.Keys == v.fields.Keys + {key}
    ensures v.Obj? ==> Get(r, key) == x
    ensures v.Obj? ==> forall k :: k in v.fields && k != key ==> Get(r, k) == v.fields[k]
    ensures !v.Obj? ==> r == v
  {
    if v.Obj? then Obj(v.fields[key := x]) else v
  }
}
