/**
 * Property reads on a JavaScript object literal (`obj[key]`): an own
 * property, a member inherited from `Object.prototype`, or `undefined`.
 */
module JsObject {

  /** The property names every plain object literal inherits from `Object.prototype`. */
  const PrototypeKeys: set<string> := {
    "constructor", "hasOwnProperty", "isPrototypeOf", "propertyIsEnumerable",
    "toLocaleString", "toString", "valueOf", "__proto__",
    "__defineGetter__", "__defineSetter__", "__lookupGetter__", "__lookupSetter__"
  }

  datatype Property<V> = Own(value: V) | Inherited(key: string) | Undefined

  /** `obj[key]` for an object literal whose own properties are `own`. */
  function Get<V>(own: map<string, V>, key: string): (r: Property<V>)
    ensures key in own <==> r.Own?
    ensures r.Own? ==> r.value == own[key]
    ensures r.Inherited? <==> key !in own && key in PrototypeKeys
  {
    if key in own then Own(own[key])
    else if key in PrototypeKeys then Inherited(key)
    else Undefined
  }

  lemma ToStringIsInherited()
    ensures "toString" in PrototypeKeys
  {
  }

  lemma ConstructorIsInherited()
    ensures "constructor" in PrototypeKeys
  {
  }
}
