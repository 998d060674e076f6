/**
 * Property reads on the plain JavaScript objects the code uses as
 * dictionaries. `obj[key]` finds an own property first; failing that, it
 * finds a member that every object inherits from `Object.prototype`; only
 * then is it `undefined`.
 */
module JsObject {

  /** The members of `Object.prototype`, which every object literal inherits. */
  const PrototypeMembers: set<string> := {
    "constructor", "__proto__", "__defineGetter__", "__defineSetter__", "__lookupGetter__", "__lookupSetter__",
    "hasOwnProperty", "isPrototypeOf", "propertyIsEnumerable", "toLocaleString", "toString", "valueOf"
  }

  /** What `obj[key]` yields: an own value, an inherited member (a function, or `Object.prototype` itself for `__proto__`), or `undefined`. */
  datatype Property<T> = Own(value: T) | Inherited | Absent

  /** `obj[key]` on an object whose own properties are `obj`. */
  function Read<T>(obj: map<string, T>, key: string): (p: Property<T>)
    ensures p.Own? <==> key in obj
    ensures p.Own? ==> p.value == obj[key]
    ensures p.Inherited? <==> key !in obj && key in PrototypeMembers
  {
    if key in obj then Own(obj[key])
    else if key in PrototypeMembers then Inherited
    else Absent
  }

  /** JavaScript truthiness of the read: every own value the store keeps is an object, and so is every inherited member. */
  predicate Truthy<T>(p: Property<T>) {
    !p.Absent?
  }
}
