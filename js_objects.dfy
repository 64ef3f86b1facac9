/** Property lookup on plain JavaScript objects, as far as the modelled code relies on it. */
module JsObjects {

  /**
   * Keys that `obj[key]` also finds on a plain object literal, inherited
   * from `Object.prototype`; each yields a truthy value.
   */
  const PrototypeKeys: set<string> := {
    "constructor", "hasOwnProperty", "isPrototypeOf", "propertyIsEnumerable",
    "toString", "toLocaleString", "valueOf", "__proto__",
    "__defineGetter__", "__defineSetter__", "__lookupGetter__", "__lookupSetter__"}
}
