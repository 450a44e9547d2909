/** Lookups in JavaScript object literals used as tables (`table[key]`).
    A key the literal does not define still finds the members every object
    inherits from `Object.prototype`. Those members are truthy, so
    `table[key] || fallback` does not fall back for them. */
module JsObject {

  /** The property names of `Object.prototype` in Node.js. */
  const InheritedNames: set<string> := {
    "constructor", "hasOwnProperty", "isPrototypeOf", "propertyIsEnumerable",
    "toLocaleString", "toString", "valueOf", "__proto__",
    "__defineGetter__", "__defineSetter__", "__lookupGetter__", "__lookupSetter__"}

  predicate IsInherited(key: string) {
    key in InheritedNames
  }

  /** `${table[key]}` for an inherited member. `__proto__` is the prototype
      object itself; `constructor` is the `Object` function; every other
      member is a native function printed under its own name. */
  function InheritedText(name: string): string {
    if name == "__proto__" then "[object Object]"
    else if name == "constructor" then "function Object() { [native code] }"
    else "function " + name + "() { [native code] }"
  }

  /** The value of `table[key] || fallback`: a string, or an inherited
      member of `Object.prototype`. */
  datatype Value = Str(text: string) | Member(name: string)

  /** `table[key] || fallback` on a table of strings. An own value that is
      the empty string is falsy and falls back. */
  function OrElse(table: map<string, string>, key: string, fallback: string): (v: Value)
    ensures key in table && table[key] != "" ==> v == Str(table[key])
    ensures key in table && table[key] == "" ==> v == Str(fallback)
    ensures key !in table ==> (v.Member? <==> IsInherited(key))
    ensures key !in table && !IsInherited(key) ==> v == Str(fallback)
    ensures v.Member? ==> v.name == key && IsInherited(key)
  {
    if key in table then Str(if table[key] != "" then table[key] else fallback)
    else if IsInherited(key) then Member(key)
    else Str(fallback)
  }

  /** `${v}`: a value as a template literal renders it. */
  function Render(v: Value): string {
    match v
    case Str(text) => text
    case Member(name) => InheritedText(name)
  }
}
