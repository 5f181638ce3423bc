/**
 * Property lookup on a JavaScript object literal used as a dictionary
 * (`Record<string, T>`). A key that is not an own property is looked up on
 * `Object.prototype`, so a handful of names find an inherited member (a
 * function, or the prototype object itself for `__proto__`), which is truthy.
 */
module JsObject {
  import opened Wrappers

  /** The names every object literal inherits from `Object.prototype`. */
  const PrototypeMembers: set<string> := {
    "constructor", "__proto__", "hasOwnProperty", "isPrototypeOf",
    "propertyIsEnumerable", "toString", "toLocaleString", "valueOf",
    "__defineGetter__", "__defineSetter__", "__lookupGetter__", "__lookupSetter__"
  }

  /** The outcome of `obj[key]`: an own value, an inherited member, or `undefined`. */
  datatype Lookup<T> = Own(value: T) | Inherited(name: string) | Missing

  /** `obj[key]` for an object literal whose own property named `key` is `own`, if it has one. */
  function Get<T>(own: Option<T>, key: string): (r: Lookup<T>)
    ensures r.Own? <==> own.Some?
    ensures r.Inherited? <==> own.None? && key in PrototypeMembers
  {
    match own
    case Some(v) => Own(v)
    case None => if key in PrototypeMembers then Inherited(key) else Missing
  }

  /** The lower-case members, the only ones a lower-cased key can reach. */
  const LowerCaseMembers: set<string> := {"constructor", "__proto__"}

  /** Every other member has an upper-case ASCII letter. */
  lemma MembersWithCapitals(k: string)
    requires k in PrototypeMembers && k !in LowerCaseMembers
    ensures exists i :: 0 <= i < |k| && 'A' <= k[i] <= 'Z'
  {
    if k == "hasOwnProperty" { assert 'A' <= k[3] <= 'Z'; }
    else if k == "isPrototypeOf" { assert 'A' <= k[2] <= 'Z'; }
    else if k == "propertyIsEnumerable" { assert 'A' <= k[8] <= 'Z'; }
    else if k == "toString" { assert 'A' <= k[2] <= 'Z'; }
    else if k == "toLocaleString" { assert 'A' <= k[2] <= 'Z'; }
    else if k == "valueOf" { assert 'A' <= k[5] <= 'Z'; }
    else if k == "__defineGetter__" { assert 'A' <= k[8] <= 'Z'; }
    else if k == "__defineSetter__" { assert 'A' <= k[8] <= 'Z'; }
    else if k == "__lookupGetter__" { assert 'A' <= k[8] <= 'Z'; }
    else { assert k == "__lookupSetter__"; assert 'A' <= k[8] <= 'Z'; }
  }
}
