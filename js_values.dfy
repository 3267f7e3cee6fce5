/** The few JavaScript value rules the sandbox relies on: `null`/`undefined`,
    and what `if (x)` and `x || undefined` do with a string. */
module JsValues {

  /** A value that may be `null` (or `undefined`, which the sandbox treats alike). */
  datatype Nullable<+T> = Null | Val(value: T)

  /** `if (s)` on a string that may be null: false for null and for the empty string. */
  predicate Truthy(s: Nullable<string>)
  {
    s.Val? && s.value != ""
  }

  /** `s || undefined`: a falsy string becomes undefined, a truthy one is kept. */
  function OrUndefined(s: Nullable<string>): (r: Nullable<string>)
    ensures r.Val? <==> Truthy(s)
    ensures r.Val? ==> r == s
    ensures r.Val? ==> r.value != ""
  {
    if Truthy(s) then s else Null
  }
}
