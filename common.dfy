/** Small value types shared by every page model. */
module Common {

  datatype Option<T> = None | Some(value: T)

  /** The result of a remote single-document read (`getDoc`). */
  datatype Lookup<T> = LookupFailed | Missing | Found(doc: T)

  /** JavaScript's `a || b` on strings, where the empty string is falsy. */
  function OrElse(a: string, b: string): (r: string)
    ensures r == a || r == b
    ensures r == "" ==> a == "" && b == ""
  {
    if a != "" then a else b
  }

  /** JavaScript's `a || fallback` on a field that may be absent. */
  function OrDefault(a: Option<string>, fallback: string): (r: string)
    ensures a.Some? && a.value != "" ==> r == a.value
    ensures a.None? || a.value == "" ==> r == fallback
  {
    if a.Some? && a.value != "" then a.value else fallback
  }

  function Max(a: int, b: int): int { if a < b then b else a }
  function Min(a: int, b: int): int { if a < b then a else b }
}
