/**
 JavaScript value conventions the server relies on: a value that may be
 null or undefined, and the truthiness of strings used by `a || b` and
 `if (!x)` guards.
 */
module Js {

  /** A value that may be absent (null or undefined in the source). */
  datatype Option<+T> = None | Some(value: T) {

    /** The value when present, otherwise `default`. */
    function GetOr(default: T): T {
      match this
      case Some(v) => v
      case None => default
    }
  }

  /** A string is truthy when it is present and not empty. */
  predicate Truthy(o: Option<string>) {
    o.Some? && o.value != ""
  }

  /** `o || fallback` for a possibly absent string. */
  function Or(o: Option<string>, fallback: string): (r: string)
    ensures Truthy(o) ==> r == o.value
    ensures !Truthy(o) ==> r == fallback
    ensures r == "" ==> fallback == ""
  {
    if Truthy(o) then o.value else fallback
  }
}
