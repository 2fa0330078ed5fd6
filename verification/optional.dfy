/** An optional value. Where the application passes JavaScript values that may be
    `undefined` (a missing field, an absent argument), the model uses `None`. */
module Optional {

  datatype Option<+T> = None | Some(value: T)

  /** JavaScript truthiness of a possibly-undefined string: `undefined` and `''` are falsy. */
  predicate Truthy(s: Option<string>)
  {
    s.Some? && s.value != ""
  }

  /** The value of `s || fallback` for a possibly-undefined string. */
  function OrElse(s: Option<string>, fallback: string): (r: string)
    ensures Truthy(s) ==> r == s.value
    ensures !Truthy(s) ==> r == fallback
  {
    if Truthy(s) then s.value else fallback
  }
}
