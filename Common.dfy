/** Values shared by every module of the model: an optional value (JavaScript's
    `undefined`/`null` versus a present value) and the truthiness test that
    the `||` operator applies to strings. */
module Common {

  datatype Option<+T> = None | Some(value: T) {

    /** `x ?? default`: the value when present, otherwise the default */
    function GetOr(default: T): T
    {
      if Some? then value else default
    }
  }

  /** A possibly absent string is truthy in JavaScript when it is present and non-empty. */
  predicate Truthy(s: Option<string>)
  {
    s.Some? && s.value != ""
  }

  /** `s || fallback` for a possibly absent string */
  function OrElse(s: Option<string>, fallback: string): (r: string)
    ensures Truthy(s) ==> r == s.value
    ensures !Truthy(s) ==> r == fallback
  {
    if Truthy(s) then s.value else fallback
  }
}
