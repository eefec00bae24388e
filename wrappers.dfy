/** Optional values and results that may carry an error, as the bot's code uses `None` and exceptions. */
module Wrappers {

  datatype Option<T> = None | Some(value: T)

  datatype Result<T, E> = Success(value: T) | Failure(error: E)

  /** Python truthiness of an optional float: absent and `0.0` are both false. */
  predicate Truthy(o: Option<real>)
  {
    o.Some? && o.value != 0.0
  }

  /** `o or fallback` for an optional float. */
  function OrElse(o: Option<real>, fallback: real): (r: real)
    ensures Truthy(o) ==> r == o.value
    ensures !Truthy(o) ==> r == fallback
  {
    if Truthy(o) then o.value else fallback
  }
}
