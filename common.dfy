/** Swift's optionals and its `Result<Success, Failure>` enum, as datatypes. */
module Common {

  /** The callbacks that reach a weak delegate when `es` are made: all of them while one is attached, none otherwise. */
  function Delivered<E>(attached: bool, es: seq<E>): seq<E> {
    if attached then es else []
  }

  /** A Swift optional: `nil` is `None`. Usable with `:-` to chain lookups that may fail. */
  datatype Option<+T> = None | Some(value: T) {

    /** Swift's nil-coalescing `self ?? default`. */
    function OrElse(default: T): T {
      if Some? then value else default
    }

    predicate IsFailure() {
      None?
    }

    function PropagateFailure<U>(): Option<U>
      requires None?
    {
      None
    }

    function Extract(): T
      requires Some?
    {
      value
    }
  }

  /** Swift's `Result`: `.success(value)` or `.failure(error)`. */
  datatype Result<+T, +E> = Success(value: T) | Failure(error: E)
}
