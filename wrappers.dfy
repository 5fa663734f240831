/** Failure-compatible result and option types shared by the other modules. */
module Wrappers {

  datatype Option<+T> = None | Some(value: T)

  /** Rust's `Result`: usable with `:-`, so `?` reads as it does in Rust. */
  datatype Result<+T, +E> = Ok(value: T) | Err(error: E) {

    predicate IsFailure() {
      Err?
    }

    function PropagateFailure<U>(): Result<U, E>
      requires Err?
    {
      Err(error)
    }

    function Extract(): T
      requires Ok?
    {
      value
    }
  }

  /** An optional sequence, with absence read as the empty sequence. */
  function OrEmpty<T>(o: Option<seq<T>>): seq<T>
  {
    match o
    case None => []
    case Some(s) => s
  }
}
