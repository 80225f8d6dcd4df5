/** Shared wrappers: optional values, recoverable errors, and the way a run of
    the program ends (a value, a `process::exit` with a code, or a panic). */
module Base {

  datatype Option<+T> = None | Some(value: T) {
    function GetOr(default: T): T {
      match this
      case Some(v) => v
      case None => default
    }
  }

  /** A recoverable error return, as Rust's `Result`. */
  datatype Result<+T, +E> = Ok(value: T) | Err(error: E)

  /** How a computation ends: with a value, with `std::process::exit(code)`
      after printing `message`, or with a panic (`unwrap`, `expect`, an out
      of bounds index). */
  datatype Outcome<+T> =
    | Done(value: T)
    | Exit(code: int, message: string)
    | Panic(message: string)
  {
    predicate Aborted() { !Done? }

    /** The same exit or panic, passed up to a caller whose result has
        another type: a panic or an exit ends the whole program. */
    function Forward<U>(): (r: Outcome<U>)
      requires Aborted()
      ensures r.Aborted() && r.Exit? == Exit? && r.message == message
      ensures Exit? ==> r.code == code
    {
      if Exit? then Exit(code, message) else Panic(message)
    }
  }
}
