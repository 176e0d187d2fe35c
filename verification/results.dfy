/** The optional values, error kinds and results every module of the return
    service model shares.

- Option<T> stands for a TypeScript value that may be undefined or null.
- ErrorKind is the subset of MedusaError types the return service raises.
- Result<T> is a computed value or the error that aborts the enclosing
  transaction; Check is a validation that passes or fails with an error.
 */
module Results {

  datatype Option<+T> = None | Some(value: T) {

    /** The value, or `default` when absent (the `??` operator). */
    function GetOr(default: T): T {
      match this
      case Some(v) => v
      case None => default
    }
  }

  /** The MedusaError types that the return service throws. */
  datatype ErrorKind = NotFound | InvalidData | NotAllowed

  datatype Result<+T> = Ok(value: T) | Err(error: ErrorKind) {

    predicate IsFailure() {
      Err?
    }

    function PropagateFailure<U>(): Result<U>
      requires Err?
    {
      Err(error)
    }

    function Extract(): T
      requires Ok?
    {
      value
    }
  }

  /** A validation without a result value: it passes or throws. */
  datatype Check = Pass | Fail(error: ErrorKind)

  /** JavaScript truthiness of an optional string: undefined, null and "" are falsy. */
  predicate Truthy(s: Option<string>) {
    s.Some? && s.value != ""
  }
}
