/** Value types shared by the authentication layer and the todo service. */
module Common {

  /** A value that may be absent: JavaScript's `undefined`/`null` on an optional field. */
  datatype Option<+T> = None | Some(value: T) {
    /** The value, or `default` when absent: the `??` operator. */
    function GetOr(default: T): T {
      match this
      case Some(v) => v
      case None => default
    }
  }

  /** Either a value or the message of the error the operation threw. */
  datatype Result<+T> = Success(value: T) | Failure(error: string)

  /**
   * The outcome of an ownership-scoped todo operation: the value, the
   * `null` the service returns for an unknown id, or the `Error('FORBIDDEN')`
   * with `code = 403` it throws when the record belongs to someone else.
   */
  datatype Outcome<+T> = Ok(value: T) | NotFound | Forbidden

  /**
   * The identifier of a user. The store issues identifiers itself; the
   * model issues them from a counter, so they are natural numbers.
   */
  type UserId = nat
}
