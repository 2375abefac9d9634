/** An optional value and a success-or-error result, as the ledger's
    replies and request fields need them. */
module Optional {

  /** A value that may be absent: a missing form field, a journal file that
      does not exist, an empty lookup. */
  datatype Option<+T> = None | Some(value: T) {

    /** The field's value, or `default` when the request left it out. */
    function GetOr(default: T): T {
      match this
      case Some(v) => v
      case None => default
    }
  }

  /** The outcome of an operation that can be refused. */
  datatype Result<+T, +E> = Success(value: T) | Failure(error: E)
}
