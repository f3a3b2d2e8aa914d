/** Outcomes of the ledger operations: the error kinds the request handlers
    answer with, and the wrappers the operations return. */
module Results {

  /** The three refusals the service sends back, one per guard in the handlers:
      the customer is unknown, the tax identifier is taken, the funds do not
      cover a withdrawal. */
  datatype Error = CustomerNotFound | CustomerAlreadyExists | InsufficientFunds

  datatype Option<+T> = None | Some(value: T)

  /** An operation that yields a value or is refused. */
  datatype Result<+T> = Success(value: T) | Failure(error: Error)

  /** An operation that only succeeds or is refused. */
  datatype Outcome = Pass | Fail(error: Error)
}
