/** The exceptions the domain throws, as values: an operation that throws in the
    source returns `Err(e)` (or `Fail(e)`) here. */
module Errors {

  datatype Error =
    | IllegalArgument(message: string)
    | IllegalState(message: string)
    /** `ArithmeticException` from `BigDecimal.divide`. */
    | Arithmetic(message: string)
    /** A `NullPointerException`: a field or argument dereferenced without a null check. */
    | NullReference(message: string)
    /** `ConcurrencyException`: the stream held `actualVersion` events, not `expectedVersion`. */
    | Concurrency(aggregateId: string, expectedVersion: int, actualVersion: int)
    /** The `IllegalStateException` that `save` throws around a `ConcurrencyException`. */
    | ConflictOnSave(cause: Error)
    /** `Account.InsufficientBalanceException`, amounts in cents. */
    | InsufficientBalance(balance: int, requested: int)
}
