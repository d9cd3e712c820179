/** Values shared by the repositories and the error-translation middleware:
    optional values, the key a not-found error carries, the repository's
    typed failures, and the two result shapes its operations return. */
module Outcomes {

  /** A nullable value (`T?` / `int?` in the repository's signatures). */
  datatype Option<+T> = None | Some(value: T)

  /** The key a `NotFoundException` carries: the boxed id, or the literal
      "No Key Provided" when the caller passed a null id. */
  datatype Key = IntKey(id: int) | NoKeyProvided

  /** Failures the repository layer raises. `NotFound` is the domain's
      `NotFoundException(subject, key)`; `ConcurrencyConflict` stands for the
      store's own `DbUpdateConcurrencyException`, raised when an update
      touches no row. */
  datatype Failure =
    | NotFound(subject: string, key: Key)
    | ConcurrencyConflict(subject: string, id: int)

  /** Outcome of an operation that returns a value or throws. */
  datatype Result<+V> = Ok(value: V) | Err(error: Failure)

  /** Outcome of an operation that returns nothing or throws. */
  datatype Outcome = Done | Fail(error: Failure)
}
