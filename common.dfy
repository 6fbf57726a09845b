/** Shared vocabulary of the wallet ledger model: optional values, the exceptions the
    handlers raise (named after the .NET types they stand for), results, time and money. */
module Common {

  /** Entity identifiers (the source's Guid). Only equality (and, for a deterministic
      tie-break in history listings, order) is used. */
  type Guid = nat

  /** A point in time in 100-nanosecond ticks, as DateTime counts them. */
  type Instant = int

  const TicksPerHour: int := 36_000_000_000
  const TicksPerDay: int := 24 * TicksPerHour

  /** Money is fixed-point numeric(18,4): an amount is an integer count of ten-thousandths. */
  const AmountScale: int := 10_000

  /** numeric(18,4) holds 14 integer digits: a stored value u satisfies |u| < 10^18 units. */
  const NumericLimit: int := 1_000_000_000_000_000_000

  predicate FitsNumeric(u: int) {
    -NumericLimit < u < NumericLimit
  }

  datatype Option<T> = None | Some(value: T)

  /** One failed rule of a FluentValidation validator. */
  datatype ValidationFailure = ValidationFailure(propertyName: string, errorMessage: string)

  /** The exceptions the modelled code throws or propagates. */
  datatype Exception =
    | UnauthorizedAccessException(message: string)
    | InvalidOperationException(message: string)
    | ArgumentException(message: string)
    | KeyNotFoundException(message: string)
    | ValidationException(errors: seq<ValidationFailure>)
      /** An UPDATE matched no row: the row is gone or its version token moved. */
    | DbUpdateConcurrencyException
      /** Any other failure of the store: a violated constraint, a lost connection, a failed commit. */
    | DbFailure

  datatype Result<T> = Ok(value: T) | Err(error: Exception)

  /** The unit value returned by handlers that produce nothing (MediatR's Unit). */
  datatype Unit = Unit

  /** Infrastructure failures injected into one handler run: the numbers (1, 2, ...) of the
      SaveChanges calls that fail, in program order, and whether the commit fails. */
  datatype Outage = Outage(saves: set<nat>, commit: bool)

  const NoOutage: Outage := Outage({}, false)
}
