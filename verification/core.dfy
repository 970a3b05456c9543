/**
 Shared building blocks of the domain layer: identities and the outcome of an
 operation that can fail a validation rule.
 */
module Core {

  /** A 128-bit identity, as sixteen bytes. */
  type Guid = g: seq<bv8> | |g| == 16 witness seq(16, _ => 0 as bv8)

  /** The outcome of a domain operation: the new value, or the reason it was refused. */
  datatype Result<+R, +E> = Success(value: R) | Failure(error: E)
}
