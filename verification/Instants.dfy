/**
 Instants as the modelled code sees them: the number a timestamp parses to, or
 no number at all. The source's timestamp pattern admits strings that cannot be
 read as a date, and every comparison with such an instant is false.
 */
module Instants {
  datatype Instant = At(ms: int) | Unreadable

  /** `a < b` */
  predicate Less(a: Instant, b: Instant) {
    a.At? && b.At? && a.ms < b.ms
  }

  /** `a > b` */
  predicate Greater(a: Instant, b: Instant) {
    Less(b, a)
  }

  /** `a >= b`, which is not the negation of `a < b` when either is unreadable. */
  predicate GreaterOrEqual(a: Instant, b: Instant) {
    a.At? && b.At? && a.ms >= b.ms
  }
}
