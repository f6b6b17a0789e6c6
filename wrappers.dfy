/** Small value types shared by every cursor model. */
module Wrappers {

  /** A value that may be absent; `None` stands for Java's `null` or "no element". */
  datatype Option<+T> = None | Some(value: T)

  /** The unchecked exceptions the modelled code can raise. */
  datatype Failure =
    | IllegalArgument     // List.subList with fromIndex > toIndex, or an oversized list
    | NullPointer         // Objects.requireNonNull / a call on a null spliterator
    | CharacteristicsMismatch  // concat of two spliterators whose characteristics differ (java.lang.Error)
    | NoSuchElement       // Iterator.next() on an exhausted iterator

  /** A value, or the exception that was thrown instead of producing it. */
  datatype Result<+R> = Ok(value: R) | Err(failure: Failure)

  /** What a `trySplit` call produced: `null`, a new cursor, or an exception. */
  datatype SplitOutcome<C> = Declined | Split(prefix: C) | Thrown(failure: Failure)

  /** Java's `Integer.MAX_VALUE` and `Long.MAX_VALUE`. */
  const INT_MAX: int := 0x7fff_ffff
  const LONG_MAX: int := 0x7fff_ffff_ffff_ffff

  function Min(a: int, b: int): int { if a <= b then a else b }

  /** Java `int` addition: the mathematical sum wrapped into [-2^31, 2^31). */
  function WrapInt(x: int): (r: int)
    ensures -0x8000_0000 <= r <= INT_MAX
    ensures (r - x) % 0x1_0000_0000 == 0
  {
    (x + 0x8000_0000) % 0x1_0000_0000 - 0x8000_0000
  }

  /** Java `long` addition: the mathematical sum wrapped into [-2^63, 2^63). */
  function WrapLong(x: int): (r: int)
    ensures -0x8000_0000_0000_0000 <= r <= LONG_MAX
    ensures (r - x) % 0x1_0000_0000_0000_0000 == 0
  {
    (x + 0x8000_0000_0000_0000) % 0x1_0000_0000_0000_0000 - 0x8000_0000_0000_0000
  }
}
