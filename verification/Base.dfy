/** Vocabulary shared by every part of the broker model. */
module Base {
  datatype Option<+T> = None | Some(value: T)

  datatype Result<+T, +E> = Ok(value: T) | Err(error: E)

  /** Times and durations are whole nanoseconds, as Go's time package counts them. */
  const SECOND: int := 1_000_000_000

  const MAX_INT64: int := 0x7FFF_FFFF_FFFF_FFFF

  const TWO_64: int := 0x1_0000_0000_0000_0000

  predicate IsInt64(x: int) {
    -MAX_INT64 - 1 <= x <= MAX_INT64
  }

  /** time.Duration. */
  type Duration = d: int | IsInt64(d) witness 0

  /** What a 64-bit signed register holds after an operation whose exact result is x. */
  function Wrap64(x: int): (r: int)
    ensures IsInt64(r)
    ensures IsInt64(x) ==> r == x
    ensures (r - x) % TWO_64 == 0
  {
    (x + MAX_INT64 + 1) % TWO_64 - MAX_INT64 - 1
  }

  /** RFC 3339 formatting keeps whole seconds; the fraction is cut off. */
  function WholeSeconds(t: int): int {
    t / SECOND
  }

  lemma SecondsBelow(t: int)
    ensures WholeSeconds(t) * SECOND <= t < (WholeSeconds(t) + 1) * SECOND
  {
  }
}
