/** Shared vocabulary of the engine: the index width, the error model and
    half-open index ranges. */
module Base {

  /** The largest value of the host's `usize`, 64 bits wide. */
  const USIZE_MAX: nat := 0xFFFF_FFFF_FFFF_FFFF

  /** A value that fits in a `usize`. */
  type Usize = n: nat | n <= USIZE_MAX

  /** The two ways a layout computation can fail. */
  datatype LayoutError =
    | Overflow                       // a footprint exceeds the maximum index
    | InvalidSize(reason: string)    // a configuration that the adapter refuses

  /** Outcome of a fallible layout step. */
  datatype Result<+T> = Ok(value: T) | Err(error: LayoutError) {
    predicate IsFailure() { Err? }

    function PropagateFailure<U>(): Result<U>
      requires Err?
    {
      Err(error)
    }

    function Extract(): T
      requires Ok?
    {
      value
    }
  }

  datatype Option<+T> = None | Some(value: T)

  /** The half-open index range `[start, end)`. */
  datatype Range = Range(start: nat, end: nat) {
    predicate Contains(k: nat) { start <= k < end }
  }

  /** `a` lies entirely before or entirely after `b`, so no index is in both. */
  predicate Separate(aStart: nat, aLen: nat, bStart: nat, bLen: nat) {
    aStart + aLen <= bStart || bStart + bLen <= aStart
  }
}
