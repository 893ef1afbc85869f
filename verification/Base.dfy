/** Shared vocabulary: optional values and the two's-complement arithmetic of Rust's `i64`. */
module Base {
  datatype Option<+T> = None | Some(value: T)

  /** Identifiers are compared by their canonical text. */
  type Uuid = string

  const I64_MAX: int := 0x7FFF_FFFF_FFFF_FFFF
  const I64_MIN: int := -0x8000_0000_0000_0000

  type I64 = x: int | I64_MIN <= x <= I64_MAX

  /** The `i64` that a wrapping operation with mathematical result `x` leaves behind. */
  function Wrap64(x: int): I64 {
    (x + 0x8000_0000_0000_0000) % 0x1_0000_0000_0000_0000 - 0x8000_0000_0000_0000
  }

  /** The `i64` absolute value, which wraps back to the most negative number there. */
  function Abs64(x: int): I64 {
    Wrap64(if x < 0 then -x else x)
  }

  lemma WrapFits(x: int)
    requires I64_MIN <= x <= I64_MAX
    ensures Wrap64(x) == x
  {
  }

  /**
   * A credit onto a non-negative balance comes out negative exactly when it overflows, so the
   * `next < 0` guard of a posting also refuses every overflowing credit.
   */
  lemma OverflowingCreditTurnsNegative(balance: I64, amount: I64)
    requires 0 <= balance && 0 < amount
    ensures Wrap64(balance + amount) < 0 <==> I64_MAX < balance + amount
    ensures balance + amount <= I64_MAX ==> Wrap64(balance + amount) == balance + amount
  {
    if I64_MAX < balance + amount {
      assert (balance + amount + 0x8000_0000_0000_0000) % 0x1_0000_0000_0000_0000
          == balance + amount + 0x8000_0000_0000_0000 - 0x1_0000_0000_0000_0000;
    }
  }
}
