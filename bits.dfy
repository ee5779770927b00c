/**
 * Bitwise OR of C `int` values, as used by the busy query of the module,
 * which ORs both reference counts into a zero-initialised result.
 *
 * The counters are modelled as unbounded integers, so the OR is defined on
 * unbounded two's-complement integers: bit k of BitOr(a, b) is set iff bit k
 * of a or bit k of b is set.  On values that fit a 32-bit `int` it agrees
 * with C's `|`.
 */
module Bits {

  function Abs(x: int): (r: nat)
    ensures r == x || r == -x
  {
    if x < 0 then -x else x
  }

  /** Two's-complement bitwise OR of unbounded integers.  Dafny's `/` and `%`
      by 2 are floor division and a non-negative remainder, so `a / 2` is an
      arithmetic shift right and `a % 2` is the lowest bit, also for negative a. */
  function BitOr(a: int, b: int): (r: int)
    decreases Abs(a) + Abs(b)
  {
    if a == 0 then b
    else if b == 0 then a
    else if a == -1 || b == -1 then -1
    else 2 * BitOr(a / 2, b / 2) + (if a % 2 == 1 || b % 2 == 1 then 1 else 0)
  }

  /** The OR of two integers is zero exactly when both are zero: this is why
      the busy query may OR the counters instead of testing each one. */
  lemma {:induction false} BitOrZero(a: int, b: int)
    ensures BitOr(a, b) == 0 <==> a == 0 && b == 0
    decreases Abs(a) + Abs(b)
  {
    if a == 0 || b == 0 || a == -1 || b == -1 {
    } else {
      // Neither operand is 0 or -1, so the OR is built from the OR of the
      // shifted operands; if both shifted operands were 0, each operand
      // would be 1 and the low bit would be set.
      BitOrZero(a / 2, b / 2);
    }
  }

  /** Zero is the identity of the OR, on either side. */
  lemma BitOrIdentity(a: int)
    ensures BitOr(0, a) == a && BitOr(a, 0) == a
  {
  }
}
