/**
 * Bounded stepping of a position, the `advance_bounded` primitive that
 * neighbourhood.hpp builds on. Positions are integer indices into one
 * sequence; a bidirectional iterator moves one position at a time, so the
 * primitive is modelled as a loop of unit steps.
 *
 * `Advance(lo, hi, it, k)` starts at `it`, which lies in the closed range
 * [lo, hi], and takes up to |k| steps in the direction of the sign of `k`,
 * stopping early at `hi` when moving forward or at `lo` when moving back.
 */
module AdvanceBounded {

  /** Distance between two positions. */
  function Dist(a: int, b: int): (d: nat)
  {
    if a <= b then b - a else a - b
  }

  /** The position of [lo, hi] nearest to x. */
  function Clamp(x: int, lo: int, hi: int): (r: int)
    requires lo <= hi
    ensures lo <= r <= hi
    ensures forall y | lo <= y <= hi :: Dist(x, r) <= Dist(x, y)
  {
    if x < lo then lo else if hi < x then hi else x
  }

  /**
   * Moves the position `it` by `k` unit steps, forward when `k` is positive
   * and backward when it is negative, never leaving [lo, hi]. The result is
   * the target `it + k` pulled back into the range.
   */
  method Advance(lo: int, hi: int, it: int, k: int) returns (r: int)
    requires lo <= it <= hi
    ensures r == Clamp(it + k, lo, hi)
  {
    r := it;
    var remaining := k;
    if remaining >= 0 {
      while remaining > 0 && r != hi
        invariant it <= r <= hi
        invariant 0 <= remaining
        invariant r + remaining == it + k
        decreases remaining
      {
        r := r + 1;
        remaining := remaining - 1;
      }
    } else {
      while remaining < 0 && r != lo
        invariant lo <= r <= it
        invariant remaining <= 0
        invariant r + remaining == it + k
        decreases -remaining
      {
        r := r - 1;
        remaining := remaining + 1;
      }
    }
  }

  /**
   * A bounded advance never takes more than |k| steps, and it takes all
   * |k| of them exactly when the target lies inside [lo, hi]; otherwise it
   * stops on the bound it was heading for.
   */
  lemma StepsTaken(lo: int, hi: int, it: int, k: int)
    requires lo <= it <= hi
    ensures Dist(it, Clamp(it + k, lo, hi)) <= Dist(0, k)
    ensures Dist(it, Clamp(it + k, lo, hi)) == Dist(0, k) <==> lo <= it + k <= hi
    ensures hi < it + k ==> Clamp(it + k, lo, hi) == hi
    ensures it + k < lo ==> Clamp(it + k, lo, hi) == lo
  {
  }
}
