/**
 * The scripts draw every random choice with `Math.random()`, a number in [0, 1).
 * The model takes each draw as a parameter of type `Draw` and works with exact
 * real arithmetic.
 */
module Draws {

  /** One value returned by `Math.random()`. */
  type Draw = r: real | 0.0 <= r < 1.0

  /** For a draw r, r * n lies in [0, n), and in [0, n] when n is zero. */
  lemma {:induction false} ScaledBelow(r: Draw, n: nat)
    ensures 0.0 <= r * n as real
    ensures n > 0 ==> r * n as real < n as real
  {
    if n > 0 {
      ScaledBelow(r, n - 1);
      assert r * n as real == r * (n - 1) as real + r;
    }
  }

  /** For a draw r and a positive n, r * n lies in [0, n), so its floor is an index below n. */
  lemma ScaledFloorBounds(r: Draw, n: nat)
    requires n > 0
    ensures 0 <= (r * n as real).Floor < n
  {
    ScaledBelow(r, n);
  }

  /** `Math.floor(r * n)`: the index that picks one of n candidates. */
  function RandomIndex(r: Draw, n: nat): (k: nat)
    requires n > 0
    ensures k < n
  {
    ScaledFloorBounds(r, n);
    (r * n as real).Floor
  }

  /** `Math.floor(r * (hi - lo + 1)) + lo`: the idiom every script uses for an integer in [lo, hi]. */
  function RandomInt(r: Draw, lo: int, hi: int): (k: int)
    requires lo <= hi
    ensures lo <= k <= hi
  {
    lo + RandomIndex(r, hi - lo + 1)
  }

  /** Every index below n is the result of some draw, so the range of RandomIndex is exactly [0, n). */
  lemma RandomIndexOnto(n: nat, k: nat)
    requires k < n
    ensures var r: real := k as real / n as real;
            0.0 <= r < 1.0 && RandomIndex(r, n) == k
  {
    var r: real := k as real / n as real;
    assert r * n as real == k as real;
    assert r < 1.0 by {
      assert r * n as real < 1.0 * n as real;
    }
  }

  /** Every integer in [lo, hi] is the result of some draw, so the bounds of RandomInt are tight. */
  lemma RandomIntOnto(lo: int, hi: int, k: int)
    requires lo <= k <= hi
    ensures var r: real := (k - lo) as real / (hi - lo + 1) as real;
            0.0 <= r < 1.0 && RandomInt(r, lo, hi) == k
  {
    RandomIndexOnto(hi - lo + 1, k - lo);
  }
}
