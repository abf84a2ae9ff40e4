/**
 * Facts about Euclidean division that the solver does not find on its own:
 * a quotient and remainder are determined by the dividend.
 */
module IntArith {

  lemma MultipleBounds(d: int, m: int)
    requires m >= 1
    ensures d >= 1 ==> d * m >= m
    ensures d <= -1 ==> d * m <= -m
  {
    if d >= 1 {
      assert d * m == (d - 1) * m + m;
    } else if d <= -1 {
      assert d * m == (d + 1) * m - m;
    }
  }

  /** A multiple of `m` strictly between -m and m is zero. */
  lemma SmallMultipleIsZero(d: int, m: int, e: int)
    requires m >= 1 && d * m == e && -m < e < m
    ensures d == 0
  {
    MultipleBounds(d, m);
  }

  /** Dividing `q * m + r` by `m`, for `0 <= r < m`, gives quotient `q` and remainder `r`. */
  lemma DivModOfSum(q: int, r: int, m: int)
    requires m >= 1 && 0 <= r < m
    ensures (q * m + r) / m == q
    ensures (q * m + r) % m == r
  {
    var x := q * m + r;
    var q', r' := x / m, x % m;
    assert (q' - q) * m == r - r' by {
      assert x == q' * m + r';
      assert (q' - q) * m == q' * m - q * m;
    }
    SmallMultipleIsZero(q' - q, m, r - r');
  }
}
