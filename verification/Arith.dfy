/** Facts about multiplication and division that the tree and the rounds need, and finite
    sums for the termination measures, each proved away from everything else. */
module Arith {

  /** 1 if b holds, else 0. */
  function One(b: bool): nat {
    if b then 1 else 0
  }

  function Sum(xs: seq<int>): int {
    if xs == [] then 0 else Sum(xs[..|xs| - 1]) + xs[|xs| - 1]
  }

  lemma {:induction false} SumNonNegative(xs: seq<int>)
    requires forall i | 0 <= i < |xs| :: xs[i] >= 0
    ensures Sum(xs) >= 0
  {
    if xs != [] { SumNonNegative(xs[..|xs| - 1]); }
  }

  lemma {:induction false} SumAtMost(xs: seq<int>, each: int)
    requires forall i | 0 <= i < |xs| :: xs[i] <= each
    ensures Sum(xs) <= |xs| * each
  {
    if xs != [] {
      SumAtMost(xs[..|xs| - 1], each);
      OneMoreTime(|xs| - 1, each);
    }
  }

  lemma OneMoreTime(n: int, each: int)
    ensures (n + 1) * each == n * each + each
  {
  }

  lemma {:induction false} SumOneChange(xs: seq<int>, i: nat, x: int)
    requires i < |xs|
    ensures Sum(xs[i := x]) == Sum(xs) - xs[i] + x
  {
    var n := |xs| - 1;
    if i < n {
      assert xs[i := x][..n] == xs[..n][i := x];
      SumOneChange(xs[..n], i, x);
    } else {
      assert xs[i := x][..n] == xs[..n];
    }
  }

  /** Two sequences that differ at i only. */
  lemma SumDiffers(xs: seq<int>, ys: seq<int>, i: nat)
    requires i < |xs| == |ys| && forall j | 0 <= j < |xs| && j != i :: xs[j] == ys[j]
    ensures Sum(ys) == Sum(xs) - xs[i] + ys[i]
  {
    SumOneChange(xs, i, ys[i]);
    assert ys == xs[i := ys[i]];
  }

  lemma SumOneMore(xs: seq<int>, x: int)
    ensures Sum(xs + [x]) == Sum(xs) + x
  {
    assert (xs + [x])[..|xs|] == xs;
  }

  lemma {:induction false} MulAtLeast(d: int, k: int)
    requires d >= 1 && k >= 0
    ensures d * k >= k
  {
    if d > 1 {
      MulAtLeast(d - 1, k);
      assert d * k == (d - 1) * k + k;
    }
  }

  lemma MulStep(a: int, b: int, k: int)
    requires a < b && k >= 0
    ensures a * k + k <= b * k
  {
    MulAtLeast(b - a, k);
    assert (b - a) * k == b * k - a * k;
  }

  lemma DivBounds(x: int, k: int)
    requires k >= 1
    ensures (x / k) * k <= x < (x / k) * k + k
    ensures x % k == x - (x / k) * k
  {
  }

  /** x / k is q exactly for the k numbers q*k .. q*k+k-1. */
  lemma DivIs(x: int, q: int, k: int)
    requires k >= 1
    ensures x / k == q <==> q * k <= x < q * k + k
  {
    DivBounds(x, k);
    if q < x / k {
      MulStep(q, x / k, k);
    } else if x / k < q {
      MulStep(x / k, q, k);
    }
  }

  lemma DivShrinks(x: int, k: int)
    requires k >= 1 && x >= 0
    ensures 0 <= x / k <= x
  {
    DivBounds(x, k);
    if x / k < 0 {
      MulStep(x / k, 0, k);
    } else if x / k > x {
      MulAtLeast(k, x / k);
    }
  }

  /** q*k + m has quotient q and remainder m. */
  lemma DivModOf(q: int, m: int, k: int)
    requires 0 <= m < k
    ensures (q * k + m) / k == q && (q * k + m) % k == m
  {
    DivIs(q * k + m, q, k);
    DivBounds(q * k + m, k);
  }
}
