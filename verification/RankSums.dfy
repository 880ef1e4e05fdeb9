/** Sums of the contributions r + seed over sets of ranks. */
module RankSums {

  /** The sum of r + seed over the ranks r below n that belong to s. */
  function SumOver(s: set<int>, n: nat, seed: int): int {
    if n == 0 then 0 else SumOver(s, n - 1, seed) + if n - 1 in s then n - 1 + seed else 0
  }

  lemma {:induction false} SumOfDisjoint(a: set<int>, b: set<int>, n: nat, seed: int)
    requires a !! b
    ensures SumOver(a + b, n, seed) == SumOver(a, n, seed) + SumOver(b, n, seed)
  {
    if n > 0 { SumOfDisjoint(a, b, n - 1, seed); }
  }

  lemma {:induction false} SumOfNone(s: set<int>, n: nat, seed: int)
    requires forall r | 0 <= r < n :: r !in s
    ensures SumOver(s, n, seed) == 0
  {
    if n > 0 { SumOfNone(s, n - 1, seed); }
  }

  lemma {:induction false} SumOfOne(r: int, n: nat, seed: int)
    requires 0 <= r < n
    ensures SumOver({r}, n, seed) == r + seed
  {
    if r == n - 1 {
      SumOfNone({r}, n - 1, seed);
    } else {
      SumOfOne(r, n - 1, seed);
    }
  }

  /** The closed form the clients compare with. */
  function ClosedForm(n: nat, seed: int): int {
    n * (n - 1) / 2 + n * seed
  }

  lemma {:induction false} SumOfAll(s: set<int>, n: nat, seed: int)
    requires forall r | 0 <= r < n :: r in s
    ensures SumOver(s, n, seed) == ClosedForm(n, seed)
  {
    if n > 0 {
      SumOfAll(s, n - 1, seed);
      assert n * (n - 1) == (n - 1) * (n - 2) + 2 * (n - 1);
      assert n * seed == (n - 1) * seed + seed;
    }
  }

  /** With a non-negative seed a set that misses ranks gives a smaller sum, and an
      equal one only if every missing rank contributes 0. */
  lemma {:induction false} MissingRanksLowerTheSum(s: set<int>, n: nat, seed: int)
    requires seed >= 0
    ensures SumOver(s, n, seed) <= ClosedForm(n, seed)
    ensures SumOver(s, n, seed) == ClosedForm(n, seed) <==> forall r | 0 <= r < n && r !in s :: r + seed == 0
  {
    if n > 0 {
      MissingRanksLowerTheSum(s, n - 1, seed);
      assert n * (n - 1) == (n - 1) * (n - 2) + 2 * (n - 1);
      assert n * seed == (n - 1) * seed + seed;
    }
  }

  lemma ClosedFormNonNegative(n: nat, seed: int)
    requires seed >= 0
    ensures ClosedForm(n, seed) >= 0
  {
    SumOfNone({}, n, seed);
    MissingRanksLowerTheSum({}, n, seed);
  }

  /** Whatever the sign of the seed, the sum over any set lies between n times the
      negative part of the seed and the closed form for its positive part. */
  lemma {:induction false} SumBounds(s: set<int>, n: nat, seed: int)
    ensures n * (if seed < 0 then seed else 0) <= SumOver(s, n, seed)
    ensures SumOver(s, n, seed) <= ClosedForm(n, if seed < 0 then 0 else seed)
  {
    if n > 0 {
      SumBounds(s, n - 1, seed);
      var low, high := if seed < 0 then seed else 0, if seed < 0 then 0 else seed;
      assert n * (n - 1) == (n - 1) * (n - 2) + 2 * (n - 1);
      assert n * high == (n - 1) * high + high;
      assert n * low == (n - 1) * low + low;
    }
  }
}
