/** What a sum operation returns, in every interleaving and under every failure. */
module SumResult {
  import Arith
  import opened KaryTree
  import opened SpanningTree
  import opened RankSums
  import opened SumProtocol
  import opened SumInvariant

  /* ---------- which ranks a result covers ---------- */

  /** p has collected the result of its child c. */
  predicate CollectedBy(o: Op, p: int, c: int)
    requires o.Valid() && o.Tree().IsRank(c)
  {
    p in o.handlers && o.Tree().Slot(c) < o.handlers[p].got
  }

  /** x's contribution is in r's sum: on the way from x up to r every rank's result was
      collected by its parent. */
  predicate Covers(o: Op, r: int, x: int)
    requires o.Valid() && o.Tree().IsRank(x)
    decreases o.Tree().Unrotate(x)
  {
    x == r || (x != o.root &&
               (ParentIsCloser(o.Tree(), x);
                var p := o.Tree().Parent(x);
                CollectedBy(o, p, x) && Covers(o, r, p)))
  }

  function Coverage(o: Op, r: int): set<int>
    requires o.Valid()
  {
    set x | 0 <= x < o.ranks && Covers(o, r, x)
  }

  /** The part of r's coverage that comes from its first m children. */
  function BelowFirst(o: Op, r: int, m: nat): set<int>
    requires o.Valid() && o.Tree().IsRank(r) && m <= |o.Tree().Children(r)|
  {
    set x | 0 <= x < o.ranks && ViaFirst(o, r, m, x)
  }

  predicate ViaFirst(o: Op, r: int, m: nat, x: int)
    requires o.Valid() && o.Tree().IsRank(r) && m <= |o.Tree().Children(r)| && o.Tree().IsRank(x)
  {
    exists j :: 0 <= j < m && Covers(o, o.Tree().Children(r)[j], x)
  }

  lemma {:induction false} CoversIsAbove(o: Op, r: int, x: int)
    requires o.Valid() && o.Tree().IsRank(x) && Covers(o, r, x)
    ensures Above(o.Tree(), r, x)
    decreases o.Tree().Unrotate(x)
  {
    if x != r {
      ParentIsCloser(o.Tree(), x);
      CoversIsAbove(o, r, o.Tree().Parent(x));
    }
  }

  /** Below r, coverage goes through the child of r that x lies under. */
  lemma {:induction false} CoversThroughChild(o: Op, r: int, x: int) returns (c: int)
    requires o.Valid() && o.Tree().IsRank(x) && Covers(o, r, x) && x != r
    ensures o.IsChild(c) && o.Tree().Parent(c) == r && CollectedBy(o, r, c) && Covers(o, c, x)
    decreases o.Tree().Unrotate(x)
  {
    ParentIsCloser(o.Tree(), x);
    var p := o.Tree().Parent(x);
    if p == r {
      c := x;
    } else {
      c := CoversThroughChild(o, r, p);
    }
  }

  lemma {:induction false} CoversBelowChild(o: Op, r: int, c: int, x: int)
    requires o.Valid() && o.Tree().IsRank(x) && o.IsChild(c) && o.Tree().Parent(c) == r
    requires CollectedBy(o, r, c) && Covers(o, c, x)
    ensures Covers(o, r, x) && x != r
    decreases o.Tree().Unrotate(x)
  {
    ParentIsCloser(o.Tree(), c);
    CoversIsAbove(o, c, x);
    AboveIsCloser(o.Tree(), c, x);
    if x != c {
      ParentIsCloser(o.Tree(), x);
      CoversBelowChild(o, r, c, o.Tree().Parent(x));
    }
  }

  /** r's coverage is r itself and what its collected children cover. */
  lemma CoverageSplits(o: Op, r: int)
    requires o.Valid() && r in o.handlers && HandlerOk(o, r)
    ensures o.handlers[r].got <= |o.Tree().Children(r)|
    ensures Coverage(o, r) == {r} + BelowFirst(o, r, o.handlers[r].got)
    ensures r !in BelowFirst(o, r, o.handlers[r].got)
  {
    var t, got := o.Tree(), o.handlers[r].got;
    forall x | x in BelowFirst(o, r, got) ensures x in Coverage(o, r) && x != r {
      var j :| 0 <= j < got && Covers(o, t.Children(r)[j], x);
      ChildPointsBack(t, r, j);
      CoversBelowChild(o, r, t.Children(r)[j], x);
    }
    forall x | x in Coverage(o, r) && x != r ensures x in BelowFirst(o, r, got) {
      var c := CoversThroughChild(o, r, x);
      ParentLists(t, c);
      var j := t.Slot(c);
      assert 0 <= j < got && Covers(o, t.Children(r)[j], x);
    }
    assert Covers(o, r, r);
  }

  /* ---------- a result is the sum over its coverage ---------- */

  lemma {:induction false} CollectedSum(o: Op, r: int, m: nat)
    requires Inv(o) && r in o.handlers && m <= o.handlers[r].got
    ensures HandlerOk(o, r) && m <= |o.handlers[r].kids| && m <= |o.Tree().Children(r)|
    ensures Collected(o, o.handlers[r].kids, m) == SumOver(BelowFirst(o, r, m), o.ranks, o.seed)
    decreases o.ranks - o.Tree().Unrotate(r), m
  {
    assert HandlerOk(o, r) && SumOk(o, r);
    if m == 0 {
      SumOfNone(BelowFirst(o, r, 0), o.ranks, o.seed);
    } else {
      var t := o.Tree();
      var c := t.Children(r)[m - 1];
      assert Replied(o, o.handlers[r].kids[m - 1]);
      ChildPointsBack(t, r, m - 1);
      ParentIsCloser(t, c);
      CollectedSum(o, r, m - 1);
      assert HandlerOk(o, c);
      RotateInverse(t, c);
      ResultIsPartialSum(o, c);
      LastChildApart(o, r, m);
      SumOfDisjoint(BelowFirst(o, r, m - 1), Coverage(o, c), o.ranks, o.seed);
    }
  }

  lemma LastChildApart(o: Op, r: int, m: nat)
    requires o.Valid() && o.Tree().IsRank(r) && 0 < m <= |o.Tree().Children(r)|
    ensures var c := o.Tree().Children(r)[m - 1];
            BelowFirst(o, r, m) == BelowFirst(o, r, m - 1) + Coverage(o, c)
            && BelowFirst(o, r, m - 1) !! Coverage(o, c)
  {
    var t := o.Tree();
    var c := t.Children(r)[m - 1];
    ChildPointsBack(t, r, m - 1);
    forall x | x in BelowFirst(o, r, m - 1) ensures x !in Coverage(o, c) {
      var j :| 0 <= j < m - 1 && Covers(o, t.Children(r)[j], x);
      ChildPointsBack(t, r, j);
      CoversIsAbove(o, t.Children(r)[j], x);
      if x in Coverage(o, c) {
        CoversIsAbove(o, c, x);
        SiblingsDisjoint(t, t.Children(r)[j], c, x);
      }
    }
  }

  /** Whatever failed, a returned result is the sum of r + seed over its coverage. */
  lemma {:induction false} ResultIsPartialSum(o: Op, r: int)
    requires Inv(o) && Replied(o, r)
    ensures o.handlers[r].sum == SumOver(Coverage(o, r), o.ranks, o.seed)
    decreases o.ranks - o.Tree().Unrotate(r), o.ranks + 1
  {
    assert HandlerOk(o, r) && SumOk(o, r);
    var got := o.handlers[r].got;
    CoverageSplits(o, r);
    ChildCountBelowRanks(o.Tree(), r);
    CollectedSum(o, r, got);
    SumOfDisjoint({r}, BelowFirst(o, r, got), o.ranks, o.seed);
    SumOfOne(r, o.ranks, o.seed);
  }

  lemma ChildCountBelowRanks(t: Topology, r: int)
    requires t.Valid() && t.IsRank(r)
    ensures |t.Children(r)| <= t.ranks
  {
    if t.Unrotate(r) > 0 { Arith.MulAtLeast(t.degree, t.Unrotate(r)); }
  }

  /** A set of ranks below r that contains r and, with each rank, the path up to r. */
  ghost predicate PathClosed(t: Topology, r: int, s: set<int>)
    requires t.Valid()
  {
    && r in s
    && (forall x | x in s :: t.IsRank(x) && Above(t, r, x))
    && (forall x | x in s && x != r :: x != t.root && t.Parent(x) in s)
  }

  lemma CoverageIsPathClosed(o: Op, r: int)
    requires o.Valid() && o.Tree().IsRank(r)
    ensures PathClosed(o.Tree(), r, Coverage(o, r))
  {
    var t, s := o.Tree(), Coverage(o, r);
    assert Covers(o, r, r);
    forall x | x in s ensures t.IsRank(x) && Above(t, r, x) {
      CoversIsAbove(o, r, x);
    }
    forall x | x in s && x != r ensures x != t.root && t.Parent(x) in s {
      ParentIsCloser(t, x);
    }
  }

  lemma ResultCoversAPath(o: Op, r: int)
    requires Inv(o) && Replied(o, r)
    ensures exists s :: PathClosed(o.Tree(), r, s) && o.handlers[r].sum == SumOver(s, o.ranks, o.seed)
  {
    assert HandlerOk(o, r);
    ResultIsPartialSum(o, r);
    CoverageIsPathClosed(o, r);
  }

  /** In every run, whatever fails in it, each value a rank returned is the sum over a
      path-closed set of ranks of its subtree, every rank counted once. */
  lemma PartialSumInEveryRun(ranks: int, root: int, seed: int, tree: bool, acts: seq<Action>, r: int)
    requires TreeFor(ranks, root).Valid() && CanRun(Invoke(ranks, root, seed, tree), acts)
    requires Replied(Run(Invoke(ranks, root, seed, tree), acts), r)
    ensures exists s :: PathClosed(TreeFor(ranks, root), r, s)
                        && Run(Invoke(ranks, root, seed, tree), acts).handlers[r].sum == SumOver(s, ranks, seed)
  {
    InvokeInv(ranks, root, seed, tree);
    RunInv(Invoke(ranks, root, seed, tree), acts);
    RunKeepsInput(Invoke(ranks, root, seed, tree), acts);
    ResultCoversAPath(Run(Invoke(ranks, root, seed, tree), acts), r);
  }

  lemma {:induction false} RunKeepsInput(o: Op, acts: seq<Action>)
    requires CanRun(o, acts)
    ensures Run(o, acts).ranks == o.ranks && Run(o, acts).root == o.root && Run(o, acts).seed == o.seed
    decreases |acts|
  {
    if acts != [] { RunKeepsInput(Apply(o, acts[0]), acts[1..]); }
  }

  /* ---------- complete results ---------- */

  /** x ran and collected the results of all children it has in the tree. */
  predicate Gathered(o: Op, x: int)
    requires o.Valid() && o.Tree().IsRank(x)
  {
    Replied(o, x) && o.handlers[x].got == |o.Tree().Children(x)|
  }

  lemma {:induction false} CoveredHaveReplied(o: Op, r: int, x: int)
    requires Inv(o) && Replied(o, r) && o.Tree().IsRank(x) && Covers(o, r, x)
    ensures Replied(o, x)
    decreases o.Tree().Unrotate(x)
  {
    if x != r {
      ParentIsCloser(o.Tree(), x);
      ParentLists(o.Tree(), x);
      var p := o.Tree().Parent(x);
      assert HandlerOk(o, p) && SumOk(o, p);
      assert Replied(o, o.handlers[p].kids[o.Tree().Slot(x)]);
    }
  }

  lemma {:induction false} AllGatheredCovers(o: Op, x: int)
    requires o.Valid() && o.Tree().IsRank(x)
    requires AllGathered(o)
    ensures Covers(o, o.root, x)
    decreases o.Tree().Unrotate(x)
  {
    if x != o.root {
      ParentIsCloser(o.Tree(), x);
      ParentLists(o.Tree(), x);
      assert Gathered(o, o.Tree().Parent(x));
      AllGatheredCovers(o, o.Tree().Parent(x));
    }
  }

  /** x's contribution is in the invoker's result. */
  predicate Included(o: Op, x: int)
    requires o.Valid() && o.Tree().IsRank(x)
  {
    Covers(o, o.root, x)
  }

  ghost predicate AllIncluded(o: Op)
    requires o.Valid()
  {
    forall x {:trigger Included(o, x)} | o.Tree().IsRank(x) :: Included(o, x)
  }

  /** Every rank whose contribution x + seed is not 0 is in the invoker's result. */
  ghost predicate NonzeroIncluded(o: Op)
    requires o.Valid()
  {
    forall x {:trigger Included(o, x)} | o.Tree().IsRank(x) && x + o.seed != 0 :: Included(o, x)
  }

  ghost predicate AllGathered(o: Op)
    requires o.Valid()
  {
    forall x {:trigger Gathered(o, x)} | o.Tree().IsRank(x) :: Gathered(o, x)
  }

  /** A child whose result was never collected by its parent is not covered. */
  lemma MissedChild(o: Op, x: int)
    requires o.Valid() && x in o.handlers && o.Tree().IsRank(x)
    requires o.handlers[x].got < |o.Tree().Children(x)|
    ensures !AllIncluded(o)
  {
    var c := o.Tree().Children(x)[o.handlers[x].got];
    ChildPointsBack(o.Tree(), x, o.handlers[x].got);
    ParentIsCloser(o.Tree(), c);
    assert !CollectedBy(o, x, c);
    assert !Included(o, c);
  }

  /** The invoker's result covers every rank exactly when every rank gathered all its
      children. */
  lemma CompleteIffGathered(o: Op)
    requires Inv(o) && o.Finished()
    ensures AllIncluded(o) <==> AllGathered(o)
  {
    if AllIncluded(o) {
      forall x | o.Tree().IsRank(x) ensures Gathered(o, x) {
        assert Included(o, x);
        CoveredHaveReplied(o, o.root, x);
        assert HandlerOk(o, x);
        if o.handlers[x].got < |o.Tree().Children(x)| {
          MissedChild(o, x);
        }
      }
    }
    if AllGathered(o) {
      forall x | o.Tree().IsRank(x) ensures Included(o, x) {
        AllGatheredCovers(o, x);
      }
    }
  }

  /** With seed >= 0 no failure makes the invoker's sum too large, and it is the expected
      one exactly when every rank whose contribution is not 0 is included. */
  lemma SumIsExpectedIff(o: Op)
    requires Inv(o) && o.Finished() && o.seed >= 0
    ensures o.handlers[o.root].sum <= ClosedForm(o.ranks, o.seed)
    ensures o.handlers[o.root].sum == ClosedForm(o.ranks, o.seed) <==> NonzeroIncluded(o)
  {
    ResultIsPartialSum(o, o.root);
    var s := Coverage(o, o.root);
    MissingRanksLowerTheSum(s, o.ranks, o.seed);
    forall x | 0 <= x < o.ranks ensures x in s <==> Included(o, x) {
    }
    if NonzeroIncluded(o) {
      forall x | 0 <= x < o.ranks && x !in s ensures x + o.seed == 0 {
        assert !Included(o, x);
      }
    }
  }

  /** The clients' check: with seed >= 0 what a client receives is never too large, and it
      is what the client expects exactly when the invoker returned success and every rank
      whose contribution is not 0 is included. */
  lemma ClientCheck(o: Op)
    requires Inv(o) && o.Finished() && o.seed >= 0
    ensures Received(o) <= ClosedForm(o.ranks, o.seed)
    ensures Received(o) == ClosedForm(o.ranks, o.seed)
            <==> o.handlers[o.root].phase == Returned(false) && NonzeroIncluded(o)
  {
    SumIsExpectedIff(o);
    ClosedFormNonNegative(o.ranks, o.seed);
  }

  /** With seed >= 1 the check succeeds exactly when every rank gathered all its children. */
  lemma ClientCheckDecides(o: Op)
    requires Inv(o) && o.Finished() && o.seed >= 1
    ensures Received(o) == ClosedForm(o.ranks, o.seed) <==> AllGathered(o)
  {
    ClientCheck(o);
    CompleteIffGathered(o);
    assert NonzeroIncluded(o) <==> AllIncluded(o);
    assert HandlerOk(o, o.root);
    assert AllGathered(o) ==> Gathered(o, o.root);
  }

  /* ---------- the invoker's own tree ---------- */

  /** If there was no memory for the cached tree at start-up, every call of this rank
      returns success and its own contribution alone. */
  lemma NoTreeSumsOneRank(ranks: int, root: int, seed: int, acts: seq<Action>)
    requires TreeFor(ranks, root).Valid() && CanRun(Invoke(ranks, root, seed, false), acts)
    ensures var o := Run(Invoke(ranks, root, seed, false), acts);
            && (acts == [] || acts == [Finish(root)])
            && (o.Finished() <==> acts != [])
            && root in o.handlers
            && (acts != [] ==> o.handlers[root].phase == Returned(false) && o.handlers[root].sum == root + seed)
  {
    if acts != [] {
      var o' := Apply(Invoke(ranks, root, seed, false), acts[0]);
      assert acts[0] == Finish(root);
      forall a ensures !Enabled(o', a) {
      }
    }
  }

  /* ---------- runs without failures ---------- */

  ghost predicate Healthy(o: Op)
    requires o.Valid()
  {
    forall r {:trigger HealthyAt(o, r)} | r in o.handlers :: HealthyAt(o, r)
  }

  ghost predicate HealthyAt(o: Op, r: int)
    requires o.Valid() && r in o.handlers
  {
    o.Tree().IsRank(r) && o.handlers[r].kids == o.Tree().Children(r) && o.handlers[r].phase != Returned(true)
  }

  lemma StepHealthy(o: Op, a: Action)
    requires Inv(o) && Healthy(o) && Enabled(o, a) && !IsFailure(a)
    ensures Apply(o, a).Valid() && Healthy(Apply(o, a))
  {
    var o' := Apply(o, a);
    if a.Deliver? { ActivateRequests(o, a.c, a.inRoot, a.inSeed, TreeFor(o.ranks, a.inRoot).Children(a.c)); }
    forall r | r in o'.handlers ensures HealthyAt(o', r) {
      if r in o.handlers { assert HealthyAt(o, r); }
    }
  }

  lemma {:induction false} RunHealthy(o: Op, acts: seq<Action>)
    requires Inv(o) && Healthy(o) && CanRun(o, acts) && FailureFree(acts)
    ensures Inv(Run(o, acts)) && Healthy(Run(o, acts))
    decreases |acts|
  {
    if acts != [] {
      StepInv(o, acts[0]);
      StepHealthy(o, acts[0]);
      RunHealthy(Apply(o, acts[0]), acts[1..]);
    }
  }

  lemma {:induction false} HealthyGathers(o: Op, x: int)
    requires Inv(o) && Healthy(o) && o.Finished() && o.Tree().IsRank(x)
    ensures Gathered(o, x)
    decreases o.Tree().Unrotate(x)
  {
    if x != o.root {
      var p := o.Tree().Parent(x);
      ParentIsCloser(o.Tree(), x);
      HealthyGathers(o, p);
      ParentLists(o.Tree(), x);
      assert HandlerOk(o, p) && SumOk(o, p) && HealthyAt(o, p);
      assert Replied(o, o.handlers[p].kids[o.Tree().Slot(x)]);
    }
    assert HandlerOk(o, x) && HealthyAt(o, x);
  }

  /** Once the invoker of a healthy operation returned, every rank ran and returned
      without error, and the result is the closed form. */
  lemma HealthyResult(o: Op)
    requires Inv(o) && Healthy(o) && o.Finished()
    ensures o.handlers[o.root] == o.handlers[o.root].(sum := ClosedForm(o.ranks, o.seed), phase := Returned(false))
    ensures forall r :: 0 <= r < o.ranks <==> r in o.handlers
    ensures forall r | r in o.handlers :: o.handlers[r].phase == Returned(false)
  {
    forall x | o.Tree().IsRank(x) ensures Gathered(o, x) {
      HealthyGathers(o, x);
    }
    forall r | r in o.handlers ensures 0 <= r < o.ranks && o.handlers[r].phase == Returned(false) {
      assert HealthyAt(o, r);
      assert Gathered(o, r);
    }
    forall r | 0 <= r < o.ranks ensures r in o.handlers {
      assert Gathered(o, r);
    }
    CompleteIffGathered(o);
    ResultIsPartialSum(o, o.root);
    forall x | 0 <= x < o.ranks ensures x in Coverage(o, o.root) {
      assert Included(o, x);
    }
    SumOfAll(Coverage(o, o.root), o.ranks, o.seed);
  }

  lemma InvokeHealthy(ranks: int, root: int, seed: int)
    requires TreeFor(ranks, root).Valid()
    ensures Inv(Invoke(ranks, root, seed)) && Healthy(Invoke(ranks, root, seed))
  {
    InvokeInv(ranks, root, seed);
    assert HealthyAt(Invoke(ranks, root, seed), root);
  }

  /** In every failure-free interleaving metasim_rpc_invoke_sum returns success and the
      closed form; every rank ran its handler, and none outlives the call. */
  lemma SumIsExact(ranks: int, root: int, seed: int, acts: seq<Action>)
    requires TreeFor(ranks, root).Valid()
    requires CanRun(Invoke(ranks, root, seed), acts) && FailureFree(acts)
    requires Run(Invoke(ranks, root, seed), acts).Finished()
    ensures var o := Run(Invoke(ranks, root, seed), acts);
            && (forall r :: 0 <= r < ranks <==> r in o.handlers)
            && (forall r | r in o.handlers :: o.handlers[r].phase == Returned(false))
            && root in o.handlers && o.handlers[root].sum == ClosedForm(ranks, seed)
  {
    InvokeHealthy(ranks, root, seed);
    RunHealthy(Invoke(ranks, root, seed), acts);
    RunKeepsInput(Invoke(ranks, root, seed), acts);
    HealthyResult(Run(Invoke(ranks, root, seed), acts));
  }
}
