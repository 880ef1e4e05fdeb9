/** What the clients' comparison with the expected sum tells of the result they received. */
module SumClients {
  import opened Arith
  import opened KaryTree
  import opened RankSums
  import opened SumProtocol
  import opened SumInvariant
  import opened SumResult
  import opened SumProgress
  import opened SumComplete

  /** Whenever a client of this root receives the sum it expects, that covers all ranks. */
  ghost predicate CheckTells(ranks: int, root: int, seed: int, tree: bool)
    requires TreeFor(ranks, root).Valid()
  {
    forall acts
      | CanRun(Invoke(ranks, root, seed, tree), acts) && Satisfies(Run(Invoke(ranks, root, seed, tree), acts)) ::
      var o := Run(Invoke(ranks, root, seed, tree), acts); o.Valid() && AllIncluded(o)
  }

  /** The client receives what it expects. */
  predicate Satisfies(o: Op) {
    o.ranks >= 0 && o.Finished() && Received(o) == ClosedForm(o.ranks, o.seed)
  }

  /** Rank 0 can get lost without the root noticing, and without another rank: it is a leaf
      and the last child of a rank other than the root.  At distance v from the root, its
      parent is not the root from 3 on; it has no children if 2v+1 is beyond the last
      distance; it is a last child if it is a second one or at the last distance. */
  predicate ZeroLosable(ranks: int, root: int) {
    var v := ranks - root;
    root != 0 && v >= 3 && 2 * v + 1 >= ranks && (v % 2 == 0 || v == ranks - 1)
  }

  /** c is a leaf and the last child of a rank other than the root. */
  predicate LastLeaf(t: Topology, c: int)
    requires t.Valid() && t.IsRank(c)
  {
    && c != t.root && t.Children(c) == []
    && (ParentIsCloser(t, c);
        t.Parent(c) != t.root && t.Slot(c) == |t.Children(t.Parent(c))| - 1)
  }

  lemma ZeroLosableIs(ranks: int, root: int)
    requires TreeFor(ranks, root).Valid()
    ensures ZeroLosable(ranks, root) <==> LastLeaf(TreeFor(ranks, root), 0)
  {
    var t := TreeFor(ranks, root);
    RotateInverse(t, 0);
    if root != 0 {
      var v := ranks - root;
      ParentIsCloser(t, 0);
      ParentLists(t, 0);
      RotateInverse(t, t.Parent(0));
      assert t.Unrotate(0) == v && t.Unrotate(t.Parent(0)) == (v - 1) / 2;
    }
  }

  /** The exact condition, for the clients' seeds: with a seed of at least 1 the comparison
      always tells.  With seed 0 it tells unless rank 0 can get lost alone; and, for a
      server without its cached tree, unless rank 0 is the only other one. */
  lemma CheckTellsIff(ranks: int, root: int, seed: int, tree: bool)
    requires TreeFor(ranks, root).Valid() && seed >= 0
    ensures CheckTells(ranks, root, seed, tree)
            <==> seed >= 1 || if tree then !ZeroLosable(ranks, root) else !(ranks == 2 && root == 1)
  {
    if seed >= 1 {
      SeedTells(ranks, root, seed, tree);
    } else if !tree {
      TreelessTellsIff(ranks, root);
    } else if ZeroLosable(ranks, root) {
      ZeroLosableIs(ranks, root);
      var acts := LoseZero(ranks, root);
    } else {
      forall acts | CanRun(Invoke(ranks, root, 0), acts) && Satisfies(Run(Invoke(ranks, root, 0), acts))
        ensures Run(Invoke(ranks, root, 0), acts).Valid() && AllIncluded(Run(Invoke(ranks, root, 0), acts))
      {
        ZeroIncluded(ranks, root, acts);
      }
    }
  }

  lemma SeedTells(ranks: int, root: int, seed: int, tree: bool)
    requires TreeFor(ranks, root).Valid() && seed >= 1
    ensures CheckTells(ranks, root, seed, tree)
  {
    var start := Invoke(ranks, root, seed, tree);
    InvokeInv(ranks, root, seed, tree);
    forall acts | CanRun(start, acts) && Satisfies(Run(start, acts))
      ensures Run(start, acts).Valid() && AllIncluded(Run(start, acts))
    {
      RunInv(start, acts);
      RunKeepsInput(start, acts);
      ClientCheckDecides(Run(start, acts));
      CompleteIffGathered(Run(start, acts));
    }
  }

  /* ---------- without the cached tree ---------- */

  lemma TreelessTellsIff(ranks: int, root: int)
    requires TreeFor(ranks, root).Valid()
    ensures CheckTells(ranks, root, 0, false) <==> !(ranks == 2 && root == 1)
  {
    var start := Invoke(ranks, root, 0, false);
    if ranks == 2 && root == 1 {
      var acts := [Finish(root)];
      TreelessRun(ranks, root, 0);
      NoTreeSumsOneRank(ranks, root, 0, acts);
      RunKeepsInput(start, acts);
      CompleteIffLossless(ranks, root, 0, false, acts);
    } else {
      forall acts | CanRun(start, acts) && Satisfies(Run(start, acts))
        ensures Run(start, acts).Valid() && AllIncluded(Run(start, acts))
      {
        NoTreeSumsOneRank(ranks, root, 0, acts);
        RunKeepsInput(start, acts);
        if ranks >= 3 { MoreThanOneRank(ranks); }
        CompleteIffLossless(ranks, root, 0, false, acts);
      }
    }
  }

  lemma MoreThanOneRank(n: nat)
    requires n >= 3
    ensures ClosedForm(n, 0) >= n
  {
    MulStep(1, n - 1, n);
  }

  /* ---------- if the check does not tell, rank 0 is a last leaf ---------- */

  lemma ZeroIncluded(ranks: int, root: int, acts: seq<Action>)
    requires TreeFor(ranks, root).Valid() && !ZeroLosable(ranks, root)
    requires CanRun(Invoke(ranks, root, 0), acts) && Satisfies(Run(Invoke(ranks, root, 0), acts))
    ensures Run(Invoke(ranks, root, 0), acts).Valid() && AllIncluded(Run(Invoke(ranks, root, 0), acts))
  {
    var start := Invoke(ranks, root, 0);
    var o := Run(start, acts);
    InvokeInv(ranks, root, 0);
    RunInv(start, acts);
    RunKeepsInput(start, acts);
    KidsStay(start, acts, root);
    ClientCheck(o);
    ZeroLosableIs(ranks, root);
    if !Included(o, 0) {
      LostAloneIsLastLeaf(o, 0);
    }
  }

  lemma IncludedParent(o: Op, x: int)
    requires o.Valid() && o.Tree().IsRank(x) && x != o.root
    ensures o.Tree().IsRank(o.Tree().Parent(x))
    ensures Included(o, x) ==> Included(o, o.Tree().Parent(x)) && CollectedBy(o, o.Tree().Parent(x), x)
  {
    ParentIsCloser(o.Tree(), x);
  }

  /** The only rank that is missing from a successful result is a leaf and the last child of
      a rank other than the root. */
  lemma LostAloneIsLastLeaf(o: Op, c: int)
    requires Inv(o) && Succeeds(o) && o.handlers[o.root].kids == o.Tree().Children(o.root)
    requires o.Tree().IsRank(c) && !Included(o, c)
    requires forall x {:trigger Included(o, x)} | o.Tree().IsRank(x) && x != c :: Included(o, x)
    ensures LastLeaf(o.Tree(), c)
  {
    var t := o.Tree();
    assert Covers(o, o.root, o.root) && HandlerOk(o, o.root);
    ParentIsCloser(t, c);
    ParentLists(t, c);
    var p := t.Parent(c);
    assert Included(o, p) && !CollectedBy(o, p, c);
    if t.Children(c) != [] {
      var d := t.Children(c)[0];
      ChildPointsBack(t, c, 0);
      IncludedParent(o, d);
    }
    if t.Slot(c) + 1 < |t.Children(p)| {
      var d := t.Children(p)[t.Slot(c) + 1];
      ChildPointsBack(t, p, t.Slot(c) + 1);
      IncludedParent(o, d);
    }
  }

  /* ---------- if rank 0 is a last leaf, it can get lost ---------- */

  /** Healthy, except that p has returned without its last child. */
  ghost predicate HealthyBut(o: Op, p: int)
    requires o.Valid()
  {
    && Replied(o, p) && p != o.root && o.handlers[p].got == |o.handlers[p].kids| - 1
    && forall r {:trigger HealthyButAt(o, p, r)} | r in o.handlers :: HealthyButAt(o, p, r)
  }

  ghost predicate HealthyButAt(o: Op, p: int, r: int)
    requires o.Valid() && r in o.handlers
  {
    && o.Tree().IsRank(r) && o.handlers[r].kids == o.Tree().Children(r)
    && (r != p ==> o.handlers[r].phase != Returned(true))
  }

  /** A handler that was not there before was started by the action. */
  lemma NewIsActor(o: Op, a: Action, r: int)
    requires Enabled(o, a) && r !in o.handlers && r in Apply(o, a).handlers
    ensures r == Actor(a)
  {
    if r != Actor(a) { OthersStay(o, a, r); }
  }

  lemma StepHealthyBut(o: Op, a: Action, p: int)
    requires Inv(o) && HealthyBut(o, p) && Enabled(o, a) && !IsFailure(a)
    ensures Apply(o, a).Valid() && HealthyBut(Apply(o, a), p)
  {
    var o' := Apply(o, a);
    ApplyKeepsInput(o, a);
    RepliedStays(o, a, p);
    if a.Deliver? { ActivateRequests(o, a.c, a.inRoot, a.inSeed, TreeFor(o.ranks, a.inRoot).Children(a.c)); }
    forall r | r in o'.handlers ensures HealthyButAt(o', p, r) {
      if r in o.handlers {
        assert HealthyButAt(o, p, r);
        if r != Actor(a) { OthersStay(o, a, r); }
      } else {
        NewIsActor(o, a, r);
      }
    }
  }

  lemma {:induction false} RunHealthyBut(o: Op, acts: seq<Action>, p: int)
    requires Inv(o) && HealthyBut(o, p) && CanRun(o, acts) && FailureFree(acts)
    ensures Inv(Run(o, acts)) && HealthyBut(Run(o, acts), p)
    decreases |acts|
  {
    if acts != [] {
      assert !IsFailure(acts[0]);
      forall i | 0 <= i < |acts[1..]| ensures !IsFailure(acts[1..][i]) {
        assert acts[1..][i] == acts[i + 1];
      }
      StepInv(o, acts[0]);
      StepHealthyBut(o, acts[0], p);
      RunHealthyBut(Apply(o, acts[0]), acts[1..], p);
    }
  }

  /** At the end every rank but p's last child, a leaf, is in the result. */
  lemma {:induction false} OthersIncluded(o: Op, c: int, x: int)
    requires Inv(o) && o.Finished() && o.Tree().IsRank(c) && LastLeaf(o.Tree(), c)
    requires HealthyBut(o, o.Tree().Parent(c)) && o.Tree().IsRank(x) && x != c
    ensures Included(o, x)
    decreases o.Tree().Unrotate(x)
  {
    var t := o.Tree();
    if x != o.root {
      ParentIsCloser(t, x);
      ParentLists(t, x);
      ParentLists(t, c);
      var q := t.Parent(x);
      OthersIncluded(o, c, q);
      CoveredHaveReplied(o, o.root, q);
      assert HandlerOk(o, q) && HealthyButAt(o, t.Parent(c), q);
      if q == t.Parent(c) {
        assert t.Slot(x) != t.Slot(c);
      }
    }
  }

  /** Before p has its last result: no failure yet, and p can still be cut short. */
  ghost predicate Uncut(o: Op, p: int) {
    && Inv(o) && Healthy(o) && o.Tree().IsRank(p) && p != o.root && o.Tree().Children(p) != []
    && !Replied(o, p) && (p in o.handlers ==> o.handlers[p].got < |o.Tree().Children(p)|)
  }

  /** p waits for its last child. */
  predicate AtLastWait(o: Op, p: int)
    requires o.Valid() && o.Tree().IsRank(p)
  {
    p in o.handlers && o.handlers[p].phase.Waiting? && o.handlers[p].got == |o.Tree().Children(p)| - 1
  }

  lemma StepUncut(o: Op, p: int) returns (a: Action)
    requires Uncut(o, p) && !AtLastWait(o, p)
    ensures Enabled(o, a) && !IsFailure(a) && Uncut(Apply(o, a), p)
  {
    if o.Finished() { HealthyGathers(o, p); }
    assert o.root in o.handlers && !o.Finished();
    a := HandlerCanProceed(o, o.root);
    StepInv(o, a);
    StepHealthy(o, a);
    ApplyKeepsInput(o, a);
    if p in o.handlers { assert HealthyAt(o, p) && HandlerOk(o, p); }
    StillUncut(o, a, p);
  }

  lemma StillUncut(o: Op, a: Action, p: int)
    requires Uncut(o, p) && !AtLastWait(o, p) && Enabled(o, a) && !IsFailure(a)
    requires p in o.handlers ==> HealthyAt(o, p) && HandlerOk(o, p)
    ensures !Replied(Apply(o, a), p)
    ensures p in Apply(o, a).handlers ==> Apply(o, a).handlers[p].got < |o.Tree().Children(p)|
  {
    if p != Actor(a) { OthersStay(o, a, p); }
  }

  /** From there the call can come to its end with p's last child as the only loss. */
  lemma {:induction false} CutShort(o: Op, p: int) returns (acts: seq<Action>)
    requires Uncut(o, p)
    ensures CanRun(o, acts) && Run(o, acts).Valid() && Succeeds(Run(o, acts))
    ensures Inv(Run(o, acts)) && HealthyBut(Run(o, acts), p)
    decreases Budget(o)
  {
    if AtLastWait(o, p) {
      acts := FailLastWait(o, p);
    } else {
      var a := StepUncut(o, p);
      StepUsesBudget(o, a);
      var rest := CutShort(Apply(o, a), p);
      Prepend(o, a, rest);
      acts := [a] + rest;
    }
  }

  lemma FailLastWait(o: Op, p: int) returns (acts: seq<Action>)
    requires Uncut(o, p) && AtLastWait(o, p)
    ensures CanRun(o, acts) && Run(o, acts).Valid() && Succeeds(Run(o, acts))
    ensures Inv(Run(o, acts)) && HealthyBut(Run(o, acts), p)
  {
    assert HealthyAt(o, p);
    var o' := Apply(o, FailWait(p));
    StepInv(o, FailWait(p));
    assert HealthyBut(o', p) by {
      forall r | r in o'.handlers ensures HealthyButAt(o', p, r) {
        assert HealthyAt(o, r);
      }
    }
    var rest := CanFinish(o');
    RunHealthyBut(o', rest, p);
    RunKeepsInput(o', rest);
    Prepend(o, FailWait(p), rest);
    acts := [FailWait(p)] + rest;
    assert HealthyButAt(Run(o', rest), p, o.root);
  }

  /** With seed 0: a run in which the client receives what it expects, without rank 0. */
  lemma LoseZero(ranks: int, root: int) returns (acts: seq<Action>)
    requires TreeFor(ranks, root).Valid() && LastLeaf(TreeFor(ranks, root), 0)
    ensures CanRun(Invoke(ranks, root, 0), acts) && Satisfies(Run(Invoke(ranks, root, 0), acts))
    ensures Run(Invoke(ranks, root, 0), acts).Valid() && !AllIncluded(Run(Invoke(ranks, root, 0), acts))
  {
    var start := Invoke(ranks, root, 0);
    var p := start.Tree().Parent(0);
    ParentIsCloser(start.Tree(), 0);
    ParentLists(start.Tree(), 0);
    InvokeHealthy(ranks, root, 0);
    acts := CutShort(start, p);
    RunKeepsInput(start, acts);
    SatisfiedWithoutZero(Run(start, acts));
  }

  lemma SatisfiedWithoutZero(o: Op)
    requires Inv(o) && Succeeds(o) && o.seed == 0 && o.Tree().IsRank(0) && LastLeaf(o.Tree(), 0)
    requires HealthyBut(o, o.Tree().Parent(0))
    ensures Satisfies(o) && !AllIncluded(o)
  {
    var p := o.Tree().Parent(0);
    forall x | o.Tree().IsRank(x) && x + o.seed != 0 ensures Included(o, x) {
      OthersIncluded(o, 0, x);
    }
    ClientCheck(o);
    assert HealthyButAt(o, p, p);
    MissedChild(o, p);
  }
}
