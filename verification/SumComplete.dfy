/** When the result of a sum operation is complete, and what its return code tells of it. */
module SumComplete {
  import opened KaryTree
  import opened SumProtocol
  import opened SumInvariant
  import opened SumResult
  import opened SumProgress

  /* ---------- which failures lose ranks ---------- */

  /** A handler gives up a child, or starts without its children. */
  predicate Loses(t: Topology, a: Action)
    requires t.Valid()
  {
    match a
    case FailForward(_) => true
    case FailWait(_) => true
    case DeliverNoTree(c, _, _) => t.IsRank(c) && t.Children(c) != []
    case _ => false
  }

  predicate Lossless(t: Topology, acts: seq<Action>)
    requires t.Valid()
  {
    forall i | 0 <= i < |acts| :: !Loses(t, acts[i])
  }

  /** r will never collect the results of all the children it has in the tree. */
  predicate Short(o: Op, r: int)
    requires o.Valid()
  {
    && o.Tree().IsRank(r) && r in o.handlers && o.handlers[r].got < |o.Tree().Children(r)|
    && (Replied(o, r) || o.handlers[r].kids == [])
  }

  lemma LosesMeansShort(o: Op, a: Action)
    requires Inv(o) && Enabled(o, a) && Loses(o.Tree(), a)
    ensures Apply(o, a).Valid() && Short(Apply(o, a), Actor(a))
  {
    if a.DeliverNoTree? {
      ActivateRequests(o, a.c, a.inRoot, a.inSeed, []);
    } else {
      assert HandlerOk(o, a.r);
    }
  }

  lemma ShortStays(o: Op, a: Action, r: int)
    requires Inv(o) && Enabled(o, a) && Short(o, r)
    ensures Apply(o, a).Valid() && Short(Apply(o, a), r)
  {
    ApplyKeepsInput(o, a);
    if r != Actor(a) {
      OthersStay(o, a, r);
    } else if Replied(o, r) {
      RepliedStays(o, a, r);
    } else if a.Deliver? || a.DeliverNoTree? {
      ActivateRequests(o, a.c, a.inRoot, a.inSeed, []);
    }
  }

  lemma {:induction false} RunStaysShort(o: Op, acts: seq<Action>, r: int)
    requires Inv(o) && CanRun(o, acts) && Short(o, r)
    ensures Run(o, acts).Valid() && !AllIncluded(Run(o, acts))
    decreases |acts|
  {
    if acts == [] {
      MissedChild(o, r);
    } else {
      StepInv(o, acts[0]);
      ShortStays(o, acts[0], r);
      RunStaysShort(Apply(o, acts[0]), acts[1..], r);
    }
  }

  lemma {:induction false} LossyRunIncomplete(o: Op, acts: seq<Action>)
    requires Inv(o) && CanRun(o, acts) && !Lossless(o.Tree(), acts)
    ensures Run(o, acts).Valid() && !AllIncluded(Run(o, acts))
    decreases |acts|
  {
    var a, o' := acts[0], Apply(o, acts[0]);
    StepInv(o, a);
    ApplyKeepsInput(o, a);
    if Loses(o.Tree(), a) {
      LosesMeansShort(o, a);
      RunStaysShort(o', acts[1..], Actor(a));
    } else {
      var i :| 0 <= i < |acts| && Loses(o.Tree(), acts[i]);
      assert acts[1..][i - 1] == acts[i];
      LossyRunIncomplete(o', acts[1..]);
    }
  }

  lemma LosslessHealthy(o: Op, a: Action)
    requires Inv(o) && Healthy(o) && Enabled(o, a) && !Loses(o.Tree(), a)
    ensures Apply(o, a).Valid() && Healthy(Apply(o, a))
  {
    if a.DeliverNoTree? {
      var o' := Apply(o, a);
      ActivateRequests(o, a.c, a.inRoot, a.inSeed, []);
      forall r | r in o'.handlers ensures HealthyAt(o', r) {
        if r in o.handlers { assert HealthyAt(o, r); }
      }
    } else {
      StepHealthy(o, a);
    }
  }

  lemma {:induction false} LosslessRunHealthy(o: Op, acts: seq<Action>)
    requires Inv(o) && Healthy(o) && CanRun(o, acts) && Lossless(o.Tree(), acts)
    ensures Inv(Run(o, acts)) && Healthy(Run(o, acts))
    decreases |acts|
  {
    if acts != [] {
      assert !Loses(o.Tree(), acts[0]);
      forall i | 0 <= i < |acts[1..]| ensures !Loses(o.Tree(), acts[1..][i]) {
        assert acts[1..][i] == acts[i + 1];
      }
      StepInv(o, acts[0]);
      ApplyKeepsInput(o, acts[0]);
      LosslessHealthy(o, acts[0]);
      LosslessRunHealthy(Apply(o, acts[0]), acts[1..]);
    }
  }

  /** What the helpers answered decides: a finished call's result covers all ranks if and
      only if no request and no wait failed anywhere, no handler with children lacked the
      memory for its tree, and the invoker had its tree (or is alone). */
  lemma CompleteIffLossless(ranks: int, root: int, seed: int, tree: bool, acts: seq<Action>)
    requires TreeFor(ranks, root).Valid() && CanRun(Invoke(ranks, root, seed, tree), acts)
    requires Run(Invoke(ranks, root, seed, tree), acts).Finished()
    ensures Run(Invoke(ranks, root, seed, tree), acts).Valid()
    ensures AllIncluded(Run(Invoke(ranks, root, seed, tree), acts))
            <==> (tree || ranks == 1) && Lossless(TreeFor(ranks, root), acts)
  {
    var start := Invoke(ranks, root, seed, tree);
    var o := Run(start, acts);
    InvokeInv(ranks, root, seed, tree);
    RunInv(start, acts);
    RunKeepsInput(start, acts);
    RotateInverse(start.Tree(), root);
    if !Lossless(start.Tree(), acts) {
      LossyRunIncomplete(start, acts);
    } else if !tree && ranks > 1 {
      RunStaysShort(start, acts, root);
    } else {
      assert HealthyAt(start, root);
      LosslessRunHealthy(start, acts);
      forall x | o.Tree().IsRank(x) ensures Gathered(o, x) {
        HealthyGathers(o, x);
      }
      CompleteIffGathered(o);
    }
  }

  /* ---------- what the return code tells ---------- */

  /** Whenever a call by this root, with or without its cached tree, returns success, its
      result covers all ranks. */
  ghost predicate SuccessMeansComplete(ranks: int, root: int, seed: int, tree: bool)
    requires TreeFor(ranks, root).Valid()
  {
    forall acts
      | CanRun(Invoke(ranks, root, seed, tree), acts) && Succeeds(Run(Invoke(ranks, root, seed, tree), acts)) ::
      var o := Run(Invoke(ranks, root, seed, tree), acts); o.Valid() && AllIncluded(o)
  }

  predicate Succeeds(o: Op) {
    o.root in o.handlers && o.handlers[o.root].phase == Returned(false)
  }

  /** The exact condition: a server's return code tells whether the result is complete only
      if it is alone, or has its tree and there are at most three servers, all of them its
      children or itself. */
  lemma SuccessMeansCompleteIff(ranks: int, root: int, seed: int, tree: bool)
    requires TreeFor(ranks, root).Valid()
    ensures SuccessMeansComplete(ranks, root, seed, tree) <==> ranks == 1 || (tree && ranks <= 3)
  {
    var start := Invoke(ranks, root, seed, tree);
    if tree && ranks > 3 {
      var acts := LossySuccess(ranks, root, seed);
    } else if !tree && ranks > 1 {
      var acts := [Finish(root)];
      TreelessRun(ranks, root, seed);
      CompleteIffLossless(ranks, root, seed, false, acts);
    } else {
      forall acts | CanRun(start, acts) && Succeeds(Run(start, acts))
        ensures Run(start, acts).Valid() && AllIncluded(Run(start, acts))
      {
        if tree {
          FewRanksComplete(ranks, root, seed, acts);
        } else {
          NoTreeSumsOneRank(ranks, root, seed, acts);
          CompleteIffLossless(ranks, root, seed, false, acts);
        }
      }
    }
  }

  /** A call without the cached tree can be over at once. */
  lemma TreelessRun(ranks: int, root: int, seed: int)
    requires TreeFor(ranks, root).Valid()
    ensures CanRun(Invoke(ranks, root, seed, false), [Finish(root)])
    ensures Succeeds(Run(Invoke(ranks, root, seed, false), [Finish(root)]))
  {
    Prepend(Invoke(ranks, root, seed, false), Finish(root), []);
  }

  lemma {:induction false} KidsStay(o: Op, acts: seq<Action>, r: int)
    requires Inv(o) && CanRun(o, acts) && r in o.handlers
    ensures r in Run(o, acts).handlers && Run(o, acts).handlers[r].kids == o.handlers[r].kids
    decreases |acts|
  {
    if acts != [] {
      var a := acts[0];
      StepInv(o, a);
      if r != Actor(a) {
        OthersStay(o, a, r);
      } else if a.Deliver? || a.DeliverNoTree? {
        ActivateRequests(o, a.c, a.inRoot, a.inSeed, []);
      }
      KidsStay(Apply(o, a), acts[1..], r);
    }
  }

  /** With at most three ranks all others are children of the root. */
  lemma FewRanksComplete(ranks: int, root: int, seed: int, acts: seq<Action>)
    requires TreeFor(ranks, root).Valid() && ranks <= 3 && CanRun(Invoke(ranks, root, seed), acts)
    requires Succeeds(Run(Invoke(ranks, root, seed), acts))
    ensures Run(Invoke(ranks, root, seed), acts).Valid() && AllIncluded(Run(Invoke(ranks, root, seed), acts))
  {
    var start := Invoke(ranks, root, seed);
    var o := Run(start, acts);
    InvokeInv(ranks, root, seed);
    RunInv(start, acts);
    RunKeepsInput(start, acts);
    KidsStay(start, acts, root);
    assert HandlerOk(o, root);
    forall x | o.Tree().IsRank(x) ensures Included(o, x) {
      if x != root {
        RotateInverse(o.Tree(), x);
        RotateInverse(o.Tree(), root);
        ParentIsCloser(o.Tree(), x);
        ParentLists(o.Tree(), x);
        assert o.Tree().Parent(x) == root;
        assert CollectedBy(o, root, x) && Covers(o, root, root);
      }
    }
  }

  /** The root's first child, its request being the first one. */
  function FirstChild(ranks: int, root: int): int
    requires TreeFor(ranks, root).Valid() && ranks >= 2
  {
    TreeFor(ranks, root).Rotate(1)
  }

  lemma FirstChildIs(ranks: int, root: int)
    requires TreeFor(ranks, root).Valid() && ranks >= 2
    ensures var t, c := TreeFor(ranks, root), FirstChild(ranks, root);
            && |t.Children(root)| > 0 && t.Children(root)[0] == c && t.IsRank(c) && c != root
            && (ranks >= 4 ==> |t.Children(c)| > 0)
  {
    var t := TreeFor(ranks, root);
    RotateInverse(t, root);
    RotateInverse(t, 1);
  }

  /** With four or more ranks: the root's first child fails to reach its own first child
      and replies its own value; the rest goes well and the root returns success. */
  lemma LossySuccess(ranks: int, root: int, seed: int) returns (acts: seq<Action>)
    requires TreeFor(ranks, root).Valid() && ranks >= 4
    ensures CanRun(Invoke(ranks, root, seed), acts) && Succeeds(Run(Invoke(ranks, root, seed), acts))
    ensures Run(Invoke(ranks, root, seed), acts).Valid() && !AllIncluded(Run(Invoke(ranks, root, seed), acts))
  {
    var s0, c := Invoke(ranks, root, seed), FirstChild(ranks, root);
    var a, b := Forward(root), Deliver(c, root, seed);
    FirstChildStarts(ranks, root, seed);
    InvokeInv(ranks, root, seed);
    StepInv(s0, a);
    var s1 := Apply(s0, a);
    StepInv(s1, b);
    var rest := FailAndFinish(Apply(s1, b), c);
    Prepend(s1, b, [FailForward(c)] + rest);
    Prepend(s0, a, [b] + ([FailForward(c)] + rest));
    acts := [a] + ([b] + ([FailForward(c)] + rest));
    assert acts[2] == FailForward(c);
    assert !Lossless(s0.Tree(), acts);
    LossyRunIncomplete(s0, acts);
  }

  lemma FirstChildStarts(ranks: int, root: int, seed: int)
    requires TreeFor(ranks, root).Valid() && ranks >= 4
    ensures Enabled(Invoke(ranks, root, seed), Forward(root))
    ensures var s1, c := Apply(Invoke(ranks, root, seed), Forward(root)), FirstChild(ranks, root);
            && Enabled(s1, Deliver(c, root, seed))
            && var s2 := Apply(s1, Deliver(c, root, seed));
               && s2.root == root && root in s2.handlers && s2.handlers[root].phase != Returned(true)
               && c != root && c in s2.handlers && s2.handlers[c].phase.Sending?
  {
    FirstChildIs(ranks, root);
    var s1, c := Apply(Invoke(ranks, root, seed), Forward(root)), FirstChild(ranks, root);
    assert s1.net == multiset{Request(c, root, seed)};
  }

  /** A handler below the root fails, everything else goes well. */
  lemma FailAndFinish(o: Op, c: int) returns (rest: seq<Action>)
    requires Inv(o) && o.handlers[o.root].phase != Returned(true)
    requires c != o.root && c in o.handlers && o.handlers[c].phase.Sending?
    ensures CanRun(o, [FailForward(c)] + rest) && Succeeds(Run(o, [FailForward(c)] + rest))
  {
    var o' := Apply(o, FailForward(c));
    StepInv(o, FailForward(c));
    OthersStay(o, FailForward(c), o.root);
    rest := CanFinish(o');
    NoFailureStays(o', rest);
    Prepend(o, FailForward(c), rest);
  }

  /** Without failures the root does not return an error. */
  lemma {:induction false} NoFailureStays(o: Op, acts: seq<Action>)
    requires Inv(o) && CanRun(o, acts) && FailureFree(acts) && o.handlers[o.root].phase != Returned(true)
    ensures Run(o, acts).root == o.root && o.root in Run(o, acts).handlers
    ensures Run(o, acts).handlers[o.root].phase != Returned(true)
    decreases |acts|
  {
    if acts != [] {
      assert !IsFailure(acts[0]);
      forall i | 0 <= i < |acts[1..]| ensures !IsFailure(acts[1..][i]) {
        assert acts[1..][i] == acts[i + 1];
      }
      StepInv(o, acts[0]);
      ApplyKeepsInput(o, acts[0]);
      RootNotFailed(o, acts[0]);
      NoFailureStays(Apply(o, acts[0]), acts[1..]);
    }
  }

  lemma RootNotFailed(o: Op, a: Action)
    requires Inv(o) && Enabled(o, a) && !IsFailure(a) && o.handlers[o.root].phase != Returned(true)
    ensures o.root in Apply(o, a).handlers && Apply(o, a).handlers[o.root].phase != Returned(true)
  {
    if o.root != Actor(a) { OthersStay(o, a, o.root); }
  }
}
