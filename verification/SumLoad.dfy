/** What a sum operation leaves behind in the servers once its caller has an answer, and
    exactly which failures make it leave something. */
module SumLoad {
  import opened KaryTree
  import opened SumProtocol
  import opened SumInvariant
  import opened SumResult
  import opened SumProgress

  /** No handler is at work and no request is about to start one. */
  predicate NothingLeft(o: Op) {
    && (forall r | r in o.handlers :: Replied(o, r))
    && (forall m | m in o.net :: !m.Request?)
  }

  /** Every rank that r sent a request has returned. */
  predicate AskedReturned(o: Op, r: int)
    requires r in o.handlers
  {
    var h := o.handlers[r];
    forall j | 0 <= j < |h.kids| && j < h.sent :: Replied(o, h.kids[j])
  }

  predicate TidyAt(o: Op, r: int)
    requires r in o.handlers
  {
    Replied(o, r) ==> AskedReturned(o, r)
  }

  /** No handler has returned before the ranks it asked. */
  ghost predicate Tidy(o: Op) {
    forall r {:trigger TidyAt(o, r)} | r in o.handlers :: TidyAt(o, r)
  }

  /** Child j of r, once asked, is in flight, at work or has returned. */
  lemma AskedChild(o: Op, r: int, j: nat)
    requires Inv(o) && r in o.handlers && j < o.handlers[r].sent
    ensures j < |o.handlers[r].kids|
    ensures var c := o.handlers[r].kids[j];
            && o.IsChild(c) && o.Tree().Parent(c) == r && c != r
            && (c in o.handlers || Request(c, o.root, o.seed) in o.net)
  {
    assert HandlerOk(o, r);
    var c := o.handlers[r].kids[j];
    ChildPointsBack(o.Tree(), r, j);
    ParentIsCloser(o.Tree(), c);
    assert RequestBalance(o, c);
  }

  /** Conversely a child at work or in flight was asked by its parent. */
  lemma AskedByParent(o: Op, c: int)
    requires Inv(o) && o.IsChild(c) && (c in o.handlers || Request(c, o.root, o.seed) in o.net)
    ensures o.Tree().IsRank(o.Tree().Parent(c)) && o.Tree().Parent(c) in o.handlers
    ensures var h, j := o.handlers[o.Tree().Parent(c)], o.Tree().Slot(c);
            0 <= j < h.sent <= |h.kids| && h.kids[j] == c
  {
    assert RequestBalance(o, c);
    ParentIsCloser(o.Tree(), c);
    ParentLists(o.Tree(), c);
    assert HandlerOk(o, o.Tree().Parent(c));
  }

  /** In a tidy operation, if its parent has returned, so has a child that was asked. */
  lemma AskedHasReturned(o: Op, c: int)
    requires Inv(o) && Tidy(o) && o.IsChild(c) && (c in o.handlers || Request(c, o.root, o.seed) in o.net)
    requires Replied(o, o.Tree().Parent(c))
    ensures Replied(o, c)
  {
    AskedByParent(o, c);
    assert TidyAt(o, o.Tree().Parent(c));
  }

  lemma {:induction false} TidyReturned(o: Op, x: int)
    requires Inv(o) && Tidy(o) && o.Finished() && x in o.handlers
    ensures Replied(o, x)
    decreases o.Tree().Unrotate(x)
  {
    assert HandlerOk(o, x);
    if x != o.root {
      AskedByParent(o, x);
      ParentIsCloser(o.Tree(), x);
      TidyReturned(o, o.Tree().Parent(x));
      AskedHasReturned(o, x);
    }
  }

  /** When the invoker has its answer: nothing is left at any server if and only if no
      handler returned before the ranks it asked. */
  lemma NothingLeftIffTidy(o: Op)
    requires Inv(o) && o.Finished()
    ensures NothingLeft(o) <==> Tidy(o)
  {
    if NothingLeft(o) {
      forall r | r in o.handlers ensures TidyAt(o, r) {
        forall j | 0 <= j < |o.handlers[r].kids| && j < o.handlers[r].sent
          ensures Replied(o, o.handlers[r].kids[j])
        {
          AskedChild(o, r, j);
        }
      }
    }
    if Tidy(o) {
      forall r | r in o.handlers ensures Replied(o, r) {
        TidyReturned(o, r);
      }
      forall m | m in o.net && m.Request? ensures false {
        NoRequestLeft(o, m.to);
      }
    }
  }

  lemma NoRequestLeft(o: Op, c: int)
    requires Inv(o) && Tidy(o) && o.Finished() && o.IsChild(c)
    ensures Request(c, o.root, o.seed) !in o.net
  {
    assert RequestBalance(o, c);
    if Request(c, o.root, o.seed) in o.net {
      AskedByParent(o, c);
      TidyReturned(o, o.Tree().Parent(c));
      AskedHasReturned(o, c);
    }
  }

  /* ---------- which failures do it ---------- */

  /** A failure is harmless if every rank asked by the failing handler has returned.  A
      handler without memory for its tree, and one that fails at its first request, have
      asked nobody. */
  predicate Harmless(o: Op, a: Action)
    requires Enabled(o, a)
  {
    a.FailForward? || a.FailWait? ==> AskedReturned(o, a.r)
  }

  /** From a tidy state exactly the harmless actions lead to a tidy state. */
  lemma StepTidy(o: Op, a: Action)
    requires Inv(o) && Tidy(o) && Enabled(o, a)
    ensures Tidy(Apply(o, a)) <==> Harmless(o, a)
  {
    var o' := Apply(o, a);
    forall r | r in o'.handlers && (r != Actor(a) || !Replied(o', r) || Replied(o, r)) ensures TidyAt(o', r) {
      TidyStays(o, a, r);
    }
    if a.FailForward? || a.FailWait? || a.Finish? {
      assert HandlerOk(o, a.r) && SumOk(o, a.r);
      CloseAsked(o, a);
      if Tidy(o') { assert TidyAt(o', a.r); }
    }
  }

  lemma TidyStays(o: Op, a: Action, r: int)
    requires Inv(o) && Tidy(o) && Enabled(o, a) && r in Apply(o, a).handlers
    requires r != Actor(a) || !Replied(Apply(o, a), r) || Replied(o, r)
    ensures TidyAt(Apply(o, a), r)
  {
    var o' := Apply(o, a);
    if Replied(o', r) {
      if r != Actor(a) { OthersStay(o, a, r); }
      RepliedStays(o, a, r);
      assert TidyAt(o, r) && AskedReturned(o, r);
      var h := o.handlers[r];
      forall j | 0 <= j < |h.kids| && j < h.sent ensures Replied(o', h.kids[j]) {
        RepliedStays(o, a, h.kids[j]);
      }
    }
  }

  /** The end of a handler does not change who else has returned. */
  lemma CloseAsked(o: Op, a: Action)
    requires Inv(o) && Enabled(o, a) && (a.FailForward? || a.FailWait? || a.Finish?)
    ensures a.r in Apply(o, a).handlers && Replied(Apply(o, a), a.r)
    ensures AskedReturned(Apply(o, a), a.r) <==> AskedReturned(o, a.r)
  {
    var o', h := Apply(o, a), o.handlers[a.r];
    forall j | 0 <= j < |h.kids| && j < h.sent ensures Replied(o', h.kids[j]) == Replied(o, h.kids[j]) {
      AskedChild(o, a.r, j);
      OthersStay(o, a, h.kids[j]);
    }
    assert o'.handlers[a.r].kids == h.kids && o'.handlers[a.r].sent == h.sent;
  }

  predicate HarmlessRun(o: Op, acts: seq<Action>)
    requires CanRun(o, acts)
    decreases |acts|
  {
    acts == [] || (Harmless(o, acts[0]) && HarmlessRun(Apply(o, acts[0]), acts[1..]))
  }

  lemma {:induction false} RunTidy(o: Op, acts: seq<Action>)
    requires Inv(o) && Tidy(o) && CanRun(o, acts) && HarmlessRun(o, acts)
    ensures Inv(Run(o, acts)) && Tidy(Run(o, acts))
    decreases |acts|
  {
    if acts != [] {
      StepInv(o, acts[0]);
      StepTidy(o, acts[0]);
      RunTidy(Apply(o, acts[0]), acts[1..]);
    }
  }

  /** In every run whose failures are harmless, the call leaves nothing behind. */
  lemma HarmlessRunLeavesNothing(ranks: int, root: int, seed: int, tree: bool, acts: seq<Action>)
    requires TreeFor(ranks, root).Valid() && CanRun(Invoke(ranks, root, seed, tree), acts)
    requires HarmlessRun(Invoke(ranks, root, seed, tree), acts)
    requires Run(Invoke(ranks, root, seed, tree), acts).Finished()
    ensures NothingLeft(Run(Invoke(ranks, root, seed, tree), acts))
  {
    InvokeInv(ranks, root, seed, tree);
    RunTidy(Invoke(ranks, root, seed, tree), acts);
    NothingLeftIffTidy(Run(Invoke(ranks, root, seed, tree), acts));
  }

  lemma {:induction false} FailureFreeIsHarmless(o: Op, acts: seq<Action>)
    requires CanRun(o, acts) && FailureFree(acts)
    ensures HarmlessRun(o, acts)
    decreases |acts|
  {
    if acts != [] {
      assert !IsFailure(acts[0]);
      forall i | 0 <= i < |acts[1..]| ensures !IsFailure(acts[1..][i]) {
        assert acts[1..][i] == acts[i + 1];
      }
      FailureFreeIsHarmless(Apply(o, acts[0]), acts[1..]);
    }
  }

  /** While child c of a returned handler is at work, the rest of the operation can run to
      the end of the call without it and without further failures. */
  lemma {:induction false} FinishAround(o: Op, c: int) returns (acts: seq<Action>)
    requires Inv(o) && o.IsChild(c) && c in o.handlers && !Replied(o, c) && Replied(o, o.Tree().Parent(c))
    ensures CanRun(o, acts) && FailureFree(acts) && Run(o, acts).Finished()
    ensures c in Run(o, acts).handlers && !Replied(Run(o, acts), c)
    decreases Budget(o)
  {
    acts := [];
    if !o.Finished() {
      assert o.root in o.handlers;
      var a := HandlerCanProceed(o, o.root);
      OthersStay(o, a, c);
      RepliedStays(o, a, o.Tree().Parent(c));
      ApplyKeepsInput(o, a);
      StepInv(o, a);
      StepUsesBudget(o, a);
      var rest := FinishAround(Apply(o, a), c);
      Prepend(o, a, rest);
      acts := [a] + rest;
    }
  }

  /** The same for a child that was asked, whether it has started or not. */
  lemma FinishWithout(o: Op, r: int, j: nat) returns (acts: seq<Action>)
    requires Inv(o) && Replied(o, r) && j < o.handlers[r].sent && j < |o.handlers[r].kids|
    requires !Replied(o, o.handlers[r].kids[j])
    ensures CanRun(o, acts) && FailureFree(acts) && Run(o, acts).Finished()
    ensures var c := o.handlers[r].kids[j]; c in Run(o, acts).handlers && !Replied(Run(o, acts), c)
  {
    var c := o.handlers[r].kids[j];
    AskedChild(o, r, j);
    if c in o.handlers {
      acts := FinishAround(o, c);
    } else {
      var d := Deliver(c, o.root, o.seed);
      OthersStay(o, d, r);
      StepInv(o, d);
      var rest := FinishAround(Apply(o, d), c);
      Prepend(o, d, rest);
      acts := [d] + rest;
    }
  }

  /** From a state that is not tidy some continuation without failures brings the invoker
      its answer while a handler is still at work. */
  lemma UntidyLeavesHandler(o: Op) returns (acts: seq<Action>, c: int)
    requires Inv(o) && !Tidy(o)
    ensures CanRun(o, acts) && FailureFree(acts) && Run(o, acts).Finished()
    ensures c in Run(o, acts).handlers && !Replied(Run(o, acts), c)
  {
    var r :| r in o.handlers && !TidyAt(o, r);
    var h := o.handlers[r];
    var j :| 0 <= j < |h.kids| && j < h.sent && !Replied(o, h.kids[j]);
    c := h.kids[j];
    acts := FinishWithout(o, r, j);
  }

  ghost predicate NothingLeftFromNowOn(o: Op) {
    forall acts | CanRun(o, acts) && FailureFree(acts) && Run(o, acts).Finished() :: NothingLeft(Run(o, acts))
  }

  /** The exact condition on a state: it is tidy if and only if, however the operation goes
      on without failures, the call leaves nothing behind. */
  lemma TidyIffNothingLeftFromNowOn(o: Op)
    requires Inv(o)
    ensures Tidy(o) <==> NothingLeftFromNowOn(o)
  {
    if Tidy(o) {
      forall acts | CanRun(o, acts) && FailureFree(acts) && Run(o, acts).Finished() ensures NothingLeft(Run(o, acts)) {
        FailureFreeIsHarmless(o, acts);
        RunTidy(o, acts);
        NothingLeftIffTidy(Run(o, acts));
      }
    } else {
      var acts, c := UntidyLeavesHandler(o);
    }
  }

  lemma HarmfulUntidy(o: Op, a: Action)
    requires Inv(o) && Enabled(o, a) && !Harmless(o, a)
    ensures Inv(Apply(o, a)) && !Tidy(Apply(o, a))
  {
    StepInv(o, a);
    CloseAsked(o, a);
    assert !TidyAt(Apply(o, a), a.r);
  }

  /** One failure that is not harmless is enough: some continuation without any other
      failure brings the invoker its answer while a handler is still at work. */
  lemma HarmfulLeavesHandler(o: Op, a: Action) returns (acts: seq<Action>, c: int)
    requires Inv(o) && Enabled(o, a) && !Harmless(o, a)
    ensures CanRun(Apply(o, a), acts) && FailureFree(acts) && Run(Apply(o, a), acts).Finished()
    ensures c in Run(Apply(o, a), acts).handlers && !Replied(Run(Apply(o, a), acts), c)
  {
    HarmfulUntidy(o, a);
    acts, c := UntidyLeavesHandler(Apply(o, a));
  }

  /** The exact condition on a step from a tidy state: it is harmless if and only if,
      however the operation goes on without failures, the call leaves nothing behind. */
  lemma HarmlessIffNothingLeft(o: Op, a: Action)
    requires Inv(o) && Tidy(o) && Enabled(o, a)
    ensures Harmless(o, a) <==> NothingLeftFromNowOn(Apply(o, a))
  {
    StepInv(o, a);
    StepTidy(o, a);
    TidyIffNothingLeftFromNowOn(Apply(o, a));
  }

  /* ---------- from the invocation on ---------- */

  /** Whatever fails, a finished call of this root has left nothing behind. */
  ghost predicate NeverLeavesAnything(ranks: int, root: int, seed: int, tree: bool)
    requires TreeFor(ranks, root).Valid()
  {
    forall acts
      | CanRun(Invoke(ranks, root, seed, tree), acts) && Run(Invoke(ranks, root, seed, tree), acts).Finished() ::
      NothingLeft(Run(Invoke(ranks, root, seed, tree), acts))
  }

  /** That is so only for a server that is alone or lacks its tree: any other root can fail
      after its first request and return an error while its first child is at work. */
  lemma NeverLeavesAnythingIff(ranks: int, root: int, seed: int, tree: bool)
    requires TreeFor(ranks, root).Valid()
    ensures NeverLeavesAnything(ranks, root, seed, tree) <==> ranks == 1 || !tree
  {
    if ranks == 1 || !tree {
      forall acts
        | CanRun(Invoke(ranks, root, seed, tree), acts) && Run(Invoke(ranks, root, seed, tree), acts).Finished()
        ensures NothingLeft(Run(Invoke(ranks, root, seed, tree), acts))
      {
        if tree {
          AloneLeavesNothing(ranks, root, seed, acts);
        } else {
          NoTreeSumsOneRank(ranks, root, seed, acts);
        }
      }
    } else {
      var acts := RootGivesUp(ranks, root, seed);
    }
  }

  lemma AloneLeavesNothing(ranks: int, root: int, seed: int, acts: seq<Action>)
    requires TreeFor(ranks, root).Valid() && ranks == 1 && CanRun(Invoke(ranks, root, seed), acts)
    requires Run(Invoke(ranks, root, seed), acts).Finished()
    ensures NothingLeft(Run(Invoke(ranks, root, seed), acts))
  {
    InvokeInv(ranks, root, seed);
    RunInv(Invoke(ranks, root, seed), acts);
    RunKeepsInput(Invoke(ranks, root, seed), acts);
    AloneIsDone(Run(Invoke(ranks, root, seed), acts));
  }

  lemma AloneIsDone(o: Op)
    requires Inv(o) && o.ranks == 1 && o.Finished()
    ensures NothingLeft(o)
  {
    forall r | r in o.handlers ensures Replied(o, r) {
      assert HandlerOk(o, r);
    }
  }

  lemma RootGivesUp(ranks: int, root: int, seed: int) returns (acts: seq<Action>)
    requires TreeFor(ranks, root).Valid() && ranks >= 2
    ensures CanRun(Invoke(ranks, root, seed), acts) && Run(Invoke(ranks, root, seed), acts).Finished()
    ensures !NothingLeft(Run(Invoke(ranks, root, seed), acts))
  {
    var s0 := Invoke(ranks, root, seed);
    InvokeInv(ranks, root, seed);
    RotateInverse(s0.Tree(), root);
    StepInv(s0, Forward(root));
    var s1 := Apply(s0, Forward(root));
    var a := if s1.handlers[root].phase.Sending? then FailForward(root) else FailWait(root);
    AskedChild(s1, root, 0);
    assert !Replied(s1, s1.handlers[root].kids[0]);
    assert !Harmless(s1, a);
    var rest, c := HarmfulLeavesHandler(s1, a);
    Prepend(s1, a, rest);
    Prepend(s0, Forward(root), [a] + rest);
    acts := [Forward(root)] + ([a] + rest);
  }
}
