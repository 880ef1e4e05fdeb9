/** No sum operation gets stuck, every run of it is finite, and every rank is asked and
    runs exactly once. */
module SumProgress {
  import opened Arith
  import opened KaryTree
  import opened SpanningTree
  import opened SumProtocol
  import opened SumInvariant
  import opened SumResult

  /* ---------- no deadlock ---------- */

  /** Nothing is left to do: no message in flight, every handler has returned. */
  predicate Settled(o: Op) {
    o.net == multiset{} && forall r | r in o.handlers :: o.handlers[r].phase.Returned?
  }

  /** A waiting handler whose next result is not there waits on a rank one level deeper,
      which still has its request, its handler or its reply on the way. */
  lemma WaitsOnlyDeeper(o: Op, r: int)
    requires Inv(o) && r in o.handlers && o.handlers[r].phase.Waiting?
    requires o.handlers[r].got < |o.handlers[r].kids| && o.handlers[r].kids[o.handlers[r].got] !in o.inbox
    ensures var c := o.handlers[r].kids[o.handlers[r].got];
            && o.Tree().IsRank(r) && o.IsChild(c) && Depth(o.Tree(), c) == Depth(o.Tree(), r) + 1
            && o.Tree().Unrotate(r) < o.Tree().Unrotate(c)
            && (c !in o.handlers ==> Request(c, o.root, o.seed) in o.net)
            && (Replied(o, c) ==> Reply(c, o.handlers[c].sum) in o.net)
  {
    assert HandlerOk(o, r);
    var i := o.handlers[r].got;
    var c := o.handlers[r].kids[i];
    ChildPointsBack(o.Tree(), r, i);
    ParentIsCloser(o.Tree(), c);
    assert RequestBalance(o, c);
    if Replied(o, c) { assert ReplyBalance(o, c); }
  }

  /** Below any handler that has not returned some action that is not a failure is enabled,
      of that handler or of a child of one that has not returned. */
  lemma {:induction false} HandlerCanProceed(o: Op, r: int) returns (a: Action)
    requires Inv(o) && r in o.handlers && !Replied(o, r)
    ensures Enabled(o, a) && !IsFailure(a)
    ensures Actor(a) == r || (o.IsChild(Actor(a)) && !Replied(o, o.Tree().Parent(Actor(a))))
    decreases o.ranks - o.Tree().Unrotate(r)
  {
    assert HandlerOk(o, r);
    var h := o.handlers[r];
    if h.phase.Sending? {
      a := Forward(r);
    } else if h.got == |h.kids| {
      a := Finish(r);
    } else if h.kids[h.got] in o.inbox {
      a := Collect(r);
    } else {
      var c := h.kids[h.got];
      WaitsOnlyDeeper(o, r);
      ChildPointsBack(o.Tree(), r, h.got);
      if c !in o.handlers {
        a := Deliver(c, o.root, o.seed);
      } else if Replied(o, c) {
        a := Arrive(c, o.handlers[c].sum);
      } else {
        RotateInverse(o.Tree(), c);
        a := HandlerCanProceed(o, c);
      }
    }
  }

  /** An operation that is not settled can take a step, and a settled one is finished. */
  lemma NeverStuck(o: Op)
    requires Inv(o)
    ensures !Settled(o) ==> exists a :: Enabled(o, a) && !IsFailure(a)
    ensures Settled(o) ==> o.Finished() && forall a :: !Enabled(o, a)
  {
    if r :| r in o.handlers && !Replied(o, r) {
      var a := HandlerCanProceed(o, r);
    } else if m :| m in o.net {
      var a := if m.Request? then Deliver(m.to, m.root, m.seed) else Arrive(m.from, m.sum);
      assert Enabled(o, a);
    }
  }

  /* ---------- every step uses up a bounded budget ---------- */

  /** What an unstarted handler may still do at most. */
  const FULL := 3 * DEGREE + 3

  function Weight(o: Op, r: int): nat
  {
    if r !in o.handlers then FULL else
      var h := o.handlers[r];
      match h.phase
      case Sending => (if h.sent <= |h.kids| then 2 * (|h.kids| - h.sent) else 0) + |h.kids| + 3
      case Waiting => (if h.got <= |h.kids| then |h.kids| - h.got else 0) + 2
      case Returned(_) => 0
  }

  function Weights(o: Op): seq<int> {
    seq(if o.ranks >= 0 then o.ranks else 0, r => Weight(o, r))
  }

  function Budget(o: Op): nat {
    SumNonNegative(Weights(o));
    |o.net| + Sum(Weights(o))
  }

  /** One handler changes. */
  lemma WeightsChange(o: Op, o': Op, r: int)
    requires o.ranks == o'.ranks && 0 <= r < o.ranks
    requires forall x | 0 <= x < o.ranks && x != r :: Weight(o, x) == Weight(o', x)
    ensures Sum(Weights(o')) == Sum(Weights(o)) + Weight(o', r) - Weight(o, r)
  {
    SumDiffers(Weights(o), Weights(o'), r);
  }

  lemma FewChildren(t: Topology, r: int)
    requires t.Valid() && t.IsRank(r)
    ensures |t.Children(r)| <= t.degree
  {
  }

  lemma StepUsesBudget(o: Op, a: Action)
    requires Inv(o) && Enabled(o, a)
    ensures Budget(Apply(o, a)) < Budget(o)
  {
    match a
    case Forward(r) => SendUsesBudget(o, r);
    case Collect(r) => AddUsesBudget(o, r);
    case FailForward(r) =>
      assert HandlerOk(o, r);
      CloseUsesBudget(o, r, true);
    case FailWait(r) =>
      assert HandlerOk(o, r);
      CloseUsesBudget(o, r, true);
    case Finish(r) =>
      assert HandlerOk(o, r);
      CloseUsesBudget(o, r, false);
    case Arrive(c, sum) => assert Weights(Apply(o, a)) == Weights(o);
    case Deliver(c, inRoot, inSeed) =>
      FewChildren(TreeFor(o.ranks, inRoot), c);
      ActivateUsesBudget(o, c, inRoot, inSeed, TreeFor(o.ranks, inRoot).Children(c));
    case DeliverNoTree(c, inRoot, inSeed) => ActivateUsesBudget(o, c, inRoot, inSeed, []);
  }

  lemma SendUsesBudget(o: Op, r: int)
    requires Inv(o) && r in o.handlers && o.handlers[r].phase.Sending? && o.handlers[r].sent < |o.handlers[r].kids|
    ensures Budget(SendNext(o, r)) < Budget(o)
  {
    assert HandlerOk(o, r);
    WeightsChange(o, SendNext(o, r), r);
  }

  lemma AddUsesBudget(o: Op, r: int)
    requires Inv(o) && r in o.handlers && o.handlers[r].phase.Waiting? && o.handlers[r].got < |o.handlers[r].kids|
    requires o.handlers[r].kids[o.handlers[r].got] in o.inbox
    ensures Budget(AddNext(o, r)) < Budget(o)
  {
    assert HandlerOk(o, r);
    WeightsChange(o, AddNext(o, r), r);
  }

  lemma CloseUsesBudget(o: Op, r: int, failed: bool)
    requires o.Valid() && r in o.handlers && HandlerOk(o, r) && !Replied(o, r)
    ensures Budget(Close(o, r, failed)) < Budget(o)
  {
    WeightsChange(o, Close(o, r, failed), r);
  }

  lemma ActivateUsesBudget(o: Op, c: int, inRoot: int, inSeed: int, kids: seq<int>)
    requires Inv(o) && CanDeliver(o, c, inRoot, inSeed) && |kids| <= DEGREE
    ensures Budget(Activate(o, c, inRoot, inSeed, kids)) < Budget(o)
  {
    ActivateRequests(o, c, inRoot, inSeed, kids);
    WeightsChange(o, Activate(o, c, inRoot, inSeed, kids), c);
  }

  lemma {:induction false} RunUsesBudget(o: Op, acts: seq<Action>)
    requires Inv(o) && CanRun(o, acts)
    ensures Inv(Run(o, acts)) && |acts| + Budget(Run(o, acts)) <= Budget(o)
    decreases |acts|
  {
    if acts != [] {
      StepInv(o, acts[0]);
      StepUsesBudget(o, acts[0]);
      RunUsesBudget(Apply(o, acts[0]), acts[1..]);
    }
  }

  lemma InvokeBudget(ranks: int, root: int, seed: int, tree: bool)
    requires TreeFor(ranks, root).Valid()
    ensures Budget(Invoke(ranks, root, seed, tree)) <= ranks * FULL
  {
    var start := Invoke(ranks, root, seed, tree);
    FewChildren(start.Tree(), root);
    SumAtMost(Weights(start), FULL);
  }

  /** Every run of an operation on n ranks has at most 9n steps; if it cannot be
      continued, the invoker's call has returned. */
  lemma EveryRunEnds(ranks: int, root: int, seed: int, tree: bool, acts: seq<Action>)
    requires TreeFor(ranks, root).Valid() && CanRun(Invoke(ranks, root, seed, tree), acts)
    ensures |acts| <= Budget(Invoke(ranks, root, seed, tree)) <= ranks * 9
    ensures (forall a :: !Enabled(Run(Invoke(ranks, root, seed, tree), acts), a))
            ==> Run(Invoke(ranks, root, seed, tree), acts).Finished()
  {
    var start := Invoke(ranks, root, seed, tree);
    InvokeInv(ranks, root, seed, tree);
    RunUsesBudget(start, acts);
    NeverStuck(Run(start, acts));
    InvokeBudget(ranks, root, seed, tree);
  }

  /** From every state the call can still come to its end without any further failure. */
  lemma {:induction false} CanFinish(o: Op) returns (acts: seq<Action>)
    requires Inv(o)
    ensures CanRun(o, acts) && FailureFree(acts) && Run(o, acts).Finished()
    ensures o.Finished() ==> acts == []
    decreases Budget(o)
  {
    acts := [];
    if !o.Finished() {
      assert o.root in o.handlers;
      var a := HandlerCanProceed(o, o.root);
      StepInv(o, a);
      StepUsesBudget(o, a);
      var rest := CanFinish(Apply(o, a));
      Prepend(o, a, rest);
      acts := [a] + rest;
    }
  }

  /* ---------- exactly one request and one handler for each rank ---------- */

  /** How many of the actions send a request to c. */
  function SentTo(o: Op, acts: seq<Action>, c: int): nat
    requires CanRun(o, acts)
    decreases |acts|
  {
    if acts == [] then 0 else
      (if acts[0].Forward? && o.handlers[acts[0].r].kids[o.handlers[acts[0].r].sent] == c then 1 else 0)
      + SentTo(Apply(o, acts[0]), acts[1..], c)
  }

  /** How many of the actions start a handler at c. */
  function StartedAt(acts: seq<Action>, c: int): nat
    decreases |acts|
  {
    if acts == [] then 0 else
      (if (acts[0].Deliver? || acts[0].DeliverNoTree?) && acts[0].c == c then 1 else 0) + StartedAt(acts[1..], c)
  }

  lemma StepStarts(o: Op, a: Action, c: int)
    requires Inv(o) && Enabled(o, a)
    ensures One(c in Apply(o, a).handlers) == One(c in o.handlers) + StartedAt([a], c)
  {
    assert [a][1..] == [];
    if a.Deliver? || a.DeliverNoTree? {
      ActivateRequests(o, a.c, a.inRoot, a.inSeed, []);
    }
  }

  lemma StepSends(o: Op, a: Action, c: int)
    requires Inv(o) && Enabled(o, a) && o.IsChild(c)
    ensures Apply(o, a).Valid() && Apply(o, a).IsChild(c)
    ensures One(Issued(Apply(o, a), c)) == One(Issued(o, c)) + SentTo(o, [a], c)
  {
    match a
    case Forward(r) => ForwardSends(o, r, c);
    case Deliver(d, inRoot, inSeed) =>
      ActivateRequests(o, d, inRoot, inSeed, []);
      NothingSent(o, a, c);
    case DeliverNoTree(d, inRoot, inSeed) =>
      ActivateRequests(o, d, inRoot, inSeed, []);
      NothingSent(o, a, c);
    case _ => NothingSent(o, a, c);
  }

  lemma ForwardSends(o: Op, r: int, c: int)
    requires Inv(o) && Enabled(o, Forward(r)) && o.IsChild(c)
    ensures SendNext(o, r).Valid() && SendNext(o, r).IsChild(c)
    ensures One(Issued(SendNext(o, r), c)) == One(Issued(o, c)) + SentTo(o, [Forward(r)], c)
  {
    assert [Forward(r)][1..] == [];
    assert HandlerOk(o, r);
    ParentIsCloser(o.Tree(), c);
    SlotIs(o.Tree(), r, o.handlers[r].sent, c);
  }

  /** No other action changes a send counter; a new handler starts at 0. */
  lemma NothingSent(o: Op, a: Action, c: int)
    requires o.Valid() && o.IsChild(c) && Enabled(o, a) && !a.Forward?
    requires a.Deliver? || a.DeliverNoTree? ==> a.c !in o.handlers
    ensures Apply(o, a).Valid() && Apply(o, a).IsChild(c)
    ensures Issued(Apply(o, a), c) == Issued(o, c) && SentTo(o, [a], c) == 0
  {
    assert [a][1..] == [];
    ParentIsCloser(o.Tree(), c);
    ParentLists(o.Tree(), c);
    SentByKept(o, a, o.Tree().Parent(c));
  }

  function SentBy(o: Op, p: int): nat {
    if p in o.handlers then o.handlers[p].sent else 0
  }

  lemma SentByKept(o: Op, a: Action, p: int)
    requires Enabled(o, a) && !a.Forward?
    requires a.Deliver? || a.DeliverNoTree? ==> a.c !in o.handlers
    ensures SentBy(Apply(o, a), p) == SentBy(o, p)
  {
    match a
    case Deliver(c, inRoot, inSeed) =>
    case DeliverNoTree(c, inRoot, inSeed) =>
    case Arrive(c, sum) =>
    case Collect(r) =>
    case _ =>
  }

  lemma {:induction false} CountsMatchState(o: Op, acts: seq<Action>, c: int)
    requires Inv(o) && CanRun(o, acts) && o.IsChild(c)
    ensures var o' := Run(o, acts);
            && Inv(o') && o'.IsChild(c)
            && One(Issued(o', c)) == One(Issued(o, c)) + SentTo(o, acts, c)
            && One(c in o'.handlers) == One(c in o.handlers) + StartedAt(acts, c)
    decreases |acts|
  {
    if acts != [] {
      var a := acts[0];
      StepInv(o, a);
      StepStarts(o, a, c);
      StepSends(o, a, c);
      assert [a][1..] == [];
      CountsMatchState(Apply(o, a), acts[1..], c);
    }
  }

  /** In every run each rank but the root is sent at most one request and starts at most
      one handler; in a finished failure-free run exactly one of each. */
  lemma ExactlyOnce(ranks: int, root: int, seed: int, tree: bool, acts: seq<Action>, c: int)
    requires TreeFor(ranks, root).Valid() && CanRun(Invoke(ranks, root, seed, tree), acts)
    requires 0 <= c < ranks && c != root
    ensures StartedAt(acts, c) <= SentTo(Invoke(ranks, root, seed, tree), acts, c) <= 1
    ensures tree && FailureFree(acts) && Run(Invoke(ranks, root, seed, tree), acts).Finished()
            ==> StartedAt(acts, c) == SentTo(Invoke(ranks, root, seed, tree), acts, c) == 1
  {
    var start := Invoke(ranks, root, seed, tree);
    InvokeInv(ranks, root, seed, tree);
    CountsMatchState(start, acts, c);
    var o := Run(start, acts);
    assert RequestBalance(start, c) && RequestBalance(o, c);
    if tree && FailureFree(acts) && o.Finished() {
      SumIsExact(ranks, root, seed, acts);
    }
  }

  /** Nobody ever sends the root a request or starts a second handler there. */
  lemma {:induction false} RootStartsOnce(o: Op, acts: seq<Action>)
    requires Inv(o) && CanRun(o, acts)
    ensures SentTo(o, acts, o.root) == 0 && StartedAt(acts, o.root) == 0
    decreases |acts|
  {
    if acts != [] {
      var a := acts[0];
      StepInv(o, a);
      StepSkipsRoot(o, a);
      assert [a][1..] == [];
      RootStartsOnce(Apply(o, a), acts[1..]);
    }
  }

  lemma StepSkipsRoot(o: Op, a: Action)
    requires Inv(o) && Enabled(o, a)
    ensures Apply(o, a).root == o.root
    ensures SentTo(o, [a], o.root) == 0 && StartedAt([a], o.root) == 0
  {
    assert [a][1..] == [];
    if a.Forward? {
      assert HandlerOk(o, a.r);
      ChildPointsBack(o.Tree(), a.r, o.handlers[a.r].sent);
    } else if a.Deliver? || a.DeliverNoTree? {
      ActivateRequests(o, a.c, a.inRoot, a.inSeed, []);
    }
  }

  function Forwards(acts: seq<Action>): nat {
    if acts == [] then 0 else One(acts[0].Forward?) + Forwards(acts[1..])
  }

  /** Requests sent to ranks below n. */
  function SentBelow(o: Op, acts: seq<Action>, n: nat): nat
    requires CanRun(o, acts)
  {
    if n == 0 then 0 else SentBelow(o, acts, n - 1) + SentTo(o, acts, n - 1)
  }

  lemma {:induction false} SentBelowStep(o: Op, acts: seq<Action>, target: int, n: nat)
    requires CanRun(o, acts) && acts != []
    requires acts[0].Forward? ==> target == o.handlers[acts[0].r].kids[o.handlers[acts[0].r].sent]
    ensures SentBelow(o, acts, n)
            == SentBelow(Apply(o, acts[0]), acts[1..], n) + One(acts[0].Forward? && 0 <= target < n)
  {
    if n > 0 { SentBelowStep(o, acts, target, n - 1); }
  }

  /** Every request goes to some rank. */
  lemma {:induction false} ForwardsReachRanks(o: Op, acts: seq<Action>)
    requires Inv(o) && CanRun(o, acts)
    ensures Forwards(acts) == SentBelow(o, acts, o.ranks)
    decreases |acts|
  {
    if acts == [] {
      NoneSent(o, o.ranks);
    } else {
      var target := ForwardTarget(o, acts[0]);
      StepInv(o, acts[0]);
      StepSkipsRoot(o, acts[0]);
      RunKeepsInput(o, acts);
      ForwardsReachRanks(Apply(o, acts[0]), acts[1..]);
      SentBelowStep(o, acts, target, o.ranks);
    }
  }

  lemma {:induction false} NoneSent(o: Op, n: nat)
    ensures SentBelow(o, [], n) == 0
  {
    if n > 0 { NoneSent(o, n - 1); }
  }

  lemma ForwardTarget(o: Op, a: Action) returns (target: int)
    requires Inv(o) && Enabled(o, a)
    ensures a.Forward? ==> target == o.handlers[a.r].kids[o.handlers[a.r].sent] && 0 <= target < o.ranks
    ensures Apply(o, a).ranks == o.ranks
  {
    target := 0;
    if a.Forward? {
      assert HandlerOk(o, a.r);
      target := o.handlers[a.r].kids[o.handlers[a.r].sent];
      ChildPointsBack(o.Tree(), a.r, o.handlers[a.r].sent);
    }
  }

  lemma SentToEach(ranks: int, root: int, seed: int, acts: seq<Action>, c: int)
    requires TreeFor(ranks, root).Valid() && CanRun(Invoke(ranks, root, seed), acts) && 0 <= c < ranks
    requires FailureFree(acts) && Run(Invoke(ranks, root, seed), acts).Finished()
    ensures SentTo(Invoke(ranks, root, seed), acts, c) == One(c != root)
  {
    if c == root {
      InvokeInv(ranks, root, seed);
      RootStartsOnce(Invoke(ranks, root, seed), acts);
    } else {
      ExactlyOnce(ranks, root, seed, true, acts, c);
    }
  }

  lemma {:induction false} SentBelowTotal(o: Op, acts: seq<Action>, root: int, n: nat)
    requires CanRun(o, acts) && root >= 0
    requires forall c | 0 <= c < n :: SentTo(o, acts, c) == One(c != root)
    ensures SentBelow(o, acts, n) == n - One(root < n)
  {
    if n > 0 { SentBelowTotal(o, acts, root, n - 1); }
  }

  /** A finished failure-free operation has issued ranks - 1 requests in all. */
  lemma RequestsInAll(ranks: int, root: int, seed: int, acts: seq<Action>)
    requires TreeFor(ranks, root).Valid() && CanRun(Invoke(ranks, root, seed), acts)
    requires FailureFree(acts) && Run(Invoke(ranks, root, seed), acts).Finished()
    ensures Forwards(acts) == ranks - 1
  {
    InvokeInv(ranks, root, seed);
    ForwardsReachRanks(Invoke(ranks, root, seed), acts);
    forall c | 0 <= c < ranks ensures SentTo(Invoke(ranks, root, seed), acts, c) == One(c != root) {
      SentToEach(ranks, root, seed, acts, c);
    }
    SentBelowTotal(Invoke(ranks, root, seed), acts, root, ranks);
  }
}
