/** What every step of the sum collective keeps. */
module SumInvariant {
  import opened KaryTree
  import opened SpanningTree
  import opened SumProtocol

  /** Each handler works for this operation, with the child list of the operation's
      tree (or none, if memory for the tree was missing), and its counters fit its phase. */
  ghost predicate Handlers(o: Op)
    requires o.Valid()
  {
    && o.root in o.handlers
    && forall r {:trigger HandlerOk(o, r)} | r in o.handlers :: HandlerOk(o, r)
  }

  ghost predicate HandlerOk(o: Op, r: int)
    requires o.Valid() && r in o.handlers
  {
    var h := o.handlers[r];
    && o.Tree().IsRank(r) && h.root == o.root && h.seed == o.seed
    && (h.kids == o.Tree().Children(r) || h.kids == [])
    && h.got <= h.sent <= |h.kids|
    && (h.got > 0 ==> h.sent == |h.kids|)
    && (h.phase.Sending? ==> h.sent < |h.kids|)
    && (h.phase.Waiting? ==> h.sent == |h.kids|)
    && (h.phase.Returned? ==> (h.phase.failed <==> h.got < |h.kids|))
  }

  /** The parent of c has sent c its request. */
  ghost predicate Issued(o: Op, c: int)
    requires o.Valid() && o.IsChild(c)
  {
    ParentIsCloser(o.Tree(), c);
    var p := o.Tree().Parent(c);
    p in o.handlers && o.Tree().Slot(c) < o.handlers[p].sent
  }

  /** Requests: one issued request is one message in flight or one handler, never both
      and never two. */
  ghost predicate Requests(o: Op)
    requires o.Valid()
  {
    && (forall m | m in o.net && m.Request? :: m.root == o.root && m.seed == o.seed && o.IsChild(m.to))
    && (forall c {:trigger RequestBalance(o, c)} | o.IsChild(c) :: RequestBalance(o, c))
  }

  ghost predicate RequestBalance(o: Op, c: int)
    requires o.Valid() && o.IsChild(c)
  {
    o.net[Request(c, o.root, o.seed)] + (if c in o.handlers then 1 else 0) == if Issued(o, c) then 1 else 0
  }

  /** Replies: a handler that returned has its one reply in flight or in the inbox. */
  ghost predicate Replies(o: Op)
    requires o.Valid()
  {
    && (forall m | m in o.net && m.Reply? :: m.from in o.handlers && m.sum == o.handlers[m.from].sum)
    && (forall c | c in o.inbox :: c in o.handlers && o.IsChild(c) && o.inbox[c] == o.handlers[c].sum)
    && (forall c {:trigger ReplyBalance(o, c)} | c in o.handlers && o.IsChild(c) :: ReplyBalance(o, c))
    && (forall m | m in o.net && m.Reply? :: o.IsChild(m.from))
  }

  ghost predicate ReplyBalance(o: Op, c: int)
    requires c in o.handlers
  {
    o.net[Reply(c, o.handlers[c].sum)] + (if c in o.inbox then 1 else 0)
    == if o.handlers[c].phase.Returned? then 1 else 0
  }

  predicate Replied(o: Op, c: int) {
    c in o.handlers && o.handlers[c].phase.Returned?
  }

  function ResultOf(o: Op, c: int): int {
    if c in o.handlers then o.handlers[c].sum else 0
  }

  /** The sum of the results of the first m of the given ranks. */
  function Collected(o: Op, kids: seq<int>, m: nat): int
    requires m <= |kids|
  {
    if m == 0 then 0 else Collected(o, kids, m - 1) + ResultOf(o, kids[m - 1])
  }

  /** Sums: a handler holds the results of the children it collected, all of which have
      returned, and after its own return also its own contribution. */
  ghost predicate Sums(o: Op) {
    forall r {:trigger SumOk(o, r)} | r in o.handlers :: SumOk(o, r)
  }

  ghost predicate SumOk(o: Op, r: int)
    requires r in o.handlers
  {
    var h := o.handlers[r];
    && h.got <= |h.kids|
    && (forall j | 0 <= j < h.got :: Replied(o, h.kids[j]))
    && h.sum == Collected(o, h.kids, h.got) + if h.phase.Returned? then r + h.seed else 0
  }

  ghost predicate Inv(o: Op) {
    && o.Valid()
    && Handlers(o)
    && Requests(o)
    && Replies(o)
    && Sums(o)
  }

  lemma InvokeInv(ranks: int, root: int, seed: int, tree: bool := true)
    requires TreeFor(ranks, root).Valid()
    ensures Inv(Invoke(ranks, root, seed, tree))
  {
    var o := Invoke(ranks, root, seed, tree);
    assert HandlerOk(o, root) && SumOk(o, root);
    forall c | o.IsChild(c) ensures RequestBalance(o, c) {
      ParentIsCloser(o.Tree(), c);
    }
  }

  /* ---------- frames: what a step does not touch ---------- */

  /** o' is o with a new or changed handler at r, and perhaps other messages. */
  predicate Differs(o: Op, o': Op, r: int) {
    && o'.ranks == o.ranks && o'.root == o.root && o'.seed == o.seed
    && r in o'.handlers && o'.handlers == o.handlers[r := o'.handlers[r]]
  }

  lemma HandlersKept(o: Op, o': Op, r: int)
    requires o.Valid() && Handlers(o) && Differs(o, o', r) && HandlerOk(o', r)
    ensures Handlers(o')
  {
    forall x | x in o'.handlers ensures HandlerOk(o', x) {
      if x != r { assert HandlerOk(o, x); }
    }
  }

  /** A collected sum depends only on the results it covers. */
  lemma {:induction false} CollectedFrame(o: Op, o': Op, kids: seq<int>, m: nat)
    requires m <= |kids|
    requires forall j | 0 <= j < m :: ResultOf(o, kids[j]) == ResultOf(o', kids[j])
    ensures Collected(o, kids, m) == Collected(o', kids, m)
  {
    if m > 0 { CollectedFrame(o, o', kids, m - 1); }
  }

  /** Handlers that returned stay as they are, so what other handlers collected stays right. */
  lemma SumsKept(o: Op, o': Op, r: int)
    requires Sums(o) && Differs(o, o', r) && !Replied(o, r) && SumOk(o', r)
    ensures Sums(o')
  {
    forall x | x in o'.handlers ensures SumOk(o', x) {
      if x != r { SumFrame(o, o', r, x); }
    }
  }

  lemma SumFrame(o: Op, o': Op, r: int, x: int)
    requires x in o.handlers && SumOk(o, x) && Differs(o, o', r) && !Replied(o, r) && x != r
    ensures SumOk(o', x)
  {
    var h := o.handlers[x];
    forall j | 0 <= j < h.got ensures Replied(o', h.kids[j]) && ResultOf(o, h.kids[j]) == ResultOf(o', h.kids[j]) {
      assert Replied(o, h.kids[j]);
    }
    CollectedFrame(o, o', h.kids, h.got);
  }

  /** If handler r has the same children collected before and after, so is their sum. */
  lemma OwnSumFrame(o: Op, o': Op, r: int)
    requires r in o.handlers && SumOk(o, r) && Differs(o, o', r) && !Replied(o, r)
    ensures var h := o.handlers[r];
            && (forall j | 0 <= j < h.got :: Replied(o', h.kids[j]))
            && Collected(o', h.kids, h.got) == Collected(o, h.kids, h.got)
  {
    var h := o.handlers[r];
    forall j | 0 <= j < h.got ensures Replied(o', h.kids[j]) && ResultOf(o, h.kids[j]) == ResultOf(o', h.kids[j]) {
      assert Replied(o, h.kids[j]);
    }
    CollectedFrame(o, o', h.kids, h.got);
  }

  /** Requests stay balanced while no request, no activation and no send counter changes. */
  lemma RequestsKept(o: Op, o': Op, r: int)
    requires o.Valid() && Requests(o) && Differs(o, o', r)
    requires r in o.handlers && o'.handlers[r].sent == o.handlers[r].sent
    requires forall m: Msg | m.Request? :: o'.net[m] == o.net[m]
    ensures Requests(o')
  {
    forall c | o'.IsChild(c) ensures RequestBalance(o', c) {
      assert RequestBalance(o, c);
    }
    forall m | m in o'.net && m.Request? ensures m.root == o'.root && m.seed == o'.seed && o'.IsChild(m.to) {
      assert m in o.net;
    }
  }

  /** Replies stay balanced while no reply moves and r has not returned, before or after. */
  lemma RepliesKept(o: Op, o': Op, r: int)
    requires o.Valid() && Replies(o) && Differs(o, o', r) && o'.inbox == o.inbox
    requires !Replied(o, r) && !Replied(o', r)
    requires forall m: Msg | m.Reply? :: o'.net[m] == o.net[m]
    ensures Replies(o')
  {
    NotYetReplied(o, r);
    forall c | c in o'.handlers && o'.IsChild(c) ensures ReplyBalance(o', c) {
      if c != r { assert ReplyBalance(o, c); }
    }
    forall m | m in o'.net && m.Reply?
      ensures o'.IsChild(m.from) && m.from in o'.handlers && m.sum == o'.handlers[m.from].sum
    {
      assert m in o.net;
    }
  }

  lemma NotYetReplied(o: Op, r: int)
    requires o.Valid() && Replies(o) && !Replied(o, r)
    ensures r !in o.inbox && forall m | m in o.net && m.Reply? :: m.from != r
  {
    if r in o.handlers && o.IsChild(r) { assert ReplyBalance(o, r); }
  }

  /* ---------- one step: every action keeps the invariant ---------- */

  lemma StepInv(o: Op, a: Action)
    requires Inv(o) && Enabled(o, a)
    ensures Inv(Apply(o, a))
  {
    match a
    case Forward(r) => SendKeeps(o, r);
    case Deliver(d, inRoot, inSeed) => ActivateKeeps(o, d, inRoot, inSeed, TreeFor(o.ranks, inRoot).Children(d));
    case DeliverNoTree(d, inRoot, inSeed) => ActivateKeeps(o, d, inRoot, inSeed, []);
    case FailForward(r) =>
      assert HandlerOk(o, r);
      CloseKeeps(o, r, true);
    case FailWait(r) => CloseKeeps(o, r, true);
    case Finish(r) => CloseKeeps(o, r, false);
    case Collect(r) => CollectKeeps(o, r);
    case Arrive(c, sum) => ArriveKeeps(o, c, sum);
  }

  /* sending a request */

  lemma SendKeeps(o: Op, r: int)
    requires Inv(o) && r in o.handlers && o.handlers[r].phase.Sending?
    ensures o.handlers[r].sent < |o.handlers[r].kids| && Inv(SendNext(o, r))
  {
    assert HandlerOk(o, r) && SumOk(o, r);
    var o' := SendNext(o, r);
    HandlersKept(o, o', r);
    SendRequests(o, r);
    RepliesKept(o, o', r);
    OwnSumFrame(o, o', r);
    SumsKept(o, o', r);
  }

  lemma SendRequests(o: Op, r: int)
    requires o.Valid() && Requests(o)
    requires r in o.handlers && HandlerOk(o, r) && o.handlers[r].phase.Sending?
    ensures Requests(SendNext(o, r))
  {
    var o', i := SendNext(o, r), o.handlers[r].sent;
    ChildPointsBack(o.Tree(), r, i);
    forall c | o'.IsChild(c) ensures RequestBalance(o', c) {
      assert RequestBalance(o, c);
      SendBalance(o, r, c);
    }
  }

  lemma SendBalance(o: Op, r: int, c: int)
    requires o.Valid() && o.IsChild(c) && RequestBalance(o, c)
    requires r in o.handlers && HandlerOk(o, r) && o.handlers[r].phase.Sending?
    ensures RequestBalance(SendNext(o, r), c)
  {
    SlotIs(o.Tree(), r, o.handlers[r].sent, c);
  }

  /* the end of sum_forward */

  lemma CloseKeeps(o: Op, r: int, failed: bool)
    requires Inv(o) && r in o.handlers && !o.handlers[r].phase.Returned?
    requires failed <==> o.handlers[r].got < |o.handlers[r].kids|
    ensures Inv(Close(o, r, failed))
  {
    assert HandlerOk(o, r) && SumOk(o, r);
    var o' := Close(o, r, failed);
    HandlersKept(o, o', r);
    RequestsKept(o, o', r);
    CloseReplies(o, r, failed);
    OwnSumFrame(o, o', r);
    SumsKept(o, o', r);
  }

  lemma CloseReplies(o: Op, r: int, failed: bool)
    requires o.Valid() && Replies(o) && r in o.handlers && !Replied(o, r) && HandlerOk(o, r)
    ensures Replies(Close(o, r, failed))
  {
    var o' := Close(o, r, failed);
    NotYetReplied(o, r);
    forall c | c in o'.handlers && o'.IsChild(c) ensures ReplyBalance(o', c) {
      assert ReplyBalance(o, c);
    }
  }

  /* a request starts a handler */

  lemma ActivateKeeps(o: Op, d: int, inRoot: int, inSeed: int, kids: seq<int>)
    requires Inv(o) && CanDeliver(o, d, inRoot, inSeed)
    requires kids == [] || kids == TreeFor(o.ranks, inRoot).Children(d)
    ensures d !in o.handlers && o.IsChild(d) && inRoot == o.root && inSeed == o.seed
    ensures Inv(Activate(o, d, inRoot, inSeed, kids))
  {
    var o' := Activate(o, d, inRoot, inSeed, kids);
    ActivateRequests(o, d, inRoot, inSeed, kids);
    HandlersKept(o, o', d);
    RepliesKept(o, o', d);
    SumsKept(o, o', d);
  }

  lemma ActivateRequests(o: Op, d: int, inRoot: int, inSeed: int, kids: seq<int>)
    requires o.Valid() && Requests(o) && CanDeliver(o, d, inRoot, inSeed)
    ensures d !in o.handlers && o.IsChild(d) && inRoot == o.root && inSeed == o.seed
    ensures Requests(Activate(o, d, inRoot, inSeed, kids))
  {
    assert Request(d, inRoot, inSeed) in o.net;
    assert RequestBalance(o, d);
    var o' := Activate(o, d, inRoot, inSeed, kids);
    forall c | o'.IsChild(c) ensures RequestBalance(o', c) {
      assert RequestBalance(o, c);
      ActivateBalance(o, d, kids, c);
    }
  }

  lemma ActivateBalance(o: Op, d: int, kids: seq<int>, c: int)
    requires o.Valid() && o.IsChild(c) && o.IsChild(d) && RequestBalance(o, c)
    requires d !in o.handlers && Request(d, o.root, o.seed) in o.net
    ensures RequestBalance(Activate(o, d, o.root, o.seed, kids), c)
  {
  }

  /* a reply arrives and is collected */

  lemma ArriveKeeps(o: Op, d: int, sum: int)
    requires Inv(o) && Reply(d, sum) in o.net
    ensures Replied(o, d)
    ensures Inv(o.(net := o.net - multiset{Reply(d, sum)}, inbox := o.inbox[d := sum]))
  {
    var o' := o.(net := o.net - multiset{Reply(d, sum)}, inbox := o.inbox[d := sum]);
    assert HandlerOk(o, d);
    HandlersKept(o, o', d);
    RequestsKept(o, o', d);
    ArriveReplies(o, d, sum);
    forall x | x in o'.handlers ensures SumOk(o', x) {
      assert SumOk(o, x);
      CollectedFrame(o, o', o.handlers[x].kids, o.handlers[x].got);
    }
  }

  lemma ArriveReplies(o: Op, d: int, sum: int)
    requires o.Valid() && Replies(o) && Reply(d, sum) in o.net
    ensures Replied(o, d)
    ensures Replies(o.(net := o.net - multiset{Reply(d, sum)}, inbox := o.inbox[d := sum]))
  {
    var o' := o.(net := o.net - multiset{Reply(d, sum)}, inbox := o.inbox[d := sum]);
    assert ReplyBalance(o, d);
    forall c | c in o'.handlers && o'.IsChild(c) ensures ReplyBalance(o', c) {
      assert ReplyBalance(o, c);
    }
  }

  lemma CollectKeeps(o: Op, r: int)
    requires Inv(o) && r in o.handlers && o.handlers[r].phase.Waiting? && o.handlers[r].got < |o.handlers[r].kids|
    requires o.handlers[r].kids[o.handlers[r].got] in o.inbox
    ensures Inv(AddNext(o, r))
  {
    var o', h := AddNext(o, r), o.handlers[r];
    var c := h.kids[h.got];
    assert HandlerOk(o, r) && SumOk(o, r);
    assert ReplyBalance(o, c);
    HandlersKept(o, o', r);
    RequestsKept(o, o', r);
    RepliesKept(o, o', r);
    OwnSumFrame(o, o', r);
    assert Replied(o', c) && ResultOf(o', c) == o.inbox[c];
    SumsKept(o, o', r);
  }

  /** Hence it holds throughout every run. */
  lemma {:induction false} RunInv(o: Op, acts: seq<Action>)
    requires Inv(o) && CanRun(o, acts)
    ensures Inv(Run(o, acts))
    decreases |acts|
  {
    if acts != [] {
      StepInv(o, acts[0]);
      RunInv(Apply(o, acts[0]), acts[1..]);
    }
  }

  /* ---------- what a step leaves alone ---------- */

  /** Handlers of other ranks stay as they are. */
  lemma OthersStay(o: Op, a: Action, x: int)
    requires Enabled(o, a) && x != Actor(a)
    ensures x in Apply(o, a).handlers <==> x in o.handlers
    ensures x in o.handlers ==> Apply(o, a).handlers[x] == o.handlers[x]
  {
    match a
    case Deliver(c, inRoot, inSeed) =>
    case DeliverNoTree(c, inRoot, inSeed) =>
    case Arrive(c, sum) =>
    case Collect(r) =>
    case Forward(r) =>
    case _ =>
  }

  /** A handler that returned stays as it is. */
  lemma RepliedStays(o: Op, a: Action, x: int)
    requires Inv(o) && Enabled(o, a) && Replied(o, x)
    ensures Replied(Apply(o, a), x) && Apply(o, a).handlers[x] == o.handlers[x]
  {
    if x != Actor(a) {
      OthersStay(o, a, x);
    } else if a.Deliver? || a.DeliverNoTree? {
      ActivateRequests(o, a.c, a.inRoot, a.inSeed, []);
    }
  }

  lemma ApplyKeepsInput(o: Op, a: Action)
    requires Enabled(o, a)
    ensures Apply(o, a).ranks == o.ranks && Apply(o, a).root == o.root && Apply(o, a).seed == o.seed
  {
  }
}
