/** What holds in every run of the file size reduction: the slot, the lifetimes, the
    conservation of responses, the waiting root, and the result. */
module FilesizeResult {
  import opened Arith
  import opened KaryTree
  import opened SpanningTree
  import opened FilesizeProtocol
  import opened FilesizeInvariant
  import opened FilesizeWorld

  /* ---------- the result ---------- */

  lemma {:induction false} KidsMaxCovers(s: Setup, r: int, m: nat, i: nat)
    requires s.Valid() && s.Tree().IsRank(r) && i < m <= KidCount(s, r)
    ensures s.Tree().IsRank(s.Tree().Children(r)[i])
    ensures MaxBelow(s, s.Tree().Children(r)[i]) <= MaxOfKids(s, r, m)
  {
    KidIsDeeper(s.Tree(), r, i);
    KidIsDeeper(s.Tree(), r, m - 1);
    if i < m - 1 { KidsMaxCovers(s, r, m - 1, i); }
  }

  /** The value of a rank is in the maximum of every rank above it. */
  lemma {:induction false} MaxCovers(s: Setup, a: int, x: int)
    requires s.Valid() && s.Tree().IsRank(x) && Above(s.Tree(), a, x)
    ensures s.Tree().IsRank(a) && x * 100 <= MaxBelow(s, x) <= MaxBelow(s, a)
    decreases s.Tree().Unrotate(x)
  {
    if x != a {
      ParentIsCloser(s.Tree(), x);
      ParentLists(s.Tree(), x);
      var p := s.Tree().Parent(x);
      MaxCovers(s, a, p);
      KidsMaxCovers(s, p, KidCount(s, p), s.Tree().Slot(x));
    }
  }

  lemma {:induction false} MaxAtMost(s: Setup, r: int, m: nat)
    requires s.Valid() && s.Tree().IsRank(r) && m <= KidCount(s, r)
    ensures 0 <= MaxOfKids(s, r, m) <= 100 * (s.ranks - 1)
    decreases s.ranks - s.Tree().Unrotate(r), m
  {
    if m > 0 {
      KidIsDeeper(s.Tree(), r, m - 1);
      var c := s.Tree().Children(r)[m - 1];
      MaxAtMost(s, r, m - 1);
      MaxAtMost(s, c, KidCount(s, c));
    }
  }

  lemma RootMaximum(s: Setup)
    requires s.Valid()
    ensures MaxBelow(s, s.par.root) == 100 * (s.ranks - 1)
  {
    RootAboveAll(s.Tree(), s.ranks - 1);
    MaxCovers(s, s.par.root, s.ranks - 1);
    MaxAtMost(s, s.par.root, KidCount(s, s.par.root));
  }

  /** In every interleaving, for any number of ranks, any root and any sequence of
      reductions, each with its own degree and reply mode: whenever the root reads its
      result it reads the maximum over all ranks. */
  lemma EveryResultIsMaximum(plan: Plan, acts: seq<Action>, i: int)
    requires plan.Valid() && CanRun(plan, BEGIN, acts) && 0 <= i < |Run(plan, BEGIN, acts).results|
    ensures Run(plan, BEGIN, acts).results[i] == 100 * (plan.ranks - 1)
  {
    BeginInv(plan);
    RunInv(plan, BEGIN, acts);
    RootMaximum(plan.Of(i));
  }

  /* ---------- the slot ---------- */

  /** Over any run of consecutive reductions: when the handler of c's response is about to
      use glb_st, that is the live state of the very reduction the response belongs to. */
  lemma SlotNeverStale(plan: Plan, acts: seq<Action>, id: nat, c: int)
    requires plan.Valid() && CanRun(plan, BEGIN, acts) && id < |plan.modes| && plan.Of(id).IsChild(c)
    requires id < |Run(plan, BEGIN, acts).ops| && RespT(c) in Run(plan, BEGIN, acts).ops[id].threads
    requires Run(plan, BEGIN, acts).ops[id].threads[RespT(c)].Update?
    ensures var w, p := Run(plan, BEGIN, acts), ParentOf(plan.Of(id), c);
            p in w.glb && w.glb[p] == id && p in w.ops[id].heap && !w.ops[id].heap[p].freed
  {
    BeginInv(plan);
    RunInv(plan, BEGIN, acts);
    SlotIsRight(plan, Run(plan, BEGIN, acts), id, c);
  }

  /* ---------- each reduction in its own mode ---------- */

  /** In every run, every state of a reduction has the root, degree and reply mode planned
      for that reduction, and every request in flight carries them. */
  lemma EachInItsMode(plan: Plan, acts: seq<Action>, id: nat)
    requires plan.Valid() && CanRun(plan, BEGIN, acts) && id < |Run(plan, BEGIN, acts).ops|
    ensures id < |plan.modes|
    ensures var o, mode := Run(plan, BEGIN, acts).ops[id], plan.modes[id];
            && (forall r | r in o.heap :: o.heap[r].par == Params(plan.root, mode.degree, mode.reply))
            && (forall m | m in o.net && m.Request? ::
                  m.par == Params(plan.root, mode.degree, mode.reply) && 0 <= m.to < plan.ranks && m.to != plan.root)
  {
    var w := Run(plan, BEGIN, acts);
    BeginInv(plan);
    RunInv(plan, BEGIN, acts);
    assert OpInvAt(plan, w, id);
    var s, o := plan.Of(id), w.ops[id];
    forall r | r in o.heap ensures o.heap[r].par == s.par {
      assert s.Tree().IsRank(r) && RankOk(s, o, r);
    }
    forall m | m in o.net && m.Request? ensures m.par == s.par && s.IsChild(m.to) {
      assert MsgOk(s, m);
    }
  }

  /** In every reachable state, rank r asks its children in the reduction's tree, in order:
      its next request goes to the next entry of its child list and carries root, degree and
      reply mode.  In reply mode it waits for the answer before going on. */
  lemma AsksItsChildren(plan: Plan, acts: seq<Action>, w: World, id: nat, r: int)
    requires plan.Valid() && CanRun(plan, BEGIN, acts) && w == Run(plan, BEGIN, acts)
    requires CanAct(plan, w, Action.Local(id, SendRequest(r)))
    ensures id < |plan.modes| && 0 <= r < plan.ranks
    ensures var mode, o := plan.modes[id], w.ops[id];
            var o' := Act(plan, w, Action.Local(id, SendRequest(r))).ops[id];
            var kids, i := Topology(plan.ranks, plan.root, mode.degree).Children(r), o.threads[ReqT(r)].i;
            && i < |kids|
            && o'.net == o.net + multiset{Request(kids[i], Params(plan.root, mode.degree, mode.reply))}
            && o'.threads == o.threads[ReqT(r) := if mode.reply then AwaitReqAck(i) else Fwd(i + 1)]
  {
    BeginInv(plan);
    RunInv(plan, BEGIN, acts);
    assert OpInvAt(plan, w, id);
    AskNext(plan.Of(id), w.ops[id], r);
  }

  lemma AskNext(s: Setup, o: Op, r: int)
    requires s.Valid() && OpInv(s, o) && CanDo(s.ranks, o, SendRequest(r))
    ensures s.Tree().IsRank(r)
    ensures var o', i := DoLocal(s.ranks, o, SendRequest(r)), o.threads[ReqT(r)].i;
            && i < |s.Tree().Children(r)|
            && o'.net == o.net + multiset{Request(s.Tree().Children(r)[i], s.par)}
            && o'.threads == o.threads[ReqT(r) := if s.par.reply then AwaitReqAck(i) else Fwd(i + 1)]
  {
    assert TidOk(s, ReqT(r));
    assert RankOk(s, o, r);
  }

  /** No other action posts a request. */
  lemma OnlySendingAsks(plan: Plan, w: World, a: Action, id: nat, to: int, par: Params)
    requires plan.Valid() && CanAct(plan, w, a) && id < |w.ops| && !(a.Local? && a.a.SendRequest?)
    ensures id < |Act(plan, w, a).ops|
    ensures Act(plan, w, a).ops[id].net[Request(to, par)] <= w.ops[id].net[Request(to, par)]
  {
    match a
    case Local(k, l) => if k == id { LocalAsksNobody(plan.ranks, w.ops[id], l, to, par); }
    case UseSlot(k, c) =>
      var p, pc := plan.Of(k).Tree().Parent(c), w.ops[k].threads[RespT(c)];
      var ops := w.ops[k := Goto(w.ops[k], RespT(c), Done)];
      CountAsksNobody(plan.ranks, ops[w.glb[p]], p, pc.size, pc.err, to, par);
    case _ =>
  }

  lemma LocalAsksNobody(ranks: int, o: Op, l: Local, to: int, par: Params)
    requires CanDo(ranks, o, l) && !l.SendRequest?
    ensures DoLocal(ranks, o, l).net[Request(to, par)] <= o.net[Request(to, par)]
  {
    match l
    case EndForward(_) =>
    case DeliverRequest(_, _) =>
    case AckRequest(_) =>
    case TakeReqAck(_) =>
    case DeliverResponse(_, _, _, _) =>
    case AckResponse(_) =>
    case TakeRespAck(_) =>
    case _ =>
  }

  lemma CountAsksNobody(ranks: int, o: Op, p: int, size: int, err: int, to: int, par: Params)
    requires HasState(ranks, o, p)
    ensures CountResponse(ranks, o, p, size, err).net[Request(to, par)] == o.net[Request(to, par)]
  {
  }

  /* ---------- lifetimes ---------- */

  /** The states an action reads, writes or frees, as (reduction, rank).  A loop that is
      over and a reply that comes back touch local variables only. */
  function Touched(plan: Plan, w: World, a: Action): set<(nat, int)>
    requires plan.Valid() && CanAct(plan, w, a)
  {
    match a
    case Local(id, SendRequest(r)) => {(id, r)}
    case Local(id, EndForward(r)) => if Kids(plan.ranks, w.ops[id], r) == [] then {(id, r)} else {}
    case Local(id, FreeState(r)) => {(id, r)}
    case Local(id, LockMutex(r)) => {(id, r)}
    case Local(id, UnlockMutex(r)) => {(id, r)}
    case Local(_, _) => {}
    case UseSlot(id, c) => var p := plan.Of(id).Tree().Parent(c); {(w.glb[p], p)}
    case SignalMain(id) => {(id, plan.root)}
    case Start => {}
    case WaitCond => {(w.glb[plan.root], plan.root)}
    case Relock => {(w.glb[plan.root], plan.root)}
    case Read => {(w.glb[plan.root], plan.root)}
    case FreeRoot => {(w.glb[plan.root], plan.root)}
  }

  predicate Live(w: World, id: nat, r: int) {
    id < |w.ops| && r in w.ops[id].heap && !w.ops[id].heap[r].freed
  }

  /** No use after free and no double free, in one state of the invariant. */
  lemma TouchesLive(plan: Plan, w: World, a: Action)
    requires WorldInv(plan, w) && CanAct(plan, w, a)
    ensures forall x | x in Touched(plan, w, a) :: Live(w, x.0, x.1)
  {
    match a
    case Local(id, l) => LocalTouchesLive(plan, w, id, l);
    case UseSlot(id, c) => SlotIsRight(plan, w, id, c);
    case SignalMain(id) => UnfinishedRootIsCurrent(plan, w, id);
    case _ =>
  }

  lemma LocalTouchesLive(plan: Plan, w: World, id: nat, l: Local)
    requires WorldInv(plan, w) && CanAct(plan, w, Action.Local(id, l))
    ensures forall x | x in Touched(plan, w, Action.Local(id, l)) :: Live(w, x.0, x.1)
  {
    var s, o := plan.Of(id), w.ops[id];
    assert OpInvAt(plan, w, id);
    match l
    case SendRequest(r) => SendTouchesLive(s, o, r);
    case EndForward(r) => assert s.Tree().IsRank(r) && RankOk(s, o, r);
    case FreeState(r) => assert TidOk(s, UpT(r)) && RankOk(s, o, r);
    case LockMutex(r) => assert TidOk(s, UpT(r)) && RankOk(s, o, r);
    case UnlockMutex(r) => assert TidOk(s, UpT(r)) && RankOk(s, o, r);
    case _ =>
  }

  /** And an action changes no other state than those: every state it does not touch, of
      any reduction so far, stays as it is. */
  lemma UntouchedStays(plan: Plan, w: World, a: Action, id: nat, r: int)
    requires WorldInv(plan, w) && CanAct(plan, w, a) && id < |w.ops| && r in w.ops[id].heap
    requires (id, r) !in Touched(plan, w, a)
    ensures id < |Act(plan, w, a).ops| && r in Act(plan, w, a).ops[id].heap
    ensures Act(plan, w, a).ops[id].heap[r] == w.ops[id].heap[r]
  {
    match a
    case Local(k, l) => if k == id { LocalUntouched(plan, w, id, l, r); }
    case UseSlot(k, c) =>
      SlotIsRight(plan, w, k, c);
      var p, pc := plan.Of(k).Tree().Parent(c), w.ops[k].threads[RespT(c)];
      var ops := w.ops[k := Goto(w.ops[k], RespT(c), Done)];
      if id == k { CountUntouched(plan.ranks, ops[k], p, pc.size, pc.err, r); }
    case _ =>
  }

  lemma LocalUntouched(plan: Plan, w: World, id: nat, l: Local, r: int)
    requires WorldInv(plan, w) && CanAct(plan, w, Action.Local(id, l)) && r in w.ops[id].heap
    requires (id, r) !in Touched(plan, w, Action.Local(id, l))
    ensures r in DoLocal(plan.ranks, w.ops[id], l).heap
    ensures DoLocal(plan.ranks, w.ops[id], l).heap[r] == w.ops[id].heap[r]
  {
    var s, o := plan.Of(id), w.ops[id];
    assert OpInvAt(plan, w, id);
    match l
    case EndForward(x) =>
    case Allocate(c) =>
      assert TidOk(s, ReqT(c)) && RankOk(s, o, c);
    case FreeState(x) =>
    case LockMutex(x) =>
    case UnlockMutex(x) =>
    case _ => HeapStays(s, o, l);
  }

  lemma CountUntouched(ranks: int, o: Op, p: int, size: int, err: int, r: int)
    requires HasState(ranks, o, p) && r in o.heap && r != p
    ensures r in CountResponse(ranks, o, p, size, err).heap
    ensures CountResponse(ranks, o, p, size, err).heap[r] == o.heap[r]
  {
  }

  /** While a rank still has a child to ask, its result is not complete. */
  lemma SendTouchesLive(s: Setup, o: Op, r: int)
    requires s.Valid() && OpInv(s, o) && CanDo(s.ranks, o, SendRequest(r))
    ensures !Up(o, r) && !o.heap[r].freed
  {
    assert s.Tree().IsRank(r) && RankOk(s, o, r);
    var i := o.threads[ReqT(r)].i;
    KidIsDeeper(s.Tree(), r, i);
    var c := s.Tree().Children(r)[i];
    assert RankOk(s, o, c);
    if Up(o, r) {
      UpMeansKidsUp(s, o, c);
      PassedOnWasIssued(s, o, c);
    }
  }

  /** In every run, no action touches a freed state. */
  lemma NoUseAfterFree(plan: Plan, acts: seq<Action>, a: Action)
    requires plan.Valid() && CanRun(plan, BEGIN, acts) && CanAct(plan, Run(plan, BEGIN, acts), a)
    ensures forall x | x in Touched(plan, Run(plan, BEGIN, acts), a) :: Live(Run(plan, BEGIN, acts), x.0, x.1)
  {
    BeginInv(plan);
    RunInv(plan, BEGIN, acts);
    TouchesLive(plan, Run(plan, BEGIN, acts), a);
  }

  /* ---------- conservation ---------- */

  /** For every child of a rank that has its state, exactly one of these holds: not asked
      yet, request in flight, at work, response on the way, counted. */
  lemma ChildIsSomewhere(s: Setup, o: Op, c: int)
    requires s.Valid() && OpInv(s, o) && s.IsChild(c)
    ensures One(!Issued(s, o, c)) + RequestsTo(s, o, c) + One(ReqT(c) in o.threads && !Up(o, c))
            + (o.net[ResponseOf(s, c)] + One(RespT(c) in o.threads && !CountedAt(o, c))) + One(CountedAt(o, c)) == 1
  {
    assert RankOk(s, o, c);
    if Up(o, c) { PassedOnWasIssued(s, o, c); }
  }

  /** The children that are not counted yet, whatever stage they are in. */
  function Outstanding(s: Setup, o: Op, r: int, m: nat): nat
    requires s.Valid() && s.Tree().IsRank(r) && m <= KidCount(s, r)
  {
    if m == 0 then 0 else
      KidIsDeeper(s.Tree(), r, m - 1);
      var c := s.Tree().Children(r)[m - 1];
      Outstanding(s, o, r, m - 1)
      + (One(!Issued(s, o, c)) + RequestsTo(s, o, c) + One(ReqT(c) in o.threads && !Up(o, c))
         + (o.net[ResponseOf(s, c)] + One(RespT(c) in o.threads && !CountedAt(o, c))))
  }

  lemma {:induction false} OutstandingPlusCounted(s: Setup, o: Op, r: int, m: nat)
    requires s.Valid() && OpInv(s, o) && s.Tree().IsRank(r) && m <= KidCount(s, r)
    ensures Outstanding(s, o, r, m) + CountOf(o, s.Tree().Children(r), m) == m
  {
    if m > 0 {
      KidIsDeeper(s.Tree(), r, m - 1);
      OutstandingPlusCounted(s, o, r, m - 1);
      ChildIsSomewhere(s, o, s.Tree().Children(r)[m - 1]);
    }
  }

  /** Conservation: num_responses and the outstanding children add up to child_count; and
      the result is passed on exactly when nothing is outstanding (and, without children,
      the loop is over). */
  lemma ResponsesConserved(s: Setup, o: Op, r: int)
    requires s.Valid() && OpInv(s, o) && s.Tree().IsRank(r) && r in o.heap
    ensures o.heap[r].num + Outstanding(s, o, r, KidCount(s, r)) == KidCount(s, r)
    ensures Up(o, r) <==> Outstanding(s, o, r, KidCount(s, r)) == 0 && (KidCount(s, r) == 0 ==> At(o, ReqT(r), Done))
  {
    assert RankOk(s, o, r);
    OutstandingPlusCounted(s, o, r, KidCount(s, r));
  }

  /** A rank that passed its result on never does so again: no later action posts another
      response of it, and the mark stays. */
  lemma PassedOnOnce(plan: Plan, w: World, a: Action, id: nat, r: int)
    requires WorldInv(plan, w) && CanAct(plan, w, a) && id < |w.ops| && plan.Of(id).IsChild(r)
    ensures id < |Act(plan, w, a).ops|
    ensures var o, o', response := w.ops[id], Act(plan, w, a).ops[id], ResponseOf(plan.Of(id), r);
            && (Up(o, r) ==> Up(o', r) && o'.net[response] <= o.net[response])
            && (!Up(o, r) && Up(o', r) ==> o'.net[response] == o.net[response] + 1)
            && (!Up(o', r) ==> o'.net[response] == 0)
  {
    ActInv(plan, w, a);
    ThreadsOverAction(plan, w, a, id, UpT(r));
    ThreadsOverAction(plan, w, a, id, RespT(r));
    BalancedResponse(plan, w, id, r);
    BalancedResponse(plan, Act(plan, w, a), id, r);
  }

  lemma BalancedResponse(plan: Plan, w: World, id: nat, r: int)
    requires WorldInv(plan, w) && id < |w.ops| && plan.Of(id).IsChild(r)
    ensures ResponseBalance(plan.Of(id), w.ops[id], r)
    ensures forall size, err, reply | Response(r, size, err, reply) in w.ops[id].net :: Up(w.ops[id], r)
  {
    assert OpInvAt(plan, w, id);
    assert RankOk(plan.Of(id), w.ops[id], r);
    forall size, err, reply | Response(r, size, err, reply) in w.ops[id].net ensures Up(w.ops[id], r) {
      assert MsgOk(plan.Of(id), Response(r, size, err, reply));
    }
  }

  /** Threads are never forgotten, and a response handler starts only by delivery. */
  lemma ThreadsOverLocal(ranks: int, o: Op, a: Local, t: Tid)
    requires CanDo(ranks, o, a)
    ensures t in o.threads ==> t in DoLocal(ranks, o, a).threads
    ensures t.RespT? && t in DoLocal(ranks, o, a).threads ==> t in o.threads || (a.DeliverResponse? && a.c == t.c)
  {
  }

  lemma ThreadsOverCount(ranks: int, o: Op, p: int, size: int, err: int, t: Tid)
    requires HasState(ranks, o, p)
    ensures t in o.threads ==> t in CountResponse(ranks, o, p, size, err).threads
    ensures t.RespT? && t in CountResponse(ranks, o, p, size, err).threads ==> t in o.threads
  {
  }

  lemma ThreadsOverAction(plan: Plan, w: World, a: Action, id: nat, t: Tid)
    requires plan.Valid() && CanAct(plan, w, a) && id < |w.ops|
    ensures id < |Act(plan, w, a).ops|
    ensures t in w.ops[id].threads ==> t in Act(plan, w, a).ops[id].threads
    ensures t.RespT? && t in Act(plan, w, a).ops[id].threads && t !in w.ops[id].threads ==>
              a.Local? && a.id == id && a.a.DeliverResponse? && a.a.c == t.c
  {
    match a
    case Local(k, l) => ThreadsOverLocal(plan.ranks, w.ops[k], l, t);
    case UseSlot(k, c) =>
      var p, pc := plan.Of(k).Tree().Parent(c), w.ops[k].threads[RespT(c)];
      var ops := w.ops[k := Goto(w.ops[k], RespT(c), Done)];
      ThreadsOverCount(plan.ranks, ops[w.glb[p]], p, pc.size, pc.err, t);
    case _ =>
  }

  /* ---------- the waiting root ---------- */

  /** The signal never comes before the wait: when it is given the main thread waits, and
      on this reduction's condition variable, so it always wakes it. */
  lemma SignalFindsWaiter(plan: Plan, acts: seq<Action>, id: nat)
    requires plan.Valid() && CanRun(plan, BEGIN, acts) && CanAct(plan, Run(plan, BEGIN, acts), SignalMain(id))
    ensures var w := Run(plan, BEGIN, acts);
            && w.main == Waiting && plan.root in w.glb && w.glb[plan.root] == id
            && Act(plan, w, SignalMain(id)).main == Woken
  {
    BeginInv(plan);
    RunInv(plan, BEGIN, acts);
    SignalInv(plan, Run(plan, BEGIN, acts), id);
  }

  /** With more than one rank the main thread, which holds the mutex, never comes to the
      signalling branch itself. */
  lemma MainNeverSignals(s: Setup, o: Op)
    requires s.Valid() && OpInv(s, o) && s.ranks > 1 && CanDo(s.ranks, o, EndForward(s.par.root))
    ensures DoLocal(s.ranks, o, EndForward(s.par.root)) == Goto(o, ReqT(s.par.root), Done)
  {
    assert RankOk(s, o, s.par.root);
    RootHasKids(s);
  }

  /** The root frees its state only after the signalling handler has unlocked the mutex. */
  lemma FreedAfterUnlock(plan: Plan, acts: seq<Action>)
    requires plan.Valid() && CanRun(plan, BEGIN, acts) && CanAct(plan, Run(plan, BEGIN, acts), FreeRoot)
    ensures var w := Run(plan, BEGIN, acts);
            var o := w.ops[w.glb[plan.root]];
            At(o, UpT(plan.root), Done) && (plan.ranks > 1 ==> o.heap[plan.root].mutex == Unlocked)
  {
    BeginInv(plan);
    RunInv(plan, BEGIN, acts);
    FreeingIsUnlocked(plan, Run(plan, BEGIN, acts));
  }

  lemma FreeingIsUnlocked(plan: Plan, w: World)
    requires WorldInv(plan, w) && w.main == Freeing
    ensures |w.ops| > 0 && plan.root in w.glb && w.glb[plan.root] == |w.ops| - 1
    ensures var o := w.ops[|w.ops| - 1];
            && At(o, UpT(plan.root), Done)
            && plan.root in o.heap && (plan.ranks > 1 ==> o.heap[plan.root].mutex == Unlocked)
  {
  }
}
