/** The reductions never block, and every run of them is finite. */
module FilesizeProgress {
  import opened Arith
  import opened KaryTree
  import opened FilesizeProtocol
  import opened FilesizeInvariant
  import opened FilesizeWorld
  import opened FilesizeResult

  /* ---------- progress ---------- */

  /** Nothing is left of a reduction but its (freed) states. */
  predicate Quiet(o: Op) {
    o.net == multiset{} && forall t | t in o.threads :: o.threads[t] == Done
  }

  /** All reductions ran, the main thread is back, nothing is in flight anywhere. */
  predicate AllOver(plan: Plan, w: World) {
    w.main == Idle && |w.ops| == |plan.modes| && forall id | 0 <= id < |w.ops| :: Quiet(w.ops[id])
  }

  /** A message in flight can be delivered. */
  lemma MessageMoves(s: Setup, o: Op, m: Msg) returns (a: Local)
    requires s.Valid() && OpInv(s, o) && m in o.net
    ensures CanDo(s.ranks, o, a)
  {
    assert MsgOk(s, m);
    match m
    case Request(to, par) => a := DeliverRequest(to, par);
    case Response(from, size, err, reply) => a := DeliverResponse(from, size, err, reply);
    case RespAck(from) =>
      assert RankOk(s, o, from);
      a := TakeRespAck(from);
    case ReqAck(c) =>
      var p := ParentOf(s, c);
      assert RankOk(s, o, c) && RankOk(s, o, p);
      ParentLists(s.Tree(), c);
      a := TakeReqAck(p);
  }

  /** Without messages in flight, a request handler that is not done can move, or the
      child it waits for can. */
  lemma ReqMoves(s: Setup, o: Op, r: int) returns (a: Local)
    requires s.Valid() && OpInv(s, o) && o.net == multiset{} && ReqT(r) in o.threads && o.threads[ReqT(r)] != Done
    ensures CanDo(s.ranks, o, a)
  {
    assert TidOk(s, ReqT(r));
    assert RankOk(s, o, r);
    match o.threads[ReqT(r)]
    case Respond(_) => a := AckRequest(r);
    case Alloc(_) => a := Allocate(r);
    case Fwd(i) => a := if i < KidCount(s, r) then SendRequest(r) else EndForward(r);
    case AwaitReqAck(i) =>
      KidIsDeeper(s.Tree(), r, i);
      var c := s.Tree().Children(r)[i];
      assert RankOk(s, o, c);
      a := AckRequest(c);
  }

  /** Likewise the threads that pass results on, except where the mutex is needed. */
  lemma UpMoves(s: Setup, o: Op, r: int) returns (a: Local)
    requires s.Valid() && OpInv(s, o) && o.net == multiset{} && UpT(r) in o.threads
    requires o.threads[UpT(r)].AwaitRespAck? || o.threads[UpT(r)].Free? || o.threads[UpT(r)].Unlock?
    ensures CanDo(s.ranks, o, a)
  {
    assert TidOk(s, UpT(r));
    assert RankOk(s, o, r);
    match o.threads[UpT(r)]
    case AwaitRespAck => a := AckResponse(r);
    case Free => a := FreeState(r);
    case Unlock => a := UnlockMutex(r);
  }

  /** A reduction that is quiet has its root's result. */
  lemma QuietMeansUp(s: Setup, o: Op)
    requires s.Valid() && OpInv(s, o) && Quiet(o)
    ensures Up(o, s.par.root)
  {
    QuietReaches(s, o, s.par.root);
    QuietUp(s, o, s.par.root);
  }

  lemma {:induction false} QuietReaches(s: Setup, o: Op, r: int)
    requires s.Valid() && OpInv(s, o) && Quiet(o) && s.Tree().IsRank(r)
    ensures At(o, ReqT(r), Done) && r in o.heap
    decreases s.Tree().Unrotate(r)
  {
    assert RankOk(s, o, r);
    if r != s.par.root {
      QuietReaches(s, o, ParentOf(s, r));
      ParentLists(s.Tree(), r);
    }
  }

  lemma {:induction false} QuietUp(s: Setup, o: Op, r: int)
    requires s.Valid() && OpInv(s, o) && Quiet(o) && s.Tree().IsRank(r)
    ensures Up(o, r)
    decreases s.ranks - s.Tree().Unrotate(r)
  {
    QuietReaches(s, o, r);
    assert RankOk(s, o, r);
    forall j | 0 <= j < KidCount(s, r) ensures CountedAt(o, s.Tree().Children(r)[j]) {
      KidIsDeeper(s.Tree(), r, j);
      var c := s.Tree().Children(r)[j];
      QuietUp(s, o, c);
      assert RankOk(s, o, c);
    }
    AllCounted(s, o, r, KidCount(s, r));
  }

  lemma {:induction false} AllCounted(s: Setup, o: Op, r: int, m: nat)
    requires s.Valid() && s.Tree().IsRank(r) && m <= KidCount(s, r)
    requires forall j | 0 <= j < m :: CountedAt(o, s.Tree().Children(r)[j])
    ensures CountOf(o, s.Tree().Children(r), m) == m
  {
    if m > 0 { AllCounted(s, o, r, m - 1); }
  }

  /** Some thread of a reduction that is not quiet can move, or its root's handler waits
      for the mutex while the root's own loop is over. */
  lemma ThreadMoves(plan: Plan, w: World, id: nat, t: Tid) returns (a: Action)
    requires WorldInv(plan, w) && id < |w.ops| && w.ops[id].net == multiset{}
    requires t in w.ops[id].threads && w.ops[id].threads[t] != Done
    ensures CanAct(plan, w, a)
  {
    var s, o := plan.Of(id), w.ops[id];
    assert OpInvAt(plan, w, id);
    match t
    case ReqT(r) =>
      var l := ReqMoves(s, o, r);
      a := Action.Local(id, l);
    case RespT(c) =>
      assert TidOk(s, t);
      assert RankOk(s, o, c);
      if o.threads[t].RespondUp? {
        a := Action.Local(id, AckResponse(c));
      } else {
        SlotIsRight(plan, w, id, c);
        a := UseSlot(id, c);
      }
    case UpT(r) =>
      assert TidOk(s, t);
      assert RankOk(s, o, r);
      if o.threads[t].AwaitRespAck? || o.threads[t].Free? || o.threads[t].Unlock? {
        var l := UpMoves(s, o, r);
        a := Action.Local(id, l);
      } else {
        a := RootMoves(plan, w, id);
      }
  }

  /** The root's handler at the mutex or about to signal: it or the main thread can move. */
  lemma RootMoves(plan: Plan, w: World, id: nat) returns (a: Action)
    requires WorldInv(plan, w) && id < |w.ops| && w.ops[id].net == multiset{}
    requires At(w.ops[id], UpT(plan.root), Lock) || At(w.ops[id], UpT(plan.root), Signal)
    ensures CanAct(plan, w, a)
  {
    var s, o, root := plan.Of(id), w.ops[id], plan.root;
    assert OpInvAt(plan, w, id);
    assert RankOk(s, o, root);
    UnfinishedRootIsCurrent(plan, w, id);
    if At(o, UpT(root), Signal) {
      a := SignalMain(id);
    } else if w.main == Waiting {
      a := Action.Local(id, LockMutex(root));
    } else if o.threads[ReqT(root)] == Done {
      a := WaitCond;
    } else {
      var l := ReqMoves(s, o, root);
      a := Action.Local(id, l);
    }
  }

  /** With every reduction quiet the main thread can move, unless it is all over. */
  lemma MainMoves(plan: Plan, w: World) returns (a: Action)
    requires WorldInv(plan, w) && !AllOver(plan, w)
    requires forall id | 0 <= id < |w.ops| :: Quiet(w.ops[id])
    ensures CanAct(plan, w, a)
  {
    if w.main == Idle {
      a := Start;
    } else {
      var s, o := plan.Of(|w.ops| - 1), w.ops[|w.ops| - 1];
      assert OpInvAt(plan, w, |w.ops| - 1) && Quiet(o);
      QuietMeansUp(s, o);
      QuietReaches(s, o, plan.root);
      assert w.glb[plan.root] == |w.ops| - 1;
      a := match w.main
           case Forwarding => WaitCond
           case Woken => Relock
           case Holding => Read
           case _ => FreeRoot;
    }
  }

  /** No deadlock and no lost wakeup: until everything is over some action is possible. */
  lemma NeverBlocked(plan: Plan, acts: seq<Action>)
    requires plan.Valid() && CanRun(plan, BEGIN, acts)
    ensures var w := Run(plan, BEGIN, acts); !AllOver(plan, w) ==> exists a :: CanAct(plan, w, a)
  {
    var w := Run(plan, BEGIN, acts);
    BeginInv(plan);
    RunInv(plan, BEGIN, acts);
    if id: nat :| id < |w.ops| && !Quiet(w.ops[id]) {
      var o := w.ops[id];
      assert OpInvAt(plan, w, id);
      if m :| m in o.net {
        var l := MessageMoves(plan.Of(id), o, m);
        assert CanAct(plan, w, Action.Local(id, l));
      } else {
        var t :| t in o.threads && o.threads[t] != Done;
        var a := ThreadMoves(plan, w, id, t);
      }
    } else if !AllOver(plan, w) {
      var a := MainMoves(plan, w);
    }
  }

  /** When everything is over every reduction has delivered its result and every state
      that was ever allocated has been freed. */
  lemma NothingLeaks(plan: Plan, acts: seq<Action>)
    requires plan.Valid() && CanRun(plan, BEGIN, acts) && AllOver(plan, Run(plan, BEGIN, acts))
    ensures var w := Run(plan, BEGIN, acts);
            && |w.results| == |plan.modes|
            && forall id, r | 0 <= id < |w.ops| && r in w.ops[id].heap :: w.ops[id].heap[r].freed
  {
    var w := Run(plan, BEGIN, acts);
    BeginInv(plan);
    RunInv(plan, BEGIN, acts);
    forall id: nat, r | id < |w.ops| && r in w.ops[id].heap ensures w.ops[id].heap[r].freed {
      var s := plan.Of(id);
      IsRetired(plan, w, id);
      assert OpInvAt(plan, w, id);
      RootUpMeansAllUp(s, w.ops[id], r);
      assert RankOk(s, w.ops[id], r);
    }
  }

  /* ---------- one response each ---------- */

  /** r's result in reduction id is complete, which is when its response is sent. */
  predicate Passed(w: World, id: nat, r: int) {
    id < |w.ops| && Up(w.ops[id], r)
  }

  /** How many responses of r in reduction id an action posts. */
  function Posted(plan: Plan, w: World, a: Action, id: nat, r: int): int
    requires plan.Valid() && CanAct(plan, w, a) && id < |plan.modes| && plan.Of(id).IsChild(r)
  {
    var w', response := Act(plan, w, a), ResponseOf(plan.Of(id), r);
    if id < |w.ops| && id < |w'.ops| && w'.ops[id].net[response] > w.ops[id].net[response]
    then w'.ops[id].net[response] - w.ops[id].net[response] else 0
  }

  function PostedIn(plan: Plan, w: World, acts: seq<Action>, id: nat, r: int): int
    requires plan.Valid() && CanRun(plan, w, acts) && id < |plan.modes| && plan.Of(id).IsChild(r)
    decreases |acts|
  {
    if acts == [] then 0 else
      Posted(plan, w, acts[0], id, r) + PostedIn(plan, Act(plan, w, acts[0]), acts[1..], id, r)
  }

  lemma ActPosts(plan: Plan, w: World, a: Action, id: nat, r: int)
    requires WorldInv(plan, w) && CanAct(plan, w, a) && id < |plan.modes| && plan.Of(id).IsChild(r)
    ensures Posted(plan, w, a, id, r) == One(Passed(Act(plan, w, a), id, r)) - One(Passed(w, id, r))
  {
    if id < |w.ops| {
      PassedOnOnce(plan, w, a, id, r);
    } else {
      OpsOverAction(plan, w, a, id, r);
    }
  }

  /** A reduction that starts has no result anywhere but, perhaps, at the root. */
  lemma OpsOverAction(plan: Plan, w: World, a: Action, id: nat, r: int)
    requires WorldInv(plan, w) && CanAct(plan, w, a) && |w.ops| <= id < |plan.modes| && plan.Of(id).IsChild(r)
    ensures !Passed(Act(plan, w, a), id, r)
  {
    match a
    case Local(k, l) =>
    case UseSlot(k, c) =>
    case SignalMain(k) =>
    case Start =>
    case _ =>
  }

  lemma {:induction false} RunPosts(plan: Plan, w: World, acts: seq<Action>, id: nat, r: int)
    requires WorldInv(plan, w) && CanRun(plan, w, acts) && id < |plan.modes| && plan.Of(id).IsChild(r)
    ensures PostedIn(plan, w, acts, id, r) == One(Passed(Run(plan, w, acts), id, r)) - One(Passed(w, id, r))
    decreases |acts|
  {
    if acts != [] {
      ActInv(plan, w, acts[0]);
      ActPosts(plan, w, acts[0], id, r);
      RunPosts(plan, Act(plan, w, acts[0]), acts[1..], id, r);
    }
  }

  /** In every run each rank but the root sends at most one response per reduction, and
      exactly one when all is over. */
  lemma OneResponseEach(plan: Plan, acts: seq<Action>, id: nat, r: int)
    requires plan.Valid() && CanRun(plan, BEGIN, acts) && id < |plan.modes| && plan.Of(id).IsChild(r)
    ensures 0 <= PostedIn(plan, BEGIN, acts, id, r) <= 1
    ensures AllOver(plan, Run(plan, BEGIN, acts)) ==> PostedIn(plan, BEGIN, acts, id, r) == 1
  {
    var w := Run(plan, BEGIN, acts);
    BeginInv(plan);
    RunPosts(plan, BEGIN, acts, id, r);
    if AllOver(plan, w) {
      RunInv(plan, BEGIN, acts);
      assert OpInvAt(plan, w, id) && Quiet(w.ops[id]);
      QuietUp(plan.Of(id), w.ops[id], r);
    }
  }
}
