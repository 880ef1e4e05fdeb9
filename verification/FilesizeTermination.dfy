/** Every run of the reductions is finite: a budget that each action uses up. */
module FilesizeTermination {
  import opened Arith
  import opened KaryTree
  import opened SpanningTree
  import opened FilesizeProtocol
  import opened FilesizeInvariant
  import opened FilesizeWorld
  import opened FilesizeProgress

  function RankOf(t: Tid): int {
    match t
    case ReqT(r) => r
    case RespT(c) => c
    case UpT(r) => r
  }

  /** What a thread at pc may still do; sending a message counts 2, as the message will
      have to be taken. */
  function PcWeight(s: Setup, t: Tid, pc: Pc): nat
    requires s.Valid() && s.Tree().IsRank(RankOf(t))
  {
    var m := KidCount(s, RankOf(t));
    match pc
    case Respond(_) => 2 * m + 4
    case Alloc(_) => 2 * m + 2
    case Fwd(i) => if i < m then 2 * (m - i) + 1 else 1
    case AwaitReqAck(i) => if i < m then 2 * (m - i - 1) + 1 else 1
    case RespondUp(_, _) => 3
    case Update(_, _) => 1
    case Lock => 3
    case Signal => 2
    case Done => 0
    case _ => 1
  }

  /** A thread that has not started yet. */
  function AbsentWeight(s: Setup, t: Tid): nat
    requires s.Valid() && s.Tree().IsRank(RankOf(t))
  {
    match t
    case ReqT(r) => 2 * KidCount(s, r) + 4
    case RespT(_) => 3
    case UpT(_) => 4
  }

  function Weight(s: Setup, ts: map<Tid, Pc>, t: Tid): nat
    requires s.Valid() && s.Tree().IsRank(RankOf(t))
  {
    if t in ts then PcWeight(s, t, ts[t]) else AbsentWeight(s, t)
  }

  function RankWeight(s: Setup, ts: map<Tid, Pc>, r: int): nat
    requires s.Valid() && s.Tree().IsRank(r)
  {
    Weight(s, ts, ReqT(r)) + Weight(s, ts, RespT(r)) + Weight(s, ts, UpT(r))
  }

  /** The weights of ranks 0 .. n-1. */
  function RankWeights(s: Setup, ts: map<Tid, Pc>, n: nat): seq<int>
    requires s.Valid() && n <= s.ranks
  {
    seq(n, r requires 0 <= r < n => RankWeight(s, ts, r))
  }

  function Weights(s: Setup, ts: map<Tid, Pc>): nat
    requires s.Valid()
  {
    SumNonNegative(RankWeights(s, ts, s.ranks));
    Sum(RankWeights(s, ts, s.ranks))
  }

  function OpBudget(s: Setup, o: Op): nat
    requires s.Valid()
  {
    |o.net| + Weights(s, o.threads)
  }

  lemma GotoWeights(s: Setup, ts: map<Tid, Pc>, t: Tid, pc: Pc)
    requires s.Valid() && s.Tree().IsRank(RankOf(t))
    ensures Weights(s, ts[t := pc]) == Weights(s, ts) + PcWeight(s, t, pc) - Weight(s, ts, t)
  {
    var x, ts' := RankOf(t), ts[t := pc];
    forall r | 0 <= r < s.ranks
      ensures RankWeight(s, ts', r)
              == RankWeight(s, ts, r) + if x == r then PcWeight(s, t, pc) - Weight(s, ts, t) else 0
    {
      GotoRankWeight(s, ts, t, pc, r);
    }
    SumDiffers(RankWeights(s, ts, s.ranks), RankWeights(s, ts', s.ranks), x);
  }

  lemma GotoRankWeight(s: Setup, ts: map<Tid, Pc>, t: Tid, pc: Pc, r: int)
    requires s.Valid() && s.Tree().IsRank(r) && s.Tree().IsRank(RankOf(t))
    ensures RankWeight(s, ts[t := pc], r)
            == RankWeight(s, ts, r) + if RankOf(t) == r then PcWeight(s, t, pc) - Weight(s, ts, t) else 0
  {
  }

  /* ---------- one reduction ---------- */

  lemma PassOnBudget(s: Setup, o: Op, r: int)
    requires s.Valid() && s.Tree().IsRank(r) && ReadyToPassOn(s, o, r)
    ensures HasState(s.ranks, o, r) && OpBudget(s, ResponseForward(s.ranks, o, r)) <= OpBudget(s, o)
  {
    PassOnPosts(s, o, r);
    var pc := ResponseForward(s.ranks, o, r).threads[UpT(r)];
    GotoWeights(s, o.threads, UpT(r), pc);
  }

  lemma EndForwardBudget(s: Setup, o: Op, x: int)
    requires s.Valid() && OpInv(s, o) && CanDo(s.ranks, o, EndForward(x))
    ensures OpBudget(s, DoLocal(s.ranks, o, EndForward(x))) < OpBudget(s, o)
  {
    assert s.Tree().IsRank(x) && RankOk(s, o, x);
    var o1 := Goto(o, ReqT(x), Done);
    GotoWeights(s, o.threads, ReqT(x), Done);
    RootHasKids(s);
    assert SameCounted(o, o1);
    CountsFrame(s, o, o1, x);
    if KidCount(s, x) == 0 { PassOnBudget(s, o1, x); }
  }

  lemma SendBudget(s: Setup, o: Op, x: int)
    requires s.Valid() && OpInv(s, o) && CanDo(s.ranks, o, SendRequest(x))
    ensures OpBudget(s, DoLocal(s.ranks, o, SendRequest(x))) < OpBudget(s, o)
  {
    assert s.Tree().IsRank(x) && RankOk(s, o, x);
    GotoWeights(s, o.threads, ReqT(x), DoLocal(s.ranks, o, SendRequest(x)).threads[ReqT(x)]);
  }

  lemma TakeReqAckBudget(s: Setup, o: Op, x: int)
    requires s.Valid() && OpInv(s, o) && CanDo(s.ranks, o, TakeReqAck(x))
    ensures OpBudget(s, DoLocal(s.ranks, o, TakeReqAck(x))) < OpBudget(s, o)
  {
    assert s.Tree().IsRank(x) && RankOk(s, o, x);
    GotoWeights(s, o.threads, ReqT(x), DoLocal(s.ranks, o, TakeReqAck(x)).threads[ReqT(x)]);
  }

  /** One thread goes from where it is to pc, and the number of messages changes by d. */
  lemma OneThreadBudget(s: Setup, o: Op, o': Op, t: Tid, pc: Pc)
    requires s.Valid() && s.Tree().IsRank(RankOf(t)) && o'.threads == o.threads[t := pc]
    requires |o'.net| + PcWeight(s, t, pc) < |o.net| + Weight(s, o.threads, t)
    ensures OpBudget(s, o') < OpBudget(s, o)
  {
    GotoWeights(s, o.threads, t, pc);
  }

  lemma DeliverRequestBudget(s: Setup, o: Op, c: int, par: Params)
    requires s.Valid() && OpInv(s, o) && CanDo(s.ranks, o, DeliverRequest(c, par))
    ensures OpBudget(s, DoLocal(s.ranks, o, DeliverRequest(c, par))) < OpBudget(s, o)
  {
    RequestIsFresh(s, o, c, par);
    var o' := DoLocal(s.ranks, o, DeliverRequest(c, par));
    OneThreadBudget(s, o, o', ReqT(c), o'.threads[ReqT(c)]);
  }

  lemma DeliverResponseBudget(s: Setup, o: Op, c: int, size: int, err: int, reply: bool)
    requires s.Valid() && OpInv(s, o) && CanDo(s.ranks, o, DeliverResponse(c, size, err, reply))
    ensures OpBudget(s, DoLocal(s.ranks, o, DeliverResponse(c, size, err, reply))) < OpBudget(s, o)
  {
    ResponseIsFresh(s, o, c, size, err, reply);
    var o' := DoLocal(s.ranks, o, DeliverResponse(c, size, err, reply));
    OneThreadBudget(s, o, o', RespT(c), o'.threads[RespT(c)]);
  }

  lemma HandlerBudget(s: Setup, o: Op, a: Local)
    requires s.Valid() && CanDo(s.ranks, o, a) && (a.AckRequest? || a.Allocate?) && s.Tree().IsRank(a.c)
    ensures OpBudget(s, DoLocal(s.ranks, o, a)) < OpBudget(s, o)
  {
    var o' := DoLocal(s.ranks, o, a);
    OneThreadBudget(s, o, o', ReqT(a.c), o'.threads[ReqT(a.c)]);
  }

  lemma AckResponseBudget(s: Setup, o: Op, c: int)
    requires s.Valid() && CanDo(s.ranks, o, AckResponse(c)) && s.Tree().IsRank(c)
    ensures OpBudget(s, DoLocal(s.ranks, o, AckResponse(c))) < OpBudget(s, o)
  {
    var o' := DoLocal(s.ranks, o, AckResponse(c));
    OneThreadBudget(s, o, o', RespT(c), o'.threads[RespT(c)]);
  }

  lemma TakeRespAckBudget(s: Setup, o: Op, r: int)
    requires s.Valid() && CanDo(s.ranks, o, TakeRespAck(r)) && s.Tree().IsRank(r)
    ensures OpBudget(s, DoLocal(s.ranks, o, TakeRespAck(r))) < OpBudget(s, o)
  {
    OneThreadBudget(s, o, DoLocal(s.ranks, o, TakeRespAck(r)), UpT(r), Free);
  }

  lemma UpBudget(s: Setup, o: Op, a: Local)
    requires s.Valid() && CanDo(s.ranks, o, a) && (a.FreeState? || a.LockMutex? || a.UnlockMutex?)
    requires s.Tree().IsRank(a.r)
    ensures OpBudget(s, DoLocal(s.ranks, o, a)) < OpBudget(s, o)
  {
    var o' := DoLocal(s.ranks, o, a);
    OneThreadBudget(s, o, o', UpT(a.r), o'.threads[UpT(a.r)]);
  }

  lemma LocalBudget(s: Setup, o: Op, a: Local)
    requires s.Valid() && OpInv(s, o) && CanDo(s.ranks, o, a)
    ensures OpBudget(s, DoLocal(s.ranks, o, a)) < OpBudget(s, o)
  {
    match a
    case SendRequest(r) => SendBudget(s, o, r);
    case EndForward(r) => EndForwardBudget(s, o, r);
    case TakeReqAck(r) => TakeReqAckBudget(s, o, r);
    case DeliverRequest(c, par) => DeliverRequestBudget(s, o, c, par);
    case DeliverResponse(c, size, err, reply) => DeliverResponseBudget(s, o, c, size, err, reply);
    case AckRequest(c) => assert TidOk(s, ReqT(c)); HandlerBudget(s, o, a);
    case Allocate(c) => assert TidOk(s, ReqT(c)); HandlerBudget(s, o, a);
    case AckResponse(c) => assert TidOk(s, RespT(c)); AckResponseBudget(s, o, c);
    case TakeRespAck(r) => assert TidOk(s, UpT(r)); TakeRespAckBudget(s, o, r);
    case _ => assert TidOk(s, UpT(a.r)); UpBudget(s, o, a);
  }

  lemma CountBudget(s: Setup, o: Op, c: int)
    requires s.Valid() && OpInv(s, o) && s.IsChild(c) && RespT(c) in o.threads && o.threads[RespT(c)].Update?
    ensures HasState(s.ranks, o, ParentOf(s, c)) && OpBudget(s, CountOwn(s, o, c)) < OpBudget(s, o)
  {
    var p := ParentOf(s, c);
    assert RankOk(s, o, c) && RankOk(s, o, p);
    UncountedKid(s, o, c);
    CountedState(s, o, c);
    JustCountedBudget(s, o, c);
    var o2 := JustCounted(s, o, c);
    if o2.heap[p].num == KidCount(s, p) {
      PassOnBudget(s, o2, p);
    } else {
      NotYetAll(s, o2, p);
    }
  }

  lemma JustCountedBudget(s: Setup, o: Op, c: int)
    requires s.Valid() && s.IsChild(c) && RespT(c) in o.threads && o.threads[RespT(c)].Update?
    requires HasState(s.ranks, o, ParentOf(s, c))
    ensures OpBudget(s, JustCounted(s, o, c)) < OpBudget(s, o)
  {
    GotoWeights(s, o.threads, RespT(c), Done);
  }

  /* ---------- the budget of a new reduction ---------- */

  /** The weights of n ranks that have not started: 11 for each, 2 for each child. */
  lemma {:induction false} StartWeights(s: Setup, n: nat)
    requires s.Valid() && n <= s.ranks
    ensures Sum(RankWeights(s, map[], n)) == 11 * n + 2 * |Listed(s.Tree(), n)|
  {
    if n > 0 {
      StartWeights(s, n - 1);
      StartRankWeight(s, n - 1);
      SumOneMore(RankWeights(s, map[], n - 1), RankWeight(s, map[], n - 1));
      assert RankWeights(s, map[], n) == RankWeights(s, map[], n - 1) + [RankWeight(s, map[], n - 1)];
    }
  }

  lemma StartRankWeight(s: Setup, r: nat)
    requires s.Valid() && r < s.ranks
    ensures RankWeight(s, map[], r) == 11 + 2 * (|Listed(s.Tree(), r + 1)| - |Listed(s.Tree(), r)|)
  {
  }

  /** Over all ranks there are ranks - 1 children. */
  lemma AllChildren(t: Topology)
    requires t.Valid()
    ensures |Listed(t, t.ranks)| == t.ranks - 1
  {
    ChildListsPartition(t);
    var others := Others(t, t.ranks);
    assert multiset(others) == Listed(t, t.ranks);
    assert |multiset(others)| == |others|;
  }

  /** The ranks below n but the root. */
  function Others(t: Topology, n: nat): (ranks: set<int>)
    requires t.Valid()
    ensures forall r :: r in ranks <==> 0 <= r < n && r != t.root
    ensures |ranks| == n - One(t.root < n)
  {
    if n == 0 then {} else if n - 1 == t.root then Others(t, n - 1) else Others(t, n - 1) + {n - 1}
  }

  /** What one reduction may cost, the main thread's part included. */
  function PerReduction(ranks: int): nat
    requires ranks >= 1
  {
    13 * ranks + 4
  }

  lemma NewOpBudget(s: Setup)
    requires s.Valid()
    ensures OpBudget(s, NewOp(s)) + MainWeight(Forwarding) + 1 <= PerReduction(s.ranks)
  {
    StartWeights(s, s.ranks);
    AllChildren(s.Tree());
    GotoWeights(s, map[], ReqT(s.par.root), Fwd(0));
    assert map[][ReqT(s.par.root) := Fwd(0)] == NewOp(s).threads;
  }

  /* ---------- all reductions ---------- */

  function OpBudgets(plan: Plan, ops: seq<Op>): seq<int>
    requires plan.Valid() && |ops| <= |plan.modes|
  {
    seq(|ops|, id requires 0 <= id < |ops| => OpBudget(plan.Of(id), ops[id]))
  }

  function MainWeight(main: Main): nat {
    match main
    case Idle => 0
    case Forwarding => 5
    case Waiting => 4
    case Woken => 3
    case Holding => 2
    case Freeing => 1
  }

  /** What the reductions started so far and the main thread may still do. */
  function Budget(plan: Plan, w: World): nat
    requires plan.Valid() && |w.ops| <= |plan.modes|
  {
    SumNonNegative(OpBudgets(plan, w.ops));
    Sum(OpBudgets(plan, w.ops)) + MainWeight(w.main)
  }

  lemma OneOpBudget(plan: Plan, w: World, w': World, id: nat)
    requires plan.Valid() && id < |w.ops| == |w'.ops| <= |plan.modes| && w'.ops == w.ops[id := w'.ops[id]]
    requires OpBudget(plan.Of(id), w'.ops[id]) + MainWeight(w'.main)
             < OpBudget(plan.Of(id), w.ops[id]) + MainWeight(w.main)
    ensures Budget(plan, w') < Budget(plan, w)
  {
    SumDiffers(OpBudgets(plan, w.ops), OpBudgets(plan, w'.ops), id);
  }

  /** Every action but the start of a reduction uses up budget. */
  lemma ActBudget(plan: Plan, w: World, a: Action)
    requires WorldInv(plan, w) && CanAct(plan, w, a) && !a.Start?
    ensures |Act(plan, w, a).ops| == |w.ops| && Budget(plan, Act(plan, w, a)) < Budget(plan, w)
  {
    match a
    case Local(id, l) =>
      assert OpInvAt(plan, w, id);
      LocalBudget(plan.Of(id), w.ops[id], l);
      OneOpBudget(plan, w, Act(plan, w, a), id);
    case UseSlot(id, c) => UseSlotBudget(plan, w, id, c);
    case SignalMain(id) => SignalBudget(plan, w, id);
    case _ => MainBudget(plan, w, a);
  }

  lemma UseSlotBudget(plan: Plan, w: World, id: nat, c: int)
    requires WorldInv(plan, w) && CanAct(plan, w, UseSlot(id, c))
    ensures |Act(plan, w, UseSlot(id, c)).ops| == |w.ops|
    ensures Budget(plan, Act(plan, w, UseSlot(id, c))) < Budget(plan, w)
  {
    var s := plan.Of(id);
    UseSlotIsCountOwn(plan, w, id, c);
    assert OpInvAt(plan, w, id);
    CountBudget(s, w.ops[id], c);
    OneOpBudget(plan, w, w.(ops := w.ops[id := CountOwn(s, w.ops[id], c)]), id);
  }

  lemma SignalBudget(plan: Plan, w: World, id: nat)
    requires WorldInv(plan, w) && CanAct(plan, w, SignalMain(id))
    ensures |Act(plan, w, SignalMain(id)).ops| == |w.ops|
    ensures Budget(plan, Act(plan, w, SignalMain(id))) < Budget(plan, w)
  {
    SignalInv(plan, w, id);
    var w' := Act(plan, w, SignalMain(id));
    OneThreadBudget(plan.Of(id), w.ops[id], w'.ops[id], UpT(plan.root), Unlock);
    OneOpBudget(plan, w, w', id);
  }

  lemma MainBudget(plan: Plan, w: World, a: Action)
    requires WorldInv(plan, w) && CanAct(plan, w, a) && (a.WaitCond? || a.Relock? || a.Read? || a.FreeRoot?)
    ensures |Act(plan, w, a).ops| == |w.ops| && Budget(plan, Act(plan, w, a)) < Budget(plan, w)
  {
    var id, w' := w.glb[plan.root], Act(plan, w, a);
    SameThreadsBudget(plan, w, a);
    if w'.ops == w.ops {
      assert w'.ops == w.ops[id := w'.ops[id]];
    }
    OneOpBudget(plan, w, w', id);
  }

  lemma SameThreadsBudget(plan: Plan, w: World, a: Action)
    requires plan.Valid() && CanAct(plan, w, a) && (a.WaitCond? || a.Relock? || a.Read? || a.FreeRoot?)
    requires |w.ops| <= |plan.modes|
    ensures var id := w.glb[plan.root];
            && |Act(plan, w, a).ops| == |w.ops|
            && OpBudget(plan.Of(id), Act(plan, w, a).ops[id]) == OpBudget(plan.Of(id), w.ops[id])
  {
  }

  /** A new reduction brings in at most PerReduction, less the action itself. */
  lemma StartBudget(plan: Plan, w: World)
    requires plan.Valid() && CanAct(plan, w, Start)
    ensures |Act(plan, w, Start).ops| == |w.ops| + 1 <= |plan.modes|
    ensures Budget(plan, Act(plan, w, Start)) + 1 <= Budget(plan, w) + PerReduction(plan.ranks)
  {
    var s, ops := plan.Of(|w.ops|), w.ops;
    NewOpBudget(s);
    SumOneMore(OpBudgets(plan, ops), OpBudget(s, NewOp(s)));
    assert OpBudgets(plan, ops + [NewOp(s)]) == OpBudgets(plan, ops) + [OpBudget(s, NewOp(s))];
  }

  /** The budget together with the cost of the reductions not started yet. */
  function Remaining(plan: Plan, w: World): int
    requires plan.Valid() && |w.ops| <= |plan.modes|
  {
    Budget(plan, w) + (|plan.modes| - |w.ops|) * PerReduction(plan.ranks)
  }

  lemma StepBudget(plan: Plan, w: World, a: Action)
    requires WorldInv(plan, w) && CanAct(plan, w, a)
    ensures |Act(plan, w, a).ops| <= |plan.modes| && Remaining(plan, Act(plan, w, a)) < Remaining(plan, w)
  {
    if a.Start? {
      StartBudget(plan, w);
    } else {
      ActBudget(plan, w, a);
    }
    LessRemains(plan, w, Act(plan, w, a));
  }

  lemma LessRemains(plan: Plan, w: World, w': World)
    requires plan.Valid() && |w.ops| <= |w'.ops| <= |plan.modes| && |w'.ops| <= |w.ops| + 1
    requires if |w'.ops| == |w.ops| then Budget(plan, w') < Budget(plan, w)
             else Budget(plan, w') < Budget(plan, w) + PerReduction(plan.ranks)
    ensures Remaining(plan, w') < Remaining(plan, w)
  {
    if |w'.ops| > |w.ops| { OneMoreTime(|plan.modes| - |w'.ops|, PerReduction(plan.ranks)); }
  }

  lemma {:induction false} RunBudget(plan: Plan, w: World, acts: seq<Action>)
    requires WorldInv(plan, w) && CanRun(plan, w, acts)
    ensures |acts| <= Remaining(plan, w)
    decreases |acts|
  {
    if acts == [] {
      if |w.ops| < |plan.modes| { MulAtLeast(|plan.modes| - |w.ops|, PerReduction(plan.ranks)); }
    } else {
      ActInv(plan, w, acts[0]);
      StepBudget(plan, w, acts[0]);
      RunBudget(plan, Act(plan, w, acts[0]), acts[1..]);
    }
  }

  lemma AtMost(plan: Plan, acts: seq<Action>)
    requires plan.Valid() && CanRun(plan, BEGIN, acts)
    ensures |acts| <= |plan.modes| * (13 * plan.ranks + 4)
  {
    BeginInv(plan);
    RunBudget(plan, BEGIN, acts);
  }

  /** Every run is finite, with at most 13n + 4 actions for each reduction on n ranks, and
      one that cannot go on has delivered all results. */
  lemma EveryRunEnds(plan: Plan, acts: seq<Action>)
    requires plan.Valid() && CanRun(plan, BEGIN, acts)
    ensures |acts| <= |plan.modes| * (13 * plan.ranks + 4)
    ensures (forall a :: !CanAct(plan, Run(plan, BEGIN, acts), a)) ==>
              AllOver(plan, Run(plan, BEGIN, acts)) && |Run(plan, BEGIN, acts).results| == |plan.modes|
  {
    AtMost(plan, acts);
    NeverBlocked(plan, acts);
    if AllOver(plan, Run(plan, BEGIN, acts)) { NothingLeaks(plan, acts); }
  }
}
