/** All reductions of a run together: the one state slot per rank, the root's mutex and
    condition variable, and the lifetimes of the states. */
module FilesizeWorld {
  import opened KaryTree
  import opened FilesizeProtocol
  import opened FilesizeInvariant

  /* ---------- a reduction whose root has its result is over everywhere ---------- */

  lemma {:induction false} EachCounted(o: Op, kids: seq<int>, m: nat, j: nat)
    requires j < m <= |kids| && CountOf(o, kids, m) == m
    ensures CountedAt(o, kids[j])
  {
    CountAtMost(o, kids, m - 1);
    if j < m - 1 { EachCounted(o, kids, m - 1, j); }
  }

  /** If r's result is complete, so are the results of all its children, and counted. */
  lemma UpMeansKidsUp(s: Setup, o: Op, c: int)
    requires s.Valid() && s.IsChild(c) && RankOk(s, o, c) && RankOk(s, o, ParentOf(s, c)) && Up(o, ParentOf(s, c))
    ensures CountedAt(o, c) && Up(o, c)
  {
    var p := ParentOf(s, c);
    ParentLists(s.Tree(), c);
    EachCounted(o, s.Tree().Children(p), KidCount(s, p), s.Tree().Slot(c));
  }

  lemma {:induction false} RootUpMeansAllUp(s: Setup, o: Op, r: int)
    requires s.Valid() && OpInv(s, o) && Up(o, s.par.root) && s.Tree().IsRank(r)
    ensures Up(o, r) && (r != s.par.root ==> CountedAt(o, r))
    decreases s.Tree().Unrotate(r)
  {
    if r != s.par.root {
      var p := ParentOf(s, r);
      RootUpMeansAllUp(s, o, p);
      assert RankOk(s, o, r) && RankOk(s, o, p);
      UpMeansKidsUp(s, o, r);
    }
  }

  /* ---------- the invariant of the whole run ---------- */

  /** A reduction that the main thread is done with. */
  ghost predicate Retired(s: Setup, o: Op) {
    At(o, UpT(s.par.root), Done) && s.par.root in o.heap && o.heap[s.par.root].freed
  }

  /** Mutex, waking thread and main thread of the current reduction fit together. */
  ghost predicate MainOk(s: Setup, o: Op, main: Main) {
    var root := s.par.root;
    && root in o.heap && !o.heap[root].freed
    && var mutex, many := o.heap[root].mutex, s.ranks > 1;
    match main
    case Idle => false
    case Forwarding => many ==> mutex == ByMain && (Up(o, root) ==> At(o, UpT(root), Lock))
    case Waiting =>
      && many && At(o, ReqT(root), Done)
      && (if Up(o, root)
          then (At(o, UpT(root), Lock) && mutex == Unlocked) || (At(o, UpT(root), Signal) && mutex == ByHandler)
          else mutex == Unlocked)
    case Woken =>
      && many && At(o, ReqT(root), Done)
      && ((At(o, UpT(root), Unlock) && mutex == ByHandler) || (At(o, UpT(root), Done) && mutex == Unlocked))
    case Holding => At(o, ReqT(root), Done) && At(o, UpT(root), Done) && (many ==> mutex == ByMain)
    case Freeing => At(o, ReqT(root), Done) && At(o, UpT(root), Done) && (many ==> mutex == Unlocked)
  }

  /** glb_st points to the current reduction at every rank that has a state of it. */
  predicate SlotsOk(w: World, cur: int)
    requires 0 <= cur < |w.ops|
  {
    forall r | r in w.ops[cur].heap :: r in w.glb && w.glb[r] == cur
  }

  function OverCount(w: World): int {
    if w.main == Idle then |w.ops| else |w.ops| - 1
  }

  ghost predicate WorldInv(plan: Plan, w: World) {
    && plan.Valid() && |w.ops| <= |plan.modes|
    && OpsOk(plan, w)
    && OldOpsOk(plan, w, OverCount(w))
    && (w.main != Idle ==>
          |w.ops| > 0 && SlotsOk(w, |w.ops| - 1) && MainOk(plan.Of(|w.ops| - 1), w.ops[|w.ops| - 1], w.main))
    && (w.main == Idle ==> plan.root !in w.glb)
    && ResultsOk(plan, w, w.results)
  }

  ghost predicate OpsOk(plan: Plan, w: World)
    requires plan.Valid() && |w.ops| <= |plan.modes|
  {
    forall id {:trigger OpInvAt(plan, w, id)} | 0 <= id < |w.ops| :: OpInvAt(plan, w, id)
  }

  /** The main thread is done with the first n reductions. */
  ghost predicate OldOpsOk(plan: Plan, w: World, n: int)
    requires plan.Valid() && n <= |w.ops| <= |plan.modes|
  {
    forall id {:trigger RetiredAt(plan, w, id)} | 0 <= id < n :: RetiredAt(plan, w, id)
  }

  ghost predicate OpInvAt(plan: Plan, w: World, id: int)
    requires plan.Valid() && 0 <= id < |w.ops| <= |plan.modes|
  {
    OpInv(plan.Of(id), w.ops[id])
  }

  ghost predicate RetiredAt(plan: Plan, w: World, id: int)
    requires plan.Valid() && 0 <= id < |w.ops| <= |plan.modes|
  {
    Retired(plan.Of(id), w.ops[id])
  }

  /** The main thread has read one result of each reduction it is done with, or about to
      free, and each is the value that reduction gathers at the root. */
  ghost predicate ResultsOk(plan: Plan, w: World, results: seq<int>)
    requires plan.Valid() && |w.ops| <= |plan.modes|
  {
    && |results| == OverCount(w) + (if w.main == Freeing then 1 else 0)
    && |results| <= |plan.modes|
    && forall i | 0 <= i < |results| :: results[i] == MaxBelow(plan.Of(i), plan.root)
  }

  lemma BeginInv(plan: Plan)
    requires plan.Valid()
    ensures WorldInv(plan, BEGIN)
  {
  }

  /** Where some rank's result is not complete, the reduction is the current one. */
  lemma IncompleteIsCurrent(plan: Plan, w: World, id: nat, r: int)
    requires WorldInv(plan, w) && id < |w.ops| && plan.Of(id).Tree().IsRank(r) && !Up(w.ops[id], r)
    ensures w.main != Idle && id == |w.ops| - 1
  {
    assert OpInvAt(plan, w, id);
    if id < OverCount(w) {
      assert RetiredAt(plan, w, id);
      RootUpMeansAllUp(plan.Of(id), w.ops[id], r);
    }
  }

  /** Likewise where the root's waking thread is still at work. */
  lemma UnfinishedRootIsCurrent(plan: Plan, w: World, id: nat)
    requires WorldInv(plan, w) && id < |w.ops| && !At(w.ops[id], UpT(plan.root), Done)
    ensures w.main != Idle && id == |w.ops| - 1
  {
    if id < OverCount(w) { IsRetired(plan, w, id); }
  }

  lemma IsRetired(plan: Plan, w: World, id: nat)
    requires WorldInv(plan, w) && id < OverCount(w)
    ensures RetiredAt(plan, w, id)
  {
  }

  /** The slot lemma: a response about to be counted finds, through glb_st, the live state
      of its own reduction. */
  lemma SlotIsRight(plan: Plan, w: World, id: nat, c: int)
    requires WorldInv(plan, w) && id < |w.ops| && plan.Of(id).IsChild(c)
    requires RespT(c) in w.ops[id].threads && !CountedAt(w.ops[id], c)
    ensures var p := ParentOf(plan.Of(id), c);
            && w.main != Idle && id == |w.ops| - 1
            && p in w.glb && w.glb[p] == id
            && HasState(plan.ranks, w.ops[id], p) && !w.ops[id].heap[p].freed && !Up(w.ops[id], p)
  {
    var s, o := plan.Of(id), w.ops[id];
    var p := ParentOf(s, c);
    assert OpInvAt(plan, w, id);
    assert RankOk(s, o, c) && RankOk(s, o, p);
    UncountedKid(s, o, c);
    IncompleteIsCurrent(plan, w, id, p);
  }

  /* ---------- steps ---------- */

  lemma NewOpInv(s: Setup)
    requires s.Valid()
    ensures OpInv(s, NewOp(s))
  {
    var o := NewOp(s);
    RootHasKids(s);
    forall r | s.Tree().IsRank(r) ensures RankOk(s, o, r) {
      ZeroCounted(s, o, r, KidCount(s, r));
      if r != s.par.root {
        ParentLists(s.Tree(), r);
      }
    }
  }

  /** What an action of one reduction can do to the root's threads and state. */
  ghost predicate RootChange(s: Setup, o: Op, o': Op, a: Local) {
    var root := s.par.root;
    && root in o.heap && root in o'.heap
    && match a
       case LockMutex(_) =>
         && At(o, UpT(root), Lock) && At(o', UpT(root), Signal) && SameThread(o, o', ReqT(root))
         && o.heap[root].mutex == Unlocked && o'.heap[root] == o.heap[root].(mutex := ByHandler)
       case UnlockMutex(_) =>
         && At(o, UpT(root), Unlock) && At(o', UpT(root), Done) && SameThread(o, o', ReqT(root))
         && o'.heap[root] == o.heap[root].(mutex := Unlocked)
       case _ =>
         && o'.heap[root].mutex == o.heap[root].mutex && o'.heap[root].freed == o.heap[root].freed
         && (At(o, ReqT(root), Done) ==> At(o', ReqT(root), Done))
         && (SameThread(o, o', UpT(root)) || (s.ranks == 1 && At(o', UpT(root), Done)))
  }

  lemma LocalAtRoot(s: Setup, o: Op, a: Local)
    requires s.Valid() && OpInv(s, o) && CanDo(s.ranks, o, a)
    ensures RootChange(s, o, DoLocal(s.ranks, o, a), a)
  {
    assert RankOk(s, o, s.par.root);
    match a
    case EndForward(r) => EndForwardAtRoot(s, o, r);
    case DeliverRequest(c, par) => DeliverAtRoot(s, o, c, par);
    case LockMutex(r) => MutexAtRoot(s, o, a, r);
    case UnlockMutex(r) => MutexAtRoot(s, o, a, r);
    case SendRequest(r) => ForwardAtRoot(s, o, a);
    case TakeReqAck(r) => ForwardAtRoot(s, o, a);
    case AckRequest(r) => HandlerAtRoot(s, o, a);
    case Allocate(r) => HandlerAtRoot(s, o, a);
    case DeliverResponse(_, _, _, _) => ResponseAtRoot(s, o, a);
    case AckResponse(r) => ResponseAtRoot(s, o, a);
    case TakeRespAck(r) => UpAtRoot(s, o, a);
    case FreeState(r) => UpAtRoot(s, o, a);
  }

  lemma DeliverAtRoot(s: Setup, o: Op, c: int, par: Params)
    requires s.Valid() && OpInv(s, o) && CanDo(s.ranks, o, DeliverRequest(c, par)) && s.par.root in o.heap
    ensures RootChange(s, o, DoLocal(s.ranks, o, DeliverRequest(c, par)), DeliverRequest(c, par))
  {
    RequestIsFresh(s, o, c, par);
  }

  lemma MutexAtRoot(s: Setup, o: Op, a: Local, r: int)
    requires s.Valid() && OpInv(s, o) && CanDo(s.ranks, o, a) && s.par.root in o.heap
    requires a == LockMutex(r) || a == UnlockMutex(r)
    ensures RootChange(s, o, DoLocal(s.ranks, o, a), a)
  {
    assert TidOk(s, UpT(r));
    assert RankOk(s, o, r);
  }

  lemma ForwardAtRoot(s: Setup, o: Op, a: Local)
    requires s.Valid() && CanDo(s.ranks, o, a) && (a.SendRequest? || a.TakeReqAck?)
    requires OwnOk(s, o, s.par.root) && ReqT(s.par.root) in o.threads
    ensures RootChange(s, o, DoLocal(s.ranks, o, a), a)
  {
  }

  lemma HandlerAtRoot(s: Setup, o: Op, a: Local)
    requires s.Valid() && CanDo(s.ranks, o, a) && (a.AckRequest? || a.Allocate?)
    requires OwnOk(s, o, s.par.root) && ReqT(s.par.root) in o.threads
    ensures RootChange(s, o, DoLocal(s.ranks, o, a), a)
  {
  }

  lemma ResponseAtRoot(s: Setup, o: Op, a: Local)
    requires s.Valid() && CanDo(s.ranks, o, a) && (a.DeliverResponse? || a.AckResponse?)
    requires OwnOk(s, o, s.par.root) && ReqT(s.par.root) in o.threads
    ensures RootChange(s, o, DoLocal(s.ranks, o, a), a)
  {
  }

  lemma UpAtRoot(s: Setup, o: Op, a: Local)
    requires s.Valid() && CanDo(s.ranks, o, a) && (a.TakeRespAck? || a.FreeState?)
    requires OwnOk(s, o, s.par.root) && ReqT(s.par.root) in o.threads
    ensures RootChange(s, o, DoLocal(s.ranks, o, a), a)
  {
  }

  lemma EndForwardAtRoot(s: Setup, o: Op, r: int)
    requires s.Valid() && OpInv(s, o) && CanDo(s.ranks, o, EndForward(r))
    ensures RootChange(s, o, DoLocal(s.ranks, o, EndForward(r)), EndForward(r))
  {
    assert s.Tree().IsRank(r) && RankOk(s, o, r) && RankOk(s, o, s.par.root);
    RootHasKids(s);
  }

  /** A rank gets a state of a reduction by allocating it, and keeps it (freed or not). */
  lemma LocalHeap(s: Setup, o: Op, a: Local, r: int)
    requires CanDo(s.ranks, o, a)
    ensures r in DoLocal(s.ranks, o, a).heap <==> r in o.heap || a == Allocate(r)
  {
    match a
    case SendRequest(_) => HeapStays(s, o, a);
    case DeliverRequest(_, _) => HeapStays(s, o, a);
    case AckRequest(_) => HeapStays(s, o, a);
    case TakeReqAck(_) => HeapStays(s, o, a);
    case DeliverResponse(_, _, _, _) => HeapStays(s, o, a);
    case AckResponse(_) => HeapStays(s, o, a);
    case TakeRespAck(_) => HeapStays(s, o, a);
    case EndForward(x) =>
    case Allocate(c) =>
    case FreeState(x) =>
    case LockMutex(x) =>
    case UnlockMutex(x) =>
  }

  /** Sending, delivering and replying leaves the states alone. */
  lemma HeapStays(s: Setup, o: Op, a: Local)
    requires CanDo(s.ranks, o, a)
    requires a.SendRequest? || a.DeliverRequest? || a.AckRequest? || a.TakeReqAck? || a.DeliverResponse?
             || a.AckResponse? || a.TakeRespAck?
    ensures DoLocal(s.ranks, o, a).heap == o.heap
  {
  }

  lemma MainAfterLocal(s: Setup, o: Op, o': Op, a: Local, main: Main)
    requires s.Valid() && MainOk(s, o, main) && RootChange(s, o, o', a)
    ensures MainOk(s, o', main)
  {
  }

  lemma LocalInv(plan: Plan, w: World, id: nat, a: Local)
    requires WorldInv(plan, w) && CanAct(plan, w, Action.Local(id, a))
    ensures WorldInv(plan, Act(plan, w, Action.Local(id, a)))
  {
    var w', s, o := Act(plan, w, Action.Local(id, a)), plan.Of(id), w.ops[id];
    var o' := w'.ops[id];
    assert OpInvAt(plan, w, id);
    LocalInOp(s, o, a);
    LocalSlots(plan, w, id, a);
    if id < OverCount(w) {
      assert RetiredAt(plan, w, id);
      RetiredStays(s, o, o', a);
    } else {
      MainAfterLocal(s, o, o', a, w.main);
    }
    OpChanges(plan, w, w', id);
  }

  /** One reduction changes, the main thread does not act. */
  lemma OpChanges(plan: Plan, w: World, w': World, id: nat)
    requires WorldInv(plan, w) && id < |w.ops| == |w'.ops| && w'.ops == w.ops[id := w'.ops[id]]
    requires w'.main == w.main && w'.results == w.results
    requires OpInvAt(plan, w', id)
    requires if id < OverCount(w) then RetiredAt(plan, w', id) else MainOk(plan.Of(id), w'.ops[id], w.main)
    requires if w.main == Idle then plan.root !in w'.glb else SlotsOk(w', |w.ops| - 1)
    ensures WorldInv(plan, w')
  {
    OthersOk(plan, w, w', id, OverCount(w));
  }

  /** Reductions other than number id stay as they are. */
  lemma OthersOk(plan: Plan, w: World, w': World, id: nat, n: int)
    requires plan.Valid() && id < |w.ops| == |w'.ops| <= |plan.modes| && w'.ops == w.ops[id := w'.ops[id]]
    requires OpsOk(plan, w) && OpInvAt(plan, w', id)
    requires n <= |w.ops| && OldOpsOk(plan, w, n) && (id < n ==> RetiredAt(plan, w', id))
    ensures OpsOk(plan, w') && OldOpsOk(plan, w', n)
  {
    forall k | 0 <= k < |w'.ops| ensures OpInvAt(plan, w', k) {
      if k != id { assert OpInvAt(plan, w, k); }
    }
    forall k | 0 <= k < n ensures RetiredAt(plan, w', k) {
      if k != id { assert RetiredAt(plan, w, k); }
    }
  }

  lemma LocalInOp(s: Setup, o: Op, a: Local)
    requires s.Valid() && OpInv(s, o) && CanDo(s.ranks, o, a)
    ensures OpInv(s, DoLocal(s.ranks, o, a)) && RootChange(s, o, DoLocal(s.ranks, o, a), a)
  {
    LocalKeeps(s, o, a);
    LocalAtRoot(s, o, a);
  }

  lemma RetiredStays(s: Setup, o: Op, o': Op, a: Local)
    requires s.Valid() && Retired(s, o) && RootChange(s, o, o', a)
    ensures Retired(s, o')
  {
  }

  /** An allocation happens in the current reduction only, so the slots stay right. */
  lemma LocalSlots(plan: Plan, w: World, id: nat, a: Local)
    requires WorldInv(plan, w) && CanAct(plan, w, Action.Local(id, a))
    ensures var w' := Act(plan, w, Action.Local(id, a));
            && (w.main != Idle ==> SlotsOk(w', |w.ops| - 1))
            && (w.main == Idle ==> plan.root !in w'.glb)
  {
    var s, o := plan.Of(id), w.ops[id];
    forall r ensures r in DoLocal(plan.ranks, o, a).heap <==> r in o.heap || a == Allocate(r) {
      LocalHeap(s, o, a, r);
    }
    if a.Allocate? {
      assert OpInvAt(plan, w, id);
      assert TidOk(s, ReqT(a.c)) && RankOk(s, o, a.c);
      IncompleteIsCurrent(plan, w, id, a.c);
    }
  }

  lemma UseSlotIsCountOwn(plan: Plan, w: World, id: nat, c: int)
    requires WorldInv(plan, w) && CanAct(plan, w, UseSlot(id, c))
    ensures w.main != Idle && id == |w.ops| - 1 && HasState(plan.ranks, w.ops[id], ParentOf(plan.Of(id), c))
    ensures Act(plan, w, UseSlot(id, c)) == w.(ops := w.ops[id := CountOwn(plan.Of(id), w.ops[id], c)])
  {
    SlotIsRight(plan, w, id, c);
  }

  lemma CountAtRoot(s: Setup, o: Op, c: int)
    requires s.Valid() && s.IsChild(c) && RespT(c) in o.threads && o.threads[RespT(c)].Update?
    requires RankOk(s, o, c) && RankOk(s, o, ParentOf(s, c)) && s.par.root in o.heap
    ensures HasState(s.ranks, o, ParentOf(s, c))
    ensures var o', root := CountOwn(s, o, c), s.par.root;
            && o'.heap.Keys == o.heap.Keys && SameThread(o, o', ReqT(root))
            && o'.heap[root].mutex == o.heap[root].mutex && o'.heap[root].freed == o.heap[root].freed
            && (SameThread(o, o', UpT(root)) || (!Up(o, root) && At(o', UpT(root), Lock) && s.ranks > 1))
  {
    var p := ParentOf(s, c);
    UncountedKid(s, o, c);
    CountedState(s, o, c);
    ManyRanks(s, c);
    var o2 := JustCounted(s, o, c);
    if o2.heap[p].num == KidCount(s, p) {
      PassOnAtRoot(s, o2, p);
    } else {
      NotYetAll(s, o2, p);
    }
  }

  lemma PassOnAtRoot(s: Setup, o: Op, p: int)
    requires s.Valid() && s.Tree().IsRank(p) && ReadyToPassOn(s, o, p) && s.par.root in o.heap && s.ranks > 1
    ensures HasState(s.ranks, o, p)
    ensures var o', root := ResponseForward(s.ranks, o, p), s.par.root;
            && o'.heap.Keys == o.heap.Keys && SameThread(o, o', ReqT(root))
            && o'.heap[root].mutex == o.heap[root].mutex && o'.heap[root].freed == o.heap[root].freed
            && (SameThread(o, o', UpT(root)) || (p == root && At(o', UpT(root), Lock)))
  {
    PassOnPosts(s, o, p);
  }

  lemma ManyRanks(s: Setup, c: int)
    requires s.Valid() && s.IsChild(c)
    ensures s.ranks > 1
  {
  }

  lemma NotYetAll(s: Setup, o: Op, p: int)
    requires s.Valid() && HasState(s.ranks, o, p) && o.heap[p].num != |Kids(s.ranks, o, p)|
    ensures ResponseForward(s.ranks, o, p) == o
  {
  }

  lemma UseSlotInv(plan: Plan, w: World, id: nat, c: int)
    requires WorldInv(plan, w) && CanAct(plan, w, UseSlot(id, c))
    ensures WorldInv(plan, Act(plan, w, UseSlot(id, c)))
  {
    var s := plan.Of(id);
    UseSlotIsCountOwn(plan, w, id, c);
    assert OpInvAt(plan, w, id);
    CountInCurrent(s, w.ops[id], c, w.main);
    CurrentChanges(plan, w, w.(ops := w.ops[id := CountOwn(s, w.ops[id], c)]));
  }

  lemma CountInCurrent(s: Setup, o: Op, c: int, main: Main)
    requires s.Valid() && OpInv(s, o) && MainOk(s, o, main)
    requires s.IsChild(c) && RespT(c) in o.threads && o.threads[RespT(c)].Update?
    ensures HasState(s.ranks, o, ParentOf(s, c))
    ensures var o' := CountOwn(s, o, c); OpInv(s, o') && MainOk(s, o', main) && o'.heap.Keys == o.heap.Keys
  {
    CountKeeps(s, o, c);
    assert RankOk(s, o, c) && RankOk(s, o, ParentOf(s, c));
    CountAtRoot(s, o, c);
    MainAfterCount(s, o, CountOwn(s, o, c), main);
  }

  lemma MainAfterCount(s: Setup, o: Op, o': Op, main: Main)
    requires s.Valid() && MainOk(s, o, main) && s.par.root in o'.heap
    requires SameThread(o, o', ReqT(s.par.root))
    requires o'.heap[s.par.root].mutex == o.heap[s.par.root].mutex
    requires o'.heap[s.par.root].freed == o.heap[s.par.root].freed
    requires SameThread(o, o', UpT(s.par.root)) || (!Up(o, s.par.root) && At(o', UpT(s.par.root), Lock) && s.ranks > 1)
    ensures MainOk(s, o', main)
  {
  }

  /** The current reduction's op at index |ops|-1 changes, everything before stays. */
  lemma CurrentChanges(plan: Plan, w: World, w': World)
    requires WorldInv(plan, w) && w.main != Idle
    requires |w'.ops| == |w.ops| && w'.ops == w.ops[|w.ops| - 1 := w'.ops[|w.ops| - 1]]
    requires OpInvAt(plan, w', |w.ops| - 1)
    requires if w'.main == Idle then RetiredAt(plan, w', |w.ops| - 1) && plan.root !in w'.glb
             else SlotsOk(w', |w.ops| - 1) && MainOk(plan.Of(|w.ops| - 1), w'.ops[|w.ops| - 1], w'.main)
    requires ResultsOk(plan, w', w'.results)
    ensures WorldInv(plan, w')
  {
    OthersOk(plan, w, w', |w.ops| - 1, |w.ops| - 1);
    assert w'.main == Idle ==> OldOpsOk(plan, w', |w.ops|);
  }

  lemma SignalInv(plan: Plan, w: World, id: nat)
    requires WorldInv(plan, w) && CanAct(plan, w, SignalMain(id))
    ensures w.main == Waiting && id == |w.ops| - 1 && Act(plan, w, SignalMain(id)).main == Woken
    ensures WorldInv(plan, Act(plan, w, SignalMain(id)))
  {
    UnfinishedRootIsCurrent(plan, w, id);
    assert OpInvAt(plan, w, id);
    assert RankOk(plan.Of(id), w.ops[id], plan.root);
    SignalKeeps(plan.Of(id), w.ops[id]);
    CurrentChanges(plan, w, Act(plan, w, SignalMain(id)));
  }

  lemma StartInv(plan: Plan, w: World)
    requires WorldInv(plan, w) && CanAct(plan, w, Start)
    ensures WorldInv(plan, Act(plan, w, Start))
  {
    var w' := Act(plan, w, Start);
    NewOpInv(plan.Of(|w.ops|));
    forall k | 0 <= k < |w'.ops| ensures OpInvAt(plan, w', k) {
      if k < |w.ops| { assert OpInvAt(plan, w, k); }
    }
    forall k | 0 <= k < OverCount(w') ensures RetiredAt(plan, w', k) {
      assert RetiredAt(plan, w, k);
    }
  }

  /** The main thread's own actions, all on the root's current state. */
  lemma MainActs(plan: Plan, w: World, a: Action)
    requires WorldInv(plan, w) && CanAct(plan, w, a) && (a.WaitCond? || a.Relock? || a.Read? || a.FreeRoot?)
    ensures WorldInv(plan, Act(plan, w, a))
  {
    var cur := |w.ops| - 1;
    assert OpInvAt(plan, w, cur);
    assert RankOk(plan.Of(cur), w.ops[cur], plan.root);
    if a.WaitCond? {
      RootHasKids(plan.Of(cur));
      WaitCondInv(plan, w);
    } else if a.FreeRoot? {
      FreeRootInv(plan, w);
    } else {
      HoldInv(plan, w, a);
    }
  }

  lemma WaitCondInv(plan: Plan, w: World)
    requires WorldInv(plan, w) && CanAct(plan, w, WaitCond)
    requires OpInvAt(plan, w, |w.ops| - 1) && RankOk(plan.Of(|w.ops| - 1), w.ops[|w.ops| - 1], plan.root)
    requires plan.ranks > 1 ==> KidCount(plan.Of(|w.ops| - 1), plan.root) > 0
    ensures WorldInv(plan, Act(plan, w, WaitCond))
  {
    var cur, w' := |w.ops| - 1, Act(plan, w, WaitCond);
    assert w.glb[plan.root] == cur;
    RootStateKeeps(plan.Of(cur), w.ops[cur], w'.ops[cur].heap[plan.root]);
    CurrentChanges(plan, w, w');
  }

  lemma HoldInv(plan: Plan, w: World, a: Action)
    requires WorldInv(plan, w) && CanAct(plan, w, a) && (a.Relock? || a.Read?)
    requires OpInvAt(plan, w, |w.ops| - 1) && RankOk(plan.Of(|w.ops| - 1), w.ops[|w.ops| - 1], plan.root)
    ensures WorldInv(plan, Act(plan, w, a))
  {
    var cur, w' := |w.ops| - 1, Act(plan, w, a);
    assert w.glb[plan.root] == cur;
    RootStateKeeps(plan.Of(cur), w.ops[cur], w'.ops[cur].heap[plan.root]);
    CurrentChanges(plan, w, w');
  }

  lemma FreeRootInv(plan: Plan, w: World)
    requires WorldInv(plan, w) && CanAct(plan, w, FreeRoot)
    requires OpInvAt(plan, w, |w.ops| - 1) && RankOk(plan.Of(|w.ops| - 1), w.ops[|w.ops| - 1], plan.root)
    ensures WorldInv(plan, Act(plan, w, FreeRoot))
  {
    var cur, w' := |w.ops| - 1, Act(plan, w, FreeRoot);
    assert w.glb[plan.root] == cur;
    RootStateKeeps(plan.Of(cur), w.ops[cur], w'.ops[cur].heap[plan.root]);
    CurrentChanges(plan, w, w');
  }

  lemma ActInv(plan: Plan, w: World, a: Action)
    requires WorldInv(plan, w) && CanAct(plan, w, a)
    ensures WorldInv(plan, Act(plan, w, a))
  {
    match a
    case Local(id, l) => LocalInv(plan, w, id, l);
    case UseSlot(id, c) => UseSlotInv(plan, w, id, c);
    case SignalMain(id) => SignalInv(plan, w, id);
    case Start => StartInv(plan, w);
    case _ => MainActs(plan, w, a);
  }

  lemma {:induction false} RunInv(plan: Plan, w: World, acts: seq<Action>)
    requires WorldInv(plan, w) && CanRun(plan, w, acts)
    ensures WorldInv(plan, Run(plan, w, acts))
    decreases |acts|
  {
    if acts != [] {
      ActInv(plan, w, acts[0]);
      RunInv(plan, Act(plan, w, acts[0]), acts[1..]);
    }
  }
}
