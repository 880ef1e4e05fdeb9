/** What one reduction keeps, as long as its responses are counted in its own states.
    (That they are is shown for all reductions together in FilesizeWorld.) */
module FilesizeInvariant {
  import opened Arith
  import opened KaryTree
  import opened SpanningTree
  import opened FilesizeProtocol

  /* ---------- the reduced value ---------- */

  /** The maximum of 100*x over the ranks x at and below r, following child lists. */
  function MaxBelow(s: Setup, r: int): int
    requires s.Valid() && s.Tree().IsRank(r)
    decreases s.ranks - s.Tree().Unrotate(r), s.ranks + 1
  {
    KidsBelow(s.Tree(), r);
    Max(MaxOfKids(s, r, |s.Tree().Children(r)|), r * 100)
  }

  /** The maximum over the subtrees of r's first m children, 0 if there are none. */
  function MaxOfKids(s: Setup, r: int, m: nat): int
    requires s.Valid() && s.Tree().IsRank(r) && m <= |s.Tree().Children(r)|
    decreases s.ranks - s.Tree().Unrotate(r), m
  {
    if m == 0 then 0 else
      KidIsDeeper(s.Tree(), r, m - 1);
      Max(MaxOfKids(s, r, m - 1), MaxBelow(s, s.Tree().Children(r)[m - 1]))
  }

  lemma KidIsDeeper(t: Topology, r: int, i: nat)
    requires t.Valid() && t.IsRank(r) && i < |t.Children(r)|
    ensures var c := t.Children(r)[i];
            t.IsRank(c) && c != t.root && t.Parent(c) == r && t.Slot(c) == i && t.Unrotate(r) < t.Unrotate(c) < t.ranks
  {
    ChildPointsBack(t, r, i);
    ParentIsCloser(t, t.Children(r)[i]);
    RotateInverse(t, t.Children(r)[i]);
  }

  lemma KidsBelow(t: Topology, r: int)
    requires t.Valid() && t.IsRank(r)
    ensures |t.Children(r)| <= t.ranks && 0 <= t.Unrotate(r) < t.ranks
  {
    RotateInverse(t, r);
    if t.Unrotate(r) > 0 { MulAtLeast(t.degree, t.Unrotate(r)); }
  }

  /* ---------- reading the state of one rank ---------- */

  function KidCount(s: Setup, r: int): nat
    requires s.Valid() && s.Tree().IsRank(r)
  {
    |s.Tree().Children(r)|
  }

  /** How many of its children rank r has sent the request to. */
  function Sent(s: Setup, o: Op, r: int): int
    requires s.Valid() && s.Tree().IsRank(r)
  {
    if ReqT(r) !in o.threads then 0 else
      match o.threads[ReqT(r)]
      case Respond(_) => 0
      case Alloc(_) => 0
      case Fwd(i) => i
      case AwaitReqAck(i) => i + 1
      case _ => KidCount(s, r)
  }

  function ParentOf(s: Setup, c: int): (p: int)
    requires s.Valid() && s.IsChild(c)
    ensures s.Tree().IsRank(p) && s.Tree().Unrotate(p) < s.Tree().Unrotate(c)
  {
    ParentIsCloser(s.Tree(), c);
    s.Tree().Parent(c)
  }

  /** c's parent has sent c the request. */
  predicate Issued(s: Setup, o: Op, c: int)
    requires s.Valid() && s.IsChild(c)
  {
    s.Tree().Slot(c) < Sent(s, o, ParentOf(s, c))
  }

  /** c's parent waits for c's reply to the request. */
  predicate AckPending(s: Setup, o: Op, c: int)
    requires s.Valid() && s.IsChild(c)
  {
    At(o, ReqT(ParentOf(s, c)), AwaitReqAck(s.Tree().Slot(c)))
  }

  predicate AtRespond(o: Op, c: int) {
    ReqT(c) in o.threads && o.threads[ReqT(c)].Respond?
  }

  predicate AtRespondUp(o: Op, c: int) {
    RespT(c) in o.threads && o.threads[RespT(c)].RespondUp?
  }

  /** c's response has been counted at its parent. */
  predicate CountedAt(o: Op, c: int) {
    At(o, RespT(c), Done)
  }

  /** filesize_response_forward has passed its test at r: r's result is complete. */
  predicate Up(o: Op, r: int) {
    UpT(r) in o.threads
  }

  function RequestsTo(s: Setup, o: Op, c: int): nat {
    o.net[Request(c, s.par)]
  }

  /** c's response, as it has to be. */
  function ResponseOf(s: Setup, c: int): Msg
    requires s.Valid() && s.Tree().IsRank(c)
  {
    Response(c, MaxBelow(s, c), 0, s.par.reply)
  }

  /** Number of r's first m children whose responses are counted. */
  function CountOf(o: Op, kids: seq<int>, m: nat): nat
    requires m <= |kids|
  {
    if m == 0 then 0 else CountOf(o, kids, m - 1) + One(CountedAt(o, kids[m - 1]))
  }

  /** The maximum over those of r's first m children whose responses are counted. */
  function MaxCounted(s: Setup, o: Op, r: int, m: nat): int
    requires s.Valid() && s.Tree().IsRank(r) && m <= KidCount(s, r)
  {
    if m == 0 then 0 else
      KidIsDeeper(s.Tree(), r, m - 1);
      var c := s.Tree().Children(r)[m - 1];
      if CountedAt(o, c) then Max(MaxCounted(s, o, r, m - 1), MaxBelow(s, c)) else MaxCounted(s, o, r, m - 1)
  }

  /* ---------- the invariant, rank by rank ---------- */

  /** r's request handler. */
  ghost predicate ReqOk(s: Setup, o: Op, r: int)
    requires s.Valid() && s.Tree().IsRank(r)
  {
    ReqT(r) in o.threads ==>
      match o.threads[ReqT(r)]
      case Respond(par) => par == s.par && s.par.reply && r != s.par.root
      case Alloc(par) => par == s.par && r != s.par.root
      case Fwd(i) => i <= KidCount(s, r)
      case AwaitReqAck(i) => i < KidCount(s, r) && s.par.reply
      case Done => true
      case _ => false
  }

  /** The handler of c's response holds c's result. */
  ghost predicate RespOk(s: Setup, o: Op, c: int)
    requires s.Valid() && s.IsChild(c)
  {
    RespT(c) in o.threads ==>
      match o.threads[RespT(c)]
      case RespondUp(size, err) => size == MaxBelow(s, c) && err == 0 && s.par.reply
      case Update(size, err) => size == MaxBelow(s, c) && err == 0
      case Done => true
      case _ => false
  }

  /** The thread that passed r's result on. */
  ghost predicate UpOk(s: Setup, o: Op, r: int) {
    UpT(r) in o.threads ==>
      match o.threads[UpT(r)]
      case AwaitRespAck => r != s.par.root && s.par.reply
      case Free => r != s.par.root
      case Lock => r == s.par.root && s.ranks > 1
      case Signal => r == s.par.root && s.ranks > 1
      case Unlock => r == s.par.root && s.ranks > 1
      case Done => true
      case _ => false
  }

  /** r's state: it exists from the allocation on, holds the count and the maximum of the
      counted responses, and is freed only at the very end. */
  ghost predicate StateOk(s: Setup, o: Op, r: int)
    requires s.Valid() && s.Tree().IsRank(r)
  {
    && (r in o.heap <==> ReqT(r) in o.threads && !o.threads[ReqT(r)].Respond? && !o.threads[ReqT(r)].Alloc?)
    && (r in o.heap ==>
          var obj := o.heap[r];
          && obj.par == s.par && obj.err == 0
          && obj.num == CountOf(o, s.Tree().Children(r), KidCount(s, r))
          && obj.size == (if Up(o, r) then MaxBelow(s, r) else MaxCounted(s, o, r, KidCount(s, r)))
          && (obj.freed ==> At(o, UpT(r), Done) && (r == s.par.root ==> At(o, ReqT(r), Done)))
          && (r != s.par.root && At(o, UpT(r), Done) ==> obj.freed))
  }

  /** r's result is passed on exactly when all its children are counted; for a leaf, when
      its loop is over. */
  ghost predicate CompleteOk(s: Setup, o: Op, r: int)
    requires s.Valid() && s.Tree().IsRank(r)
  {
    Up(o, r) <==> r in o.heap && o.heap[r].num == KidCount(s, r) && (KidCount(s, r) == 0 ==> At(o, ReqT(r), Done))
  }

  /** One issued request is one request in flight or one handler at c. */
  ghost predicate RequestBalance(s: Setup, o: Op, c: int)
    requires s.Valid() && s.IsChild(c)
  {
    RequestsTo(s, o, c) + One(ReqT(c) in o.threads) == One(Issued(s, o, c))
  }

  /** The parent waits for c's reply exactly while request or reply are on their way. */
  ghost predicate RequestAckBalance(s: Setup, o: Op, c: int)
    requires s.Valid() && s.IsChild(c)
  {
    o.net[ReqAck(c)] + One(AtRespond(o, c)) + (if s.par.reply then RequestsTo(s, o, c) else 0)
    == One(AckPending(s, o, c))
  }

  /** One passed-on result is one response in flight or one handler at the parent. */
  ghost predicate ResponseBalance(s: Setup, o: Op, c: int)
    requires s.Valid() && s.IsChild(c)
  {
    o.net[ResponseOf(s, c)] + One(RespT(c) in o.threads) == One(Up(o, c))
  }

  /** c waits for the reply to its response exactly while response or reply are on their way. */
  ghost predicate ResponseAckBalance(s: Setup, o: Op, c: int)
    requires s.Valid() && s.IsChild(c)
  {
    o.net[RespAck(c)] + One(AtRespondUp(o, c)) + (if s.par.reply then o.net[ResponseOf(s, c)] else 0)
    == One(At(o, UpT(c), AwaitRespAck))
  }

  /** The own part of a rank: its request handler, its state, its result. */
  ghost predicate OwnOk(s: Setup, o: Op, r: int)
    requires s.Valid() && s.Tree().IsRank(r)
  {
    ReqOk(s, o, r) && UpOk(s, o, r) && StateOk(s, o, r) && CompleteOk(s, o, r)
  }

  /** The part of a rank below the root that concerns its parent. */
  ghost predicate EdgeOk(s: Setup, o: Op, c: int)
    requires s.Valid() && s.IsChild(c)
  {
    && RespOk(s, o, c)
    && RequestBalance(s, o, c) && RequestAckBalance(s, o, c)
    && ResponseBalance(s, o, c) && ResponseAckBalance(s, o, c)
  }

  ghost predicate RankOk(s: Setup, o: Op, r: int)
    requires s.Valid() && s.Tree().IsRank(r)
  {
    OwnOk(s, o, r) && (r != s.par.root ==> EdgeOk(s, o, r))
  }

  /** Messages name this reduction's tree and carry final results; threads belong to ranks. */
  ghost predicate MsgOk(s: Setup, m: Msg)
    requires s.Valid()
  {
    match m
    case Request(to, par) => s.IsChild(to) && par == s.par
    case ReqAck(c) => s.IsChild(c)
    case Response(from, size, err, reply) => s.IsChild(from) && m == ResponseOf(s, from)
    case RespAck(from) => s.IsChild(from)
  }

  predicate TidOk(s: Setup, t: Tid)
    requires s.Valid()
  {
    match t
    case ReqT(r) => s.Tree().IsRank(r)
    case RespT(c) => s.IsChild(c)
    case UpT(r) => s.Tree().IsRank(r)
  }

  ghost predicate ShapeOk(s: Setup, o: Op)
    requires s.Valid()
  {
    && (forall m | m in o.net :: MsgOk(s, m))
    && (forall t | t in o.threads :: TidOk(s, t))
    && (forall r | r in o.heap :: s.Tree().IsRank(r))
    && ReqT(s.par.root) in o.threads
  }

  ghost predicate OpInv(s: Setup, o: Op)
    requires s.Valid()
  {
    && ShapeOk(s, o)
    && forall r {:trigger RankOk(s, o, r)} | s.Tree().IsRank(r) :: RankOk(s, o, r)
  }

  /* ---------- frames ---------- */

  predicate SameThread(o: Op, o': Op, t: Tid) {
    (t in o.threads <==> t in o'.threads) && (t in o.threads ==> o.threads[t] == o'.threads[t])
  }

  predicate SameState(o: Op, o': Op, r: int) {
    (r in o.heap <==> r in o'.heap) && (r in o.heap ==> o.heap[r] == o'.heap[r])
  }

  /** The same children are counted. */
  ghost predicate SameCounted(o: Op, o': Op) {
    forall c {:trigger CountedAt(o', c)} :: CountedAt(o, c) <==> CountedAt(o', c)
  }

  lemma {:induction false} CountFrame(o: Op, o': Op, kids: seq<int>, m: nat)
    requires m <= |kids|
    requires forall j | 0 <= j < m :: CountedAt(o, kids[j]) <==> CountedAt(o', kids[j])
    ensures CountOf(o, kids, m) == CountOf(o', kids, m)
  {
    if m > 0 { CountFrame(o, o', kids, m - 1); }
  }

  lemma {:induction false} MaxFrame(s: Setup, o: Op, o': Op, r: int, m: nat)
    requires s.Valid() && s.Tree().IsRank(r) && m <= KidCount(s, r)
    requires forall j | 0 <= j < m :: CountedAt(o, s.Tree().Children(r)[j]) <==> CountedAt(o', s.Tree().Children(r)[j])
    ensures MaxCounted(s, o, r, m) == MaxCounted(s, o', r, m)
  {
    if m > 0 { MaxFrame(s, o, o', r, m - 1); }
  }

  lemma CountsFrame(s: Setup, o: Op, o': Op, r: int)
    requires s.Valid() && s.Tree().IsRank(r) && SameCounted(o, o')
    ensures CountOf(o, s.Tree().Children(r), KidCount(s, r)) == CountOf(o', s.Tree().Children(r), KidCount(s, r))
    ensures MaxCounted(s, o, r, KidCount(s, r)) == MaxCounted(s, o', r, KidCount(s, r))
  {
    forall j | 0 <= j < KidCount(s, r)
      ensures CountedAt(o, s.Tree().Children(r)[j]) <==> CountedAt(o', s.Tree().Children(r)[j])
    {
      assert CountedAt(o', s.Tree().Children(r)[j]) <==> CountedAt(o, s.Tree().Children(r)[j]);
    }
    CountFrame(o, o', s.Tree().Children(r), KidCount(s, r));
    MaxFrame(s, o, o', r, KidCount(s, r));
  }

  lemma {:induction false} ZeroCounted(s: Setup, o: Op, r: int, m: nat)
    requires s.Valid() && s.Tree().IsRank(r) && m <= KidCount(s, r)
    requires forall j | 0 <= j < m :: !CountedAt(o, s.Tree().Children(r)[j])
    ensures CountOf(o, s.Tree().Children(r), m) == 0 && MaxCounted(s, o, r, m) == 0
  {
    if m > 0 { ZeroCounted(s, o, r, m - 1); }
  }

  lemma OwnFrame(s: Setup, o: Op, o': Op, r: int)
    requires s.Valid() && s.Tree().IsRank(r) && OwnOk(s, o, r) && SameCounted(o, o')
    requires SameThread(o, o', ReqT(r)) && SameThread(o, o', UpT(r)) && SameState(o, o', r)
    ensures OwnOk(s, o', r)
  {
    CountsFrame(s, o, o', r);
  }

  /** Same messages about c. */
  ghost predicate SameNet(s: Setup, o: Op, o': Op, c: int)
    requires s.Valid() && s.IsChild(c)
  {
    && RequestsTo(s, o, c) == RequestsTo(s, o', c) && o.net[ReqAck(c)] == o'.net[ReqAck(c)]
    && o.net[ResponseOf(s, c)] == o'.net[ResponseOf(s, c)] && o.net[RespAck(c)] == o'.net[RespAck(c)]
  }

  lemma EdgeFrame(s: Setup, o: Op, o': Op, c: int)
    requires s.Valid() && s.IsChild(c) && EdgeOk(s, o, c) && SameNet(s, o, o', c)
    requires SameThread(o, o', ReqT(c)) && SameThread(o, o', UpT(c)) && SameThread(o, o', RespT(c))
    requires SameThread(o, o', ReqT(ParentOf(s, c)))
    ensures EdgeOk(s, o', c)
  {
  }

  lemma GotoShape(s: Setup, o: Op, t: Tid, pc: Pc)
    requires s.Valid() && ShapeOk(s, o) && TidOk(s, t)
    ensures ShapeOk(s, Goto(o, t, pc))
  {
  }

  lemma PostShape(s: Setup, o: Op, m: Msg)
    requires s.Valid() && ShapeOk(s, o) && MsgOk(s, m)
    ensures ShapeOk(s, Post(o, m))
  {
  }

  lemma TakeShape(s: Setup, o: Op, m: Msg)
    requires s.Valid() && ShapeOk(s, o)
    ensures ShapeOk(s, Take(o, m))
  {
  }

  lemma StoreShape(s: Setup, o: Op, r: int, obj: Obj)
    requires s.Valid() && ShapeOk(s, o) && s.Tree().IsRank(r)
    ensures ShapeOk(s, Store(o, r, obj))
  {
  }

  /** Whatever has been passed on from c to its parent, c was asked for before. */
  lemma PassedOnWasIssued(s: Setup, o: Op, c: int)
    requires s.Valid() && s.IsChild(c) && RankOk(s, o, c) && (RespT(c) in o.threads || Up(o, c))
    ensures Up(o, c) && c in o.heap && Issued(s, o, c)
  {
  }

  lemma NoneCountedYet(s: Setup, o: Op, r: int)
    requires s.Valid() && OpInv(s, o) && s.Tree().IsRank(r) && r !in o.heap
    ensures CountOf(o, s.Tree().Children(r), KidCount(s, r)) == 0 && MaxCounted(s, o, r, KidCount(s, r)) == 0
  {
    assert RankOk(s, o, r);
    forall j | 0 <= j < KidCount(s, r) ensures !CountedAt(o, s.Tree().Children(r)[j]) {
      var c := s.Tree().Children(r)[j];
      KidIsDeeper(s.Tree(), r, j);
      assert RankOk(s, o, c);
      if RespT(c) in o.threads { PassedOnWasIssued(s, o, c); }
    }
    ZeroCounted(s, o, r, KidCount(s, r));
  }

  /* ---------- one lemma per action: the rank that moves, its edge, its children's edges ---------- */

  lemma SendKeeps(s: Setup, o: Op, x: int)
    requires s.Valid() && OpInv(s, o) && CanDo(s.ranks, o, SendRequest(x))
    ensures OpInv(s, DoLocal(s.ranks, o, SendRequest(x)))
  {
    assert s.Tree().IsRank(x) && RankOk(s, o, x);
    var o' := DoLocal(s.ranks, o, SendRequest(x));
    var i := o.threads[ReqT(x)].i;
    KidIsDeeper(s.Tree(), x, i);
    var d := s.Tree().Children(x)[i];
    forall r | s.Tree().IsRank(r) ensures RankOk(s, o', r) {
      assert RankOk(s, o, r);
      SendOwn(s, o, x, r);
      if r != s.par.root {
        SendEdge(s, o, x, r);
      }
    }
  }

  lemma SendOwn(s: Setup, o: Op, x: int, r: int)
    requires s.Valid() && s.Tree().IsRank(x) && s.Tree().IsRank(r) && OwnOk(s, o, x) && OwnOk(s, o, r)
    requires CanDo(s.ranks, o, SendRequest(x))
    ensures OwnOk(s, DoLocal(s.ranks, o, SendRequest(x)), r)
  {
    var o' := DoLocal(s.ranks, o, SendRequest(x));
    CountsFrame(s, o, o', r);
    if r != x { OwnFrame(s, o, o', r); }
  }

  lemma SendEdge(s: Setup, o: Op, x: int, c: int)
    requires s.Valid() && s.Tree().IsRank(x) && s.IsChild(c) && OwnOk(s, o, x) && EdgeOk(s, o, c)
    requires CanDo(s.ranks, o, SendRequest(x))
    ensures EdgeOk(s, DoLocal(s.ranks, o, SendRequest(x)), c)
  {
    var o' := DoLocal(s.ranks, o, SendRequest(x));
    SlotIs(s.Tree(), x, o.threads[ReqT(x)].i, c);
    if ParentOf(s, c) != x && c != x {
      EdgeFrame(s, o, o', c);
    }
  }

  /* the request reaches c */

  lemma DeliverRequestKeeps(s: Setup, o: Op, d: int, par: Params)
    requires s.Valid() && OpInv(s, o) && CanDo(s.ranks, o, DeliverRequest(d, par))
    ensures OpInv(s, DoLocal(s.ranks, o, DeliverRequest(d, par)))
  {
    RequestIsFresh(s, o, d, par);
    var o' := DoLocal(s.ranks, o, DeliverRequest(d, par));
    forall r | s.Tree().IsRank(r) ensures RankOk(s, o', r) {
      assert RankOk(s, o, r);
      DeliverRequestOwn(s, o, d, par, r);
      if r != s.par.root {
        DeliverRequestEdge(s, o, d, par, r);
      }
    }
  }

  lemma RequestIsFresh(s: Setup, o: Op, d: int, par: Params)
    requires s.Valid() && OpInv(s, o) && Request(d, par) in o.net
    ensures s.IsChild(d) && par == s.par && ReqT(d) !in o.threads && RankOk(s, o, d)
  {
    assert MsgOk(s, Request(d, par));
    assert RankOk(s, o, d) && RequestBalance(s, o, d);
  }

  lemma DeliverRequestOwn(s: Setup, o: Op, d: int, par: Params, r: int)
    requires s.Valid() && s.Tree().IsRank(d) && s.Tree().IsRank(r) && OwnOk(s, o, d) && OwnOk(s, o, r)
    requires CanDo(s.ranks, o, DeliverRequest(d, par))
    requires ReqT(d) !in o.threads && par == s.par && d != s.par.root
    ensures OwnOk(s, DoLocal(s.ranks, o, DeliverRequest(d, par)), r)
  {
    var o' := DoLocal(s.ranks, o, DeliverRequest(d, par));
    CountsFrame(s, o, o', r);
    if r != d { OwnFrame(s, o, o', r); }
  }

  lemma DeliverRequestEdge(s: Setup, o: Op, d: int, par: Params, c: int)
    requires s.Valid() && s.Tree().IsRank(d) && s.IsChild(c) && OwnOk(s, o, d) && EdgeOk(s, o, c)
    requires CanDo(s.ranks, o, DeliverRequest(d, par))
    requires ReqT(d) !in o.threads && par == s.par && d != s.par.root
    ensures EdgeOk(s, DoLocal(s.ranks, o, DeliverRequest(d, par)), c)
  {
    var o' := DoLocal(s.ranks, o, DeliverRequest(d, par));
    if ParentOf(s, c) != d && c != d {
      EdgeFrame(s, o, o', c);
    }
  }

  /* c replies to the request */

  lemma AckRequestKeeps(s: Setup, o: Op, d: int)
    requires s.Valid() && OpInv(s, o) && CanDo(s.ranks, o, AckRequest(d))
    ensures OpInv(s, DoLocal(s.ranks, o, AckRequest(d)))
  {
    assert TidOk(s, ReqT(d)) && RankOk(s, o, d);
    var o' := DoLocal(s.ranks, o, AckRequest(d));
    forall r | s.Tree().IsRank(r) ensures RankOk(s, o', r) {
      assert RankOk(s, o, r);
      AckRequestOwn(s, o, d, r);
      if r != s.par.root {
        AckRequestEdge(s, o, d, r);
      }
    }
  }

  lemma AckRequestOwn(s: Setup, o: Op, d: int, r: int)
    requires s.Valid() && s.Tree().IsRank(d) && s.Tree().IsRank(r) && OwnOk(s, o, d) && OwnOk(s, o, r)
    requires CanDo(s.ranks, o, AckRequest(d))
    ensures OwnOk(s, DoLocal(s.ranks, o, AckRequest(d)), r)
  {
    var o' := DoLocal(s.ranks, o, AckRequest(d));
    CountsFrame(s, o, o', r);
    if r != d { OwnFrame(s, o, o', r); }
  }

  lemma AckRequestEdge(s: Setup, o: Op, d: int, c: int)
    requires s.Valid() && s.Tree().IsRank(d) && s.IsChild(c) && OwnOk(s, o, d) && EdgeOk(s, o, c)
    requires CanDo(s.ranks, o, AckRequest(d))
    ensures EdgeOk(s, DoLocal(s.ranks, o, AckRequest(d)), c)
  {
    var o' := DoLocal(s.ranks, o, AckRequest(d));
    if ParentOf(s, c) != d && c != d {
      EdgeFrame(s, o, o', c);
    }
  }

  /* c allocates its state */

  lemma AllocateKeeps(s: Setup, o: Op, d: int)
    requires s.Valid() && OpInv(s, o) && CanDo(s.ranks, o, Allocate(d))
    ensures OpInv(s, DoLocal(s.ranks, o, Allocate(d)))
  {
    assert TidOk(s, ReqT(d)) && RankOk(s, o, d);
    NoneCountedYet(s, o, d);
    var o' := DoLocal(s.ranks, o, Allocate(d));
    forall r | s.Tree().IsRank(r) ensures RankOk(s, o', r) {
      assert RankOk(s, o, r);
      AllocateOwn(s, o, d, r);
      if r != s.par.root {
        AllocateEdge(s, o, d, r);
      }
    }
  }

  lemma AllocateOwn(s: Setup, o: Op, d: int, r: int)
    requires s.Valid() && s.Tree().IsRank(d) && s.Tree().IsRank(r) && OwnOk(s, o, d) && OwnOk(s, o, r)
    requires CanDo(s.ranks, o, Allocate(d))
    requires CountOf(o, s.Tree().Children(d), KidCount(s, d)) == 0 && MaxCounted(s, o, d, KidCount(s, d)) == 0
    ensures OwnOk(s, DoLocal(s.ranks, o, Allocate(d)), r)
  {
    var o' := DoLocal(s.ranks, o, Allocate(d));
    CountsFrame(s, o, o', r);
    if r != d { OwnFrame(s, o, o', r); }
  }

  lemma AllocateEdge(s: Setup, o: Op, d: int, c: int)
    requires s.Valid() && s.Tree().IsRank(d) && s.IsChild(c) && OwnOk(s, o, d) && EdgeOk(s, o, c)
    requires CanDo(s.ranks, o, Allocate(d))
    ensures EdgeOk(s, DoLocal(s.ranks, o, Allocate(d)), c)
  {
    var o' := DoLocal(s.ranks, o, Allocate(d));
    if ParentOf(s, c) != d && c != d {
      EdgeFrame(s, o, o', c);
    }
  }

  /* the reply reaches the parent */

  lemma TakeReqAckKeeps(s: Setup, o: Op, x: int)
    requires s.Valid() && OpInv(s, o) && CanDo(s.ranks, o, TakeReqAck(x))
    ensures OpInv(s, DoLocal(s.ranks, o, TakeReqAck(x)))
  {
    assert s.Tree().IsRank(x) && RankOk(s, o, x);
    var o' := DoLocal(s.ranks, o, TakeReqAck(x));
    forall r | s.Tree().IsRank(r) ensures RankOk(s, o', r) {
      assert RankOk(s, o, r);
      TakeReqAckOwn(s, o, x, r);
      if r != s.par.root {
        TakeReqAckEdge(s, o, x, r);
      }
    }
  }

  lemma TakeReqAckOwn(s: Setup, o: Op, x: int, r: int)
    requires s.Valid() && s.Tree().IsRank(x) && s.Tree().IsRank(r) && OwnOk(s, o, x) && OwnOk(s, o, r)
    requires CanDo(s.ranks, o, TakeReqAck(x))
    ensures OwnOk(s, DoLocal(s.ranks, o, TakeReqAck(x)), r)
  {
    var o' := DoLocal(s.ranks, o, TakeReqAck(x));
    CountsFrame(s, o, o', r);
    if r != x { OwnFrame(s, o, o', r); }
  }

  lemma TakeReqAckEdge(s: Setup, o: Op, x: int, c: int)
    requires s.Valid() && s.Tree().IsRank(x) && s.IsChild(c) && OwnOk(s, o, x) && EdgeOk(s, o, c)
    requires CanDo(s.ranks, o, TakeReqAck(x))
    ensures EdgeOk(s, DoLocal(s.ranks, o, TakeReqAck(x)), c)
  {
    var o' := DoLocal(s.ranks, o, TakeReqAck(x));
    SlotIs(s.Tree(), x, o.threads[ReqT(x)].i, c);
    if ParentOf(s, c) != x && c != x {
      EdgeFrame(s, o, o', c);
    }
  }

  /* a response reaches the parent */

  lemma DeliverResponseKeeps(s: Setup, o: Op, d: int, size: int, err: int, reply: bool)
    requires s.Valid() && OpInv(s, o) && CanDo(s.ranks, o, DeliverResponse(d, size, err, reply))
    ensures OpInv(s, DoLocal(s.ranks, o, DeliverResponse(d, size, err, reply)))
  {
    ResponseIsFresh(s, o, d, size, err, reply);
    var o' := DoLocal(s.ranks, o, DeliverResponse(d, size, err, reply));
    GotoShape(s, o, RespT(d), o'.threads[RespT(d)]);
    TakeShape(s, Goto(o, RespT(d), o'.threads[RespT(d)]), Response(d, size, err, reply));
    forall r | s.Tree().IsRank(r) ensures RankOk(s, o', r) {
      assert RankOk(s, o, r);
      DeliverResponseOwn(s, o, d, size, err, reply, r);
      if r != s.par.root {
        DeliverResponseEdge(s, o, d, size, err, reply, r);
      }
    }
  }

  lemma ResponseIsFresh(s: Setup, o: Op, d: int, size: int, err: int, reply: bool)
    requires s.Valid() && OpInv(s, o) && Response(d, size, err, reply) in o.net
    ensures s.IsChild(d) && Response(d, size, err, reply) == ResponseOf(s, d) && RespT(d) !in o.threads
  {
    assert MsgOk(s, Response(d, size, err, reply));
    assert RankOk(s, o, d) && ResponseBalance(s, o, d);
  }

  lemma DeliverResponseOwn(s: Setup, o: Op, d: int, size: int, err: int, reply: bool, r: int)
    requires s.Valid() && s.Tree().IsRank(r) && OwnOk(s, o, r)
    requires CanDo(s.ranks, o, DeliverResponse(d, size, err, reply))
    requires s.IsChild(d) && Response(d, size, err, reply) == ResponseOf(s, d) && RespT(d) !in o.threads
    ensures OwnOk(s, DoLocal(s.ranks, o, DeliverResponse(d, size, err, reply)), r)
  {
    var o' := DoLocal(s.ranks, o, DeliverResponse(d, size, err, reply));
    OwnFrame(s, o, o', r);
  }

  lemma DeliverResponseEdge(s: Setup, o: Op, d: int, size: int, err: int, reply: bool, c: int)
    requires s.Valid() && s.IsChild(c) && EdgeOk(s, o, c)
    requires CanDo(s.ranks, o, DeliverResponse(d, size, err, reply))
    requires s.IsChild(d) && Response(d, size, err, reply) == ResponseOf(s, d) && RespT(d) !in o.threads
    ensures EdgeOk(s, DoLocal(s.ranks, o, DeliverResponse(d, size, err, reply)), c)
  {
    if c != d {
      EdgeFrame(s, o, DoLocal(s.ranks, o, DeliverResponse(d, size, err, reply)), c);
    } else {
      DeliverOwnResponseEdge(s, o, d, size, err, reply);
    }
  }

  lemma DeliverOwnResponseEdge(s: Setup, o: Op, d: int, size: int, err: int, reply: bool)
    requires s.Valid() && s.IsChild(d) && EdgeOk(s, o, d)
    requires CanDo(s.ranks, o, DeliverResponse(d, size, err, reply))
    requires Response(d, size, err, reply) == ResponseOf(s, d) && RespT(d) !in o.threads
    ensures EdgeOk(s, DoLocal(s.ranks, o, DeliverResponse(d, size, err, reply)), d)
  {
  }

  /* the parent replies to the response */

  lemma AckResponseKeeps(s: Setup, o: Op, d: int)
    requires s.Valid() && OpInv(s, o) && CanDo(s.ranks, o, AckResponse(d))
    ensures OpInv(s, DoLocal(s.ranks, o, AckResponse(d)))
  {
    assert TidOk(s, RespT(d));
    var o' := DoLocal(s.ranks, o, AckResponse(d));
    GotoShape(s, o, RespT(d), o'.threads[RespT(d)]);
    PostShape(s, Goto(o, RespT(d), o'.threads[RespT(d)]), RespAck(d));
    forall r | s.Tree().IsRank(r) ensures RankOk(s, o', r) {
      assert RankOk(s, o, r);
      AckResponseOwn(s, o, d, r);
      if r != s.par.root {
        AckResponseEdge(s, o, d, r);
      }
    }
  }

  lemma AckResponseOwn(s: Setup, o: Op, d: int, r: int)
    requires s.Valid() && s.Tree().IsRank(r) && OwnOk(s, o, r)
    requires CanDo(s.ranks, o, AckResponse(d))
    ensures OwnOk(s, DoLocal(s.ranks, o, AckResponse(d)), r)
  {
    var o' := DoLocal(s.ranks, o, AckResponse(d));
    OwnFrame(s, o, o', r);
  }

  lemma AckResponseEdge(s: Setup, o: Op, d: int, c: int)
    requires s.Valid() && s.IsChild(c) && EdgeOk(s, o, c)
    requires CanDo(s.ranks, o, AckResponse(d))
    ensures EdgeOk(s, DoLocal(s.ranks, o, AckResponse(d)), c)
  {
    var o' := DoLocal(s.ranks, o, AckResponse(d));
    if c != d { EdgeFrame(s, o, o', c); }
  }

  /* the reply to the response reaches c */

  lemma TakeRespAckKeeps(s: Setup, o: Op, d: int)
    requires s.Valid() && OpInv(s, o) && CanDo(s.ranks, o, TakeRespAck(d))
    ensures OpInv(s, DoLocal(s.ranks, o, TakeRespAck(d)))
  {
    var o' := DoLocal(s.ranks, o, TakeRespAck(d));
    forall r | s.Tree().IsRank(r) ensures RankOk(s, o', r) {
      assert RankOk(s, o, r);
      TakeRespAckOwn(s, o, d, r);
      if r != s.par.root {
        TakeRespAckEdge(s, o, d, r);
      }
    }
  }

  lemma TakeRespAckOwn(s: Setup, o: Op, d: int, r: int)
    requires s.Valid() && s.Tree().IsRank(r) && OwnOk(s, o, r)
    requires CanDo(s.ranks, o, TakeRespAck(d))
    ensures OwnOk(s, DoLocal(s.ranks, o, TakeRespAck(d)), r)
  {
    var o' := DoLocal(s.ranks, o, TakeRespAck(d));
    CountsFrame(s, o, o', r);
    if r != d { OwnFrame(s, o, o', r); }
  }

  lemma TakeRespAckEdge(s: Setup, o: Op, d: int, c: int)
    requires s.Valid() && s.IsChild(c) && EdgeOk(s, o, c)
    requires CanDo(s.ranks, o, TakeRespAck(d))
    ensures EdgeOk(s, DoLocal(s.ranks, o, TakeRespAck(d)), c)
  {
    var o' := DoLocal(s.ranks, o, TakeRespAck(d));
    if c != d { EdgeFrame(s, o, o', c); }
  }

  /* c frees its state */

  lemma FreeStateKeeps(s: Setup, o: Op, d: int)
    requires s.Valid() && OpInv(s, o) && CanDo(s.ranks, o, FreeState(d))
    ensures OpInv(s, DoLocal(s.ranks, o, FreeState(d)))
  {
    var o' := DoLocal(s.ranks, o, FreeState(d));
    forall r | s.Tree().IsRank(r) ensures RankOk(s, o', r) {
      assert RankOk(s, o, r);
      FreeStateOwn(s, o, d, r);
      if r != s.par.root {
        FreeStateEdge(s, o, d, r);
      }
    }
  }

  lemma FreeStateOwn(s: Setup, o: Op, d: int, r: int)
    requires s.Valid() && s.Tree().IsRank(r) && OwnOk(s, o, r)
    requires CanDo(s.ranks, o, FreeState(d))
    ensures OwnOk(s, DoLocal(s.ranks, o, FreeState(d)), r)
  {
    var o' := DoLocal(s.ranks, o, FreeState(d));
    CountsFrame(s, o, o', r);
    if r != d { OwnFrame(s, o, o', r); }
  }

  lemma FreeStateEdge(s: Setup, o: Op, d: int, c: int)
    requires s.Valid() && s.IsChild(c) && EdgeOk(s, o, c)
    requires CanDo(s.ranks, o, FreeState(d))
    ensures EdgeOk(s, DoLocal(s.ranks, o, FreeState(d)), c)
  {
    var o' := DoLocal(s.ranks, o, FreeState(d));
    if c != d { EdgeFrame(s, o, o', c); }
  }

  /* the root's handler locks the mutex */

  lemma LockMutexKeeps(s: Setup, o: Op, d: int)
    requires s.Valid() && OpInv(s, o) && CanDo(s.ranks, o, LockMutex(d))
    ensures OpInv(s, DoLocal(s.ranks, o, LockMutex(d)))
  {
    assert TidOk(s, UpT(d)) && RankOk(s, o, d);
    var o' := DoLocal(s.ranks, o, LockMutex(d));
    forall r | s.Tree().IsRank(r) ensures RankOk(s, o', r) {
      assert RankOk(s, o, r);
      LockMutexOwn(s, o, d, r);
      if r != s.par.root {
        LockMutexEdge(s, o, d, r);
      }
    }
  }

  lemma LockMutexOwn(s: Setup, o: Op, d: int, r: int)
    requires s.Valid() && s.Tree().IsRank(r) && OwnOk(s, o, r)
    requires CanDo(s.ranks, o, LockMutex(d))
    requires UpOk(s, o, d)
    ensures OwnOk(s, DoLocal(s.ranks, o, LockMutex(d)), r)
  {
    var o' := DoLocal(s.ranks, o, LockMutex(d));
    CountsFrame(s, o, o', r);
    if r != d { OwnFrame(s, o, o', r); }
  }

  lemma LockMutexEdge(s: Setup, o: Op, d: int, c: int)
    requires s.Valid() && s.IsChild(c) && EdgeOk(s, o, c)
    requires CanDo(s.ranks, o, LockMutex(d))
    requires UpOk(s, o, d)
    ensures EdgeOk(s, DoLocal(s.ranks, o, LockMutex(d)), c)
  {
    var o' := DoLocal(s.ranks, o, LockMutex(d));
    if c != d { EdgeFrame(s, o, o', c); }
  }

  /* the root's handler unlocks the mutex */

  lemma UnlockMutexKeeps(s: Setup, o: Op, d: int)
    requires s.Valid() && OpInv(s, o) && CanDo(s.ranks, o, UnlockMutex(d))
    ensures OpInv(s, DoLocal(s.ranks, o, UnlockMutex(d)))
  {
    assert TidOk(s, UpT(d)) && RankOk(s, o, d);
    var o' := DoLocal(s.ranks, o, UnlockMutex(d));
    forall r | s.Tree().IsRank(r) ensures RankOk(s, o', r) {
      assert RankOk(s, o, r);
      UnlockMutexOwn(s, o, d, r);
      if r != s.par.root {
        UnlockMutexEdge(s, o, d, r);
      }
    }
  }

  lemma UnlockMutexOwn(s: Setup, o: Op, d: int, r: int)
    requires s.Valid() && s.Tree().IsRank(r) && OwnOk(s, o, r)
    requires CanDo(s.ranks, o, UnlockMutex(d))
    requires UpOk(s, o, d)
    ensures OwnOk(s, DoLocal(s.ranks, o, UnlockMutex(d)), r)
  {
    var o' := DoLocal(s.ranks, o, UnlockMutex(d));
    CountsFrame(s, o, o', r);
    if r != d { OwnFrame(s, o, o', r); }
  }

  lemma UnlockMutexEdge(s: Setup, o: Op, d: int, c: int)
    requires s.Valid() && s.IsChild(c) && EdgeOk(s, o, c)
    requires CanDo(s.ranks, o, UnlockMutex(d))
    requires UpOk(s, o, d)
    ensures EdgeOk(s, DoLocal(s.ranks, o, UnlockMutex(d)), c)
  {
    var o' := DoLocal(s.ranks, o, UnlockMutex(d));
    if c != d { EdgeFrame(s, o, o', c); }
  }

  /* r passes its result on */

  lemma {:induction false} CountAtMost(o: Op, kids: seq<int>, m: nat)
    requires m <= |kids|
    ensures CountOf(o, kids, m) <= m
  {
    if m > 0 { CountAtMost(o, kids, m - 1); }
  }

  lemma {:induction false} AllCountedMax(s: Setup, o: Op, r: int, m: nat)
    requires s.Valid() && s.Tree().IsRank(r) && m <= KidCount(s, r)
    requires CountOf(o, s.Tree().Children(r), m) == m
    ensures MaxCounted(s, o, r, m) == MaxOfKids(s, r, m)
  {
    if m > 0 {
      KidIsDeeper(s.Tree(), r, m - 1);
      CountAtMost(o, s.Tree().Children(r), m - 1);
      AllCountedMax(s, o, r, m - 1);
    }
  }

  /** r's state after all its children are counted, before its own size is taken. */
  ghost predicate ReadyToPassOn(s: Setup, o: Op, r: int)
    requires s.Valid() && s.Tree().IsRank(r)
  {
    && r in o.heap && o.heap[r].par == s.par && o.heap[r].err == 0 && !o.heap[r].freed
    && o.heap[r].num == CountOf(o, s.Tree().Children(r), KidCount(s, r)) == KidCount(s, r)
    && o.heap[r].size == MaxCounted(s, o, r, KidCount(s, r))
    && ReqT(r) in o.threads && !o.threads[ReqT(r)].Respond? && !o.threads[ReqT(r)].Alloc?
    && (KidCount(s, r) == 0 ==> At(o, ReqT(r), Done))
    && !Up(o, r) && (KidCount(s, r) == 0 ==> s.ranks == 1 || r != s.par.root)
  }

  lemma RootHasKids(s: Setup)
    requires s.Valid()
    ensures KidCount(s, s.par.root) == 0 <==> s.ranks == 1
  {
    RotateInverse(s.Tree(), s.par.root);
  }

  /** Passing the result on completes r's own part. */
  lemma PassOnOwn(s: Setup, o: Op, r: int)
    requires s.Valid() && s.Tree().IsRank(r) && ReqOk(s, o, r) && ReadyToPassOn(s, o, r)
    ensures HasState(s.ranks, o, r) && OwnOk(s, ResponseForward(s.ranks, o, r), r)
  {
    var o' := ResponseForward(s.ranks, o, r);
    AllCountedMax(s, o, r, KidCount(s, r));
    assert SameCounted(o, o');
    CountsFrame(s, o, o', r);
    LocalViewsAgree(s.Tree(), r, r);
    assert o'.heap[r].size == MaxBelow(s, r);
  }

  /** It posts r's response and touches nothing else. */
  lemma PassOnPosts(s: Setup, o: Op, r: int)
    requires s.Valid() && s.Tree().IsRank(r) && ReadyToPassOn(s, o, r)
    ensures HasState(s.ranks, o, r)
    ensures var o' := ResponseForward(s.ranks, o, r);
            && o'.heap == o.heap[r := o.heap[r].(size := MaxBelow(s, r))]
            && (r != s.par.root ==> o'.net == o.net + multiset{ResponseOf(s, r)}
                                    && o'.threads == o.threads[UpT(r) := if s.par.reply then AwaitRespAck else Free])
            && (r == s.par.root ==> o'.net == o.net
                                    && o'.threads == o.threads[UpT(r) := if s.ranks > 1 then Lock else Done])
  {
    AllCountedMax(s, o, r, KidCount(s, r));
    LocalViewsAgree(s.Tree(), r, r);
  }

  lemma PassOnShape(s: Setup, o: Op, r: int)
    requires s.Valid() && s.Tree().IsRank(r) && ReadyToPassOn(s, o, r) && ShapeOk(s, o)
    ensures HasState(s.ranks, o, r) && ShapeOk(s, ResponseForward(s.ranks, o, r))
  {
    PassOnPosts(s, o, r);
  }

  lemma PassOnEdge(s: Setup, o: Op, r: int, c: int)
    requires s.Valid() && s.Tree().IsRank(r) && ReadyToPassOn(s, o, r)
    requires s.IsChild(c) && EdgeOk(s, o, c)
    ensures HasState(s.ranks, o, r) && EdgeOk(s, ResponseForward(s.ranks, o, r), c)
  {
    PassOnPosts(s, o, r);
    if c != r { EdgeFrame(s, o, ResponseForward(s.ranks, o, r), c); }
  }

  lemma PassOnOther(s: Setup, o: Op, r: int, x: int)
    requires s.Valid() && s.Tree().IsRank(r) && ReadyToPassOn(s, o, r)
    requires s.Tree().IsRank(x) && x != r && OwnOk(s, o, x)
    ensures HasState(s.ranks, o, r) && OwnOk(s, ResponseForward(s.ranks, o, r), x)
  {
    PassOnPosts(s, o, r);
    OwnFrame(s, o, ResponseForward(s.ranks, o, r), x);
  }

  /* r's loop is over */

  lemma EndForwardKeeps(s: Setup, o: Op, x: int)
    requires s.Valid() && OpInv(s, o) && CanDo(s.ranks, o, EndForward(x))
    ensures OpInv(s, DoLocal(s.ranks, o, EndForward(x)))
  {
    assert s.Tree().IsRank(x) && RankOk(s, o, x);
    var o1 := Goto(o, ReqT(x), Done);
    RootHasKids(s);
    assert SameCounted(o, o1);
    CountsFrame(s, o, o1, x);
    GotoShape(s, o, ReqT(x), Done);
    if KidCount(s, x) == 0 { PassOnShape(s, o1, x); }
    forall r | s.Tree().IsRank(r) ensures RankOk(s, DoLocal(s.ranks, o, EndForward(x)), r) {
      assert RankOk(s, o, r);
      EndForwardRank(s, o, x, r);
    }
  }

  lemma EndForwardRank(s: Setup, o: Op, x: int, r: int)
    requires s.Valid() && s.Tree().IsRank(x) && s.Tree().IsRank(r) && OwnOk(s, o, x) && RankOk(s, o, r)
    requires CanDo(s.ranks, o, EndForward(x))
    ensures RankOk(s, DoLocal(s.ranks, o, EndForward(x)), r)
  {
    var o1 := Goto(o, ReqT(x), Done);
    CountsFrame(s, o, o1, x);
    RootHasKids(s);
    if r != x { OwnFrame(s, o, o1, r); }
    if r != s.par.root { EndForwardEdge(s, o, x, r); }
    if KidCount(s, x) == 0 {
      if r == x { PassOnOwn(s, o1, x); } else { PassOnOther(s, o1, x, r); }
      if r != s.par.root { PassOnEdge(s, o1, x, r); }
    }
  }

  lemma EndForwardEdge(s: Setup, o: Op, x: int, c: int)
    requires s.Valid() && s.Tree().IsRank(x) && s.IsChild(c) && OwnOk(s, o, x) && EdgeOk(s, o, c)
    requires CanDo(s.ranks, o, EndForward(x))
    ensures EdgeOk(s, Goto(o, ReqT(x), Done), c)
  {
    var o1 := Goto(o, ReqT(x), Done);
    ParentLists(s.Tree(), c);
    if ParentOf(s, c) != x && c != x { EdgeFrame(s, o, o1, c); }
  }

  /* a response is counted in the parent's own state */

  function CountOwn(s: Setup, o: Op, c: int): Op
    requires s.Valid() && s.IsChild(c) && RespT(c) in o.threads && o.threads[RespT(c)].Update?
    requires HasState(s.ranks, o, ParentOf(s, c))
  {
    CountResponse(s.ranks, Goto(o, RespT(c), Done), ParentOf(s, c), o.threads[RespT(c)].size, o.threads[RespT(c)].err)
  }

  /** Counting c raises the count of its parent, and no other, by one. */
  lemma {:induction false} CountBump(s: Setup, o: Op, c: int, r: int, m: nat)
    requires s.Valid() && s.IsChild(c) && s.Tree().IsRank(r) && m <= KidCount(s, r) && !CountedAt(o, c)
    ensures var o', own := Goto(o, RespT(c), Done), r == ParentOf(s, c) && s.Tree().Slot(c) < m;
            && CountOf(o', s.Tree().Children(r), m) == CountOf(o, s.Tree().Children(r), m) + One(own)
            && MaxCounted(s, o', r, m)
               == if own then Max(MaxCounted(s, o, r, m), MaxBelow(s, c)) else MaxCounted(s, o, r, m)
  {
    ParentLists(s.Tree(), c);
    if m > 0 {
      CountBump(s, o, c, r, m - 1);
      SlotIs(s.Tree(), r, m - 1, c);
      KidIsDeeper(s.Tree(), r, m - 1);
    }
  }

  /** The counted response before the test of filesize_response_forward. */
  function JustCounted(s: Setup, o: Op, c: int): Op
    requires s.Valid() && s.IsChild(c) && RespT(c) in o.threads && o.threads[RespT(c)].Update?
    requires HasState(s.ranks, o, ParentOf(s, c))
  {
    var p := ParentOf(s, c);
    Store(Goto(o, RespT(c), Done), p, Counted(o.heap[p], o.threads[RespT(c)].size, o.threads[RespT(c)].err))
  }

  lemma CountKeeps(s: Setup, o: Op, c: int)
    requires s.Valid() && OpInv(s, o) && s.IsChild(c) && RespT(c) in o.threads && o.threads[RespT(c)].Update?
    ensures HasState(s.ranks, o, ParentOf(s, c)) && !Up(o, ParentOf(s, c)) && OpInv(s, CountOwn(s, o, c))
  {
    var p := ParentOf(s, c);
    assert RankOk(s, o, c) && RankOk(s, o, p);
    UncountedKid(s, o, c);
    var o2 := JustCounted(s, o, c);
    CountedState(s, o, c);
    GotoShape(s, o, RespT(c), Done);
    StoreShape(s, Goto(o, RespT(c), Done), p, o2.heap[p]);
    if o2.heap[p].num == KidCount(s, p) { PassOnShape(s, o2, p); }
    forall r | s.Tree().IsRank(r) ensures RankOk(s, CountOwn(s, o, c), r) {
      assert RankOk(s, o, r);
      CountRank(s, o, c, r);
    }
  }

  /** While c's response is being handled its parent has a live, incomplete state. */
  lemma UncountedKid(s: Setup, o: Op, c: int)
    requires s.Valid() && s.IsChild(c) && RankOk(s, o, c) && RankOk(s, o, ParentOf(s, c))
    requires RespT(c) in o.threads && !CountedAt(o, c)
    ensures var p := ParentOf(s, c);
            HasState(s.ranks, o, p) && !Up(o, p) && !o.heap[p].freed && o.heap[p].par == s.par
            && o.heap[p].num < KidCount(s, p) && KidCount(s, p) > 0
  {
    var p := ParentOf(s, c);
    PassedOnWasIssued(s, o, c);
    ParentLists(s.Tree(), c);
    CountBump(s, o, c, p, KidCount(s, p));
    CountAtMost(Goto(o, RespT(c), Done), s.Tree().Children(p), KidCount(s, p));
  }

  lemma CountedState(s: Setup, o: Op, c: int)
    requires s.Valid() && s.IsChild(c) && RankOk(s, o, c) && RankOk(s, o, ParentOf(s, c))
    requires RespT(c) in o.threads && o.threads[RespT(c)].Update?
    ensures HasState(s.ranks, o, ParentOf(s, c))
    ensures var o2, p := JustCounted(s, o, c), ParentOf(s, c);
            if o2.heap[p].num == KidCount(s, p) then ReqOk(s, o2, p) && ReadyToPassOn(s, o2, p) else OwnOk(s, o2, p)
  {
    var p := ParentOf(s, c);
    UncountedKid(s, o, c);
    ParentLists(s.Tree(), c);
    CountBump(s, o, c, p, KidCount(s, p));
    var o1, o2 := Goto(o, RespT(c), Done), JustCounted(s, o, c);
    assert SameCounted(o1, o2);
    CountsFrame(s, o1, o2, p);
  }

  lemma CountRank(s: Setup, o: Op, c: int, r: int)
    requires s.Valid() && s.IsChild(c) && RankOk(s, o, c) && RankOk(s, o, ParentOf(s, c))
    requires RespT(c) in o.threads && o.threads[RespT(c)].Update?
    requires s.Tree().IsRank(r) && RankOk(s, o, r)
    ensures HasState(s.ranks, o, ParentOf(s, c)) && RankOk(s, CountOwn(s, o, c), r)
  {
    var p := ParentOf(s, c);
    UncountedKid(s, o, c);
    CountedState(s, o, c);
    var o2 := JustCounted(s, o, c);
    if r != p { CountOther(s, o, c, r); }
    if r != s.par.root { CountEdge(s, o, c, r); }
    if o2.heap[p].num == KidCount(s, p) {
      if r == p { PassOnOwn(s, o2, p); } else { PassOnOther(s, o2, p, r); }
      if r != s.par.root { PassOnEdge(s, o2, p, r); }
    }
  }

  lemma CountOther(s: Setup, o: Op, c: int, r: int)
    requires s.Valid() && s.IsChild(c) && HasState(s.ranks, o, ParentOf(s, c))
    requires RespT(c) in o.threads && o.threads[RespT(c)].Update?
    requires s.Tree().IsRank(r) && OwnOk(s, o, r) && r != ParentOf(s, c)
    ensures OwnOk(s, JustCounted(s, o, c), r)
  {
    CountBump(s, o, c, r, KidCount(s, r));
    var o1, o2 := Goto(o, RespT(c), Done), JustCounted(s, o, c);
    assert SameCounted(o1, o2);
    CountsFrame(s, o1, o2, r);
  }

  lemma CountEdge(s: Setup, o: Op, c: int, r: int)
    requires s.Valid() && s.IsChild(c) && HasState(s.ranks, o, ParentOf(s, c))
    requires RespT(c) in o.threads && o.threads[RespT(c)].Update?
    requires s.IsChild(r) && EdgeOk(s, o, r)
    ensures EdgeOk(s, JustCounted(s, o, c), r)
  {
    if r != c { EdgeFrame(s, o, JustCounted(s, o, c), r); }
  }

  /* the root's handler and the main thread touch mutex and freed mark only */

  lemma SignalKeeps(s: Setup, o: Op)
    requires s.Valid() && OpInv(s, o) && At(o, UpT(s.par.root), Signal)
    ensures OpInv(s, Goto(o, UpT(s.par.root), Unlock))
  {
    forall r | s.Tree().IsRank(r) ensures RankOk(s, Goto(o, UpT(s.par.root), Unlock), r) {
      assert RankOk(s, o, r);
      SignalRank(s, o, r);
    }
  }

  lemma SignalRank(s: Setup, o: Op, r: int)
    requires s.Valid() && s.Tree().IsRank(r) && RankOk(s, o, r) && At(o, UpT(s.par.root), Signal)
    ensures RankOk(s, Goto(o, UpT(s.par.root), Unlock), r)
  {
    var o' := Goto(o, UpT(s.par.root), Unlock);
    if r != s.par.root {
      OwnFrame(s, o, o', r);
      EdgeFrame(s, o, o', r);
    } else {
      assert SameCounted(o, o');
      CountsFrame(s, o, o', r);
    }
  }

  lemma RootStateKeeps(s: Setup, o: Op, obj: Obj)
    requires s.Valid() && OpInv(s, o) && s.par.root in o.heap
    requires obj == o.heap[s.par.root].(mutex := obj.mutex, freed := obj.freed)
    requires obj.freed ==> At(o, UpT(s.par.root), Done) && At(o, ReqT(s.par.root), Done)
    ensures OpInv(s, Store(o, s.par.root, obj))
  {
    var o' := Store(o, s.par.root, obj);
    assert RankOk(s, o, s.par.root);
    StoreShape(s, o, s.par.root, obj);
    forall r | s.Tree().IsRank(r) ensures RankOk(s, o', r) {
      assert RankOk(s, o, r);
      assert SameCounted(o, o');
      if r != s.par.root {
        OwnFrame(s, o, o', r);
        EdgeFrame(s, o, o', r);
      } else {
        CountsFrame(s, o, o', r);
      }
    }
  }

  /** Every action of one reduction keeps its invariant. */
  lemma LocalKeeps(s: Setup, o: Op, a: Local)
    requires s.Valid() && OpInv(s, o) && CanDo(s.ranks, o, a)
    ensures OpInv(s, DoLocal(s.ranks, o, a))
  {
    match a
    case SendRequest(r) => SendKeeps(s, o, r);
    case EndForward(r) => EndForwardKeeps(s, o, r);
    case DeliverRequest(c, par) => DeliverRequestKeeps(s, o, c, par);
    case AckRequest(c) => AckRequestKeeps(s, o, c);
    case Allocate(c) => AllocateKeeps(s, o, c);
    case TakeReqAck(r) => TakeReqAckKeeps(s, o, r);
    case DeliverResponse(c, size, err, reply) => DeliverResponseKeeps(s, o, c, size, err, reply);
    case AckResponse(c) => AckResponseKeeps(s, o, c);
    case TakeRespAck(r) => TakeRespAckKeeps(s, o, r);
    case FreeState(r) => FreeStateKeeps(s, o, r);
    case LockMutex(r) => LockMutexKeeps(s, o, r);
    case UnlockMutex(r) => UnlockMutexKeeps(s, o, r);
  }
}
