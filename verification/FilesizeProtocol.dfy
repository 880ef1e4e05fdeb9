/** The asynchronous broadcast / max-reduce of the file size (margotree): requests go
    down the tree, every rank allocates a state in its one global slot, responses come up
    in RPCs of their own, and the root's main thread waits on a condition variable.

    A thread runs without interruption from one RPC or blocking call to the next; each
    such stretch is one action.  RPCs are reliable, a blocked thread blocks no other. */
module FilesizeProtocol {
  import opened KaryTree

  /** What a request carries and a state records: the tree to use and the reply mode. */
  datatype Params = Params(root: int, degree: int, reply: bool)

  datatype Mutex = NoMutex | Unlocked | ByMain | ByHandler

  /** state_filesize_t: num is num_responses, size the running maximum. */
  datatype Obj = Obj(par: Params, num: nat, size: int, err: int, mutex: Mutex, freed: bool)

  /** The threads of one operation.  ReqT(r): the request handler at rank r (at the root:
      the main thread's call of filesize_request_forward).  RespT(c): the handler of c's
      response at c's parent.  UpT(r): the thread that executes the sending branch of
      filesize_response_forward at r, from there on. */
  datatype Tid = ReqT(r: int) | RespT(c: int) | UpT(r: int)

  datatype Pc =
    | Respond(par: Params) | Alloc(par: Params)              // ReqT: reply to the caller; allocate
    | Fwd(i: nat) | AwaitReqAck(i: nat)                      // ReqT: next child; its RPC is open
    | RespondUp(size: int, err: int) | Update(size: int, err: int) // RespT: reply to the caller; use glb_st
    | AwaitRespAck | Free                                    // UpT below the root
    | Lock | Signal | Unlock                                 // UpT at the root
    | Done

  datatype Msg =
    | Request(to: int, par: Params) | ReqAck(c: int)
    | Response(from: int, size: int, err: int, reply: bool) | RespAck(from: int)

  /** One reduction.  heap: the state each rank allocated for it, kept here after free so
      that a use after free can be seen. */
  datatype Op = Op(threads: map<Tid, Pc>, heap: map<int, Obj>, net: multiset<Msg>)

  /** The main thread at the root. */
  datatype Main = Idle | Forwarding | Waiting | Woken | Holding | Freeing

  /** ops: all reductions so far, numbered; glb: for each rank the number of the reduction
      whose state glb_st points to (absent: NULL). */
  datatype World = World(ops: seq<Op>, glb: map<int, nat>, main: Main, results: seq<int>)

  /** One reduction: how many ranks, and the tree and mode it uses. */
  datatype Setup = Setup(ranks: int, par: Params) {
    function Tree(): Topology {
      TreeOf(ranks, par)
    }

    predicate Valid() {
      Tree().Valid()
    }

    predicate IsChild(c: int) {
      Tree().IsRank(c) && c != par.root
    }
  }

  datatype Mode = Mode(degree: int, reply: bool)

  /** All reductions the root is going to start, each with its degree and reply mode. */
  datatype Plan = Plan(ranks: int, root: int, modes: seq<Mode>) {
    predicate Valid() {
      1 <= ranks && 0 <= root < ranks && forall i | 0 <= i < |modes| :: modes[i].degree >= 1
    }

    /** Reduction number id. */
    function Of(id: int): (s: Setup)
      requires Valid() && 0 <= id < |modes|
      ensures s.Valid() && s.ranks == ranks && s.par.root == root
    {
      Setup(ranks, Params(root, modes[id].degree, modes[id].reply))
    }
  }

  function TreeOf(ranks: int, par: Params): Topology {
    Topology(ranks, par.root, par.degree)
  }

  function Max(a: int, b: int): int {
    if b > a then b else a
  }

  /* ---------- the pieces of one reduction ---------- */

  predicate At(o: Op, t: Tid, pc: Pc) {
    t in o.threads && o.threads[t] == pc
  }

  function Goto(o: Op, t: Tid, pc: Pc): Op {
    o.(threads := o.threads[t := pc])
  }

  function Post(o: Op, m: Msg): Op {
    o.(net := o.net + multiset{m})
  }

  function Take(o: Op, m: Msg): Op {
    o.(net := o.net - multiset{m})
  }

  function Store(o: Op, r: int, obj: Obj): Op {
    o.(heap := o.heap[r := obj])
  }

  /** Rank r has a state with a usable tree. */
  predicate HasState(ranks: int, o: Op, r: int) {
    r in o.heap && TreeOf(ranks, o.heap[r].par).Valid() && TreeOf(ranks, o.heap[r].par).IsRank(r)
  }

  function Kids(ranks: int, o: Op, r: int): seq<int>
    requires HasState(ranks, o, r)
  {
    TreeOf(ranks, o.heap[r].par).Children(r)
  }

  /** Response from a child: maximum, error, count. */
  function Counted(obj: Obj, size: int, err: int): Obj {
    obj.(size := Max(obj.size, size), err := if err != 0 then err else obj.err, num := obj.num + 1)
  }

  /** The own contribution of rank r, taken last. */
  function OwnSize(obj: Obj, r: int): Obj {
    obj.(size := Max(obj.size, r * 100))
  }

  /** filesize_response_forward at r: with all responses in, take the own size and either
      send the response to the parent or, at the root, go and wake the main thread. */
  function ResponseForward(ranks: int, o: Op, r: int): Op
    requires HasState(ranks, o, r)
  {
    var obj := o.heap[r];
    if obj.num == |Kids(ranks, o, r)| then
      var obj' := OwnSize(obj, r);
      var o' := Store(o, r, obj');
      if TreeOf(ranks, obj.par).Parent(r) != -1 then
        Post(Goto(o', UpT(r), if obj.par.reply then AwaitRespAck else Free),
             Response(r, obj'.size, obj'.err, obj.par.reply))
      else
        Goto(o', UpT(r), if ranks > 1 then Lock else Done)
    else o
  }

  /** filesize_response_rpc after its reply: count the response in the given state. */
  function CountResponse(ranks: int, o: Op, p: int, size: int, err: int): Op
    requires HasState(ranks, o, p)
  {
    ResponseForward(ranks, Store(o, p, Counted(o.heap[p], size, err)), p)
  }

  /* ---------- actions ---------- */

  /** Actions that concern one reduction only. */
  datatype Local =
    | SendRequest(r: int)                    // r forwards the request to its next child
    | EndForward(r: int)                     // r's loop is over; a leaf goes on to respond
    | DeliverRequest(c: int, par: Params)
    | AckRequest(c: int)                     // reply mode: c replies to the request at once
    | Allocate(c: int)                       // c allocates its state (and sets glb_st)
    | TakeReqAck(r: int)
    | DeliverResponse(c: int, size: int, err: int, reply: bool)
    | AckResponse(c: int)                    // reply mode: the parent replies to c at once
    | TakeRespAck(r: int)
    | FreeState(r: int)
    | LockMutex(r: int)
    | UnlockMutex(r: int)

  predicate CanDo(ranks: int, o: Op, a: Local) {
    match a
    case SendRequest(r) =>
      && HasState(ranks, o, r) && ReqT(r) in o.threads && o.threads[ReqT(r)].Fwd?
      && o.threads[ReqT(r)].i < |Kids(ranks, o, r)|
    case EndForward(r) =>
      && HasState(ranks, o, r) && ReqT(r) in o.threads && o.threads[ReqT(r)].Fwd?
      && o.threads[ReqT(r)].i >= |Kids(ranks, o, r)|
    case DeliverRequest(c, par) => Request(c, par) in o.net
    case AckRequest(c) => ReqT(c) in o.threads && o.threads[ReqT(c)].Respond?
    case Allocate(c) => ReqT(c) in o.threads && o.threads[ReqT(c)].Alloc?
    case TakeReqAck(r) =>
      && HasState(ranks, o, r) && ReqT(r) in o.threads && o.threads[ReqT(r)].AwaitReqAck?
      && o.threads[ReqT(r)].i < |Kids(ranks, o, r)| && ReqAck(Kids(ranks, o, r)[o.threads[ReqT(r)].i]) in o.net
    case DeliverResponse(c, size, err, reply) => Response(c, size, err, reply) in o.net
    case AckResponse(c) => RespT(c) in o.threads && o.threads[RespT(c)].RespondUp?
    case TakeRespAck(r) => At(o, UpT(r), AwaitRespAck) && RespAck(r) in o.net
    case FreeState(r) => At(o, UpT(r), Free) && r in o.heap
    case LockMutex(r) => At(o, UpT(r), Lock) && r in o.heap && o.heap[r].mutex == Unlocked
    case UnlockMutex(r) => At(o, UpT(r), Unlock) && r in o.heap
  }

  function DoLocal(ranks: int, o: Op, a: Local): Op
    requires CanDo(ranks, o, a)
  {
    match a
    case SendRequest(r) =>
      var i := o.threads[ReqT(r)].i;
      Post(Goto(o, ReqT(r), if o.heap[r].par.reply then AwaitReqAck(i) else Fwd(i + 1)),
           Request(Kids(ranks, o, r)[i], o.heap[r].par))
    case EndForward(r) =>
      var o' := Goto(o, ReqT(r), Done);
      if Kids(ranks, o, r) == [] then ResponseForward(ranks, o', r) else o'
    case DeliverRequest(c, par) =>
      Take(Goto(o, ReqT(c), if par.reply then Respond(par) else Alloc(par)), Request(c, par))
    case AckRequest(c) =>
      Post(Goto(o, ReqT(c), Alloc(o.threads[ReqT(c)].par)), ReqAck(c))
    case Allocate(c) =>
      Store(Goto(o, ReqT(c), Fwd(0)), c, Obj(o.threads[ReqT(c)].par, 0, 0, 0, NoMutex, false))
    case TakeReqAck(r) =>
      var i := o.threads[ReqT(r)].i;
      Take(Goto(o, ReqT(r), Fwd(i + 1)), ReqAck(Kids(ranks, o, r)[i]))
    case DeliverResponse(c, size, err, reply) =>
      Take(Goto(o, RespT(c), if reply then RespondUp(size, err) else Update(size, err)), Response(c, size, err, reply))
    case AckResponse(c) =>
      var pc := o.threads[RespT(c)];
      Post(Goto(o, RespT(c), Update(pc.size, pc.err)), RespAck(c))
    case TakeRespAck(r) => Take(Goto(o, UpT(r), Free), RespAck(r))
    case FreeState(r) => Store(Goto(o, UpT(r), Done), r, o.heap[r].(freed := true))
    case LockMutex(r) => Store(Goto(o, UpT(r), Signal), r, o.heap[r].(mutex := ByHandler))
    case UnlockMutex(r) => Store(Goto(o, UpT(r), Done), r, o.heap[r].(mutex := Unlocked))
  }

  datatype Action =
    | Local(id: nat, a: Local)
    | UseSlot(id: nat, c: int)   // the handler of c's response reads glb_st and updates it
    | SignalMain(id: nat)        // the handler at the root signals the condition variable
    | Start                      // main: allocate, create and lock the mutex
    | WaitCond                   // main: its loop is over, it waits (or need not)
    | Relock                     // main: woken, it gets the mutex back
    | Read                       // main: reads the result, unlocks
    | FreeRoot                   // main: frees the state, clears glb_st

  /** The state the root's glb_st points to. */
  predicate RootSlot(plan: Plan, w: World) {
    plan.root in w.glb && w.glb[plan.root] < |w.ops| && plan.root in w.ops[w.glb[plan.root]].heap
  }

  function RootState(plan: Plan, w: World): Obj
    requires RootSlot(plan, w)
  {
    w.ops[w.glb[plan.root]].heap[plan.root]
  }

  function PutRootState(plan: Plan, w: World, obj: Obj): World
    requires RootSlot(plan, w)
  {
    var id := w.glb[plan.root];
    w.(ops := w.ops[id := Store(w.ops[id], plan.root, obj)])
  }

  predicate CanAct(plan: Plan, w: World, a: Action)
    requires plan.Valid()
  {
    match a
    case Local(id, l) => id < |w.ops| && CanDo(plan.ranks, w.ops[id], l)
    case UseSlot(id, c) =>
      && id < |w.ops| && id < |plan.modes| && plan.Of(id).IsChild(c)
      && RespT(c) in w.ops[id].threads && w.ops[id].threads[RespT(c)].Update?
      && var p := plan.Of(id).Tree().Parent(c);
         p in w.glb && w.glb[p] < |w.ops| && HasState(plan.ranks, w.ops[w.glb[p]], p)
    case SignalMain(id) => id < |w.ops| && At(w.ops[id], UpT(plan.root), Signal)
    case Start => w.main == Idle && |w.ops| < |plan.modes|
    case WaitCond =>
      && w.main == Forwarding && RootSlot(plan, w) && At(w.ops[w.glb[plan.root]], ReqT(plan.root), Done)
      && (plan.ranks > 1 ==> RootState(plan, w).mutex == ByMain)
    case Relock => w.main == Woken && RootSlot(plan, w) && RootState(plan, w).mutex == Unlocked
    case Read => w.main == Holding && RootSlot(plan, w)
    case FreeRoot => w.main == Freeing && RootSlot(plan, w)
  }

  /** The root's new reduction: its state, and its main thread about to forward. */
  function NewOp(s: Setup): Op {
    Op(map[ReqT(s.par.root) := Fwd(0)],
       map[s.par.root := Obj(s.par, 0, 0, 0, if s.ranks > 1 then ByMain else NoMutex, false)], multiset{})
  }

  function Act(plan: Plan, w: World, a: Action): World
    requires plan.Valid() && CanAct(plan, w, a)
  {
    match a
    case Local(id, l) =>
      w.(ops := w.ops[id := DoLocal(plan.ranks, w.ops[id], l)], glb := if l.Allocate? then w.glb[l.c := id] else w.glb)
    case UseSlot(id, c) =>
      var p, pc := plan.Of(id).Tree().Parent(c), w.ops[id].threads[RespT(c)];
      var st := w.glb[p];
      var ops := w.ops[id := Goto(w.ops[id], RespT(c), Done)];
      w.(ops := ops[st := CountResponse(plan.ranks, ops[st], p, pc.size, pc.err)])
    case SignalMain(id) =>
      var ops := w.ops[id := Goto(w.ops[id], UpT(plan.root), Unlock)];
      var wakes := w.main == Waiting && plan.root in w.glb && w.glb[plan.root] == id;
      w.(ops := ops, main := if wakes then Woken else w.main)
    case Start =>
      w.(ops := w.ops + [NewOp(plan.Of(|w.ops|))], glb := w.glb[plan.root := |w.ops|], main := Forwarding)
    case WaitCond =>
      if plan.ranks > 1 then PutRootState(plan, w, RootState(plan, w).(mutex := Unlocked)).(main := Waiting)
      else w.(main := Holding)
    case Relock => PutRootState(plan, w, RootState(plan, w).(mutex := ByMain)).(main := Holding)
    case Read =>
      var obj := RootState(plan, w);
      PutRootState(plan, w, if plan.ranks > 1 then obj.(mutex := Unlocked) else obj)
        .(main := Freeing, results := w.results + [obj.size])
    case FreeRoot =>
      PutRootState(plan, w, RootState(plan, w).(freed := true)).(main := Idle, glb := w.glb - {plan.root})
  }

  /** Before the first reduction. */
  const BEGIN: World := World([], map[], Idle, [])

  predicate CanRun(plan: Plan, w: World, acts: seq<Action>)
    requires plan.Valid()
    decreases |acts|
  {
    acts == [] || (CanAct(plan, w, acts[0]) && CanRun(plan, Act(plan, w, acts[0]), acts[1..]))
  }

  function Run(plan: Plan, w: World, acts: seq<Action>): World
    requires plan.Valid() && CanRun(plan, w, acts)
    decreases |acts|
  {
    if acts == [] then w else Run(plan, Act(plan, w, acts[0]), acts[1..])
  }
}
