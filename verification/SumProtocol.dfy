/** The nested-RPC sum collective as a step machine: one operation, that is, one
    call of metasim_rpc_invoke_sum and every handler and message it gives rise to.

    Operations share no mutable state in the servers, so several operations at once
    are several of these machines side by side (module SumServers).  A handler is
    split at its RPC calls; every failure of a helper is an action of its own. */
module SumProtocol {
  import opened KaryTree

  /** The degree the sum RPC passes to metasim_rpc_tree_init. */
  const DEGREE := 2

  function TreeFor(ranks: int, root: int): Topology {
    Topology(ranks, root, DEGREE)
  }

  /** Sending: in the loop that forwards requests.  Waiting: in the loop that collects
      results.  Returned: sum_forward is over and the result was replied. */
  datatype Phase = Sending | Waiting | Returned(failed: bool)

  /** One activation of sum_forward: its input (root, seed), the child list of the
      tree it uses, how many requests it sent, how many results it collected. */
  datatype Handler = Handler(root: int, seed: int, kids: seq<int>, sent: nat, got: nat, sum: int, phase: Phase)

  datatype Msg = Request(to: int, root: int, seed: int) | Reply(from: int, sum: int)

  /** One operation.  handlers: the activation at each rank that has one; net: messages
      in flight; inbox: results that arrived and wait in the request handle. */
  datatype Op = Op(ranks: int, root: int, seed: int,
                   handlers: map<int, Handler>, net: multiset<Msg>, inbox: map<int, int>)
  {
    predicate Valid() {
      Tree().Valid()
    }

    function Tree(): Topology {
      TreeFor(ranks, root)
    }

    predicate IsChild(c: int)
      requires Valid()
    {
      Tree().IsRank(c) && c != root
    }

    /** The invoking rank's sum_forward is over. */
    predicate Finished() {
      root in handlers && handlers[root].phase.Returned?
    }
  }

  /** What the client of the invoking server gets: *sum is written only if sum_forward did
      not fail, and for an error the listener answers -1. */
  function Received(o: Op): int
    requires o.Finished()
  {
    if o.handlers[o.root].phase.failed then -1 else o.handlers[o.root].sum
  }

  function NewHandler(root: int, seed: int, kids: seq<int>): Handler {
    Handler(root, seed, kids, 0, 0, 0, if kids == [] then Waiting else Sending)
  }

  /** metasim_rpc_invoke_sum at rank `root`, which uses the tree cached at start-up.  If
      there was no memory for that tree then, it has no children. */
  function Invoke(ranks: int, root: int, seed: int, tree: bool := true): Op
    requires TreeFor(ranks, root).Valid()
  {
    var kids := if tree then CachedChildren(ranks, root) else [];
    Op(ranks, root, seed, map[root := NewHandler(root, seed, kids)], multiset{}, map[])
  }

  /** The child list of bcast_tree, built by metasim_rpc_register on rank `rank`. */
  function CachedChildren(ranks: int, rank: int): seq<int>
    requires TreeFor(ranks, rank).Valid()
  {
    TreeFor(ranks, rank).Children(rank)
  }

  /* ---------- actions ---------- */

  datatype Action =
    | Forward(r: int)                            // r sends the next request
    | FailForward(r: int)                        // ... but creating or sending it fails
    | Deliver(c: int, inRoot: int, inSeed: int)  // a request reaches c, which builds its tree
    | DeliverNoTree(c: int, inRoot: int, inSeed: int) // ... but has no memory for the tree
    | Arrive(c: int, sum: int)                   // c's reply reaches the handle of its parent
    | Collect(r: int)                            // r's wait for the next child returns
    | FailWait(r: int)                           // ... with a failure
    | Finish(r: int)                             // r has all results, adds its own and replies

  predicate IsFailure(a: Action) {
    a.FailForward? || a.DeliverNoTree? || a.FailWait?
  }

  /** The rank whose handler the action starts or changes, or whose reply it moves. */
  function Actor(a: Action): int {
    match a
    case Deliver(c, _, _) => c
    case DeliverNoTree(c, _, _) => c
    case Arrive(c, _) => c
    case _ => a.r
  }

  predicate Enabled(o: Op, a: Action) {
    match a
    case Forward(r) => r in o.handlers && o.handlers[r].phase.Sending? && o.handlers[r].sent < |o.handlers[r].kids|
    case FailForward(r) => r in o.handlers && o.handlers[r].phase.Sending?
    case Deliver(c, inRoot, inSeed) => CanDeliver(o, c, inRoot, inSeed)
    case DeliverNoTree(c, inRoot, inSeed) => CanDeliver(o, c, inRoot, inSeed)
    case Arrive(c, sum) => Reply(c, sum) in o.net
    case Collect(r) =>
      && r in o.handlers && o.handlers[r].phase.Waiting? && o.handlers[r].got < |o.handlers[r].kids|
      && o.handlers[r].kids[o.handlers[r].got] in o.inbox
    case FailWait(r) => r in o.handlers && o.handlers[r].phase.Waiting? && o.handlers[r].got < |o.handlers[r].kids|
    case Finish(r) => r in o.handlers && o.handlers[r].phase.Waiting? && o.handlers[r].got == |o.handlers[r].kids|
  }

  predicate CanDeliver(o: Op, c: int, inRoot: int, inSeed: int) {
    Request(c, inRoot, inSeed) in o.net && TreeFor(o.ranks, inRoot).Valid() && TreeFor(o.ranks, inRoot).IsRank(c)
  }

  function Apply(o: Op, a: Action): Op
    requires Enabled(o, a)
  {
    match a
    case Forward(r) => SendNext(o, r)
    case FailForward(r) => Close(o, r, true)
    case Deliver(c, inRoot, inSeed) => Activate(o, c, inRoot, inSeed, TreeFor(o.ranks, inRoot).Children(c))
    case DeliverNoTree(c, inRoot, inSeed) => Activate(o, c, inRoot, inSeed, [])
    case Arrive(c, sum) => o.(net := o.net - multiset{Reply(c, sum)}, inbox := o.inbox[c := sum])
    case Collect(r) => AddNext(o, r)
    case FailWait(r) => Close(o, r, true)
    case Finish(r) => Close(o, r, false)
  }

  /** r sends the request for its next child. */
  function SendNext(o: Op, r: int): Op
    requires r in o.handlers && o.handlers[r].sent < |o.handlers[r].kids|
  {
    var h := o.handlers[r];
    var h' := h.(sent := h.sent + 1, phase := if h.sent + 1 < |h.kids| then Sending else Waiting);
    o.(handlers := o.handlers[r := h'], net := o.net + multiset{Request(h.kids[h.sent], h.root, h.seed)})
  }

  /** r adds the result of its next child. */
  function AddNext(o: Op, r: int): Op
    requires r in o.handlers && o.handlers[r].got < |o.handlers[r].kids|
    requires o.handlers[r].kids[o.handlers[r].got] in o.inbox
  {
    var h := o.handlers[r];
    o.(handlers := o.handlers[r := h.(got := h.got + 1, sum := h.sum + o.inbox[h.kids[h.got]])])
  }

  /** A request is taken from the net and a handler starts at c.  Whatever handler c
      had would be lost. */
  function Activate(o: Op, c: int, inRoot: int, inSeed: int, kids: seq<int>): Op {
    o.(handlers := o.handlers[c := NewHandler(inRoot, inSeed, kids)],
       net := o.net - multiset{Request(c, inRoot, inSeed)})
  }

  /** The end of sum_forward at r: add the rank's own contribution; a handler replies. */
  function Close(o: Op, r: int, failed: bool): Op
    requires r in o.handlers
  {
    var h := o.handlers[r];
    var sum := h.sum + (r + h.seed);
    o.(handlers := o.handlers[r := h.(sum := sum, phase := Returned(failed))],
       net := if r == o.root then o.net else o.net + multiset{Reply(r, sum)})
  }

  /* ---------- runs ---------- */

  predicate CanRun(o: Op, acts: seq<Action>)
    decreases |acts|
  {
    acts == [] || (Enabled(o, acts[0]) && CanRun(Apply(o, acts[0]), acts[1..]))
  }

  function Run(o: Op, acts: seq<Action>): Op
    requires CanRun(o, acts)
    decreases |acts|
  {
    if acts == [] then o else Run(Apply(o, acts[0]), acts[1..])
  }

  predicate FailureFree(acts: seq<Action>) {
    forall i | 0 <= i < |acts| :: !IsFailure(acts[i])
  }

  lemma Prepend(o: Op, a: Action, rest: seq<Action>)
    requires Enabled(o, a) && CanRun(Apply(o, a), rest)
    ensures CanRun(o, [a] + rest) && Run(o, [a] + rest) == Run(Apply(o, a), rest)
    ensures !IsFailure(a) && FailureFree(rest) ==> FailureFree([a] + rest)
  {
    assert ([a] + rest)[1..] == rest;
  }
}
