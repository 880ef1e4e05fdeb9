/** sum_forward and its two callers, as one server runs them.  The helpers
    corpc_get_handle, corpc_forward_request and corpc_wait_request, and the memory
    allocations, are outside: what they return is a parameter. */
module SumServer {
  import opened Int32
  import opened RpcTree
  import opened SumProtocol

  datatype Option<+T> = None | Some(value: T)

  datatype SumIn = SumIn(root: int32, seed: int32)

  /** What the environment answers, child by child: return codes (0 is success) and
      the sums found in the replies. */
  datatype Calls = Calls(handle: seq<int32>, forward: seq<int32>, wait: seq<int32>, reply: seq<int32>) {
    predicate For(m: int) {
      |handle| == m && |forward| == m && |wait| == m && |reply| == m
    }
  }

  function Total(replies: seq<int32>): int {
    if replies == [] then 0 else Total(replies[..|replies| - 1]) + replies[|replies| - 1] as int
  }

  /** With m children `got` is the first wait that fails, or m. */
  ghost predicate WaitsUpTo(m: nat, calls: Calls, got: nat)
    requires calls.For(m)
  {
    got <= m && (forall i | 0 <= i < got :: calls.wait[i] == 0) && (got < m ==> calls.wait[got] != 0)
  }

  /** How far sum_forward gets with m children: `sent` is the first request that could
      not be sent, `got` the first wait that failed, 0 if some request was not sent. */
  ghost predicate Progress(m: nat, calls: Calls, sent: nat, got: nat)
    requires calls.For(m)
  {
    && sent <= m && (forall i | 0 <= i < sent :: calls.handle[i] == 0 && calls.forward[i] == 0)
    && (sent < m ==> calls.handle[sent] != 0 || calls.forward[sent] != 0)
    && if sent < m then got == 0 else WaitsUpTo(m, calls, got)
  }

  /** The number of requests sent before one fails, starting with child i. */
  function SentFrom(m: nat, calls: Calls, i: nat): (n: nat)
    requires calls.For(m) && i <= m
    ensures i <= n <= m && (forall j | i <= j < n :: calls.handle[j] == 0 && calls.forward[j] == 0)
    ensures n < m ==> calls.handle[n] != 0 || calls.forward[n] != 0
    decreases m - i
  {
    if i < m && calls.handle[i] == 0 && calls.forward[i] == 0 then SentFrom(m, calls, i + 1) else i
  }

  /** The number of results collected before a wait fails, starting with child i. */
  function CollectedFrom(m: nat, calls: Calls, i: nat): (n: nat)
    requires calls.For(m) && i <= m
    ensures i <= n <= m && (forall j | i <= j < n :: calls.wait[j] == 0) && (n < m ==> calls.wait[n] != 0)
    decreases m - i
  {
    if i < m && calls.wait[i] == 0 then CollectedFrom(m, calls, i + 1) else i
  }

  /** The number of results sum_forward collects. */
  function Got(m: nat, calls: Calls): (got: nat)
    requires calls.For(m)
    ensures got <= m && (SentFrom(m, calls, 0) < m ==> got == 0)
    ensures SentFrom(m, calls, 0) == m ==>
              (forall i | 0 <= i < got :: calls.wait[i] == 0) && (got < m ==> calls.wait[got] != 0)
  {
    if SentFrom(m, calls, 0) < m then 0 else CollectedFrom(m, calls, 0)
  }

  lemma ProgressIs(m: nat, calls: Calls, sent: nat, got: nat)
    requires calls.For(m) && Progress(m, calls, sent, got)
    ensures sent == SentFrom(m, calls, 0) && got == Got(m, calls)
  {
    if sent < SentFrom(m, calls, 0) { assert false; }
    if SentFrom(m, calls, 0) < sent { assert false; }
  }

  /** The result: all collected replies and the own contribution; an error code exactly
      if some reply was not collected, be it that some request was not sent. */
  ghost predicate Outcome(m: nat, rank: int, seed: int, calls: Calls, sent: nat, got: nat, failed: bool, sum: int)
    requires calls.For(m)
  {
    && Progress(m, calls, sent, got)
    && (failed <==> got < m)
    && sum == Total(calls.reply[..got]) + (rank + seed)
  }

  /** C integers suffice for whatever prefix of the replies is collected. */
  ghost predicate SumsFit(rank: int, seed: int, replies: seq<int32>) {
    && Fits(rank + seed)
    && forall j | 0 <= j <= |replies| :: Fits(Total(replies[..j])) && Fits(Total(replies[..j]) + (rank + seed))
  }

  class Server {
    const rank: int32
    const nranks: int32
    const bcastTree: Tree

    /** The cached tree is this rank's view of the tree rooted at this rank. */
    ghost predicate HasTree()
      reads this, bcastTree, bcastTree.childRanks
    {
      bcastTree.IsView(TreeFor(nranks as int, rank as int), rank as int)
    }

    /** The cached tree is right, or it is the childless one left by a failing malloc. */
    ghost predicate Valid()
      reads this, bcastTree, bcastTree.childRanks
    {
      && 1 <= nranks && 0 <= rank < nranks && 2 * nranks as int <= INT_MAX
      && (HasTree() || (bcastTree.childCount == 0 && bcastTree.childRanks == null))
    }

    /** metasim_rpc_register: the tree for this rank's own sums is built once; whether
        that worked is not checked. */
    constructor Register(rank: int32, nranks: int32, memory: bool)
      requires 1 <= nranks && 0 <= rank < nranks && 2 * nranks as int <= INT_MAX
      ensures Valid() && this.rank == rank && this.nranks == nranks && (HasTree() <==> memory)
    {
      this.rank, this.nranks := rank, nranks;
      var tree := new Tree();
      var ret := tree.Init(rank, nranks, rank, DEGREE as int32, memory);
      bcastTree := tree;
    }

    /** sum_forward: returns the error code, the sum (None if calloc failed and nothing
        was written) and the requests that were sent. */
    method SumForward(tree: Tree, in_: SumIn, calls: Calls, memory: bool)
      returns (ret: int32, out: Option<int32>, sent: seq<Msg>)
      requires tree.childCount >= 0 && calls.For(tree.childCount as int)
      requires tree.childCount > 0 ==> tree.childRanks != null && tree.childCount as int <= tree.childRanks.Length
      requires SumsFit(rank as int, in_.seed as int, calls.reply)
      ensures out == None <==> tree.childCount > 0 && !memory
      ensures out == None ==> ret == ENOMEM && sent == []
      ensures out != None ==>
                var m := tree.childCount as int;
                Outcome(m, rank as int, in_.seed as int, calls, |sent|, Got(m, calls), ret != 0, out.value as int)
      ensures out != None ==>
                var m, got := tree.childCount as int, Got(tree.childCount as int, calls);
                ret == if |sent| < m
                       then if calls.handle[|sent|] != 0 then calls.handle[|sent|] else calls.forward[|sent|]
                       else if got < m then calls.wait[got]
                       else 0
      ensures |sent| <= tree.childCount as int
      ensures forall i | 0 <= i < |sent| ::
                sent[i] == Request(tree.childRanks[i] as int, in_.root as int, in_.seed as int)
    {
      var sum: int32 := 0;
      ghost var m, got := tree.childCount as int, 0;
      ret, sent := 0, [];
      if tree.childCount != 0 {
        if !memory {
          return ENOMEM, None, [];
        }
        ret, sent := SendAll(tree, in_, calls);
        if ret == 0 {
          ret, sum := CollectAll(tree.childCount, calls);
          got := CollectedFrom(m, calls, 0);
        }
      }
      assert calls.reply[..0] == [];
      sum := sum + (rank + in_.seed);
      out := Some(sum);
      ProgressIs(m, calls, |sent|, got);
    }

    /** The first loop: stops at the first request that cannot be sent. */
    method SendAll(tree: Tree, in_: SumIn, calls: Calls) returns (ret: int32, sent: seq<Msg>)
      requires tree.childCount > 0 && calls.For(tree.childCount as int)
      requires tree.childRanks != null && tree.childCount as int <= tree.childRanks.Length
      ensures |sent| == SentFrom(tree.childCount as int, calls, 0)
      ensures forall i | 0 <= i < |sent| :: calls.handle[i] == 0 && calls.forward[i] == 0
      ensures ret == if |sent| == tree.childCount as int then 0
                     else if calls.handle[|sent|] != 0 then calls.handle[|sent|] else calls.forward[|sent|]
      ensures forall i | 0 <= i < |sent| ::
                sent[i] == Request(tree.childRanks[i] as int, in_.root as int, in_.seed as int)
    {
      ret, sent := 0, [];
      var i: int32 := 0;
      while i < tree.childCount
        invariant 0 <= i <= tree.childCount && |sent| == i as int && ret == 0
        invariant SentFrom(tree.childCount as int, calls, 0) == SentFrom(tree.childCount as int, calls, i as int)
        invariant forall j | 0 <= j < i as int ::
                    sent[j] == Request(tree.childRanks[j] as int, in_.root as int, in_.seed as int)
      {
        var child := tree.childRanks[i as int];
        ret := calls.handle[i as int];
        if ret != 0 {
          return;
        }
        ret := calls.forward[i as int];
        if ret != 0 {
          return;
        }
        sent := sent + [Request(child as int, in_.root as int, in_.seed as int)];
        i := i + 1;
      }
    }

    /** The second loop: waits for the children in order, stops at the first failure. */
    method CollectAll(count: int32, calls: Calls) returns (ret: int32, sum: int32)
      requires count > 0 && calls.For(count as int)
      requires forall j | 0 <= j <= count as int :: Fits(Total(calls.reply[..j]))
      ensures var got := CollectedFrom(count as int, calls, 0);
              && ret == (if got < count as int then calls.wait[got] else 0)
              && sum as int == Total(calls.reply[..got])
    {
      ret, sum := 0, 0;
      var i: int32 := 0;
      while i < count
        invariant 0 <= i <= count && ret == 0
        invariant CollectedFrom(count as int, calls, 0) == CollectedFrom(count as int, calls, i as int)
        invariant sum as int == Total(calls.reply[..i as int])
      {
        ret := calls.wait[i as int];
        if ret != 0 {
          return;
        }
        assert calls.reply[..i as int + 1][..i as int] == calls.reply[..i as int];
        sum := sum + calls.reply[i as int];
        i := i + 1;
      }
    }

    /** metasim_rpc_handle_sum: a fresh tree for the root named in the request.  If its
        memory is missing the handler goes on without children.  If calloc fails in
        sum_forward, what is replied is undefined (None). */
    method HandleSum(in_: SumIn, treeMemory: bool, memory: bool, calls: Calls)
      returns (reply: Option<int32>, sent: seq<Msg>)
      requires Valid() && 0 <= in_.root < nranks
      requires calls.For(if treeMemory then |TreeFor(nranks as int, in_.root as int).Children(rank as int)| else 0)
      requires SumsFit(rank as int, in_.seed as int, calls.reply)
      ensures var kids := if treeMemory then TreeFor(nranks as int, in_.root as int).Children(rank as int) else [];
              if kids != [] && !memory then reply == None && sent == [] else
              && reply != None && |sent| <= |kids|
              && (forall i | 0 <= i < |sent| :: sent[i] == Request(kids[i], in_.root as int, in_.seed as int))
              && Outcome(|kids|, rank as int, in_.seed as int, calls, |sent|, Got(|kids|, calls),
                         Got(|kids|, calls) < |kids|, reply.value as int)
    {
      var tree := new Tree();
      var ret := tree.Init(rank, nranks, in_.root, DEGREE as int32, treeMemory);
      ret, reply, sent := SumForward(tree, in_, calls, memory);
    }

    /** metasim_rpc_invoke_sum: the cached tree, with this rank as root.  *sum is written
        only on success; with the childless tree that is a sum of one rank. */
    method InvokeSum(seed: int32, memory: bool, calls: Calls) returns (ret: int32, sum: Option<int32>, sent: seq<Msg>)
      requires Valid()
      requires calls.For(if HasTree() then |CachedChildren(nranks as int, rank as int)| else 0)
      requires SumsFit(rank as int, seed as int, calls.reply)
      ensures var kids := if HasTree() then CachedChildren(nranks as int, rank as int) else [];
              if kids != [] && !memory then ret == ENOMEM && sum == None && sent == [] else
              var got := Got(|kids|, calls);
              && |sent| <= |kids|
              && (forall i | 0 <= i < |sent| :: sent[i] == Request(kids[i], rank as int, seed as int))
              && Progress(|kids|, calls, |sent|, got) && (ret == 0 <==> got == |kids|)
              && ret == (if |sent| < |kids|
                         then if calls.handle[|sent|] != 0 then calls.handle[|sent|] else calls.forward[|sent|]
                         else if got < |kids| then calls.wait[got]
                         else 0)
              && (sum == None <==> ret != 0)
              && (sum.Some? ==> sum.value as int == Total(calls.reply[..|kids|]) + (rank as int + seed as int))
    {
      var in_ := SumIn(rank, seed);
      var out;
      ret, out, sent := SumForward(bcastTree, in_, calls, memory);
      sum := if ret != 0 then None else out;
    }

    /** metasim_listener_handle_sum: the client gets the sum, or -1 with the error code. */
    method HandleClientSum(seed: int32, memory: bool, calls: Calls) returns (ret: int32, answer: int32)
      requires Valid()
      requires calls.For(if HasTree() then |CachedChildren(nranks as int, rank as int)| else 0)
      requires SumsFit(rank as int, seed as int, calls.reply)
      ensures var kids := if HasTree() then CachedChildren(nranks as int, rank as int) else [];
              && (ret == 0 <==> (kids == [] || memory) && Got(|kids|, calls) == |kids|)
              && answer as int == if ret != 0 then -1
                                  else Total(calls.reply[..|kids|]) + (rank as int + seed as int)
    {
      var sum, sent;
      ret, sum, sent := InvokeSum(seed, memory, calls);
      answer := if ret != 0 then -1 else sum.value;
    }
  }
}
