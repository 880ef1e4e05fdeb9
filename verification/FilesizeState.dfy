/** state_filesize_t and the code that works on it between two RPCs. */
module FilesizeState {
  import opened Int32
  import KaryTree
  import opened RpcTree
  import opened FilesizeProtocol

  /** What filesize_response_forward does besides updating the state. */
  datatype Outcome = Wait | ToParent(parent: int, tag: int, size: int, err: int, reply: bool) | WakeMain | Nothing

  /** filesize_response_forward at rank r: with all responses in, the own size is taken and
      the result goes to the parent with the parent's tag, or wakes the root's main thread
      (which is the caller itself if there is no other rank); else nothing happens. */
  ghost predicate Responds(ranks: int, r: int, before: Obj, after: Obj, parentTag: int, out: Outcome)
    requires TreeOf(ranks, before.par).Valid() && TreeOf(ranks, before.par).IsRank(r)
  {
    var parent := TreeOf(ranks, before.par).Parent(r);
    if before.num != |TreeOf(ranks, before.par).Children(r)| then
      after == before && out == Wait
    else
      && after == OwnSize(before, r)
      && (parent != -1 ==> out == ToParent(parent, parentTag, after.size, after.err, after.par.reply))
      && (parent == -1 ==> out == if ranks > 1 then WakeMain else Nothing)
  }

  /** A state without what the class leaves out. */
  function Plain(obj: Obj): Obj {
    obj.(mutex := NoMutex, freed := false)
  }

  class StateFilesize {
    var root: int32
    var degree: int32
    var tree: Tree
    var reply: bool
    var parentTag: int32
    var tag: int32
    var numResponses: nat
    var filesize: int
    var err: int

    /** The state belongs to rank r of a run on that many ranks. */
    ghost predicate BelongsTo(ranks: int, r: int)
      reads this, tree, tree.childRanks
    {
      tree.IsView(TreeOf(ranks, Par()), r)
    }

    function Par(): Params
      reads this
    {
      Params(root as int, degree as int, reply)
    }

    /** The state as the step machine sees it, its mutex and lifetime aside. */
    ghost function View(): Obj
      reads this
    {
      Obj(Par(), numResponses, filesize, err, NoMutex, false)
    }

    /** state_filesize_alloc, with malloc delivering. */
    constructor Alloc(glbRank: int32, glbRanks: int32, root: int32, degree: int32, reply: bool, ptag: int32, tag: int32)
      requires 1 <= glbRanks && 0 <= glbRank < glbRanks && 0 <= root < glbRanks && 1 <= degree
      requires degree as int * glbRanks as int <= INT_MAX && 2 * glbRanks as int - 2 <= INT_MAX
      ensures this.root == root && this.degree == degree && this.reply == reply
      ensures numResponses == 0 && filesize == 0 && err == 0
      ensures tree.IsView(KaryTree.Topology(glbRanks as int, root as int, degree as int), glbRank as int)
      ensures BelongsTo(glbRanks as int, glbRank as int)
      ensures View() == Obj(Params(root as int, degree as int, reply), 0, 0, 0, NoMutex, false)
      ensures parentTag == ptag && this.tag == tag && fresh(tree) && fresh(tree.childRanks)
    {
      this.root, this.degree, this.reply, parentTag, this.tag := root, degree, reply, ptag, tag;
      numResponses, filesize, err := 0, 0, 0;
      var t := new Tree();
      var ret := t.Init(glbRank, glbRanks, root, degree, true);
      tree := t;
    }

    /** filesize_response_forward, up to the RPC or the wake-up it ends in. */
    method ResponseForward(glbRank: int32, glbRanks: int32) returns (out: Outcome)
      requires 0 <= glbRank && Fits(glbRank as int * 100) && BelongsTo(glbRanks as int, glbRank as int)
      modifies this`filesize
      ensures BelongsTo(glbRanks as int, glbRank as int)
      ensures var full := numResponses == tree.childCount as int;
              && filesize == (if full && glbRank as int * 100 > old(filesize) then glbRank as int * 100
                              else old(filesize))
              && out == (if !full then Wait
                         else if tree.parentRank != -1
                         then ToParent(tree.parentRank as int, parentTag as int, filesize, err, reply)
                         else if glbRanks > 1 then WakeMain else Nothing)
      ensures Responds(glbRanks as int, glbRank as int, old(View()), View(), parentTag as int, out)
    {
      out := Wait;
      if numResponses == tree.childCount as int {
        var own := glbRank * 100;
        if own as int > filesize {
          filesize := own as int;
        }
        if tree.parentRank != -1 {
          out := ToParent(tree.parentRank as int, parentTag as int, filesize, err, reply);
        } else if glbRanks > 1 {
          out := WakeMain;
        } else {
          out := Nothing;
        }
      }
    }

    /** filesize_response_rpc from the lookup of the state on. */
    method TakeResponse(glbRank: int32, glbRanks: int32, size: int, childErr: int) returns (out: Outcome)
      requires 0 <= glbRank && Fits(glbRank as int * 100) && BelongsTo(glbRanks as int, glbRank as int)
      modifies this
      ensures tree == old(tree) && parentTag == old(parentTag) && Par() == old(Par())
      ensures BelongsTo(glbRanks as int, glbRank as int)
      ensures numResponses == old(numResponses) + 1 && err == if childErr != 0 then childErr else old(err)
      ensures filesize >= old(filesize) && filesize >= size
      ensures numResponses == tree.childCount as int ==> filesize >= glbRank as int * 100
      ensures filesize == old(filesize) || filesize == size
              || (filesize == glbRank as int * 100 && numResponses == tree.childCount as int)
      ensures out == if numResponses != tree.childCount as int then Wait
                     else if tree.parentRank != -1
                     then ToParent(tree.parentRank as int, parentTag as int, filesize, err, reply)
                     else if glbRanks > 1 then WakeMain else Nothing
      ensures Responds(glbRanks as int, glbRank as int, Counted(old(View()), size, childErr), View(),
                       parentTag as int, out)
    {
      if size > filesize {
        filesize := size;
      }
      if childErr != 0 {
        err := childErr;
      }
      numResponses := numResponses + 1;
      out := ResponseForward(glbRank, glbRanks);
    }

    /** filesize_request_forward: asks the children in the order of the child list; a leaf
        goes on to respond. */
    method RequestForward(glbRank: int32, glbRanks: int32) returns (sent: seq<Msg>, out: Outcome)
      requires 0 <= glbRank && Fits(glbRank as int * 100) && BelongsTo(glbRanks as int, glbRank as int)
      requires numResponses == 0
      modifies this`filesize
      ensures BelongsTo(glbRanks as int, glbRank as int)
      ensures |sent| == tree.childCount as int
      ensures forall i | 0 <= i < |sent| ::
                sent[i] == Request(tree.childRanks[i] as int, Params(root as int, degree as int, reply))
      ensures var kids := TreeOf(glbRanks as int, Par()).Children(glbRank as int);
              && |sent| == |kids| && (forall i | 0 <= i < |kids| :: sent[i] == Request(kids[i], Par()))
              && (kids != [] ==> out == Wait && View() == old(View()))
              && (kids == [] ==>
                    Responds(glbRanks as int, glbRank as int, old(View()), View(), parentTag as int, out))
    {
      sent, out := [], Wait;
      ghost var kids := TreeOf(glbRanks as int, Par()).Children(glbRank as int);
      var i: int32 := 0;
      while i < tree.childCount
        invariant 0 <= i <= tree.childCount && |sent| == i as int
        invariant forall j | 0 <= j < i as int :: sent[j] == Request(kids[j], Par())
        invariant forall j | 0 <= j < i as int :: tree.childRanks[j] as int == kids[j]
      {
        var child := tree.childRanks[i as int];
        sent := sent + [Request(child as int, Params(root as int, degree as int, reply))];
        i := i + 1;
      }
      if tree.childCount == 0 {
        out := ResponseForward(glbRank, glbRanks);
      }
    }
  }

  /** The root's state for a new reduction, as main allocates it. */
  method AllocAtRoot(glbRanks: int32, root: int32, degree: int32, reply: bool) returns (st: StateFilesize)
    requires 1 <= glbRanks && 0 <= root < glbRanks && 1 <= degree
    requires degree as int * glbRanks as int <= INT_MAX && 2 * glbRanks as int - 2 <= INT_MAX
    ensures fresh(st) && st.BelongsTo(glbRanks as int, root as int)
    ensures var s := Setup(glbRanks as int, Params(root as int, degree as int, reply));
            NewOp(s).heap.Keys == {root as int} && st.View() == Plain(NewOp(s).heap[root as int])
  {
    st := new StateFilesize.Alloc(root, glbRanks, root, degree, reply, -1, root);
  }

  /** A rank's state for a request that reached it, as filesize_request_rpc allocates it. */
  method AllocForRequest(glbRank: int32, glbRanks: int32, root: int32, degree: int32, reply: bool, ptag: int32,
                         ghost o: Op)
    returns (st: StateFilesize)
    requires 1 <= glbRanks && 0 <= glbRank < glbRanks && 0 <= root < glbRanks && 1 <= degree
    requires degree as int * glbRanks as int <= INT_MAX && 2 * glbRanks as int - 2 <= INT_MAX
    requires At(o, ReqT(glbRank as int), Pc.Alloc(Params(root as int, degree as int, reply)))
    ensures fresh(st) && st.BelongsTo(glbRanks as int, glbRank as int)
    ensures CanDo(glbRanks as int, o, Allocate(glbRank as int))
    ensures var o' := DoLocal(glbRanks as int, o, Allocate(glbRank as int));
            glbRank as int in o'.heap && st.View() == Plain(o'.heap[glbRank as int])
  {
    st := new StateFilesize.Alloc(glbRank, glbRanks, root, degree, reply, ptag, glbRank);
  }

  /* ---------- the step machine does the same ---------- */

  /** What an outcome means in the step machine: the message posted, the thread started. */
  ghost predicate Effect(ranks: int, o: Op, o': Op, r: int, out: Outcome) {
    match out
    case Wait => o'.threads == o.threads && o'.net == o.net
    case ToParent(parent, _, size, err, reply) =>
      && r in o.heap && TreeOf(ranks, o.heap[r].par).Valid() && TreeOf(ranks, o.heap[r].par).IsRank(r)
      && parent == TreeOf(ranks, o.heap[r].par).Parent(r) // where the response will be handled
      && o'.threads == o.threads[UpT(r) := if reply then AwaitRespAck else Free]
      && o'.net == o.net + multiset{Msg.Response(r, size, err, reply)}
    case WakeMain => o'.threads == o.threads[UpT(r) := Lock] && o'.net == o.net
    case Nothing => o'.threads == o.threads[UpT(r) := Done] && o'.net == o.net
  }

  /** Only r's state differs, and not in mutex and lifetime; it is `after` otherwise. */
  ghost predicate StateBecomes(o: Op, o': Op, r: int, after: Obj) {
    && r in o.heap && r in o'.heap && o'.heap == o.heap[r := o'.heap[r]]
    && o'.heap[r].mutex == o.heap[r].mutex && o'.heap[r].freed == o.heap[r].freed
    && Plain(o'.heap[r]) == after
  }

  /** Whatever meets the contract of ResponseForward does what the machine does. */
  lemma MachineResponds(ranks: int, o: Op, r: int, after: Obj, parentTag: int, out: Outcome)
    requires HasState(ranks, o, r) && Responds(ranks, r, Plain(o.heap[r]), after, parentTag, out)
    ensures Effect(ranks, o, ResponseForward(ranks, o, r), r, out)
    ensures StateBecomes(o, ResponseForward(ranks, o, r), r, after)
  {
    if o.heap[r].num == |Kids(ranks, o, r)| {
      assert Plain(OwnSize(o.heap[r], r)) == OwnSize(Plain(o.heap[r]), r);
    }
  }

  /** Likewise TakeResponse and the machine's handler of a response after its reply. */
  lemma MachineTakesResponse(
      ranks: int, o: Op, p: int, size: int, err: int, after: Obj, parentTag: int, out: Outcome)
    requires HasState(ranks, o, p)
    requires Responds(ranks, p, Counted(Plain(o.heap[p]), size, err), after, parentTag, out)
    ensures Effect(ranks, o, CountResponse(ranks, o, p, size, err), p, out)
    ensures StateBecomes(o, CountResponse(ranks, o, p, size, err), p, after)
  {
    var counted := Store(o, p, Counted(o.heap[p], size, err));
    assert Plain(counted.heap[p]) == Counted(Plain(o.heap[p]), size, err);
    MachineResponds(ranks, counted, p, after, parentTag, out);
  }

  /** Likewise the end of RequestForward at a leaf. */
  lemma MachineEndsForward(ranks: int, o: Op, r: int, after: Obj, parentTag: int, out: Outcome)
    requires CanDo(ranks, o, EndForward(r)) && Kids(ranks, o, r) == []
    requires Responds(ranks, r, Plain(o.heap[r]), after, parentTag, out)
    ensures var o' := DoLocal(ranks, o, EndForward(r));
            Effect(ranks, Goto(o, ReqT(r), Done), o', r, out) && StateBecomes(o, o', r, after)
  {
    MachineResponds(ranks, Goto(o, ReqT(r), Done), r, after, parentTag, out);
  }
}
