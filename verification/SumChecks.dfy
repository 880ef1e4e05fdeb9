/** The step machine against the imperative code: what sum_forward computes, and the width
    of the C integers it computes in. */
module SumChecks {
  import opened Int32
  import opened RankSums
  import opened SumProtocol
  import opened SumInvariant
  import opened SumResult
  import opened SumServer

  /* ---------- sums stay in range ---------- */

  /** For this many ranks and this seed all subset sums are C integers: the closed form
      of the positive part of the seed fits, and so do the negative parts alone. */
  predicate RangeFits(ranks: nat, seed: int) {
    && Fits(ClosedForm(ranks, if seed < 0 then 0 else seed))
    && Fits(ranks * if seed < 0 then seed else 0)
    && (ranks >= 1 ==> Fits(ranks - 1 + seed) && Fits(seed))
  }

  /** For seed >= 0 all of that follows from the final total being representable. */
  lemma TotalFitsSuffices(ranks: nat, seed: int)
    requires seed >= 0 && ranks >= 1 && Fits(ClosedForm(ranks, seed))
    ensures RangeFits(ranks, seed)
  {
    SumBounds({}, ranks - 1, seed);
    SumOfNone({}, ranks - 1, seed);
    assert ranks * (ranks - 1) == (ranks - 1) * (ranks - 2) + 2 * (ranks - 1);
    assert ranks * seed == (ranks - 1) * seed + seed;
  }

  /** Every accumulator value any handler ever holds, and every value it adds to it, is a
      C integer: whatever partial sum a handler holds is a sum over some set of ranks. */
  lemma AccumulatorsFit(o: Op, r: int)
    requires Inv(o) && r in o.handlers && RangeFits(o.ranks, o.seed)
    ensures Fits(o.handlers[r].sum) && Fits(r + o.seed)
    ensures !Replied(o, r) ==> Fits(o.handlers[r].sum + (r + o.seed))
  {
    assert HandlerOk(o, r) && SumOk(o, r);
    if Replied(o, r) {
      ResultIsPartialSum(o, r);
      SumBounds(Coverage(o, r), o.ranks, o.seed);
    } else {
      var got := o.handlers[r].got;
      CollectedSum(o, r, got);
      CoverageSplits(o, r);
      var below := BelowFirst(o, r, got);
      SumOfDisjoint({r}, below, o.ranks, o.seed);
      SumOfOne(r, o.ranks, o.seed);
      SumBounds(below, o.ranks, o.seed);
      SumBounds({r} + below, o.ranks, o.seed);
    }
  }

  ghost predicate ResultsFit(o: Op) {
    forall c :: Fits(ResultOf(o, c))
  }

  lemma ResultsStayInRange(o: Op)
    requires Inv(o) && RangeFits(o.ranks, o.seed)
    ensures ResultsFit(o)
  {
    forall c ensures Fits(ResultOf(o, c)) {
      if c in o.handlers { AccumulatorsFit(o, c); }
    }
  }

  /* ---------- a handler is a run of sum_forward ---------- */

  /** The answers of the environment that handler r met: its requests were sent up to
      `sent`, its waits returned up to `got`, and the replies collected carried these sums. */
  ghost function CallsOf(o: Op, r: int): Calls
    requires r in o.handlers && ResultsFit(o)
  {
    var h := o.handlers[r];
    var m := |h.kids|;
    Calls(seq(m, i => if i < h.sent then 0 else 1), seq(m, _ => 0),
          seq(m, i => if i < h.got then 0 else 1),
          seq(m, i requires 0 <= i < m => if i < h.got then ResultOf(o, h.kids[i]) as int32 else 0))
  }

  lemma {:induction false} TotalIsCollected(o: Op, r: int, n: nat)
    requires r in o.handlers && ResultsFit(o)
    requires n <= |o.handlers[r].kids| && o.handlers[r].got <= |o.handlers[r].kids|
    ensures var h := o.handlers[r];
            Total(CallsOf(o, r).reply[..n]) == Collected(o, h.kids, if n < h.got then n else h.got)
  {
    if n > 0 {
      TotalIsCollected(o, r, n - 1);
      assert CallsOf(o, r).reply[..n][..n - 1] == CallsOf(o, r).reply[..n - 1];
    }
  }

  /** What r has after collecting m results is a sum over some ranks, without r's own. */
  lemma PrefixFits(o: Op, r: int, m: nat)
    requires Inv(o) && r in o.handlers && RangeFits(o.ranks, o.seed) && m <= o.handlers[r].got
    ensures m <= |o.handlers[r].kids|
    ensures Fits(Collected(o, o.handlers[r].kids, m)) && Fits(Collected(o, o.handlers[r].kids, m) + (r + o.seed))
  {
    assert HandlerOk(o, r);
    CollectedSum(o, r, m);
    CoverageSplits(o, r);
    var below := BelowFirst(o, r, m);
    assert r !in below by { FewerBelow(o, r, m); }
    SumOfDisjoint({r}, below, o.ranks, o.seed);
    SumOfOne(r, o.ranks, o.seed);
    SumBounds(below, o.ranks, o.seed);
    SumBounds({r} + below, o.ranks, o.seed);
  }

  lemma FewerBelow(o: Op, r: int, m: nat)
    requires o.Valid() && r in o.handlers && HandlerOk(o, r) && m <= o.handlers[r].got <= |o.Tree().Children(r)|
    ensures BelowFirst(o, r, m) <= BelowFirst(o, r, o.handlers[r].got)
  {
    forall x | x in BelowFirst(o, r, m) ensures x in BelowFirst(o, r, o.handlers[r].got) {
      assert ViaFirst(o, r, m, x);
      assert ViaFirst(o, r, o.handlers[r].got, x);
    }
  }

  /** Every handler that returned did exactly what sum_forward does with the answers it
      met: same number of requests, same results collected, same error, same sum; and
      sum_forward stays within C integers on them if the sums over ranks do. */
  lemma HandlerIsSumForward(o: Op, r: int)
    requires Inv(o) && Replied(o, r) && RangeFits(o.ranks, o.seed)
    ensures ResultsFit(o)
    ensures var h := o.handlers[r];
            && CallsOf(o, r).For(|h.kids|) && SumsFit(r, h.seed, CallsOf(o, r).reply)
            && Outcome(|h.kids|, r, h.seed, CallsOf(o, r), h.sent, h.got, h.phase.failed, h.sum)
  {
    ResultsStayInRange(o);
    assert HandlerOk(o, r) && SumOk(o, r);
    var h, replies := o.handlers[r], CallsOf(o, r).reply;
    TotalIsCollected(o, r, h.got);
    AccumulatorsFit(o, r);
    forall j | 0 <= j <= |replies| ensures Fits(Total(replies[..j])) && Fits(Total(replies[..j]) + (r + h.seed)) {
      TotalIsCollected(o, r, j);
      PrefixFits(o, r, if j < h.got then j else h.got);
    }
  }

  /** The machine's handlers send what the code sends: the next request goes to the next
      child of the sending rank in the operation's tree and names its root and seed. */
  lemma MachineSends(o: Op, r: int)
    requires Inv(o) && Enabled(o, Forward(r))
    ensures var i := o.handlers[r].sent;
            && o.Tree().IsRank(r) && i < |TreeFor(o.ranks, o.root).Children(r)|
            && Apply(o, Forward(r)).net
               == o.net + multiset{Msg.Request(TreeFor(o.ranks, o.root).Children(r)[i], o.root, o.seed)}
  {
    assert HandlerOk(o, r);
  }

  /** What the client receives in the machine is what the listener's code answers for the
      replies and failures the invoker met. */
  lemma ReceivedIsAnswer(o: Op)
    requires Inv(o) && o.Finished() && RangeFits(o.ranks, o.seed)
    ensures ResultsFit(o) && CallsOf(o, o.root).For(|o.handlers[o.root].kids|)
    ensures var m, calls := |o.handlers[o.root].kids|, CallsOf(o, o.root);
            Received(o) == if Got(m, calls) == m then Total(calls.reply[..m]) + (o.root + o.seed) else -1
  {
    HandlerIsSumForward(o, o.root);
    assert HandlerOk(o, o.root);
    var h := o.handlers[o.root];
    ProgressIs(|h.kids|, CallsOf(o, o.root), h.sent, h.got);
  }
}
