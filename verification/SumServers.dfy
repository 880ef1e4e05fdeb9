/** All servers together: any number of sum operations, from any roots, at once. */
module SumServers {
  import opened Arith
  import opened RankSums
  import opened SumProtocol
  import opened SumInvariant
  import opened SumResult
  import opened SumProgress
  import opened SumLoad

  /** ops: every operation invoked so far, finished or not. */
  datatype Servers = Servers(ranks: int, ops: seq<Op>)

  datatype Event =
    | Begin(root: int, seed: int, tree: bool) // some rank invokes a sum, with its cached tree or without memory for it
    | Step(op: int, action: Action)           // one step of one operation, failures included

  predicate Possible(s: Servers, e: Event) {
    match e
    case Begin(root, _, _) => TreeFor(s.ranks, root).Valid()
    case Step(i, a) => 0 <= i < |s.ops| && Enabled(s.ops[i], a)
  }

  function Next(s: Servers, e: Event): Servers
    requires Possible(s, e)
  {
    match e
    case Begin(root, seed, tree) => s.(ops := s.ops + [Invoke(s.ranks, root, seed, tree)])
    case Step(i, a) => s.(ops := s.ops[i := Apply(s.ops[i], a)])
  }

  ghost predicate AllInv(s: Servers) {
    forall i | 0 <= i < |s.ops| :: s.ops[i].ranks == s.ranks && Inv(s.ops[i])
  }

  lemma NextInv(s: Servers, e: Event)
    requires AllInv(s) && Possible(s, e)
    ensures AllInv(Next(s, e))
  {
    match e
    case Begin(root, seed, tree) => InvokeInv(s.ranks, root, seed, tree);
    case Step(i, a) =>
      StepInv(s.ops[i], a);
      ApplyKeepsInput(s.ops[i], a);
  }

  /* ---------- runs of the servers ---------- */

  predicate CanServe(s: Servers, es: seq<Event>)
    decreases |es|
  {
    es == [] || (Possible(s, es[0]) && CanServe(Next(s, es[0]), es[1..]))
  }

  function Serve(s: Servers, es: seq<Event>): Servers
    requires CanServe(s, es)
    decreases |es|
  {
    if es == [] then s else Serve(Next(s, es[0]), es[1..])
  }

  lemma {:induction false} ServeInv(s: Servers, es: seq<Event>)
    requires AllInv(s) && CanServe(s, es)
    ensures AllInv(Serve(s, es)) && Serve(s, es).ranks == s.ranks
    decreases |es|
  {
    if es != [] {
      NextInv(s, es[0]);
      ServeInv(Next(s, es[0]), es[1..]);
    }
  }

  /** However operations overlap and fail, every value any rank returns is the sum over a
      path-closed set of ranks of its subtree. */
  lemma EveryConcurrentValueIsPartialSum(ranks: int, es: seq<Event>, i: int, r: int)
    requires CanServe(Servers(ranks, []), es)
    requires 0 <= i < |Serve(Servers(ranks, []), es).ops| && Replied(Serve(Servers(ranks, []), es).ops[i], r)
    ensures var o := Serve(Servers(ranks, []), es).ops[i];
            o.ranks == ranks && o.Valid() &&
            exists s :: PathClosed(o.Tree(), r, s) && o.handlers[r].sum == SumOver(s, ranks, o.seed)
  {
    ServeInv(Servers(ranks, []), es);
    ResultCoversAPath(Serve(Servers(ranks, []), es).ops[i], r);
  }

  /** Operation i has its tree and none of its own steps is a failure. */
  predicate CleanFor(s: Servers, es: seq<Event>, i: int)
    requires CanServe(s, es)
    decreases |es|
  {
    es == [] || (CleanEvent(s, es[0], i) && CleanFor(Next(s, es[0]), es[1..], i))
  }

  predicate CleanEvent(s: Servers, e: Event, i: int) {
    match e
    case Begin(_, _, tree) => i == |s.ops| ==> tree
    case Step(k, a) => k == i ==> !IsFailure(a)
  }

  lemma {:induction false} ServeHealthy(s: Servers, es: seq<Event>, i: nat)
    requires AllInv(s) && CanServe(s, es) && CleanFor(s, es, i)
    requires i < |s.ops| ==> Healthy(s.ops[i])
    ensures AllInv(Serve(s, es)) && Serve(s, es).ranks == s.ranks
    ensures i < |Serve(s, es).ops| ==> Healthy(Serve(s, es).ops[i])
    decreases |es|
  {
    if es != [] {
      NextInv(s, es[0]);
      NextHealthy(s, es[0], i);
      ServeHealthy(Next(s, es[0]), es[1..], i);
    }
  }

  lemma NextHealthy(s: Servers, e: Event, i: nat)
    requires AllInv(s) && Possible(s, e) && CleanEvent(s, e, i)
    requires i < |s.ops| ==> Healthy(s.ops[i])
    ensures i < |Next(s, e).ops| ==> Next(s, e).ops[i].Valid() && Healthy(Next(s, e).ops[i])
  {
    match e
    case Begin(root, seed, tree) =>
      if i == |s.ops| { InvokeHealthy(s.ranks, root, seed); }
    case Step(k, a) =>
      if k == i { StepHealthy(s.ops[i], a); }
  }

  /** However operations overlap, one that meets no failure itself returns its closed form,
      whatever happens to the others. */
  lemma EveryConcurrentSumIsExact(ranks: int, es: seq<Event>, i: nat)
    requires CanServe(Servers(ranks, []), es) && CleanFor(Servers(ranks, []), es, i)
    requires i < |Serve(Servers(ranks, []), es).ops| && Serve(Servers(ranks, []), es).ops[i].Finished()
    ensures var o := Serve(Servers(ranks, []), es).ops[i];
            && o.Valid() && o.handlers[o.root].phase == Returned(false)
            && o.handlers[o.root].sum == ClosedForm(ranks, o.seed)
  {
    ServeHealthy(Servers(ranks, []), es, i);
    HealthyResult(Serve(Servers(ranks, []), es).ops[i]);
  }

  /** No set of overlapping operations blocks itself, whatever failed before: while one is
      not settled, the servers can take a step that is not a failure. */
  lemma ServersNeverStuck(ranks: int, es: seq<Event>)
    requires CanServe(Servers(ranks, []), es)
    ensures var s := Serve(Servers(ranks, []), es);
            (exists i :: 0 <= i < |s.ops| && !Settled(s.ops[i]))
            ==> exists e: Event :: e.Step? && Possible(s, e) && !IsFailure(e.action)
  {
    var s := Serve(Servers(ranks, []), es);
    ServeInv(Servers(ranks, []), es);
    if i :| 0 <= i < |s.ops| && !Settled(s.ops[i]) {
      NeverStuck(s.ops[i]);
      var a :| Enabled(s.ops[i], a) && !IsFailure(a);
      var e := Step(i, a);
      assert Possible(s, e);
    }
  }

  /* ---------- termination of all operations together ---------- */

  function Budgets(ops: seq<Op>): nat {
    SumNonNegative(EachBudget(ops));
    Sum(EachBudget(ops))
  }

  function EachBudget(ops: seq<Op>): seq<int> {
    seq(|ops|, i requires 0 <= i < |ops| => Budget(ops[i]))
  }

  function Begins(es: seq<Event>): nat {
    if es == [] then 0 else (if es[0].Begin? then 1 else 0) + Begins(es[1..])
  }

  /** A step costs at least 1; invoking an operation brings in at most 9n. */
  lemma NextBudget(s: Servers, e: Event)
    requires AllInv(s) && Possible(s, e)
    ensures e.Step? ==> Budgets(Next(s, e).ops) + 1 <= Budgets(s.ops)
    ensures e.Begin? ==> Budgets(Next(s, e).ops) <= Budgets(s.ops) + s.ranks * FULL
  {
    match e
    case Begin(root, seed, tree) =>
      var o := Invoke(s.ranks, root, seed, tree);
      InvokeBudget(s.ranks, root, seed, tree);
      SumOneMore(EachBudget(s.ops), Budget(o));
      assert EachBudget(s.ops + [o]) == EachBudget(s.ops) + [Budget(o)];
    case Step(i, a) =>
      var o := Apply(s.ops[i], a);
      StepUsesBudget(s.ops[i], a);
      SumDiffers(EachBudget(s.ops), EachBudget(s.ops[i := o]), i);
  }

  lemma {:induction false} ServeUsesBudget(s: Servers, es: seq<Event>, perOp: nat)
    requires AllInv(s) && CanServe(s, es) && s.ranks * FULL + 1 <= perOp
    ensures |es| <= Budgets(s.ops) + Begins(es) * perOp
    decreases |es|
  {
    if es != [] {
      NextInv(s, es[0]);
      NextBudget(s, es[0]);
      ServeUsesBudget(Next(s, es[0]), es[1..], perOp);
      OneMoreTime(Begins(es[1..]), perOp);
    }
  }

  /** With M operations invoked, a run of the servers has at most M*(9n+1) steps. */
  lemma EveryConcurrentRunEnds(ranks: int, es: seq<Event>)
    requires CanServe(Servers(ranks, []), es) && ranks >= 0
    ensures |es| <= Begins(es) * (ranks * 9 + 1)
  {
    ServeUsesBudget(Servers(ranks, []), es, ranks * FULL + 1);
  }

  /* ---------- load ---------- */

  function InFlight(s: Servers): set<int> {
    set i | 0 <= i < |s.ops| && !s.ops[i].Finished()
  }

  /** The operations that occupy server r: their handler there has not returned. */
  function LiveAt(s: Servers, r: int): set<int> {
    set i | 0 <= i < |s.ops| && r in s.ops[i].handlers && !s.ops[i].handlers[r].phase.Returned?
  }

  lemma SubsetSize<T>(a: set<T>, b: set<T>)
    requires a <= b
    ensures |a| <= |b|
  {
    if x :| x in a {
      SubsetSize(a - {x}, b - {x});
    }
  }

  ghost predicate AllTidy(s: Servers) {
    forall i | 0 <= i < |s.ops| :: Tidy(s.ops[i])
  }

  /** While no handler has returned before the ranks it asked, no server holds more live
      activations than there are operations in flight. */
  lemma LoadBound(s: Servers, r: int)
    requires AllInv(s) && AllTidy(s)
    ensures LiveAt(s, r) <= InFlight(s) && |LiveAt(s, r)| <= |InFlight(s)|
  {
    forall i | i in LiveAt(s, r) ensures i in InFlight(s) {
      if s.ops[i].Finished() { NothingLeftIffTidy(s.ops[i]); }
    }
    SubsetSize(LiveAt(s, r), InFlight(s));
  }

  predicate HarmlessEvent(s: Servers, e: Event)
    requires Possible(s, e)
  {
    e.Step? ==> Harmless(s.ops[e.op], e.action)
  }

  predicate HarmlessEvents(s: Servers, es: seq<Event>)
    requires CanServe(s, es)
    decreases |es|
  {
    es == [] || (HarmlessEvent(s, es[0]) && HarmlessEvents(Next(s, es[0]), es[1..]))
  }

  lemma NextTidy(s: Servers, e: Event)
    requires AllInv(s) && AllTidy(s) && Possible(s, e) && HarmlessEvent(s, e)
    ensures AllTidy(Next(s, e))
  {
    if e.Step? { StepTidy(s.ops[e.op], e.action); }
  }

  lemma {:induction false} ServeTidy(s: Servers, es: seq<Event>)
    requires AllInv(s) && AllTidy(s) && CanServe(s, es) && HarmlessEvents(s, es)
    ensures AllInv(Serve(s, es)) && AllTidy(Serve(s, es))
    decreases |es|
  {
    if es != [] {
      NextInv(s, es[0]);
      NextTidy(s, es[0]);
      ServeTidy(Next(s, es[0]), es[1..]);
    }
  }

  /** The load bound, in every run whose failures are harmless. */
  lemma LoadBoundInEveryRun(ranks: int, es: seq<Event>, r: int)
    requires CanServe(Servers(ranks, []), es) && HarmlessEvents(Servers(ranks, []), es)
    ensures var s := Serve(Servers(ranks, []), es); |LiveAt(s, r)| <= |InFlight(s)|
  {
    ServeTidy(Servers(ranks, []), es);
    LoadBound(Serve(Servers(ranks, []), es), r);
  }

  /* ---------- and no further ---------- */

  predicate NoFailures(es: seq<Event>) {
    forall k | 0 <= k < |es| :: es[k].Step? && !IsFailure(es[k].action)
  }

  /** The actions as steps of operation i. */
  function StepsOf(i: int, acts: seq<Action>): seq<Event> {
    seq(|acts|, k requires 0 <= k < |acts| => Step(i, acts[k]))
  }

  lemma {:induction false} ServeSteps(s: Servers, i: int, acts: seq<Action>)
    requires 0 <= i < |s.ops| && CanRun(s.ops[i], acts)
    ensures CanServe(s, StepsOf(i, acts))
    ensures Serve(s, StepsOf(i, acts)) == s.(ops := s.ops[i := Run(s.ops[i], acts)])
    decreases |acts|
  {
    if acts != [] {
      var s' := Next(s, Step(i, acts[0]));
      ServeSteps(s', i, acts[1..]);
      assert StepsOf(i, acts)[1..] == StepsOf(i, acts[1..]);
      assert s'.ops[i := Run(s'.ops[i], acts[1..])] == s.ops[i := Run(s.ops[i], acts)];
    } else {
      assert s.ops[i := Run(s.ops[i], acts)] == s.ops;
    }
  }

  lemma {:induction false} ServeBoth(s: Servers, es: seq<Event>, es': seq<Event>)
    requires CanServe(s, es) && CanServe(Serve(s, es), es')
    ensures CanServe(s, es + es') && Serve(s, es + es') == Serve(Serve(s, es), es')
    decreases |es|
  {
    if es == [] {
      assert es + es' == es';
    } else {
      ServeBoth(Next(s, es[0]), es[1..], es');
      assert (es + es')[1..] == es[1..] + es';
    }
  }

  lemma {:induction false} NoFailuresHarmless(s: Servers, es: seq<Event>)
    requires CanServe(s, es) && NoFailures(es)
    ensures HarmlessEvents(s, es)
    decreases |es|
  {
    if es != [] {
      assert es[0].Step? && !IsFailure(es[0].action);
      forall k | 0 <= k < |es[1..]| ensures es[1..][k].Step? && !IsFailure(es[1..][k].action) {
        assert es[1..][k] == es[k + 1];
      }
      NoFailuresHarmless(Next(s, es[0]), es[1..]);
    }
  }

  /** Operation k can be brought to its end; the others stay, and so does a finished one. */
  lemma FinishOne(s: Servers, k: nat) returns (es: seq<Event>)
    requires AllInv(s) && k < |s.ops|
    ensures CanServe(s, es) && NoFailures(es) && OnlyFinishes(s, Serve(s, es), k)
  {
    var acts := CanFinish(s.ops[k]);
    es := StepsOf(k, acts);
    ServeSteps(s, k, acts);
    ServeInv(s, es);
  }

  ghost predicate OnlyFinishes(s: Servers, s': Servers, k: nat) {
    && AllInv(s') && k < |s.ops| == |s'.ops| && s'.ops == s.ops[k := s'.ops[k]]
    && s'.ops[k].Finished() && (s.ops[k].Finished() ==> s'.ops[k] == s.ops[k])
  }

  /** The first n operations have come to their ends, which the finished ones had before. */
  ghost predicate Drained(s: Servers, s': Servers, n: nat) {
    && AllInv(s') && n <= |s.ops| == |s'.ops|
    && (forall k | 0 <= k < n :: s'.ops[k].Finished())
    && (forall k | 0 <= k < |s.ops| && s.ops[k].Finished() :: s'.ops[k] == s.ops[k])
  }

  /** The first n operations can be brought to their ends. */
  lemma {:induction false} Drain(s: Servers, n: nat) returns (es: seq<Event>)
    requires AllInv(s) && n <= |s.ops|
    ensures CanServe(s, es) && NoFailures(es) && Drained(s, Serve(s, es), n)
  {
    if n == 0 {
      es := [];
    } else {
      var before := Drain(s, n - 1);
      var last := FinishOne(Serve(s, before), n - 1);
      ServeBoth(s, before, last);
      es := before + last;
      DrainedOneMore(s, Serve(s, before), Serve(s, es), n);
    }
  }

  lemma DrainedOneMore(s: Servers, s': Servers, s'': Servers, n: nat)
    requires n > 0 && Drained(s, s', n - 1) && OnlyFinishes(s', s'', n - 1)
    ensures Drained(s, s'', n)
  {
  }

  /** An operation that is not tidy comes to its end while its handler at r is at work. */
  lemma UntidyOccupies(s: Servers, i: int) returns (es: seq<Event>, r: int)
    requires AllInv(s) && 0 <= i < |s.ops| && !Tidy(s.ops[i])
    ensures CanServe(s, es) && NoFailures(es)
    ensures var s' := Serve(s, es);
            AllInv(s') && 0 <= i < |s'.ops| && s'.ops[i].Finished() && i in LiveAt(s', r)
  {
    var acts;
    acts, r := UntidyLeavesHandler(s.ops[i]);
    ServeSteps(s, i, acts);
    es := StepsOf(i, acts);
    ServeInv(s, es);
  }

  /** Then, without failures, the servers can come to a state with no operation in flight
      and a handler at work. */
  lemma UntidyBreaksLoadBound(s: Servers, i: int) returns (es: seq<Event>, r: int)
    requires AllInv(s) && 0 <= i < |s.ops| && !Tidy(s.ops[i])
    ensures CanServe(s, es) && NoFailures(es)
    ensures |InFlight(Serve(s, es))| == 0 < |LiveAt(Serve(s, es), r)|
  {
    var first;
    first, r := UntidyOccupies(s, i);
    var s' := Serve(s, first);
    var rest := Drain(s', |s'.ops|);
    ServeBoth(s, first, rest);
    es := first + rest;
    NoneInFlight(s', Serve(s, es), i, r);
  }

  lemma NoneInFlight(s: Servers, s': Servers, i: int, r: int)
    requires 0 <= i < |s.ops| && s.ops[i].Finished() && i in LiveAt(s, r) && Drained(s, s', |s.ops|)
    ensures |InFlight(s')| == 0 < |LiveAt(s', r)|
  {
    assert InFlight(s') == {};
    assert i in LiveAt(s', r);
  }

  /** A single failure that is not harmless can break the bound, without any other. */
  lemma HarmfulBreaksLoadBound(s: Servers, i: int, a: Action) returns (es: seq<Event>, r: int)
    requires AllInv(s) && Possible(s, Step(i, a)) && !Harmless(s.ops[i], a)
    ensures CanServe(Next(s, Step(i, a)), es) && NoFailures(es)
    ensures var s' := Serve(Next(s, Step(i, a)), es); |InFlight(s')| == 0 < |LiveAt(s', r)|
  {
    NextInv(s, Step(i, a));
    HarmfulUntidy(s.ops[i], a);
    es, r := UntidyBreaksLoadBound(Next(s, Step(i, a)), i);
  }

  predicate Bounded(s: Servers, r: int) {
    |LiveAt(s, r)| <= |InFlight(s)|
  }

  /** The bound holds however the servers go on, if no failure is harmful. */
  ghost predicate BoundFromNowOn(s: Servers) {
    forall es, r | CanServe(s, es) && HarmlessEvents(s, es) :: Bounded(Serve(s, es), r)
  }

  /** The exact condition of the bound: it holds however the servers go on without harmful
      failures if and only if no handler has returned before the ranks it asked. */
  lemma BoundIffTidy(s: Servers)
    requires AllInv(s)
    ensures AllTidy(s) <==> BoundFromNowOn(s)
  {
    if AllTidy(s) {
      forall es, r | CanServe(s, es) && HarmlessEvents(s, es) ensures Bounded(Serve(s, es), r) {
        ServeTidy(s, es);
        LoadBound(Serve(s, es), r);
      }
    } else {
      var i :| 0 <= i < |s.ops| && !Tidy(s.ops[i]);
      var es, r := UntidyBreaksLoadBound(s, i);
      NoFailuresHarmless(s, es);
      assert !Bounded(Serve(s, es), r);
    }
  }

  /** So a step taken while all is tidy is harmless if and only if the bound goes on holding. */
  lemma LoadBoundIffHarmless(s: Servers, i: int, a: Action)
    requires AllInv(s) && AllTidy(s) && Possible(s, Step(i, a))
    ensures Harmless(s.ops[i], a) <==> BoundFromNowOn(Next(s, Step(i, a)))
  {
    var s' := Next(s, Step(i, a));
    NextInv(s, Step(i, a));
    StepTidy(s.ops[i], a);
    assert AllTidy(s') <==> Tidy(s'.ops[i]);
    BoundIffTidy(s');
  }
}
