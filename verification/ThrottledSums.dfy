/** The benchmark end to end: client ranks that run their schedules in step at the MPI
    barriers, and the servers that carry out their sums. */
module ThrottledSums {
  import opened Arith
  import opened RankSums
  import opened SumProtocol
  import SumInvariant
  import SumProgress
  import SumResult
  import opened SumServers
  import opened Throttle

  /** Where a client is in its schedule: about to do the next event, waiting in the
      barrier that is its next event, or inside the call that is its next event. */
  datatype ClientState = Ready | AtBarrier | Calling(op: nat)
  datatype Client = Client(pos: nat, state: ClientState)

  /** home[c] is the server of client c. */
  datatype Setup = Setup(servers: int, limited: int, repeat: nat, home: seq<int>) {
    ghost predicate Valid() {
      servers >= 1 && limited >= 1 && |home| >= 1 && forall c | 0 <= c < |home| :: 0 <= home[c] < servers
    }

    /** The rounds of a repeat: room for all clients, and not with one fewer. */
    function RoundsEach(): (rounds: int)
      requires Valid()
      ensures rounds >= 1 && (rounds - 1) * limited < |home| <= rounds * limited
    {
      RoundsAreLeast(|home|, limited, Rounds(|home|, limited));
      RoundsAreLeast(|home|, limited, Rounds(|home|, limited) - 1);
      Rounds(|home|, limited)
    }

    /** What do_sum_limited does at client c. */
    function Log(c: int): seq<Throttle.Event>
      requires Valid()
    {
      Schedule(c, RoundsEach(), repeat)
    }
  }

  /** The schedule of client c is what do_sum_limited does at that rank. */
  method LimitedAt(u: Setup, c: int) returns (log: seq<Throttle.Event>)
    requires u.Valid() && 0 <= c < |u.home|
    ensures log == u.Log(c)
  {
    RoundsAreLeast(|u.home|, u.limited, 1);
    log := DoSumLimited(c, |u.home|, u.repeat, u.limited);
  }

  datatype World = World(clients: seq<Client>, servers: Servers)

  datatype Move =
    | Arrive(c: int)             // enters the barrier
    | Pass(c: int)               // leaves it, all clients having entered
    | Omit(c: int)               // it is not this client's round
    | Call(c: int, tree: bool)   // metasim_invoke_sum: its server starts a sum
    | Return(c: int)             // the call returns, with success or an error
    | Give(c: int)               // MPI_Gather at the other clients: sends its time
    | Take                       // MPI_Gather at client 0: has all times
    | Work(op: int, action: Action) // the servers take a step

  predicate IsNext(u: Setup, w: World, c: int, state: ClientState, e: Throttle.Event)
    requires u.Valid()
  {
    && 0 <= c < |w.clients|
    && w.clients[c].state == state && w.clients[c].pos < |u.Log(c)| && u.Log(c)[w.clients[c].pos] == e
  }

  /** Client d has entered barrier b, or is past it. */
  predicate Entered(w: World, d: int, b: nat)
    requires 0 <= d < |w.clients|
  {
    w.clients[d].pos > b || (w.clients[d].pos == b && w.clients[d].state == AtBarrier)
  }

  predicate AllEntered(w: World, b: nat) {
    forall d | 0 <= d < |w.clients| :: Entered(w, d, b)
  }

  /** All clients but 0 have sent their times of the gather at this place. */
  predicate AllGave(w: World, pos: nat) {
    forall d | 0 < d < |w.clients| :: w.clients[d].pos > pos
  }

  predicate CanMove(u: Setup, w: World, m: Move)
    requires u.Valid()
  {
    match m
    case Arrive(c) => IsNext(u, w, c, Ready, Barrier)
    case Pass(c) => IsNext(u, w, c, AtBarrier, Barrier) && AllEntered(w, w.clients[c].pos)
    case Omit(c) => IsNext(u, w, c, Ready, Skip)
    case Call(c, tree) =>
      IsNext(u, w, c, Ready, Throttle.Event.Run) && c < |u.home| && Possible(w.servers, Begin(u.home[c], c, tree))
    case Return(c) =>
      && 0 <= c < |w.clients| && w.clients[c].state.Calling?
      && w.clients[c].state.op < |w.servers.ops| && w.servers.ops[w.clients[c].state.op].Finished()
    case Give(c) => c != 0 && IsNext(u, w, c, Ready, Gather)
    case Take => IsNext(u, w, 0, Ready, Gather) && AllGave(w, w.clients[0].pos)
    case Work(i, a) => Possible(w.servers, Step(i, a))
  }

  function Put(w: World, c: int, client: Client): World
    requires 0 <= c < |w.clients|
  {
    w.(clients := w.clients[c := client])
  }

  /** Client c is through with its next event. */
  function Advance(w: World, c: int): World
    requires 0 <= c < |w.clients|
  {
    Put(w, c, Client(w.clients[c].pos + 1, Ready))
  }

  function Do(u: Setup, w: World, m: Move): World
    requires u.Valid() && CanMove(u, w, m)
  {
    match m
    case Arrive(c) => Put(w, c, Client(w.clients[c].pos, AtBarrier))
    case Pass(c) => Advance(w, c)
    case Omit(c) => Advance(w, c)
    case Call(c, tree) =>
      Put(w, c, Client(w.clients[c].pos, Calling(|w.servers.ops|)))
        .(servers := Next(w.servers, Begin(u.home[c], c, tree)))
    case Return(c) => Advance(w, c)
    case Give(c) => Advance(w, c)
    case Take => Advance(w, 0)
    case Work(i, a) => w.(servers := Next(w.servers, Step(i, a)))
  }

  function Start(u: Setup): World {
    World(seq(|u.home|, _ => Client(0, Ready)), Servers(u.servers, []))
  }

  predicate CanPlay(u: Setup, w: World, ms: seq<Move>)
    requires u.Valid()
    decreases |ms|
  {
    ms == [] || (CanMove(u, w, ms[0]) && CanPlay(u, Do(u, w, ms[0]), ms[1..]))
  }

  function Play(u: Setup, w: World, ms: seq<Move>): World
    requires u.Valid() && CanPlay(u, w, ms)
    decreases |ms|
  {
    if ms == [] then w else Play(u, Do(u, w, ms[0]), ms[1..])
  }

  /* ---------- what every move keeps ---------- */

  /** The places of the barriers: in every repeat, first and third of three. */
  predicate BarrierAt(u: Setup, b: int)
    requires u.Valid()
  {
    var k := b % (3 * u.RoundsEach() + 1);
    k != 3 * u.RoundsEach() && k % 3 != 1
  }

  /** A client past a barrier proves that every client has reached it. */
  ghost predicate InStep(u: Setup, w: World)
    requires u.Valid()
  {
    forall c, d, b | 0 <= c < |w.clients| && 0 <= d < |w.clients| && BarrierAt(u, b) && b < w.clients[c].pos ::
      b <= w.clients[d].pos
  }

  /** A client in a barrier is at a barrier; a client inside a call is at its turn, and the
      call is its own operation. */
  ghost predicate CallOk(u: Setup, w: World, c: int)
    requires u.Valid() && 0 <= c < |w.clients| == |u.home|
  {
    var pos := w.clients[c].pos;
    && pos <= |u.Log(c)|
    && (w.clients[c].state.AtBarrier? ==> pos < |u.Log(c)| && u.Log(c)[pos] == Barrier)
    && (w.clients[c].state.Calling? ==>
          var i := w.clients[c].state.op;
          && pos < |u.Log(c)| && u.Log(c)[pos] == Throttle.Event.Run
          && i < |w.servers.ops| && w.servers.ops[i].root == u.home[c] && w.servers.ops[i].seed == c)
  }

  predicate IsCalling(client: Client, i: int) {
    client.state.Calling? && client.state.op == i
  }

  /** Every operation in flight is some client's call. */
  ghost predicate Owned(w: World, i: int) {
    exists c :: 0 <= c < |w.clients| && IsCalling(w.clients[c], i)
  }

  ghost predicate Inv(u: Setup, w: World) {
    && u.Valid() && |w.clients| == |u.home| && w.servers.ranks == u.servers
    && AllInv(w.servers)
    && InStep(u, w)
    && (forall c | 0 <= c < |w.clients| :: CallOk(u, w, c))
    && (forall i | i in InFlight(w.servers) :: Owned(w, i))
  }

  lemma StartInv(u: Setup)
    requires u.Valid()
    ensures Inv(u, Start(u))
  {
  }

  /** The event at a place depends on the client only in whether a turn is its own. */
  lemma EventKind(u: Setup, c: int, pos: nat)
    requires u.Valid()
    ensures |u.Log(c)| == u.repeat * (3 * u.RoundsEach() + 1)
    ensures pos < |u.Log(c)| ==> u.Log(c)[pos] == EventAt(c, u.RoundsEach(), pos % (3 * u.RoundsEach() + 1))
  {
    var rounds := u.RoundsEach();
    var len := 3 * rounds + 1;
    ScheduleLength(c, rounds, u.repeat);
    if pos < |u.Log(c)| {
      DivBounds(pos, len);
      DivShrinks(pos, len);
      if u.repeat <= pos / len {
        if u.repeat < pos / len { MulStep(u.repeat, pos / len, len); }
      }
      ScheduleAt(c, rounds, u.repeat, pos / len, pos % len);
    }
  }

  /** In particular barriers are at the same places everywhere. */
  lemma BarrierKind(u: Setup, c: int, pos: nat)
    requires u.Valid() && pos < |u.Log(c)|
    ensures u.Log(c)[pos] == Barrier <==> BarrierAt(u, pos)
  {
    EventKind(u, c, pos);
  }

  lemma AdvanceInStep(u: Setup, w: World, c: int)
    requires u.Valid() && InStep(u, w) && 0 <= c < |w.clients|
    requires BarrierAt(u, w.clients[c].pos) ==> AllEntered(w, w.clients[c].pos)
    ensures InStep(u, Advance(w, c))
  {
    var w' := Advance(w, c);
    forall x, d, b | 0 <= x < |w'.clients| && 0 <= d < |w'.clients| && BarrierAt(u, b) && b < w'.clients[x].pos
      ensures b <= w'.clients[d].pos
    {
      if b == w.clients[c].pos { assert Entered(w, d, b); }
    }
  }

  lemma StayInStep(u: Setup, w: World, c: int, state: ClientState)
    requires u.Valid() && InStep(u, w) && 0 <= c < |w.clients|
    ensures InStep(u, Put(w, c, Client(w.clients[c].pos, state)))
  {
  }

  /** Every move keeps the clients in step and every operation owned by its caller. */
  lemma MoveInv(u: Setup, w: World, m: Move)
    requires Inv(u, w) && CanMove(u, w, m)
    ensures Inv(u, Do(u, w, m))
  {
    match m
    case Arrive(c) =>
      StayInStep(u, w, c, AtBarrier);
      ClientMoves(u, w, c, Client(w.clients[c].pos, AtBarrier));
    case Pass(c) => AdvanceInv(u, w, c);
    case Omit(c) =>
      BarrierKind(u, c, w.clients[c].pos);
      AdvanceInv(u, w, c);
    case Give(c) =>
      BarrierKind(u, c, w.clients[c].pos);
      AdvanceInv(u, w, c);
    case Take =>
      BarrierKind(u, 0, w.clients[0].pos);
      AdvanceInv(u, w, 0);
    case Call(c, tree) => CallInv(u, w, c, tree);
    case Return(c) => ReturnInv(u, w, c);
    case Work(i, a) => WorkInv(u, w, i, a);
  }

  /** A client moves that is not inside a call, before or after. */
  lemma ClientMoves(u: Setup, w: World, c: int, client: Client)
    requires Inv(u, w) && 0 <= c < |w.clients| && !w.clients[c].state.Calling? && !client.state.Calling?
    requires InStep(u, Put(w, c, client)) && client.pos <= |u.Log(c)|
    requires client.state.AtBarrier? ==> client.pos < |u.Log(c)| && u.Log(c)[client.pos] == Barrier
    ensures Inv(u, Put(w, c, client))
  {
    var w' := Put(w, c, client);
    forall d | 0 <= d < |w'.clients| ensures CallOk(u, w', d) {
      assert CallOk(u, w, d);
    }
    forall i | i in InFlight(w'.servers) ensures Owned(w', i) {
      OwnerStays(w, w', i);
    }
  }

  lemma OwnerStays(w: World, w': World, i: int)
    requires Owned(w, i) && |w'.clients| == |w.clients|
    requires forall d | 0 <= d < |w.clients| && IsCalling(w.clients[d], i) :: IsCalling(w'.clients[d], i)
    ensures Owned(w', i)
  {
  }

  lemma AdvanceInv(u: Setup, w: World, c: int)
    requires Inv(u, w) && 0 <= c < |w.clients| && !w.clients[c].state.Calling? && w.clients[c].pos < |u.Log(c)|
    requires BarrierAt(u, w.clients[c].pos) ==> AllEntered(w, w.clients[c].pos)
    ensures Inv(u, Advance(w, c))
  {
    AdvanceInStep(u, w, c);
    ClientMoves(u, w, c, Client(w.clients[c].pos + 1, Ready));
  }

  lemma ReturnInv(u: Setup, w: World, c: int)
    requires Inv(u, w) && CanMove(u, w, Return(c))
    ensures Inv(u, Do(u, w, Return(c)))
  {
    assert CallOk(u, w, c);
    BarrierKind(u, c, w.clients[c].pos);
    AdvanceInStep(u, w, c);
    var w' := Do(u, w, Return(c));
    forall d | 0 <= d < |w'.clients| ensures CallOk(u, w', d) {
      assert CallOk(u, w, d);
    }
    forall i | i in InFlight(w'.servers) ensures Owned(w', i) {
      OwnerStays(w, w', i);
    }
  }

  lemma CallInv(u: Setup, w: World, c: int, tree: bool)
    requires Inv(u, w) && CanMove(u, w, Call(c, tree))
    ensures Inv(u, Do(u, w, Call(c, tree)))
  {
    var w' := Do(u, w, Call(c, tree));
    NextInv(w.servers, Begin(u.home[c], c, tree));
    StayInStep(u, w, c, Calling(|w.servers.ops|));
    forall d | 0 <= d < |w'.clients| ensures CallOk(u, w', d) {
      assert CallOk(u, w, d);
    }
    forall i | i in InFlight(w'.servers) ensures Owned(w', i) {
      if i == |w.servers.ops| {
        assert IsCalling(w'.clients[c], i);
      } else {
        assert i in InFlight(w.servers);
        OwnerStays(w, w', i);
      }
    }
  }

  lemma WorkInv(u: Setup, w: World, i: int, a: Action)
    requires Inv(u, w) && CanMove(u, w, Work(i, a))
    ensures Inv(u, Do(u, w, Work(i, a)))
  {
    var w', o := Do(u, w, Work(i, a)), w.servers.ops[i];
    NextInv(w.servers, Step(i, a));
    SumInvariant.ApplyKeepsInput(o, a);
    if o.Finished() { SumInvariant.RepliedStays(o, a, o.root); }
    forall d | 0 <= d < |w'.clients| ensures CallOk(u, w', d) {
      assert CallOk(u, w, d);
    }
    forall k | k in InFlight(w'.servers) ensures Owned(w', k) {
      assert k in InFlight(w.servers);
      OwnerStays(w, w', k);
    }
  }

  lemma {:induction false} PlayInv(u: Setup, w: World, ms: seq<Move>)
    requires Inv(u, w) && CanPlay(u, w, ms)
    ensures Inv(u, Play(u, w, ms))
    decreases |ms|
  {
    if ms != [] {
      MoveInv(u, w, ms[0]);
      PlayInv(u, Do(u, w, ms[0]), ms[1..]);
    }
  }

  /* ---------- the servers' part of a play ---------- */

  /** What the moves make the servers do. */
  function EventsOf(u: Setup, ms: seq<Move>): seq<SumServers.Event> {
    if ms == [] then [] else
      (match ms[0]
       case Call(c, tree) => if 0 <= c < |u.home| then [Begin(u.home[c], c, tree)] else []
       case Work(i, a) => [Step(i, a)]
       case _ => [])
      + EventsOf(u, ms[1..])
  }

  lemma {:induction false} PlayIsServe(u: Setup, w: World, ms: seq<Move>)
    requires u.Valid() && CanPlay(u, w, ms)
    ensures CanServe(w.servers, EventsOf(u, ms)) && Serve(w.servers, EventsOf(u, ms)) == Play(u, w, ms).servers
    decreases |ms|
  {
    if ms != [] {
      PlayIsServe(u, Do(u, w, ms[0]), ms[1..]);
      var rest := EventsOf(u, ms[1..]);
      if ms[0].Call? || ms[0].Work? {
        assert EventsOf(u, ms)[1..] == rest;
      } else {
        assert EventsOf(u, ms) == rest;
      }
    }
  }

  /* ---------- the bound ---------- */

  /** The clients that are inside a call. */
  function Callers(w: World): set<int> {
    set c | 0 <= c < |w.clients| && w.clients[c].state.Calling?
  }

  /** All clients inside a call are in the same round, at most `limited` of them. */
  lemma CallersShareARound(u: Setup, w: World)
    requires Inv(u, w)
    ensures exists j :: Callers(w) <= RoundRanks(|u.home|, u.RoundsEach(), j)
    ensures |Callers(w)| <= u.limited
  {
    var n, rounds := |u.home|, u.RoundsEach();
    RoundsAreLeast(n, u.limited, rounds);
    assert Callers(w) == {} ==> Callers(w) <= RoundRanks(n, rounds, 0);
    if c :| c in Callers(w) {
      var j := w.clients[c].pos % (3 * rounds + 1) / 3;
      forall d | d in Callers(w) ensures d in RoundRanks(n, rounds, j) {
        assert CallOk(u, w, c) && CallOk(u, w, d);
        EventKind(u, c, w.clients[c].pos);
        EventKind(u, d, w.clients[d].pos);
        SameTurn(u, w, c, d);
      }
      assert Callers(w) <= RoundRanks(n, rounds, j);
      SubsetSize(Callers(w), RoundRanks(n, rounds, j));
      RoundSize(n, rounds, u.limited, j);
    }
  }

  /** After a turn there is a barrier. */
  lemma TurnThenBarrier(u: Setup, c: int, pos: nat)
    requires u.Valid() && pos < |u.Log(c)| && u.Log(c)[pos] == Throttle.Event.Run
    ensures BarrierAt(u, pos + 1) && !BarrierAt(u, pos)
  {
    var len := 3 * u.RoundsEach() + 1;
    EventKind(u, c, pos);
    DivBounds(pos, len);
    DivModOf(pos / len, pos % len + 1, len);
  }

  /** So two clients at their turns are at the same one. */
  lemma SameTurn(u: Setup, w: World, c: int, d: int)
    requires u.Valid() && InStep(u, w) && 0 <= c < |w.clients| && 0 <= d < |w.clients|
    requires w.clients[c].pos < |u.Log(c)| && u.Log(c)[w.clients[c].pos] == Throttle.Event.Run
    requires w.clients[d].pos < |u.Log(d)| && u.Log(d)[w.clients[d].pos] == Throttle.Event.Run
    ensures w.clients[c].pos == w.clients[d].pos
  {
    TurnThenBarrier(u, c, w.clients[c].pos);
    TurnThenBarrier(u, d, w.clients[d].pos);
  }

  ghost function OwnerOf(w: World, i: int): int
  {
    if Owned(w, i) then (var c :| 0 <= c < |w.clients| && IsCalling(w.clients[c], i); c) else -1
  }

  /** End to end, whatever fails: in every reachable state of the benchmark at most `limited`
      operations are in flight; and while no failure was harmful (SumLoad.Harmless), no
      server holds more than `limited` live activations. */
  lemma AtMostLimited(u: Setup, ms: seq<Move>, r: int)
    requires u.Valid() && CanPlay(u, Start(u), ms)
    ensures CanServe(Servers(u.servers, []), EventsOf(u, ms))
    ensures var w := Play(u, Start(u), ms);
            && |InFlight(w.servers)| <= u.limited
            && (HarmlessEvents(Servers(u.servers, []), EventsOf(u, ms)) ==> |LiveAt(w.servers, r)| <= u.limited)
  {
    var w := Play(u, Start(u), ms);
    StartInv(u);
    PlayInv(u, Start(u), ms);
    PlayIsServe(u, Start(u), ms);
    if HarmlessEvents(Servers(u.servers, []), EventsOf(u, ms)) {
      LoadBoundInEveryRun(u.servers, EventsOf(u, ms), r);
    }
    forall i | i in InFlight(w.servers) ensures OwnerOf(w, i) in Callers(w) {
      assert Owned(w, i);
    }
    InjectionSize(InFlight(w.servers), (i: int) => OwnerOf(w, i), Callers(w));
    CallersShareARound(u, w);
  }

  /** And each measured call that meets no failure itself returns what its client expects.
      No other returns more, and it returns as much exactly if it comes back with success
      and lacks no contribution but 0. */
  lemma EveryCallReturnsExpected(u: Setup, ms: seq<Move>, c: int)
    requires u.Valid() && CanPlay(u, Start(u), ms)
    requires CanMove(u, Play(u, Start(u), ms), Return(c))
    ensures CanServe(Servers(u.servers, []), EventsOf(u, ms))
    ensures var w := Play(u, Start(u), ms);
            var i := w.clients[c].state.op;
            var o := w.servers.ops[i];
            && o.Valid() && Received(o) <= ClosedForm(u.servers, c)
            && (Received(o) == ClosedForm(u.servers, c)
                <==> o.handlers[o.root].phase == Returned(false) && SumResult.NonzeroIncluded(o))
            && (CleanFor(Servers(u.servers, []), EventsOf(u, ms), i) ==> Received(o) == ClosedForm(u.servers, c))
  {
    var w := Play(u, Start(u), ms);
    StartInv(u);
    PlayInv(u, Start(u), ms);
    PlayIsServe(u, Start(u), ms);
    assert CallOk(u, w, c);
    var i := w.clients[c].state.op;
    SumResult.ClientCheck(w.servers.ops[i]);
    if CleanFor(Servers(u.servers, []), EventsOf(u, ms), i) {
      EveryConcurrentSumIsExact(u.servers, EventsOf(u, ms), i);
    }
  }

  /* ---------- the benchmark never blocks ---------- */

  lemma {:induction false} LeastAdvanced(w: World, n: nat) returns (c: int)
    requires 1 <= n <= |w.clients|
    ensures 0 <= c < n && forall d | 0 <= d < n :: w.clients[c].pos <= w.clients[d].pos
  {
    if n == 1 {
      c := 0;
    } else {
      c := LeastAdvanced(w, n - 1);
      if w.clients[n - 1].pos < w.clients[c].pos { c := n - 1; }
    }
  }

  /** A client that is not in a barrier or at a gather can move. */
  lemma ClientCanMove(u: Setup, w: World, c: int) returns (m: Move)
    requires Inv(u, w) && 0 <= c < |w.clients| && w.clients[c].pos < |u.Log(c)|
    requires !w.clients[c].state.AtBarrier? && (c == 0 ==> u.Log(c)[w.clients[c].pos] != Gather)
    ensures CanMove(u, w, m)
  {
    assert CallOk(u, w, c);
    if w.clients[c].state.Ready? {
      m := match u.Log(c)[w.clients[c].pos]
           case Barrier => Move.Arrive(c)
           case Skip => Omit(c)
           case Run => Call(c, true)
           case Gather => Give(c);
    } else {
      m := CallerMoves(u, w, c);
    }
  }

  lemma CallerMoves(u: Setup, w: World, c: int) returns (m: Move)
    requires Inv(u, w) && 0 <= c < |w.clients| && w.clients[c].state.Calling?
    ensures CanMove(u, w, m)
  {
    assert CallOk(u, w, c);
    var i := w.clients[c].state.op;
    if w.servers.ops[i].Finished() {
      m := Return(c);
    } else {
      SumProgress.NeverStuck(w.servers.ops[i]);
      var a :| Enabled(w.servers.ops[i], a) && !IsFailure(a);
      m := Work(i, a);
    }
  }

  /** Barriers, gathers and calls never block each other, whatever failed: until every
      client is through its schedule some move is possible. */
  lemma ClientsNeverBlocked(u: Setup, ms: seq<Move>)
    requires u.Valid() && CanPlay(u, Start(u), ms)
    ensures var w := Play(u, Start(u), ms);
            |w.clients| == |u.home| &&
            ((exists c :: 0 <= c < |w.clients| && w.clients[c].pos < |u.Log(c)|) ==> exists m :: CanMove(u, w, m))
  {
    var w := Play(u, Start(u), ms);
    StartInv(u);
    PlayInv(u, Start(u), ms);
    if e :| 0 <= e < |w.clients| && w.clients[e].pos < |u.Log(e)| {
      var c := LeastAdvanced(w, |w.clients|);
      EventKind(u, c, w.clients[c].pos);
      EventKind(u, e, w.clients[e].pos);
      var m := LeastMoves(u, w, c);
    }
  }

  lemma LeastMoves(u: Setup, w: World, c: int) returns (m: Move)
    requires Inv(u, w) && 0 <= c < |w.clients| && w.clients[c].pos < |u.Log(c)|
    requires forall d | 0 <= d < |w.clients| :: w.clients[c].pos <= w.clients[d].pos
    ensures CanMove(u, w, m)
  {
    var pos := w.clients[c].pos;
    assert CallOk(u, w, c);
    EventKind(u, c, pos);
    if w.clients[c].state.AtBarrier? {
      if AllEntered(w, pos) {
        m := Pass(c);
      } else {
        var d :| 0 <= d < |w.clients| && !Entered(w, d, pos);
        EventKind(u, d, pos);
        m := ClientCanMove(u, w, d);
      }
    } else if c == 0 && u.Log(c)[pos] == Gather {
      if AllGave(w, pos) {
        m := Take;
      } else {
        var d :| 0 < d < |w.clients| && w.clients[d].pos <= pos;
        assert CallOk(u, w, d);
        EventKind(u, d, pos);
        m := ClientCanMove(u, w, d);
      }
    } else {
      m := ClientCanMove(u, w, c);
    }
  }

  /* ---------- the gather ---------- */

  /** Client 0 is past a gather only if every other client has sent its time there. */
  ghost predicate GatherOk(u: Setup, w: World)
    requires u.Valid() && |w.clients| == |u.home|
  {
    forall d, b | 0 < d < |w.clients| && 0 <= b < |u.Log(0)| && u.Log(0)[b] == Gather && b < w.clients[0].pos ::
      b < w.clients[d].pos
  }

  lemma MoveGather(u: Setup, w: World, m: Move)
    requires Inv(u, w) && GatherOk(u, w) && CanMove(u, w, m) && |Do(u, w, m).clients| == |u.home|
    ensures GatherOk(u, Do(u, w, m))
  {
    var w' := Do(u, w, m);
    assert CallOk(u, w, 0);
    forall d, b | 0 < d < |w'.clients| && 0 <= b < |u.Log(0)| && u.Log(0)[b] == Gather && b < w'.clients[0].pos
      ensures b < w'.clients[d].pos
    {
      PositionsGrow(u, w, m, 0);
      PositionsGrow(u, w, m, d);
      if b >= w.clients[0].pos { assert m == Take; }
    }
  }

  /** A move advances one client by at most one event, and none at a gather but as such. */
  lemma PositionsGrow(u: Setup, w: World, m: Move, c: int)
    requires Inv(u, w) && CanMove(u, w, m) && 0 <= c < |w.clients|
    ensures |Do(u, w, m).clients| == |w.clients|
    ensures w.clients[c].pos <= Do(u, w, m).clients[c].pos <= w.clients[c].pos + 1
    ensures Do(u, w, m).clients[c].pos > w.clients[c].pos ==>
              w.clients[c].pos < |u.Log(c)|
              && (u.Log(c)[w.clients[c].pos] == Gather ==> m == if c == 0 then Take else Give(c))
  {
    assert CallOk(u, w, c);
  }

  lemma {:induction false} PlayGather(u: Setup, w: World, ms: seq<Move>)
    requires Inv(u, w) && GatherOk(u, w) && CanPlay(u, w, ms)
    ensures Inv(u, Play(u, w, ms)) && GatherOk(u, Play(u, w, ms))
    decreases |ms|
  {
    if ms != [] {
      MoveInv(u, w, ms[0]);
      MoveGather(u, w, ms[0]);
      PlayGather(u, Do(u, w, ms[0]), ms[1..]);
    }
  }

  /** In every reachable state: a client past a barrier or, if it is client 0, past a gather
      shows that all clients have come that far. */
  lemma NobodyRunsAhead(u: Setup, ms: seq<Move>, c: int, d: int, b: nat)
    requires u.Valid() && CanPlay(u, Start(u), ms) && 0 <= c < |u.home| && 0 <= d < |u.home|
    requires |Play(u, Start(u), ms).clients| == |u.home|
    requires b < Play(u, Start(u), ms).clients[c].pos && b < |u.Log(c)|
    ensures u.Log(c)[b] == Barrier ==> b <= Play(u, Start(u), ms).clients[d].pos
    ensures u.Log(c)[b] == Gather && c == 0 ==> b < Play(u, Start(u), ms).clients[d].pos
  {
    StartInv(u);
    PlayGather(u, Start(u), ms);
    BarrierKind(u, c, b);
  }

  /* ---------- and comes to an end ---------- */

  /** What one event of a schedule may cost: two moves and the steps of an operation. */
  function EventCost(u: Setup): nat
    requires u.Valid()
  {
    u.servers * SumProgress.FULL + 2
  }

  /** What client c may still do. */
  function ClientBudget(u: Setup, c: int, client: Client): int
    requires u.Valid()
  {
    (|u.Log(c)| - client.pos) * EventCost(u) - StateCost(u, client.state)
  }

  /** How much of its next event's cost a client has used up. */
  function StateCost(u: Setup, state: ClientState): int
    requires u.Valid()
  {
    match state
    case Ready => 0
    case AtBarrier => 1
    case Calling(_) => EventCost(u) - 1
  }

  function ClientBudgets(u: Setup, clients: seq<Client>): seq<int>
    requires u.Valid()
  {
    seq(|clients|, c requires 0 <= c < |clients| => ClientBudget(u, c, clients[c]))
  }

  function Budget(u: Setup, w: World): int
    requires u.Valid()
  {
    Sum(ClientBudgets(u, w.clients)) + Budgets(w.servers.ops)
  }

  lemma ClientChanges(u: Setup, clients: seq<Client>, c: int, client: Client)
    requires u.Valid() && 0 <= c < |clients|
    ensures Sum(ClientBudgets(u, clients[c := client]))
            == Sum(ClientBudgets(u, clients)) + ClientBudget(u, c, client) - ClientBudget(u, c, clients[c])
  {
    SumDiffers(ClientBudgets(u, clients), ClientBudgets(u, clients[c := client]), c);
  }

  /** Entering a barrier costs 1, entering a call all but 1 of its event's cost. */
  lemma ClientEnters(u: Setup, clients: seq<Client>, c: int, state: ClientState)
    requires u.Valid() && 0 <= c < |clients| && clients[c].state == Ready
    ensures Sum(ClientBudgets(u, clients[c := Client(clients[c].pos, state)]))
            == Sum(ClientBudgets(u, clients)) - StateCost(u, state)
  {
    ClientChanges(u, clients, c, Client(clients[c].pos, state));
  }

  lemma ClientAdvances(u: Setup, clients: seq<Client>, c: int)
    requires u.Valid() && 0 <= c < |clients|
    ensures Sum(ClientBudgets(u, clients[c := Client(clients[c].pos + 1, Ready)])) < Sum(ClientBudgets(u, clients))
  {
    ClientChanges(u, clients, c, Client(clients[c].pos + 1, Ready));
    OneMoreTime(|u.Log(c)| - (clients[c].pos + 1), EventCost(u));
  }

  lemma BudgetNonNegative(u: Setup, w: World)
    requires Inv(u, w)
    ensures Budget(u, w) >= 0
  {
    forall c | 0 <= c < |w.clients| ensures ClientBudget(u, c, w.clients[c]) >= 0 {
      var left := |u.Log(c)| - w.clients[c].pos;
      assert CallOk(u, w, c);
      NonNegative(left, EventCost(u));
      if left > 0 { MulAtLeast(left, EventCost(u)); }
    }
    SumNonNegative(ClientBudgets(u, w.clients));
  }

  /** Every move uses up budget. */
  lemma MoveBudget(u: Setup, w: World, m: Move)
    requires Inv(u, w) && CanMove(u, w, m)
    ensures Budget(u, Do(u, w, m)) < Budget(u, w)
  {
    match m
    case Work(i, a) => WorkBudget(u, w, i, a);
    case Call(c, tree) => CallBudget(u, w, c, tree);
    case Arrive(c) => ArriveBudget(u, w, c);
    case Take => AdvanceBudget(u, w, 0);
    case _ => AdvanceBudget(u, w, m.c);
  }

  lemma WorkBudget(u: Setup, w: World, i: int, a: Action)
    requires u.Valid() && AllInv(w.servers) && CanMove(u, w, Work(i, a))
    ensures Budget(u, Do(u, w, Work(i, a))) < Budget(u, w)
  {
    NextBudget(w.servers, Step(i, a));
  }

  lemma CallBudget(u: Setup, w: World, c: int, tree: bool)
    requires u.Valid() && AllInv(w.servers) && w.servers.ranks == u.servers && CanMove(u, w, Call(c, tree))
    ensures Budget(u, Do(u, w, Call(c, tree))) < Budget(u, w)
  {
    NextBudget(w.servers, Begin(u.home[c], c, tree));
    ClientEnters(u, w.clients, c, Calling(|w.servers.ops|));
  }

  lemma ArriveBudget(u: Setup, w: World, c: int)
    requires u.Valid() && CanMove(u, w, Move.Arrive(c))
    ensures Budget(u, Do(u, w, Move.Arrive(c))) < Budget(u, w)
  {
    ClientEnters(u, w.clients, c, AtBarrier);
  }

  lemma AdvanceBudget(u: Setup, w: World, c: int)
    requires u.Valid() && 0 <= c < |w.clients|
    ensures Budget(u, Advance(w, c)) < Budget(u, w)
  {
    ClientAdvances(u, w.clients, c);
  }

  lemma {:induction false} PlayBudget(u: Setup, w: World, ms: seq<Move>)
    requires Inv(u, w) && CanPlay(u, w, ms)
    ensures |ms| <= Budget(u, w)
    decreases |ms|
  {
    if ms == [] {
      BudgetNonNegative(u, w);
    } else {
      MoveInv(u, w, ms[0]);
      MoveBudget(u, w, ms[0]);
      PlayBudget(u, Do(u, w, ms[0]), ms[1..]);
    }
  }

  lemma StartBudget(u: Setup)
    requires u.Valid()
    ensures Budget(u, Start(u)) <= |u.home| * (u.repeat * (3 * u.RoundsEach() + 1) * EventCost(u))
  {
    forall c | 0 <= c < |u.home|
      ensures ClientBudget(u, c, Client(0, Ready)) == u.repeat * (3 * u.RoundsEach() + 1) * EventCost(u)
    {
      EventKind(u, c, 0);
    }
    SumAtMost(ClientBudgets(u, Start(u).clients), u.repeat * (3 * u.RoundsEach() + 1) * EventCost(u));
    assert EachBudget([]) == [];
  }

  /** The calls client c made. */
  function CallsBy(ms: seq<Move>, c: int): nat {
    if ms == [] then 0 else One(ms[0].Call? && ms[0].c == c) + CallsBy(ms[1..], c)
  }

  /** The calls client c has made by this place of its schedule. */
  function CallsSoFar(u: Setup, w: World, c: int): int
    requires Inv(u, w) && 0 <= c < |w.clients|
  {
    assert CallOk(u, w, c);
    RunsIn(u.Log(c)[..w.clients[c].pos]) + One(w.clients[c].state.Calling?)
  }

  lemma MoveCalls(u: Setup, w: World, m: Move, c: int)
    requires Inv(u, w) && CanMove(u, w, m) && Inv(u, Do(u, w, m)) && 0 <= c < |w.clients|
    ensures CallsSoFar(u, Do(u, w, m), c) == CallsSoFar(u, w, c) + One(m.Call? && m.c == c)
  {
    var pos, log := w.clients[c].pos, u.Log(c);
    assert CallOk(u, w, c);
    if pos < |log| {
      assert log[..pos + 1] == log[..pos] + [log[pos]];
      RunsInOneMore(log[..pos], log[pos]);
    }
  }

  lemma {:induction false} PlayCalls(u: Setup, w: World, ms: seq<Move>, c: int)
    requires Inv(u, w) && CanPlay(u, w, ms) && 0 <= c < |w.clients|
    ensures Inv(u, Play(u, w, ms)) && CallsSoFar(u, Play(u, w, ms), c) == CallsSoFar(u, w, c) + CallsBy(ms, c)
    decreases |ms|
  {
    if ms != [] {
      MoveInv(u, w, ms[0]);
      MoveCalls(u, w, ms[0], c);
      PlayCalls(u, Do(u, w, ms[0]), ms[1..], c);
    }
  }

  /** Client c has come to the end of its schedule. */
  predicate Through(u: Setup, w: World, c: int)
    requires u.Valid()
  {
    0 <= c < |w.clients| && w.clients[c] == Client(|u.Log(c)|, Ready)
  }

  /** Every play of the benchmark is finite, and in one that cannot go on every client is
      through its schedule and has made exactly `repeat` calls. */
  lemma EveryPlayEnds(u: Setup, ms: seq<Move>)
    requires u.Valid() && CanPlay(u, Start(u), ms)
    ensures |ms| <= |u.home| * (u.repeat * (3 * u.RoundsEach() + 1) * (u.servers * 9 + 2))
    ensures (forall m :: !CanMove(u, Play(u, Start(u), ms), m)) ==>
              forall c | 0 <= c < |u.home| :: Through(u, Play(u, Start(u), ms), c) && CallsBy(ms, c) == u.repeat
  {
    StartInv(u);
    PlayBudget(u, Start(u), ms);
    StartBudget(u);
    if forall m :: !CanMove(u, Play(u, Start(u), ms), m) {
      ClientsNeverBlocked(u, ms);
      forall c | 0 <= c < |u.home|
        ensures Through(u, Play(u, Start(u), ms), c) && CallsBy(ms, c) == u.repeat
      {
        AllCallsMade(u, ms, c);
      }
    }
  }

  lemma AllCallsMade(u: Setup, ms: seq<Move>, c: int)
    requires u.Valid() && CanPlay(u, Start(u), ms) && 0 <= c < |u.home|
    requires |Play(u, Start(u), ms).clients| == |u.home| && Play(u, Start(u), ms).clients[c].pos >= |u.Log(c)|
    ensures Through(u, Play(u, Start(u), ms), c) && CallsBy(ms, c) == u.repeat
  {
    var w := Play(u, Start(u), ms);
    StartInv(u);
    PlayCalls(u, Start(u), ms, c);
    assert CallOk(u, w, c);
    assert u.Log(c)[..|u.Log(c)|] == u.Log(c) && u.Log(c)[..0] == [];
    OneRunPerRepeat(c, u.RoundsEach(), u.repeat);
  }
}
