/** The throttled sum benchmark: how do_sum_limited splits the client ranks into rounds. */
module Throttle {
  import opened Arith
  import opened Int32
  import opened RankSums

  /* ---------- the expected sum ---------- */

  /** calculate_expected_sum, in C integers: the product is formed before it is halved. */
  method CalculateExpectedSum(serverNranks: int32, rank: int32) returns (expected: int32)
    requires 0 <= serverNranks && 0 <= rank
    requires ExpectedFits(serverNranks as int, rank as int)
    ensures expected as int == ClosedForm(serverNranks as int, rank as int)
  {
    var seed := rank;
    expected := (serverNranks * (serverNranks - 1)) / 2;
    expected := expected + serverNranks * seed;
  }

  /** All intermediate values of calculate_expected_sum are representable. */
  predicate ExpectedFits(n: nat, seed: nat) {
    Fits(n * (n - 1)) && Fits(n * seed) && Fits(ClosedForm(n, seed))
  }

  /** When the intermediate values are representable: the sum itself has to be, and there
      are at most 46341 ranks. */
  lemma ExpectedFitsIff(n: nat, seed: nat)
    ensures ExpectedFits(n, seed) <==> n <= 46341 && Fits(ClosedForm(n, seed))
  {
    NonNegative(n, seed);
    if n <= 46341 {
      Product(n, 46341);
    } else {
      Product(46342, n);
    }
    NonNegative(n, n - 1);
  }

  lemma NonNegative(a: nat, b: int)
    requires a > 0 ==> b >= 0
    ensures a * b >= 0
  {
    if a > 0 { MulAtLeast(a, b); }
  }

  /** So the clients' formula overflows earlier than the sum: with seed 0 the sum is
      representable up to 65536 ranks, the formula only up to 46341. */
  lemma ExpectedOverflowsFirst(n: nat)
    ensures Fits(ClosedForm(n, 0)) <==> n <= 65536
    ensures ExpectedFits(n, 0) <==> n <= 46341
  {
    ExpectedFitsIff(n, 0);
    if n <= 65536 {
      Product(n, 65536);
    } else {
      Product(65537, n);
    }
  }

  lemma Product(a: nat, b: nat)
    requires a <= b
    ensures a * (a - 1) <= b * (b - 1)
  {
    if a > 0 && a < b {
      MulStep(a - 1, b - 1, a);
      MulStep(a, b, b - 1);
    } else if a == 0 && b > 0 {
      if b > 1 { MulAtLeast(b, b - 1); }
    }
  }

  /* ---------- rounds ---------- */

  /** The number of rounds: just enough for `limited` ranks each.  A negative limit gives
      one round for all if its absolute value exceeds nranks, else none. */
  function Rounds(nranks: int, limited: int): int
    requires limited != 0
  {
    if limited >= 1 then (nranks + limited - 1) / limited else if nranks < -limited then 1 else 0
  }

  /** The rounds are as few as possible: r rounds have room for all ranks exactly if r is
      at least that number. */
  lemma RoundsAreLeast(nranks: int, limited: int, r: int)
    requires nranks >= 1 && limited >= 1
    ensures Rounds(nranks, limited) >= 1
    ensures nranks <= r * limited <==> Rounds(nranks, limited) <= r
  {
    var q := Rounds(nranks, limited);
    DivBounds(nranks + limited - 1, limited);
    if q <= 0 { NonPositive(q, limited); }
    if r < q {
      MulStep(r, q, limited);
    } else if q < r {
      MulStep(q, r, limited);
    }
  }

  lemma NonPositive(a: int, b: int)
    requires a <= 0 <= b
    ensures a * b <= 0
  {
    if a < 0 { MulStep(a, 0, b); }
  }

  /** The ranks that run in round j of a repeat. */
  function RoundRanks(nranks: int, rounds: int, j: int): set<int>
    requires rounds >= 1
  {
    set r | 0 <= r < nranks && r % rounds == j
  }

  /** What the option promises: every rank gets its turn, and at most `limited` ranks
      share a round. */
  ghost predicate SchedulePromise(nranks: int, limited: int)
    requires limited != 0
  {
    var rounds := Rounds(nranks, limited);
    rounds >= 1 && forall j | 0 <= j < rounds :: |RoundRanks(nranks, rounds, j)| <= limited
  }

  /** The set of the first n numbers has n elements. */
  function FirstNumbers(n: nat): (s: set<int>)
    ensures |s| == n && forall x :: x in s <==> 0 <= x < n
  {
    if n == 0 then {} else FirstNumbers(n - 1) + {n - 1}
  }

  /** A set whose members all map differently into another is no larger. */
  lemma {:induction false} InjectionSize<T, U>(a: set<T>, f: T -> U, b: set<U>)
    requires forall x | x in a :: f(x) in b
    requires forall x, y | x in a && y in a && f(x) == f(y) :: x == y
    ensures |a| <= |b|
  {
    if x :| x in a {
      InjectionSize(a - {x}, f, b - {f(x)});
    }
  }

  lemma RoundSize(nranks: int, rounds: int, limited: int, j: int)
    requires rounds >= 1 && limited >= 0 && nranks <= rounds * limited
    ensures |RoundRanks(nranks, rounds, j)| <= limited
  {
    var a := RoundRanks(nranks, rounds, j);
    var turn := (r: int) => r / rounds;
    forall r | r in a ensures turn(r) in FirstNumbers(limited) {
      DivBounds(r, rounds);
      DivShrinks(r, rounds);
      if r / rounds >= limited {
        if r / rounds > limited { MulStep(limited, r / rounds, rounds); }
      }
    }
    forall x, y | x in a && y in a && turn(x) == turn(y) ensures x == y {
      DivBounds(x, rounds);
      DivBounds(y, rounds);
    }
    InjectionSize(a, turn, FirstNumbers(limited));
  }

  /** The promise is kept exactly for positive limits; a negative one is accepted by the
      option parser and breaks it. */
  lemma PromiseNeedsPositiveLimit(nranks: int, limited: int)
    requires nranks >= 1 && limited != 0
    ensures SchedulePromise(nranks, limited) <==> limited >= 1
  {
    var rounds := Rounds(nranks, limited);
    if limited >= 1 {
      RoundsAreLeast(nranks, limited, rounds);
      forall j | 0 <= j < rounds ensures |RoundRanks(nranks, rounds, j)| <= limited {
        RoundSize(nranks, rounds, limited, j);
      }
    } else if rounds >= 1 {
      DivModOf(0, 0, rounds);
      assert 0 in RoundRanks(nranks, rounds, 0);
    }
  }

  /* ---------- do_sum_limited at one rank ---------- */

  /** Run: this rank's call of do_sum; Skip: it is not its round; Gather: MPI_Gather. */
  datatype Event = Barrier | Run | Skip | Gather

  /** The first n rounds of a repeat at a rank. */
  function RoundEvents(rank: int, rounds: int, n: nat): seq<Event>
    requires rounds >= 1
  {
    if n == 0 then [] else
      RoundEvents(rank, rounds, n - 1) + [Barrier, if rank % rounds == n - 1 then Run else Skip, Barrier]
  }

  /** All repeats at a rank. */
  function Schedule(rank: int, rounds: int, repeat: nat): seq<Event>
    requires rounds >= 1
  {
    if repeat == 0 then [] else Schedule(rank, rounds, repeat - 1) + RoundEvents(rank, rounds, rounds) + [Gather]
  }

  /** The code's computation.  C division truncates; as nranks >= 0 that agrees with / here,
      for a negative limit too. */
  method RoundCount(nranks: int, limited: int) returns (rounds: int)
    requires nranks >= 1 && limited != 0
    ensures limited >= 1 ==> rounds >= 1 && nranks <= rounds * limited && (rounds - 1) * limited < nranks
    ensures limited < 0 ==> if nranks < -limited then rounds == 1 else rounds < 1
    ensures rounds >= 1 ==> rounds == Rounds(nranks, limited)
    ensures rounds < 1 ==> Rounds(nranks, limited) < 1
  {
    rounds := 1;
    if limited < nranks {
      rounds := nranks / limited;
      if nranks % limited != 0 {
        rounds := rounds + 1;
      }
    }
    if limited >= 1 {
      CeilingIs(nranks, limited, rounds);
    } else {
      NegativeDivision(nranks, -limited);
    }
  }

  lemma CeilingIs(nranks: int, limited: int, rounds: int)
    requires nranks >= 1 && limited >= 1
    requires rounds == if limited < nranks then nranks / limited + (if nranks % limited != 0 then 1 else 0) else 1
    ensures rounds == Rounds(nranks, limited) >= 1 && nranks <= rounds * limited && (rounds - 1) * limited < nranks
  {
    var q := nranks / limited;
    DivBounds(nranks, limited);
    Neighbours(q, limited);
    RoundsAreLeast(nranks, limited, rounds);
    RoundsAreLeast(nranks, limited, rounds - 1);
  }

  lemma Neighbours(q: int, k: int)
    ensures (q + 1) * k == q * k + k && (q - 1) * k == q * k - k
  {
  }

  lemma NegativeDivision(n: int, m: int)
    requires n >= 1 && m >= 1
    ensures n / -m == -(n / m) && n % -m == n % m
    ensures n < m ==> n / m == 0 && n % m != 0
    ensures n >= m ==> n / m >= 1 && (n / m == 1 && n % m != 0 ==> n > m)
  {
    DivBounds(n, m);
    if n >= m && n / m < 1 { MulStep(n / m, 1, m); }
    if n < m { DivIs(n, 0, m); }
  }

  /** The inner loop: the rounds of one repeat, appended to the log. */
  method RunRounds(rank: int, rounds: int, before: seq<Event>) returns (log: seq<Event>)
    ensures log == before + if rounds >= 1 then RoundEvents(rank, rounds, rounds) else []
  {
    log := before;
    var j := 0;
    while j < rounds
      invariant 0 <= j && (rounds >= 1 ==> j <= rounds)
      invariant log == before + if rounds >= 1 then RoundEvents(rank, rounds, j) else []
    {
      ghost var turn := if rank % rounds == j then Run else Skip;
      RoundAdded(before, RoundEvents(rank, rounds, j), turn);
      log := log + [Barrier];
      log := log + [if rank % rounds == j then Run else Skip];
      log := log + [Barrier];
      j := j + 1;
    }
  }

  lemma RoundAdded(before: seq<Event>, rounds: seq<Event>, turn: Event)
    ensures before + rounds + [Barrier] + [turn] + [Barrier] == before + (rounds + [Barrier, turn, Barrier])
  {
  }

  /** The measured part of do_sum_limited, with its barriers, calls and gathers as a log. */
  method DoSumLimited(rank: int, nranks: int, repeat: nat, limited: int) returns (log: seq<Event>)
    requires 0 <= rank < nranks && limited != 0
    ensures var rounds := Rounds(nranks, limited);
            log == if rounds >= 1 then Schedule(rank, rounds, repeat) else seq(repeat, _ => Gather)
  {
    var rounds := RoundCount(nranks, limited);
    log := [];
    var i := 0;
    while i < repeat
      invariant 0 <= i <= repeat
      invariant log == if rounds >= 1 then Schedule(rank, rounds, i) else seq(i, _ => Gather)
    {
      log := RunRounds(rank, rounds, log);
      log := log + [Gather];
      i := i + 1;
    }
  }

  /* ---------- reading a schedule ---------- */

  /** The event at place k of a repeat. */
  function EventAt(rank: int, rounds: int, k: int): Event
    requires rounds >= 1
  {
    if k == 3 * rounds then Gather
    else if k % 3 != 1 then Barrier
    else if rank % rounds == k / 3 then Run
    else Skip
  }

  lemma {:induction false} RoundEventsAt(rank: int, rounds: int, n: nat, k: int)
    requires rounds >= 1 && 0 <= k < 3 * n && n <= rounds
    ensures |RoundEvents(rank, rounds, n)| == 3 * n
    ensures RoundEvents(rank, rounds, n)[k] == EventAt(rank, rounds, k)
  {
    RoundEventsLength(rank, rounds, n);
    if k < 3 * (n - 1) {
      RoundEventsLength(rank, rounds, n - 1);
      RoundEventsAt(rank, rounds, n - 1, k);
    }
  }

  lemma {:induction false} RoundEventsLength(rank: int, rounds: int, n: nat)
    requires rounds >= 1
    ensures |RoundEvents(rank, rounds, n)| == 3 * n
  {
    if n > 0 { RoundEventsLength(rank, rounds, n - 1); }
  }

  /** A repeat is 3 * rounds + 1 events long; its event number k is EventAt(k). */
  lemma {:induction false} ScheduleAt(rank: int, rounds: int, repeat: nat, i: int, k: int)
    requires rounds >= 1 && 0 <= i < repeat && 0 <= k < 3 * rounds + 1
    ensures 0 <= i * (3 * rounds + 1) + k < |Schedule(rank, rounds, repeat)|
    ensures Schedule(rank, rounds, repeat)[i * (3 * rounds + 1) + k] == EventAt(rank, rounds, k)
  {
    var len := 3 * rounds + 1;
    NonNegative(i, len);
    ScheduleLength(rank, rounds, repeat - 1);
    RoundEventsLength(rank, rounds, rounds);
    if i < repeat - 1 {
      MulStep(i, repeat - 1, len);
      ScheduleAt(rank, rounds, repeat - 1, i, k);
    } else if k < 3 * rounds {
      RoundEventsAt(rank, rounds, rounds, k);
    }
  }

  lemma {:induction false} ScheduleLength(rank: int, rounds: int, repeat: nat)
    requires rounds >= 1
    ensures |Schedule(rank, rounds, repeat)| == repeat * (3 * rounds + 1)
  {
    RoundEventsLength(rank, rounds, rounds);
    if repeat > 0 {
      ScheduleLength(rank, rounds, repeat - 1);
      assert repeat * (3 * rounds + 1) == (repeat - 1) * (3 * rounds + 1) + (3 * rounds + 1);
    }
  }

  /** Round j of repeat i: a barrier, the call if it is the rank's round, a barrier.  So in
      each repeat every rank runs in exactly one round. */
  lemma OneTurnPerRepeat(rank: int, rounds: int, repeat: nat, i: int, j: int)
    requires rounds >= 1 && 0 <= i < repeat && 0 <= j < rounds
    ensures var log, at := Schedule(rank, rounds, repeat), i * (3 * rounds + 1) + 3 * j;
            && 0 <= at && at + 2 < |log|
            && log[at] == Barrier && log[at + 2] == Barrier
            && log[at + 1] == if j == rank % rounds then Run else Skip
  {
    ScheduleAt(rank, rounds, repeat, i, 3 * j);
    ScheduleAt(rank, rounds, repeat, i, 3 * j + 1);
    ScheduleAt(rank, rounds, repeat, i, 3 * j + 2);
  }

  /** Repeat i ends with the gather after its rounds, and the log with the last repeat. */
  lemma GatherEndsRepeat(rank: int, rounds: int, repeat: nat, i: int)
    requires rounds >= 1 && 0 <= i < repeat
    ensures var log, at := Schedule(rank, rounds, repeat), i * (3 * rounds + 1) + 3 * rounds;
            && |log| == repeat * (3 * rounds + 1)
            && 0 <= at < |log| && log[at] == Gather
  {
    ScheduleLength(rank, rounds, repeat);
    ScheduleAt(rank, rounds, repeat, i, 3 * rounds);
  }

  /** The number of calls in a log. */
  function RunsIn(log: seq<Event>): nat {
    if log == [] then 0 else RunsIn(log[..|log| - 1]) + One(log[|log| - 1] == Run)
  }

  lemma RunsInOneMore(log: seq<Event>, e: Event)
    ensures RunsIn(log + [e]) == RunsIn(log) + One(e == Run)
  {
    assert (log + [e])[..|log|] == log;
  }

  lemma {:induction false} RunsInBoth(a: seq<Event>, b: seq<Event>)
    ensures RunsIn(a + b) == RunsIn(a) + RunsIn(b)
  {
    if b == [] {
      assert a + b == a;
    } else {
      var front, last := b[..|b| - 1], b[|b| - 1];
      RunsInBoth(a, front);
      assert a + b == (a + front) + [last];
      RunsInOneMore(a + front, last);
    }
  }

  /** A rank makes as many calls as there are repeats. */
  lemma {:induction false} OneRunPerRepeat(rank: int, rounds: int, repeat: nat)
    requires rounds >= 1 && rank >= 0
    ensures RunsIn(Schedule(rank, rounds, repeat)) == repeat
  {
    if repeat > 0 {
      var before, one := Schedule(rank, rounds, repeat - 1), RoundEvents(rank, rounds, rounds);
      OneRunPerRepeat(rank, rounds, repeat - 1);
      RunsInRounds(rank, rounds, rounds);
      RunsInBoth(before, one);
      RunsInOneMore(before + one, Gather);
    }
  }

  lemma {:induction false} RunsInRounds(rank: int, rounds: int, n: nat)
    requires rounds >= 1 && rank >= 0
    ensures RunsIn(RoundEvents(rank, rounds, n)) == One(rank % rounds < n)
  {
    if n > 0 {
      var before, turn := RoundEvents(rank, rounds, n - 1), if rank % rounds == n - 1 then Run else Skip;
      RunsInRounds(rank, rounds, n - 1);
      RunsInRound(before, turn);
    }
  }

  lemma RunsInRound(before: seq<Event>, turn: Event)
    ensures RunsIn(before + [Barrier, turn, Barrier]) == RunsIn(before) + One(turn == Run)
  {
    RunsInOneMore(before, Barrier);
    RunsInOneMore(before + [Barrier], turn);
    RunsInOneMore(before + [Barrier] + [turn], Barrier);
    assert before + [Barrier, turn, Barrier] == before + [Barrier] + [turn] + [Barrier];
  }
}
