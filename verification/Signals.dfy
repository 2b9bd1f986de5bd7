/** What SIGUSR1 and SIGUSR2 do to the limit on processes, counted in signals received. */
module Signals {
  import opened ExitStatus
  import opened Trace
  import Xargs
  import EndToEnd
  import Halting
  import Counterexamples

  /** How many SIGUSR1 a run has taken notice of. */
  function Ups(tr: History): nat {
    if tr == [] then 0 else Ups(Front(tr)) + if Last(tr).SignalsSeen? then Last(tr).up else 0
  }

  /** How many SIGUSR2. */
  function Downs(tr: History): nat {
    if tr == [] then 0 else Downs(Front(tr)) + if Last(tr).SignalsSeen? then Last(tr).down else 0
  }

  /** SIGUSR1 alone never lowers the limit, SIGUSR2 alone never raises it. */
  lemma {:induction false} EachItsWay(tr: History, n: nat, start: nat, childMax: int)
    requires childMax > 0 ==> start <= childMax
    ensures Limit(tr + [SignalsSeen(n, 0)], start, childMax) >= Limit(tr, start, childMax)
    ensures Limit(tr + [SignalsSeen(0, n)], start, childMax) <= Limit(tr, start, childMax)
  {
    LimitRange(tr, start, childMax);
    Extended(tr, SignalsSeen(n, 0));
    Extended(tr, SignalsSeen(0, n));
  }

  /** Each signal counts for one, up to CHILD_MAX where there is one and down to 1. */
  lemma {:induction false} SaturatesAtBounds(tr: History, up: nat, down: nat, start: nat, childMax: int)
    requires start >= 1 && (childMax > 0 ==> start <= childMax)
    ensures
      var now, next := Limit(tr, start, childMax), Limit(tr + [SignalsSeen(up, down)], start, childMax);
      && (1 <= now + up - down && (childMax > 0 ==> now + up - down <= childMax) ==> next == now + up - down)
      && (now + up - down < 1 ==> next == 1)
      && (childMax > 0 && now + up - down > childMax ==> next == childMax)
  {
    LimitRange(tr, start, childMax);
    Extended(tr, SignalsSeen(up, down));
  }

  /** The sum of the signals so far is within the bounds at every point of the history. */
  ghost predicate WithinBounds(tr: History, start: nat, childMax: int) {
    forall n | 0 <= n <= |tr| ::
      var limit := start + Ups(tr[..n]) - Downs(tr[..n]);
      1 <= limit && (childMax > 0 ==> limit <= childMax)
  }

  /** Within the bounds the limit is the -P argument, one more for each SIGUSR1, one less for each SIGUSR2. */
  lemma {:induction false} LimitIsSum(tr: History, start: nat, childMax: int)
    requires WithinBounds(tr, start, childMax)
    ensures Limit(tr, start, childMax) == start + Ups(tr) - Downs(tr)
  {
    assert tr[..|tr|] == tr;
    if tr != [] {
      var before := Front(tr);
      forall n | 0 <= n <= |before|
        ensures before[..n] == tr[..n]
      {
      }
      LimitIsSum(before, start, childMax);
    }
  }

  /** After a launch no more children live than the -P argument and the signals so far allow. */
  lemma {:induction false} LaunchWithinSum(start: Xargs.Start, tr: History, exit: Xargs.Exit, j: nat)
    requires Halting.Runs(start, tr, exit) && j < |tr| && tr[j].Forked?
    requires start.Settings().maxProcs >= 1 && WithinBounds(tr[..j + 1], start.Settings().maxProcs, start.childMax)
    ensures |Live(tr[..j + 1])| <= start.Settings().maxProcs + Ups(tr[..j + 1]) - Downs(tr[..j + 1])
  {
    DrainingForksInOrder(tr, start.Settings().maxProcs, start.childMax);
    LaunchWithinLimit(tr, start.Settings().maxProcs, start.childMax, j);
    LimitIsSum(tr[..j + 1], start.Settings().maxProcs, start.childMax);
  }

  // ---------------------------------------------------------------- a run that a signal changes

  /** -P 1, a SIGUSR1 before the first launch: the second command is launched while the first still runs. */
  function Raised(argv: Argv): History {
    [SignalsSeen(1, 0), Forked(1, argv), SignalsSeen(0, 0), Forked(2, argv),
     Reaped(1, Exited(0)), Reaped(2, Exited(0))]
  }

  /** Nothing reaped so far. */
  ghost predicate Before(tr: History, limit: nat, live: set<int>, launches: seq<Argv>) {
    && Possible(tr) && Steady(tr, 1, 0) && Limit(tr, 1, 0) == limit
    && Live(tr) == live && Launches(tr) == launches && Statuses(tr) == []
  }

  /** A launch after this many SIGUSR1. */
  lemma {:induction false} LaunchAfter(
    tr: History, up: nat, pid: int, argv: Argv, limit: nat, live: set<int>, launches: seq<Argv>)
    requires Before(tr, limit, live, launches) && limit >= 1 && |live| < limit + up && pid > 0 && pid !in live
    ensures
      Before(tr + [SignalsSeen(up, 0)] + [Forked(pid, argv)], limit + up, live + {pid}, launches + [argv])
  {
    var asked := tr + [SignalsSeen(up, 0)];
    Extended(tr, SignalsSeen(up, 0));
    SaturatesAtBounds(tr, up, 0, 1, 0);
    assert Running(asked, 1, 0) && Asked(asked) && Possible(asked) && Live(asked) == live;
    Extended(asked, Forked(pid, argv));
    ForkEvent(asked, pid, argv, 1, 0);
  }

  lemma {:induction false} RaisedLaunches(argv: Argv)
    ensures Before([SignalsSeen(1, 0), Forked(1, argv), SignalsSeen(0, 0), Forked(2, argv)], 2, {1, 2}, [argv, argv])
  {
    var none: History := [];
    LaunchAfter(none, 1, 1, argv, 1, {}, []);
    var one := none + [SignalsSeen(1, 0)] + [Forked(1, argv)];
    assert [] + [argv] == [argv] && {} + {1} == {1};
    LaunchAfter(one, 0, 2, argv, 2, {1}, [argv]);
    assert one + [SignalsSeen(0, 0)] + [Forked(2, argv)]
        == [SignalsSeen(1, 0), Forked(1, argv), SignalsSeen(0, 0), Forked(2, argv)];
  }

  lemma {:induction false} RaisedSteps(argv: Argv)
    ensures
      var tr := Raised(argv);
      && Possible(tr) && Ends(tr, 1, 0, false) && Live(tr) == {} && Live(tr[..4]) == {1, 2}
      && Launches(tr) == [argv, argv] && Statuses(tr) == [Exited(0), Exited(0)]
  {
    var t4 := [SignalsSeen(1, 0), Forked(1, argv), SignalsSeen(0, 0), Forked(2, argv)];
    RaisedLaunches(argv);
    SteadyEnds(t4, 1, 0);
    var t5 := t4 + [Reaped(1, Exited(0))];
    Extended(t4, Reaped(1, Exited(0)));
    DrainingEnds(t5, 1, 0, false);
    assert Live(t5) == {2} && Statuses(t5) == [Exited(0)];
    var t6 := t5 + [Reaped(2, Exited(0))];
    Extended(t5, Reaped(2, Exited(0)));
    DrainingEnds(t6, 1, 0, false);
    assert t6 == Raised(argv) && t6[..4] == t4;
  }

  /** After one SIGUSR1, two children of a run with -P 1 live at once. */
  lemma {:induction false} TwoAtOnce() returns (start: Xargs.Start, tr: History)
    ensures start.Settings().maxProcs == 1 && EndToEnd.Appends(start, tr, Xargs.Returned(0))
    ensures tr == Raised([Counterexamples.WORD, Counterexamples.A]) && Live(tr[..4]) == {1, 2}
  {
    var argv := [Counterexamples.WORD, Counterexamples.A];
    start, tr := Counterexamples.Parallel(1), Raised(argv);
    Counterexamples.ParallelStarts(1);
    Counterexamples.ParallelSettings(1);
    Counterexamples.ParallelPlan(1);
    Counterexamples.TwoLines();
    RaisedSteps(argv);
    Counterexamples.WorstOfTwo(Exited(0), Exited(0));
    var exit := Halting.SomeRun(start, tr, false);
  }
}
