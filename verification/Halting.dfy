/**
 * When a child that exits with 255 is the last one launched, as the documentation of -P promises: which
 * starts keep that promise in every run, and histories that break it for all others.
 */
module Halting {
  import opened ExitStatus
  import opened Trace
  import AppenderMode
  import opened Xargs
  import opened EndToEnd

  // ---------------------------------------------------------------- children that overlap

  function Pids(a: int, b: int): set<int>
    decreases b - a
  {
    if a > b then {} else Pids(a, b - 1) + {b}
  }

  lemma {:induction false} PidsAre(a: int, b: int)
    ensures forall p :: p in Pids(a, b) <==> a <= p <= b
    ensures |Pids(a, b)| == if a > b then 0 else b - a + 1
    decreases b - a
  {
    if a <= b {
      PidsAre(a, b - 1);
    }
  }

  lemma {:induction false} FirstGone(a: int, b: int)
    requires a <= b
    ensures Pids(a, b) - {a} == Pids(a + 1, b) && a in Pids(a, b)
  {
    PidsAre(a, b);
    PidsAre(a + 1, b);
    assert a in Pids(a, b);
    forall p
      ensures p in Pids(a, b) - {a} <==> p in Pids(a + 1, b)
    {
    }
  }

  /** Children 1 to n launched one after the other, with no signals seen and none reaped. */
  function Started(argvs: seq<Argv>): History {
    var n := |argvs|;
    if n == 0 then [] else Started(argvs[..n - 1]) + [SignalsSeen(0, 0)] + [Forked(n, argvs[n - 1])]
  }

  /** Nothing has been reaped, and these are the launches. */
  ghost predicate Undisturbed(tr: History, argvs: seq<Argv>, limit: nat, childMax: int) {
    && Possible(tr) && Steady(tr, limit, childMax) && NoSignals(tr) && Limit(tr, limit, childMax) == limit
    && Live(tr) == Pids(1, |argvs|) && Launches(tr) == argvs && Statuses(tr) == []
  }

  /** Asking for room, when no signals have arrived. */
  lemma {:induction false} AsksQuietly(tr: History, argvs: seq<Argv>, limit: nat, childMax: int)
    requires Undisturbed(tr, argvs, limit, childMax)
    ensures
      var asked := tr + [SignalsSeen(0, 0)];
      && Possible(asked) && Running(asked, limit, childMax) && Asked(asked) && NoSignals(asked)
      && Limit(asked, limit, childMax) == limit && Live(asked) == Live(tr)
      && Launches(asked) == argvs && Statuses(asked) == []
  {
    Extended(tr, SignalsSeen(0, 0));
  }

  /** One more of them, where the limit leaves room. */
  lemma {:induction false} OneMore(tr: History, argvs: seq<Argv>, argv: Argv, limit: nat, childMax: int)
    requires Undisturbed(tr, argvs, limit, childMax) && (limit == 0 || |argvs| < limit)
    ensures
      Undisturbed(tr + [SignalsSeen(0, 0)] + [Forked(|argvs| + 1, argv)], argvs + [argv], limit, childMax)
  {
    var asked, pid := tr + [SignalsSeen(0, 0)], |argvs| + 1;
    AsksQuietly(tr, argvs, limit, childMax);
    PidsAre(1, |argvs|);
    Extended(asked, Forked(pid, argv));
    ForkEvent(asked, pid, argv, limit, childMax);
    assert Pids(1, pid) == Pids(1, |argvs|) + {pid};
  }

  lemma {:induction false} StartedRuns(argvs: seq<Argv>, limit: nat, childMax: int)
    requires limit == 0 || |argvs| <= limit
    ensures Undisturbed(Started(argvs), argvs, limit, childMax)
  {
    var n := |argvs|;
    if n > 0 {
      StartedRuns(argvs[..n - 1], limit, childMax);
      OneMore(Started(argvs[..n - 1]), argvs[..n - 1], argvs[n - 1], limit, childMax);
      assert argvs == argvs[..n - 1] + [argvs[n - 1]];
    }
  }

  /** Children a to b reaped in order, with this status all of them. */
  function Reaping(tr: History, a: int, b: int, raw: RawStatus): History
    decreases b - a
  {
    if a > b then tr else Reaping(tr + [Reaped(a, raw)], a + 1, b, raw)
  }

  lemma {:induction false} ReapingEnds(
    tr: History, a: int, b: int, raw: RawStatus, limit: nat, childMax: int, refused: bool)
    requires Possible(tr) && Ends(tr, limit, childMax, refused) && Live(tr) == Pids(a, b) && NoSignals(tr)
    ensures
      var done := Reaping(tr, a, b, raw);
      && Possible(done) && Ends(done, limit, childMax, refused) && Live(done) == {} && NoSignals(done)
      && Launches(done) == Launches(tr) && Statuses(tr) <= Statuses(done)
    decreases b - a
  {
    if a <= b {
      var more := tr + [Reaped(a, raw)];
      Extended(tr, Reaped(a, raw));
      DrainingEnds(more, limit, childMax, refused);
      FirstGone(a, b);
      ReapingEnds(more, a + 1, b, raw, limit, childMax, refused);
    }
  }

  /** All launched before any is reaped; `asks` if room for more was asked for before. */
  function Overlapping(argvs: seq<Argv>, first: RawStatus, others: RawStatus, asks: bool): History {
    Reaping(
      Started(argvs) + (if asks then [SignalsSeen(0, 0)] else []) + [Reaped(1, first)], 2, |argvs|, others)
  }

  /** Everything launched within the limit: it is the final drain that finds the first child's status. */
  lemma {:induction false} AllOverlap(
    argvs: seq<Argv>, first: RawStatus, others: RawStatus, limit: nat, childMax: int)
    requires argvs != [] && (limit == 0 || |argvs| <= limit)
    ensures
      var tr := Overlapping(argvs, first, others, false);
      && Possible(tr) && Ends(tr, limit, childMax, false) && Live(tr) == {} && NoSignals(tr)
      && Launches(tr) == argvs && Statuses(tr) != [] && Statuses(tr)[0] == first
  {
    var tr := Started(argvs);
    StartedRuns(argvs, limit, childMax);
    SteadyEnds(tr, limit, childMax);
    var more := tr + [Reaped(1, first)];
    Extended(tr, Reaped(1, first));
    assert tr + [] == tr;
    DrainingEnds(more, limit, childMax, false);
    FirstGone(1, |argvs|);
    assert Statuses(more) == [first];
    ReapingEnds(more, 2, |argvs|, others, limit, childMax, false);
  }

  /** As many launched as the limit allows: a launch is refused once the first is found to have exited with 255. */
  lemma {:induction false} FullOverlap(argvs: seq<Argv>, childMax: int)
    requires argvs != []
    ensures
      var tr := Overlapping(argvs, Exited(255), Exited(0), true);
      && Possible(tr) && Ends(tr, |argvs|, childMax, true) && Live(tr) == {} && NoSignals(tr)
      && Launches(tr) == argvs && Statuses(tr) != [] && Statuses(tr)[0] == Exited(255)
  {
    var limit, tr := |argvs|, Started(argvs);
    StartedRuns(argvs, limit, childMax);
    PidsAre(1, limit);
    FirstGone(1, limit);
    var asked := tr + [SignalsSeen(0, 0)];
    Extended(tr, SignalsSeen(0, 0));
    var more := asked + [Reaped(1, Exited(255))];
    Extended(asked, Reaped(1, Exited(255)));
    assert Full(asked, limit, childMax);
    assert Statuses(more) == [Exited(255)];
    SteadyEnds(more, limit, childMax);
    assert Live(more) == Pids(2, limit);
    ReapingEnds(more, 2, limit, Exited(0), limit, childMax, true);
  }

  /** Without signals a launch is refused only once as many children have been started as the limit allows. */
  lemma {:induction false} RefusedWasFull(tr: History, limit: nat, childMax: int)
    requires Possible(tr) && Refused(tr, limit, childMax) && NoSignals(tr)
    ensures limit != 0 && |Launches(tr)| >= limit
  {
    if Steady(tr, limit, childMax) && Halted(tr) {
      ReapedWasFull(tr, limit, childMax);
    } else {
      RefusedWasFull(Front(tr), limit, childMax);
    }
  }

  lemma {:induction false} ReapedWasFull(tr: History, limit: nat, childMax: int)
    requires Possible(tr) && Running(tr, limit, childMax) && NoSignals(tr)
    ensures Limit(tr, limit, childMax) == limit
    ensures Statuses(tr) != [] ==> limit != 0 && |Launches(tr)| >= limit
  {
    if tr != [] {
      ReapedWasFull(Front(tr), limit, childMax);
      ChildrenConserved(Front(tr));
    }
  }

  // ---------------------------------------------------------------- the two modes as one

  ghost predicate Runs(start: Start, tr: History, exit: Exit) {
    start.Sane() && start.Starts() && Keeps(start, tr, exit)
  }

  /** The command lines a run launches when nothing is refused. */
  function Planned(start: Start): seq<Argv>
    requires start.Starts()
  {
    if start.Settings().placeholder.None? then
      AppenderMode.CommandLines(start.Fixed(), start.AppenderPlan().batches)
    else
      start.SubstitutionPlan().launches
  }

  /** Having launched them, the program exits without waiting for its children. */
  predicate Abandons(start: Start)
    requires start.Starts()
  {
    if start.Settings().placeholder.None? then
      start.AppenderPlan().end.TooLongUndrained?
    else
      !start.SubstitutionPlan().end.Completed? && !start.SubstitutionPlan().end.InputError?
  }

  lemma {:induction false} RunFollows(start: Start, tr: History, exit: Exit)
    requires Runs(start, tr, exit)
    ensures Launches(tr) <= Planned(start) && (Launches(tr) == Planned(start) <==> !CutShort(start, tr))
    ensures Abandons(start) ==>
      CutShort(start, tr) || Steady(tr, start.Settings().maxProcs, start.childMax)
  {
  }

  /** Every history that fits the plan is one the program may leave. */
  lemma {:induction false} SomeRun(start: Start, tr: History, refused: bool) returns (exit: Exit)
    requires start.Sane() && start.Starts() && Possible(tr) && Live(tr) == {}
    requires Ends(tr, start.Settings().maxProcs, start.childMax, refused)
    requires Launches(tr) <= Planned(start) && (Launches(tr) == Planned(start) <==> !refused)
    requires refused || !Abandons(start)
    ensures Runs(start, tr, exit)
    ensures exit.Returned? ==> exit.status == Accumulate(Statuses(tr))
  {
    var completes :=
      if start.Settings().placeholder.None? then start.AppenderPlan().end.Completed?
      else start.SubstitutionPlan().end.Completed?;
    exit := if refused || completes then Xargs.Returned(Accumulate(Statuses(tr))) else Failure;
  }

  // ---------------------------------------------------------------- the promise

  /** Whatever happens short of signals, a child that exits with 255 is the last one launched. */
  ghost predicate HaltIsLast(start: Start) {
    forall tr: History, exit: Exit, k: nat ::
      Runs(start, tr, exit) && NoSignals(tr) && k < |Statuses(tr)| && Statuses(tr)[k] == Exited(255)
      ==> |Launches(tr)| == k + 1
  }

  lemma {:induction false} KeepsPromise(start: Start, tr: History, exit: Exit, k: nat)
    requires Runs(start, tr, exit) && NoSignals(tr)
    requires k < |Statuses(tr)| && Statuses(tr)[k] == Exited(255)
    requires
      var n, procs := |Planned(start)|, start.Settings().maxProcs;
      procs == 1 || n <= 1 || (Abandons(start) && (procs == 0 || n <= procs))
    ensures |Launches(tr)| == k + 1
  {
    RunFollows(start, tr, exit);
    ChildrenConserved(tr);
    if start.Settings().maxProcs == 1 {
      SerialHaltIsLast(start, tr, exit, k);
    } else if |Planned(start)| > 1 {
      var procs := start.Settings().maxProcs;
      if !CutShort(start, tr) {
        SteadyEnds(tr, procs, start.childMax);
      } else {
        RefusedWasFull(tr, procs, start.childMax);
      }
      assert false;
    }
  }

  lemma {:induction false} BreaksPromise(start: Start) returns (tr: History, exit: Exit)
    requires start.Sane() && start.Starts() && start.Settings().maxProcs != 1 && |Planned(start)| >= 2
    requires
      var n, procs := |Planned(start)|, start.Settings().maxProcs;
      Abandons(start) ==> procs != 0 && n > procs
    ensures Runs(start, tr, exit) && NoSignals(tr) && |Statuses(tr)| > 0 && Statuses(tr)[0] == Exited(255)
    ensures |Launches(tr)| >= 2
  {
    var all, procs := Planned(start), start.Settings().maxProcs;
    if procs == 0 || |all| <= procs {
      tr := Overlapping(all, Exited(255), Exited(0), false);
      AllOverlap(all, Exited(255), Exited(0), procs, start.childMax);
      exit := SomeRun(start, tr, false);
    } else {
      tr := Overlapping(all[..procs], Exited(255), Exited(0), true);
      FullOverlap(all[..procs], start.childMax);
      exit := SomeRun(start, tr, true);
    }
  }

  /**
   * The documented promise is kept in every run exactly by the starts that run one process at a time, by
   * those that have at most one command to run, and by those that launch all they can at once and then
   * exit without ever learning how their children ended.
   */
  lemma {:induction false} HaltIsLastIff(start: Start)
    requires start.Sane() && start.Starts()
    ensures
      var n, procs := |Planned(start)|, start.Settings().maxProcs;
      HaltIsLast(start) <==> procs == 1 || n <= 1 || (Abandons(start) && (procs == 0 || n <= procs))
  {
    var n, procs := |Planned(start)|, start.Settings().maxProcs;
    if procs == 1 || n <= 1 || (Abandons(start) && (procs == 0 || n <= procs)) {
      forall tr: History, exit: Exit, k: nat |
        Runs(start, tr, exit) && NoSignals(tr) && k < |Statuses(tr)| && Statuses(tr)[k] == Exited(255)
        ensures |Launches(tr)| == k + 1
      {
        KeepsPromise(start, tr, exit, k);
      }
    } else {
      var tr, exit := BreaksPromise(start);
      var k: nat := 0;
      assert Statuses(tr)[k] == Exited(255);
    }
  }
}
