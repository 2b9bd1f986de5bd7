/** The history of a run as its operating system sees it, and what a run may do next. */
module Trace {
  import opened Bytes
  import opened ExitStatus

  type Argv = seq<CString>

  datatype Event =
    | Forked(pid: int, argv: Argv)
    | Reaped(pid: int, raw: RawStatus)
    | SignalsSeen(up: nat, down: nat)

  type History = seq<Event>

  function Front(tr: History): History
    requires tr != []
  {
    tr[..|tr| - 1]
  }

  function Last(tr: History): Event
    requires tr != []
  {
    tr[|tr| - 1]
  }

  /** Children started and not yet reaped. */
  function Live(tr: History): set<int> {
    if tr == [] then {}
    else match Last(tr)
      case Forked(pid, _) => Live(Front(tr)) + {pid}
      case Reaped(pid, _) => Live(Front(tr)) - {pid}
      case SignalsSeen(_, _) => Live(Front(tr))
  }

  function Statuses(tr: History): seq<RawStatus> {
    if tr == [] then []
    else if Last(tr).Reaped? then Statuses(Front(tr)) + [Last(tr).raw]
    else Statuses(Front(tr))
  }

  /** The command lines started, in order. */
  function Launches(tr: History): seq<Argv> {
    if tr == [] then []
    else if Last(tr).Forked? then Launches(Front(tr)) + [Last(tr).argv]
    else Launches(Front(tr))
  }

  /** Some reaped child exited with 255. */
  predicate Halted(tr: History) {
    Exited(255) in Statuses(tr)
  }

  /** One application of pending SIGUSR1 and SIGUSR2 to the limit; 0 is no limit, childMax <= 0 no ceiling. */
  function Adjusted(limit: nat, up: nat, down: nat, childMax: int): nat {
    if limit == 0 || (up == 0 && down == 0) then limit
    else
      var raised := if limit + up - down < 1 then 1 else limit + up - down;
      if childMax > 0 && raised > childMax then childMax else raised
  }

  /** The concurrency limit after the signals seen so far. */
  function Limit(tr: History, start: nat, childMax: int): nat {
    if tr == [] then start
    else if Last(tr).SignalsSeen? then
      Adjusted(Limit(Front(tr), start, childMax), Last(tr).up, Last(tr).down, childMax)
    else Limit(Front(tr), start, childMax)
  }

  /** What the system guarantees: a new child's pid is not in use, and only live children are reaped. */
  predicate Possible(tr: History) {
    tr == [] ||
    (&& Possible(Front(tr))
     && match Last(tr)
        case Forked(pid, _) => pid > 0 && pid !in Live(Front(tr))
        case Reaped(pid, _) => pid in Live(Front(tr))
        case SignalsSeen(_, _) => true)
  }

  predicate Full(tr: History, start: nat, childMax: int) {
    Limit(tr, start, childMax) != 0 && |Live(tr)| >= Limit(tr, start, childMax)
  }

  /** Room has been asked for since the last child was started: every request looks at the signals first. */
  predicate Asked(tr: History) {
    tr != [] && (Last(tr).SignalsSeen? || (Last(tr).Reaped? && Asked(Front(tr))))
  }

  /**
   * While the program reads input it asks for room before every launch, reaps only to get it, and forks
   * only below the limit and before a halt; what it asked for it uses, unless a child asked to halt.
   */
  predicate Running(tr: History, start: nat, childMax: int) {
    tr == [] ||
    (&& Running(Front(tr), start, childMax)
     && match Last(tr)
        case Forked(_, _) => Asked(Front(tr)) && !Halted(Front(tr)) && !Full(Front(tr), start, childMax)
        case Reaped(_, _) => Asked(Front(tr)) && Full(Front(tr), start, childMax)
        case SignalsSeen(_, _) => Asked(Front(tr)) ==> Halted(Front(tr)))
  }

  /** Between launches: a request for room that no launch followed means that a child asked to halt. */
  predicate Steady(tr: History, start: nat, childMax: int) {
    Running(tr, start, childMax) && (Asked(tr) <==> Halted(tr))
  }

  /** ... from where the program may drain, and then it only reaps. */
  predicate Draining(tr: History, start: nat, childMax: int) {
    || Steady(tr, start, childMax)
    || (tr != [] && Last(tr).Reaped? && Draining(Front(tr), start, childMax))
  }

  /**
   * A launch was refused while input was read: room was asked for, and by then a child that exited
   * with 255 had been reaped. A 255 that only the final drain reaps refuses nothing.
   */
  predicate Refused(tr: History, start: nat, childMax: int) {
    || (Steady(tr, start, childMax) && Halted(tr))
    || (tr != [] && Last(tr).Reaped? && Refused(Front(tr), start, childMax))
  }

  lemma {:induction false} RefusedAfterHalt(tr: History, start: nat, childMax: int)
    requires Refused(tr, start, childMax)
    ensures Asked(tr) && Halted(tr)
  {
    if !(Steady(tr, start, childMax) && Halted(tr)) {
      RefusedAfterHalt(Front(tr), start, childMax);
    }
  }

  /** The run has come to its end, by a final drain if any child was left: `refused` says how it got there. */
  predicate Ends(tr: History, start: nat, childMax: int, refused: bool) {
    && Draining(tr, start, childMax) && (Refused(tr, start, childMax) <==> refused)
    && (Asked(tr) ==> Halted(tr))
  }

  /** Between launches, a launch has been refused exactly when a child asked to halt. */
  lemma SteadyEnds(tr: History, start: nat, childMax: int)
    requires Steady(tr, start, childMax)
    ensures Ends(tr, start, childMax, Halted(tr))
  {
    if Refused(tr, start, childMax) {
      RefusedAfterHalt(tr, start, childMax);
    }
  }

  /** Draining refuses nothing. */
  lemma DrainingEnds(tr: History, start: nat, childMax: int, refused: bool)
    requires tr != [] && Last(tr).Reaped? && Ends(Front(tr), start, childMax, refused)
    ensures Ends(tr, start, childMax, refused)
  {
    var was, raw := Statuses(Front(tr)), Last(tr).raw;
    assert Halted(Front(tr)) ==> Exited(255) in was + [raw];
  }

  /** The part of Running and Draining that speaks of forks. */
  predicate ForksInOrder(tr: History, start: nat, childMax: int) {
    tr == [] ||
    (&& ForksInOrder(Front(tr), start, childMax)
     && (Last(tr).Forked? ==> !Halted(Front(tr)) && !Full(Front(tr), start, childMax)))
  }

  lemma {:induction false} RunningForksInOrder(tr: History, start: nat, childMax: int)
    requires Running(tr, start, childMax)
    ensures ForksInOrder(tr, start, childMax)
  {
    if tr != [] {
      RunningForksInOrder(Front(tr), start, childMax);
    }
  }

  lemma {:induction false} DrainingForksInOrder(tr: History, start: nat, childMax: int)
    requires Draining(tr, start, childMax)
    ensures ForksInOrder(tr, start, childMax)
  {
    if Steady(tr, start, childMax) {
      RunningForksInOrder(tr, start, childMax);
    } else {
      DrainingForksInOrder(Front(tr), start, childMax);
    }
  }

  // ---------------------------------------------------------------- what follows for every run

  /** The limit never leaves [1, childMax], however many signals arrive; no limit stays no limit. */
  lemma {:induction false} LimitRange(tr: History, start: nat, childMax: int)
    requires childMax > 0 ==> start <= childMax
    ensures Limit(tr, start, childMax) == 0 <==> start == 0
    ensures childMax > 0 ==> Limit(tr, start, childMax) <= childMax
  {
    if tr != [] {
      LimitRange(Front(tr), start, childMax);
    }
  }

  lemma {:induction false} ForksInOrderPrefix(tr: History, n: nat, start: nat, childMax: int)
    requires ForksInOrder(tr, start, childMax) && n <= |tr|
    ensures ForksInOrder(tr[..n], start, childMax)
    decreases |tr|
  {
    if n < |tr| {
      assert Front(tr)[..n] == tr[..n];
      ForksInOrderPrefix(Front(tr), n, start, childMax);
    } else {
      assert tr[..n] == tr;
    }
  }

  /** Concurrency bound: right after any launch, no more children run than the limit in force allows. */
  lemma LaunchWithinLimit(tr: History, start: nat, childMax: int, j: nat)
    requires ForksInOrder(tr, start, childMax) && j < |tr| && tr[j].Forked?
    ensures
      var now := tr[..j + 1];
      Limit(now, start, childMax) == 0 || |Live(now)| <= Limit(now, start, childMax)
  {
    var now := tr[..j + 1];
    ForksInOrderPrefix(tr, j + 1, start, childMax);
    assert Last(now) == tr[j];
  }

  lemma {:induction false} HaltedStays(tr: History, n: nat)
    requires n <= |tr| && Halted(tr[..n])
    ensures Halted(tr)
    decreases |tr|
  {
    if n < |tr| {
      assert Front(tr)[..n] == tr[..n];
      HaltedStays(Front(tr), n);
    } else {
      assert tr[..n] == tr;
    }
  }

  /** Halt safety: once a child that exited with 255 has been reaped, nothing more is launched. */
  lemma NoLaunchAfterHalt(tr: History, start: nat, childMax: int, i: nat, j: nat)
    requires ForksInOrder(tr, start, childMax)
    requires i < j < |tr| && tr[i].Reaped? && tr[i].raw == Exited(255)
    ensures !tr[j].Forked?
  {
    var seen, before, now := tr[..i + 1], tr[..j], tr[..j + 1];
    ForksInOrderPrefix(tr, j + 1, start, childMax);
    assert Last(seen) == tr[i] && Last(now) == tr[j] && Front(now) == before;
    assert before[..i + 1] == seen;
    HaltedStays(before, i + 1);
  }

  function ForkedPids(tr: History): seq<int> {
    if tr == [] then []
    else if Last(tr).Forked? then ForkedPids(Front(tr)) + [Last(tr).pid]
    else ForkedPids(Front(tr))
  }

  function ReapedPids(tr: History): seq<int> {
    if tr == [] then []
    else if Last(tr).Reaped? then ReapedPids(Front(tr)) + [Last(tr).pid]
    else ReapedPids(Front(tr))
  }

  /** Every child started has been reaped exactly once or is still live: pids may be reused, children are not lost. */
  lemma {:induction false} ChildrenConserved(tr: History)
    requires Possible(tr)
    ensures multiset(ForkedPids(tr)) == multiset(ReapedPids(tr)) + multiset(Live(tr))
    ensures |Launches(tr)| == |Statuses(tr)| + |Live(tr)|
  {
    if tr != [] {
      var before := Front(tr);
      ChildrenConserved(before);
      match Last(tr)
      case Forked(pid, _) =>
        assert multiset(Live(tr)) == multiset(Live(before)) + multiset{pid};
      case Reaped(pid, _) =>
        assert multiset(Live(before)) == multiset(Live(tr)) + multiset{pid};
      case SignalsSeen(_, _) =>
    }
  }

  predicate NoSignals(tr: History) {
    forall i | 0 <= i < |tr| :: tr[i].SignalsSeen? ==> tr[i].up == tr[i].down == 0
  }

  /** With a limit of one and no signals, children never overlap. */
  lemma {:induction false} SerialNeverOverlaps(tr: History, childMax: int)
    requires Possible(tr) && ForksInOrder(tr, 1, childMax) && NoSignals(tr)
    ensures Limit(tr, 1, childMax) == 1 && |Live(tr)| <= 1
    ensures tr != [] && Last(tr).Forked? ==> Live(Front(tr)) == {}
  {
    if tr != [] {
      SerialNeverOverlaps(Front(tr), childMax);
    }
  }

  /** With a limit of one and no signals, the first child that exits with 255 is the last one launched. */
  lemma {:induction false} SerialStopsAtHalt(tr: History, childMax: int, k: nat)
    requires Possible(tr) && ForksInOrder(tr, 1, childMax) && NoSignals(tr)
    requires k < |Statuses(tr)| && Statuses(tr)[k] == Exited(255)
    ensures |Statuses(tr)| == |Launches(tr)| == k + 1
  {
    var before := Front(tr);
    SerialNeverOverlaps(tr, childMax);
    SerialNeverOverlaps(before, childMax);
    ChildrenConserved(tr);
    ChildrenConserved(before);
    if k < |Statuses(before)| {
      SerialStopsAtHalt(before, childMax, k);
    }
  }

  /** Without a limit nothing is reaped while input is read, so not even a 255 stops the launches. */
  lemma {:induction false} UnlimitedNeverHalts(tr: History, childMax: int)
    requires Running(tr, 0, childMax)
    ensures Statuses(tr) == [] && !Halted(tr)
  {
    if tr != [] {
      UnlimitedNeverHalts(Front(tr), childMax);
      UnlimitedLimit(Front(tr), childMax);
    }
  }

  /** Without a limit no launch is ever refused, whatever the children exit with. */
  lemma {:induction false} UnlimitedNeverRefuses(tr: History, childMax: int)
    ensures !Refused(tr, 0, childMax)
  {
    if Running(tr, 0, childMax) {
      UnlimitedNeverHalts(tr, childMax);
    }
    if tr != [] {
      UnlimitedNeverRefuses(Front(tr), childMax);
    }
  }

  lemma {:induction false} UnlimitedLimit(tr: History, childMax: int)
    ensures Limit(tr, 0, childMax) == 0
  {
    if tr != [] {
      UnlimitedLimit(Front(tr), childMax);
    }
  }

  /** A fork changes nothing the pool's fields speak of, and is in order below the limit and before a halt. */
  lemma ForkEvent(tr: History, pid: int, argv: Argv, start: nat, childMax: int)
    ensures
      var longer := tr + [Forked(pid, argv)];
      && Limit(longer, start, childMax) == Limit(tr, start, childMax)
      && Statuses(longer) == Statuses(tr)
      && Launches(longer) == Launches(tr) + [argv]
      && (Running(tr, start, childMax) && Asked(tr) && !Halted(tr) && !Full(tr, start, childMax)
          ==> Steady(longer, start, childMax))
  {
    Extended(tr, Forked(pid, argv));
  }

  /** What a reap changes of that. */
  lemma ReapEvent(tr: History, pid: int, raw: RawStatus, start: nat, childMax: int)
    ensures
      var longer := tr + [Reaped(pid, raw)];
      && Front(longer) == tr && Last(longer) == Reaped(pid, raw)
      && Limit(longer, start, childMax) == Limit(tr, start, childMax)
      && Accumulate(Statuses(longer)) == Accumulated(Accumulate(Statuses(tr)), Mapped(raw))
      && (Halted(longer) <==> Halted(tr) || raw == Exited(255))
      && Launches(longer) == Launches(tr)
  {
    Extended(tr, Reaped(pid, raw));
    var was := Statuses(tr);
    assert (was + [raw])[..|was|] == was;
  }

  /** One event more. */
  lemma Extended(tr: History, e: Event)
    ensures Front(tr + [e]) == tr && Last(tr + [e]) == e
  {
  }
}
