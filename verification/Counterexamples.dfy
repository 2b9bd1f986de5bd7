/** What the program's documentation leads one to expect and it does not do, each at one real start. */
module Counterexamples {
  import opened Bytes
  import opened TokenStep
  import opened TokenStream
  import SpaceGrammar
  import LogicalEof
  import opened DelimRoundTrip
  import opened ExitStatus
  import opened Trace
  import Options
  import ReplacerPlan
  import opened BatchPlan
  import opened BatchTheorems
  import opened BatchShape
  import opened AppenderMode
  import opened Xargs
  import opened EndToEnd
  import opened Halting

  /** "a" */
  const A: CString := [97]
  /** "bbbb" */
  const BBBB: CString := [98, 98, 98, 98]
  /** "c" */
  const WORD: CString := [99]

  /** The command c with these options, in an empty environment on a system without limits. */
  function Run(events: seq<Options.Event>, tokens: seq<Bytes>): Start {
    Start(events, [WORD], 0, 0, 0, Terminated(tokens, NUL), false)
  }

  /** No options at all. */
  const DEFAULTS := Options.Settings(false, 0, None, None, 0, false, 0, 1, false, None, false, false)

  lemma {:induction false} NoOptions()
    ensures Options.Given([]) == DEFAULTS
  {
  }

  lemma {:induction false} GivenIs(events: seq<Options.Event>, s: Options.Settings)
    requires Options.AppliedAll(DEFAULTS, events) == s
    ensures Options.Given(events) == s
  {
    NoOptions();
    Options.AppliedAllIsGiven([], events);
    assert [] + events == events;
  }

  /** What such a start settles, once -0 is among its options. */
  lemma {:induction false} RunIs(events: seq<Options.Event>, tokens: seq<Bytes>)
    requires FreeOf(tokens, NUL)
    ensures
      var start := Run(events, tokens);
      && start.Base() == 2 && start.Fixed() == [WORD]
      && start.Settings() == Options.Implied(Options.AppliedAll(DEFAULTS, events))
      && (start.Settings().useNul && start.Settings().delimiter == 0 ==>
            start.Tokens() == Tokens(DelimRoundTrip.Lines(tokens), CleanEnd))
  {
    GivenIs(events, Options.AppliedAll(DEFAULTS, events));
    TerminatedRoundTrip(tokens, NUL);
    ArgsLengthOne(WORD);
  }

  lemma {:induction false} SettingsAre(events: seq<Options.Event>, tokens: seq<Bytes>, s: Options.Settings)
    requires FreeOf(tokens, NUL) && Options.AppliedAll(DEFAULTS, events) == s && !s.lineMode && s.placeholder.None?
    ensures Run(events, tokens).Settings() == s
  {
    RunIs(events, tokens);
  }

  predicate Plausible(e: Options.Event) {
    Options.Parsed(e) && !e.Placeholder? && !e.Prompt?
  }

  /** ... and that it runs: with the limits its options name. */
  lemma {:induction false} RunStarts(events: seq<Options.Event>, tokens: seq<Bytes>, s: Options.Settings)
    requires FreeOf(tokens, NUL) && Run(events, tokens).Settings() == s
    requires forall i | 0 <= i < |events| :: Plausible(events[i])
    requires s.maxLength.Some? ==> 2 <= s.maxLength.value <= DEFAULT_CEILING
    ensures
      var start := Run(events, tokens);
      var size := if s.maxLength.Some? then s.maxLength.value else DEFAULT_CEILING;
      && start.Sane() && start.Starts()
      && start.Limits() == Limits(2, size, s.maxArgs, s.lineMode, s.maxLines, s.terminate)
  {
    RunIs(events, tokens);
    var start := Run(events, tokens);
    assert !Options.Given(events).prompt;
    assert start.MaxLength() == DecideMaxLength(0, 0, s.maxLength, 2);
  }

  lemma {:induction false} ThreeOptions(s: Options.Settings, a: Options.Event, b: Options.Event, c: Options.Event)
    ensures Options.AppliedAll(s, [a, b, c]) == Options.Applied(Options.Applied(Options.Applied(s, a), b), c)
  {
    assert [a, b, c][1..] == [b, c] && [b, c][1..] == [c] && [c][1..] == [];
    var s' := Options.Applied(Options.Applied(s, a), b);
    assert Options.AppliedAll(s, [a, b, c]) == Options.AppliedAll(s', [c]);
    assert Options.AppliedAll(s', [c]) == Options.AppliedAll(Options.Applied(s', c), []);
  }

  lemma {:induction false} TwoItems(a: CString, b: CString)
    ensures DelimRoundTrip.Lines([a, b]) == [Item(a, true), Item(b, true)]
  {
    LinesAt([a, b], 0);
    LinesAt([a, b], 1);
  }

  // ---------------------------------------------------------------- -P

  /** c -0 -P procs -n 1, given two tokens. */
  function Parallel(procs: nat): Start {
    Run([Options.UseNul, Options.MaxProcs(procs), Options.MaxArgs(1)], [A, A])
  }

  lemma {:induction false} ParallelSettings(procs: nat)
    ensures
      Parallel(procs).Settings()
      == Options.Settings(true, 0, None, None, 0, false, 1, procs, false, None, false, false)
  {
    ThreeOptions(DEFAULTS, Options.UseNul, Options.MaxProcs(procs), Options.MaxArgs(1));
    SettingsAre(
      [Options.UseNul, Options.MaxProcs(procs), Options.MaxArgs(1)], [A, A],
      Options.Settings(true, 0, None, None, 0, false, 1, procs, false, None, false, false));
  }

  lemma {:induction false} ParallelStarts(procs: nat)
    ensures Parallel(procs).Sane() && Parallel(procs).Starts()
    ensures Parallel(procs).Limits() == Limits(2, DEFAULT_CEILING, 1, false, 0, false)
  {
    ParallelSettings(procs);
    RunStarts(Parallel(procs).events, [A, A], Parallel(procs).Settings());
  }

  lemma {:induction false} OneEach(lim: Limits)
    requires lim.base == 2 && lim.maxLength >= 4 && lim.maxArgs == 1 && !lim.lineMode && !lim.terminate
    ensures RunPlan(lim, false, Tokens([Item(A, true), Item(A, true)], CleanEnd)) == Plan([[A], [A]], Completed)
  {
    var item: Item := Item(A, true);
    var none: seq<Item> := [];
    ArgsLengthOne(A);
    assert [] + [A] == [A] && [item, item][1..] == [item] && [item][1..] == none;
    var last := Batches(lim, [A], 0, none, CleanEnd);
    assert last == Plan([[A]], Completed);
    var later := Batches(lim, [A], 1, [item], CleanEnd);
    assert later == Launch([A], Added(lim, [A], 0, none, CleanEnd)) == Launch([A], last);
    assert RunPlan(lim, false, Tokens([item, item], CleanEnd)) == Added(lim, [A], 1, [item], CleanEnd) == later;
  }

  lemma {:induction false} ParallelPlan(procs: nat)
    ensures Parallel(procs).Starts() && Parallel(procs).AppenderPlan() == Plan([[A], [A]], Completed)
  {
    ParallelStarts(procs);
    ParallelSettings(procs);
    RunIs(Parallel(procs).events, [A, A]);
    TwoItems(A, A);
    OneEach(Parallel(procs).Limits());
  }

  lemma {:induction false} TwoLines()
    ensures CommandLines([WORD], [[A], [A]]) == [[WORD, A], [WORD, A]]
  {
    var one: seq<Batch> := [[A]];
    CommandLinesOne([WORD], [A]);
    CommandLinesAppend([WORD], one, one);
    assert one + one == [[A], [A]] && [WORD] + [A] == [WORD, A];
  }

  /** Two commands launched, then reaped in the same order. */
  function TwoLaunches(argv: Argv, first: RawStatus, second: RawStatus): History {
    [SignalsSeen(0, 0), Forked(1, argv), SignalsSeen(0, 0), Forked(2, argv), Reaped(1, first), Reaped(2, second)]
  }

  lemma {:induction false} TwoOverlap(argv: Argv, first: RawStatus, second: RawStatus)
    ensures Overlapping([argv, argv], first, second, false) == TwoLaunches(argv, first, second)
  {
    var one, two, none := [argv], [argv, argv], [];
    assert two[..1] == one && one[..0] == none;
    assert Started(none) == [];
    assert Started(one) == [SignalsSeen(0, 0), Forked(1, argv)];
    assert Started(two) == Started(one) + [SignalsSeen(0, 0)] + [Forked(2, argv)];
    var tr := Started(two) + [] + [Reaped(1, first)];
    assert Reaping(tr + [Reaped(2, second)], 3, 2, second) == tr + [Reaped(2, second)];
    assert Reaping(tr, 2, 2, second) == tr + [Reaped(2, second)];
  }

  lemma {:induction false} TwoStatuses(argv: Argv, first: RawStatus, second: RawStatus)
    ensures Statuses(TwoLaunches(argv, first, second)) == [first, second]
  {
    TwoOverlap(argv, first, second);
    var started := Started([argv, argv]);
    StartedRuns([argv, argv], 0, 0);
    Extended(started, Reaped(1, first));
    Extended(started + [Reaped(1, first)], Reaped(2, second));
    assert started + [] == started;
    assert Reaping(started + [Reaped(1, first)], 2, 2, second)
        == Reaping(started + [Reaped(1, first)] + [Reaped(2, second)], 3, 2, second);
  }

  /** With any number of processes but one, such a history is one the program may leave. */
  lemma {:induction false} ParallelRuns(procs: nat, first: RawStatus, second: RawStatus)
    requires procs != 1
    ensures
      var tr := TwoLaunches([WORD, A], first, second);
      Appends(Parallel(procs), tr, Xargs.Returned(Accumulate(Statuses(tr))))
  {
    var start, argvs := Parallel(procs), [[WORD, A], [WORD, A]];
    ParallelStarts(procs);
    ParallelSettings(procs);
    ParallelPlan(procs);
    TwoLines();
    AllOverlap(argvs, first, second, procs, 0);
    TwoOverlap([WORD, A], first, second);
    var exit := SomeRun(start, TwoLaunches([WORD, A], first, second), false);
  }

  lemma {:induction false} WorstOfTwo(first: RawStatus, second: RawStatus)
    ensures Accumulate([first, second]) == Accumulated(Accumulated(0, Mapped(first)), Mapped(second))
  {
    var none: seq<RawStatus> := [];
    var one, both := [first], [first, second];
    assert one[..0] == none && both[..1] == one;
    assert Accumulate(one) == Accumulated(Accumulate(none), Mapped(first));
  }

  /** So the documented promise fails for each such start, as Halting.HaltIsLastIff has it. */
  lemma {:induction false} ParallelBreaksPromise(procs: nat)
    requires procs != 1
    ensures Parallel(procs).Settings().maxProcs == procs && !HaltIsLast(Parallel(procs))
  {
    ParallelSettings(procs);
    ParallelStarts(procs);
    ParallelPlan(procs);
    TwoLines();
    HaltIsLastIff(Parallel(procs));
  }

  /**
   * With -P 0, -P 2 or more a child that exits with 255 does not stop further launches: here it is started
   * first, and the other command is launched all the same.
   */
  lemma {:induction false} ParallelGoesOn(procs: nat)
    requires procs != 1
    ensures Appends(Parallel(procs), TwoLaunches([WORD, A], Exited(255), Exited(0)), Xargs.Returned(HALT))
  {
    ParallelRuns(procs, Exited(255), Exited(0));
    var statuses := Statuses(TwoLaunches([WORD, A], Exited(255), Exited(0)));
    TwoStatuses([WORD, A], Exited(255), Exited(0));
    WorstOfTwo(Exited(255), Exited(0));
    assert Accumulate(statuses) == HALT;
  }

  // ---------------------------------------------------------------- the order of severity

  lemma {:induction false} KilledAndNotFound(statuses: seq<RawStatus>)
    requires statuses == [Signaled(9), Exited(127)]
    ensures Accumulate(statuses) == NOT_FOUND
    ensures IsDocumentedWorst(SIGNALLED, multiset(statuses)) && !IsDocumentedWorst(NOT_FOUND, multiset(statuses))
  {
    WorstOfTwo(Signaled(9), Exited(127));
    assert multiset(statuses) == multiset{Signaled(9), Exited(127)};
    assert Signaled(9) in multiset(statuses);
  }

  /** A command was killed and one not found: the manual has 125 win, the program returns 127. */
  lemma {:induction false} NotFoundWins() returns (tr: History)
    ensures Appends(Parallel(2), tr, Xargs.Returned(NOT_FOUND))
    ensures Statuses(tr) == [Signaled(9), Exited(127)]
    ensures IsDocumentedWorst(SIGNALLED, multiset(Statuses(tr)))
    ensures !IsDocumentedWorst(NOT_FOUND, multiset(Statuses(tr)))
  {
    tr := TwoLaunches([WORD, A], Signaled(9), Exited(127));
    ParallelRuns(2, Signaled(9), Exited(127));
    TwoStatuses([WORD, A], Signaled(9), Exited(127));
    KilledAndNotFound(Statuses(tr));
  }

  // ---------------------------------------------------------------- -s without -x

  /** c -0 -P 1 -s 5, given a short token and one that fits no command line. */
  function Unchecked(): Start {
    Run([Options.UseNul, Options.MaxProcs(1), Options.MaxLength(5)], [A, BBBB])
  }

  lemma {:induction false} UncheckedSettings()
    ensures
      Unchecked().Settings() == Options.Settings(true, 0, None, None, 0, false, 0, 1, false, Some(5), false, false)
  {
    ThreeOptions(DEFAULTS, Options.UseNul, Options.MaxProcs(1), Options.MaxLength(5));
    SettingsAre(
      [Options.UseNul, Options.MaxProcs(1), Options.MaxLength(5)], [A, BBBB],
      Options.Settings(true, 0, None, None, 0, false, 0, 1, false, Some(5), false, false));
  }

  lemma {:induction false} UncheckedStarts()
    ensures Unchecked().Sane() && Unchecked().Starts() && Unchecked().Limits() == Limits(2, 5, 0, false, 0, false)
  {
    UncheckedSettings();
    RunStarts(Unchecked().events, [A, BBBB], Unchecked().Settings());
  }

  lemma {:induction false} OversizedPlan(lim: Limits)
    requires lim == Limits(2, 5, 0, false, 0, false)
    ensures
      RunPlan(lim, false, Tokens([Item(A, true), Item(BBBB, true)], CleanEnd)) == Plan([[A], [BBBB]], Completed)
    ensures TooLong(lim, [BBBB])
  {
    var item: Item := Item(BBBB, true);
    var none: seq<Item> := [];
    ArgsLengthOne(A);
    ArgsLengthOne(BBBB);
    assert [] + [A] == [A] && [Item(A, true), item][1..] == [item] && [item][1..] == none;
    var last := Batches(lim, [BBBB], 0, none, CleanEnd);
    assert last == Plan([[BBBB]], Completed);
    var later := Batches(lim, [A], 1, [item], CleanEnd);
    assert FlushBefore(lim, [A], BBBB);
    assert later == Launch([A], Added(lim, [BBBB], 0, none, CleanEnd)) == Launch([A], last);
    assert RunPlan(lim, false, Tokens([Item(A, true), item], CleanEnd)) == Added(lim, [A], 1, [item], CleanEnd);
  }

  /** Without -x a launch can be longer than -s allows, and the run completes. */
  lemma {:induction false} OversizedLaunched() returns (start: Start)
    ensures start.Sane() && start.Starts() && start.Settings().placeholder.None?
    ensures start.Settings().maxLength == Some(5)
    ensures start.AppenderPlan() == Plan([[A], [BBBB]], Completed)
    ensures !LaunchFits(start, start.Fixed() + [BBBB])
  {
    start := Unchecked();
    UncheckedStarts();
    UncheckedSettings();
    RunIs(start.events, [A, BBBB]);
    TwoItems(A, BBBB);
    OversizedPlan(start.Limits());
    ArgsLengthConcat(start.Fixed(), [BBBB]);
  }

  // ---------------------------------------------------------------- -x

  /** c -s 5 -0 -x -n 2, given two tokens. */
  function Counted(): Start {
    Run([Options.MaxLength(5), Options.UseNul, Options.Terminate, Options.MaxArgs(2)], [A, A])
  }

  lemma {:induction false} CountedSettings()
    ensures Counted().Settings() == Options.Settings(true, 0, None, None, 0, false, 2, 1, false, Some(5), true, false)
  {
    var later := [Options.UseNul, Options.Terminate, Options.MaxArgs(2)];
    ThreeOptions(DEFAULTS.(maxLength := Some(5)), Options.UseNul, Options.Terminate, Options.MaxArgs(2));
    assert ([Options.MaxLength(5)] + later)[1..] == later;
    assert [Options.MaxLength(5)] + later == Counted().events;
    SettingsAre(
      [Options.MaxLength(5)] + later, [A, A],
      Options.Settings(true, 0, None, None, 0, false, 2, 1, false, Some(5), true, false));
  }

  lemma {:induction false} CountedStarts()
    ensures Counted().Sane() && Counted().Starts() && Counted().Limits() == Limits(2, 5, 2, false, 0, true)
  {
    CountedSettings();
    RunStarts(Counted().events, [A, A], Counted().Settings());
  }

  /** Two tokens that fit singly and not together. */
  lemma {:induction false} PairTooLong(lim: Limits, input: Tokens)
    requires lim == Limits(2, 5, 2, false, 0, true)
    requires input == Tokens([Item(A, true), Item(A, true)], CleanEnd)
    ensures Texts(input.items) == [A, A] && IsPacking(lim, [[A], [A]], [A, A])
    ensures Aborts(RunPlan(lim, false, input).end)
  {
    var one, both: Batch := [A], [A] + [A];
    assert input.items[1..] == [Item(A, true)] && [Item(A, true)][1..] == [];
    assert Texts(input.items) == both;
    assert [one, one][1..] == [one];
    ConcatOne(one);
    assert Concat([one, one]) == both;
    ArgsLengthOne(A);
    ArgsLengthConcat(one, one);
    assert Chunks(both, 2) == [both];
    CountedGrouping(lim, false, input);
  }

  /** -x with -n can give up on tokens that could all have been launched within the limits. */
  lemma {:induction false} CountedGivesUpNeedlessly() returns (start: Start, packing: seq<Batch>)
    ensures start.Sane() && start.Starts() && start.Settings().placeholder.None?
    ensures start.Settings().terminate && start.Settings().maxArgs == 2
    ensures IsPacking(start.Limits(), packing, Texts(start.Tokens().items))
    ensures Aborts(start.AppenderPlan().end)
  {
    start, packing := Counted(), [[A], [A]];
    CountedStarts();
    CountedSettings();
    RunIs(start.events, [A, A]);
    TwoItems(A, A);
    PairTooLong(start.Limits(), start.Tokens());
  }

  /** -x does not bound the launch made for empty input: a large environment makes it too long. */
  lemma {:induction false} EmptyLaunchTooLong() returns (start: Start)
    ensures start.Sane() && start.Starts() && start.Settings().placeholder.None?
    ensures start.Settings().terminate && start.Tokens() == Tokens([], CleanEnd)
    ensures start.AppenderPlan() == Plan([[]], Completed) && !LaunchFits(start, start.Fixed())
  {
    var events := [Options.Terminate];
    start := Start(events, [WORD], 0, 0x20_0000, 200_000, [], false);
    assert events[1..] == [];
    GivenIs(events, Options.Settings(false, 0, None, None, 0, false, 0, 1, false, None, true, false));
    EmptyLaunchFits(start);
  }

  // ---------------------------------------------------------------- -I

  /** "%" */
  const PERCENT: CString := [37]
  /** "aaaa" */
  const AAAA: CString := [97, 97, 97, 97]

  /** c % % -0 -I % -s 11, given one token. */
  function Twice(): Start {
    Start(
      [Options.UseNul, Options.Placeholder(PERCENT), Options.MaxLength(11)], [WORD, PERCENT, PERCENT], 0, 0, 0,
      Terminated([AAAA], NUL), false)
  }

  lemma {:induction false} TwiceSettings()
    ensures
      Twice().Settings() == Options.Settings(true, 0, None, Some(PERCENT), 1, false, 0, 1, false, Some(11), true, false)
  {
    ThreeOptions(DEFAULTS, Options.UseNul, Options.Placeholder(PERCENT), Options.MaxLength(11));
    GivenIs(
      [Options.UseNul, Options.Placeholder(PERCENT), Options.MaxLength(11)],
      Options.Settings(true, 0, None, Some(PERCENT), 0, false, 0, 1, false, Some(11), false, false));
  }

  lemma {:induction false} TwiceFixed()
    ensures ArgsLength([WORD, PERCENT, PERCENT]) == 6
    ensures ReplacerPlan.TotalOccurrences([WORD, PERCENT, PERCENT][1..], PERCENT) == 2
  {
    var one, two := [PERCENT], [PERCENT, PERCENT];
    assert two[1..] == one && one[1..] == [];
    assert [WORD, PERCENT, PERCENT][1..] == two;
    ArgsLengthOne(PERCENT);
    ReplacerPlan.OccursInItself(PERCENT);
    assert ReplacerPlan.TotalOccurrences(one, PERCENT) == 1;
  }

  lemma {:induction false} TwiceStarts()
    ensures Twice().Sane() && Twice().Starts() && Twice().Base() == 6 && Twice().MaxLength() == Some(11)
    ensures Twice().Fixed() == [WORD, PERCENT, PERCENT]
  {
    TwiceSettings();
    TwiceFixed();
    assert !Options.Given(Twice().events).prompt;
  }

  lemma {:induction false} TwiceTokens()
    ensures Twice().Tokens() == Tokens([Item(AAAA, true)], CleanEnd)
  {
    TwiceSettings();
    TerminatedRoundTrip([AAAA], NUL);
    LinesAt([AAAA], 0);
  }

  lemma {:induction false} TwicePlan()
    ensures Twice().Starts() && |Planned(Twice())| == 1 && !Abandons(Twice())
  {
    TwiceStarts();
    TwiceSettings();
    TwiceTokens();
    TwiceFixed();
    OneLaunch(Twice().ReplacerConfig());
  }

  lemma {:induction false} OneLaunch(cfg: ReplacerPlan.Setting)
    requires cfg.fixed == [WORD, PERCENT, PERCENT] && cfg.base == 6 && cfg.maxLength == 11
    requires ArgsLength(cfg.fixed) == 6 && cfg.placeholder == PERCENT
    ensures
      var plan := ReplacerPlan.RunPlan(cfg, [Item(AAAA, true)], CleanEnd);
      |plan.launches| == 1 && plan.end.Completed?
  {
    ReplacerPlan.TailIsDone(cfg.fixed[1..], PERCENT, AAAA);
    assert [Item(AAAA, true)][1..] == [];
  }

  /** With -I the check made under -s and -x does not bound the launch once the placeholder occurs twice. */
  lemma {:induction false} TwoPlaceholdersExceed() returns (start: Start, tr: History, exit: Exit)
    ensures Replaces(start, tr, exit) && start.Settings().terminate
    ensures |Launches(tr)| == 1 && !LaunchFits(start, Launches(tr)[0])
  {
    start := Twice();
    TwiceStarts();
    TwiceSettings();
    TwiceTokens();
    TwicePlan();
    TwiceFixed();
    tr := Overlapping(Planned(start), Exited(0), Exited(0), false);
    AllOverlap(Planned(start), Exited(0), Exited(0), 1, 0);
    exit := SomeRun(start, tr, false);
    SubstitutedLaunchFits(start, tr, exit, 0);
  }

  // ---------------------------------------------------------------- -E, -L, -s, -d

  /** One call on a word of one plain byte. */
  lemma {:induction false} ShortWord(marker: CString, b: Byte, separator: Byte, rest: Bytes)
    requires b > 96 && SpaceGrammar.IsSeparator(separator)
    ensures SpaceGrammar.SpaceStep(Some(marker), [b, separator] + rest, false)
         == SpaceGrammar.Deliver(Some(marker), [b], separator == NEWLINE, rest)
  {
    var s := [b, separator] + rest;
    assert s[1..] == [separator] + rest && s[1..][1..] == rest;
    assert SpaceGrammar.ScanWord(s[1..]).text == [] && [b] + [] == [b];
  }

  /** -E ends the input at a token equal to the marker even where no line equals it: "b a", "c" and -E a. */
  lemma {:induction false} MarkerWithinLine()
    ensures Tokenize(SpaceKind(Some(A)), [98, 32, 97, 10, 99], false) == Tokens([Item([98], false)], Marker)
  {
    var rest: Bytes := [97, 10] + [99];
    ShortWord(A, 98, 32, rest);
    ShortWord(A, 97, 10, [99]);
    assert [98, 32] + rest == [98, 32, 97, 10, 99];
    TokenizeToken(SpaceKind(Some(A)), [98, 32] + rest, false);
    LogicalEof.NothingButMarker(A, rest, false);
  }

  /** -n after -L is the one in force. */
  lemma {:induction false} ArgumentsAfterLines()
    ensures
      var s := Options.Implied(Options.Given([Options.MaxLines(1), Options.MaxArgs(2)]));
      !s.lineMode && s.maxArgs == 2
  {
    Options.GivenStep([Options.MaxLines(1)], Options.MaxArgs(2));
    assert [Options.MaxLines(1)] + [Options.MaxArgs(2)] == [Options.MaxLines(1), Options.MaxArgs(2)];
  }

  /** -s counts the environment: the command c needs 2 bytes, and -s 5 is refused with 4 bytes of environment. */
  lemma {:induction false} EnvironmentCounts() returns (start: Start)
    ensures start.Sane() && start.Settings().maxLength == Some(5) && ArgsLength(start.Fixed()) == 2
    ensures Options.Accepted(start.events, start.childMax) && !start.Starts()
  {
    var events := [Options.MaxLength(5)];
    start := Start(events, [WORD], 0, 0, 4, [], false);
    assert events[1..] == [];
    GivenIs(events, Options.Settings(false, 0, None, None, 0, false, 0, 1, false, Some(5), false, false));
    ArgsLengthOne(WORD);
  }

  /** "a," and a newline under -d , are two arguments, the second one empty. */
  lemma {:induction false} NewlineAfterDelimiter()
    ensures Tokenize(DelimKind(44), [97, 44, 10], false) == Tokens([Item(A, true), Item([], false)], CleanEnd)
  {
    ExtraNewlineAddsEmptyToken([A], 44);
    LinesAt([A], 0);
    assert Terminated([A], 44) + [NEWLINE] == [97, 44, 10];
  }
}
