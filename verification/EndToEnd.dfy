/** What the parts together promise of any run of the program, as Xargs.RunXargs leaves it. */
module EndToEnd {
  import opened Bytes
  import opened TokenStep
  import opened TokenStream
  import Quoting
  import LogicalEof
  import opened Trace
  import opened ExitStatus
  import opened BatchPlan
  import opened BatchTheorems
  import opened BatchShape
  import ReplacerPlan
  import opened AppenderMode
  import opened Xargs

  /** A run in appending mode. */
  ghost predicate Appends(start: Start, tr: History, exit: Exit) {
    start.Sane() && start.Starts() && start.Settings().placeholder.None? && Keeps(start, tr, exit)
  }

  /** A run in -I mode. */
  ghost predicate Replaces(start: Start, tr: History, exit: Exit) {
    start.Sane() && start.Starts() && start.Settings().placeholder.Some? && Keeps(start, tr, exit)
  }

  /** A child that exited with 255 made the program refuse a launch. */
  predicate CutShort(start: Start, tr: History) {
    Refused(tr, start.Settings().maxProcs, start.childMax)
  }

  /** main returned, and nothing was refused. */
  predicate Completes(start: Start, tr: History, exit: Exit) {
    exit.Returned? && !CutShort(start, tr)
  }

  /** A run is cut short only after a 255 was reaped, and never without a limit on processes. */
  lemma CutShortOnlyByHalt(start: Start, tr: History)
    ensures CutShort(start, tr) ==> Halted(tr) && start.Settings().maxProcs != 0
  {
    if CutShort(start, tr) {
      RefusedAfterHalt(tr, start.Settings().maxProcs, start.childMax);
      UnlimitedNeverRefuses(tr, start.childMax);
    }
  }

  // ---------------------------------------------------------------- which arguments are launched

  /** A prefix of the planned command lines is the command lines of a prefix of the planned batches. */
  lemma LaunchedBatches(fixed: seq<CString>, launches: seq<Argv>, all: seq<Batch>) returns (some: seq<Batch>)
    requires launches <= CommandLines(fixed, all)
    ensures some <= all && launches == CommandLines(fixed, some)
    ensures launches == CommandLines(fixed, all) <==> some == all
  {
    CommandLinesPrefix(fixed, all, all);
    some := all[..|launches|];
    CommandLinesPrefix(fixed, some, all);
    if launches == CommandLines(fixed, all) {
      assert some == all;
    }
  }

  /** The launches of a run are those of the first batches of its plan, of all exactly if nothing was refused. */
  lemma {:induction false} PlannedBatches(start: Start, tr: History, exit: Exit) returns (launched: seq<Batch>)
    requires Appends(start, tr, exit)
    ensures Launches(tr) == CommandLines(start.Fixed(), launched) && launched <= start.AppenderPlan().batches
    ensures launched == start.AppenderPlan().batches <==> !CutShort(start, tr)
    ensures exit.Returned? ==> (launched == start.AppenderPlan().batches ==> start.AppenderPlan().end.Completed?)
    ensures !exit.Returned? ==> launched == start.AppenderPlan().batches && !start.AppenderPlan().end.Completed?
  {
    launched := LaunchedBatches(start.Fixed(), Launches(tr), start.AppenderPlan().batches);
  }

  /**
   * End-to-end conservation: whatever children and signals do, the arguments launched after the fixed
   * ones are, in launch order, a prefix of the tokens of the input; they are all of them when main
   * returns and no launch was refused; and no launch lacks arguments if there was any token.
   */
  lemma {:induction false} EveryArgumentOnce(start: Start, tr: History, exit: Exit) returns (launched: seq<Batch>)
    requires Appends(start, tr, exit)
    ensures Launches(tr) == CommandLines(start.Fixed(), launched)
    ensures |Launches(tr)| == |launched|
    ensures forall k | 0 <= k < |launched| :: Launches(tr)[k] == start.Fixed() + launched[k]
    ensures Concat(launched) <= Texts(start.Tokens().items)
    ensures Completes(start, tr, exit) ==>
      Concat(launched) == Texts(start.Tokens().items) && !start.Tokens().outcome.Errored()
    ensures start.Tokens().items != [] ==> NoneEmpty(launched)
  {
    var plan, input := start.AppenderPlan(), start.Tokens();
    launched := PlannedBatches(start, tr, exit);
    CommandLinesAre(start.Fixed(), launched);
    Conservation(start.Limits(), start.Settings().suppressEmpty, input);
    FewerBatches(launched, plan.batches);
    if plan.end.Completed? {
      CompletedWithoutError(start.Limits(), [], 0, input.items, input.outcome);
    }
  }

  lemma {:induction false} CompletedWithoutError(
    lim: Limits, batch: Batch, lines: nat, items: seq<Item>, outcome: Outcome)
    requires Batches(lim, batch, lines, items, outcome).end.Completed?
    ensures !outcome.Errored()
    decreases |items|
  {
    if items != [] {
      var token, rest := items[0].text, items[1..];
      var batch', lines' :=
        if FlushBefore(lim, batch, token) then [token] else batch + [token],
        if FlushBefore(lim, batch, token) then 0 else lines + Boundary(items[0]);
      if lim.lineMode && lines' == lim.maxLines {
        CompletedWithoutError(lim, [], 0, rest, outcome);
      } else {
        CompletedWithoutError(lim, batch', lines', rest, outcome);
      }
    }
  }

  /** Without a limit on processes every token is launched, whatever the children exit with. */
  lemma {:induction false} UnlimitedLaunchesAll(start: Start, tr: History, exit: Exit) returns (launched: seq<Batch>)
    requires Appends(start, tr, exit) && start.Settings().maxProcs == 0 && exit.Returned?
    ensures Launches(tr) == CommandLines(start.Fixed(), launched)
    ensures Concat(launched) == Texts(start.Tokens().items) && !start.Tokens().outcome.Errored()
  {
    launched := EveryArgumentOnce(start, tr, exit);
    CutShortOnlyByHalt(start, tr);
  }

  /** The words of a correctly quoted input, in any quoting, are exactly the arguments the commands receive. */
  lemma {:induction false} QuotedWordsReachCommands(
    start: Start, tr: History, exit: Exit, lead: Bytes, ws: seq<Quoting.Written>, last: Quoting.Word)
    returns (launched: seq<Batch>)
    requires Appends(start, tr, exit) && Completes(start, tr, exit)
    requires start.Kind() == SpaceKind(None) && !start.fails
    requires Quoting.IsGap(lead) && Quoting.ValidText(ws) && Quoting.ValidPieces(last)
    requires start.input == lead + (Quoting.TextSource(ws) + (Quoting.WordSource(last) + []))
    ensures Launches(tr) == CommandLines(start.Fixed(), launched)
    ensures Concat(launched) == Texts(Quoting.TextMeaning(ws) + Quoting.LastMeaning(last))
  {
    launched := EveryArgumentOnce(start, tr, exit);
    Quoting.Reads(lead, ws, last, []);
  }

  /**
   * Success means what it says: main returns 0 exactly if every child exited with 0, and then every token
   * of the input was launched and reading it did not fail.
   */
  lemma {:induction false} Success(start: Start, tr: History, exit: Exit) returns (launched: seq<Batch>)
    requires Appends(start, tr, exit) && exit.Returned?
    ensures Launches(tr) == CommandLines(start.Fixed(), launched) && |Statuses(tr)| == |Launches(tr)|
    ensures exit.status == 0 <==> forall raw | raw in Statuses(tr) :: raw == Exited(0)
    ensures exit.status == 0 ==>
      && Completes(start, tr, exit)
      && Concat(launched) == Texts(start.Tokens().items) && !start.Tokens().outcome.Errored()
  {
    launched := EveryArgumentOnce(start, tr, exit);
    SuccessIff(Statuses(tr));
    ChildrenConserved(tr);
    CutShortOnlyByHalt(start, tr);
  }

  /** The status returned, in numbers: the greatest of 0 and what each child of the run contributes. */
  lemma {:induction false} ReturnedStatus(start: Start, tr: History, exit: Exit)
    requires start.Sane() && Keeps(start, tr, exit) && exit.Returned?
    ensures forall raw | raw in Statuses(tr) :: Code(raw) <= exit.status
    ensures exit.status == 0 || exists raw | raw in Statuses(tr) :: Code(raw) == exit.status
  {
    GreatestCode(Statuses(tr));
  }

  /** The status returned is the worst in the documented order exactly if not both kinds of failure occurred. */
  lemma {:induction false} StatusAsDocumentedIff(start: Start, tr: History, exit: Exit)
    requires start.Sane() && Keeps(start, tr, exit) && exit.Returned?
    ensures IsDocumentedWorst(exit.status, multiset(Statuses(tr)))
      <==> (forall raw | raw in Statuses(tr) :: !NotRun(raw))
           || (forall raw | raw in Statuses(tr) :: !RanAndFailed(raw))
  {
    DocumentedWorstIff(Statuses(tr));
  }

  /** With -E the arguments launched are the tokens before the first one equal to the marker, or a prefix of them. */
  lemma {:induction false} ArgumentsBeforeMarker(start: Start, tr: History, exit: Exit, marker: CString)
    returns (launched: seq<Batch>)
    requires Appends(start, tr, exit) && start.Kind() == SpaceKind(Some(marker))
    ensures Launches(tr) == CommandLines(start.Fixed(), launched)
    ensures
      var plain := Tokenize(SpaceKind(None), start.input, start.fails).items;
      var before := Texts(plain[..LogicalEof.FirstWith(plain, marker)]);
      Concat(launched) <= before && (Completes(start, tr, exit) ==> Concat(launched) == before)
  {
    launched := EveryArgumentOnce(start, tr, exit);
    LogicalEof.MarkerCuts(marker, start.input, start.fails);
    var plain := Tokenize(SpaceKind(None), start.input, start.fails).items;
    if LogicalEof.FirstWith(plain, marker) == |plain| {
      assert plain[..|plain|] == plain;
    }
  }

  /** Nothing after the marker has any influence: the same runs are possible whatever stands there. */
  lemma {:induction false} MarkerDecides(
    start: Start, marker: CString, t: Bytes, fails': bool, tr: History, exit: Exit)
    requires start.Sane() && start.Starts()
    requires start.Kind() == SpaceKind(Some(marker)) && start.Tokens().outcome.Marker?
    requires LogicalEof.Stands(marker, LogicalEof.LastRead(start.Kind(), start.input, start.fails), t, fails')
    ensures
      var unread := LogicalEof.Unread(start.Kind(), start.input, start.fails);
      && LogicalEof.IsSuffix(unread, start.input)
      && var other := start.(input := LogicalEof.Read(start.input, unread) + t, fails := fails');
         Keeps(start, tr, exit) <==> Keeps(other, tr, exit)
  {
    LogicalEof.NothingAfterMarkerMatters(marker, start.input, start.fails, t, fails');
    var unread := LogicalEof.Unread(start.Kind(), start.input, start.fails);
    var other := start.(input := LogicalEof.Read(start.input, unread) + t, fails := fails');
    SameInputSameRuns(start, other, tr, exit);
  }

  /** What a start settles apart from the input's tokens. */
  lemma {:induction false} SamePlans(start: Start, other: Start)
    requires start.Starts() && other == start.(input := other.input, fails := other.fails)
    requires other.Tokens() == start.Tokens()
    ensures other.Starts() && other.Settings() == start.Settings() && other.Fixed() == start.Fixed()
    ensures other.AppenderPlan() == start.AppenderPlan()
    ensures start.Settings().placeholder.Some? ==> other.SubstitutionPlan() == start.SubstitutionPlan()
  {
  }

  /** A run depends on the input only through its tokens. */
  lemma {:induction false} SameInputSameRuns(start: Start, other: Start, tr: History, exit: Exit)
    requires start.Sane() && start.Starts() && other == start.(input := other.input, fails := other.fails)
    requires other.Tokens() == start.Tokens()
    ensures Keeps(start, tr, exit) <==> Keeps(other, tr, exit)
  {
    SamePlans(start, other);
  }

  // ---------------------------------------------------------------- how a run ends

  /** Some command line cannot be made within the limit, as the mode in force makes them. */
  predicate CannotAllFit(lim: Limits, items: seq<Item>) {
    items != [] &&
    if lim.lineMode then
      lim.maxLines >= 1 && AnyTooLong(lim, LineGroups(BatchShape.Lines([], items), lim.maxLines))
    else if lim.terminate && lim.maxArgs > 0 then
      AnyTooLong(lim, Chunks(Texts(items), lim.maxArgs))
    else if lim.terminate then
      AnyOversized(lim, items)
    else
      Oversized(lim, items[0].text)
  }

  /**
   * An appending run fails, unless a child cut it short, exactly if reading ended in an error or some
   * command line could not be made; and if only reading did, it has waited for all its children.
   */
  lemma {:induction false} FailsIff(start: Start, tr: History, exit: Exit)
    requires Appends(start, tr, exit)
    ensures
      var lim, input := start.Limits(), start.Tokens();
      && !exit.Unpredictable?
      && (exit.Failure? <==>
            !CutShort(start, tr)
            && (input.outcome in {UnterminatedQuote, BackslashAtEof, IoError} || CannotAllFit(lim, input.items)))
      && (exit.Failure? && !CannotAllFit(lim, input.items) ==> Live(tr) == {})
  {
    var lim, input, plan := start.Limits(), start.Tokens(), start.AppenderPlan();
    var launched := PlannedBatches(start, tr, exit);
    MaxLengthIsSize(start);
    AbortsIff(lim, start.Settings().suppressEmpty, input);
    if plan.end.Completed? {
      CompletedWithoutError(lim, [], 0, input.items, input.outcome);
    } else if plan.end.InputError? {
      InputErrorMeans(lim, [], 0, input.items, input.outcome);
    }
  }

  /**
   * Whether a run that gives up waits for its children first: it does not exactly if the token after those
   * launched fits no command line and none was collected when it came, which in -L mode is after any group,
   * otherwise only at the start.
   */
  lemma {:induction false} WaitsUnlessAtOnce(start: Start, tr: History, exit: Exit) returns (launched: seq<Batch>)
    requires Appends(start, tr, exit) && exit.Failure?
    ensures Launches(tr) == CommandLines(start.Fixed(), launched)
    ensures
      var lim, items, n := start.Limits(), start.Tokens().items, |Concat(launched)|;
      if n < |items| && Oversized(lim, items[n].text) && (n == 0 || lim.lineMode) then
        Steady(tr, start.Settings().maxProcs, start.childMax)
      else Live(tr) == {}
  {
    var lim, input := start.Limits(), start.Tokens();
    launched := PlannedBatches(start, tr, exit);
    MaxLengthIsSize(start);
    UndrainedIff(lim, [], 0, input.items, input.outcome);
  }

  lemma {:induction false} UndrainedIff(lim: Limits, batch: Batch, lines: nat, items: seq<Item>, outcome: Outcome)
    requires FromOptions(lim)
    ensures
      var plan := Batches(lim, batch, lines, items, outcome);
      var n := |Concat(plan.batches)|;
      plan.end.TooLongUndrained?
      <==> (if lim.lineMode then |batch| <= n && n - |batch| < |items| && Oversized(lim, items[n - |batch|].text)
                                 && (batch == [] || plan.batches != [])
            else batch == [] && items != [] && Oversized(lim, items[0].text))
    decreases |items|
  {
    if items != [] {
      var token, rest := items[0].text, items[1..];
      LengthAppend(lim, batch, token);
      if lim.lineMode {
        if !(lim.terminate && TooLong(lim, batch + [token])) && lines + Boundary(items[0]) == lim.maxLines {
          UndrainedIff(lim, [], 0, rest, outcome);
        } else {
          UndrainedIff(lim, batch + [token], lines + Boundary(items[0]), rest, outcome);
        }
      } else if FlushBefore(lim, batch, token) {
        UndrainedIff(lim, [token], 0, rest, outcome);
      } else {
        UndrainedIff(lim, batch + [token], lines + Boundary(items[0]), rest, outcome);
      }
    }
  }

  lemma {:induction false} AbortsIff(lim: Limits, suppressEmpty: bool, input: Tokens)
    requires FromOptions(lim)
    ensures Aborts(RunPlan(lim, suppressEmpty, input).end) <==> CannotAllFit(lim, input.items)
  {
    if input.items != [] {
      if lim.lineMode {
        LineGrouping(lim, suppressEmpty, input);
      } else if lim.terminate && lim.maxArgs > 0 {
        CountedGrouping(lim, suppressEmpty, input);
      } else {
        GivesUpIff(lim, suppressEmpty, input);
      }
    }
  }

  /** A run with -I fails, unless a child cut it short, exactly if reading ended in an error or a token is blocked. */
  lemma {:induction false} ReplacingFailsIff(start: Start, tr: History, exit: Exit)
    requires Replaces(start, tr, exit)
    ensures
      var input := start.Tokens();
      !exit.Returned? <==>
        !CutShort(start, tr)
        && (input.outcome in {UnterminatedQuote, BackslashAtEof, IoError}
            || ReplacerPlan.SomeTokenBlocked(start.ReplacerConfig(), input.items))
  {
    var input := start.Tokens();
    ReplacerPlan.GivesUpIff(start.ReplacerConfig(), input.items, input.outcome);
    ReplacerEnds(start.ReplacerConfig(), input.items, input.outcome);
  }

  lemma {:induction false} ReplacerEnds(cfg: ReplacerPlan.Setting, items: seq<Item>, outcome: Outcome)
    requires cfg.fixed != []
    ensures
      var end := ReplacerPlan.RunPlan(cfg, items, outcome).end;
      && (end.Completed? ==> outcome !in {UnterminatedQuote, BackslashAtEof, IoError})
      && (end.InputError? ==> outcome in {UnterminatedQuote, BackslashAtEof, IoError})
    decreases |items|
  {
    if items != [] {
      ReplacerEnds(cfg, items[1..], outcome);
    }
  }

  /** If reading fails, main does not return as if the input had ended: only the marker or a child can stop it first. */
  lemma {:induction false} ReadFailureFails(start: Start, tr: History, exit: Exit)
    requires start.Sane() && start.Starts() && Keeps(start, tr, exit) && start.fails
    ensures exit.Returned? ==> CutShort(start, tr) || (start.Tokens().outcome == Marker && start.Kind().SpaceKind?)
  {
    FailureIsSeen(start.Kind(), start.input);
    if start.Settings().placeholder.None? {
      FailsIff(start, tr, exit);
    } else {
      ReplacingFailsIff(start, tr, exit);
    }
  }

  // ---------------------------------------------------------------- how they are grouped

  /** No run launches more commands than some other way of launching its tokens within the limits would. */
  lemma {:induction false} FewestLaunches(start: Start, tr: History, exit: Exit, packing: seq<Batch>)
    requires Appends(start, tr, exit)
    requires !start.Limits().lineMode && start.Tokens().items != []
    requires IsPacking(start.Limits(), packing, Texts(start.Tokens().items))
    ensures |Launches(tr)| <= |packing|
  {
    GreedyIsOptimal(start.Limits(), start.Settings().suppressEmpty, start.Tokens(), packing);
    CommandLinesPrefix(start.Fixed(), [], start.AppenderPlan().batches);
  }

  /**
   * In -L mode every launch is the next max_lines logical lines of the input, and the last one what is
   * left of them. A run that completes launches all groups; one that gives up, exactly those before the
   * first that is too long; one whose input fails, exactly the whole ones.
   */
  lemma {:induction false} LinesReachCommands(start: Start, tr: History, exit: Exit) returns (launched: seq<Batch>)
    requires Appends(start, tr, exit) && start.Limits().lineMode && start.Tokens().items != []
    ensures start.Limits().maxLines >= 1 && Launches(tr) == CommandLines(start.Fixed(), launched)
    ensures
      var lim, items := start.Limits(), start.Tokens().items;
      var groups := LineGroups(BatchShape.Lines([], items), lim.maxLines);
      && launched <= groups && AllFit(lim, launched)
      && (Completes(start, tr, exit) ==> launched == groups)
      && (exit.Failure? && AnyTooLong(lim, groups) ==>
            |launched| < |groups| && TooLong(lim, groups[|launched|]))
      && (exit.Failure? && !AnyTooLong(lim, groups) ==>
            start.Tokens().outcome.Errored() && |launched| == Whole(LineEnds(items), lim.maxLines))
  {
    var lim, input, plan := start.Limits(), start.Tokens(), start.AppenderPlan();
    MaxLengthIsSize(start);
    launched := PlannedBatches(start, tr, exit);
    LineGrouping(lim, start.Settings().suppressEmpty, input);
    if plan.end.InputError? {
      InputErrorMeans(lim, [], 0, input.items, input.outcome);
    }
  }

  lemma {:induction false} LinesCons(line: Batch, item: Item, rest: seq<Item>)
    ensures
      var longer := line + [item.text];
      BatchShape.Lines(line, [item] + rest)
      == if item.lineEnds then [longer] + BatchShape.Lines([], rest) else BatchShape.Lines(longer, rest)
  {
    assert ([item] + rest)[1..] == rest;
  }

  lemma {:induction false} LinesOfText(line: Batch, ws: seq<Quoting.Written>, last: Quoting.Word)
    requires Quoting.ValidText(ws)
    ensures BatchShape.Lines(line, Quoting.TextMeaning(ws) + Quoting.LastMeaning(last))
         == Quoting.TextLines(line, ws, last)
    decreases |ws|
  {
    var later := Quoting.LastMeaning(last);
    if ws == [] {
      assert Quoting.TextMeaning(ws) + later == later;
      if last != [] {
        assert later[1..] == [];
      }
    } else {
      var item, rest := Quoting.Meant(ws[0]), Quoting.TextMeaning(ws[1..]) + later;
      assert Quoting.TextMeaning(ws) + later == [item] + rest;
      LinesCons(line, item, rest);
      LinesOfText(if item.lineEnds then [] else line + [item.text], ws[1..], last);
    }
  }

  /**
   * In -L mode the commands receive the lines of a correctly quoted text, max_lines at a time, where a
   * newline that follows a word directly ends a line and a blank before it continues the line.
   */
  lemma {:induction false} QuotedLinesReachCommands(
    start: Start, tr: History, exit: Exit, lead: Bytes, ws: seq<Quoting.Written>, last: Quoting.Word)
    requires Appends(start, tr, exit) && Completes(start, tr, exit) && start.Limits().lineMode
    requires start.Kind() == SpaceKind(None) && !start.fails
    requires Quoting.IsGap(lead) && Quoting.ValidText(ws) && Quoting.ValidPieces(last) && (ws != [] || last != [])
    requires start.input == lead + (Quoting.TextSource(ws) + (Quoting.WordSource(last) + []))
    ensures start.Limits().maxLines >= 1
    ensures Launches(tr)
         == CommandLines(start.Fixed(), LineGroups(Quoting.TextLines([], ws, last), start.Limits().maxLines))
  {
    Quoting.Reads(lead, ws, last, []);
    LinesOfText([], ws, last);
    var launched := LinesReachCommands(start, tr, exit);
  }

  lemma {:induction false} InputErrorMeans(
    lim: Limits, batch: Batch, lines: nat, items: seq<Item>, outcome: Outcome)
    requires Batches(lim, batch, lines, items, outcome).end.InputError?
    ensures outcome.Errored()
    decreases |items|
  {
    if items != [] {
      var token, rest := items[0].text, items[1..];
      var batch', lines' :=
        if FlushBefore(lim, batch, token) then [token] else batch + [token],
        if FlushBefore(lim, batch, token) then 0 else lines + Boundary(items[0]);
      if lim.lineMode && lines' == lim.maxLines {
        InputErrorMeans(lim, [], 0, rest, outcome);
      } else {
        InputErrorMeans(lim, batch', lines', rest, outcome);
      }
    }
  }

  // ---------------------------------------------------------------- how long they are

  /** Environment and arguments of a launch are within the limit. */
  predicate LaunchFits(start: Start, argv: Argv)
    requires start.Starts()
  {
    start.envLength + ArgsLength(argv) <= start.MaxLength().value
  }

  predicate AllLaunchesFit(start: Start, launches: seq<Argv>)
    requires start.Starts()
  {
    forall i | 0 <= i < |launches| :: LaunchFits(start, launches[i])
  }

  lemma {:induction false} FitsMeansLaunchFits(start: Start, batches: seq<Batch>)
    requires start.Starts()
    ensures AllLaunchesFit(start, CommandLines(start.Fixed(), batches)) <==> AllFit(start.Limits(), batches)
  {
    var lim, lines := start.Limits(), CommandLines(start.Fixed(), batches);
    if batches != [] {
      var rest := batches[1..];
      FitsMeansLaunchFits(start, rest);
      ArgsLengthConcat(start.Fixed(), batches[0]);
      assert LaunchFits(start, lines[0]) <==> !TooLong(lim, batches[0]);
      assert forall i | 0 <= i < |rest| :: rest[i] == batches[i + 1];
      assert forall i | 1 <= i < |batches| :: batches[i] == rest[i - 1];
      var later := CommandLines(start.Fixed(), rest);
      assert forall i | 0 <= i < |later| :: later[i] == lines[i + 1];
      assert forall i | 1 <= i < |lines| :: lines[i] == later[i - 1];
    }
  }

  /**
   * Size of launches: with -x every launch is within the limit; without it every launch is as long as no
   * token alone is too long for it, and if a run completes, only then.
   */
  lemma {:induction false} LaunchesFit(start: Start, tr: History, exit: Exit)
    requires Appends(start, tr, exit) && start.Tokens().items != []
    ensures start.Limits().terminate || !AnyOversized(start.Limits(), start.Tokens().items) ==>
      AllLaunchesFit(start, Launches(tr))
    ensures Completes(start, tr, exit) ==>
      (AllLaunchesFit(start, Launches(tr)) <==> !AnyOversized(start.Limits(), start.Tokens().items))
  {
    MaxLengthIsSize(start);
    var launched := PlannedBatches(start, tr, exit);
    AllFitIff(start.Limits(), start.Settings().suppressEmpty, start.Tokens());
    FitsMeansLaunchFits(start, launched);
  }

  /** An input without tokens: one launch of the bare command, or none with -r; nothing can cut it short. */
  lemma {:induction false} EmptyInput(start: Start, tr: History, exit: Exit)
    requires Appends(start, tr, exit)
    requires start.Tokens().items == [] && !start.Tokens().outcome.Errored()
    ensures exit.Returned?
    ensures Launches(tr) == if start.Settings().suppressEmpty then [] else [start.Fixed()]
    ensures AllLaunchesFit(start, Launches(tr)) <==>
      start.Settings().suppressEmpty || !TooLong(start.Limits(), [])
  {
    var launched := PlannedBatches(start, tr, exit);
    if launched == [] {
      ChildrenConserved(tr);
      CutShortOnlyByHalt(start, tr);
    }
    CommandLinesOne(start.Fixed(), []);
    FitsMeansLaunchFits(start, launched);
    assert start.Fixed() + [] == start.Fixed();
  }

  // ---------------------------------------------------------------- -I

  /**
   * In -I mode the i-th launch is the command word and the other fixed arguments with the i-th token of
   * the input in place of the placeholder; there is one launch for each token when the run completes,
   * as it has if main returns 0, and for any children if the number of processes is not limited.
   */
  lemma {:induction false} SubstitutedLaunches(start: Start, tr: History, exit: Exit)
    requires Replaces(start, tr, exit)
    ensures |Launches(tr)| <= |start.Tokens().items|
    ensures forall i | 0 <= i < |Launches(tr)| ::
      ReplacerPlan.IsSubstituted(
        Launches(tr)[i], start.Fixed(), start.Settings().placeholder.value, start.Tokens().items[i].text)
    ensures Completes(start, tr, exit) ==> |Launches(tr)| == |start.Tokens().items|
    ensures exit.Returned? && (start.Settings().maxProcs == 0 || exit.status == 0) ==> Completes(start, tr, exit)
  {
    var cfg, input, plan := start.ReplacerConfig(), start.Tokens(), start.SubstitutionPlan();
    ReplacerPlan.LaunchesPerToken(cfg, input.items, input.outcome);
    forall i | 0 <= i < |Launches(tr)|
      ensures ReplacerPlan.IsSubstituted(Launches(tr)[i], cfg.fixed, cfg.placeholder, input.items[i].text)
    {
      ReplacerPlan.EachTokenLaunches(cfg, input.items, input.outcome, i);
      assert Launches(tr)[i] == plan.launches[i];
    }
    CutShortOnlyByHalt(start, tr);
    SuccessIff(Statuses(tr));
  }

  /**
   * How long they are: the check made on each token bounds a launch exactly under this condition, and
   * always if the placeholder occurs at most once after the command word.
   */
  lemma {:induction false} SubstitutedLaunchFits(start: Start, tr: History, exit: Exit, i: nat)
    requires Replaces(start, tr, exit) && i < |Launches(tr)|
    ensures i < |start.Tokens().items|
    ensures
      var p, token := start.Settings().placeholder.value, start.Tokens().items[i].text;
      var n := ReplacerPlan.TotalOccurrences(start.Fixed()[1..], p);
      && (LaunchFits(start, Launches(tr)[i])
          <==> start.Base() + n * |token| <= start.MaxLength().value + n * |p|)
      && (n <= 1 ==> LaunchFits(start, Launches(tr)[i]))
  {
    var cfg, input := start.ReplacerConfig(), start.Tokens();
    ReplacerPlan.EndsAt(cfg, input.items, input.outcome);
    assert Launches(tr)[i] == start.SubstitutionPlan().launches[i];
    ReplacerPlan.LaunchFitsIff(start.envLength, cfg.maxLength, cfg.fixed, cfg.placeholder, input.items[i].text);
  }

  // ---------------------------------------------------------------- halting

  /**
   * With one process and no signals, a child that exits with 255 is the last child: the launches are
   * exactly those up to and including it, and the status shows the halt.
   */
  lemma SerialHaltIsLast(start: Start, tr: History, exit: Exit, k: nat)
    requires start.Sane() && start.Starts() && start.Settings().maxProcs == 1
    requires Keeps(start, tr, exit) && NoSignals(tr)
    requires k < |Statuses(tr)| && Statuses(tr)[k] == Exited(255)
    ensures |Launches(tr)| == k + 1
    ensures exit.Returned? ==> Severity(exit.status) >= Severity(HALT)
  {
    DrainingForksInOrder(tr, 1, start.childMax);
    SerialStopsAtHalt(tr, start.childMax, k);
    HaltShows(Statuses(tr));
  }
}
