/** What each option does to the launches of any run, from the options as given to the history the run leaves. */
module OptionEffects {
  import opened Bytes
  import opened TokenStep
  import opened TokenStream
  import Quoting
  import LogicalEof
  import Options
  import opened Trace
  import opened BatchPlan
  import BatchTheorems
  import BatchShape
  import ReplacerPlan
  import AppenderMode
  import opened Xargs
  import opened EndToEnd
  import opened Halting
  import Signals
  import opened CommandLine

  /** The arguments of the launches, in order, without the command given. */
  predicate ArgumentsAre(start: Start, launches: seq<Argv>, batches: seq<Batch>) {
    |launches| == |batches| && forall k | 0 <= k < |batches| :: launches[k] == CommandGiven(start) + batches[k]
  }

  lemma {:induction false} TextsAre(read: Tokens, texts: seq<CString>)
    requires AreTokens(read, texts)
    ensures Texts(read.items) == texts
  {
    forall k | 0 <= k < |texts|
      ensures Texts(read.items)[k] == texts[k]
    {
      TextAt(read.items, k);
    }
  }

  lemma {:induction false} TextAt(items: seq<Item>, k: nat)
    requires k < |items|
    ensures Texts(items)[k] == items[k].text
  {
    if k > 0 {
      TextAt(items[1..], k - 1);
    }
  }

  lemma {:induction false} AppendsUnlessReplacing(start: Start, tr: History, exit: Exit)
    requires Runs(start, tr, exit)
    ensures if Replacing(start.events) then Replaces(start, tr, exit) else Appends(start, tr, exit)
  {
    ReplacingIff(start.events);
  }

  // ---------------------------------------------------------------- what is launched

  /** Without -I each launch is the command given and some tokens; together they are the tokens read. */
  lemma {:induction false} TokensLaunched(start: Start, tr: History, exit: Exit) returns (launched: seq<Batch>)
    requires Runs(start, tr, exit) && !Replacing(start.events)
    ensures ArgumentsAre(start, Launches(tr), launched) && Concat(launched) <= Texts(start.Tokens().items)
    ensures Completes(start, tr, exit) ==> Concat(launched) == Texts(start.Tokens().items)
  {
    AppendsUnlessReplacing(start, tr, exit);
    SizeInForce(start);
    launched := EveryArgumentOnce(start, tr, exit);
  }

  /** -d and -0: the arguments launched are what stands before each delimiter. */
  lemma {:induction false} DelimitedLaunched(
    start: Start, tr: History, exit: Exit, i: nat, b: Byte, texts: seq<CString>)
    returns (launched: seq<Batch>)
    requires Runs(start, tr, exit) && !Replacing(start.events) && IsLast(start.events, i, ChoosesDelimiter)
    requires match start.events[i] case Delimiter(ch) => 0 < ch < 256 && b == ch case _ => b == 0
    requires forall k | 0 <= k < |texts| :: b !in texts[k]
    requires start.input == EachThen(texts, b) && !start.fails
    ensures ArgumentsAre(start, Launches(tr), launched) && Concat(launched) <= texts
    ensures Completes(start, tr, exit) ==> Concat(launched) == texts
  {
    DelimiterSplits(start, i, b, texts);
    TextsAre(start.Tokens(), texts);
    launched := TokensLaunched(start, tr, exit);
  }

  /** Neither: they are the words of a correctly quoted text. */
  lemma {:induction false} WordsLaunched(
    start: Start, tr: History, exit: Exit, lead: Bytes, ws: seq<Quoting.Written>, last: Quoting.Word)
    returns (launched: seq<Batch>)
    requires Runs(start, tr, exit) && !Replacing(start.events)
    requires Absent(start.events, ChoosesDelimiter) && Absent(start.events, ChoosesMarker) && !start.fails
    requires Quoting.IsGap(lead) && Quoting.ValidText(ws) && Quoting.ValidPieces(last)
    requires start.input == lead + (Quoting.TextSource(ws) + (Quoting.WordSource(last) + []))
    ensures ArgumentsAre(start, Launches(tr), launched)
    ensures Concat(launched) <= Texts(Quoting.TextMeaning(ws) + Quoting.LastMeaning(last))
    ensures Completes(start, tr, exit) ==>
      Concat(launched) == Texts(Quoting.TextMeaning(ws) + Quoting.LastMeaning(last))
  {
    QuotingRulesRead(start);
    Quoting.Reads(lead, ws, last, []);
    launched := TokensLaunched(start, tr, exit);
  }

  /** -E: only those before the first one equal to the marker. */
  lemma {:induction false} MarkerStopsLaunches(start: Start, tr: History, exit: Exit, i: nat)
    returns (launched: seq<Batch>)
    requires Runs(start, tr, exit) && !Replacing(start.events)
    requires Absent(start.events, ChoosesDelimiter) && IsLast(start.events, i, ChoosesMarker)
    ensures ArgumentsAre(start, Launches(tr), launched)
    ensures
      var plain := Tokenize(SpaceKind(None), start.input, start.fails).items;
      var before := Texts(plain[..LogicalEof.FirstWith(plain, start.events[i].text)]);
      Concat(launched) <= before && (Completes(start, tr, exit) ==> Concat(launched) == before)
  {
    AppendsUnlessReplacing(start, tr, exit);
    SizeInForce(start);
    QuotingRulesChosen(start);
    launched := ArgumentsBeforeMarker(start, tr, exit, start.events[i].text);
    AppenderMode.CommandLinesAre(start.Fixed(), launched);
  }

  /** -I: the k-th launch is the command given with the k-th line of the input in place of the placeholder. */
  lemma {:induction false} LinesSubstituted(start: Start, tr: History, exit: Exit, i: nat, lines: seq<CString>)
    requires Runs(start, tr, exit) && IsLast(start.events, i, ChoosesMode) && start.events[i].Placeholder?
    requires Absent(start.events, ChoosesDelimiter)
    requires forall k | 0 <= k < |lines| :: 10 !in lines[k]
    requires start.input == EachThen(lines, 10) && !start.fails
    ensures |Launches(tr)| <= |lines| && (Completes(start, tr, exit) ==> |Launches(tr)| == |lines|)
    ensures CommandGiven(start) != [] && forall k | 0 <= k < |Launches(tr)| ::
      ReplacerPlan.IsSubstituted(Launches(tr)[k], CommandGiven(start), start.events[i].text, lines[k])
  {
    assert Replacing(start.events);
    AppendsUnlessReplacing(start, tr, exit);
    ModeInForce(start.events, i);
    SizeInForce(start);
    PlaceholderReadsLines(start, lines);
    SubstitutedLaunches(start, tr, exit);
  }

  // ---------------------------------------------------------------- how it is grouped and bounded

  /** -n: no launch has more arguments than that after the command given. */
  lemma {:induction false} AtMostArgs(start: Start, tr: History, exit: Exit, i: nat, k: nat)
    requires Runs(start, tr, exit) && IsLast(start.events, i, ChoosesMode) && start.events[i].MaxArgs?
    requires start.events[i].args >= 1 && k < |Launches(tr)|
    ensures |Launches(tr)[k]| <= |CommandGiven(start)| + start.events[i].args
  {
    ModeInForce(start.events, i);
    SizeInForce(start);
    MaxLengthIsSize(start);
    var launched := PlannedBatches(start, tr, exit);
    AppenderMode.CommandLinesAre(start.Fixed(), launched);
    if start.Tokens().items != [] {
      BatchTheorems.SizeSafety(start.Limits(), start.Settings().suppressEmpty, start.Tokens());
      assert BatchTheorems.Obeys(start.Limits(), start.AppenderPlan().batches[k]);
    } else {
      assert |start.AppenderPlan().batches[k]| == 0;
    }
  }

  /** -L: every launch is that many lines of the input, in order, the last one what is left of them. */
  lemma {:induction false} LinesGrouped(start: Start, tr: History, exit: Exit, i: nat) returns (launched: seq<Batch>)
    requires Runs(start, tr, exit) && IsLast(start.events, i, ChoosesMode) && start.events[i].MaxLines?
    requires start.Tokens().items != [] && start.events[i].lines >= 1
    ensures ArgumentsAre(start, Launches(tr), launched)
    ensures
      var groups := BatchShape.LineGroups(BatchShape.Lines([], start.Tokens().items), start.events[i].lines);
      launched <= groups && (Completes(start, tr, exit) ==> launched == groups)
  {
    ModeInForce(start.events, i);
    SizeInForce(start);
    launched := LinesReachCommands(start, tr, exit);
    AppenderMode.CommandLinesAre(start.Fixed(), launched);
  }

  /** -s with -x or -L, and without -s the default: no launch is longer, its environment and final NULs counted. */
  lemma {:induction false} LengthBounded(start: Start, tr: History, exit: Exit, k: nat)
    requires Runs(start, tr, exit) && !Replacing(start.events) && start.Tokens().items != []
    requires Options.Terminate in start.events || ByLines(start.events)
    requires k < |Launches(tr)|
    ensures forall i: nat | IsLast(start.events, i, ChoosesLength) ::
      start.envLength + BytesOf(Launches(tr)[k]) <= start.events[i].length
    ensures start.envLength + BytesOf(Launches(tr)[k]) <= Room(start)
    ensures Absent(start.events, ChoosesLength) ==> start.envLength + BytesOf(Launches(tr)[k]) <= 131072
  {
    AppendsUnlessReplacing(start, tr, exit);
    SizeInForce(start);
    var m := LastOrNone(start.events, ChoosesMode);
    if IsLast(start.events, m, ChoosesMode) {
      ModeInForce(start.events, m);
    } else {
      NoModeInForce(start.events);
    }
    forall i: nat | IsLast(start.events, i, ChoosesMode)
      ensures i == m
    {
    }
    LaunchesFit(start, tr, exit);
    BytesOfIs(Launches(tr)[k]);
    assert LaunchFits(start, Launches(tr)[k]);
    var l := LastOrNone(start.events, ChoosesLength);
  }

  /** -P, or one process without it: no more children live after a launch than that and the signals so far allow. */
  lemma {:induction false} ProcessesBounded(start: Start, tr: History, exit: Exit, procs: nat, j: nat)
    requires Runs(start, tr, exit) && j < |tr| && tr[j].Forked? && procs >= 1
    requires
      (exists i: nat :: IsLast(start.events, i, ChoosesProcs) && start.events[i].procs == procs)
      || (Absent(start.events, ChoosesProcs) && procs == 1)
    requires Signals.WithinBounds(tr[..j + 1], procs, start.childMax)
    ensures |Live(tr[..j + 1])| <= procs + Signals.Ups(tr[..j + 1]) - Signals.Downs(tr[..j + 1])
  {
    OthersInForce(start.events);
    Signals.LaunchWithinSum(start, tr, exit, j);
  }

  /** -r: an input without tokens launches nothing; without it, the command given once. */
  lemma {:induction false} EmptyInputLaunch(start: Start, tr: History, exit: Exit)
    requires Runs(start, tr, exit) && !Replacing(start.events) && start.Tokens() == Tokens([], CleanEnd)
    ensures Launches(tr) == if Options.SuppressEmpty in start.events then [] else [CommandGiven(start)]
  {
    AppendsUnlessReplacing(start, tr, exit);
    SizeInForce(start);
    OthersInForce(start.events);
    EmptyInput(start, tr, exit);
  }

  /** A refused start launches nothing and fails. */
  lemma {:induction false} RefusedStart(start: Start, tr: History, exit: Exit)
    requires start.Sane() && Keeps(start, tr, exit)
    requires
      || !ProcsAllowed(start.events, start.childMax)
      || (Options.Prompt in start.events
          && exists i: nat :: IsLast(start.events, i, ChoosesProcs) && start.events[i].procs > 1)
      || exists i: nat ::
           IsLast(start.events, i, ChoosesLength) && !(Needed(start) <= start.events[i].length <= Room(start))
    ensures exit.Failure? && tr == []
  {
    StartsIff(start);
  }
}
