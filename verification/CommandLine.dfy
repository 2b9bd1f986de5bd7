/**
 * What each option does, from the options as given to what is read and what may start: in literal numbers and
 * bytes, and without the settings, kinds and limits in which the program keeps them.
 */
module CommandLine {
  import opened Bytes
  import opened TokenStep
  import opened TokenStream
  import DelimRoundTrip
  import Options
  import opened Xargs

  type Event = Options.Event

  predicate ChoosesMode(e: Event) {
    e.Placeholder? || e.MaxLines? || e.MaxArgs?
  }

  predicate ChoosesDelimiter(e: Event) {
    e.UseNul? || e.Delimiter?
  }

  predicate ChoosesMarker(e: Event) {
    e.EofMarker?
  }

  predicate ChoosesProcs(e: Event) {
    e.MaxProcs?
  }

  predicate ChoosesLength(e: Event) {
    e.MaxLength?
  }

  /** The option at i is the last of its kind. */
  predicate IsLast(events: seq<Event>, i: nat, kind: Event -> bool) {
    i < |events| && kind(events[i]) && forall j | i < j < |events| :: !kind(events[j])
  }

  predicate Absent(events: seq<Event>, kind: Event -> bool) {
    forall j | 0 <= j < |events| :: !kind(events[j])
  }

  /** The -I, -L or -n in force is this one; the options may name others before it. */
  ghost predicate Replacing(events: seq<Event>) {
    exists i: nat :: IsLast(events, i, ChoosesMode) && events[i].Placeholder?
  }

  ghost predicate ByLines(events: seq<Event>) {
    exists i: nat :: IsLast(events, i, ChoosesMode) && events[i].MaxLines?
  }

  // ---------------------------------------------------------------- the last of a kind

  lemma {:induction false} LastFound(events: seq<Event>, i: nat, kind: Event -> bool)
    requires IsLast(events, i, kind)
    ensures Options.LastOf(events, kind) == Some(events[i])
  {
    var later := events[i + 1..];
    assert events == events[..i] + [events[i]] + later;
    Options.LastWins(events[..i], events[i], later, kind);
  }

  lemma {:induction false} NoneFound(events: seq<Event>, kind: Event -> bool)
    requires Absent(events, kind)
    ensures Options.LastOf(events, kind) == None
  {
  }

  /** There is a last one unless there is none. */
  lemma {:induction false} LastOrNone(events: seq<Event>, kind: Event -> bool) returns (i: nat)
    ensures IsLast(events, i, kind) || Absent(events, kind)
  {
    i := |events|;
    while i > 0 && !kind(events[i - 1])
      invariant i <= |events| && forall j | i <= j < |events| :: !kind(events[j])
    {
      i := i - 1;
    }
    i := if i > 0 then i - 1 else 0;
  }

  // ---------------------------------------------------------------- what is in force

  /** Which mode is in force, and what it brings along. */
  lemma {:induction false} ModeInForce(events: seq<Event>, i: nat)
    requires IsLast(events, i, ChoosesMode)
    ensures
      var s := Options.Implied(Options.Given(events));
      match events[i]
      case Placeholder(text) => s.placeholder == Some(text) && !s.lineMode && s.maxArgs == 0 && s.terminate
      case MaxLines(n) => s.placeholder == None && s.lineMode && s.maxLines == n && s.maxArgs == 0 && s.terminate
      case MaxArgs(n) =>
        s.placeholder == None && !s.lineMode && s.maxArgs == n && (s.terminate <==> Options.Terminate in events)
      case _ => false
  {
    assert forall j | i < j < |events| :: !ChoosesMode(events[j]);
    assert forall j | i < j < |events| :: !Options.IsMode(events[j]);
    LastFound(events, i, Options.IsMode);
  }

  lemma {:induction false} NoModeInForce(events: seq<Event>)
    requires Absent(events, ChoosesMode)
    ensures
      var s := Options.Implied(Options.Given(events));
      s.placeholder == None && !s.lineMode && s.maxArgs == 0 && (s.terminate <==> Options.Terminate in events)
  {
    assert forall j | 0 <= j < |events| :: !ChoosesMode(events[j]);
    NoneFound(events, Options.IsMode);
  }

  lemma {:induction false} ReplacingIff(events: seq<Event>)
    ensures Options.Implied(Options.Given(events)).placeholder.Some? <==> Replacing(events)
    ensures Options.Implied(Options.Given(events)).lineMode <==> ByLines(events)
  {
    var k := LastOrNone(events, ChoosesMode);
    if IsLast(events, k, ChoosesMode) {
      ModeInForce(events, k);
    } else {
      NoModeInForce(events);
    }
    forall i: nat | IsLast(events, i, ChoosesMode)
      ensures i == k
    {
    }
  }

  /** -P, -s, -r and -p; without -P one process. */
  lemma {:induction false} OthersInForce(events: seq<Event>)
    ensures
      var s := Options.Implied(Options.Given(events));
      && (forall i: nat | IsLast(events, i, ChoosesProcs) :: s.maxProcs == events[i].procs)
      && (Absent(events, ChoosesProcs) ==> s.maxProcs == 1)
      && (forall i: nat | IsLast(events, i, ChoosesLength) :: s.maxLength == Some(events[i].length))
      && (Absent(events, ChoosesLength) ==> s.maxLength == None)
      && (s.suppressEmpty <==> Options.SuppressEmpty in events)
      && (s.prompt <==> Options.Prompt in events)
  {
    forall i: nat | IsLast(events, i, ChoosesProcs)
      ensures Options.Given(events).maxProcs == events[i].procs
    {
      assert forall j | i < j < |events| :: !ChoosesProcs(events[j]);
      LastFound(events, i, Options.IsProcs);
    }
    if Absent(events, ChoosesProcs) {
      assert forall j | 0 <= j < |events| :: !ChoosesProcs(events[j]);
      NoneFound(events, Options.IsProcs);
    }
    forall i: nat | IsLast(events, i, ChoosesLength)
      ensures Options.Given(events).maxLength == Some(events[i].length)
    {
      assert forall j | i < j < |events| :: !ChoosesLength(events[j]);
      LastFound(events, i, Options.IsLength);
    }
    if Absent(events, ChoosesLength) {
      assert forall j | 0 <= j < |events| :: !ChoosesLength(events[j]);
      NoneFound(events, Options.IsLength);
    }
  }

  // ---------------------------------------------------------------- what is read

  /** Each text followed by this byte. */
  function EachThen(texts: seq<CString>, b: Byte): Bytes {
    if texts == [] then [] else texts[0] + [b] + EachThen(texts[1..], b)
  }

  /** Exactly these tokens, each ending a line, and then the end of the input. */
  predicate AreTokens(read: Tokens, texts: seq<CString>) {
    && read.outcome == CleanEnd && |read.items| == |texts|
    && forall k | 0 <= k < |texts| :: read.items[k] == Item(texts[k], true)
  }

  lemma {:induction false} EachThenIsTerminated(texts: seq<CString>, b: Byte)
    ensures EachThen(texts, b) == DelimRoundTrip.Terminated(texts, b)
  {
    if texts != [] {
      EachThenIsTerminated(texts[1..], b);
    }
  }

  lemma {:induction false} SplitAt(texts: seq<CString>, b: Byte)
    requires forall k | 0 <= k < |texts| :: b !in texts[k]
    ensures AreTokens(Tokenize(DelimKind(b), EachThen(texts, b), false), texts)
  {
    EachThenIsTerminated(texts, b);
    DelimRoundTrip.TerminatedRoundTrip(texts, b);
    forall k | 0 <= k < |texts|
      ensures DelimRoundTrip.Lines(texts)[k] == Item(texts[k], true)
    {
      DelimRoundTrip.LinesAt(texts, k);
    }
  }

  /** With -d the input is split at the byte given, with -0 at byte 0; the last of them decides, in every mode. */
  lemma {:induction false} DelimiterSplits(start: Start, i: nat, b: Byte, texts: seq<CString>)
    requires IsLast(start.events, i, ChoosesDelimiter)
    requires match start.events[i] case Delimiter(ch) => 0 < ch < 256 && b == ch case _ => b == 0
    requires forall k | 0 <= k < |texts| :: b !in texts[k]
    requires start.input == EachThen(texts, b) && !start.fails
    ensures AreTokens(start.Tokens(), texts)
  {
    assert forall j | i < j < |start.events| :: !ChoosesDelimiter(start.events[j]);
    LastFound(start.events, i, Options.IsDelimiter);
    SplitAt(texts, b);
  }

  /** With -I and neither -0 nor -d the input is split at byte 10: its lines are the tokens, blanks and quotes kept. */
  lemma {:induction false} PlaceholderReadsLines(start: Start, lines: seq<CString>)
    requires Replacing(start.events) && Absent(start.events, ChoosesDelimiter)
    requires forall k | 0 <= k < |lines| :: 10 !in lines[k]
    requires start.input == EachThen(lines, 10) && !start.fails
    ensures AreTokens(start.Tokens(), lines)
  {
    assert forall j | 0 <= j < |start.events| :: !ChoosesDelimiter(start.events[j]);
    NoneFound(start.events, Options.IsDelimiter);
    ReplacingIff(start.events);
    SplitAt(lines, 10);
  }

  lemma {:induction false} QuotingRulesChosen(start: Start)
    requires !Replacing(start.events) && Absent(start.events, ChoosesDelimiter)
    ensures Absent(start.events, ChoosesMarker) ==> start.Kind() == SpaceKind(None)
    ensures forall i: nat | IsLast(start.events, i, ChoosesMarker) ::
      start.Kind() == SpaceKind(Some(start.events[i].text))
  {
    assert forall j | 0 <= j < |start.events| :: !ChoosesDelimiter(start.events[j]);
    NoneFound(start.events, Options.IsDelimiter);
    ReplacingIff(start.events);
    if Absent(start.events, ChoosesMarker) {
      assert forall j | 0 <= j < |start.events| :: !ChoosesMarker(start.events[j]);
      NoneFound(start.events, Options.IsMarker);
    }
    forall i: nat | IsLast(start.events, i, ChoosesMarker)
      ensures Options.Given(start.events).marker == Some(start.events[i].text)
    {
      assert forall j | i < j < |start.events| :: !ChoosesMarker(start.events[j]);
      LastFound(start.events, i, Options.IsMarker);
    }
  }

  /** With none of -I, -0 and -d the quoting rules are in force, and the last -E if there is one. */
  lemma {:induction false} QuotingRulesRead(start: Start)
    requires !Replacing(start.events) && Absent(start.events, ChoosesDelimiter)
    ensures Absent(start.events, ChoosesMarker) ==>
      start.Tokens() == Tokenize(SpaceKind(None), start.input, start.fails)
    ensures forall i: nat | IsLast(start.events, i, ChoosesMarker) ::
      start.Tokens() == Tokenize(SpaceKind(Some(start.events[i].text)), start.input, start.fails)
  {
    QuotingRulesChosen(start);
  }

  // ---------------------------------------------------------------- what may start

  /** The command and its arguments as given; without any, /bin/echo. */
  function CommandGiven(start: Start): seq<CString> {
    if start.command == [] then [[47, 98, 105, 110, 47, 101, 99, 104, 111]] else start.command
  }

  /** The bytes of some arguments, each with the byte 0 that ends it. */
  function BytesOf(args: seq<CString>): nat {
    |Concat(args)| + |args|
  }

  lemma {:induction false} BytesOfIs(args: seq<CString>)
    ensures ArgsLength(args) == BytesOf(args)
  {
    if args != [] {
      BytesOfIs(args[1..]);
    }
  }

  /** What the system leaves: ARG_MAX without twice the environment and 2048, 128 KiB where it names no ARG_MAX. */
  function Room(start: Start): nat {
    if start.argMax <= 0 then 131072
    else if start.argMax > 2 * start.envLength + 2048 then start.argMax - 2 * start.envLength - 2048
    else 0
  }

  /** What the environment and the command alone take. */
  function Needed(start: Start): nat {
    start.envLength + BytesOf(CommandGiven(start))
  }

  lemma {:induction false} SizeInForce(start: Start)
    ensures start.Fixed() == CommandGiven(start) && start.Base() == Needed(start)
    ensures Absent(start.events, ChoosesLength) ==>
      start.MaxLength() == Some(if Room(start) < 131072 then Room(start) else 131072)
    ensures forall i: nat | IsLast(start.events, i, ChoosesLength) ::
      var n := start.events[i].length;
      start.MaxLength() == if Needed(start) <= n <= Room(start) then Some(n) else None
  {
    BytesOfIs(CommandGiven(start));
    OthersInForce(start.events);
  }

  /** No -P is above the system's limit, and -p is not combined with more than one process. */
  predicate ProcsAllowed(events: seq<Event>, childMax: int) {
    forall k | 0 <= k < |events| ::
      events[k].MaxProcs? ==> events[k].procs == 0 || childMax <= 0 || events[k].procs <= childMax
  }

  /** Which starts are refused: a -P too large, -p with a -P above one in force, a -s too small or too large. */
  lemma {:induction false} StartsIff(start: Start)
    ensures start.Starts() <==>
      && ProcsAllowed(start.events, start.childMax)
      && (Options.Prompt in start.events ==>
            forall i: nat | IsLast(start.events, i, ChoosesProcs) :: start.events[i].procs <= 1)
      && (forall i: nat | IsLast(start.events, i, ChoosesLength) ::
            Needed(start) <= start.events[i].length <= Room(start))
  {
    SizeInForce(start);
    OthersInForce(start.events);
    var p := LastOrNone(start.events, ChoosesProcs);
    var l := LastOrNone(start.events, ChoosesLength);
    forall i: nat | IsLast(start.events, i, ChoosesProcs)
      ensures i == p
    {
    }
    forall i: nat | IsLast(start.events, i, ChoosesLength)
      ensures i == l
    {
    }
    assert ProcsAllowed(start.events, start.childMax)
      <==> forall i | 0 <= i < |start.events| :: Options.AllowedProcs(start.events[i], start.childMax);
  }
}
