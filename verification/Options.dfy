/** Option processing after parsing: which of several options wins, and what the winners imply. */
module Options {
  import opened Bytes

  /** One parsed option. Numbers are already known to be at least 1, those of -P at least 0. */
  datatype Event =
    | UseNul
    | Delimiter(ch: int)
    | EofMarker(text: CString)
    | Placeholder(text: CString)
    | MaxLines(lines: nat)
    | MaxArgs(args: nat)
    | MaxProcs(procs: nat)
    | SuppressEmpty
    | MaxLength(length: nat)
    | Terminate
    | Prompt

  predicate Parsed(e: Event) {
    match e
    case Delimiter(ch) => -128 <= ch < 256 && ch != 0
    case MaxLines(n) => n >= 1
    case MaxArgs(n) => n >= 1
    case MaxLength(n) => n >= 1
    case _ => true
  }

  predicate IsMode(e: Event) {
    e.Placeholder? || e.MaxLines? || e.MaxArgs?
  }

  predicate IsDelimiter(e: Event) {
    e.UseNul? || e.Delimiter?
  }

  predicate IsMarker(e: Event) {
    e.EofMarker?
  }

  predicate IsProcs(e: Event) {
    e.MaxProcs?
  }

  predicate IsLength(e: Event) {
    e.MaxLength?
  }

  /** The last option of a kind. */
  function LastOf(events: seq<Event>, kind: Event -> bool): (last: Option<Event>)
    ensures last.None? ==> forall i | 0 <= i < |events| :: !kind(events[i])
    ensures last.Some? ==> kind(last.value) && last.value in events
  {
    if events == [] then None
    else if kind(events[|events| - 1]) then Some(events[|events| - 1])
    else LastOf(events[..|events| - 1], kind)
  }

  /** What the rest of the program is told. */
  datatype Settings = Settings(
    useNul: bool,
    delimiter: int,
    marker: Option<CString>,
    placeholder: Option<CString>,
    maxLines: nat,
    lineMode: bool,
    maxArgs: nat,
    maxProcs: nat,
    suppressEmpty: bool,
    maxLength: Option<nat>,
    terminate: bool,
    prompt: bool)

  /** Each group of options by the last one given, before any implications. */
  function Given(events: seq<Event>): Settings {
    var mode := LastOf(events, IsMode);
    var delimiter := LastOf(events, IsDelimiter);
    var marker := LastOf(events, IsMarker);
    var procs := LastOf(events, IsProcs);
    var length := LastOf(events, IsLength);
    Settings(
      delimiter == Some(UseNul),
      if delimiter.Some? && delimiter.value.Delimiter? then delimiter.value.ch else 0,
      if marker.Some? then Some(marker.value.text) else None,
      if mode.Some? && mode.value.Placeholder? then Some(mode.value.text) else None,
      if mode.Some? && mode.value.MaxLines? then mode.value.lines else 0,
      mode.Some? && mode.value.MaxLines?,
      if mode.Some? && mode.value.MaxArgs? then mode.value.args else 0,
      if procs.Some? then procs.value.procs else 1,
      SuppressEmpty in events,
      if length.Some? then Some(length.value.length) else None,
      Terminate in events,
      Prompt in events)
  }

  /** -L and -I imply -x; -I also cancels -E, counts lines singly and splits at newlines unless told otherwise. */
  function Implied(s: Settings): Settings {
    var t := if s.lineMode then s.(terminate := true) else s;
    if t.placeholder.Some? then
      t.(terminate := true, marker := None, maxLines := 1,
         delimiter := if !t.useNul && t.delimiter == 0 then NEWLINE else t.delimiter)
    else t
  }

  /** A -P the system allows; childMax <= 0 when it names no limit. */
  predicate AllowedProcs(e: Event, childMax: int) {
    e.MaxProcs? && e.procs > 0 && childMax > 0 ==> e.procs <= childMax
  }

  predicate Accepted(events: seq<Event>, childMax: int) {
    && (forall i | 0 <= i < |events| :: AllowedProcs(events[i], childMax))
    && !(Given(events).prompt && Given(events).maxProcs > 1)
  }

  /** What one option does to the settings so far. */
  function Applied(s: Settings, e: Event): Settings {
    match e
    case UseNul => s.(useNul := true, delimiter := 0)
    case Delimiter(ch) => s.(useNul := false, delimiter := ch)
    case EofMarker(text) => s.(marker := Some(text))
    case Placeholder(text) => s.(placeholder := Some(text), maxLines := 0, lineMode := false, maxArgs := 0)
    case MaxLines(n) => s.(maxLines := n, lineMode := true, placeholder := None, maxArgs := 0)
    case MaxArgs(n) => s.(maxArgs := n, placeholder := None, maxLines := 0, lineMode := false)
    case MaxProcs(n) => s.(maxProcs := n)
    case SuppressEmpty => s.(suppressEmpty := true)
    case MaxLength(n) => s.(maxLength := Some(n))
    case Terminate => s.(terminate := true)
    case Prompt => s.(prompt := true)
  }

  lemma {:induction false} LastStep(earlier: seq<Event>, e: Event, kind: Event -> bool)
    ensures LastOf(earlier + [e], kind) == if kind(e) then Some(e) else LastOf(earlier, kind)
  {
    var all := earlier + [e];
    assert all[..|all| - 1] == earlier && all[|all| - 1] == e;
  }

  lemma {:induction false} FlagStep(earlier: seq<Event>, e: Event, flag: Event)
    ensures flag in earlier + [e] <==> flag in earlier || flag == e
  {
  }

  /** Applying options one after the other is the same as taking the last of each kind. */
  lemma {:induction false} GivenStep(earlier: seq<Event>, e: Event)
    ensures Given(earlier + [e]) == Applied(Given(earlier), e)
  {
    LastStep(earlier, e, IsMode);
    LastStep(earlier, e, IsDelimiter);
    LastStep(earlier, e, IsMarker);
    LastStep(earlier, e, IsProcs);
    LastStep(earlier, e, IsLength);
    FlagStep(earlier, e, SuppressEmpty);
    FlagStep(earlier, e, Terminate);
    FlagStep(earlier, e, Prompt);
  }

  lemma {:induction false} GivenNext(events: seq<Event>, i: nat)
    requires i < |events|
    ensures Given(events[..i + 1]) == Applied(Given(events[..i]), events[i])
  {
    GivenStep(events[..i], events[i]);
    assert events[..i] + [events[i]] == events[..i + 1];
  }

  /** One option after the other. */
  function AppliedAll(s: Settings, events: seq<Event>): Settings
    decreases |events|
  {
    if events == [] then s else AppliedAll(Applied(s, events[0]), events[1..])
  }

  /** The whole option loop amounts to taking the last of each kind. */
  lemma {:induction false} AppliedAllIsGiven(earlier: seq<Event>, events: seq<Event>)
    ensures AppliedAll(Given(earlier), events) == Given(earlier + events)
    decreases |events|
  {
    if events == [] {
      assert earlier + events == earlier;
    } else {
      GivenStep(earlier, events[0]);
      AppliedAllIsGiven(earlier + [events[0]], events[1..]);
      assert earlier + [events[0]] + events[1..] == earlier + events;
    }
  }

  class OptionTable {
    var useNul: bool
    var delimiter: int
    var marker: Option<CString>
    var placeholder: Option<CString>
    var maxLines: nat
    var lineMode: bool
    var maxArgs: nat
    var maxProcs: nat
    var suppressEmpty: bool
    var maxLength: Option<nat>
    var terminate: bool
    var prompt: bool

    function Current(): Settings
      reads this
    {
      Settings(
        useNul, delimiter, marker, placeholder, maxLines, lineMode, maxArgs, maxProcs,
        suppressEmpty, maxLength, terminate, prompt)
    }

    constructor ()
      ensures Current() == Given([])
    {
      useNul, delimiter, marker, placeholder := false, 0, None, None;
      maxLines, lineMode, maxArgs, maxProcs := 0, false, 0, 1;
      suppressEmpty, maxLength, terminate, prompt := false, None, false, false;
    }

    /** The switch over one option; false where the program exits. */
    method Set(e: Event, childMax: int) returns (ok: bool)
      modifies this
      ensures ok == AllowedProcs(e, childMax)
      ensures ok ==> Current() == Applied(old(Current()), e)
    {
      match e {
        case UseNul =>
          useNul := true;
          delimiter := 0;
        case Delimiter(ch) =>
          delimiter := ch;
          useNul := false;
        case EofMarker(text) =>
          marker := Some(text);
        case Placeholder(text) =>
          placeholder := Some(text);
          maxLines, lineMode := 0, false;
          maxArgs := 0;
        case MaxLines(n) =>
          maxLines, lineMode := n, true;
          placeholder := None;
          maxArgs := 0;
        case MaxArgs(n) =>
          maxArgs := n;
          placeholder := None;
          maxLines, lineMode := 0, false;
        case MaxProcs(n) =>
          if n > 0 {
            if childMax > 0 && n > childMax {
              return false;
            }
          }
          maxProcs := n;
        case SuppressEmpty =>
          suppressEmpty := true;
        case MaxLength(n) =>
          maxLength := Some(n);
        case Terminate =>
          terminate := true;
        case Prompt =>
          prompt := true;
      }
      return true;
    }

    method ApplyImplications()
      modifies this
      ensures Current() == Implied(old(Current()))
    {
      if lineMode {
        terminate := true;
      }
      if placeholder.Some? {
        terminate := true;
        marker := None;
        maxLines := 1;
        if !useNul && delimiter == 0 {
          delimiter := NEWLINE;
          useNul := false;
        }
      }
    }

    /** The option loop and the implications after it; false where the program exits. */
    method Configure(events: seq<Event>, childMax: int) returns (ok: bool)
      requires Current() == Given([])
      modifies this
      ensures ok == Accepted(events, childMax)
      ensures ok ==> Current() == Implied(Given(events))
    {
      var i := 0;
      while i < |events|
        invariant 0 <= i <= |events| && Current() == Given(events[..i])
        invariant forall k | 0 <= k < i :: AllowedProcs(events[k], childMax)
      {
        ok := Set(events[i], childMax);
        if !ok {
          return;
        }
        GivenNext(events, i);
        i := i + 1;
      }
      assert events[..i] == events;
      ApplyImplications();
      return !(prompt && maxProcs > 1);
    }
  }

  // ---------------------------------------------------------------- what follows for every command line

  /** The last of a kind is the last: later options of other kinds do not touch it. */
  lemma {:induction false} LastWins(before: seq<Event>, e: Event, later: seq<Event>, kind: Event -> bool)
    requires kind(e) && forall i | 0 <= i < |later| :: !kind(later[i])
    ensures LastOf(before + [e] + later, kind) == Some(e)
    decreases |later|
  {
    var all := before + [e] + later;
    if later != [] {
      var n := |later| - 1;
      assert all[..|all| - 1] == before + [e] + later[..n];
      LastWins(before, e, later[..n], kind);
    }
  }

  lemma {:induction false} LastAt(events: seq<Event>, kind: Event -> bool) returns (i: nat)
    requires LastOf(events, kind).Some?
    ensures i < |events| && LastOf(events, kind) == Some(events[i])
    ensures forall j | i < j < |events| :: !kind(events[j])
  {
    var n := |events| - 1;
    if kind(events[n]) {
      i := n;
    } else {
      i := LastAt(events[..n], kind);
    }
  }

  /** -L is in force exactly if neither -n nor -I comes after it: the last one given decides, not -L. */
  lemma {:induction false} LinesInForceIff(events: seq<Event>)
    ensures Implied(Given(events)).lineMode
      <==> exists i | 0 <= i < |events| ::
             events[i].MaxLines? && forall j | i < j < |events| :: !events[j].MaxArgs? && !events[j].Placeholder?
  {
    if LastOf(events, IsMode).Some? {
      var k := LastAt(events, IsMode);
      if events[k].MaxLines? {
        assert forall j | k < j < |events| :: !events[j].MaxArgs? && !events[j].Placeholder?;
      }
    }
  }

  /** What the batcher may rely on: -I, -L and -n exclude one another, and -I and -L imply -x. */
  lemma OneMode(events: seq<Event>)
    requires forall i | 0 <= i < |events| :: Parsed(events[i])
    ensures
      var s := Implied(Given(events));
      && (s.lineMode ==> s.maxLines >= 1 && s.maxArgs == 0 && s.placeholder.None? && s.terminate)
      && (s.maxArgs > 0 ==> !s.lineMode && s.placeholder.None?)
      && (s.placeholder.Some? ==>
            s.maxLines == 1 && !s.lineMode && s.maxArgs == 0 && s.terminate && s.marker.None?
            && (s.useNul || s.delimiter != 0))
      && !(s.useNul && s.delimiter != 0)
  {
    var mode := LastOf(events, IsMode);
    var delimiter := LastOf(events, IsDelimiter);
    if mode.Some? {
      assert Parsed(mode.value);
    }
    if delimiter.Some? {
      assert Parsed(delimiter.value);
    }
  }

  /** An accepted -P never exceeds the system's limit, nor does the default, where the system has one. */
  lemma ProcsWithinLimit(events: seq<Event>, childMax: int)
    requires Accepted(events, childMax)
    ensures childMax > 0 ==> Given(events).maxProcs <= childMax
  {
    var procs := LastOf(events, IsProcs);
    if procs.Some? {
      var i :| 0 <= i < |events| && events[i] == procs.value;
      assert AllowedProcs(events[i], childMax);
    }
  }
}
