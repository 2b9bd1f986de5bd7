/** The whole program: options, limits, the parts of a mode, and the run. */
module Xargs {
  import opened Bytes
  import opened TokenStream
  import opened Tokenizers
  import SpaceTokenizer
  import DelimTokenizer
  import opened ExitStatus
  import opened Trace
  import opened ProcessPool
  import opened Replacement
  import opened Command
  import opened Options
  import opened XargsMode
  import BatchPlan
  import ReplacerPlan
  import AppenderMode
  import ReplacerMode

  const DEFAULT_CEILING := 128 * 1024

  /** "/bin/echo" */
  const DEFAULT_COMMAND: CString := [47, 98, 105, 110, 47, 101, 99, 104, 111]

  /** The most the system takes: twice the environment and 2048 bytes below ARG_MAX, if it names one. */
  function Ceiling(argMax: int, envLength: nat): nat {
    if argMax > 0 then
      var margin := 2 * envLength + 2048;
      if argMax > margin then argMax - margin else 0
    else
      DEFAULT_CEILING
  }

  /** decide_max_length; None where the program exits. */
  function DecideMaxLength(argMax: int, envLength: nat, specified: Option<nat>, minLength: nat): Option<nat> {
    var ceiling := Ceiling(argMax, envLength);
    match specified
    case None => Some(if DEFAULT_CEILING < ceiling then DEFAULT_CEILING else ceiling)
    case Some(n) => if n < minLength || n > ceiling then None else Some(n)
  }

  /** What the program is started with: parsed options, command line, system limits, environment and input. */
  datatype Start = Start(
    events: seq<Options.Event>, command: seq<CString>, childMax: int, argMax: int, envLength: nat,
    input: Bytes, fails: bool)
  {
    function Settings(): Settings {
      Implied(Given(events))
    }

    function Fixed(): (r: seq<CString>)
      ensures r != []
    {
      if command == [] then [DEFAULT_COMMAND] else command
    }

    function Base(): nat {
      envLength + ArgsLength(Fixed())
    }

    function MaxLength(): Option<nat> {
      DecideMaxLength(argMax, envLength, Settings().maxLength, Base())
    }

    /** Neither the options nor the size limit make the program exit before it starts. */
    predicate Starts() {
      Accepted(events, childMax) && MaxLength().Some?
    }

    function Limits(): BatchPlan.Limits
      requires Starts()
    {
      var s := Settings();
      BatchPlan.Limits(Base(), MaxLength().value, s.maxArgs, s.lineMode, s.maxLines, s.terminate)
    }

    function Kind(): Kind {
      var s := Settings();
      if s.useNul || s.delimiter != 0 then DelimKind(s.delimiter) else SpaceKind(s.marker)
    }

    function Tokens(): Tokens {
      Tokenize(Kind(), input, fails)
    }

    function AppenderPlan(): BatchPlan.Plan
      requires Starts()
    {
      BatchPlan.RunPlan(Limits(), Settings().suppressEmpty, Tokens())
    }

    function ReplacerConfig(): ReplacerPlan.Setting
      requires Starts() && Settings().placeholder.Some?
    {
      ReplacerPlan.Setting(Base(), MaxLength().value, Fixed(), Settings().placeholder.value)
    }

    function SubstitutionPlan(): ReplacerPlan.Plan
      requires Starts() && Settings().placeholder.Some?
    {
      ReplacerPlan.RunPlan(ReplacerConfig(), Tokens().items, Tokens().outcome)
    }

    /** What the operating system guarantees of its limits and of the strings it passes. */
    predicate Sane() {
      && (forall i | 0 <= i < |events| :: Parsed(events[i]))
      && argMax <= SIZE_MAX
      && (forall i | 0 <= i < |events| :: events[i].Placeholder? ==> |events[i].text| < SIZE_MAX)
    }
  }

  lemma MaxLengthIsSize(start: Start)
    requires start.Sane() && start.Starts()
    ensures start.MaxLength().value <= SIZE_MAX && InMemory(start.Settings().placeholder)
    ensures BatchPlan.FromOptions(start.Limits())
  {
    OneMode(start.events);
    var mode := LastOf(start.events, IsMode);
    if mode.Some? && mode.value.Placeholder? {
      var i :| 0 <= i < |start.events| && start.events[i] == mode.value;
    }
  }

  /** With -s an empty launch always fits; without it, exactly when environment and command leave room. */
  lemma EmptyLaunchFits(start: Start)
    requires start.Starts()
    ensures start.Settings().maxLength.Some? ==> !BatchPlan.TooLong(start.Limits(), [])
    ensures start.Settings().maxLength.None? ==>
      (BatchPlan.TooLong(start.Limits(), []) <==>
       start.Base() > DEFAULT_CEILING || start.Base() > Ceiling(start.argMax, start.envLength))
  {
  }

  method CreateToker(start: Start, lines: LineCounter) returns (toker: Toker)
    requires start.Starts()
    ensures toker.Ready() && fresh(toker.Repr)
    ensures toker.Kind() == start.Kind() && toker.Boundary() == lines
  {
    var s := start.Settings();
    if s.useNul || s.delimiter != 0 {
      var delim := new DelimTokenizer.DelimTokenizer(start.MaxLength().value, s.delimiter, lines);
      toker := new Toker(DelimToker(delim));
    } else {
      var space := new SpaceTokenizer.SpaceTokenizer(start.MaxLength().value, s.marker, lines);
      toker := new Toker(SpaceToker(space));
    }
  }

  /** A mode as created, with these tokens before it. */
  ghost predicate Unused(base: XargsMode, fixed: seq<CString>, input: Tokens, maxProcs: nat, childMax: int)
    reads base.Parts(), base.Repr()
  {
    && base.Valid() && base.toker.Ready() && base.cmd.Fixed() == fixed
    && base.cmd.Batch() == [] && base.cmd.Replaced() == [] && base.lines.count == 0
    && base.Input() == input && base.kernel.trace == []
    && base.pool.start == maxProcs && base.pool.childMax == childMax
  }

  /** A mode made for this start and not yet run. */
  ghost predicate MadeFor(base: XargsMode, start: Start)
    requires start.Sane() && start.Starts()
    reads base.Parts(), base.Repr()
  {
    && Unused(base, start.Fixed(), start.Tokens(), start.Settings().maxProcs, start.childMax)
    && base.Limits() == start.Limits() && base.cmd.maxLength == start.MaxLength().value
    && base.cmd.placeholder == start.Settings().placeholder
  }

  method CreateCommand(start: Start, lines: LineCounter) returns (cmd: Command)
    requires start.Sane() && start.Starts()
    ensures cmd.Valid() && fresh(cmd.Repr) && lines !in cmd.Repr
    ensures cmd.Limits() == start.Limits() && cmd.Fixed() == start.Fixed()
    ensures cmd.Batch() == [] && cmd.Replaced() == []
    ensures cmd.placeholder == start.Settings().placeholder && cmd.lines == lines
  {
    MaxLengthIsSize(start);
    cmd := new Command(start.Limits(), start.envLength, start.Settings().placeholder, start.Fixed(), lines);
  }

  method CreatePool(start: Start) returns (kernel: Kernel, pool: ProcessPool)
    requires start.Starts()
    ensures fresh(kernel) && fresh(pool.Repr) && kernel !in pool.Repr
    ensures pool.InSync() && pool.kernel == kernel && kernel.trace == []
    ensures pool.start == start.Settings().maxProcs && pool.childMax == start.childMax
  {
    ProcsWithinLimit(start.events, start.childMax);
    kernel := new Kernel();
    pool := new ProcessPool(start.Settings().maxProcs, start.childMax, kernel);
  }

  method CreateCommandAndPool(start: Start, lines: LineCounter)
    returns (cmd: Command, kernel: Kernel, pool: ProcessPool)
    requires start.Sane() && start.Starts()
    ensures cmd.Valid() && fresh(cmd.Repr) && lines !in cmd.Repr && kernel !in cmd.Repr
    ensures cmd.Limits() == start.Limits() && cmd.Fixed() == start.Fixed()
    ensures cmd.Batch() == [] && cmd.Replaced() == []
    ensures cmd.placeholder == start.Settings().placeholder && cmd.lines == lines
    ensures fresh(kernel) && fresh(pool.Repr) && kernel !in pool.Repr && cmd.Repr !! pool.Repr && lines !in pool.Repr
    ensures pool.InSync() && pool.kernel == kernel && kernel.trace == []
    ensures pool.start == start.Settings().maxProcs && pool.childMax == start.childMax
  {
    cmd := CreateCommand(start, lines);
    kernel, pool := CreatePool(start);
  }

  method CreateInput(start: Start) returns (source: ByteSource, lines: LineCounter, toker: Toker)
    requires start.Starts()
    ensures fresh(source) && fresh(lines) && fresh(toker.Repr)
    ensures source !in toker.Repr && lines !in toker.Repr
    ensures source.Valid() && source.Rest() == start.input && source.fails == start.fails && lines.count == 0
    ensures toker.Ready()
    ensures toker.Kind() == start.Kind() && toker.Boundary() == lines
  {
    source := new ByteSource(start.input, start.fails);
    lines := new LineCounter();
    toker := CreateToker(start, lines);
  }

  /** Puts the parts of a mode together. */
  method Assemble(
    start: Start, source: ByteSource, lines: LineCounter, toker: Toker, cmd: Command, kernel: Kernel, pool: ProcessPool)
    returns (base: XargsMode)
    requires start.Sane() && start.Starts()
    requires source.Valid() && source.Rest() == start.input && source.fails == start.fails && lines.count == 0
    requires toker.Ready() && toker.Kind() == start.Kind() && toker.Boundary() == lines
    requires cmd.Valid() && cmd.Limits() == start.Limits() && cmd.Fixed() == start.Fixed()
    requires cmd.Batch() == [] && cmd.Replaced() == []
    requires cmd.placeholder == start.Settings().placeholder && cmd.lines == lines
    requires pool.InSync() && pool.kernel == kernel && kernel.trace == []
    requires pool.start == start.Settings().maxProcs && pool.childMax == start.childMax
    requires source !in cmd.Repr && source !in pool.Repr && source !in toker.Repr
    requires lines !in cmd.Repr && lines !in pool.Repr && lines !in toker.Repr
    requires kernel !in cmd.Repr && kernel !in pool.Repr && kernel !in toker.Repr
    requires cmd.Repr !! pool.Repr && cmd.Repr !! toker.Repr && pool.Repr !! toker.Repr
    ensures fresh(base) && MadeFor(base, start)
    ensures base.source == source && base.lines == lines && base.kernel == kernel
    ensures base.cmd == cmd && base.pool == pool && base.toker == toker
  {
    base := new XargsMode(source, cmd, toker, pool, lines, kernel);
  }

  /** xargs_mode_create */
  method CreateMode(start: Start) returns (base: XargsMode)
    requires start.Sane() && start.Starts()
    ensures fresh(base) && MadeFor(base, start)
    ensures fresh(base.source) && fresh(base.lines) && fresh(base.kernel)
    ensures fresh(base.cmd.Repr) && fresh(base.pool.Repr) && fresh(base.toker.Repr)
  {
    var source, lines, toker := CreateInput(start);
    var cmd, kernel, pool := CreateCommandAndPool(start, lines);
    base := Assemble(start, source, lines, toker, cmd, kernel, pool);
  }

  /** How the program ends. */
  datatype Exit = Returned(status: int) | Failure | Unpredictable

  /** The launches, halts and ending of a run, against what the start determines. */
  ghost predicate Honours(start: Start, tr: History, exit: Exit)
    requires start.Sane()
  {
    var launches, drained := Launches(tr), Live(tr) == {};
    var refused := Refused(tr, start.Settings().maxProcs, start.childMax);
    var steady := Steady(tr, start.Settings().maxProcs, start.childMax);
    if !start.Starts() then
      exit == Failure && tr == []
    else if start.Settings().placeholder.None? then
      && !exit.Unpredictable?
      && AppenderMode.Honours(
        start.AppenderPlan(), start.Fixed(), launches, refused, drained, steady,
        match exit case Returned(s) => AppenderMode.Returned(s) case _ => AppenderMode.ExitFailure)
    else
      ReplacerMode.Honours(
        start.SubstitutionPlan(), launches, refused, drained, steady,
        match exit
        case Returned(s) => ReplacerMode.Returned(s)
        case Failure => ReplacerMode.ExitFailure
        case Unpredictable => ReplacerMode.Unpredictable)
  }

  /** What a run leaves: a history that keeps the fork discipline, the launches due, the worst status. */
  ghost predicate Keeps(start: Start, tr: History, exit: Exit)
    requires start.Sane()
  {
    && Possible(tr) && Draining(tr, start.Settings().maxProcs, start.childMax)
    && Honours(start, tr, exit)
    && (exit.Returned? ==> exit.status == Accumulate(Statuses(tr)))
  }

  /** What appending mode did, as the program ends with it. */
  lemma AppenderKeeps(start: Start, tr: History, maxProcs: nat, childMax: int, r: AppenderMode.Result, exit: Exit)
    requires start.Sane() && start.Starts() && start.Settings().placeholder.None?
    requires maxProcs == start.Settings().maxProcs && childMax == start.childMax
    requires Possible(tr) && Draining(tr, maxProcs, childMax)
    requires
      AppenderMode.Honours(
        start.AppenderPlan(), start.Fixed(), Launches(tr),
        Refused(tr, maxProcs, childMax), Live(tr) == {}, Steady(tr, maxProcs, childMax), r)
    requires r.Returned? ==> r.status == Accumulate(Statuses(tr))
    requires exit == match r case Returned(s) => Returned(s) case ExitFailure => Failure
    ensures Keeps(start, tr, exit)
  {
  }

  /** What replacing mode did. */
  lemma ReplacerKeeps(start: Start, tr: History, maxProcs: nat, childMax: int, r: ReplacerMode.Result, exit: Exit)
    requires start.Sane() && start.Starts() && start.Settings().placeholder.Some?
    requires maxProcs == start.Settings().maxProcs && childMax == start.childMax
    requires Possible(tr) && Draining(tr, maxProcs, childMax)
    requires
      ReplacerMode.Honours(
        start.SubstitutionPlan(), Launches(tr),
        Refused(tr, maxProcs, childMax), Live(tr) == {}, Steady(tr, maxProcs, childMax), r)
    requires r.Returned? ==> r.status == Accumulate(Statuses(tr))
    requires
      exit == match r case Returned(s) => Returned(s) case ExitFailure => Failure case Unpredictable => Unpredictable
    ensures Keeps(start, tr, exit)
  {
  }

  method RunAppender(
    base: XargsMode, suppressEmpty: bool, ghost lim: BatchPlan.Limits, ghost fixed: seq<CString>, ghost input: Tokens,
    ghost maxProcs: nat, ghost childMax: int)
    returns (r: AppenderMode.Result)
    requires Unused(base, fixed, input, maxProcs, childMax)
    requires base.Limits() == lim && base.cmd.placeholder.None?
    modifies base.source, base.lines, base.kernel, base.cmd.Repr, base.pool.Repr, base.toker.Repr
    ensures Possible(base.kernel.trace) && Draining(base.kernel.trace, maxProcs, childMax)
    ensures
      AppenderMode.Honours(
        BatchPlan.RunPlan(lim, suppressEmpty, input), fixed, Launches(base.kernel.trace),
        Refused(base.kernel.trace, maxProcs, childMax), Live(base.kernel.trace) == {},
        Steady(base.kernel.trace, maxProcs, childMax), r)
    ensures r.Returned? ==> r.status == Accumulate(Statuses(base.kernel.trace))
  {
    var mode := new AppenderMode.AppenderMode(base, suppressEmpty);
    assert mode.Fresh() && base.Limits() == lim && base.Input() == input;
    r := mode.Run();
  }

  method RunReplacer(
    base: XargsMode, ghost cfg: ReplacerPlan.Setting, ghost input: Tokens, ghost maxProcs: nat, ghost childMax: int)
    returns (r: ReplacerMode.Result)
    requires Unused(base, cfg.fixed, input, maxProcs, childMax)
    requires base.Limits().base == cfg.base && base.cmd.maxLength == cfg.maxLength
    requires base.cmd.placeholder == Some(cfg.placeholder) && cfg.fixed != []
    modifies base.source, base.lines, base.kernel, base.cmd.Repr, base.pool.Repr, base.toker.Repr
    ensures Possible(base.kernel.trace) && Draining(base.kernel.trace, maxProcs, childMax)
    ensures
      ReplacerMode.Honours(
        ReplacerPlan.RunPlan(cfg, input.items, input.outcome), Launches(base.kernel.trace),
        Refused(base.kernel.trace, maxProcs, childMax), Live(base.kernel.trace) == {},
        Steady(base.kernel.trace, maxProcs, childMax), r)
    ensures r.Returned? ==> r.status == Accumulate(Statuses(base.kernel.trace))
  {
    var mode := new ReplacerMode.ReplacerMode(base);
    assert mode.Config() == cfg;
    r := mode.Run();
  }

  /**
   * The program. For every start, whatever the children do and whichever signals arrive: the history
   * keeps the fork discipline under the -P limit, the launches are those that options, limits and input
   * determine, and a status returned is the worst of all children.
   */
  method RunXargs(start: Start) returns (exit: Exit, kernel: Kernel)
    requires start.Sane()
    ensures fresh(kernel) && Keeps(start, kernel.trace, exit)
  {
    var table := new OptionTable();
    var ok := table.Configure(start.events, start.childMax);
    if !ok || start.MaxLength().None? {
      kernel := new Kernel();
      return Failure, kernel;
    }
    var base := CreateMode(start);
    kernel := base.kernel;
    var s := start.Settings();
    if s.placeholder.None? {
      var r := RunAppender(
        base, s.suppressEmpty, start.Limits(), start.Fixed(), start.Tokens(), s.maxProcs, start.childMax);
      exit := match r case Returned(s) => Returned(s) case ExitFailure => Failure;
      AppenderKeeps(start, kernel.trace, s.maxProcs, start.childMax, r, exit);
    } else {
      var r := RunReplacer(base, start.ReplacerConfig(), start.Tokens(), s.maxProcs, start.childMax);
      exit := match r case Returned(s) => Returned(s) case ExitFailure => Failure case Unpredictable => Unpredictable;
      ReplacerKeeps(start, kernel.trace, s.maxProcs, start.childMax, r, exit);
    }
  }
}
