/** What both modes are built from: input, tokenizer, command and pool, and the steps that join them. */
module XargsMode {
  import opened Bytes
  import opened TokenStream
  import opened Tokenizers
  import SpaceTokenizer
  import DelimTokenizer
  import opened Command
  import opened Trace
  import opened ProcessPool
  import opened Replacement
  import opened ReplacedArgs
  import BatchPlan

  /** The two tokenizers there are. */
  datatype Choice =
    | SpaceToker(space: SpaceTokenizer.SpaceTokenizer)
    | DelimToker(delim: DelimTokenizer.DelimTokenizer)

  /** The tokenizer chosen when the mode was created; calls go to it. */
  class Toker {
    const choice: Choice
    ghost var Repr: set<object>

    ghost predicate Valid()
      reads this, Repr
      ensures Valid() ==> this in Repr
    {
      && this in Repr
      && match choice
         case SpaceToker(t) => t in Repr && t.Repr <= Repr && this !in t.Repr && t.Valid()
         case DelimToker(t) => t in Repr && t.Repr <= Repr && this !in t.Repr && t.Valid()
    }

    /** A token may be asked for: the last call, if any, did not return NULL. */
    ghost predicate Ready()
      reads this, Repr
    {
      && Valid()
      && match choice
         case SpaceToker(t) => t.Ready()
         case DelimToker(t) => t.Ready()
    }

    function Kind(): Kind {
      match choice
      case SpaceToker(t) => SpaceKind(t.marker)
      case DelimToker(t) => DelimKind(t.delim)
    }

    function Boundary(): LineCounter {
      match choice
      case SpaceToker(t) => t.boundary
      case DelimToker(t) => t.boundary
    }

    function Error(): TokenizerError
      requires Valid()
      reads this, Repr
    {
      match choice
      case SpaceToker(t) => t.base.err
      case DelimToker(t) => t.base.err
    }

    constructor (choice: Choice)
      requires choice.SpaceToker? ==> choice.space.Ready()
      requires choice.DelimToker? ==> choice.delim.Ready()
      ensures Ready() && this.choice == choice
      ensures Repr == {this} + match choice case SpaceToker(t) => t.Repr case DelimToker(t) => t.Repr
    {
      this.choice := choice;
      Repr := {this} + match choice case SpaceToker(t) => t.Repr case DelimToker(t) => t.Repr;
    }

    /** tokenizer_next_token: the call goes to the tokenizer in use. */
    method NextToken(source: ByteSource) returns (out: Option<CString>)
      requires Ready() && source.Valid() && source !in Repr && Boundary() !in Repr
      modifies Repr, source, Boundary()
      ensures Valid() && fresh(Repr - old(Repr)) && source.Valid()
      ensures
        var step := NextStep(Kind(), old(source.Rest()), source.fails);
        && out == (if step.Token? then Some(step.text) else None)
        && source.Rest() == step.rest
        && Boundary().count == old(Boundary().count) + (if step.lineEnds then 1 else 0)
        && Error() == (if step.Token? then ErrNone else ErrorOf(step.outcome))
        && (step.Token? ==> Ready())
    {
      match choice {
        case SpaceToker(t) =>
          out := t.NextToken(source);
          Repr := Repr + t.Repr;
        case DelimToker(t) =>
          out := t.NextToken(source);
          Repr := Repr + t.Repr;
      }
    }
  }

  /** One call, as the head of the stream of tokens. */
  lemma {:induction false} HeadOfStream(kind: Kind, s: Bytes, fails: bool)
    ensures
      var step, input := NextStep(kind, s, fails), Tokenize(kind, s, fails);
      if step.Token? then
        && input.items != [] && input.items[0] == ItemOf(step)
        && Tokenize(kind, step.rest, fails) == Tokens(input.items[1..], input.outcome)
      else
        input.items == [] && (ErrorOf(step.outcome) != ErrNone <==> input.outcome.Errored())
  {
    if NextStep(kind, s, fails).Token? {
      TokenizeToken(kind, s, fails);
    }
  }

  /** Forks a child for the command line as it stands and lets the pool know of it. */
  method LaunchChild(cmd: Command, pool: ProcessPool)
    requires cmd.Valid() && pool.InSync() && cmd.Repr !! pool.Repr
    requires cmd.lines !in pool.Repr && pool.kernel !in cmd.Repr
    requires Running(pool.kernel.trace, pool.start, pool.childMax) && Asked(pool.kernel.trace)
    requires !pool.halt && !Full(pool.kernel.trace, pool.start, pool.childMax)
    modifies cmd.Repr, cmd.lines, pool.Repr, pool.kernel
    ensures cmd.Valid() && cmd.Grown()
    ensures pool.InSync() && fresh(pool.Repr - old(pool.Repr)) && cmd.Repr !! pool.Repr
    ensures Steady(pool.kernel.trace, pool.start, pool.childMax) && !pool.halt
    ensures Launches(pool.kernel.trace) == old(Launches(pool.kernel.trace)) + [old(cmd.Argv())]
    ensures cmd.Fixed() == old(cmd.Fixed()) && cmd.Batch() == [] && cmd.lines.count == 0
    ensures cmd.placeholder.Some? ==> cmd.Replaced() == []
  {
    ghost var before, argv := pool.kernel.trace, cmd.Argv();
    var pid := cmd.ExecuteAsync(pool.kernel);
    assert cmd.Repr !! pool.Repr;
    ForkEvent(before, pid, argv, pool.start, pool.childMax);
    pool.Submit(pid);
  }

  class XargsMode {
    const source: ByteSource
    const cmd: Command
    const toker: Toker
    const pool: ProcessPool
    const lines: LineCounter
    const kernel: Kernel

    /** The objects that know what else belongs to them. */
    ghost function Parts(): set<object> {
      {cmd, pool, toker}
    }

    ghost function Repr(): set<object>
      reads Parts()
    {
      {source, lines, kernel} + cmd.Repr + pool.Repr + toker.Repr
    }

    /** The parts share nothing but the line counter and the kernel. */
    ghost predicate Apart()
      reads Parts()
    {
      && source !in cmd.Repr && source !in pool.Repr && source !in toker.Repr
      && lines !in cmd.Repr && lines !in pool.Repr && lines !in toker.Repr
      && kernel !in cmd.Repr && kernel !in pool.Repr && kernel !in toker.Repr
      && cmd.Repr !! pool.Repr && cmd.Repr !! toker.Repr && pool.Repr !! toker.Repr
      && cmd.lines == lines && toker.Boundary() == lines && pool.kernel == kernel
    }

    ghost predicate Valid()
      reads Parts(), Repr()
    {
      Apart() && source.Valid() && cmd.Valid() && toker.Valid() && pool.InSync()
    }

    ghost function Limits(): BatchPlan.Limits
      requires Valid()
      reads Parts(), Repr()
    {
      cmd.Limits()
    }

    /** The tokens still to come. */
    ghost function Input(): Tokens
      requires Valid()
      reads Parts(), Repr()
    {
      Tokenize(toker.Kind(), source.Rest(), source.fails)
    }

    /** Between launches: forks only when allowed, and a request for room without a fork only after a halt. */
    ghost predicate Running()
      requires Valid()
      reads Parts(), Repr()
    {
      Steady(kernel.trace, pool.start, pool.childMax)
    }

    /** The final drain is over; `refused` says whether a launch was refused before it. */
    ghost predicate Finished(refused: bool)
      requires Valid()
      reads Parts(), Repr()
    {
      kernel.live == {} && Ends(kernel.trace, pool.start, pool.childMax, refused)
    }

    /** A launch was refused because a child had asked to halt. */
    ghost predicate Refused()
      requires Valid()
      reads Parts(), Repr()
    {
      Trace.Refused(kernel.trace, pool.start, pool.childMax)
    }

    constructor (source: ByteSource, cmd: Command, toker: Toker, pool: ProcessPool, lines: LineCounter, kernel: Kernel)
      requires source.Valid() && cmd.Valid() && toker.Valid() && pool.InSync()
      requires source !in cmd.Repr && source !in pool.Repr && source !in toker.Repr
      requires lines !in cmd.Repr && lines !in pool.Repr && lines !in toker.Repr
      requires kernel !in cmd.Repr && kernel !in pool.Repr && kernel !in toker.Repr
      requires cmd.Repr !! pool.Repr && cmd.Repr !! toker.Repr && pool.Repr !! toker.Repr
      requires cmd.lines == lines && toker.Boundary() == lines && pool.kernel == kernel
      ensures Valid()
      ensures this.source == source && this.cmd == cmd && this.toker == toker && this.pool == pool
      ensures this.lines == lines && this.kernel == kernel
    {
      this.source, this.cmd, this.toker := source, cmd, toker;
      this.pool, this.lines, this.kernel := pool, lines, kernel;
    }

    /** What the parts have come to own since is new. */
    twostate predicate Grown()
      reads Parts()
    {
      && cmd.Grown()
      && (forall o | o in pool.Repr :: o in old(pool.Repr) || fresh(o))
      && (forall o | o in toker.Repr :: o in old(toker.Repr) || fresh(o))
    }

    /** Where reading stands: the input left, whether a token may be asked for, the error if any. */
    ghost function Reading(): (Bytes, bool, TokenizerError)
      requires Valid()
      reads Parts(), Repr()
    {
      (source.Rest(), toker.Ready(), toker.Error())
    }

    /** When command and pool keep their own order, the parts stay apart and reading stands where it did. */
    twostate lemma ReadingIsSame()
      requires old(Valid())
      requires unchanged(source) && unchanged(toker) && unchanged(toker.Repr)
      requires cmd.Valid() && pool.InSync() && cmd.Repr !! pool.Repr
      requires cmd.Grown() && fresh(pool.Repr - old(pool.Repr))
      ensures Valid() && Grown() && Reading() == old(Reading())
    {
    }

    /** The command has changed in nothing but perhaps the line count. */
    twostate predicate SameCommand()
      requires old(Valid()) && Valid()
      reads Parts(), Repr()
    {
      && cmd.Fixed() == old(cmd.Fixed()) && cmd.Batch() == old(cmd.Batch())
      && cmd.Replaced() == old(cmd.Replaced())
    }

    /** One call of the tokenizer in use. */
    method CallTokenizer() returns (out: Option<CString>)
      requires Valid() && toker.Ready()
      modifies source, toker.Repr, lines
      ensures Valid() && Grown()
      ensures
        var step := NextStep(toker.Kind(), old(source.Rest()), source.fails);
        && out == (if step.Token? then Some(step.text) else None)
        && source.Rest() == step.rest
        && lines.count == old(lines.count) + (if step.lineEnds then 1 else 0)
        && toker.Error() == (if step.Token? then ErrNone else ErrorOf(step.outcome))
        && (step.Token? ==> toker.Ready())
    {
      out := toker.NextToken(source);
    }

    /** The next token of the stream; a boundary it crosses counts as a line of the command. */
    method NextToken() returns (out: Option<CString>)
      requires Valid() && toker.Ready()
      modifies source, toker.Repr, lines
      ensures Valid() && Grown() && SameCommand()
      ensures kernel.trace == old(kernel.trace) && pool.halt == old(pool.halt)
      ensures
        var before := old(Input());
        match out
        case None =>
          before.items == [] && (toker.Error() != ErrNone <==> before.outcome.Errored())
        case Some(text) =>
          && before.items != [] && toker.Ready() && toker.Error() == ErrNone
          && before.items[0].text == text
          && lines.count == old(lines.count) + BatchPlan.Boundary(before.items[0])
          && Input() == Tokens(before.items[1..], before.outcome)
      ensures |source.Rest()| <= |old(source.Rest())|
      ensures out.Some? ==> |source.Rest()| < |old(source.Rest())|
    {
      ghost var rest := source.Rest();
      out := CallTokenizer();
      HeadOfStream(toker.Kind(), rest, source.fails);
    }

    /** Reaps until one more child may run. */
    method WaitForRoom()
      requires Valid() && Running()
      modifies pool.Repr, kernel
      ensures Valid() && Grown() && Reading() == old(Reading())
      ensures Trace.Running(kernel.trace, pool.start, pool.childMax) && Asked(kernel.trace)
      ensures !Full(kernel.trace, pool.start, pool.childMax) && (old(pool.halt) ==> pool.halt)
      ensures Launches(kernel.trace) == old(Launches(kernel.trace))
    {
      pool.WaitIfFull();
      ReadingIsSame();
    }

    /** Starts a child for the command line as it stands; reading is not affected. */
    method Launch()
      requires Valid() && Trace.Running(kernel.trace, pool.start, pool.childMax) && Asked(kernel.trace)
      requires !pool.halt && !Full(kernel.trace, pool.start, pool.childMax)
      modifies cmd.Repr, pool.Repr, lines, kernel
      ensures Valid() && Grown() && Running() && !pool.halt && Reading() == old(Reading())
      ensures Launches(kernel.trace) == old(Launches(kernel.trace)) + [old(cmd.Argv())]
      ensures cmd.Fixed() == old(cmd.Fixed()) && cmd.Batch() == [] && lines.count == 0
      ensures cmd.placeholder.Some? ==> cmd.Replaced() == []
    {
      LaunchChild(cmd, pool);
      ReadingIsSame();
    }

    /** Launches what the command holds, once there is room, unless a child has asked to halt. */
    method ExecuteCommand()
      requires Valid() && Running()
      modifies cmd.Repr, pool.Repr, lines, kernel
      ensures Valid() && Grown() && Running() && Reading() == old(Reading())
      ensures cmd.Fixed() == old(cmd.Fixed()) && (old(pool.halt) ==> pool.halt)
      ensures pool.halt ==>
        Launches(kernel.trace) == old(Launches(kernel.trace)) && cmd.Batch() == old(cmd.Batch())
      ensures !pool.halt ==>
        && Launches(kernel.trace) == old(Launches(kernel.trace)) + [old(cmd.Argv())]
        && cmd.Batch() == [] && lines.count == 0
        && (cmd.placeholder.Some? ==> cmd.Replaced() == [])
    {
      WaitForRoom();
      if pool.halt {
        return;
      }
      Launch();
    }

    method AddInputArgument(newArg: CString)
      requires Valid() && Running()
      modifies cmd.Repr
      ensures Valid() && Grown() && Running() && Reading() == old(Reading())
      ensures cmd.Fixed() == old(cmd.Fixed()) && cmd.Batch() == old(cmd.Batch()) + [newArg]
      ensures kernel.trace == old(kernel.trace) && pool.halt == old(pool.halt) && lines.count == old(lines.count)
    {
      cmd.AddInputArgument(newArg);
      ReadingIsSame();
    }

    /** Substitutes the token into the fixed arguments, ahead of a launch. */
    method ReplaceArgs(token: CString) returns (r: Checked<()>)
      requires Valid() && Running() && cmd.placeholder.Some? && cmd.LengthNotExceeded(token)
      modifies cmd.Repr
      ensures Valid() && Grown() && Running() && Reading() == old(Reading())
      ensures cmd.Fixed() == old(cmd.Fixed()) && cmd.Batch() == old(cmd.Batch())
      ensures kernel.trace == old(kernel.trace) && pool.halt == old(pool.halt)
      ensures
        match SubstituteTail(cmd.Fixed()[1..], cmd.placeholder.value, token)
        case Done(tail) => r == Done(()) && cmd.Replaced() == old(cmd.Replaced()) + [cmd.Fixed()[0]] + tail
        case Exit => r.Exit?
        case Undefined => r.Undefined?
    {
      r := cmd.ReplaceArgs(token);
      ReadingIsSame();
    }

    /** Waits for all children; afterwards none is live and the status is the worst of all of them. */
    method Drain() returns (status: int)
      requires Valid() && Running()
      modifies pool.Repr, kernel
      ensures Valid() && Grown()
      ensures Launches(kernel.trace) == old(Launches(kernel.trace))
      ensures cmd.Fixed() == old(cmd.Fixed()) && Finished(old(pool.halt))
      ensures status == ExitStatus.Accumulate(Statuses(kernel.trace))
    {
      status := pool.Drain();
      ReadingIsSame();
    }

    /** Whether to launch now; None where the program drains the pool and exits. */
    method ShouldExecuteCommandAfterArgAdded() returns (r: Option<bool>)
      requires Valid() && Running()
      modifies pool.Repr, kernel
      ensures Valid() && Grown()
      ensures cmd.Fixed() == old(cmd.Fixed())
      ensures r.None? <==> old(cmd.terminate && BatchPlan.TooLong(Limits(), cmd.Batch()))
      ensures r.None? ==>
        Launches(kernel.trace) == old(Launches(kernel.trace)) && Finished(old(pool.halt))
      ensures r.Some? ==>
        && r.value == (cmd.lineMode && lines.count == cmd.maxLines)
        && Reading() == old(Reading()) && Running() && SameCommand()
        && kernel.trace == old(kernel.trace) && pool.halt == old(pool.halt) && lines.count == old(lines.count)
    {
      var result := cmd.ShouldExecuteAfterArgAdded();
      if result < 0 {
        var status := Drain();
        return None;
      }
      return Some(result > 0);
    }
  }
}
