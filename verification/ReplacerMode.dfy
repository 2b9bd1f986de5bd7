/** The -I loop, proved to launch exactly what ReplacerPlan says unless a child asks it to halt. */
module ReplacerMode {
  import opened Bytes
  import opened TokenStep
  import opened TokenStream
  import opened Tokenizers
  import opened ExitStatus
  import opened Trace
  import opened ReplacedArgs
  import opened ReplacerPlan
  import opened XargsMode

  /** main returns the status, exit(EXIT_FAILURE), or what C leaves undefined. */
  datatype Result = Returned(status: int) | ExitFailure | Unpredictable

  /** How a token's turn in the loop ends. */
  datatype Turn = Continue | Halt | GiveUp(end: End)

  /** The plan with these launches before it. */
  function After(done: seq<Argv>, plan: Plan): Plan {
    plan.(launches := done + plan.launches)
  }

  lemma AfterLaunch(done: seq<Argv>, argv: Argv, plan: Plan)
    ensures After(done, Launch(argv, plan)) == After(done + [argv], plan)
  {
    AppendAssoc(done, argv, plan.launches);
  }

  /**
   * The run keeps to the plan: it launches a prefix of what is planned, all of it exactly if no launch
   * was refused, and ends as planned if it launched it all. `drained` says that no child is left,
   * `steady` that none was waited for but to make room.
   */
  ghost predicate Honours(
    plan: Plan, launches: seq<Argv>, refused: bool, drained: bool, steady: bool, result: Result)
  {
    && launches <= plan.launches && (launches == plan.launches <==> !refused)
    && match result
       case Returned(_) => drained && (launches == plan.launches ==> plan.end.Completed?)
       case ExitFailure =>
         && launches == plan.launches && (if plan.end.InputError? then drained else steady)
         && (plan.end.TooLongUndrained? || plan.end.ReplacementTooLarge? || plan.end.InputError?)
       case Unpredictable => launches == plan.launches && plan.end.UndefinedBehaviour? && steady
  }

  /** What a token's turn does: check, substitute, launch or find a halt. */
  ghost predicate IsTurn(cfg: Setting, token: CString, turn: Turn, launched: seq<Argv>)
    requires cfg.fixed != []
  {
    var fits := cfg.base + |token| + 1 <= cfg.maxLength;
    var tail := SubstituteTail(cfg.fixed[1..], cfg.placeholder, token);
    match turn
    case Continue => fits && tail.Done? && launched == [[cfg.fixed[0]] + tail.value]
    case Halt => fits && tail.Done? && launched == []
    case GiveUp(end) =>
      && launched == []
      && if !fits then end.TooLongUndrained?
         else (end.ReplacementTooLarge? && tail.Exit?) || (end.UndefinedBehaviour? && tail.Undefined?)
  }

  /** How far a run has come: its plan, what is launched and which tokens are still to come. */
  datatype Progress = Progress(plan: Plan, cfg: Setting, outcome: Outcome, done: seq<Argv>, left: seq<Item>)

  lemma AfterNothing(plan: Plan)
    ensures After([], plan) == plan
  {
    assert [] + plan.launches == plan.launches;
  }

  /** A run that gives up in the loop ends as planned, whether or not children are left. */
  lemma GiveUpHonours(pr: Progress, end: End, drained: bool)
    requires pr.plan == Plan(pr.done, end) && !end.Completed? && !end.InputError?
    ensures
      Honours(pr.plan, pr.done, false, drained, true, if end.UndefinedBehaviour? then Unpredictable else ExitFailure)
  {
  }

  /** What a turn makes of the plan. */
  lemma TurnFollows(pr: Progress, turn: Turn, launched: seq<Argv>)
    requires pr.cfg.fixed != [] && pr.left != [] && IsTurn(pr.cfg, pr.left[0].text, turn, launched)
    requires pr.plan == After(pr.done, RunPlan(pr.cfg, pr.left, pr.outcome))
    ensures
      match turn
      case Continue => pr.plan == After(pr.done + launched, RunPlan(pr.cfg, pr.left[1..], pr.outcome))
      case Halt => pr.done + launched < pr.plan.launches
      case GiveUp(end) => pr.plan == Plan(pr.done + launched, end) && !end.Completed? && !end.InputError?
  {
    if turn == Continue {
      AfterLaunch(pr.done, launched[0], RunPlan(pr.cfg, pr.left[1..], pr.outcome));
    }
  }

  class ReplacerMode {
    const base: XargsMode

    constructor (base: XargsMode)
      ensures this.base == base
    {
      this.base := base;
    }

    ghost function Config(): (cfg: Setting)
      requires base.Valid() && base.cmd.placeholder.Some?
      reads base.Parts(), base.Repr()
      ensures cfg.fixed != []
    {
      Setting(base.Limits().base, base.cmd.maxLength, base.cmd.Fixed(), base.cmd.placeholder.value)
    }

    /** The state between steps of the loop: nothing collected, nothing substituted, no halt seen. */
    ghost predicate Going()
      reads base.Parts(), base.Repr()
    {
      && base.Valid() && base.Running() && !base.pool.halt
      && base.cmd.placeholder.Some? && base.cmd.Batch() == [] && base.cmd.Replaced() == []
    }

    /** Launches the substituted command line, unless a child asks to halt. */
    method LaunchReplaced() returns (turn: Turn, ghost launched: seq<Argv>)
      requires base.Valid() && base.Running() && !base.pool.halt
      requires base.cmd.placeholder.Some? && base.cmd.Batch() == []
      modifies base.cmd.Repr, base.pool.Repr, base.lines, base.kernel
      ensures base.Valid() && base.Running() && base.Grown()
      ensures base.Reading() == old(base.Reading()) && base.cmd.Fixed() == old(base.cmd.Fixed())
      ensures Launches(base.kernel.trace) == old(Launches(base.kernel.trace)) + launched
      ensures turn == Continue || turn == Halt
      ensures turn == Continue ==> launched == [old(base.cmd.Replaced())] && Going()
      ensures turn == Halt ==> launched == [] && base.pool.halt
    {
      ghost var launches, argv := Launches(base.kernel.trace), base.cmd.Argv();
      assert launches + [] == launches && argv == base.cmd.Replaced();
      base.ExecuteCommand();
      if base.pool.halt {
        return Halt, [];
      }
      return Continue, [argv];
    }

    /** One token's turn: check, substitute, launch. */
    method TakeTurn(token: CString) returns (turn: Turn, ghost launched: seq<Argv>)
      requires Going()
      modifies base.cmd.Repr, base.pool.Repr, base.lines, base.kernel
      ensures base.Valid() && base.Running() && base.Grown()
      ensures base.Reading() == old(base.Reading()) && base.cmd.Fixed() == old(base.cmd.Fixed())
      ensures Launches(base.kernel.trace) == old(Launches(base.kernel.trace)) + launched
      ensures turn == Continue ==> Going()
      ensures base.pool.halt == (turn == Halt)
      ensures IsTurn(old(Config()), token, turn, launched)
    {
      ghost var cfg, launches := Config(), Launches(base.kernel.trace);
      assert launches + [] == launches;
      if !base.cmd.LengthNotExceeded(token) {
        return GiveUp(TooLongUndrained), [];
      }
      var replaced := base.ReplaceArgs(token);
      if replaced.Exit? {
        return GiveUp(ReplacementTooLarge), [];
      }
      if replaced.Undefined? {
        return GiveUp(UndefinedBehaviour), [];
      }
      assert [] + [cfg.fixed[0]] == [cfg.fixed[0]];
      turn, launched := LaunchReplaced();
    }

    /** The loop between rounds, the next token read already if there is one. */
    ghost predicate Following(pr: Progress, token: Option<CString>)
      reads base.Parts(), base.Repr()
    {
      && Going() && Config() == pr.cfg
      && Launches(base.kernel.trace) == pr.done
      && pr.plan == After(pr.done, RunPlan(pr.cfg, pr.left, pr.outcome))
      && match token
         case Some(text) =>
           && pr.left != [] && pr.left[0].text == text
           && base.toker.Ready() && base.toker.Error() == ErrNone
           && base.Input() == Tokens(pr.left[1..], pr.outcome)
         case None =>
           pr.left == [] && (base.toker.Error() != ErrNone <==> pr.outcome.Errored())
    }

    /** The same before that token is read. */
    ghost predicate AboutToRead(pr: Progress)
      reads base.Parts(), base.Repr()
    {
      && Going() && Config() == pr.cfg
      && Launches(base.kernel.trace) == pr.done
      && pr.plan == After(pr.done, RunPlan(pr.cfg, pr.left, pr.outcome))
      && base.toker.Ready() && base.Input() == Tokens(pr.left, pr.outcome)
    }

    /** How the loop may have ended. */
    ghost predicate Ended(pr: Progress, turn: Turn)
      reads base.Parts(), base.Repr()
    {
      && base.Valid() && base.Running() && Launches(base.kernel.trace) == pr.done
      && match turn
         case Continue => Following(pr, None)
         case Halt => base.pool.halt && base.toker.Error() == ErrNone && pr.done < pr.plan.launches
         case GiveUp(end) =>
           !base.pool.halt && pr.plan == Plan(pr.done, end) && !end.Completed? && !end.InputError?
    }

    /** Reads the next token. */
    method Advance(ghost pr: Progress) returns (token: Option<CString>)
      requires AboutToRead(pr)
      modifies base.source, base.toker.Repr, base.lines
      ensures base.Grown() && Following(pr, token)
      ensures |base.source.Rest()| <= |old(base.source.Rest())|
      ensures token.Some? ==> |base.source.Rest()| < |old(base.source.Rest())|
    {
      token := base.NextToken();
      assert Config() == pr.cfg;
    }

    /** One round of the loop: a token's turn and, if the loop goes on, the next token. */
    method Round(token: CString, ghost pr: Progress) returns (turn: Turn, next: Option<CString>, ghost later: Progress)
      requires Following(pr, Some(token))
      modifies base.source, base.lines, base.kernel, base.cmd.Repr, base.pool.Repr, base.toker.Repr
      ensures base.Grown()
      ensures later == pr.(done := later.done, left := pr.left[1..])
      ensures turn == Continue ==>
        && Following(later, next)
        && |base.source.Rest()| <= |old(base.source.Rest())|
        && (next.Some? ==> |base.source.Rest()| < |old(base.source.Rest())|)
      ensures turn != Continue ==> Ended(later, turn)
    {
      ghost var rest, reading := pr.left[1..], base.Reading();
      ghost var launched;
      turn, launched := TakeTurn(token);
      TurnFollows(pr, turn, launched);
      later := pr.(done := pr.done + launched, left := rest);
      next := None;
      if turn == Continue {
        assert base.Reading() == reading && Config() == pr.cfg;
        next := Advance(later);
      }
    }

    /** The loop from the first token on, until the tokens are used up, a child asks to halt, or the program exits. */
    method LoopFrom(first: Option<CString>, ghost start: Progress) returns (turn: Turn, ghost pr: Progress)
      requires Following(start, first)
      modifies base.source, base.lines, base.kernel, base.cmd.Repr, base.pool.Repr, base.toker.Repr
      ensures base.Grown() && Ended(pr, turn)
      ensures pr == start.(done := pr.done, left := pr.left)
    {
      turn, pr := Continue, start;
      var token := first;
      while token.Some?
        invariant base.Grown() && Following(pr, token) && turn == Continue
        invariant pr == start.(done := pr.done, left := pr.left)
        decreases |base.source.Rest()|, token.Some?
      {
        turn, token, pr := Round(token.value, pr);
        if turn != Continue {
          return;
        }
      }
    }

    /** The whole loop, its first read included. */
    method Loop(ghost start: Progress) returns (turn: Turn, ghost pr: Progress)
      requires AboutToRead(start)
      modifies base.source, base.lines, base.kernel, base.cmd.Repr, base.pool.Repr, base.toker.Repr
      ensures base.Grown() && Ended(pr, turn)
      ensures pr == start.(done := pr.done, left := pr.left)
    {
      var first := Advance(start);
      turn, pr := LoopFrom(first, start);
    }

    /** After the loop: fail on a tokenizer error, otherwise wait for everything. */
    method EndRun(turn: Turn, ghost pr: Progress) returns (result: Result)
      requires Ended(pr, turn) && (turn == Continue || turn == Halt)
      requires pr.cfg.fixed != []
      modifies base.cmd.Repr, base.pool.Repr, base.lines, base.kernel
      ensures base.Valid()
      ensures Draining(base.kernel.trace, base.pool.start, base.pool.childMax)
      ensures
        Honours(pr.plan, Launches(base.kernel.trace), base.Refused(), base.kernel.live == {}, base.Running(), result)
      ensures result.Returned? ==> result.status == Accumulate(Statuses(base.kernel.trace))
    {
      assert pr.done + [] == pr.done;
      if base.toker.Error() != ErrNone {
        var status := base.Drain();
        return ExitFailure;
      }
      var status := base.Drain();
      return Returned(status);
    }

    /**
     * The run. Whatever the children do and whichever signals arrive: one launch per token, as planned
     * and in order, all of them exactly if none was refused for a 255 reaped before it; and when main
     * returns, every child has been reaped and the status is the worst of theirs.
     */
    method Run() returns (result: Result)
      requires Going() && base.toker.Ready() && base.kernel.trace == []
      modifies base.source, base.lines, base.kernel, base.cmd.Repr, base.pool.Repr, base.toker.Repr
      ensures base.Valid()
      ensures Draining(base.kernel.trace, base.pool.start, base.pool.childMax)
      ensures
        Honours(
          RunPlan(old(Config()), old(base.Input()).items, old(base.Input()).outcome),
          Launches(base.kernel.trace), base.Refused(), base.kernel.live == {}, base.Running(), result)
      ensures result.Returned? ==> result.status == Accumulate(Statuses(base.kernel.trace))
    {
      ghost var input, cfg := base.Input(), Config();
      ghost var plan := RunPlan(cfg, input.items, input.outcome);
      AfterNothing(plan);
      ghost var pr := Progress(plan, cfg, input.outcome, [], input.items);
      var turn;
      turn, pr := Loop(pr);
      if turn.GiveUp? {
        SteadyEnds(base.kernel.trace, base.pool.start, base.pool.childMax);
        GiveUpHonours(pr, turn.end, base.kernel.live == {});
        return if turn.end.UndefinedBehaviour? then Unpredictable else ExitFailure;
      }
      result := EndRun(turn, pr);
    }
  }
}
