/** The appending loop, proved to launch exactly what BatchPlan says unless a child asks it to halt. */
module AppenderMode {
  import opened Bytes
  import opened TokenStep
  import opened TokenStream
  import opened Tokenizers
  import opened ExitStatus
  import opened Trace
  import opened BatchPlan
  import opened XargsMode

  /** The fixed arguments followed by each batch. */
  function CommandLines(fixed: seq<CString>, batches: seq<Batch>): seq<Argv> {
    if batches == [] then [] else [fixed + batches[0]] + CommandLines(fixed, batches[1..])
  }

  lemma {:induction false} CommandLinesAppend(fixed: seq<CString>, a: seq<Batch>, b: seq<Batch>)
    ensures CommandLines(fixed, a + b) == CommandLines(fixed, a) + CommandLines(fixed, b)
  {
    if a == [] {
      assert a + b == b;
    } else {
      assert (a + b)[1..] == a[1..] + b;
      CommandLinesAppend(fixed, a[1..], b);
    }
  }

  lemma {:induction false} CommandLinesOne(fixed: seq<CString>, batch: Batch)
    ensures CommandLines(fixed, [batch]) == [fixed + batch]
  {
    assert [batch][1..] == [];
  }

  /** The plan with these batches launched before it. */
  function After(done: seq<Batch>, plan: Plan): Plan {
    plan.(batches := done + plan.batches)
  }

  lemma {:induction false} AfterAfter(a: seq<Batch>, b: seq<Batch>, plan: Plan)
    ensures After(a, After(b, plan)) == After(a + b, plan)
  {
    assert a + (b + plan.batches) == a + b + plan.batches;
  }

  lemma AfterNone(plan: Plan)
    ensures After([], plan) == plan
  {
    assert [] + plan.batches == plan.batches;
  }

  /** How a token's turn in the loop ends. */
  datatype Turn = Continue | Halt | ExitUndrained | ExitDrained

  /** The program's end: main returns the status, or exit(EXIT_FAILURE). */
  datatype Result = Returned(status: int) | ExitFailure

  /** What a turn leaves to be done of a plan, having launched these batches. */
  ghost predicate TurnFollows(
    plan: Plan, turn: Turn, launched: seq<Batch>, rest: Plan)
  {
    match turn
    case Continue => plan == After(launched, rest)
    case Halt => launched < plan.batches
    case ExitUndrained => plan == Plan(launched, TooLongUndrained)
    case ExitDrained => plan == Plan(launched, TooLongDrained)
  }

  /** What the second flush point does with a batch, and what is collected and counted after it. */
  ghost predicate Flushed(
    lim: Limits, batch: Batch, lines: nat, turn: Turn, launched: seq<Batch>, batch': Batch, lines': nat)
  {
    var full := lim.lineMode && lines == lim.maxLines;
    && (turn == ExitDrained <==> lim.terminate && TooLong(lim, batch))
    && (turn == Halt ==> full) && turn != ExitUndrained
    && launched == (if turn == Continue && full then [batch] else [])
    && (turn == Continue ==> if full then batch' == [] && lines' == 0 else batch' == batch && lines' == lines)
  }

  lemma {:induction false} LaunchedMore(launches: seq<Argv>, fixed: seq<CString>, a: seq<Batch>, b: seq<Batch>)
    ensures launches + CommandLines(fixed, a) + CommandLines(fixed, b) == launches + CommandLines(fixed, a + b)
  {
    CommandLinesAppend(fixed, a, b);
  }

  /**
   * The run keeps to the plan: it launches a prefix of what is planned, all of it exactly if no launch
   * was refused, and ends as planned if it launched it all. `drained` says that no child is left,
   * `steady` that none was waited for but to make room.
   */
  ghost predicate Honours(
    plan: Plan, fixed: seq<CString>, launches: seq<Argv>, refused: bool, drained: bool, steady: bool, result: Result)
  {
    var all := CommandLines(fixed, plan.batches);
    && launches <= all && (launches == all <==> !refused)
    && match result
       case Returned(_) => drained && (launches == all ==> plan.end.Completed?)
       case ExitFailure =>
         launches == all && !plan.end.Completed? && if plan.end.TooLongUndrained? then steady else drained
  }

  /** How far a run has come: its plan, the tokens of its input, what is launched and what is still to come. */
  datatype Progress = Progress(
    plan: Plan, fixed: seq<CString>, all: seq<Item>, outcome: Outcome,
    done: seq<Batch>, before: nat, left: seq<Item>)

  class AppenderMode {
    const base: XargsMode
    const suppressExecutionOnEmptyInput: bool

    constructor (base: XargsMode, suppressExecutionOnEmptyInput: bool)
      ensures this.base == base && this.suppressExecutionOnEmptyInput == suppressExecutionOnEmptyInput
    {
      this.base := base;
      this.suppressExecutionOnEmptyInput := suppressExecutionOnEmptyInput;
    }

    /** The state between steps of the loop: everything in order and no halt seen. */
    ghost predicate Going()
      reads base.Parts(), base.Repr()
    {
      && base.Valid() && base.Running() && !base.pool.halt
      && base.cmd.placeholder.None?
    }

    /** These batches have been launched, and nothing else, since the launches were `before`. */
    ghost predicate HasLaunched(before: seq<Argv>, batches: seq<Batch>)
      requires base.Valid()
      reads base.Parts(), base.Repr()
    {
      Launches(base.kernel.trace) == before + CommandLines(base.cmd.Fixed(), batches)
    }

    lemma NothingLaunched(before: seq<Argv>)
      requires base.Valid() && Launches(base.kernel.trace) == before
      ensures HasLaunched(before, [])
    {
      assert before + [] == before;
    }

    /** Launches the batch collected, unless a child asks to halt. */
    method LaunchBatch() returns (turn: Turn, ghost launched: seq<Batch>)
      requires Going()
      modifies base.cmd.Repr, base.pool.Repr, base.lines, base.kernel
      ensures base.Valid() && base.Running() && base.Grown()
      ensures base.Reading() == old(base.Reading())
      ensures base.cmd.Fixed() == old(base.cmd.Fixed()) && HasLaunched(old(Launches(base.kernel.trace)), launched)
      ensures base.pool.halt == (turn == Halt) && (turn == Halt || turn == Continue)
      ensures turn == Continue ==>
        launched == [old(base.cmd.Batch())] && base.cmd.Batch() == [] && base.lines.count == 0
      ensures turn == Halt ==> launched == []
    {
      CommandLinesOne(base.cmd.Fixed(), base.cmd.Batch());
      base.ExecuteCommand();
      if base.pool.halt {
        NothingLaunched(old(Launches(base.kernel.trace)));
        return Halt, [];
      }
      return Continue, [old(base.cmd.Batch())];
    }

    /** Flush point one: launch what has been collected if the token may not join it. */
    method FlushBeforeToken(token: CString) returns (turn: Turn, ghost launched: seq<Batch>)
      requires Going()
      modifies base.cmd.Repr, base.pool.Repr, base.lines, base.kernel
      ensures base.Valid() && base.Running() && base.Grown()
      ensures base.Reading() == old(base.Reading())
      ensures base.cmd.Fixed() == old(base.cmd.Fixed()) && HasLaunched(old(Launches(base.kernel.trace)), launched)
      ensures base.pool.halt == (turn == Halt)
      ensures turn != ExitDrained
      ensures turn == ExitUndrained <==> CannotStart(old(base.Limits()), old(base.cmd.Batch()), token)
      ensures turn == Halt ==> FlushBefore(old(base.Limits()), old(base.cmd.Batch()), token)
      ensures turn != Continue ==> launched == []
      ensures turn == Continue ==>
        if FlushBefore(old(base.Limits()), old(base.cmd.Batch()), token) then
          launched == [old(base.cmd.Batch())] && base.cmd.Batch() == [] && base.lines.count == 0
        else
          launched == [] && base.cmd.Batch() == old(base.cmd.Batch()) && base.lines.count == old(base.lines.count)
    {
      NothingLaunched(Launches(base.kernel.trace));
      var exceeds := base.cmd.ArgWouldExceedLimits(token);
      if exceeds.None? {
        return ExitUndrained, [];
      }
      if exceeds.value {
        turn, launched := LaunchBatch();
        return;
      }
      return Continue, [];
    }

    /** Flush point two: give up, launch a full line group, or go on. */
    method FlushAfterToken() returns (turn: Turn, ghost launched: seq<Batch>)
      requires Going()
      modifies base.cmd.Repr, base.pool.Repr, base.lines, base.kernel
      ensures base.Valid() && base.Grown()
      ensures base.cmd.Fixed() == old(base.cmd.Fixed()) && HasLaunched(old(Launches(base.kernel.trace)), launched)
      ensures turn != ExitDrained ==>
        base.Running() && base.Reading() == old(base.Reading()) && base.pool.halt == (turn == Halt)
      ensures turn == ExitDrained ==> base.Finished(false)
      ensures Flushed(
        old(base.Limits()), old(base.cmd.Batch()), old(base.lines.count), turn, launched,
        base.cmd.Batch(), base.lines.count)
    {
      var should := base.ShouldExecuteCommandAfterArgAdded();
      if should.None? {
        NothingLaunched(Launches(base.kernel.trace));
        return ExitDrained, [];
      }
      if should.value {
        turn, launched := LaunchBatch();
        return;
      }
      NothingLaunched(Launches(base.kernel.trace));
      return Continue, [];
    }

    /** The token joins, and the second flush point follows. */
    method JoinToken(token: CString) returns (turn: Turn, ghost launched: seq<Batch>)
      requires Going()
      modifies base.cmd.Repr, base.pool.Repr, base.lines, base.kernel
      ensures base.Valid() && base.Grown()
      ensures base.cmd.Fixed() == old(base.cmd.Fixed()) && HasLaunched(old(Launches(base.kernel.trace)), launched)
      ensures turn != ExitDrained ==>
        base.Running() && base.Reading() == old(base.Reading()) && base.pool.halt == (turn == Halt)
      ensures turn == ExitDrained ==> base.Finished(false)
      ensures Flushed(
        old(base.Limits()), old(base.cmd.Batch()) + [token], old(base.lines.count), turn, launched,
        base.cmd.Batch(), base.lines.count)
    {
      base.AddInputArgument(token);
      turn, launched := FlushAfterToken();
    }

    /** The rest of a turn, once the first flush point has been passed. */
    method EndTurn(
      token: CString, ghost before: nat, ghost item: Item, ghost rest: seq<Item>, ghost outcome: Outcome,
      ghost lim: Limits, ghost batch: Batch, ghost launches: seq<Argv>, ghost flushed: seq<Batch>)
      returns (turn: Turn, ghost launched: seq<Batch>)
      requires Going() && HasLaunched(launches, flushed) && base.Limits() == lim
      requires item.text == token && !CannotStart(lim, batch, token)
      requires flushed == if FlushBefore(lim, batch, token) then [batch] else []
      requires (base.cmd.Batch() + [token], base.lines.count) == Joined(lim, batch, before, item)
      modifies base.cmd.Repr, base.pool.Repr, base.lines, base.kernel
      ensures base.Valid() && base.Grown()
      ensures base.cmd.Fixed() == old(base.cmd.Fixed()) && HasLaunched(launches, launched)
      ensures turn != ExitDrained ==>
        base.Running() && base.Reading() == old(base.Reading()) && base.pool.halt == (turn == Halt)
      ensures turn == ExitDrained ==> base.Finished(false)
      ensures
        TurnFollows(
          Batches(lim, batch, before, [item] + rest, outcome), turn, launched,
          Batches(base.Limits(), base.cmd.Batch(), base.lines.count, rest, outcome))
    {
      ghost var more;
      turn, more := JoinToken(token);
      assert base.Limits() == lim;
      TurnTaken(lim, batch, before, item, rest, outcome, turn, flushed, more, base.cmd.Batch(), base.lines.count);
      LaunchedMore(launches, base.cmd.Fixed(), flushed, more);
      launched := flushed + more;
    }

    /** One token's turn in the loop. */
    method TakeTurn(token: CString, ghost before: nat, ghost item: Item, ghost rest: seq<Item>, ghost outcome: Outcome)
      returns (turn: Turn, ghost launched: seq<Batch>)
      requires Going()
      requires item.text == token && base.lines.count == before + Boundary(item)
      modifies base.cmd.Repr, base.pool.Repr, base.lines, base.kernel
      ensures base.Valid() && base.Grown()
      ensures base.cmd.Fixed() == old(base.cmd.Fixed()) && HasLaunched(old(Launches(base.kernel.trace)), launched)
      ensures turn != ExitDrained ==>
        base.Running() && base.Reading() == old(base.Reading()) && base.pool.halt == (turn == Halt)
      ensures turn == ExitDrained ==> base.Finished(false)
      ensures
        TurnFollows(
          Batches(old(base.Limits()), old(base.cmd.Batch()), before, [item] + rest, outcome), turn, launched,
          Batches(base.Limits(), base.cmd.Batch(), base.lines.count, rest, outcome))
    {
      ghost var lim, batch := base.Limits(), base.cmd.Batch();
      ghost var launches := Launches(base.kernel.trace);
      turn, launched := FlushBeforeToken(token);
      if turn != Continue {
        TurnCutShort(lim, batch, before, item, rest, outcome, turn);
        return;
      }
      assert base.Limits() == lim;
      turn, launched := EndTurn(token, before, item, rest, outcome, lim, batch, launches, launched);
    }

    /** Whether anything is left to launch after the loop. */
    ghost predicate WantsLast(inputPresent: bool)
      requires base.Valid()
      reads base.Parts(), base.Repr()
    {
      if inputPresent then base.cmd.Batch() != [] else !suppressExecutionOnEmptyInput
    }

    /** After the loop, launches what is left, if anything, unless a child asks to halt. */
    method LaunchLast(inputPresent: bool) returns (ghost launched: seq<Batch>)
      requires base.Valid() && base.Running() && base.cmd.placeholder.None?
      modifies base.cmd.Repr, base.pool.Repr, base.lines, base.kernel
      ensures base.Valid() && base.Running() && base.Grown()
      ensures base.cmd.Fixed() == old(base.cmd.Fixed()) && HasLaunched(old(Launches(base.kernel.trace)), launched)
      ensures old(base.pool.halt) ==> base.pool.halt
      ensures
        if old(WantsLast(inputPresent)) then launched == (if base.pool.halt then [] else [old(base.cmd.Batch())])
        else launched == [] && base.pool.halt == old(base.pool.halt)
    {
      NothingLaunched(Launches(base.kernel.trace));
      if (!inputPresent && !suppressExecutionOnEmptyInput) || (inputPresent && base.cmd.InputArgsRemain()) {
        CommandLinesOne(base.cmd.Fixed(), base.cmd.Batch());
        base.ExecuteCommand();
        if !base.pool.halt {
          return [old(base.cmd.Batch())];
        }
        NothingLaunched(Launches(base.kernel.trace));
      }
      return [];
    }

    /** After the loop: fail on a tokenizer error, otherwise launch what is left and wait for everything. */
    method Conclude(inputPresent: bool) returns (result: Result, ghost launched: seq<Batch>, ghost refused: bool)
      requires base.Valid() && base.Running() && base.cmd.placeholder.None?
      modifies base.cmd.Repr, base.pool.Repr, base.lines, base.kernel
      ensures base.Valid()
      ensures base.cmd.Fixed() == old(base.cmd.Fixed()) && HasLaunched(old(Launches(base.kernel.trace)), launched)
      ensures base.Finished(refused) && (old(base.pool.halt) ==> refused)
      ensures result.ExitFailure? <==> old(base.toker.Error()) != ErrNone
      ensures result.Returned? ==> result.status == Accumulate(Statuses(base.kernel.trace))
      ensures
        if result.Returned? && old(WantsLast(inputPresent)) then
          launched == if refused then [] else [old(base.cmd.Batch())]
        else
          launched == [] && refused == old(base.pool.halt)
    {
      if base.toker.Error() != ErrNone {
        NothingLaunched(Launches(base.kernel.trace));
        refused := base.pool.halt;
        var status := base.Drain();
        return ExitFailure, [], refused;
      }
      launched := LaunchLast(inputPresent);
      refused := base.pool.halt;
      var status := base.Drain();
      result := Returned(status);
    }

    /** The loop between rounds, the next token read already if there is one. */
    ghost predicate Following(pr: Progress, token: Option<CString>)
      reads base.Parts(), base.Repr()
    {
      && Going()
      && base.cmd.Fixed() == pr.fixed && HasLaunched([], pr.done)
      && pr.plan == After(pr.done, Batches(base.Limits(), base.cmd.Batch(), pr.before, pr.left, pr.outcome))
      && (pr.left == pr.all ==> pr.done == [] && base.cmd.Batch() == [])
      && match token
         case Some(text) =>
           && pr.left != [] && pr.left[0].text == text && base.lines.count == pr.before + Boundary(pr.left[0])
           && base.toker.Ready() && base.toker.Error() == ErrNone
           && base.Input() == Tokens(pr.left[1..], pr.outcome)
         case None =>
           pr.left == [] && (base.toker.Error() != ErrNone <==> pr.outcome.Errored())
    }

    /** The same before that token is read. */
    ghost predicate AboutToRead(pr: Progress)
      reads base.Parts(), base.Repr()
    {
      && Going()
      && base.cmd.Fixed() == pr.fixed && HasLaunched([], pr.done)
      && pr.plan == After(pr.done, Batches(base.Limits(), base.cmd.Batch(), pr.before, pr.left, pr.outcome))
      && (pr.left == pr.all ==> pr.done == [] && base.cmd.Batch() == [])
      && base.toker.Ready() && base.Input() == Tokens(pr.left, pr.outcome) && base.lines.count == pr.before
    }

    /** How the loop may have ended. */
    ghost predicate Ended(pr: Progress, turn: Turn)
      reads base.Parts(), base.Repr()
    {
      && base.Valid() && base.cmd.Fixed() == pr.fixed && HasLaunched([], pr.done)
      && match turn
         case Continue => Following(pr, None)
         case Halt => base.Running() && base.pool.halt && base.toker.Error() == ErrNone && pr.done < pr.plan.batches
         case ExitUndrained => base.Running() && !base.pool.halt && pr.plan == Plan(pr.done, TooLongUndrained)
         case ExitDrained => base.Finished(false) && pr.plan == Plan(pr.done, TooLongDrained)
    }

    /** Reads the next token. */
    method Advance(ghost pr: Progress) returns (token: Option<CString>)
      requires AboutToRead(pr)
      modifies base.source, base.toker.Repr, base.lines
      ensures base.Grown() && Following(pr, token)
      ensures |base.source.Rest()| <= |old(base.source.Rest())|
      ensures token.Some? ==> |base.source.Rest()| < |old(base.source.Rest())|
    {
      ghost var lim, batch := base.Limits(), base.cmd.Batch();
      token := base.NextToken();
      assert base.Limits() == lim && base.cmd.Batch() == batch;
    }

    /** A token's turn, as progress of the run. */
    method MakeProgress(token: CString, ghost pr: Progress) returns (turn: Turn, ghost later: Progress)
      requires Following(pr, Some(token))
      modifies base.cmd.Repr, base.pool.Repr, base.lines, base.kernel
      ensures base.Grown()
      ensures later == pr.(done := later.done, before := later.before, left := pr.left[1..])
      ensures turn == Continue ==>
        && Going() && base.Reading() == old(base.Reading()) && base.lines.count == later.before
        && base.cmd.Fixed() == later.fixed && HasLaunched([], later.done)
        && later.plan
           == After(later.done, Batches(base.Limits(), base.cmd.Batch(), later.before, later.left, later.outcome))
      ensures turn != Continue ==> Ended(later, turn)
    {
      ghost var item, rest := pr.left[0], pr.left[1..];
      ghost var plan := Batches(base.Limits(), base.cmd.Batch(), pr.before, pr.left, pr.outcome);
      ghost var launched;
      assert pr.left == [item] + rest;
      turn, launched := TakeTurn(token, pr.before, item, rest, pr.outcome);
      LaunchedMore([], pr.fixed, pr.done, launched);
      later := pr.(done := pr.done + launched, before := base.lines.count, left := rest);
      assert base.cmd.Fixed() == later.fixed && HasLaunched([], later.done);
      FollowsAfter(
        plan, pr.done, turn, launched, Batches(base.Limits(), base.cmd.Batch(), later.before, rest, pr.outcome));
    }

    /** One round of the loop: a token's turn and, if the loop goes on, the next token. */
    method Round(token: CString, ghost pr: Progress) returns (turn: Turn, next: Option<CString>, ghost later: Progress)
      requires Following(pr, Some(token)) && |pr.left| <= |pr.all|
      modifies base.source, base.lines, base.kernel, base.cmd.Repr, base.pool.Repr, base.toker.Repr
      ensures base.Grown()
      ensures later == pr.(done := later.done, before := later.before, left := pr.left[1..])
      ensures |later.left| < |pr.left|
      ensures turn == Continue ==>
        && Following(later, next)
        && |base.source.Rest()| <= |old(base.source.Rest())|
        && (next.Some? ==> |base.source.Rest()| < |old(base.source.Rest())|)
      ensures turn != Continue ==> Ended(later, turn)
    {
      turn, later := MakeProgress(token, pr);
      next := None;
      if turn == Continue {
        next := Advance(later);
      }
    }

    /** The mode as created: nothing read, collected or launched. */
    ghost predicate Fresh()
      reads base.Parts(), base.Repr()
    {
      && base.Valid() && base.toker.Ready() && base.cmd.placeholder.None?
      && base.cmd.Batch() == [] && base.lines.count == 0 && base.kernel.trace == []
    }

    /** The loop from the first token on, until the tokens are used up, a child asks to halt, or the program exits. */
    method LoopFrom(first: Option<CString>, ghost start: Progress)
      returns (turn: Turn, inputPresent: bool, ghost pr: Progress)
      requires Following(start, first) && start.left == start.all
      modifies base.source, base.lines, base.kernel, base.cmd.Repr, base.pool.Repr, base.toker.Repr
      ensures base.Grown() && Ended(pr, turn)
      ensures pr == start.(done := pr.done, before := pr.before, left := pr.left)
      ensures inputPresent == (start.all != []) && (!inputPresent ==> turn == Continue && pr == start)
    {
      turn, inputPresent, pr := Continue, false, start;
      var token := first;
      while token.Some?
        invariant base.Grown() && Following(pr, token) && turn == Continue
        invariant pr == start.(done := pr.done, before := pr.before, left := pr.left) && |pr.left| <= |pr.all|
        invariant if inputPresent then start.all != [] else pr == start
        decreases |base.source.Rest()|, token.Some?
      {
        inputPresent := true;
        turn, token, pr := Round(token.value, pr);
        if turn != Continue {
          return;
        }
      }
    }

    /** The whole loop, its first read included. */
    method Loop(ghost start: Progress) returns (turn: Turn, inputPresent: bool, ghost pr: Progress)
      requires AboutToRead(start) && start.left == start.all
      modifies base.source, base.lines, base.kernel, base.cmd.Repr, base.pool.Repr, base.toker.Repr
      ensures base.Grown() && Ended(pr, turn)
      ensures pr == start.(done := pr.done, before := pr.before, left := pr.left)
      ensures inputPresent == (start.all != []) && (!inputPresent ==> turn == Continue && pr == start)
    {
      var first := Advance(start);
      turn, inputPresent, pr := LoopFrom(first, start);
    }

    /** After the loop, when the program has not exited in it. */
    method EndRun(turn: Turn, inputPresent: bool, ghost pr: Progress, ghost lim: Limits, ghost input: Tokens)
      returns (result: Result)
      requires Ended(pr, turn) && (turn == Continue || turn == Halt) && base.cmd.placeholder.None?
      requires pr.plan == Batches(lim, [], 0, input.items, input.outcome) && pr.outcome == input.outcome
      requires base.Limits() == lim && inputPresent == (input.items != [])
      requires !inputPresent ==> turn == Continue && pr.done == [] && base.cmd.Batch() == []
      modifies base.cmd.Repr, base.pool.Repr, base.lines, base.kernel
      ensures base.Valid()
      ensures Draining(base.kernel.trace, base.pool.start, base.pool.childMax)
      ensures
        Honours(
          RunPlan(lim, suppressExecutionOnEmptyInput, input), pr.fixed,
          Launches(base.kernel.trace), base.Refused(), base.kernel.live == {}, base.Running(), result)
      ensures result.Returned? ==> result.status == Accumulate(Statuses(base.kernel.trace))
    {
      ghost var batch, last, refused := base.cmd.Batch(), [], false;
      result, last, refused := Conclude(inputPresent);
      LaunchedMore([], pr.fixed, pr.done, last);
      if turn == Halt {
        HaltedHonours(lim, suppressExecutionOnEmptyInput, input, pr.fixed, pr.done, last, base.Running(), result);
      } else {
        ConcludedHonours(
          lim, suppressExecutionOnEmptyInput, input, pr.fixed, pr.done, batch, pr.before, last,
          refused, base.Running(), result);
      }
    }

    /**
     * The run. Whatever the children do and whichever signals arrive: the launches are those of the
     * plan, in order, all of them exactly if none was refused for a 255 reaped before it; the program
     * fails exactly where the plan does; and when main returns, every child has been reaped and the
     * status is the worst of theirs.
     */
    method Run() returns (result: Result)
      requires Fresh()
      modifies base.source, base.lines, base.kernel, base.cmd.Repr, base.pool.Repr, base.toker.Repr
      ensures base.Valid()
      ensures Draining(base.kernel.trace, base.pool.start, base.pool.childMax)
      ensures
        Honours(
          RunPlan(old(base.Limits()), suppressExecutionOnEmptyInput, old(base.Input())), old(base.cmd.Fixed()),
          Launches(base.kernel.trace), base.Refused(), base.kernel.live == {}, base.Running(), result)
      ensures result.Returned? ==> result.status == Accumulate(Statuses(base.kernel.trace))
    {
      ghost var lim, fixed, input := base.Limits(), base.cmd.Fixed(), base.Input();
      ghost var plan := Batches(lim, [], 0, input.items, input.outcome);
      ghost var pr := Progress(plan, fixed, input.items, input.outcome, [], 0, input.items);
      NothingLaunched([]);
      AfterNone(plan);
      var turn, inputPresent;
      turn, inputPresent, pr := Loop(pr);
      if turn == ExitUndrained || turn == ExitDrained {
        if turn == ExitUndrained {
          SteadyEnds(base.kernel.trace, base.pool.start, base.pool.childMax);
        }
        ExitHonours(
          lim, suppressExecutionOnEmptyInput, input, fixed, pr.done, turn, base.kernel.live == {}, base.Running());
        return ExitFailure;
      }
      result := EndRun(turn, inputPresent, pr, lim, input);
    }
  }

  lemma {:induction false} CommandLinesPrefix(fixed: seq<CString>, some: seq<Batch>, all: seq<Batch>)
    requires some <= all
    ensures CommandLines(fixed, some) <= CommandLines(fixed, all)
    ensures |CommandLines(fixed, some)| == |some|
    ensures |CommandLines(fixed, all)| == |all|
    decreases |all|
  {
    if some == [] {
      if all != [] {
        CommandLinesPrefix(fixed, [], all[1..]);
      }
    } else {
      CommandLinesPrefix(fixed, some[1..], all[1..]);
    }
  }

  /** Each command line is the fixed arguments, then those of its batch. */
  lemma {:induction false} CommandLinesAre(fixed: seq<CString>, batches: seq<Batch>)
    ensures |CommandLines(fixed, batches)| == |batches|
    ensures forall k | 0 <= k < |batches| :: CommandLines(fixed, batches)[k] == fixed + batches[k]
  {
    if batches != [] {
      CommandLinesAre(fixed, batches[1..]);
    }
  }

  lemma {:induction false} ExitHonours(
    lim: Limits, suppress: bool, input: Tokens, fixed: seq<CString>, done: seq<Batch>, turn: Turn,
    drained: bool, steady: bool)
    requires input.items != [] && ((turn == ExitUndrained && steady) || (turn == ExitDrained && drained))
    requires Batches(lim, [], 0, input.items, input.outcome)
      == Plan(done, if turn == ExitUndrained then TooLongUndrained else TooLongDrained)
    ensures Honours(
      RunPlan(lim, suppress, input), fixed, [] + CommandLines(fixed, done), false, drained, steady, ExitFailure)
  {
    assert [] + CommandLines(fixed, done) == CommandLines(fixed, done);
  }

  lemma {:induction false} HaltedHonours(
    lim: Limits, suppress: bool, input: Tokens, fixed: seq<CString>, done: seq<Batch>, last: seq<Batch>,
    steady: bool, result: Result)
    requires input.items != [] && result.Returned? && last == []
    requires done < Batches(lim, [], 0, input.items, input.outcome).batches
    ensures
      Honours(
        RunPlan(lim, suppress, input), fixed, [] + CommandLines(fixed, done + last), true, true, steady, result)
  {
    assert done + last == done && [] + CommandLines(fixed, done) == CommandLines(fixed, done);
    CommandLinesPrefix(fixed, done, RunPlan(lim, suppress, input).batches);
  }

  lemma {:induction false} ConcludedHonours(
    lim: Limits, suppress: bool, input: Tokens, fixed: seq<CString>,
    done: seq<Batch>, batch: Batch, before: nat, last: seq<Batch>,
    refused: bool, steady: bool, result: Result)
    requires
      Batches(lim, [], 0, input.items, input.outcome) == After(done, Batches(lim, batch, before, [], input.outcome))
    requires input.items == [] ==> done == [] && batch == []
    requires result.ExitFailure? <==> input.outcome.Errored()
    requires
      var wants := if input.items != [] then batch != [] else !suppress;
      if result.Returned? && wants then last == (if refused then [] else [batch]) else last == [] && !refused
    ensures
      Honours(
        RunPlan(lim, suppress, input), fixed, [] + CommandLines(fixed, done + last), refused, true, steady, result)
  {
    assert [] + CommandLines(fixed, done + last) == CommandLines(fixed, done + last);
    var plan := RunPlan(lim, suppress, input);
    CommandLinesPrefix(fixed, done + last, plan.batches);
  }

  /** A turn that ended before the token joined. */
  lemma {:induction false} TurnCutShort(
    lim: Limits, batch: Batch, before: nat, item: Item, rest: seq<Item>, outcome: Outcome, turn: Turn)
    requires turn == ExitUndrained ==> CannotStart(lim, batch, item.text)
    requires turn == Halt ==> !CannotStart(lim, batch, item.text) && FlushBefore(lim, batch, item.text)
    requires turn == ExitUndrained || turn == Halt
    ensures TurnFollows(Batches(lim, batch, before, [item] + rest, outcome), turn, [], Plan([], Completed))
  {
  }

  /** The batch and the line count with which a token's turn reaches the second flush point. */
  function Joined(lim: Limits, batch: Batch, before: nat, item: Item): (Batch, nat) {
    if FlushBefore(lim, batch, item.text) then ([] + [item.text], 0)
    else (batch + [item.text], before + Boundary(item))
  }

  /** What the second flush point makes of the plan. */
  lemma {:induction false} FlushFollows(
    lim: Limits, batch: Batch, lines: nat, rest: seq<Item>, outcome: Outcome, turn: Turn,
    launched: seq<Batch>, batch': Batch, lines': nat)
    requires Flushed(lim, batch, lines, turn, launched, batch', lines')
    ensures
      TurnFollows(
        Added(lim, batch, lines, rest, outcome), turn, launched, Batches(lim, batch', lines', rest, outcome))
  {
  }

  /** Launches made before a turn's end are part of what it launched. */
  lemma {:induction false} FollowsAfter(
    plan: Plan, before: seq<Batch>, turn: Turn, launched: seq<Batch>, rest: Plan)
    requires TurnFollows(plan, turn, launched, rest)
    ensures TurnFollows(After(before, plan), turn, before + launched, rest)
  {
    AfterAfter(before, launched, rest);
  }

  /** A turn that ended after it: what was launched, and what is collected and counted now. */
  lemma {:induction false} TurnTaken(
    lim: Limits, batch: Batch, before: nat, item: Item, rest: seq<Item>, outcome: Outcome, turn: Turn,
    launched: seq<Batch>, more: seq<Batch>, batch': Batch, lines': nat)
    requires !CannotStart(lim, batch, item.text)
    requires launched == if FlushBefore(lim, batch, item.text) then [batch] else []
    requires
      var (joined, lines) := Joined(lim, batch, before, item);
      Flushed(lim, joined, lines, turn, more, batch', lines')
    ensures
      TurnFollows(
        Batches(lim, batch, before, [item] + rest, outcome), turn, launched + more,
        Batches(lim, batch', lines', rest, outcome))
  {
    var (joined, lines) := Joined(lim, batch, before, item);
    var added := Added(lim, joined, lines, rest, outcome);
    assert ([item] + rest)[1..] == rest && [] + [item.text] == [item.text];
    assert Batches(lim, batch, before, [item] + rest, outcome) == After(launched, added);
    FlushFollows(lim, joined, lines, rest, outcome, turn, more, batch', lines');
    FollowsAfter(added, launched, turn, more, Batches(lim, batch', lines', rest, outcome));
  }
}
