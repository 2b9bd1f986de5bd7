/** What holds of every plan: nothing lost, nothing oversized, no launch too many. */
module BatchTheorems {
  import opened Bytes
  import opened TokenStep
  import opened TokenStream
  import opened BatchPlan

  // ---------------------------------------------------------------- conservation

  predicate NoneEmpty(batches: seq<Batch>) {
    forall i | 0 <= i < |batches| :: batches[i] != []
  }

  /** The batches hold the tokens in order, each once: all of them, or a prefix when the run ends early. */
  predicate Holds(plan: Plan, tokens: seq<CString>) {
    && Concat(plan.batches) <= tokens
    && (plan.end.Completed? ==> Concat(plan.batches) == tokens)
    && NoneEmpty(plan.batches)
  }

  lemma LaunchHolds(batch: Batch, later: Plan, tokens: seq<CString>)
    requires batch != [] && Holds(later, tokens)
    ensures Holds(Launch(batch, later), batch + tokens)
  {
    assert ([batch] + later.batches)[1..] == later.batches;
  }

  lemma {:induction false} BatchesConserve(lim: Limits, batch: Batch, lines: nat, items: seq<Item>, outcome: Outcome)
    ensures Holds(Batches(lim, batch, lines, items, outcome), batch + Texts(items))
    decreases |items|, 1
  {
    if items == [] {
      ConcatOne(batch);
    } else {
      var token, rest := items[0].text, items[1..];
      if CannotStart(lim, batch, token) {
      } else if FlushBefore(lim, batch, token) {
        AddedConserve(lim, [token], 0, rest, outcome);
        LaunchHolds(batch, Added(lim, [token], 0, rest, outcome), [token] + Texts(rest));
      } else {
        AddedConserve(lim, batch + [token], lines + Boundary(items[0]), rest, outcome);
        assert batch + [token] + Texts(rest) == batch + Texts(items);
      }
    }
  }

  lemma {:induction false} AddedConserve(lim: Limits, batch: Batch, lines: nat, items: seq<Item>, outcome: Outcome)
    requires batch != []
    ensures Holds(Added(lim, batch, lines, items, outcome), batch + Texts(items))
    decreases |items|, 2
  {
    if lim.terminate && TooLong(lim, batch) {
    } else if lim.lineMode && lines == lim.maxLines {
      BatchesConserve(lim, [], 0, items, outcome);
      assert [] + Texts(items) == Texts(items);
      LaunchHolds(batch, Batches(lim, [], 0, items, outcome), Texts(items));
    } else {
      BatchesConserve(lim, batch, lines, items, outcome);
    }
  }

  /**
   * Conservation: whatever the limits, the launched arguments are the tokens in order; all of
   * them when the run completes; and no launch is empty if there was any token.
   */
  lemma Conservation(lim: Limits, suppressEmpty: bool, input: Tokens)
    ensures
      var plan := RunPlan(lim, suppressEmpty, input);
      && Concat(plan.batches) <= Texts(input.items)
      && (plan.end.Completed? ==> Concat(plan.batches) == Texts(input.items))
      && (input.items != [] ==> NoneEmpty(plan.batches))
  {
    BatchesConserve(lim, [], 0, input.items, input.outcome);
    assert [] + Texts(input.items) == Texts(input.items);
    ConcatOne<CString>([]);
  }

  /** Stopping the launches early, as a halt does, still leaves a prefix of the tokens. */
  lemma {:induction false} FewerBatches(some: seq<Batch>, all: seq<Batch>)
    requires some <= all
    ensures Concat(some) <= Concat(all)
  {
    assert all == some + all[|some|..];
    ConcatAppend(some, all[|some|..]);
  }

  // ---------------------------------------------------------------- size

  /** What a launched batch obeys; BatchShape.AllFitIff says when even the lone tokens fit. */
  predicate Obeys(lim: Limits, batch: Batch) {
    && (lim.terminate || |batch| >= 2 ==> !TooLong(lim, batch))
    && (lim.maxArgs > 0 ==> |batch| <= lim.maxArgs)
  }

  predicate AllObey(lim: Limits, batches: seq<Batch>) {
    forall i | 0 <= i < |batches| :: Obeys(lim, batches[i])
  }

  lemma LengthAppend(lim: Limits, batch: Batch, token: CString)
    ensures Length(lim, batch + [token]) == Length(lim, batch) + |token| + 1
  {
    ArgsLengthConcat(batch, [token]);
    ArgsLengthOne(token);
  }

  lemma {:induction false} BatchesObey(lim: Limits, batch: Batch, lines: nat, items: seq<Item>, outcome: Outcome)
    requires FromOptions(lim) && (batch == [] || Obeys(lim, batch))
    ensures AllObey(lim, Batches(lim, batch, lines, items, outcome).batches)
    decreases |items|, 1
  {
    if items != [] {
      var token, rest := items[0].text, items[1..];
      LengthAppend(lim, batch, token);
      if CannotStart(lim, batch, token) {
      } else if FlushBefore(lim, batch, token) {
        AddedObey(lim, [token], 0, rest, outcome);
      } else {
        AddedObey(lim, batch + [token], lines + Boundary(items[0]), rest, outcome);
      }
    }
  }

  lemma {:induction false} AddedObey(lim: Limits, batch: Batch, lines: nat, items: seq<Item>, outcome: Outcome)
    requires FromOptions(lim) && batch != [] && (lim.maxArgs > 0 ==> |batch| <= lim.maxArgs)
    requires !lim.terminate && |batch| >= 2 ==> !TooLong(lim, batch)
    ensures AllObey(lim, Added(lim, batch, lines, items, outcome).batches)
    decreases |items|, 2
  {
    if lim.terminate && TooLong(lim, batch) {
    } else if lim.lineMode && lines == lim.maxLines {
      BatchesObey(lim, [], 0, items, outcome);
    } else {
      BatchesObey(lim, batch, lines, items, outcome);
    }
  }

  /**
   * Size safety: with -x every launched batch fits; without it every batch of two or more does;
   * and none has more than max_args arguments.
   */
  lemma SizeSafety(lim: Limits, suppressEmpty: bool, input: Tokens)
    requires FromOptions(lim) && input.items != []
    ensures AllObey(lim, RunPlan(lim, suppressEmpty, input).batches)
  {
    BatchesObey(lim, [], 0, input.items, input.outcome);
  }

  // ---------------------------------------------------------------- forced boundaries

  /** Whether a set of limits would let these arguments share a launch. */
  predicate Fits(lim: Limits, batch: Batch) {
    (lim.maxArgs > 0 ==> |batch| <= lim.maxArgs) && !TooLong(lim, batch)
  }

  /** Every boundary was forced: the next token would not have fitted with the batch before it. */
  predicate AllForced(lim: Limits, batches: seq<Batch>) {
    |batches| >= 2 ==>
      && batches[1] != [] && !Fits(lim, batches[0] + [batches[1][0]])
      && AllForced(lim, batches[1..])
  }

  /** What the first launched batch starts with. */
  predicate StartsWith(batches: seq<Batch>, batch: Batch) {
    batches != [] ==> batch <= batches[0]
  }

  lemma {:induction false} BatchesForced(lim: Limits, batch: Batch, lines: nat, items: seq<Item>, outcome: Outcome)
    requires !lim.lineMode
    ensures
      var batches := Batches(lim, batch, lines, items, outcome).batches;
      AllForced(lim, batches) && StartsWith(batches, batch)
    decreases |items|, 1
  {
    if items != [] {
      var token, rest := items[0].text, items[1..];
      LengthAppend(lim, batch, token);
      if CannotStart(lim, batch, token) {
      } else if FlushBefore(lim, batch, token) {
        AddedForced(lim, [token], 0, rest, outcome);
        var later := Added(lim, [token], 0, rest, outcome).batches;
        assert ([batch] + later)[1..] == later;
        if later != [] {
          assert later[0][0] == [token][0];
        }
      } else {
        AddedForced(lim, batch + [token], lines + Boundary(items[0]), rest, outcome);
      }
    }
  }

  lemma {:induction false} AddedForced(lim: Limits, batch: Batch, lines: nat, items: seq<Item>, outcome: Outcome)
    requires !lim.lineMode
    ensures
      var batches := Added(lim, batch, lines, items, outcome).batches;
      AllForced(lim, batches) && StartsWith(batches, batch)
    decreases |items|, 2
  {
    if !(lim.terminate && TooLong(lim, batch)) {
      BatchesForced(lim, batch, lines, items, outcome);
    }
  }

  /** Forced boundaries: outside line mode a launch happens before a token only because that token does not fit. */
  lemma ForcedBoundaries(lim: Limits, suppressEmpty: bool, input: Tokens)
    requires !lim.lineMode
    ensures AllForced(lim, RunPlan(lim, suppressEmpty, input).batches)
  {
    BatchesForced(lim, [], 0, input.items, input.outcome);
  }

  // ---------------------------------------------------------------- optimality

  /** A way to launch all the tokens in order within the limits. */
  predicate IsPacking(lim: Limits, packing: seq<Batch>, tokens: seq<CString>) {
    Concat(packing) == tokens && forall i | 0 <= i < |packing| :: Fits(lim, packing[i])
  }

  /** If a batch fits, so does any stretch of it. */
  lemma StretchFits(lim: Limits, before: Batch, stretch: Batch, after: Batch)
    requires Fits(lim, before + stretch + after)
    ensures Fits(lim, stretch)
  {
    ArgsLengthConcat(before + stretch, after);
    ArgsLengthConcat(before, stretch);
  }

  /** The first batch of a packing cannot cover a stretch that does not fit. */
  lemma FirstBatchStopsBefore(lim: Limits, packing: seq<Batch>, before: Batch, stretch: Batch, after: Batch)
    requires IsPacking(lim, packing, before + stretch + after) && packing != []
    requires !Fits(lim, stretch)
    ensures |packing[0]| < |before| + |stretch|
  {
    var all, first := before + stretch + after, packing[0];
    assert all == first + Concat(packing[1..]);
    if |first| >= |before| + |stretch| {
      var tail := first[|before| + |stretch|..];
      assert first == all[..|first|];
      assert first == before + stretch + tail;
      StretchFits(lim, before, stretch, tail);
    }
  }

  lemma {:induction false} BatchesOptimal(
    lim: Limits, batch: Batch, lines: nat, items: seq<Item>, outcome: Outcome,
    packing: seq<Batch>, before: Batch)
    requires !lim.lineMode && batch != [] && (lim.maxArgs > 0 ==> |batch| <= lim.maxArgs)
    requires IsPacking(lim, packing, before + batch + Texts(items))
    ensures |Batches(lim, batch, lines, items, outcome).batches| <= |packing|
    decreases |items|, 1
  {
    assert before + batch + Texts(items) != [] && packing != [];
    if items != [] {
      var token, rest := items[0].text, items[1..];
      LengthAppend(lim, batch, token);
      if FlushBefore(lim, batch, token) {
        var first, all := packing[0], before + (batch + [token]) + Texts(rest);
        assert before + batch + Texts(items) == all;
        FirstBatchStopsBefore(lim, packing, before, batch + [token], Texts(rest));
        var before' := (before + batch)[|first|..];
        assert all == first + Concat(packing[1..]);
        assert Concat(packing[1..]) == all[|first|..] == before' + [token] + Texts(rest);
        AddedOptimal(lim, [token], 0, rest, outcome, packing[1..], before');
      } else {
        assert before + batch + Texts(items) == before + (batch + [token]) + Texts(rest);
        AddedOptimal(lim, batch + [token], lines + Boundary(items[0]), rest, outcome, packing, before);
      }
    }
  }

  lemma {:induction false} AddedOptimal(
    lim: Limits, batch: Batch, lines: nat, items: seq<Item>, outcome: Outcome,
    packing: seq<Batch>, before: Batch)
    requires !lim.lineMode && batch != [] && (lim.maxArgs > 0 ==> |batch| <= lim.maxArgs)
    requires IsPacking(lim, packing, before + batch + Texts(items))
    ensures |Added(lim, batch, lines, items, outcome).batches| <= |packing|
    decreases |items|, 2
  {
    if !(lim.terminate && TooLong(lim, batch)) {
      BatchesOptimal(lim, batch, lines, items, outcome, packing, before);
    }
  }

  /**
   * Greedy optimality: outside line mode the program never launches more commands than any
   * other way of launching the same tokens in order within the limits; and when it completes,
   * its own batches are such a way whenever one exists.
   */
  lemma GreedyIsOptimal(lim: Limits, suppressEmpty: bool, input: Tokens, packing: seq<Batch>)
    requires !lim.lineMode && input.items != []
    requires IsPacking(lim, packing, Texts(input.items))
    ensures
      var plan := RunPlan(lim, suppressEmpty, input);
      && |plan.batches| <= |packing|
      && (plan.end.Completed? ==> IsPacking(lim, plan.batches, Texts(input.items)))
  {
    var token, rest := input.items[0].text, input.items[1..];
    assert [] + [token] + Texts(rest) == Texts(input.items);
    LengthAppend(lim, [], token);
    if !CannotStart(lim, [], token) {
      AddedOptimal(lim, [] + [token], 0 + Boundary(input.items[0]), rest, input.outcome, packing, []);
    }
    Conservation(lim, suppressEmpty, input);
    SizeSafety(lim, suppressEmpty, input);
    var plan := RunPlan(lim, suppressEmpty, input);
    forall i | 0 <= i < |plan.batches|
      ensures Fits(lim, plan.batches[i])
    {
      if |plan.batches[i]| == 1 {
        var k := TokenOf(plan.batches, i);
        assert plan.batches[i] == [Concat(plan.batches)[k]];
        TokenFits(lim, packing, k);
      }
    }
  }

  /** Where a one-token batch sits in the token list. */
  lemma {:induction false} TokenOf(batches: seq<Batch>, i: nat) returns (k: nat)
    requires i < |batches| && |batches[i]| == 1
    ensures k < |Concat(batches)| && Concat(batches)[k] == batches[i][0]
  {
    if i == 0 {
      k := 0;
    } else {
      var j := TokenOf(batches[1..], i - 1);
      k := |batches[0]| + j;
    }
  }

  lemma {:induction false} TokenFits(lim: Limits, packing: seq<Batch>, k: nat)
    requires k < |Concat(packing)| && forall i | 0 <= i < |packing| :: Fits(lim, packing[i])
    ensures Fits(lim, [Concat(packing)[k]])
  {
    var first := packing[0];
    if k < |first| {
      assert first == first[..k] + [first[k]] + first[k + 1..];
      StretchFits(lim, first[..k], [first[k]], first[k + 1..]);
    } else {
      TokenFits(lim, packing[1..], k - |first|);
    }
  }
}
