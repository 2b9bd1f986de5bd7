/**
 * The exact shape of the batches where size does not decide it (-L, and -n with -x), and the
 * exact condition under which a run gives up because a command line would be too long.
 */
module BatchShape {
  import opened Bytes
  import opened TokenStep
  import opened TokenStream
  import opened BatchPlan
  import opened BatchTheorems

  /** xs cut into consecutive pieces of n, the last one possibly shorter. */
  function Chunks<T>(xs: seq<T>, n: nat): seq<seq<T>>
    requires n >= 1
  {
    if xs == [] then []
    else if |xs| <= n then [xs]
    else [xs[..n]] + Chunks(xs[n..], n)
  }

  lemma ChunksCons<T>(chunk: seq<T>, later: seq<T>, n: nat)
    requires n >= 1 && |chunk| == n
    ensures Chunks(chunk + later, n) == [chunk] + Chunks(later, n)
  {
    var all := chunk + later;
    if later == [] {
      assert all == chunk;
    } else {
      assert all[..n] == chunk && all[n..] == later;
    }
  }

  /** The pieces put together are the whole; each has n elements but the last, which has at least one. */
  lemma {:induction false} ChunksPartition<T>(xs: seq<T>, n: nat)
    requires n >= 1
    ensures Concat(Chunks(xs, n)) == xs
    ensures forall i | 0 <= i < |Chunks(xs, n)| ::
      1 <= |Chunks(xs, n)[i]| <= n && (i < |Chunks(xs, n)| - 1 ==> |Chunks(xs, n)[i]| == n)
    decreases |xs|
  {
    if |xs| > n {
      ChunksPartition(xs[n..], n);
    } else if xs != [] {
      ConcatOne(xs);
    }
  }

  /** The tokens by logical line: an item that ends its line is the last of it. */
  function Lines(line: Batch, items: seq<Item>): seq<Batch>
    decreases |items|
  {
    if items == [] then
      if line == [] then [] else [line]
    else if items[0].lineEnds then
      [line + [items[0].text]] + Lines([], items[1..])
    else
      Lines(line + [items[0].text], items[1..])
  }

  /** How many whole groups of n there are among k. */
  function Whole(k: nat, n: nat): nat
    requires n >= 1
  {
    if k < n then 0 else 1 + Whole(k - n, n)
  }

  /** How many lines end among these items. */
  function LineEnds(items: seq<Item>): nat {
    if items == [] then 0 else Boundary(items[0]) + LineEnds(items[1..])
  }

  function Flattened(groups: seq<seq<Batch>>): seq<Batch> {
    if groups == [] then [] else [Concat(groups[0])] + Flattened(groups[1..])
  }

  /** Every max_lines consecutive lines as one batch. */
  function LineGroups(lines: seq<Batch>, maxLines: nat): seq<Batch>
    requires maxLines >= 1
  {
    Flattened(Chunks(lines, maxLines))
  }

  predicate AnyTooLong(lim: Limits, batches: seq<Batch>) {
    batches != [] && (TooLong(lim, batches[0]) || AnyTooLong(lim, batches[1..]))
  }

  predicate Aborts(end: End) {
    end.TooLongUndrained? || end.TooLongDrained?
  }

  /**
   * A run launches these groups in order: all of them when it completes; exactly those before the first
   * one that is too long when it gives up; the first `whole` of them when reading fails, at most the
   * last one missing.
   */
  predicate Follows(lim: Limits, plan: Plan, groups: seq<Batch>, whole: nat) {
    var n := |plan.batches|;
    && plan.batches <= groups
    && (forall i | 0 <= i < n :: !TooLong(lim, groups[i]))
    && (Aborts(plan.end) <==> AnyTooLong(lim, groups))
    && (Aborts(plan.end) ==> n < |groups| && TooLong(lim, groups[n]))
    && (plan.end.Completed? ==> n == |groups|)
    && (plan.end.InputError? ==> n == whole && |groups| <= n + 1)
  }

  /** One group launched and the rest followed. */
  lemma {:induction false} FollowsLaunch(lim: Limits, batch: Batch, later: Plan, groups: seq<Batch>, whole: nat)
    requires Follows(lim, later, groups, whole) && !TooLong(lim, batch)
    ensures Follows(lim, Launch(batch, later), [batch] + groups, whole + 1)
  {
    var n := |later.batches|;
    assert ([batch] + groups)[1..] == groups;
    if n < |groups| {
      assert ([batch] + groups)[n + 1] == groups[n];
    }
  }

  /** Nothing launched because the first group is too long. */
  lemma FollowsAbort(lim: Limits, end: End, groups: seq<Batch>, whole: nat)
    requires Aborts(end) && groups != [] && TooLong(lim, groups[0])
    ensures Follows(lim, Plan([], end), groups, whole)
  {
  }

  /** What the end of input makes of the batch collected. */
  lemma {:induction false} FollowsEnd(lim: Limits, batch: Batch, lines: nat, outcome: Outcome, groups: seq<Batch>)
    requires batch != [] ==> !TooLong(lim, batch)
    requires groups == if batch == [] then [] else [batch]
    ensures Follows(lim, Batches(lim, batch, lines, [], outcome), groups, 0)
  {
    if batch != [] {
      assert groups[1..] == [];
      assert Follows(lim, Batches(lim, batch, lines, [], outcome), groups, 0);
    }
  }

  lemma LongerStaysTooLong(lim: Limits, batch: Batch, more: Batch)
    ensures TooLong(lim, batch) ==> TooLong(lim, batch + more)
  {
    ArgsLengthConcat(batch, more);
  }

  // ---------------------------------------------------------------- -L

  /** What chunks of lines begin with, once a line has begun. */
  lemma {:induction false} LinesStart(line: Batch, items: seq<Item>) returns (more: Batch)
    requires line != []
    ensures Lines(line, items) != [] && Lines(line, items)[0] == line + more
    decreases |items|
  {
    if items == [] {
      more := [];
    } else if items[0].lineEnds {
      more := [items[0].text];
    } else {
      var rest := LinesStart(line + [items[0].text], items[1..]);
      more := [items[0].text] + rest;
      assert line + more == line + [items[0].text] + rest;
    }
  }

  /** The first group begins with the lines collected and the start of the next one. */
  lemma {:induction false} GroupPrefix(done: seq<Batch>, line: Batch, begun: Batch, later: seq<Batch>, maxLines: nat)
    returns (more: Batch)
    requires |done| < maxLines
    ensures
      var groups := LineGroups(done + ([line + begun] + later), maxLines);
      groups != [] && groups[0] == Concat(done) + line + more
  {
    var all := done + ([line + begun] + later);
    var n := if |all| <= maxLines then |all| else maxLines;
    var tail := all[|done| + 1..n];
    assert Chunks(all, maxLines)[0] == all[..n] == done + ([line + begun] + tail);
    ConcatAppend(done, [line + begun] + tail);
    assert ([line + begun] + tail)[1..] == tail;
    more := begun + Concat(tail);
    assert Concat(done) + (line + begun + Concat(tail)) == Concat(done) + line + more;
  }

  /** The first group holds the whole lines collected and the one begun. */
  lemma {:induction false} GroupStart(done: seq<Batch>, line: Batch, items: seq<Item>, maxLines: nat)
    returns (more: Batch)
    requires |done| < maxLines && (done != [] || line != [])
    ensures
      var groups := LineGroups(done + Lines(line, items), maxLines);
      groups != [] && groups[0] == Concat(done) + line + more
  {
    var later := Lines(line, items);
    if line != [] {
      var begun := LinesStart(line, items);
      assert later == [line + begun] + later[1..];
      more := GroupPrefix(done, line, begun, later[1..], maxLines);
    } else if later == [] {
      assert done + later == done;
      FewLines(done, maxLines);
      more := [];
      assert Concat(done) + line + more == Concat(done);
    } else {
      assert line + later[0] == later[0] && later == [later[0]] + later[1..];
      more := GroupPrefix(done, line, later[0], later[1..], maxLines);
    }
  }

  lemma {:induction false} GroupsCons(done: seq<Batch>, later: seq<Batch>, maxLines: nat)
    requires maxLines >= 1 && |done| == maxLines
    ensures LineGroups(done + later, maxLines) == [Concat(done)] + LineGroups(later, maxLines)
  {
    ChunksCons(done, later, maxLines);
    var groups := [done] + Chunks(later, maxLines);
    assert groups[1..] == Chunks(later, maxLines);
  }

  /** One token in -L mode. */
  lemma {:induction false} LineStep(lim: Limits, batch: Batch, lines: nat, items: seq<Item>, outcome: Outcome)
    requires FromOptions(lim) && lim.lineMode && items != []
    requires batch != [] ==> !TooLong(lim, batch)
    ensures
      var longer, lines', rest := batch + [items[0].text], lines + Boundary(items[0]), items[1..];
      Batches(lim, batch, lines, items, outcome)
      == if TooLong(lim, longer) then Plan([], if batch == [] then TooLongUndrained else TooLongDrained)
         else if lines' == lim.maxLines then Launch(longer, Batches(lim, [], 0, rest, outcome))
         else Batches(lim, longer, lines', rest, outcome)
  {
    LengthAppend(lim, batch, items[0].text);
  }

  /** Line grouping from a point with these whole lines and this line begun. */
  ghost predicate LinesFollow(lim: Limits, done: seq<Batch>, line: Batch, items: seq<Item>, outcome: Outcome)
    requires lim.maxLines >= 1
  {
    Follows(lim, Batches(lim, Concat(done) + line, |done|, items, outcome),
            LineGroups(done + Lines(line, items), lim.maxLines), Whole(|done| + LineEnds(items), lim.maxLines))
  }

  lemma {:induction false} LinesOver(lim: Limits, done: seq<Batch>, line: Batch, outcome: Outcome)
    requires FromOptions(lim) && lim.lineMode
    requires |done| < lim.maxLines
    requires Concat(done) + line == [] ==> done == []
    requires Concat(done) + line != [] ==> !TooLong(lim, Concat(done) + line)
    ensures LinesFollow(lim, done, line, [], outcome)
  {
    EndOfLines(lim, done, line);
    FollowsEnd(lim, Concat(done) + line, |done|, outcome, LineGroups(done + Lines(line, []), lim.maxLines));
    assert Whole(|done| + LineEnds([]), lim.maxLines) == 0;
  }

  /** The lines collected and the next token are too long. */
  lemma {:induction false} LineTooLong(lim: Limits, done: seq<Batch>, line: Batch, items: seq<Item>, outcome: Outcome)
    requires FromOptions(lim) && lim.lineMode && items != [] && |done| < lim.maxLines
    requires Concat(done) + line != [] ==> !TooLong(lim, Concat(done) + line)
    requires TooLong(lim, Concat(done) + line + [items[0].text])
    ensures LinesFollow(lim, done, line, items, outcome)
  {
    var batch: Batch := Concat(done) + line;
    LineStep(lim, batch, |done|, items, outcome);
    TooLongLine(lim, done, line, items);
    FollowsAbort(
      lim, if batch == [] then TooLongUndrained else TooLongDrained,
      LineGroups(done + Lines(line, items), lim.maxLines), Whole(|done| + LineEnds(items), lim.maxLines));
  }

  /** Line grouping from a point where a line has just ended: the lines collected are launched if there are enough. */
  ghost predicate EndedFollow(lim: Limits, done: seq<Batch>, items: seq<Item>, outcome: Outcome)
    requires lim.maxLines >= 1
  {
    Follows(
      lim,
      if |done| == lim.maxLines then Launch(Concat(done), Batches(lim, [], 0, items, outcome))
      else Batches(lim, Concat(done), |done|, items, outcome),
      LineGroups(done + Lines([], items), lim.maxLines), Whole(|done| + LineEnds(items), lim.maxLines))
  }

  /** The next token fits and ends its line. */
  lemma {:induction false} LineCloses(lim: Limits, done: seq<Batch>, line: Batch, items: seq<Item>, outcome: Outcome)
    requires FromOptions(lim) && lim.lineMode && items != [] && |done| < lim.maxLines && items[0].lineEnds
    requires Concat(done) + line != [] ==> !TooLong(lim, Concat(done) + line)
    requires !TooLong(lim, Concat(done) + line + [items[0].text])
    requires EndedFollow(lim, done + [line + [items[0].text]], items[1..], outcome)
    ensures LinesFollow(lim, done, line, items, outcome)
  {
    LineStep(lim, Concat(done) + line, |done|, items, outcome);
    LineEnded(done, line, items);
  }

  /** The next token fits and does not. */
  lemma {:induction false} LineGrows(lim: Limits, done: seq<Batch>, line: Batch, items: seq<Item>, outcome: Outcome)
    requires FromOptions(lim) && lim.lineMode && items != [] && |done| < lim.maxLines && !items[0].lineEnds
    requires Concat(done) + line != [] ==> !TooLong(lim, Concat(done) + line)
    requires !TooLong(lim, Concat(done) + line + [items[0].text])
    requires LinesFollow(lim, done, line + [items[0].text], items[1..], outcome)
    ensures LinesFollow(lim, done, line, items, outcome)
  {
    LineStep(lim, Concat(done) + line, |done|, items, outcome);
    LineGoesOn(line, items);
    assert Concat(done) + (line + [items[0].text]) == Concat(done) + line + [items[0].text];
  }

  /** ... from any point with fewer than max_lines lines, so the test for equality is never stepped over. */
  lemma {:induction false} LineBatches(
    lim: Limits, done: seq<Batch>, line: Batch, items: seq<Item>, outcome: Outcome)
    requires FromOptions(lim) && lim.lineMode
    requires |done| < lim.maxLines
    requires Concat(done) + line == [] ==> done == []
    requires Concat(done) + line != [] ==> !TooLong(lim, Concat(done) + line)
    ensures LinesFollow(lim, done, line, items, outcome)
    decreases |items|, 0
  {
    if items == [] {
      LinesOver(lim, done, line, outcome);
    } else if TooLong(lim, Concat(done) + line + [items[0].text]) {
      LineTooLong(lim, done, line, items, outcome);
    } else {
      var rest, line' := items[1..], line + [items[0].text];
      assert Concat(done) + line + [items[0].text] == Concat(done) + line';
      if items[0].lineEnds {
        LineEnded(done, line, items);
        LinesBatches(lim, done + [line'], rest, outcome);
        LineCloses(lim, done, line, items, outcome);
      } else {
        LineBatches(lim, done, line', rest, outcome);
        LineGrows(lim, done, line, items, outcome);
      }
    }
  }

  /** The same where a line has just ended: the lines collected are launched if there are enough. */
  lemma {:induction false} LinesBatches(lim: Limits, done: seq<Batch>, items: seq<Item>, outcome: Outcome)
    requires FromOptions(lim) && lim.lineMode
    requires 1 <= |done| <= lim.maxLines && Concat(done) != [] && !TooLong(lim, Concat(done))
    ensures EndedFollow(lim, done, items, outcome)
    decreases |items|, 1
  {
    assert Concat(done) + [] == Concat(done);
    if |done| == lim.maxLines {
      LineBatches(lim, [], [], items, outcome);
      assert [] + Lines([], items) == Lines([], items);
      var later, groups := Batches(lim, [], 0, items, outcome), LineGroups(Lines([], items), lim.maxLines);
      var whole := Whole(LineEnds(items), lim.maxLines);
      assert Follows(lim, later, groups, whole);
      FollowsLaunch(lim, Concat(done), later, groups, whole);
      GroupsCons(done, Lines([], items), lim.maxLines);
    } else {
      LineBatches(lim, done, [], items, outcome);
    }
  }

  /** A token that ends its line makes one more line collected. */
  lemma {:induction false} LineEnded(done: seq<Batch>, line: Batch, items: seq<Item>)
    requires items != [] && items[0].lineEnds
    ensures
      var line', rest := line + [items[0].text], items[1..];
      && Concat(done + [line']) == Concat(done) + line + [items[0].text]
      && done + Lines(line, items) == done + [line'] + Lines([], rest)
      && LineEnds(items) == 1 + LineEnds(rest)
  {
    var line', rest := line + [items[0].text], items[1..];
    ConcatAppend(done, [line']);
    ConcatOne(line');
    AppendAssoc(done, line', Lines([], rest));
  }

  /** Any other token makes the line begun longer. */
  lemma {:induction false} LineGoesOn(line: Batch, items: seq<Item>)
    requires items != [] && !items[0].lineEnds
    ensures Lines(line, items) == Lines(line + [items[0].text], items[1..])
    ensures LineEnds(items) == LineEnds(items[1..])
  {
  }

  lemma {:induction false} EndOfLines(lim: Limits, done: seq<Batch>, line: Batch)
    requires |done| < lim.maxLines
    requires Concat(done) + line == [] ==> done == []
    ensures LineGroups(done + Lines(line, []), lim.maxLines)
         == if Concat(done) + line == [] then [] else [Concat(done) + line]
  {
    var all := done + Lines(line, []);
    if done == [] && line == [] {
      assert all == [];
    } else {
      FewLines(all, lim.maxLines);
      if line == [] {
        assert all == done && Concat(done) + [] == Concat(done);
      } else {
        assert Lines(line, []) == [line];
        ConcatAppend(done, [line]);
        ConcatOne(line);
      }
    }
  }

  lemma {:induction false} FewLines(lines: seq<Batch>, maxLines: nat)
    requires 1 <= |lines| <= maxLines
    ensures LineGroups(lines, maxLines) == [Concat(lines)]
  {
    var groups: seq<seq<Batch>> := [lines];
    assert Chunks(lines, maxLines) == groups;
    assert groups[0] == lines && groups[1..] == [] && Flattened(groups[1..]) == [];
    assert Flattened(groups) == [Concat(groups[0])] + Flattened(groups[1..]);
  }

  /** Once the lines collected and a line begun are too long, so is the group they belong to. */
  lemma {:induction false} TooLongGroup(lim: Limits, done: seq<Batch>, line: Batch, items: seq<Item>)
    requires |done| < lim.maxLines && (done != [] || line != [])
    requires TooLong(lim, Concat(done) + line)
    ensures
      var groups := LineGroups(done + Lines(line, items), lim.maxLines);
      groups != [] && TooLong(lim, groups[0])
  {
    var more := GroupStart(done, line, items, lim.maxLines);
    LongerStaysTooLong(lim, Concat(done) + line, more);
  }

  lemma {:induction false} TooLongLines(lim: Limits, done: seq<Batch>, items: seq<Item>)
    requires done != [] && |done| <= lim.maxLines && TooLong(lim, Concat(done))
    ensures
      var groups := LineGroups(done + Lines([], items), lim.maxLines);
      groups != [] && TooLong(lim, groups[0])
  {
    if |done| == lim.maxLines {
      GroupsCons(done, Lines([], items), lim.maxLines);
    } else {
      assert Concat(done) + [] == Concat(done);
      TooLongGroup(lim, done, [], items);
    }
  }

  /** Once the lines collected and the next token are too long, so is the group they belong to. */
  lemma {:induction false} TooLongLine(lim: Limits, done: seq<Batch>, line: Batch, items: seq<Item>)
    requires items != [] && |done| < lim.maxLines
    requires TooLong(lim, Concat(done) + line + [items[0].text])
    ensures
      var groups := LineGroups(done + Lines(line, items), lim.maxLines);
      groups != [] && TooLong(lim, groups[0])
  {
    var rest := items[1..];
    var line' := line + [items[0].text];
    assert Concat(done) + line' == Concat(done) + line + [items[0].text];
    if items[0].lineEnds {
      ConcatAppend(done, [line']);
      ConcatOne(line');
      AppendAssoc(done, line', Lines([], rest));
      TooLongLines(lim, done + [line'], rest);
    } else {
      TooLongGroup(lim, done, line', rest);
    }
  }

  /**
   * Line grouping: in -L mode, whatever the input ends with, the launches are the groups of max_lines
   * consecutive logical lines, all full but perhaps the last: every group when the run completes, those
   * before the first group that is too long when it gives up, the full ones when reading fails.
   */
  lemma {:induction false} LineGrouping(lim: Limits, suppressEmpty: bool, input: Tokens)
    requires FromOptions(lim) && lim.lineMode && input.items != []
    ensures Follows(lim, RunPlan(lim, suppressEmpty, input), LineGroups(Lines([], input.items), lim.maxLines),
                    Whole(LineEnds(input.items), lim.maxLines))
  {
    LineBatches(lim, [], [], input.items, input.outcome);
    assert [] + Lines([], input.items) == Lines([], input.items);
    assert Concat<CString>([]) + [] == [];
  }

  // ---------------------------------------------------------------- -n with -x

  lemma ChunkStart(batch: Batch, later: Batch, n: nat) returns (more: Batch)
    requires n >= 1 && 1 <= |batch| <= n
    ensures Chunks(batch + later, n) != [] && Chunks(batch + later, n)[0] == batch + more
  {
    var all := batch + later;
    more := if |all| <= n then later else all[..n][|batch|..];
  }

  /** How many groups of n are launched before the last of k tokens is known to be the last. */
  function KnownWhole(k: nat, n: nat): nat
    requires n >= 1
  {
    if k == 0 then 0 else Whole(k - 1, n)
  }

  lemma {:induction false} CountedBatches(lim: Limits, batch: Batch, lines: nat, items: seq<Item>, outcome: Outcome)
    requires !lim.lineMode && lim.terminate && lim.maxArgs > 0
    requires |batch| <= lim.maxArgs && (batch != [] ==> !TooLong(lim, batch))
    ensures Follows(lim, Batches(lim, batch, lines, items, outcome), Chunks(batch + Texts(items), lim.maxArgs),
                    KnownWhole(|batch| + |items|, lim.maxArgs))
    decreases |items|, 1
  {
    if items == [] {
      assert batch + [] == batch;
      FollowsEnd(lim, batch, lines, outcome, Chunks(batch, lim.maxArgs));
    } else {
      var token, rest := items[0].text, items[1..];
      LengthAppend(lim, batch, token);
      if |batch| == lim.maxArgs {
        CountedAdded(lim, [token], 0, rest, outcome);
        CountedFull(lim, batch, lines, items, outcome);
      } else {
        assert batch + Texts(items) == batch + [token] + Texts(rest);
        CountedAdded(lim, batch + [token], lines + Boundary(items[0]), rest, outcome);
        if CannotStart(lim, batch, token) {
          assert TooLong(lim, batch + [token]);
        }
      }
    }
  }

  /** A full batch is launched before the next token. */
  lemma {:induction false} CountedFull(lim: Limits, batch: Batch, lines: nat, items: seq<Item>, outcome: Outcome)
    requires !lim.lineMode && lim.terminate && lim.maxArgs > 0
    requires items != [] && |batch| == lim.maxArgs && !TooLong(lim, batch)
    requires Follows(lim, Added(lim, [items[0].text], 0, items[1..], outcome),
                     Chunks([items[0].text] + Texts(items[1..]), lim.maxArgs), KnownWhole(|items|, lim.maxArgs))
    ensures Follows(lim, Batches(lim, batch, lines, items, outcome), Chunks(batch + Texts(items), lim.maxArgs),
                    KnownWhole(|batch| + |items|, lim.maxArgs))
  {
    ChunksCons(batch, Texts(items), lim.maxArgs);
    FollowsLaunch(lim, batch, Added(lim, [items[0].text], 0, items[1..], outcome),
                  Chunks(Texts(items), lim.maxArgs), KnownWhole(|items|, lim.maxArgs));
  }

  lemma {:induction false} CountedAdded(lim: Limits, batch: Batch, lines: nat, items: seq<Item>, outcome: Outcome)
    requires !lim.lineMode && lim.terminate && lim.maxArgs > 0
    requires 1 <= |batch| <= lim.maxArgs
    ensures Follows(lim, Added(lim, batch, lines, items, outcome), Chunks(batch + Texts(items), lim.maxArgs),
                    KnownWhole(|batch| + |items|, lim.maxArgs))
    ensures TooLong(lim, batch) ==> TooLong(lim, Chunks(batch + Texts(items), lim.maxArgs)[0])
    decreases |items|, 2
  {
    if TooLong(lim, batch) {
      var more := ChunkStart(batch, Texts(items), lim.maxArgs);
      LongerStaysTooLong(lim, batch, more);
    } else {
      CountedBatches(lim, batch, lines, items, outcome);
    }
  }

  /**
   * With -n and -x together size never makes a boundary: whatever the input ends with, the launches are
   * the consecutive groups of max_args tokens: every group when the run completes, those before the first
   * group that is too long when it gives up, those a further token has followed when reading fails.
   */
  lemma {:induction false} CountedGrouping(lim: Limits, suppressEmpty: bool, input: Tokens)
    requires !lim.lineMode && lim.terminate && lim.maxArgs > 0 && input.items != []
    ensures Follows(lim, RunPlan(lim, suppressEmpty, input), Chunks(Texts(input.items), lim.maxArgs),
                    Whole(|input.items| - 1, lim.maxArgs))
  {
    CountedBatches(lim, [], 0, input.items, input.outcome);
    assert [] + Texts(input.items) == Texts(input.items);
  }

  // ---------------------------------------------------------------- giving up in the other modes

  /** A token that no command line has room for. */
  predicate Oversized(lim: Limits, token: CString) {
    lim.base + |token| + 1 > lim.maxLength
  }

  predicate AnyOversized(lim: Limits, items: seq<Item>) {
    items != [] && (Oversized(lim, items[0].text) || AnyOversized(lim, items[1..]))
  }

  lemma {:induction false} SizedBatches(lim: Limits, batch: Batch, lines: nat, items: seq<Item>, outcome: Outcome)
    requires !lim.lineMode && lim.terminate && lim.maxArgs == 0
    requires batch != [] ==> !TooLong(lim, batch)
    ensures Aborts(Batches(lim, batch, lines, items, outcome).end) <==> AnyOversized(lim, items)
    decreases |items|, 1
  {
    if items != [] {
      var token, rest := items[0].text, items[1..];
      LengthAppend(lim, batch, token);
      LengthAppend(lim, [], token);
      assert [] + [token] == [token];
      ArgsLengthConcat(batch, [token]);
      if !Oversized(lim, token) {
        if FlushBefore(lim, batch, token) {
          SizedBatches(lim, [token], 0, rest, outcome);
        } else {
          SizedBatches(lim, batch + [token], lines + Boundary(items[0]), rest, outcome);
        }
      }
    }
  }

  lemma {:induction false} UncheckedBatches(lim: Limits, batch: Batch, lines: nat, items: seq<Item>, outcome: Outcome)
    requires !lim.lineMode && !lim.terminate && batch != []
    ensures !Aborts(Batches(lim, batch, lines, items, outcome).end)
    decreases |items|
  {
    if items != [] {
      var token, rest := items[0].text, items[1..];
      if FlushBefore(lim, batch, token) {
        UncheckedBatches(lim, [token], 0, rest, outcome);
      } else {
        UncheckedBatches(lim, batch + [token], lines + Boundary(items[0]), rest, outcome);
      }
    }
  }

  /**
   * When a run outside -L gives up without -n -x: with -x exactly when some token fits no command
   * line; without -x exactly when the first one does not, since only an empty batch is checked.
   */
  lemma GivesUpIff(lim: Limits, suppressEmpty: bool, input: Tokens)
    requires !lim.lineMode && input.items != []
    ensures
      var end := RunPlan(lim, suppressEmpty, input).end;
      && (lim.terminate && lim.maxArgs == 0 ==> (Aborts(end) <==> AnyOversized(lim, input.items)))
      && (!lim.terminate ==> (Aborts(end) <==> Oversized(lim, input.items[0].text)))
  {
    var token := input.items[0].text;
    LengthAppend(lim, [], token);
    assert [] + [token] == [token];
    if lim.terminate && lim.maxArgs == 0 {
      SizedBatches(lim, [], 0, input.items, input.outcome);
    }
    if !lim.terminate && !Oversized(lim, token) {
      assert !CannotStart(lim, [], token) && !FlushBefore(lim, [], token);
      assert RunPlan(lim, suppressEmpty, input)
          == Added(lim, [token], 0 + Boundary(input.items[0]), input.items[1..], input.outcome);
      UncheckedBatches(lim, [token], 0 + Boundary(input.items[0]), input.items[1..], input.outcome);
    }
  }

  // ---------------------------------------------------------------- when every launch fits

  predicate AllFit(lim: Limits, batches: seq<Batch>) {
    forall i | 0 <= i < |batches| :: !TooLong(lim, batches[i])
  }

  predicate NoneOversized(lim: Limits, tokens: seq<CString>) {
    forall k | 0 <= k < |tokens| :: !Oversized(lim, tokens[k])
  }

  lemma {:induction false} OversizedMeans(lim: Limits, items: seq<Item>)
    ensures AnyOversized(lim, items) <==> !NoneOversized(lim, Texts(items))
  {
    if items != [] {
      OversizedMeans(lim, items[1..]);
      var all, rest := Texts(items), Texts(items[1..]);
      assert all == [items[0].text] + rest && all[0] == items[0].text;
      assert forall k | 0 <= k < |rest| :: rest[k] == all[k + 1];
      assert forall k | 1 <= k < |all| :: all[k] == rest[k - 1];
    }
  }

  /** A batch is at least as long as any of its tokens. */
  lemma {:induction false} OversizedTokenTooLong(lim: Limits, batch: Batch, k: nat)
    requires k < |batch| && Oversized(lim, batch[k])
    ensures TooLong(lim, batch)
  {
    ArgsLengthConcat(batch[..k], batch[k..]);
    assert batch == batch[..k] + batch[k..];
  }

  lemma {:induction false} FittingHoldNone(lim: Limits, batches: seq<Batch>)
    requires AllFit(lim, batches)
    ensures NoneOversized(lim, Concat(batches))
  {
    if batches != [] {
      assert forall i | 0 <= i < |batches| - 1 :: batches[1..][i] == batches[i + 1];
      FittingHoldNone(lim, batches[1..]);
      forall k | 0 <= k < |batches[0]|
        ensures !Oversized(lim, batches[0][k])
      {
        if Oversized(lim, batches[0][k]) {
          OversizedTokenTooLong(lim, batches[0], k);
        }
      }
    }
  }

  lemma {:induction false} ObeyingFit(lim: Limits, batches: seq<Batch>, i: nat)
    requires AllObey(lim, batches) && NoneEmpty(batches) && NoneOversized(lim, Concat(batches)) && i < |batches|
    ensures !TooLong(lim, batches[i])
  {
    if |batches[i]| == 1 {
      var k := TokenOf(batches, i);
      ArgsLengthOne(Concat(batches)[k]);
      assert batches[i] == [Concat(batches)[k]];
    }
  }

  /**
   * When the size limit is kept: with -x always; without it exactly if no launched token is oversized,
   * so that a run that completes keeps it exactly if no token of the input is. (-L implies -x.)
   */
  lemma {:induction false} AllFitIff(lim: Limits, suppressEmpty: bool, input: Tokens)
    requires FromOptions(lim) && input.items != []
    ensures
      var plan := RunPlan(lim, suppressEmpty, input);
      && (lim.terminate ==> AllFit(lim, plan.batches))
      && (AllFit(lim, plan.batches) <==> NoneOversized(lim, Concat(plan.batches)))
      && (!AnyOversized(lim, input.items) ==> AllFit(lim, plan.batches))
      && (plan.end.Completed? ==> (AllFit(lim, plan.batches) <==> !AnyOversized(lim, input.items)))
  {
    var plan := RunPlan(lim, suppressEmpty, input);
    SizeSafety(lim, suppressEmpty, input);
    Conservation(lim, suppressEmpty, input);
    OversizedMeans(lim, input.items);
    if AllFit(lim, plan.batches) {
      FittingHoldNone(lim, plan.batches);
    }
    if NoneOversized(lim, Concat(plan.batches)) {
      forall i | 0 <= i < |plan.batches|
        ensures !TooLong(lim, plan.batches[i])
      {
        ObeyingFit(lim, plan.batches, i);
      }
    }
  }
}
