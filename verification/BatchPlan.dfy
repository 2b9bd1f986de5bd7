/**
 * What appending mode launches for a given token stream when no child asks it to halt:
 * the batches, in order, and how reading ends.
 */
module BatchPlan {
  import opened Bytes
  import opened TokenStep
  import opened TokenStream

  type Batch = seq<CString>

  /** The settings the batcher obeys; base is the length of the environment and the fixed arguments. */
  datatype Limits = Limits(
    base: nat, maxLength: nat, maxArgs: nat, lineMode: bool, maxLines: nat, terminate: bool)

  /** What option processing guarantees: -L excludes -n and implies -x. */
  predicate FromOptions(lim: Limits) {
    lim.lineMode ==> lim.maxArgs == 0 && lim.maxLines >= 1 && lim.terminate
  }

  function Length(lim: Limits, args: Batch): nat {
    lim.base + ArgsLength(args)
  }

  predicate TooLong(lim: Limits, args: Batch) {
    Length(lim, args) > lim.maxLength
  }

  datatype End =
    | Completed
    | TooLongUndrained
    | TooLongDrained
    | InputError

  datatype Plan = Plan(batches: seq<Batch>, end: End)

  function Launch(batch: Batch, later: Plan): Plan {
    later.(batches := [batch] + later.batches)
  }

  /** command_ensure_length_not_exceeded without a placeholder: only an empty batch is checked. */
  predicate CannotStart(lim: Limits, batch: Batch, token: CString) {
    batch == [] && Length(lim, batch) + |token| + 1 > lim.maxLength
  }

  /** command_arg_would_exceed_limits: whether the batch is launched before the token joins. */
  predicate FlushBefore(lim: Limits, batch: Batch, token: CString) {
    var exceedsSize := !lim.lineMode && Length(lim, batch) + |token| + 1 > lim.maxLength;
    if lim.maxArgs > 0 then
      |batch| == lim.maxArgs || (!lim.terminate && exceedsSize)
    else
      exceedsSize
  }

  /** The plan from a point where `batch` has been collected and `lines` boundaries counted since the last launch. */
  function Batches(lim: Limits, batch: Batch, lines: nat, items: seq<Item>, outcome: Outcome): Plan
    decreases |items|, 1
  {
    if items == [] then
      if outcome.Errored() then Plan([], InputError)
      else Plan(if batch == [] then [] else [batch], Completed)
    else
      var token := items[0].text;
      if CannotStart(lim, batch, token) then Plan([], TooLongUndrained)
      else if FlushBefore(lim, batch, token) then
        Launch(batch, Added(lim, [token], 0, items[1..], outcome))
      else
        Added(lim, batch + [token], lines + Boundary(items[0]), items[1..], outcome)
  }

  /** The plan just after a token joined the batch. */
  function Added(lim: Limits, batch: Batch, lines: nat, items: seq<Item>, outcome: Outcome): Plan
    decreases |items|, 2
  {
    if lim.terminate && TooLong(lim, batch) then Plan([], TooLongDrained)
    else if lim.lineMode && lines == lim.maxLines then Launch(batch, Batches(lim, [], 0, items, outcome))
    else Batches(lim, batch, lines, items, outcome)
  }

  function Boundary(item: Item): nat {
    if item.lineEnds then 1 else 0
  }

  /** The whole run: with no token at all the command is still run once, unless -r says otherwise. */
  function RunPlan(lim: Limits, suppressEmpty: bool, input: Tokens): Plan {
    if input.items == [] && !input.outcome.Errored() then
      Plan(if suppressEmpty then [] else [[]], Completed)
    else
      Batches(lim, [], 0, input.items, input.outcome)
  }
}
