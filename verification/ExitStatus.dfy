/** How the statuses of all children become the program's one exit status. */
module ExitStatus {

  type ExitCode = c: int | 0 <= c < 256

  /** How a child ended, as waitpid reports it when stops are not asked for. */
  datatype RawStatus = Exited(code: ExitCode) | Signaled(signal: nat)

  const CHILD_FAILED := 123
  const HALT := 124
  const SIGNALLED := 125
  const NOT_EXECUTABLE := 126
  const NOT_FOUND := 127

  function Severity(status: int): nat {
    if status == NOT_FOUND then 6
    else if status == NOT_EXECUTABLE then 5
    else if status == SIGNALLED then 4
    else if status == HALT then 3
    else if status == CHILD_FAILED then 2
    else 0
  }

  /** The exit status one child stands for. */
  function Mapped(raw: RawStatus): int {
    match raw
    case Exited(code) =>
      if code == 255 then HALT
      else if code == 0 || code == 126 || code == 127 then code
      else CHILD_FAILED
    case Signaled(_) => SIGNALLED
  }

  function Accumulated(status: int, next: int): int {
    if Severity(next) > Severity(status) then next else status
  }

  /** The status after these children were reaped in this order. */
  function Accumulate(statuses: seq<RawStatus>): int {
    if statuses == [] then 0
    else Accumulated(Accumulate(statuses[..|statuses| - 1]), Mapped(statuses[|statuses| - 1]))
  }

  /** status is the mapped status of greatest severity, or 0 when there is none to map. */
  ghost predicate IsWorst(status: int, statuses: multiset<RawStatus>) {
    && (forall raw | raw in statuses :: Severity(Mapped(raw)) <= Severity(status))
    && (status == 0 || exists raw | raw in statuses :: Mapped(raw) == status)
  }

  lemma {:induction false} AccumulateIsWorst(statuses: seq<RawStatus>)
    ensures IsWorst(Accumulate(statuses), multiset(statuses))
  {
    if statuses != [] {
      var n := |statuses| - 1;
      var earlier, last := statuses[..n], statuses[n];
      AccumulateIsWorst(earlier);
      assert statuses == earlier + [last];
      assert multiset(statuses) == multiset(earlier) + multiset{last};
    }
  }

  /** No two different statuses a child can stand for have the same severity, so the worst is unique. */
  lemma WorstIsUnique(a: int, b: int, statuses: multiset<RawStatus>)
    requires IsWorst(a, statuses) && IsWorst(b, statuses)
    ensures a == b
  {
    assert Severity(0) == 0;
    assert Severity(a) == Severity(b);
  }

  /** The order in which children are reaped does not matter. */
  lemma OrderDoesNotMatter(a: seq<RawStatus>, b: seq<RawStatus>)
    requires multiset(a) == multiset(b)
    ensures Accumulate(a) == Accumulate(b)
  {
    AccumulateIsWorst(a);
    AccumulateIsWorst(b);
    WorstIsUnique(Accumulate(a), Accumulate(b), multiset(a));
  }

  /** The program reports success exactly when every child exited with 0. */
  lemma SuccessIff(statuses: seq<RawStatus>)
    ensures Accumulate(statuses) == 0 <==> forall raw | raw in statuses :: raw == Exited(0)
  {
    AccumulateIsWorst(statuses);
    if Accumulate(statuses) == 0 {
      forall raw | raw in statuses
        ensures raw == Exited(0)
      {
        assert raw in multiset(statuses);
        assert Severity(Mapped(raw)) == 0;
      }
    } else {
      var raw :| raw in multiset(statuses) && Mapped(raw) == Accumulate(statuses);
      assert raw in statuses;
    }
  }

  /** A child that asked to halt leaves a status at least as severe as 124. */
  lemma HaltShows(statuses: seq<RawStatus>)
    requires Exited(255) in statuses
    ensures Severity(Accumulate(statuses)) >= Severity(HALT)
  {
    AccumulateIsWorst(statuses);
    assert Exited(255) in multiset(statuses);
  }

  // ---------------------------------------------------------------- in numbers

  /** The number one child contributes. */
  function Code(raw: RawStatus): int {
    match raw
    case Signaled(_) => 125
    case Exited(code) =>
      if code == 0 then 0
      else if code == 255 then 124
      else if code == 126 then 126
      else if code == 127 then 127
      else 123
  }

  /** The status is the numerically greatest of 0 and what the children contribute, one child's its own. */
  lemma {:induction false} GreatestCode(statuses: seq<RawStatus>)
    ensures forall raw | raw in statuses :: Code(raw) <= Accumulate(statuses)
    ensures Accumulate(statuses) == 0 || exists raw | raw in statuses :: Code(raw) == Accumulate(statuses)
    ensures |statuses| == 1 ==> Accumulate(statuses) == Code(statuses[0])
  {
    AccumulateIsWorst(statuses);
    assert forall raw :: raw in multiset(statuses) <==> raw in statuses;
    assert forall raw :: Mapped(raw) == Code(raw);
    if |statuses| == 1 {
      assert statuses[0] in multiset(statuses);
    }
  }

  // ---------------------------------------------------------------- the documented order

  /** The order the manual gives: 125 > 124 > 123 > 126/127. */
  function DocumentedRank(status: int): nat {
    if status == SIGNALLED then 4
    else if status == HALT then 3
    else if status == CHILD_FAILED then 2
    else if status == NOT_EXECUTABLE || status == NOT_FOUND then 1
    else 0
  }

  /** status is the mapped status of greatest rank in that order, or 0 when there is none to map. */
  ghost predicate IsDocumentedWorst(status: int, statuses: multiset<RawStatus>) {
    && (forall raw | raw in statuses :: DocumentedRank(Mapped(raw)) <= DocumentedRank(status))
    && (status == 0 || exists raw | raw in statuses :: Mapped(raw) == status)
  }

  /** The command did not run, as far as its status tells. */
  predicate NotRun(raw: RawStatus) {
    Mapped(raw) == NOT_EXECUTABLE || Mapped(raw) == NOT_FOUND
  }

  /** The command ran and did not succeed. */
  predicate RanAndFailed(raw: RawStatus) {
    Mapped(raw) == SIGNALLED || Mapped(raw) == HALT || Mapped(raw) == CHILD_FAILED
  }

  /** The status is the worst one in the documented order exactly if not both kinds of failure occurred. */
  lemma {:induction false} DocumentedWorstIff(statuses: seq<RawStatus>)
    ensures IsDocumentedWorst(Accumulate(statuses), multiset(statuses))
      <==> (forall raw | raw in statuses :: !NotRun(raw)) || (forall raw | raw in statuses :: !RanAndFailed(raw))
  {
    AccumulateIsWorst(statuses);
    assert forall raw :: raw in multiset(statuses) <==> raw in statuses;
  }
}
