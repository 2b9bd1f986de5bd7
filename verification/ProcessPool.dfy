/** The pool of running children, over a system that may reap any live child with any status at any wait. */
module ProcessPool {
  import opened Buffer
  import opened ExitStatus
  import opened Trace

  /** fork, waitpid and the pending signals, with everything they were asked recorded. */
  class Kernel {
    var live: set<int>
    ghost var trace: History

    ghost predicate Valid()
      reads this
    {
      Possible(trace) && live == Live(trace)
    }

    constructor ()
      ensures Valid() && live == {} && trace == []
    {
      live := {};
      trace := [];
    }

    /** fork followed by execvp of argv in the child: any pid not in use. */
    method Fork(argv: Argv) returns (pid: int)
      requires Valid()
      modifies this
      ensures Valid() && pid !in old(live) && live == old(live) + {pid}
      ensures trace == old(trace) + [Forked(pid, argv)]
    {
      ghost var free := UpperBound(live);
      assert 0 < free && free !in live;
      pid :| 0 < pid && pid !in live;
      Extended(trace, Forked(pid, argv));
      live := live + {pid};
      trace := trace + [Forked(pid, argv)];
    }

    /** waitpid(-1, ...) when there is a child to wait for: any of them, ended in any way. */
    method WaitPid() returns (pid: int, raw: RawStatus)
      requires Valid() && live != {}
      modifies this
      ensures Valid() && pid in old(live) && live == old(live) - {pid}
      ensures trace == old(trace) + [Reaped(pid, raw)]
    {
      EmptyOrMember(live);
      pid :| pid in live;
      raw := *;
      Extended(trace, Reaped(pid, raw));
      live := live - {pid};
      trace := trace + [Reaped(pid, raw)];
    }

    /** How often SIGUSR1 and SIGUSR2 arrived since last asked. */
    method TakeSignals() returns (up: nat, down: nat)
      requires Valid()
      modifies this
      ensures Valid() && live == old(live)
      ensures trace == old(trace) + [SignalsSeen(up, down)]
    {
      up, down := *, *;
      Extended(trace, SignalsSeen(up, down));
      trace := trace + [SignalsSeen(up, down)];
    }
  }

  lemma EmptyOrMember(s: set<int>)
    ensures s == {} || exists x :: x in s
  {
    if forall x :: x !in s {
      assert s == {};
    }
  }

  lemma {:induction false} UpperBound(used: set<int>) returns (top: int)
    ensures top > 0 && forall x | x in used :: x < top
    decreases used
  {
    if used == {} {
      top := 1;
    } else {
      EmptyOrMember(used);
      var x :| x in used;
      var t := UpperBound(used - {x});
      top := if t > x then t else x + 1;
      assert forall y | y in used :: y == x || y in used - {x};
    }
  }

  predicate Distinct(s: seq<int>) {
    forall i, j | 0 <= i < j < |s| :: s[i] != s[j]
  }

  ghost function Members(s: seq<int>): set<int> {
    set x | x in s
  }

  lemma {:induction false} MembersSize(s: seq<int>)
    requires Distinct(s)
    ensures |Members(s)| == |s|
  {
    if s != [] {
      MembersSize(s[1..]);
      assert Members(s) == {s[0]} + Members(s[1..]);
    }
  }

  /** s with position i overwritten by the last element and the last element dropped. */
  function SwapRemoved(s: seq<int>, i: nat): seq<int>
    requires i < |s|
  {
    s[i := s[|s| - 1]][..|s| - 1]
  }

  /** Swap-removal deletes exactly the element it is aimed at. */
  lemma SwapRemovedMembers(s: seq<int>, i: nat)
    requires Distinct(s) && i < |s|
    ensures Distinct(SwapRemoved(s, i)) && Members(SwapRemoved(s, i)) == Members(s) - {s[i]}
  {
    var r, n := SwapRemoved(s, i), |s| - 1;
    forall x | x in Members(s) - {s[i]}
      ensures x in r
    {
      var k :| 0 <= k < |s| && s[k] == x;
      assert if k == n then r[i] == x else r[k] == x;
    }
    forall k | 0 <= k < |r|
      ensures r[k] in s && r[k] != s[i]
    {
      assert r[k] == if k == i then s[n] else s[k];
    }
  }

  class ProcessPool {
    const kernel: Kernel
    const childMax: int
    /** The -P argument. */
    ghost const start: nat
    var maxProcs: nat
    var capacity: nat
    var count: nat
    var status: int
    var halt: bool
    var pids: array<int>
    ghost var Repr: set<object>

    ghost predicate Valid()
      reads this, Repr
      ensures Valid() ==> this in Repr
    {
      && Repr == {this, pids} && kernel !in Repr
      && pids.Length == capacity && count <= capacity && maxProcs <= capacity
      && 1 <= capacity
      && (childMax > 0 ==> start <= childMax)
      && Distinct(pids[..count])
    }

    /** The children the pool knows of. */
    ghost function Tracked(): set<int>
      requires Valid()
      reads this, Repr
    {
      Members(pids[..count])
    }

    /** The fields say what the history says. */
    ghost predicate Agrees()
      reads this, Repr, kernel
    {
      && Valid() && kernel.Valid()
      && maxProcs == Limit(kernel.trace, start, childMax)
      && status == Accumulate(Statuses(kernel.trace))
      && halt == Halted(kernel.trace)
    }

    /** ... and the pool tracks exactly the live children. */
    ghost predicate InSync()
      reads this, Repr, kernel
      ensures InSync() ==> count == |Live(kernel.trace)|
    {
      MembersSize'();
      Agrees() && Tracked() == kernel.live
    }

    lemma MembersSize'()
      ensures Valid() ==> |Tracked()| == count
    {
      if Valid() {
        MembersSize(pids[..count]);
      }
    }

    constructor (maxProcs: nat, childMax: int, kernel: Kernel)
      requires kernel.Valid() && kernel.trace == []
      requires childMax > 0 ==> maxProcs <= childMax
      ensures InSync() && fresh(Repr)
      ensures this.kernel == kernel && start == maxProcs && this.childMax == childMax
    {
      this.kernel := kernel;
      this.childMax := childMax;
      start := maxProcs;
      this.maxProcs := maxProcs;
      capacity := if maxProcs == 0 then 16 else maxProcs;
      count := 0;
      status := 0;
      halt := false;
      pids := new int[if maxProcs == 0 then 16 else maxProcs](_ => 0);
      new;
      Repr := {this, pids};
    }

    method AccumulateStatus(newStatus: int)
      modifies this`status
      ensures status == Accumulated(old(status), newStatus)
    {
      if Severity(newStatus) > Severity(status) {
        status := newStatus;
      }
    }

    method ChildExitStatus(raw: RawStatus) returns (r: int)
      modifies this`halt
      ensures r == Mapped(raw) && halt == (old(halt) || raw == Exited(255))
    {
      match raw
      case Exited(code) =>
        if code == 255 {
          halt := true;
          return HALT;
        }
        if code == 0 || code == 126 || code == 127 {
          return code;
        }
        return CHILD_FAILED;
      case Signaled(_) =>
        return SIGNALLED;
    }

    /** Removes a pid the pool tracks; the assertion that it was found cannot fail. */
    method Forget(pid: int)
      requires Valid() && pid in Tracked()
      modifies Repr
      ensures Valid() && Repr == old(Repr)
      ensures Tracked() == old(Tracked()) - {pid} && count == old(count) - 1
      ensures maxProcs == old(maxProcs) && status == old(status) && halt == old(halt)
      ensures capacity == old(capacity)
    {
      ghost var before := pids[..count];
      var i := 0;
      while i < count
        invariant 0 <= i <= count && pids[..count] == before
        invariant pid !in before[..i]
        invariant unchanged(this)
      {
        if pids[i] == pid {
          SwapRemovedMembers(before, i);
          pids[i] := pids[count - 1];
          break;
        }
        i := i + 1;
      }
      assert i < count;
      count := count - 1;
      assert pids[..count] == SwapRemoved(before, i);
    }

    method ReapOne()
      requires InSync() && count > 0
      modifies Repr, kernel
      ensures InSync() && Repr == old(Repr) && count == old(count) - 1 && capacity == old(capacity)
      ensures old(halt) ==> halt
      ensures kernel.trace != [] && Front(kernel.trace) == old(kernel.trace) && Last(kernel.trace).Reaped?
      ensures Launches(kernel.trace) == old(Launches(kernel.trace))
    {
      assert pids[..count][0] in Tracked();
      ghost var before := kernel.trace;
      var pid, raw := kernel.WaitPid();
      ReapEvent(before, pid, raw, start, childMax);
      Forget(pid);
      Record(raw);
    }

    /** What a reaped child's status does to the pool's own status and halt. */
    method Record(raw: RawStatus)
      requires Valid()
      modifies this`status, this`halt
      ensures Valid() && Tracked() == old(Tracked())
      ensures status == Accumulated(old(status), Mapped(raw)) && halt == (old(halt) || raw == Exited(255))
    {
      var mapped := ChildExitStatus(raw);
      AccumulateStatus(mapped);
    }

    method ApplySignalAdjustments()
      requires InSync()
      modifies Repr, kernel
      ensures InSync() && fresh(Repr - old(Repr)) && count == old(count) && halt == old(halt)
      ensures kernel.trace != [] && Front(kernel.trace) == old(kernel.trace) && Last(kernel.trace).SignalsSeen?
      ensures Launches(kernel.trace) == old(Launches(kernel.trace))
    {
      LimitRange(kernel.trace, start, childMax);
      var up, down := kernel.TakeSignals();
      Extended(old(kernel.trace), SignalsSeen(up, down));
      if up == 0 && down == 0 {
        return;
      }
      if maxProcs == 0 {
        return;
      }
      var newMax := maxProcs + up - down;
      if newMax < 1 {
        newMax := 1;
      }
      if childMax > 0 && newMax > childMax {
        newMax := childMax;
      }
      if newMax > capacity {
        Reallocate(newMax);
      }
      maxProcs := newMax;
    }

    method Reallocate(newCapacity: nat)
      requires Valid() && capacity <= newCapacity
      modifies Repr
      ensures Valid() && fresh(Repr - old(Repr))
      ensures capacity == newCapacity && count == old(count) && pids[..count] == old(pids[..count])
      ensures maxProcs == old(maxProcs) && status == old(status) && halt == old(halt)
    {
      var bigger := new int[newCapacity](_ => 0);
      forall i | 0 <= i < count {
        bigger[i] := pids[i];
      }
      pids := bigger;
      capacity := newCapacity;
      Repr := {this, pids};
    }

    /** Waits until a child may be launched, as far as the limit is concerned. */
    method WaitIfFull()
      requires InSync() && Steady(kernel.trace, start, childMax)
      modifies Repr, kernel
      ensures InSync() && fresh(Repr - old(Repr))
      ensures !Full(kernel.trace, start, childMax) && Asked(kernel.trace)
      ensures Running(kernel.trace, start, childMax)
      ensures Launches(kernel.trace) == old(Launches(kernel.trace))
      ensures maxProcs == 0 ==> count == old(count) && halt == old(halt)
      ensures old(halt) ==> halt
    {
      ApplySignalAdjustments();
      while maxProcs != 0 && count >= maxProcs
        invariant InSync() && fresh(Repr - old(Repr)) && Asked(kernel.trace)
        invariant Running(kernel.trace, start, childMax)
        invariant Launches(kernel.trace) == old(Launches(kernel.trace))
        invariant maxProcs == 0 ==> count == old(count) && halt == old(halt)
        invariant old(halt) ==> halt
        decreases count
      {
        ghost var limit := maxProcs;
        ReapOne();
        assert maxProcs == limit;
      }
    }

    /** Starts tracking a child just forked; with a limit that leaves room this never grows the array. */
    method Submit(pid: int)
      requires Agrees() && pid !in Tracked() && kernel.live == Tracked() + {pid}
      modifies Repr
      ensures InSync() && fresh(Repr - old(Repr)) && count == old(count) + 1
      ensures maxProcs == old(maxProcs) && halt == old(halt)
      ensures capacity == if old(count < capacity) then old(capacity) else 2 * old(capacity)
      ensures old(maxProcs != 0 && count < maxProcs) ==> capacity == old(capacity) && pids == old(pids)
    {
      ghost var tracked := pids[..count];
      if count == capacity {
        Reallocate(DoubleCapacity(capacity));
      }
      pids[count] := pid;
      count := count + 1;
      assert pids[..count] == tracked + [pid];
      assert Members(tracked + [pid]) == Members(tracked) + {pid};
    }

    /** Reaps every remaining child; the result is the worst status of all children of the run. */
    method Drain() returns (result: int)
      requires InSync() && Steady(kernel.trace, start, childMax)
      modifies Repr, kernel
      ensures InSync() && fresh(Repr - old(Repr)) && count == 0 && kernel.live == {}
      ensures result == Accumulate(Statuses(kernel.trace))
      ensures Ends(kernel.trace, start, childMax, old(halt))
      ensures Launches(kernel.trace) == old(Launches(kernel.trace))
    {
      SteadyEnds(kernel.trace, start, childMax);
      while count > 0
        invariant InSync() && Repr == old(Repr)
        invariant Ends(kernel.trace, start, childMax, old(halt))
        invariant Launches(kernel.trace) == old(Launches(kernel.trace))
      {
        ReapOne();
        DrainingEnds(kernel.trace, start, childMax, old(halt));
      }
      result := status;
    }
  }
}
