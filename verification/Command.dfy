/** The command line being assembled: argument lists, limits, substitution, launch and reuse. */
module Command {
  import opened Bytes
  import opened Buffer
  import opened BatchPlan
  import opened Replacement
  import opened ReplacedArgs
  import opened Tokenizers
  import opened Trace
  import opened ProcessPool

  /** A growable list of copied strings that knows its total length. */
  class CommandArgs {
    var count: nat
    var capacity: nat
    var args: array<CString>
    var length: nat
    ghost var Repr: set<object>

    ghost predicate Valid()
      reads this, Repr
      ensures Valid() ==> this in Repr
    {
      && Repr == {this, args}
      && args.Length == capacity && count <= capacity
      && length == ArgsLength(args[..count])
    }

    ghost function Contents(): seq<CString>
      requires Valid()
      reads this, Repr
    {
      args[..count]
    }

    constructor (capacity: nat)
      ensures Valid() && fresh(Repr) && Contents() == []
    {
      count := 0;
      this.capacity := capacity;
      args := new CString[capacity](_ => []);
      length := 0;
      new;
      Repr := {this, args};
    }

    method ReallocateIfNeeded()
      requires Valid()
      modifies Repr
      ensures Valid() && fresh(Repr - old(Repr))
      ensures Contents() == old(Contents()) && count < capacity
      ensures
        capacity == if old(count < capacity) then old(capacity) else if old(capacity) == 0 then 1 else 2 * old(capacity)
    {
      if count >= capacity {
        capacity := DoubleCapacity(capacity);
        var bigger := new CString[capacity](_ => []);
        forall i | 0 <= i < count {
          bigger[i] := args[i];
        }
        args := bigger;
        Repr := {this, args};
        assert args[..count] == old(args[..count]);
      }
    }

    method Add(newArg: CString)
      requires Valid()
      modifies Repr
      ensures Valid() && fresh(Repr - old(Repr))
      ensures Contents() == old(Contents()) + [newArg]
    {
      ReallocateIfNeeded();
      ghost var before := Contents();
      args[count] := newArg;
      count := count + 1;
      length := length + |newArg| + 1;
      assert args[..count] == before + [newArg];
      ArgsLengthConcat(before, [newArg]);
      ArgsLengthOne(newArg);
    }

    function At(i: nat): (arg: CString)
      requires Valid() && i < count
      reads this, Repr
      ensures arg == Contents()[i]
    {
      args[i]
    }
  }

  /** The loop that copies the command given on the command line. */
  method ArgsOf(command: seq<CString>) returns (args: CommandArgs)
    ensures args.Valid() && fresh(args.Repr) && args.Contents() == command
  {
    args := new CommandArgs(|command|);
    var i := 0;
    while i < |command|
      invariant 0 <= i <= |command| && args.Valid() && fresh(args.Repr)
      invariant args.Contents() == command[..i]
    {
      args.Add(command[i]);
      i := i + 1;
    }
    assert command[..i] == command;
  }

  /** An argv up to its terminating NULL. */
  function UpToNull(argv: seq<Option<CString>>): Argv {
    if argv == [] || argv[0].None? then [] else [argv[0].value] + UpToNull(argv[1..])
  }

  /** argv[i] for each argument, then NULL. */
  ghost predicate IsArgv(argv: seq<Option<CString>>, args: Argv) {
    |argv| == |args| + 1 && argv[|args|].None? && forall i | 0 <= i < |args| :: argv[i] == Some(args[i])
  }

  lemma {:induction false} ArgvReadsBack(argv: seq<Option<CString>>, args: Argv)
    requires IsArgv(argv, args)
    ensures UpToNull(argv) == args
    decreases |args|
  {
    if args != [] {
      assert argv[0] == Some(args[0]);
      ArgvReadsBack(argv[1..], args[1..]);
    }
  }

  /** Copies a list into an argument array from position `at` on. */
  method CopyArgs(execArgs: array<Option<CString>>, at: nat, list: CommandArgs)
    requires list.Valid() && execArgs !in list.Repr && at + list.count <= execArgs.Length
    modifies execArgs
    ensures forall k | at <= k < at + list.count :: execArgs[k] == Some(list.Contents()[k - at])
    ensures forall k | 0 <= k < execArgs.Length && !(at <= k < at + list.count) :: execArgs[k] == old(execArgs[k])
  {
    ghost var contents := list.Contents();
    var i := 0;
    while i < list.count
      invariant 0 <= i <= list.count
      invariant forall k | at <= k < at + i :: execArgs[k] == Some(contents[k - at])
      invariant forall k | 0 <= k < execArgs.Length && !(at <= k < at + i) :: execArgs[k] == old(execArgs[k])
    {
      execArgs[at + i] := Some(list.At(i));
      i := i + 1;
    }
  }

  /** Both lists and the terminating NULL. */
  method JoinArgs(first: CommandArgs, second: CommandArgs) returns (execArgs: array<Option<CString>>)
    requires first.Valid() && second.Valid()
    ensures fresh(execArgs) && IsArgv(execArgs[..], first.Contents() + second.Contents())
  {
    var n := first.count + second.count;
    execArgs := new Option<CString>[n + 1](_ => None);
    CopyArgs(execArgs, 0, first);
    CopyArgs(execArgs, first.count, second);
    execArgs[n] := None;
  }

  class Command {
    const maxLines: nat
    const maxArgs: nat
    const maxLength: nat
    const placeholder: Option<CString>
    const terminate: bool
    const lineMode: bool
    const envLength: nat
    const lines: LineCounter
    const fixedArgs: CommandArgs
    var inputArgs: CommandArgs
    var replacedFixedArgs: CommandArgs
    ghost var Repr: set<object>

    ghost predicate Valid()
      reads this, Repr
      ensures Valid() ==> this in Repr
    {
      && this in Repr && fixedArgs in Repr && inputArgs in Repr && replacedFixedArgs in Repr
      && fixedArgs.Repr <= Repr && inputArgs.Repr <= Repr && replacedFixedArgs.Repr <= Repr
      && lines !in Repr
      && this !in fixedArgs.Repr && this !in inputArgs.Repr && this !in replacedFixedArgs.Repr
      && fixedArgs.Repr !! inputArgs.Repr && fixedArgs.Repr !! replacedFixedArgs.Repr
      && inputArgs.Repr !! replacedFixedArgs.Repr
      && fixedArgs.Valid() && inputArgs.Valid() && replacedFixedArgs.Valid()
      && fixedArgs.Contents() != []
      && maxLength <= SIZE_MAX && InMemory(placeholder)
    }

    /** What the command has come to own since is new. */
    twostate predicate Grown()
      reads this
    {
      forall o | o in Repr :: o in old(Repr) || fresh(o)
    }

    ghost function Fixed(): seq<CString>
      requires Valid()
      reads this, Repr
    {
      fixedArgs.Contents()
    }

    /** The arguments collected since the last launch. */
    ghost function Batch(): seq<CString>
      requires Valid()
      reads this, Repr
    {
      inputArgs.Contents()
    }

    ghost function Replaced(): seq<CString>
      requires Valid()
      reads this, Repr
    {
      replacedFixedArgs.Contents()
    }

    ghost function Limits(): Limits
      requires Valid()
      reads this, Repr
    {
      BatchPlan.Limits(
        envLength + ArgsLength(Fixed()), maxLength, maxArgs, lineMode, maxLines, terminate)
    }

    /** What a launch now would run. */
    ghost function Argv(): Argv
      requires Valid()
      reads this, Repr
    {
      (if placeholder.Some? then Replaced() else Fixed()) + Batch()
    }

    constructor (
      lim: Limits, envLength: nat, placeholder: Option<CString>, command: seq<CString>, lines: LineCounter)
      requires command != [] && lim.base == envLength + ArgsLength(command)
      requires lim.maxLength <= SIZE_MAX && InMemory(placeholder)
      ensures Valid() && fresh(Repr)
      ensures Limits() == lim && Fixed() == command && Batch() == [] && Replaced() == []
      ensures this.placeholder == placeholder && this.lines == lines
    {
      maxLines, maxArgs, maxLength := lim.maxLines, lim.maxArgs, lim.maxLength;
      terminate, lineMode := lim.terminate, lim.lineMode;
      this.envLength := envLength;
      this.placeholder := placeholder;
      this.lines := lines;
      var fixed := ArgsOf(command);
      fixedArgs := fixed;
      inputArgs := new CommandArgs(if lim.maxArgs > 0 then lim.maxArgs else 10);
      replacedFixedArgs := new CommandArgs(|command|);
      new;
      Repr := {this} + fixedArgs.Repr + inputArgs.Repr + replacedFixedArgs.Repr;
    }

    function CommandLength(): (n: nat)
      requires Valid()
      reads this, Repr
      ensures n == BatchPlan.Length(Limits(), Batch())
    {
      envLength + fixedArgs.length + inputArgs.length
    }

    /** False where the program exits: the check made on an empty batch, and on every -I token. */
    function LengthNotExceeded(newArg: CString): (ok: bool)
      requires Valid()
      reads this, Repr
      ensures placeholder.None? ==> ok == !CannotStart(Limits(), Batch(), newArg)
      ensures placeholder.Some? ==> ok == (BatchPlan.Length(Limits(), Batch()) + |newArg| + 1 <= maxLength)
    {
      if placeholder.Some? || inputArgs.count == 0 then
        CommandLength() + |newArg| + 1 <= maxLength
      else
        true
    }

    /** Whether the batch must be launched before the token joins it; None where the program exits. */
    function ArgWouldExceedLimits(newArg: CString): (r: Option<bool>)
      requires Valid()
      reads this, Repr
      ensures r.None? <==> !LengthNotExceeded(newArg)
      ensures r.Some? ==> r.value == FlushBefore(Limits(), Batch(), newArg)
    {
      if !LengthNotExceeded(newArg) then None
      else
        var newLength := CommandLength() + |newArg| + 1;
        var wouldExceedSize := !lineMode && newLength > maxLength;
        if maxArgs > 0 then
          var atMaxArgs := inputArgs.count == maxArgs;
          if terminate then Some(atMaxArgs) else Some(atMaxArgs || wouldExceedSize)
        else
          Some(wouldExceedSize)
    }

    /** 1 to launch now, 0 to go on, -1 when the command line has become too long. */
    function ShouldExecuteAfterArgAdded(): (r: int)
      requires Valid()
      reads this, Repr, lines
      ensures r == -1 <==> terminate && TooLong(Limits(), Batch())
      ensures r == 1 <==> !(terminate && TooLong(Limits(), Batch())) && lineMode && lines.count == maxLines
    {
      if terminate && CommandLength() > maxLength then -1
      else if lineMode then
        if lines.count == maxLines then 1 else 0
      else 0
    }

    method AddInputArgument(newArg: CString)
      requires Valid()
      modifies Repr
      ensures Valid() && Grown()
      ensures Batch() == old(Batch()) + [newArg]
      ensures Fixed() == old(Fixed()) && Replaced() == old(Replaced())
    {
      inputArgs.Add(newArg);
      Repr := Repr + inputArgs.Repr;
    }

    predicate InputArgsRemain()
      requires Valid()
      reads this, Repr
      ensures InputArgsRemain() <==> Batch() != []
    {
      inputArgs.count > 0
    }

    /** Substitutes the token into one fixed argument. */
    method ReplaceArg(i: nat, newArg: CString) returns (r: Checked<()>)
      requires Valid() && placeholder.Some? && i < |Fixed()| && ArgsLength(Fixed()) <= SIZE_MAX
      requires |newArg| < SIZE_MAX
      modifies Repr
      ensures Valid() && Grown()
      ensures Fixed() == old(Fixed()) && Batch() == old(Batch())
      ensures
        match Substitute(old(Fixed())[i], placeholder, Some(newArg))
        case Done(t) => r == Done(()) && Replaced() == old(Replaced()) + [t]
        case Exit => r.Exit?
        case Undefined => r.Undefined?
    {
      OneArgFits(Fixed(), i);
      var replaced := StrReplace(Some(fixedArgs.At(i)), placeholder, Some(newArg));
      if replaced.Exit? {
        return Exit;
      }
      if replaced.Undefined? {
        return Undefined;
      }
      replacedFixedArgs.Add(replaced.value.value);
      Repr := Repr + replacedFixedArgs.Repr;
      return Done(());
    }

    /** Substitutes the token into every fixed argument after the command word. */
    method ReplaceTail(newArg: CString) returns (r: Checked<()>)
      requires Valid() && placeholder.Some? && ArgsLength(Fixed()) <= SIZE_MAX && |newArg| < SIZE_MAX
      modifies Repr
      ensures Valid() && Grown()
      ensures Fixed() == old(Fixed()) && Batch() == old(Batch())
      ensures
        match SubstituteTail(old(Fixed())[1..], placeholder.value, newArg)
        case Done(tail) => r == Done(()) && Replaced() == old(Replaced()) + tail
        case Exit => r.Exit?
        case Undefined => r.Undefined?
    {
      ghost var fixed, p, before, done := Fixed(), placeholder.value, Replaced(), [];
      ghost var whole := SubstituteTail(fixed[1..], p, newArg);
      var i := 1;
      AfterNone(whole);
      while i < fixedArgs.count
        invariant Valid() && Grown()
        invariant 1 <= i <= |fixed| && Fixed() == fixed && Batch() == old(Batch())
        invariant Replaced() == before + done
        invariant whole == AfterDone(done, SubstituteTail(fixed[i..], p, newArg))
      {
        r := ReplaceArg(i, newArg);
        TailProgress(fixed, i, done, whole, p, newArg);
        if !r.Done? {
          return;
        }
        ghost var t := Substitute(fixed[i], Some(p), Some(newArg)).value;
        assert before + done + [t] == before + (done + [t]);
        done := done + [t];
        i := i + 1;
      }
      assert done + [] == done;
      return Done(());
    }

    /** The command word as it is, then the substituted arguments. */
    method ReplaceArgs(newArg: CString) returns (r: Checked<()>)
      requires Valid() && placeholder.Some?
      requires BatchPlan.Length(Limits(), Batch()) + |newArg| + 1 <= maxLength
      modifies Repr
      ensures Valid() && Grown()
      ensures Fixed() == old(Fixed()) && Batch() == old(Batch())
      ensures
        match SubstituteTail(old(Fixed())[1..], placeholder.value, newArg)
        case Done(tail) => r == Done(()) && Replaced() == old(Replaced()) + [old(Fixed())[0]] + tail
        case Exit => r.Exit?
        case Undefined => r.Undefined?
    {
      replacedFixedArgs.Add(fixedArgs.At(0));
      Repr := Repr + replacedFixedArgs.Repr;
      r := ReplaceTail(newArg);
    }

    /** The argument array handed to execvp, with its terminating NULL. */
    method BuildExecArgs() returns (execArgs: array<Option<CString>>)
      requires Valid()
      ensures fresh(execArgs) && IsArgv(execArgs[..], Argv())
    {
      execArgs := JoinArgs(if placeholder.Some? then replacedFixedArgs else fixedArgs, inputArgs);
    }

    /** After a launch: no lines counted, no input arguments, nothing substituted. */
    method Recycle()
      requires Valid()
      modifies Repr, lines
      ensures Valid() && Grown()
      ensures lines.count == 0 && Batch() == [] && Fixed() == old(Fixed())
      ensures Replaced() == if placeholder.Some? then [] else old(Replaced())
    {
      lines.count := 0;
      if placeholder.Some? {
        replacedFixedArgs := new CommandArgs(fixedArgs.count);
      }
      inputArgs := new CommandArgs(if maxArgs > 0 then maxArgs else 10);
      Repr := Repr + replacedFixedArgs.Repr + inputArgs.Repr;
    }

    /** fork, and in the child build the argument array and execvp it. */
    method ForkChild(kernel: Kernel) returns (pid: int)
      requires Valid() && kernel.Valid() && kernel !in Repr
      modifies kernel
      ensures kernel.Valid() && kernel.trace == old(kernel.trace) + [Forked(pid, Argv())]
      ensures pid !in old(kernel.live) && kernel.live == old(kernel.live) + {pid}
    {
      var execArgs := BuildExecArgs();
      var argv := UpToNull(execArgs[..]);
      ArgvReadsBack(execArgs[..], Argv());
      pid := kernel.Fork(argv);
    }

    /** The child runs the command line as it stands, the parent starts a new one. */
    method ExecuteAsync(kernel: Kernel) returns (pid: int)
      requires Valid() && kernel.Valid() && kernel !in Repr
      modifies Repr, lines, kernel
      ensures Valid() && Grown() && kernel.Valid()
      ensures kernel.trace == old(kernel.trace) + [Forked(pid, old(Argv()))]
      ensures pid !in old(kernel.live) && kernel.live == old(kernel.live) + {pid}
      ensures lines.count == 0 && Batch() == [] && Fixed() == old(Fixed())
      ensures Replaced() == if placeholder.Some? then [] else old(Replaced())
    {
      pid := ForkChild(kernel);
      Recycle();
    }
  }
}
