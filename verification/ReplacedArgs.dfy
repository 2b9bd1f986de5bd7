/** Substituting one token into a whole command line, as -I does. */
module ReplacedArgs {
  import opened Bytes
  import opened Replacement

  /** The arguments after the command word, substituted left to right; the first failure ends the program. */
  function SubstituteTail(args: seq<CString>, placeholder: CString, token: CString): Checked<seq<CString>> {
    if args == [] then Done([])
    else match Substitute(args[0], Some(placeholder), Some(token))
      case Exit => Exit
      case Undefined => Undefined
      case Done(t) => AfterDone([t], SubstituteTail(args[1..], placeholder, token))
  }

  function AfterDone(done: seq<CString>, rest: Checked<seq<CString>>): Checked<seq<CString>> {
    match rest
    case Done(tail) => Done(done + tail)
    case _ => rest
  }

  lemma AfterDoneStep(done: seq<CString>, t: CString, rest: Checked<seq<CString>>)
    ensures AfterDone(done, AfterDone([t], rest)) == AfterDone(done + [t], rest)
  {
    match rest
    case Done(tail) => assert done + ([t] + tail) == done + [t] + tail;
    case _ =>
  }

  lemma SubstituteTailStep(args: seq<CString>, i: nat, p: CString, token: CString)
    requires i < |args|
    ensures SubstituteTail(args[i..], p, token)
      == match Substitute(args[i], Some(p), Some(token))
         case Exit => Exit
         case Undefined => Undefined
         case Done(t) => AfterDone([t], SubstituteTail(args[i + 1..], p, token))
  {
    assert args[i..][0] == args[i] && args[i..][1..] == args[i + 1..];
  }

  /** One argument further: the result of the whole in terms of what is done and what is left. */
  lemma TailProgress(
    args: seq<CString>, i: nat, done: seq<CString>, whole: Checked<seq<CString>>, p: CString, token: CString)
    requires i < |args| && whole == AfterDone(done, SubstituteTail(args[i..], p, token))
    ensures
      match Substitute(args[i], Some(p), Some(token))
      case Exit => whole.Exit?
      case Undefined => whole.Undefined?
      case Done(t) => whole == AfterDone(done + [t], SubstituteTail(args[i + 1..], p, token))
  {
    SubstituteTailStep(args, i, p, token);
    var first := Substitute(args[i], Some(p), Some(token));
    if first.Done? {
      AfterDoneStep(done, first.value, SubstituteTail(args[i + 1..], p, token));
    }
  }

  lemma AfterNone(rest: Checked<seq<CString>>)
    ensures AfterDone([], rest) == rest
  {
    if rest.Done? {
      assert [] + rest.value == rest.value;
    }
  }

  lemma {:induction false} OneArgFits(args: seq<CString>, i: nat)
    requires i < |args|
    ensures |args[i]| < ArgsLength(args)
  {
    if i > 0 {
      OneArgFits(args[1..], i - 1);
    }
  }
}
