/** What -I mode launches for a given token stream when no child asks it to halt. */
module ReplacerPlan {
  import opened Bytes
  import opened Replacement
  import opened ReplacedArgs
  import opened TokenStep
  import opened TokenStream

  datatype End =
    | Completed
    | TooLongUndrained
    | ReplacementTooLarge
    | UndefinedBehaviour
    | InputError

  datatype Plan = Plan(launches: seq<seq<CString>>, end: End)

  /** base is the length of the environment and the unsubstituted arguments. */
  datatype Setting = Setting(base: nat, maxLength: nat, fixed: seq<CString>, placeholder: CString)

  function Launch(argv: seq<CString>, later: Plan): Plan {
    later.(launches := [argv] + later.launches)
  }

  function RunPlan(cfg: Setting, items: seq<Item>, outcome: Outcome): Plan
    requires cfg.fixed != []
    decreases |items|
  {
    if items == [] then Plan([], if outcome.Errored() then InputError else Completed)
    else
      var token := items[0].text;
      if cfg.base + |token| + 1 > cfg.maxLength then Plan([], TooLongUndrained)
      else match SubstituteTail(cfg.fixed[1..], cfg.placeholder, token)
        case Exit => Plan([], ReplacementTooLarge)
        case Undefined => Plan([], UndefinedBehaviour)
        case Done(tail) => Launch([cfg.fixed[0]] + tail, RunPlan(cfg, items[1..], outcome))
  }

  // ---------------------------------------------------------------- what is launched

  /** One argument with the token in place of every placeholder. */
  function WithToken(arg: CString, p: CString, token: CString): Bytes {
    if p == [] then arg else Replace(arg, p, token)
  }

  /** argv is the fixed command line with the token substituted everywhere but in the command word. */
  predicate IsSubstituted(argv: seq<CString>, fixed: seq<CString>, p: CString, token: CString)
    requires fixed != []
  {
    && |argv| == |fixed| && argv[0] == fixed[0]
    && forall j | 1 <= j < |fixed| :: argv[j] == WithToken(fixed[j], p, token)
  }

  lemma {:induction false} TailIsSubstituted(args: seq<CString>, p: CString, token: CString)
    requires SubstituteTail(args, p, token).Done?
    ensures
      var tail := SubstituteTail(args, p, token).value;
      |tail| == |args| && forall j | 0 <= j < |args| :: tail[j] == WithToken(args[j], p, token)
  {
    if args != [] {
      TailIsSubstituted(args[1..], p, token);
    }
  }

  /** The i-th launch is the fixed command line with the i-th token in it; nothing is left over from earlier ones. */
  lemma {:induction false} EachTokenLaunches(cfg: Setting, items: seq<Item>, outcome: Outcome, i: nat)
    requires cfg.fixed != [] && i < |RunPlan(cfg, items, outcome).launches|
    ensures |RunPlan(cfg, items, outcome).launches| <= |items|
    ensures IsSubstituted(RunPlan(cfg, items, outcome).launches[i], cfg.fixed, cfg.placeholder, items[i].text)
    decreases |items|
  {
    var tail := SubstituteTail(cfg.fixed[1..], cfg.placeholder, items[0].text).value;
    if i == 0 {
      TailIsSubstituted(cfg.fixed[1..], cfg.placeholder, items[0].text);
      var argv := [cfg.fixed[0]] + tail;
      forall j | 1 <= j < |cfg.fixed|
        ensures argv[j] == WithToken(cfg.fixed[j], cfg.placeholder, items[0].text)
      {
        assert argv[j] == tail[j - 1] && cfg.fixed[j] == cfg.fixed[1..][j - 1];
      }
      LaunchesPerToken(cfg, items, outcome);
    } else {
      EachTokenLaunches(cfg, items[1..], outcome, i - 1);
    }
  }

  /** Never more launches than tokens, and one for each when the run completes. */
  lemma {:induction false} LaunchesPerToken(cfg: Setting, items: seq<Item>, outcome: Outcome)
    requires cfg.fixed != []
    ensures
      var plan := RunPlan(cfg, items, outcome);
      |plan.launches| <= |items| && (plan.end.Completed? ==> |plan.launches| == |items|)
    decreases |items|
  {
    if items != [] {
      LaunchesPerToken(cfg, items[1..], outcome);
    }
  }

  // ---------------------------------------------------------------- length

  /** Placeholders in all arguments together; an empty placeholder is never looked for. */
  function TotalOccurrences(args: seq<CString>, p: CString): nat {
    if args == [] || p == [] then 0 else Occurrences(args[0], p) + TotalOccurrences(args[1..], p)
  }

  lemma Distribute(n: nat, m: nat, k: nat)
    ensures (n + m) * k == n * k + m * k
  {
  }

  lemma {:induction false} TailLength(args: seq<CString>, p: CString, token: CString)
    requires SubstituteTail(args, p, token).Done?
    ensures
      var n := TotalOccurrences(args, p);
      ArgsLength(SubstituteTail(args, p, token).value) + n * |p| == ArgsLength(args) + n * |token|
  {
    if args != [] {
      TailLength(args[1..], p, token);
      var t := Substitute(args[0], Some(p), Some(token)).value;
      var tail := SubstituteTail(args[1..], p, token).value;
      assert ([t] + tail)[1..] == tail;
      if p == [] {
        assert TotalOccurrences(args[1..], p) == 0;
      } else {
        ReplaceLength(args[0], p, token);
        var n, m := Occurrences(args[0], p), TotalOccurrences(args[1..], p);
        Distribute(n, m, |p|);
        Distribute(n, m, |token|);
        assert |t| == |args[0]| - n * |p| + n * |token|;
      }
    }
  }

  /** What one launch is long, in terms of what the fixed arguments are long. */
  lemma {:induction false} LaunchLength(fixed: seq<CString>, p: CString, token: CString)
    requires fixed != [] && SubstituteTail(fixed[1..], p, token).Done?
    ensures
      var argv := [fixed[0]] + SubstituteTail(fixed[1..], p, token).value;
      var n := TotalOccurrences(fixed[1..], p);
      ArgsLength(argv) + n * |p| == ArgsLength(fixed) + n * |token|
  {
    TailLength(fixed[1..], p, token);
    var tail := SubstituteTail(fixed[1..], p, token).value;
    assert ([fixed[0]] + tail)[1..] == tail;
  }

  /**
   * The size check looks at the unsubstituted arguments plus the token. It therefore keeps a launch
   * within max_length when the placeholder occurs at most once; in general exactly under this condition.
   */
  lemma {:induction false} LaunchFitsIff(env: nat, maxLength: nat, fixed: seq<CString>, p: CString, token: CString)
    requires fixed != [] && SubstituteTail(fixed[1..], p, token).Done?
    requires env + ArgsLength(fixed) + |token| + 1 <= maxLength
    ensures
      var argv := [fixed[0]] + SubstituteTail(fixed[1..], p, token).value;
      var n := TotalOccurrences(fixed[1..], p);
      && (env + ArgsLength(argv) <= maxLength <==> env + ArgsLength(fixed) + n * |token| <= maxLength + n * |p|)
      && (n <= 1 ==> env + ArgsLength(argv) <= maxLength)
  {
    LaunchLength(fixed, p, token);
    var n := TotalOccurrences(fixed[1..], p);
    if n <= 1 {
      AtMostOnce(n, |token|, |p|);
    }
  }

  lemma AtMostOnce(n: nat, a: nat, b: nat)
    requires n <= 1
    ensures n * a - n * b <= a
  {
    assert n == 0 || n == 1;
  }

  lemma OccursInItself(p: CString)
    requires p != []
    ensures Occurrences(p, p) == 1
  {
    assert OccursAt(p, p, 0);
    assert p[|p|..] == [] && StrStr([], p).None?;
  }

  // ---------------------------------------------------------------- arithmetic

  /** Far above any system's ARG_MAX; the square of it is still below what size_t can count. */
  const SANE_LENGTH := 0xFFFF_FFFF

  lemma ProductBound(a: nat, b: nat, m: nat)
    requires a <= m && b <= m
    ensures a * b <= m * m
  {
    MulMonotone(a, b, m);
    MulMonotone(m, a, m);
  }

  /** One argument and the token short enough: substitution cannot overflow. */
  lemma SubstituteIsDone(arg: CString, p: CString, token: CString)
    requires |arg| <= SANE_LENGTH && |token| <= SANE_LENGTH
    ensures Substitute(arg, Some(p), Some(token)).Done?
  {
    if p != [] {
      ReplaceLength(arg, p, token);
      var n := Occurrences(arg, p);
      MulMonotone(n, 1, |p|);
      ProductBound(n, |token|, SANE_LENGTH);
    }
  }

  lemma {:induction false} TailIsDone(args: seq<CString>, p: CString, token: CString)
    requires ArgsLength(args) <= SANE_LENGTH && |token| <= SANE_LENGTH
    ensures SubstituteTail(args, p, token).Done?
  {
    if args != [] {
      SubstituteIsDone(args[0], p, token);
      TailIsDone(args[1..], p, token);
    }
  }

  predicate TokenFits(cfg: Setting, token: CString) {
    cfg.base + |token| + 1 <= cfg.maxLength
  }

  /**
   * Where a run ends, whatever the limits: it launches every token up to the first one that is too long
   * for the unsubstituted command line or overflows in the substitution, and that token decides how it ends.
   */
  lemma {:induction false} EndsAt(cfg: Setting, items: seq<Item>, outcome: Outcome)
    requires cfg.fixed != []
    ensures
      var plan := RunPlan(cfg, items, outcome);
      var n := |plan.launches|;
      && n <= |items|
      && (forall k | 0 <= k < n ::
            var tail := SubstituteTail(cfg.fixed[1..], cfg.placeholder, items[k].text);
            TokenFits(cfg, items[k].text) && tail.Done? && plan.launches[k] == [cfg.fixed[0]] + tail.value)
      && (n == |items| <==> plan.end.Completed? || plan.end.InputError?)
      && (n < |items| ==>
            var tail := SubstituteTail(cfg.fixed[1..], cfg.placeholder, items[n].text);
            && (plan.end.TooLongUndrained? <==> !TokenFits(cfg, items[n].text))
            && (plan.end.ReplacementTooLarge? <==> TokenFits(cfg, items[n].text) && tail.Exit?)
            && (plan.end.UndefinedBehaviour? <==> TokenFits(cfg, items[n].text) && tail.Undefined?))
    decreases |items|
  {
    if items != [] && TokenFits(cfg, items[0].text) {
      EndsAt(cfg, items[1..], outcome);
    }
  }

  /** The token is too long for the unsubstituted command line, or its substitution overflows. */
  predicate Blocked(cfg: Setting, token: CString)
    requires cfg.fixed != []
  {
    !TokenFits(cfg, token) || !SubstituteTail(cfg.fixed[1..], cfg.placeholder, token).Done?
  }

  predicate SomeTokenBlocked(cfg: Setting, items: seq<Item>)
    requires cfg.fixed != []
  {
    items != [] && (Blocked(cfg, items[0].text) || SomeTokenBlocked(cfg, items[1..]))
  }

  predicate SomeTokenTooLong(cfg: Setting, items: seq<Item>) {
    items != [] && (!TokenFits(cfg, items[0].text) || SomeTokenTooLong(cfg, items[1..]))
  }

  /**
   * A run gives up exactly when some token is blocked. With a limit that fits 32 bits the overflow checks
   * of the substitution never fire, and so it gives up exactly when some token is too long.
   */
  lemma {:induction false} GivesUpIff(cfg: Setting, items: seq<Item>, outcome: Outcome)
    requires cfg.fixed != []
    ensures
      var end := RunPlan(cfg, items, outcome).end;
      && (!end.Completed? && !end.InputError? <==> SomeTokenBlocked(cfg, items))
      && (ArgsLength(cfg.fixed) <= cfg.base && cfg.maxLength <= SANE_LENGTH ==>
            && (end.TooLongUndrained? <==> SomeTokenTooLong(cfg, items))
            && !end.ReplacementTooLarge? && !end.UndefinedBehaviour?)
    decreases |items|
  {
    if items != [] && TokenFits(cfg, items[0].text) {
      if ArgsLength(cfg.fixed) <= cfg.base && cfg.maxLength <= SANE_LENGTH {
        TailIsDone(cfg.fixed[1..], cfg.placeholder, items[0].text);
      }
      GivesUpIff(cfg, items[1..], outcome);
    }
  }
}
