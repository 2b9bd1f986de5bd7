/** Placeholder substitution: leftmost, non-overlapping replacement, and the two-pass routine that does it. */
module Replacement {
  import opened Bytes

  /** The largest size_t. */
  const SIZE_MAX := 0xFFFF_FFFF_FFFF_FFFF

  predicate OccursAt(p: Bytes, s: Bytes, i: nat) {
    i + |p| <= |s| && s[i..i + |p|] == p
  }

  /** strstr as an index: the first occurrence, or None. */
  function StrStr(s: Bytes, p: Bytes): (r: Option<nat>)
    ensures r.Some? ==> OccursAt(p, s, r.value) && forall k: nat | k < r.value :: !OccursAt(p, s, k)
    ensures r.None? ==> forall k: nat | k <= |s| :: !OccursAt(p, s, k)
  {
    StrStrFrom(s, p, 0)
  }

  function StrStrFrom(s: Bytes, p: Bytes, from: nat): (r: Option<nat>)
    requires from <= |s|
    ensures r.Some? ==>
      from <= r.value && OccursAt(p, s, r.value) && forall k: nat | from <= k < r.value :: !OccursAt(p, s, k)
    ensures r.None? ==> forall k: nat | from <= k <= |s| :: !OccursAt(p, s, k)
    decreases |s| - from
  {
    if OccursAt(p, s, from) then Some(from)
    else if from == |s| then None
    else StrStrFrom(s, p, from + 1)
  }

  /** Replacing from left to right, never looking again at what was matched or inserted. */
  function Replace(s: Bytes, p: Bytes, r: Bytes): Bytes
    requires p != []
    decreases |s|
  {
    match StrStr(s, p)
    case None => s
    case Some(i) => s[..i] + r + Replace(s[i + |p|..], p, r)
  }

  function Occurrences(s: Bytes, p: Bytes): nat
    requires p != []
    decreases |s|
  {
    match StrStr(s, p)
    case None => 0
    case Some(i) => 1 + Occurrences(s[i + |p|..], p)
  }

  // ---------------------------------------------------------------- what replacing means

  /** Pieces with a separator between them. */
  function Join(pieces: seq<Bytes>, separator: Bytes): Bytes
    requires pieces != []
  {
    if |pieces| == 1 then pieces[0] else pieces[0] + separator + Join(pieces[1..], separator)
  }

  /** Every separator is at the first place where p occurs in what is left, and p occurs nowhere after the last. */
  predicate IsLeftmostSplit(pieces: seq<Bytes>, s: Bytes, p: Bytes)
    requires p != []
  {
    pieces != [] &&
    if |pieces| == 1 then
      s == pieces[0] && (forall k: nat | k <= |s| :: !OccursAt(p, s, k))
    else
      && |pieces[0]| + |p| <= |s| && s[..|pieces[0]|] == pieces[0]
      && OccursAt(p, s, |pieces[0]|) && (forall k: nat | k < |pieces[0]| :: !OccursAt(p, s, k))
      && IsLeftmostSplit(pieces[1..], s[|pieces[0]| + |p|..], p)
  }

  lemma {:induction false} SplitExists(s: Bytes, p: Bytes) returns (pieces: seq<Bytes>)
    requires p != []
    ensures IsLeftmostSplit(pieces, s, p)
    decreases |s|
  {
    match StrStr(s, p)
    case None =>
      pieces := [s];
    case Some(i) =>
      var rest := SplitExists(s[i + |p|..], p);
      pieces := [s[..i]] + rest;
      assert pieces[1..] == rest;
  }

  lemma {:induction false} SplitUnique(a: seq<Bytes>, b: seq<Bytes>, s: Bytes, p: Bytes)
    requires p != [] && IsLeftmostSplit(a, s, p) && IsLeftmostSplit(b, s, p)
    ensures a == b
    decreases |a|
  {
    if |a| == 1 || |b| == 1 {
      assert a == [a[0]] && b == [b[0]];
    } else {
      assert OccursAt(p, s, |a[0]|) && OccursAt(p, s, |b[0]|);
      assert |a[0]| == |b[0]|;
      SplitUnique(a[1..], b[1..], s[|a[0]| + |p|..], p);
      assert a == [a[0]] + a[1..] && b == [b[0]] + b[1..];
    }
  }

  /**
   * Replacement correctness: the text is the pieces of its leftmost split joined by the
   * placeholder, and the result is the very same pieces joined by the replacement.
   */
  lemma {:induction false} ReplaceRejoins(pieces: seq<Bytes>, s: Bytes, p: Bytes, r: Bytes)
    requires p != [] && IsLeftmostSplit(pieces, s, p)
    ensures s == Join(pieces, p) && Replace(s, p, r) == Join(pieces, r)
    ensures Occurrences(s, p) == |pieces| - 1
    decreases |pieces|
  {
    if |pieces| > 1 {
      var i := |pieces[0]|;
      assert StrStr(s, p) == Some(i) by {
        assert OccursAt(p, s, i);
      }
      var rest := s[i + |p|..];
      ReplaceRejoins(pieces[1..], rest, p, r);
      assert s == s[..i] + s[i..i + |p|] + rest;
    }
  }

  lemma MulSuccessor(n: nat, k: nat)
    ensures (1 + n) * k == k + n * k
  {
  }

  /** Length bookkeeping of the two passes: what is removed fits in the text, what is added makes the result. */
  lemma {:induction false} ReplaceLength(s: Bytes, p: Bytes, r: Bytes)
    requires p != []
    ensures Occurrences(s, p) * |p| <= |s|
    ensures |Replace(s, p, r)| == |s| - Occurrences(s, p) * |p| + Occurrences(s, p) * |r|
    decreases |s|
  {
    match StrStr(s, p)
    case None =>
    case Some(i) =>
      var rest := s[i + |p|..];
      ReplaceLength(rest, p, r);
      MulSuccessor(Occurrences(rest, p), |p|);
      MulSuccessor(Occurrences(rest, p), |r|);
      assert |rest| == |s| - i - |p|;
  }

  lemma {:induction false} ReplaceIsCString(s: Bytes, p: Bytes, r: Bytes)
    requires p != [] && NUL !in s && NUL !in r
    ensures NUL !in Replace(s, p, r)
    decreases |s|
  {
    match StrStr(s, p)
    case None =>
    case Some(i) =>
      var rest, tail := s[i + |p|..], Replace(s[i + |p|..], p, r);
      assert Replace(s, p, r) == s[..i] + r + tail;
      ReplaceIsCString(rest, p, r);
      NoNulConcat(s[..i], r, tail);
  }

  lemma NoNulConcat(a: Bytes, b: Bytes, c: Bytes)
    requires NUL !in a && NUL !in b && NUL !in c
    ensures NUL !in a + b + c
  {
  }

  /** A text without the placeholder is left alone; replacing the placeholder by itself changes nothing. */
  lemma ReplaceIdentities(s: Bytes, p: Bytes, r: Bytes)
    requires p != []
    ensures Replace(s, p, p) == s
    ensures Occurrences(s, p) == 0 ==> Replace(s, p, r) == s
  {
    var pieces := SplitExists(s, p);
    ReplaceRejoins(pieces, s, p, p);
  }

  // ---------------------------------------------------------------- the routine

  /** exit(EXIT_FAILURE), behaviour C leaves undefined, or a result. */
  datatype Checked<+T> = Exit | Undefined | Done(value: T)

  lemma QuotientTest(a: nat, b: nat, max: nat)
    requires a != 0
    ensures b > max / a <==> a * b > max
  {
    var q := max / a;
    if b > q {
      MulMonotone(a, q + 1, b);
    } else {
      MulMonotone(a, b, q);
    }
  }

  lemma MulMonotone(a: nat, x: nat, y: nat)
    requires x <= y
    ensures a * x <= a * y
  {
  }

  method CheckedMul(a: nat, b: nat) returns (r: Checked<nat>)
    requires a <= SIZE_MAX && b <= SIZE_MAX
    ensures r == if a * b > SIZE_MAX then Exit else Done(a * b)
  {
    if a != 0 {
      QuotientTest(a, b, SIZE_MAX);
    }
    if a != 0 && b > SIZE_MAX / a {
      return Exit;
    }
    return Done(a * b);
  }

  method CheckedAdd(a: nat, b: nat) returns (r: Checked<nat>)
    requires a <= SIZE_MAX && b <= SIZE_MAX
    ensures r == if a + b > SIZE_MAX then Exit else Done(a + b)
  {
    if a > SIZE_MAX - b {
      return Exit;
    }
    return Done(a + b);
  }

  /** memcpy(a + at, src, |src|) */
  method MemCpy(a: array<Byte>, at: nat, src: Bytes)
    requires at + |src| <= a.Length
    modifies a
    ensures a[..at + |src|] == old(a[..at]) + src
    ensures a[at + |src|..] == old(a[at + |src|..])
  {
    forall i | 0 <= i < |src| {
      a[at + i] := src[i];
    }
  }

  /** The first pass. */
  method CountOccurrences(s: Bytes, p: Bytes) returns (count: nat)
    requires p != []
    ensures count == Occurrences(s, p)
  {
    count := 0;
    var tmp := 0;
    var hit := StrStr(s[tmp..], p);
    while hit.Some?
      invariant tmp <= |s| && hit == StrStr(s[tmp..], p)
      invariant count + Occurrences(s[tmp..], p) == Occurrences(s, p)
      decreases |s| - tmp
    {
      count := count + 1;
      assert s[tmp..][hit.value + |p|..] == s[tmp + hit.value + |p|..];
      tmp := tmp + hit.value + |p|;
      hit := StrStr(s[tmp..], p);
    }
  }

  /** The second pass: it finds the same matches and fills exactly newLen bytes and the terminator. */
  method Fill(s: Bytes, p: Bytes, r: Bytes, newLen: nat) returns (result: array<Byte>)
    requires p != [] && newLen == |Replace(s, p, r)|
    ensures fresh(result) && result[..] == Replace(s, p, r) + [NUL]
  {
    result := new Byte[newLen + 1](_ => NUL);
    var pos: nat, newPos: nat := 0, 0;
    assert s[0..] == s;
    var hit := StrStr(s[pos..], p);
    ghost var whole, left := Replace(s, p, r), Replace(s[pos..], p, r);
    assert result[..newPos] + left == whole;
    while hit.Some?
      invariant pos <= |s| && hit == StrStr(s[pos..], p) && left == Replace(s[pos..], p, r)
      invariant newPos <= newLen == result.Length - 1 && newPos + |left| == newLen
      invariant result[..newPos] + left == whole
      decreases |s| - pos
    {
      var i := hit.value;
      ghost var later := ReplaceStep(s, p, r, pos, i);
      newPos := CopyMatch(result, newPos, s[pos..pos + i], r, later);
      left := later;
      pos := pos + i + |p|;
      hit := StrStr(s[pos..], p);
    }
    CopyTail(result, newPos, s[pos..]);
  }

  /** What follows the last match, and the terminator. */
  method CopyTail(result: array<Byte>, newPos: nat, tail: Bytes)
    requires newPos + |tail| + 1 == result.Length
    modifies result
    ensures result[..] == old(result[..newPos]) + tail + [NUL]
  {
    MemCpy(result, newPos, tail + [NUL]);
    assert result[..] == result[..newPos + (|tail| + 1)];
  }

  /** One match: the text before it, then the replacement. */
  method CopyMatch(result: array<Byte>, newPos: nat, prefix: Bytes, r: Bytes, ghost later: Bytes)
    returns (next: nat)
    requires newPos + |prefix| + |r| <= result.Length
    modifies result
    ensures next == newPos + |prefix| + |r|
    ensures result[..next] + later == old(result[..newPos]) + (prefix + r + later)
  {
    MemCpy(result, newPos, prefix);
    MemCpy(result, newPos + |prefix|, r);
    next := newPos + |prefix| + |r|;
    assert result[..next] == old(result[..newPos]) + prefix + r;
  }

  lemma ReplaceStep(s: Bytes, p: Bytes, r: Bytes, pos: nat, i: nat) returns (later: Bytes)
    requires p != [] && pos <= |s| && StrStr(s[pos..], p) == Some(i)
    ensures pos + i + |p| <= |s| && later == Replace(s[pos + i + |p|..], p, r)
    ensures Replace(s[pos..], p, r) == s[pos..pos + i] + r + later
  {
    var left := s[pos..];
    var rest := left[i + |p|..];
    later := Replace(rest, p, r);
    assert Replace(left, p, r) == left[..i] + r + later;
    assert left[..i] == s[pos..pos + i];
    assert rest == s[pos + i + |p|..];
  }

  /** What the routine may return for a result t of which `added` bytes come from replacements. */
  function Sized(t: CString, added: nat): Checked<CString> {
    if added > SIZE_MAX || |t| > SIZE_MAX then Exit
    else if |t| == SIZE_MAX then Undefined
    else Done(t)
  }

  /** str_replace on a text that is not NULL. */
  function Substitute(s: CString, placeholder: Option<CString>, replacement: Option<CString>): Checked<CString> {
    if placeholder.None? || placeholder.value == [] then Done(s)
    else
      var r := if replacement.None? then [] else replacement.value;
      ReplaceIsCString(s, placeholder.value, r);
      Sized(Replace(s, placeholder.value, r), Occurrences(s, placeholder.value) * |r|)
  }

  /**
   * The result in terms of the leftmost split, with the size of size_t in numbers: an exit if the bytes
   * that come from replacements, or all, exceed it; undefined if all are exactly that many; else the pieces
   * joined by the replacement. NULL or nothing to look for changes nothing; NULL replaces by nothing.
   */
  lemma {:induction false} SubstituteIs(pieces: seq<Bytes>, s: CString, p: CString, r: CString)
    requires p != [] && IsLeftmostSplit(pieces, s, p)
    ensures
      var t, result := Join(pieces, r), Substitute(s, Some(p), Some(r));
      if (|pieces| - 1) * |r| > 18446744073709551615 || |t| > 18446744073709551615 then result.Exit?
      else if |t| == 18446744073709551615 then result.Undefined?
      else result.Done? && result.value == t
    ensures Substitute(s, Some(p), None) == Substitute(s, Some(p), Some([]))
    ensures Substitute(s, None, Some(r)) == Substitute(s, Some([]), Some(r)) == Done(s)
  {
    ReplaceRejoins(pieces, s, p, r);
  }

  /** A string in memory, terminator included. */
  predicate InMemory(s: Option<CString>) {
    s.Some? ==> |s.value| < SIZE_MAX
  }

  method StrReplace(s: Option<CString>, placeholder: Option<CString>, replacement: Option<CString>)
    returns (result: Checked<Option<CString>>)
    requires InMemory(s) && InMemory(placeholder) && InMemory(replacement)
    ensures s.None? ==> result == Done(None)
    ensures s.Some? ==>
      match Substitute(s.value, placeholder, replacement)
      case Done(t) => result == Done(Some(t))
      case Exit => result.Exit?
      case Undefined => result.Undefined?
  {
    if s.None? {
      return Done(None);
    }
    if placeholder.None? || |placeholder.value| == 0 {
      return Done(s);
    }
    var repl: CString := if replacement.None? then [] else replacement.value;
    var target, p := s.value, placeholder.value;
    var occurrenceCount := CountOccurrences(target, p);
    ReplaceLength(target, p, repl);
    MulMonotone(occurrenceCount, 1, |p|);
    var removed := CheckedMul(occurrenceCount, |p|);
    var added := CheckedMul(occurrenceCount, |repl|);
    if added.Exit? {
      return Exit;
    }
    var newLen := CheckedAdd(|target| - removed.value, added.value);
    if newLen.Exit? {
      return Exit;
    }
    if newLen.value == SIZE_MAX {
      // newLen + 1 wraps to 0: the buffer is empty and the fill writes past its end.
      return Undefined;
    }
    var buffer := Fill(target, p, repl, newLen.value);
    ReplaceIsCString(target, p, repl);
    CStrStopsAt(buffer[..], newLen.value);
    assert buffer[..][..newLen.value] == Replace(target, p, repl);
    return Done(Some(CStr(buffer[..])));
  }
}
