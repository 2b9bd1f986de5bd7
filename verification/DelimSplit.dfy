/** The -d / -0 tokenizer as a split of the remaining input at the delimiter. */
module DelimSplit {
  import opened Bytes
  import opened TokenStep

  /** Where the delimiter first occurs, or |s|. A delim outside 0..255 (a negative char) occurs nowhere. */
  function Find(delim: int, s: Bytes): (i: nat)
    ensures i <= |s|
    ensures i < |s| ==> s[i] == delim
    ensures forall k | 0 <= k < i :: s[k] != delim
  {
    if s == [] || s[0] == delim then 0 else 1 + Find(delim, s[1..])
  }

  /** At EOF one trailing newline is dropped from the last token, unless newline is the delimiter. */
  function StripNewline(delim: int, s: Bytes): Bytes
    requires s != []
  {
    if delim != NEWLINE && s[|s| - 1] == NEWLINE then s[..|s| - 1] else s
  }

  function DelimStep(delim: int, s: Bytes, fails: bool): (r: Step)
    ensures |r.rest| <= |s|
    ensures r.Token? ==> |r.rest| < |s|
  {
    var i := Find(delim, s);
    if i < |s| then Token(CStr(s[..i]), true, s[i + 1..])
    else if fails then Stop(IoError, false, [])
    else if s == [] then Stop(CleanEnd, false, [])
    else Token(CStr(StripNewline(delim, s)), false, [])
  }

  lemma FindAfter(d: Byte, token: Bytes, s: Bytes)
    requires d !in token
    ensures Find(d, token + [d] + s) == |token|
  {
    var all := token + [d] + s;
    assert all[|token|] == d;
    assert forall k | 0 <= k < |token| :: all[k] == token[k];
  }

  /** A call on an input that has the delimiter takes what is before it. */
  lemma StepTakes(d: Byte, token: Bytes, s: Bytes, fails: bool)
    requires d !in token
    ensures DelimStep(d, token + [d] + s, fails) == Token(CStr(token), true, s)
  {
    FindAfter(d, token, s);
    var all := token + [d] + s;
    assert all[..|token|] == token && all[|token| + 1..] == s;
  }
}
