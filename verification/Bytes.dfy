/** Bytes as getc delivers them, and the C strings the program makes of them. */
module Bytes {

  /** One value returned by getc that is not EOF: an unsigned char. */
  type Byte = b: int | 0 <= b < 256

  type Bytes = seq<Byte>

  const NUL: Byte := 0
  const TAB: Byte := 9
  const NEWLINE: Byte := 10
  const SPACE: Byte := 32
  const DOUBLE_QUOTE: Byte := 34
  const SINGLE_QUOTE: Byte := 39
  const BACKSLASH: Byte := 92

  /** What strlen, strcmp and strdup can see of a char*: no NUL inside. */
  type CString = s: Bytes | NUL !in s witness []

  datatype Option<+T> = None | Some(value: T)

  /** The C string that starts a run of bytes: everything before the first NUL. */
  function CStr(s: Bytes): (r: CString)
    ensures r <= s
    ensures |r| < |s| ==> s[|r|] == NUL
    ensures NUL !in s ==> r == s
  {
    if s == [] || s[0] == NUL then
      []
    else
      var r := [s[0]] + CStr(s[1..]);
      assert r <= s by {
        assert s == [s[0]] + s[1..];
      }
      r
  }

  /** A string is over at its terminator, whatever the memory holds after it. */
  lemma {:induction false} CStrStopsAt(s: Bytes, n: nat)
    requires n < |s| && s[n] == NUL
    ensures CStr(s) == CStr(s[..n])
  {
    if n > 0 {
      CStrStopsAt(s[1..], n - 1);
      assert s[..n][1..] == s[1..][..n - 1];
    }
  }

  lemma AppendAssoc<T>(a: seq<T>, b: T, c: seq<T>)
    ensures a + ([b] + c) == a + [b] + c
  {
  }

  /** strlen + 1, summed over an argument list. */
  function ArgsLength(args: seq<CString>): nat {
    if args == [] then 0 else |args[0]| + 1 + ArgsLength(args[1..])
  }

  lemma {:induction false} ArgsLengthConcat(a: seq<CString>, b: seq<CString>)
    ensures ArgsLength(a + b) == ArgsLength(a) + ArgsLength(b)
  {
    if a == [] {
      assert a + b == b;
    } else {
      assert (a + b)[1..] == a[1..] + b;
      ArgsLengthConcat(a[1..], b);
    }
  }

  lemma ArgsLengthOne(a: CString)
    ensures ArgsLength([a]) == |a| + 1
  {
    assert [a][1..] == [];
  }

  /** The concatenation of a list of lists. */
  function Concat<T>(xss: seq<seq<T>>): seq<T> {
    if xss == [] then [] else xss[0] + Concat(xss[1..])
  }

  lemma {:induction false} ConcatAppend<T>(a: seq<seq<T>>, b: seq<seq<T>>)
    ensures Concat(a + b) == Concat(a) + Concat(b)
  {
    if a == [] {
      assert a + b == b;
    } else {
      assert (a + b)[1..] == a[1..] + b;
      ConcatAppend(a[1..], b);
    }
  }

  lemma ConcatOne<T>(a: seq<T>)
    ensures Concat([a]) == a
  {
    assert [a][1..] == [];
  }
}
