/**
 * What each byte means to the tokenizers, in literal values and on literal inputs: 9 and 32 are the blanks,
 * 10 the newline, 34 and 39 the quotes, 92 the backslash, 0 the end of a C string.
 */
module ByteMeaning {
  import opened Bytes
  import opened TokenStep
  import opened SpaceGrammar
  import opened TokenStream
  import opened Quoting
  import DelimSplit

  /** All of a text before its first byte 0. */
  predicate CutAtZero(text: Bytes, s: Bytes) {
    text <= s && 0 !in text && (|text| < |s| ==> s[|text|] == 0)
  }

  lemma {:induction false} OneCut(a: Bytes, b: Bytes, s: Bytes)
    requires CutAtZero(a, s) && CutAtZero(b, s)
    ensures a == b
  {
    assert forall k | 0 <= k < |a| :: s[k] == a[k] && a[k] != 0;
    assert forall k | 0 <= k < |b| :: s[k] == b[k] && b[k] != 0;
  }

  /** A last word and tail with nothing before them. */
  lemma {:induction false} ReadsAlone(last: Word, tail: Bytes, s: Bytes)
    requires ValidPieces(last) && IsTail(tail) && s == WordSource(last) + tail
    ensures Tokenize(SpaceKind(None), s, false)
         == Tokens(if tail == [] then LastMeaning(last) else [], TailOutcome(tail))
  {
    Reads([], [], last, tail);
    assert [] + (TextSource([]) + s) == s;
    assert TextMeaning([]) + LastMeaning(last) == LastMeaning(last);
  }

  lemma {:induction false} OnePiece(p: Piece)
    ensures WordSource([p]) == p.Source() && WordMeaning([p]) == p.Meaning()
  {
    assert [p][1..] == [] && WordSource([]) == [] && WordMeaning([]) == [];
  }

  lemma {:induction false} MorePieces(p: Piece, w: Word)
    ensures WordSource([p] + w) == p.Source() + WordSource(w)
    ensures WordMeaning([p] + w) == p.Meaning() + WordMeaning(w)
  {
    assert ([p] + w)[1..] == w;
  }

  /** Two words of one plain byte with this separator between them. */
  lemma {:induction false} TwoWords(b: Byte)
    requires IsSeparator(b)
    ensures Tokenize(SpaceKind(None), [97, b, 98], false)
         == Tokens([Item([97], b == NEWLINE), Item([98], true)], CleanEnd)
  {
    var ws := [Written([Plain(97)], [b])];
    OnePiece(Plain(97));
    OnePiece(Plain(98));
    assert ws[1..] == [] && TextSource(ws) == [97, b];
    Reads([], ws, [Plain(98)], []);
    assert [] + (TextSource(ws) + (WordSource([Plain(98)]) + [])) == [97, b, 98];
    assert TextMeaning(ws) == [Item([97], b == NEWLINE)];
    assert LastMeaning([Plain(98)]) == [Item([98], true)];
  }

  lemma {:induction false} OneWord(b: Byte, w: Word, text: Bytes)
    requires ValidPieces(w) && WordSource(w) == [97, b, 98] && WordMeaning(w) == text && w != []
    ensures Tokenize(SpaceKind(None), [97, b, 98], false) == Tokens([Item(CStr(text), true)], CleanEnd)
  {
    ReadsAlone(w, [], [97, b, 98]);
  }

  lemma {:induction false} OpenQuoteBetween(b: Byte)
    requires IsQuote(b)
    ensures Tokenize(SpaceKind(None), [97, b, 98], false) == Tokens([], UnterminatedQuote)
  {
    OnePiece(Plain(97));
    assert [b, 98][1..] == [98];
    assert DelimSplit.Find(NEWLINE, [98]) == 1 && DelimSplit.Find(b, [98]) == 1;
    ReadsAlone([Plain(97)], [b, 98], [97, b, 98]);
  }

  /** The byte between two plain ones decides what is read; each of these outcomes belongs to exactly these bytes. */
  lemma {:induction false} ByteBetween(b: Byte)
    ensures
      var read := Tokenize(SpaceKind(None), [97, b, 98], false);
      && (read == Tokens([Item([97], false), Item([98], true)], CleanEnd) <==> b == 9 || b == 32)
      && (read == Tokens([Item([97], true), Item([98], true)], CleanEnd) <==> b == 10)
      && (read == Tokens([], UnterminatedQuote) <==> b == 34 || b == 39)
      && (read == Tokens([Item([97, 98], true)], CleanEnd) <==> b == 92)
      && (read == Tokens([Item([97], true)], CleanEnd) <==> b == 0)
      && (b !in {0, 9, 10, 32, 34, 39, 92} ==> read == Tokens([Item([97, b, 98], true)], CleanEnd))
  {
    if b == 9 || b == 32 || b == 10 {
      TwoWords(b);
    } else if b == 34 || b == 39 {
      OpenQuoteBetween(b);
    } else {
      var p := if b == 92 then Escaped(98) else Plain(b);
      var w := if b == 92 then [p] else [p] + [Plain(98)];
      OnePiece(Plain(98));
      OnePiece(p);
      if b != 92 {
        MorePieces(p, [Plain(98)]);
      }
      MorePieces(Plain(97), w);
      var text := if b == 92 then [97, 98] else [97, b, 98];
      assert WordMeaning([Plain(97)] + w) == text;
      OneWord(b, [Plain(97)] + w, text);
      OneCut(CStr(text), if b == 0 then [97] else text, text);
    }
  }

  /** Quotes of either kind keep everything between them, the other kind and the backslash included. */
  lemma {:induction false} QuotedBody(q: Byte, body: Bytes, text: CString)
    requires (q == 34 || q == 39) && q !in body && 10 !in body && CutAtZero(text, body)
    ensures Tokenize(SpaceKind(None), [q] + body + [q], false) == Tokens([Item(text, true)], CleanEnd)
  {
    OnePiece(Quoted(q, body));
    ReadsAlone([Quoted(q, body)], [], [q] + body + [q]);
    OneCut(CStr(body), text, body);
  }

  /** A quote that its own kind does not close before the next newline, or at all, is an error. */
  lemma {:induction false} QuoteLeftOpen(q: Byte, body: Bytes, rest: Bytes)
    requires (q == 34 || q == 39) && q !in body && 10 !in body && (rest == [] || rest[0] == 10)
    ensures Tokenize(SpaceKind(None), [q] + body + rest, false) == Tokens([], UnterminatedQuote)
  {
    var s := [q] + body + rest;
    assert s[1..] == body + rest;
    assert forall k | 0 <= k < |body| :: s[1..][k] == body[k];
    assert rest != [] ==> s[1..][|body|] == 10;
    ReadsAlone([], s, s);
  }

  /** A backslash makes any byte literal, also a quote, a blank, a newline and a backslash. */
  lemma {:induction false} EscapedByte(c: Byte)
    ensures Tokenize(SpaceKind(None), [92, c], false) == Tokens([Item(if c == 0 then [] else [c], true)], CleanEnd)
  {
    OnePiece(Escaped(c));
    ReadsAlone([Escaped(c)], [], [92, c]);
    OneCut(CStr([c]), if c == 0 then [] else [c], [c]);
  }

  lemma {:induction false} BackslashAtTheEnd()
    ensures Tokenize(SpaceKind(None), [92], false) == Tokens([], BackslashAtEof)
  {
    ReadsAlone([], [92], [92]);
  }

  /** A failing read is an error where the end of the input would have ended a word, or left a quote open. */
  lemma {:induction false} FailingReads(marker: Option<CString>)
    ensures Tokenize(SpaceKind(marker), [97], true) == Tokens([], IoError)
    ensures Tokenize(SpaceKind(marker), [34, 97], true) == Tokens([], IoError)
    ensures Tokenize(SpaceKind(marker), [92], true) == Tokens([], IoError)
    ensures Tokenize(SpaceKind(marker), [34, 97, 10], true) == Tokens([], UnterminatedQuote)
  {
    assert [97][1..] == [] && [34, 97][1..] == [97] && [92][1..] == [];
    assert [34, 97, 10][1..] == [97, 10] && [97, 10][1..] == [10];
    assert ScanQuoted(34, [97, 10]).end.NewlineInQuote?;
  }
}
