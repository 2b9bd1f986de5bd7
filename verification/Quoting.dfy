/**
 * The quoting rules the default tokenizer promises (POSIX.1-2008, xargs, DESCRIPTION), written
 * as a grammar of inputs. Main results: tokenizing inverts any correct quoting (Reads), every
 * input has the grammar's form (Decompose), and so each outcome is exactly one kind of ending.
 */
module Quoting {
  import opened Bytes
  import opened TokenStep
  import opened SpaceGrammar
  import opened TokenStream
  import opened DelimSplit

  /** A word is a sequence of pieces, each standing for some literal bytes. */
  datatype Piece =
    | Plain(b: Byte)
    | Escaped(b: Byte)
    | Quoted(quote: Byte, body: Bytes)
  {
    predicate Valid() {
      match this
      case Plain(b) => !IsSeparator(b) && !IsQuote(b) && b != BACKSLASH
      case Escaped(_) => true
      case Quoted(q, body) => IsQuote(q) && q !in body && NEWLINE !in body
    }

    function Source(): (r: Bytes)
      ensures r != []
    {
      match this
      case Plain(b) => [b]
      case Escaped(b) => [BACKSLASH, b]
      case Quoted(q, body) => [q] + body + [q]
    }

    function Meaning(): Bytes {
      match this
      case Plain(b) => [b]
      case Escaped(b) => [b]
      case Quoted(_, body) => body
    }
  }

  type Word = seq<Piece>

  predicate ValidPieces(w: Word) {
    forall i | 0 <= i < |w| :: w[i].Valid()
  }

  predicate ValidWord(w: Word) {
    w != [] && ValidPieces(w)
  }

  function WordSource(w: Word): Bytes {
    if w == [] then [] else w[0].Source() + WordSource(w[1..])
  }

  function WordMeaning(w: Word): Bytes {
    if w == [] then [] else w[0].Meaning() + WordMeaning(w[1..])
  }

  /** A word and the separators after it. */
  datatype Written = Written(word: Word, gap: Bytes)

  predicate IsGap(s: Bytes) {
    forall i | 0 <= i < |s| :: IsSeparator(s[i])
  }

  predicate ValidText(ws: seq<Written>) {
    forall i | 0 <= i < |ws| :: ValidWord(ws[i].word) && ws[i].gap != [] && IsGap(ws[i].gap)
  }

  function TextSource(ws: seq<Written>): Bytes {
    if ws == [] then [] else WordSource(ws[0].word) + ws[0].gap + TextSource(ws[1..])
  }

  /** A blank after a word continues its line; a newline right after it ends the line. */
  function Meant(w: Written): Item
    requires w.gap != []
  {
    Item(CStr(WordMeaning(w.word)), w.gap[0] == NEWLINE)
  }

  function TextMeaning(ws: seq<Written>): (r: seq<Item>)
    requires ValidText(ws)
    ensures |r| == |ws|
  {
    if ws == [] then [] else [Meant(ws[0])] + TextMeaning(ws[1..])
  }

  /** A word that the end of input follows directly; no pieces, no word. */
  function LastMeaning(last: Word): seq<Item> {
    if last == [] then [] else [Item(CStr(WordMeaning(last)), true)]
  }

  lemma {:induction false} TextMeaningAt(ws: seq<Written>, i: nat)
    requires ValidText(ws) && i < |ws|
    ensures TextMeaning(ws)[i] == Meant(ws[i])
  {
    if i > 0 {
      TextMeaningAt(ws[1..], i - 1);
    }
  }

  /** The words by line of text, `line` begun already: a newline right after a word, or the end, ends its line. */
  function TextLines(line: seq<CString>, ws: seq<Written>, last: Word): seq<seq<CString>>
    requires ValidText(ws)
    decreases |ws|
  {
    if ws == [] then
      if last != [] then [line + [CStr(WordMeaning(last))]] else if line == [] then [] else [line]
    else
      var longer := line + [CStr(WordMeaning(ws[0].word))];
      if ws[0].gap[0] == NEWLINE then [longer] + TextLines([], ws[1..], last) else TextLines(longer, ws[1..], last)
  }

  // ---------------------------------------------------------------- scanning a correct text

  lemma {:induction false} ScanQuotedBody(q: Byte, body: Bytes, s: Bytes)
    requires IsQuote(q) && q !in body && NEWLINE !in body
    ensures ScanQuoted(q, body + [q] + s) == Prefixed(body, ScanWord(s))
    decreases |body|
  {
    var all := body + [q] + s;
    if body == [] {
      assert all[1..] == s;
    } else {
      assert all[1..] == body[1..] + [q] + s;
      ScanQuotedBody(q, body[1..], s);
      assert [body[0]] + (body[1..] + ScanWord(s).text) == body + ScanWord(s).text;
    }
  }

  lemma {:induction false} ScanPiece(p: Piece, s: Bytes)
    requires p.Valid()
    ensures ScanWord(p.Source() + s) == Prefixed(p.Meaning(), ScanWord(s))
  {
    var all := p.Source() + s;
    match p
    case Plain(b) =>
      assert all[1..] == s;
    case Escaped(b) =>
      assert all[1..][1..] == s;
    case Quoted(q, body) =>
      assert all[1..] == body + [q] + s;
      ScanQuotedBody(q, body, s);
  }

  /** Scanning reads a word's source as the word's meaning and goes on after it. */
  lemma {:induction false} ScanSource(w: Word, s: Bytes)
    requires ValidPieces(w)
    ensures ScanWord(WordSource(w) + s) == Prefixed(WordMeaning(w), ScanWord(s))
    decreases |w|
  {
    if w == [] {
      assert [] + s == s && [] + ScanWord(s).text == ScanWord(s).text;
    } else {
      var tail := WordSource(w[1..]) + s;
      assert WordSource(w) + s == w[0].Source() + tail;
      ScanPiece(w[0], tail);
      ScanSource(w[1..], s);
      assert w[0].Meaning() + (WordMeaning(w[1..]) + ScanWord(s).text)
          == WordMeaning(w) + ScanWord(s).text;
    }
  }

  lemma {:induction false} SkipGap(gap: Bytes, s: Bytes)
    requires IsGap(gap)
    ensures SkipSeparators(gap + s) == SkipSeparators(s)
    decreases |gap|
  {
    if gap == [] {
      assert gap + s == s;
    } else {
      assert (gap + s)[1..] == gap[1..] + s;
      SkipGap(gap[1..], s);
    }
  }

  lemma {:induction false} WordStart(w: Word, s: Bytes)
    requires ValidWord(w)
    ensures SkipSeparators(WordSource(w) + s) == WordSource(w) + s
  {
    var p := w[0];
    assert p.Valid();
    assert (WordSource(w) + s)[0] == p.Source()[0];
  }

  lemma {:induction false} ScanSeparator(s: Bytes)
    requires s != [] && IsSeparator(s[0])
    ensures ScanWord(s) == Scan([], if s[0] == NEWLINE then AtNewline else AtBlank, s[1..])
  {
  }

  lemma {:induction false} ScanWholeWord(w: Word, after: Bytes)
    requires ValidPieces(w) && after != [] && IsSeparator(after[0])
    ensures ScanWord(WordSource(w) + after)
         == Scan(WordMeaning(w), if after[0] == NEWLINE then AtNewline else AtBlank, after[1..])
  {
    ScanSource(w, after);
    ScanSeparator(after);
    assert WordMeaning(w) + [] == WordMeaning(w);
  }

  /** The call that reads one correctly written word, whatever separators come before it. */
  lemma {:induction false} StepReadsWord(lead: Bytes, w: Written, s: Bytes, fails: bool)
    requires IsGap(lead) && ValidWord(w.word) && w.gap != [] && IsGap(w.gap)
    ensures SpaceStep(None, lead + (WordSource(w.word) + w.gap + s), fails)
         == Token(Meant(w).text, Meant(w).lineEnds, w.gap[1..] + s)
  {
    var after := w.gap + s;
    assert WordSource(w.word) + w.gap + s == WordSource(w.word) + after;
    assert after[1..] == w.gap[1..] + s;
    SkipGap(lead, WordSource(w.word) + after);
    WordStart(w.word, after);
    ScanWholeWord(w.word, after);
  }

  lemma {:induction false} TokenizeAfterGap(lead: Bytes, s: Bytes, fails: bool)
    requires IsGap(lead)
    ensures Tokenize(SpaceKind(None), lead + s, fails) == Tokenize(SpaceKind(None), s, fails)
  {
    SkipGap(lead, s);
  }

  lemma {:induction false} TokenizeWord(lead: Bytes, w: Written, s: Bytes, fails: bool)
    requires IsGap(lead) && ValidWord(w.word) && w.gap != [] && IsGap(w.gap)
    ensures Tokenize(SpaceKind(None), lead + (WordSource(w.word) + w.gap + s), fails)
         == Before([Meant(w)], Tokenize(SpaceKind(None), w.gap[1..] + s, fails))
  {
    StepReadsWord(lead, w, s, fails);
    TokenizeToken(SpaceKind(None), lead + (WordSource(w.word) + w.gap + s), fails);
  }

  /** Any correct quoting of any words is read back as exactly those words, whatever follows it. */
  lemma {:induction false} ReadsText(lead: Bytes, ws: seq<Written>, s: Bytes, fails: bool)
    requires IsGap(lead) && ValidText(ws)
    ensures Tokenize(SpaceKind(None), lead + (TextSource(ws) + s), fails)
         == Before(TextMeaning(ws), Tokenize(SpaceKind(None), s, fails))
    decreases |ws|
  {
    var end := Tokenize(SpaceKind(None), s, fails);
    if ws == [] {
      assert [] + s == s && [] + end.items == end.items;
      TokenizeAfterGap(lead, s, fails);
    } else {
      var w, later := ws[0], TextSource(ws[1..]) + s;
      assert TextSource(ws) + s == WordSource(w.word) + w.gap + later;
      TokenizeWord(lead, w, later, fails);
      ReadsText(w.gap[1..], ws[1..], s, fails);
      BeforeBefore([Meant(w)], TextMeaning(ws[1..]), end);
    }
  }

  // ---------------------------------------------------------------- how an input can end

  predicate OpensQuote(end: Terminator) {
    end.NewlineInQuote? || end.EofInQuote?
  }

  /** A quote that no later equal quote closes before the next newline. */
  predicate IsOpenQuote(s: Bytes) {
    s != [] && IsQuote(s[0]) && Find(NEWLINE, s[1..]) <= Find(s[0], s[1..])
  }

  /** What can follow the last correct piece: nothing, a backslash that ends the input, an open quote. */
  predicate IsTail(s: Bytes) {
    s == [] || s == [BACKSLASH] || IsOpenQuote(s)
  }

  function TailOutcome(tail: Bytes): Outcome {
    if tail == [] then CleanEnd else if tail == [BACKSLASH] then BackslashAtEof else UnterminatedQuote
  }

  lemma {:induction false} ScanOpenQuote(q: Byte, s: Bytes)
    requires IsQuote(q) && Find(NEWLINE, s) <= Find(q, s)
    ensures OpensQuote(ScanQuoted(q, s).end)
    decreases |s|
  {
    if s != [] && s[0] != NEWLINE {
      ScanOpenQuote(q, s[1..]);
    }
  }

  /** How scanning stops at a tail. */
  lemma {:induction false} ScanTail(tail: Bytes)
    requires IsTail(tail)
    ensures
      var end := ScanWord(tail).end;
      && (end.AtEof? <==> tail == [])
      && (end.EofAfterBackslash? <==> tail == [BACKSLASH])
      && (OpensQuote(end) <==> IsOpenQuote(tail))
      && (tail == [] ==> ScanWord(tail).text == [])
  {
    if IsOpenQuote(tail) {
      ScanOpenQuote(tail[0], tail[1..]);
    }
  }

  lemma {:induction false} ReadsTail(tail: Bytes)
    requires IsTail(tail)
    ensures Tokenize(SpaceKind(None), tail, false) == Tokens([], TailOutcome(tail))
  {
    ScanTail(tail);
    assert SkipSeparators(tail) == tail;
  }

  /** The last word and tail of an input, on their own. */
  lemma {:induction false} ReadsLast(last: Word, tail: Bytes)
    requires ValidPieces(last) && IsTail(tail)
    ensures Tokenize(SpaceKind(None), WordSource(last) + tail, false)
         == Tokens(if tail == [] then LastMeaning(last) else [], TailOutcome(tail))
  {
    if last == [] {
      assert WordSource(last) + tail == tail;
      ReadsTail(tail);
    } else {
      ScanSource(last, tail);
      WordStart(last, tail);
      ScanTail(tail);
      assert WordMeaning(last) + [] == WordMeaning(last);
    }
  }

  /**
   * Quoting round trip: separators, correctly quoted words, and one last word up to the end of
   * input or a defect are read back as the words they mean, then the outcome the tail stands for.
   */
  lemma {:induction false} Reads(lead: Bytes, ws: seq<Written>, last: Word, tail: Bytes)
    requires IsGap(lead) && ValidText(ws) && ValidPieces(last) && IsTail(tail)
    ensures Tokenize(SpaceKind(None), lead + (TextSource(ws) + (WordSource(last) + tail)), false)
         == Tokens(TextMeaning(ws) + (if tail == [] then LastMeaning(last) else []), TailOutcome(tail))
  {
    ReadsText(lead, ws, WordSource(last) + tail, false);
    ReadsLast(last, tail);
  }

  /** Tokens come back unchanged, as whole byte strings, exactly when no word means a NUL byte. */
  lemma {:induction false} RoundTripExact(lead: Bytes, ws: seq<Written>)
    requires IsGap(lead) && ValidText(ws)
    ensures
      var items := Tokenize(SpaceKind(None), lead + TextSource(ws), false).items;
      |items| == |ws| &&
      ((forall i | 0 <= i < |ws| :: items[i].text == WordMeaning(ws[i].word))
       <==> (forall i | 0 <= i < |ws| :: NUL !in WordMeaning(ws[i].word)))
  {
    Reads(lead, ws, [], []);
    assert TextSource(ws) + ([] + []) == TextSource(ws);
    assert TextMeaning(ws) + [] == TextMeaning(ws);
    forall i | 0 <= i < |ws|
      ensures TextMeaning(ws)[i].text == CStr(WordMeaning(ws[i].word))
    {
      TextMeaningAt(ws, i);
    }
  }

  // ---------------------------------------------------------------- every input has this form

  /** Splits the separators off an input. */
  lemma {:induction false} TakeGap(s: Bytes) returns (gap: Bytes)
    ensures IsGap(gap) && s == gap + SkipSeparators(s)
    decreases |s|
  {
    if s == [] || !IsSeparator(s[0]) {
      gap := [];
    } else {
      gap := TakeGap(s[1..]);
      assert s == [s[0]] + gap + SkipSeparators(s);
      gap := [s[0]] + gap;
    }
  }

  lemma {:induction false} FindCloseQuote(q: Byte, s: Bytes) returns (body: Bytes, after: Bytes)
    requires IsQuote(q) && Find(q, s) < Find(NEWLINE, s)
    ensures s == body + [q] + after && q !in body && NEWLINE !in body
  {
    body, after := s[..Find(q, s)], s[Find(q, s) + 1..];
    assert s == body + [q] + after;
  }

  /** A word goes on with a valid piece, unless a separator, the end of input or a defect stops it. */
  lemma {:induction false} ReadPiece(s: Bytes) returns (p: Piece, tail: Bytes)
    requires s != [] && !IsSeparator(s[0]) && !IsOpenQuote(s) && s != [BACKSLASH]
    ensures p.Valid() && s == p.Source() + tail
    ensures ScanWord(s) == Prefixed(p.Meaning(), ScanWord(tail))
  {
    if IsQuote(s[0]) {
      var body;
      body, tail := FindCloseQuote(s[0], s[1..]);
      p := Quoted(s[0], body);
    } else if s[0] == BACKSLASH {
      p, tail := Escaped(s[1]), s[2..];
    } else {
      p, tail := Plain(s[0]), s[1..];
    }
    assert s == p.Source() + tail;
    ScanPiece(p, tail);
  }

  lemma {:induction false} WordCons(p: Piece, w: Word, after: Bytes)
    requires p.Valid() && ValidPieces(w)
    ensures ValidPieces([p] + w)
    ensures WordSource([p] + w) + after == p.Source() + (WordSource(w) + after)
    ensures WordMeaning([p] + w) == p.Meaning() + WordMeaning(w)
  {
    assert ([p] + w)[1..] == w;
  }

  /** Any input starts with valid pieces; then comes a separator or one of the tails. */
  lemma {:induction false} ReadPieces(s: Bytes) returns (w: Word, after: Bytes)
    ensures s == WordSource(w) + after && ValidPieces(w)
    ensures IsTail(after) || IsSeparator(after[0])
    ensures w == [] ==> after == s
    decreases |s|
  {
    if s == [] || IsSeparator(s[0]) || s == [BACKSLASH] || IsOpenQuote(s) {
      w, after := [], s;
    } else {
      var p, tail := ReadPiece(s);
      var v;
      v, after := ReadPieces(tail);
      WordCons(p, v, after);
      w := [p] + v;
    }
  }

  lemma {:induction false} ValidCons(first: Written, ws: seq<Written>)
    requires ValidWord(first.word) && first.gap != [] && IsGap(first.gap) && ValidText(ws)
    ensures ValidText([first] + ws)
  {
    var longer := [first] + ws;
    forall i | 0 <= i < |longer|
      ensures ValidWord(longer[i].word) && longer[i].gap != [] && IsGap(longer[i].gap)
    {
      assert longer[i] == if i == 0 then first else ws[i - 1];
    }
  }

  lemma {:induction false} Regroup(a: Bytes, b: Byte, c: Bytes, d: Bytes, e: Bytes)
    ensures a + ([b] + c) + d + e == a + ([b] + (c + (d + e)))
  {
  }

  /** Putting one more word in front of a correct text. */
  lemma {:induction false} TextCons(w: Word, separator: Byte, lead: Bytes, ws: seq<Written>, s: Bytes)
    requires ValidWord(w) && IsSeparator(separator) && IsGap(lead) && ValidText(ws)
    ensures
      var longer := [Written(w, [separator] + lead)] + ws;
      ValidText(longer) && TextSource(longer) + s == WordSource(w) + ([separator] + (lead + (TextSource(ws) + s)))
  {
    var longer := [Written(w, [separator] + lead)] + ws;
    ValidCons(longer[0], ws);
    assert longer[1..] == ws;
    assert TextSource(longer) == WordSource(w) + ([separator] + lead) + TextSource(ws);
    Regroup(WordSource(w), separator, lead, TextSource(ws), s);
  }

  /** Every input is separators, correctly quoted words, a last word and a tail. */
  lemma {:induction false} Decompose(s: Bytes) returns (lead: Bytes, ws: seq<Written>, last: Word, tail: Bytes)
    ensures IsGap(lead) && ValidText(ws) && ValidPieces(last) && IsTail(tail)
    ensures s == lead + (TextSource(ws) + (WordSource(last) + tail))
    decreases |s|
  {
    lead := TakeGap(s);
    var word := SkipSeparators(s);
    var w, after := ReadPieces(word);
    if IsTail(after) {
      ws, last, tail := [], w, after;
      assert TextSource(ws) + word == word;
    } else {
      var gap, ws';
      gap, ws', last, tail := Decompose(after[1..]);
      assert after == [after[0]] + after[1..];
      TextCons(w, after[0], gap, ws', WordSource(last) + tail);
      ws := [Written(w, [after[0]] + gap)] + ws';
    }
  }

  /** Separators, correctly quoted words and then this tail. */
  ghost predicate EndsWith(s: Bytes, tail: Bytes) {
    exists lead: Bytes, ws: seq<Written>, last: Word ::
      IsGap(lead) && ValidText(ws) && ValidPieces(last) && s == lead + (TextSource(ws) + (WordSource(last) + tail))
  }

  lemma {:induction false} EndsWithOutcome(s: Bytes, tail: Bytes)
    requires EndsWith(s, tail) && IsTail(tail)
    ensures Tokenize(SpaceKind(None), s, false).outcome == TailOutcome(tail)
  {
    var lead: Bytes, ws: seq<Written>, last: Word :|
      IsGap(lead) && ValidText(ws) && ValidPieces(last) && s == lead + (TextSource(ws) + (WordSource(last) + tail));
    Reads(lead, ws, last, tail);
  }

  /**
   * Which outcome an input has is exactly which tail it has: a clean end for a correct quoting,
   * the backslash error for a backslash at the very end, the quote error for a quote left open.
   */
  lemma {:induction false} OutcomeIff(s: Bytes)
    ensures
      var outcome := Tokenize(SpaceKind(None), s, false).outcome;
      && (outcome.CleanEnd? <==> EndsWith(s, []))
      && (outcome.BackslashAtEof? <==> EndsWith(s, [BACKSLASH]))
      && (outcome.UnterminatedQuote? <==> exists tail :: EndsWith(s, tail) && IsOpenQuote(tail))
  {
    var lead, ws, last, tail := Decompose(s);
    assert EndsWith(s, tail);
    EndsWithOutcome(s, tail);
    forall t | EndsWith(s, t) && IsTail(t)
      ensures Tokenize(SpaceKind(None), s, false).outcome == TailOutcome(t)
    {
      EndsWithOutcome(s, t);
    }
  }
}
