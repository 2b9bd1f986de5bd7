/**
 * The logical end-of-input marker (-E): what it cuts off, and that nothing after it is looked at.
 */
module LogicalEof {
  import opened Bytes
  import opened TokenStep
  import opened SpaceGrammar
  import opened TokenStream
  import Quoting

  /** Where the first item with this text is, or |items|. */
  function FirstWith(items: seq<Item>, text: CString): (i: nat)
    ensures i <= |items|
    ensures i < |items| ==> items[i].text == text
    ensures forall k | 0 <= k < i :: items[k].text != text
  {
    if items == [] || items[0].text == text then 0 else 1 + FirstWith(items[1..], text)
  }

  lemma FirstWithCons(item: Item, items: seq<Item>, text: CString)
    ensures
      var i := FirstWith(items, text);
      if item.text == text then FirstWith([item] + items, text) == 0 && ([item] + items)[..0] == []
      else FirstWith([item] + items, text) == 1 + i && ([item] + items)[..1 + i] == [item] + items[..i]
  {
    assert ([item] + items)[1..] == items;
  }

  lemma StepWithMarker(marker: CString, s: Bytes, fails: bool)
    ensures
      var plain := SpaceStep(None, s, fails);
      SpaceStep(Some(marker), s, fails)
      == if plain.Token? && plain.text == marker then Stop(Marker, plain.lineEnds, plain.rest) else plain
  {
  }

  /**
   * With a marker the tokens are those before the first token equal to it, and the outcome is
   * Marker; when no token equals it, the marker changes nothing at all.
   */
  lemma {:induction false} MarkerCuts(marker: CString, s: Bytes, fails: bool)
    ensures
      var plain := Tokenize(SpaceKind(None), s, fails);
      var i := FirstWith(plain.items, marker);
      Tokenize(SpaceKind(Some(marker)), s, fails)
      == if i < |plain.items| then Tokens(plain.items[..i], Marker) else plain
    decreases |s|
  {
    var step := NextStep(SpaceKind(None), s, fails);
    StepWithMarker(marker, s, fails);
    if step.Token? {
      var later := Tokenize(SpaceKind(None), step.rest, fails).items;
      FirstWithCons(ItemOf(step), later, marker);
      if step.text != marker {
        MarkerCuts(marker, step.rest, fails);
      }
    }
  }

  // ---------------------------------------------------------------- bytes after the marker

  predicate IsSuffix(r: Bytes, s: Bytes) {
    |r| <= |s| && s[|s| - |r|..] == r
  }

  /** s without its suffix r */
  function Read(s: Bytes, r: Bytes): Bytes
    requires |r| <= |s|
  {
    s[..|s| - |r|]
  }

  predicate StopsAtSeparator(scan: Scan) {
    scan.end.AtBlank? || scan.end.AtNewline?
  }

  lemma SuffixTrans(a: Bytes, b: Bytes, c: Bytes)
    requires IsSuffix(a, b) && IsSuffix(b, c)
    ensures IsSuffix(a, c)
  {
    assert c == Read(c, b) + b && b == Read(b, a) + a;
  }

  lemma ReadSplit(a: Bytes, b: Bytes, c: Bytes, t: Bytes)
    requires IsSuffix(a, b) && IsSuffix(b, c)
    ensures IsSuffix(a, c) && Read(c, a) + t == Read(c, b) + (Read(b, a) + t)
  {
    SuffixTrans(a, b, c);
    assert c == Read(c, b) + (Read(b, a) + a);
    assert Read(c, a) == Read(c, b) + Read(b, a);
  }

  /** Putting something else in place of what is unread leaves the first byte read, and the rest of it. */
  lemma ReadCons(s: Bytes, rest: Bytes, t: Bytes)
    requires s != [] && IsSuffix(rest, s[1..])
    ensures IsSuffix(rest, s)
    ensures (Read(s, rest) + t) != [] && (Read(s, rest) + t)[0] == s[0]
    ensures (Read(s, rest) + t)[1..] == Read(s[1..], rest) + t
  {
    assert s[1..][|s| - 1 - |rest|..] == s[|s| - |rest|..];
  }

  /** A word that ended at a separator would have been read the same whatever came after. */
  lemma {:induction false} WordIgnoresRest(s: Bytes, t: Bytes)
    requires StopsAtSeparator(ScanWord(s))
    ensures IsSuffix(ScanWord(s).rest, s)
    ensures ScanWord(Read(s, ScanWord(s).rest) + t) == ScanWord(s).(rest := t)
    decreases |s|
  {
    var rest, tail := ScanWord(s).rest, s[1..];
    if !IsSeparator(s[0]) {
      if IsQuote(s[0]) {
        QuotedIgnoresRest(s[0], tail, t);
      } else if s[0] == BACKSLASH {
        assert ScanWord(s) == ScanEscaped(tail);
        EscapedIgnoresRest(tail, t);
      } else {
        WordIgnoresRest(tail, t);
      }
    } else {
      assert rest == tail && Read(tail, rest) + t == t;
    }
    ReadCons(s, rest, t);
  }

  lemma {:induction false} EscapedIgnoresRest(s: Bytes, t: Bytes)
    requires StopsAtSeparator(ScanEscaped(s))
    ensures IsSuffix(ScanEscaped(s).rest, s)
    ensures ScanEscaped(Read(s, ScanEscaped(s).rest) + t) == ScanEscaped(s).(rest := t)
    decreases |s|
  {
    var rest := ScanEscaped(s).rest;
    WordIgnoresRest(s[1..], t);
    ReadCons(s, rest, t);
  }

  lemma {:induction false} QuotedIgnoresRest(q: Byte, s: Bytes, t: Bytes)
    requires StopsAtSeparator(ScanQuoted(q, s))
    ensures IsSuffix(ScanQuoted(q, s).rest, s)
    ensures ScanQuoted(q, Read(s, ScanQuoted(q, s).rest) + t) == ScanQuoted(q, s).(rest := t)
    decreases |s|
  {
    var rest, tail := ScanQuoted(q, s).rest, s[1..];
    if s[0] == q {
      WordIgnoresRest(tail, t);
    } else {
      QuotedIgnoresRest(q, tail, t);
    }
    ReadCons(s, rest, t);
  }

  lemma SkipIgnoresRest(s: Bytes, n: nat, t: Bytes)
    requires SkipSeparators(s) != [] && |s| - |SkipSeparators(s)| < n <= |s|
    ensures IsSuffix(SkipSeparators(s), s)
    ensures SkipSeparators(s[..n] + t) == SkipSeparators(s)[..n - (|s| - |SkipSeparators(s)|)] + t
  {
    var gap := Quoting.TakeGap(s);
    var word := SkipSeparators(s)[..n - |gap|] + t;
    assert s[..n] + t == gap + word;
    Quoting.SkipGap(gap, word);
  }

  lemma FinishIgnoresRest(marker: Option<CString>, scan: Scan, fails: bool, t: Bytes, fails': bool)
    requires StopsAtSeparator(scan)
    ensures Finish(marker, scan.(rest := t), fails') == Finish(marker, scan, fails).(rest := t)
  {
  }

  /** The word a call reads stops at a separator, not at the end of input or at a defect. */
  predicate ReadsToSeparator(s: Bytes) {
    StopsAtSeparator(ScanWord(SkipSeparators(s)))
  }

  /** A call that read up to a separator would have done the same on any other input after it. */
  lemma StepIgnoresRest(marker: Option<CString>, s: Bytes, fails: bool, t: Bytes, fails': bool)
    requires ReadsToSeparator(s)
    ensures
      var step := SpaceStep(marker, s, fails);
      IsSuffix(step.rest, s) && SpaceStep(marker, Read(s, step.rest) + t, fails') == step.(rest := t)
  {
    var word := SkipSeparators(s);
    var scan := ScanWord(word);
    WordIgnoresRest(word, t);
    var n := |s| - |scan.rest|;
    SkipIgnoresRest(s, n, t);
    SuffixTrans(scan.rest, word, s);
    var word' := Read(word, scan.rest) + t;
    assert word[..n - (|s| - |word|)] == Read(word, scan.rest);
    assert SkipSeparators(Read(s, scan.rest) + t) == word';
    assert ScanWord(word') == scan.(rest := t);
    FinishIgnoresRest(marker, scan, fails, t, fails');
  }

  /** What the call that returned NULL left unread. */
  function Unread(kind: Kind, s: Bytes, fails: bool): Bytes
    decreases |s|
  {
    match NextStep(kind, s, fails)
    case Token(_, _, rest) => Unread(kind, rest, fails)
    case Stop(_, _, rest) => rest
  }

  /** What the call that returned NULL was given. */
  function LastRead(kind: Kind, s: Bytes, fails: bool): Bytes
    decreases |s|
  {
    var step := NextStep(kind, s, fails);
    if step.Token? then LastRead(kind, step.rest, fails) else s
  }

  /** A token that the end of input ended is the last one: no marker follows it. */
  lemma NoMarkerAfterEnd(marker: CString, s: Bytes, fails: bool)
    requires SpaceStep(Some(marker), s, fails).Token?
    requires Tokenize(SpaceKind(Some(marker)), s, fails).outcome.Marker?
    ensures ReadsToSeparator(s)
  {
    assert !Tokenize(SpaceKind(Some(marker)), [], fails).outcome.Marker?;
  }

  // ---------------------------------------------------------------- a marker ended by the end of input

  /** A word that ended with the input goes on with whatever is put after it. */
  lemma {:induction false} WordGoesOn(s: Bytes, t: Bytes)
    requires ScanWord(s).end.AtEof?
    ensures ScanWord(s + t) == Prefixed(ScanWord(s).text, ScanWord(t))
    decreases |s|
  {
    var more := ScanWord(t);
    if s == [] {
      assert s + t == t && [] + more.text == more.text;
    } else {
      assert (s + t)[1..] == s[1..] + t;
      if IsQuote(s[0]) {
        QuotedGoesOn(s[0], s[1..], t);
      } else if s[0] == BACKSLASH {
        EscapedGoesOn(s[1..], t);
      } else {
        WordGoesOn(s[1..], t);
        assert [s[0]] + (ScanWord(s[1..]).text + more.text) == ScanWord(s).text + more.text;
      }
    }
  }

  lemma {:induction false} EscapedGoesOn(s: Bytes, t: Bytes)
    requires ScanEscaped(s).end.AtEof?
    ensures ScanEscaped(s + t) == Prefixed(ScanEscaped(s).text, ScanWord(t))
    decreases |s|
  {
    var more := ScanWord(t);
    assert (s + t)[1..] == s[1..] + t;
    WordGoesOn(s[1..], t);
    assert [s[0]] + (ScanWord(s[1..]).text + more.text) == ScanEscaped(s).text + more.text;
  }

  lemma {:induction false} QuotedGoesOn(q: Byte, s: Bytes, t: Bytes)
    requires ScanQuoted(q, s).end.AtEof?
    ensures ScanQuoted(q, s + t) == Prefixed(ScanQuoted(q, s).text, ScanWord(t))
    decreases |s|
  {
    var more := ScanWord(t);
    assert (s + t)[1..] == s[1..] + t;
    if s[0] == q {
      WordGoesOn(s[1..], t);
    } else {
      QuotedGoesOn(q, s[1..], t);
      assert [s[0]] + (ScanQuoted(q, s[1..]).text + more.text) == ScanQuoted(q, s).text + more.text;
    }
  }

  /** The word of a call, its end aside, when it ended with the input. */
  lemma {:induction false} StepGoesOn(marker: CString, s: Bytes, fails: bool, t: Bytes, fails': bool)
    requires SpaceStep(Some(marker), s, fails).Stop? && SpaceStep(Some(marker), s, fails).outcome.Marker?
    requires !ReadsToSeparator(s)
    ensures
      var text := ScanWord(SkipSeparators(s)).text;
      && CStr(text) == marker && SpaceStep(Some(marker), s, fails).rest == []
      && SpaceStep(Some(marker), s + t, fails') == Finish(Some(marker), Prefixed(text, ScanWord(t)), fails')
  {
    var word := SkipSeparators(s);
    var gap := Quoting.TakeGap(s);
    assert s + t == gap + (word + t);
    Quoting.SkipGap(gap, word + t);
    assert (word + t)[0] == word[0];
    WordGoesOn(word, t);
  }

  /**
   * The word just read is still the marker when t takes the place of what is unread: the separator that
   * ended it has been read, or what t adds to the word leaves it the same C string and ends it properly.
   */
  predicate Stands(marker: CString, s: Bytes, t: Bytes, fails: bool) {
    ReadsToSeparator(s) ||
    var more := ScanWord(t);
    && (StopsAtSeparator(more) || (more.end.AtEof? && !fails))
    && CStr(ScanWord(SkipSeparators(s)).text + more.text) == marker
  }

  /** So it is if t is empty or starts with a separator. */
  lemma {:induction false} StandsBeforeSeparator(marker: CString, s: Bytes, fails: bool, t: Bytes, fails': bool)
    requires SpaceStep(Some(marker), s, fails).Stop? && SpaceStep(Some(marker), s, fails).outcome.Marker?
    requires if t == [] then !fails' else IsSeparator(t[0])
    ensures Stands(marker, s, t, fails')
  {
    if !ReadsToSeparator(s) {
      var text := ScanWord(SkipSeparators(s)).text;
      assert text + ScanWord(t).text == text;
    }
  }

  /** The call that read a marker ended by the end of input, given t after it. */
  lemma {:induction false} LastWordStands(marker: CString, s: Bytes, fails: bool, t: Bytes, fails': bool)
    requires SpaceStep(Some(marker), s, fails).Stop? && SpaceStep(Some(marker), s, fails).outcome.Marker?
    requires !ReadsToSeparator(s)
    ensures
      var kind, unread := SpaceKind(Some(marker)), SpaceStep(Some(marker), s, fails).rest;
      && IsSuffix(unread, s)
      && (Tokenize(kind, Read(s, unread) + t, fails') == Tokens([], Marker) <==> Stands(marker, s, t, fails'))
  {
    StepGoesOn(marker, s, fails, t, fails');
    assert Read(s, []) == s;
    NothingButMarker(marker, s + t, fails');
    FinishesAtMarker(marker, Prefixed(ScanWord(SkipSeparators(s)).text, ScanWord(t)), fails');
  }

  lemma {:induction false} NothingButMarker(marker: CString, s: Bytes, fails: bool)
    ensures
      var step := SpaceStep(Some(marker), s, fails);
      Tokenize(SpaceKind(Some(marker)), s, fails) == Tokens([], Marker) <==> step.Stop? && step.outcome.Marker?
  {
  }

  lemma {:induction false} FinishesAtMarker(marker: CString, scan: Scan, fails: bool)
    ensures
      var step := Finish(Some(marker), scan, fails);
      step.Stop? && step.outcome.Marker?
      <==> (StopsAtSeparator(scan) || (scan.end.AtEof? && !fails)) && CStr(scan.text) == marker
  {
  }

  /** Two streams that start with the same item are the same exactly if their rests are. */
  lemma {:induction false} SameHead(item: Item, a: Tokens, b: Tokens)
    ensures Before([item], a) == Before([item], b) <==> a == b
  {
    assert ([item] + a.items)[1..] == a.items && ([item] + b.items)[1..] == b.items;
  }

  /**
   * Once the marker has been read, neither the bytes after it nor an I/O error after it can change any
   * token or the outcome: replacing everything unread gives the same result, exactly if the word read
   * still is the marker. A marker ended by a separator always is; one ended by the end of input is, if
   * nothing or a separator comes to follow it.
   */
  lemma {:induction false} NothingAfterMarkerMatters(
    marker: CString, s: Bytes, fails: bool, t: Bytes, fails': bool)
    requires Tokenize(SpaceKind(Some(marker)), s, fails).outcome.Marker?
    ensures
      var kind, unread := SpaceKind(Some(marker)), Unread(SpaceKind(Some(marker)), s, fails);
      && IsSuffix(unread, s)
      && (Tokenize(kind, Read(s, unread) + t, fails') == Tokenize(kind, s, fails)
          <==> Stands(marker, LastRead(kind, s, fails), t, fails'))
    decreases |s|
  {
    var kind := SpaceKind(Some(marker));
    var step, unread := SpaceStep(Some(marker), s, fails), Unread(kind, s, fails);
    if step.Token? {
      NoMarkerAfterEnd(marker, s, fails);
      NothingAfterMarkerMatters(marker, step.rest, fails, t, fails');
      var t' := Read(step.rest, unread) + t;
      StepIgnoresRest(Some(marker), s, fails, t', fails');
      ReadSplit(unread, step.rest, s, t);
      TokenizeToken(kind, s, fails);
      TokenizeToken(kind, Read(s, step.rest) + t', fails');
      SameHead(ItemOf(step), Tokenize(kind, t', fails'), Tokenize(kind, step.rest, fails));
    } else if ReadsToSeparator(s) {
      StepIgnoresRest(Some(marker), s, fails, t, fails');
    } else {
      LastWordStands(marker, s, fails, t, fails');
    }
  }
}
