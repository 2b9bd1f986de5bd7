/** Splitting at a delimiter against joining with it. */
module DelimRoundTrip {
  import opened Bytes
  import opened TokenStep
  import opened DelimSplit
  import opened TokenStream

  /** Each token followed by the delimiter. */
  function Terminated(tokens: seq<Bytes>, d: Byte): Bytes {
    if tokens == [] then [] else tokens[0] + [d] + Terminated(tokens[1..], d)
  }

  /** The tokens with the delimiter between them. */
  function Joined(tokens: seq<Bytes>, d: Byte): Bytes {
    if tokens == [] then []
    else if |tokens| == 1 then tokens[0]
    else tokens[0] + [d] + Joined(tokens[1..], d)
  }

  predicate FreeOf(tokens: seq<Bytes>, d: Byte) {
    forall i | 0 <= i < |tokens| :: d !in tokens[i]
  }

  function Lines(tokens: seq<Bytes>): (r: seq<Item>)
    ensures |r| == |tokens|
  {
    if tokens == [] then [] else [Item(CStr(tokens[0]), true)] + Lines(tokens[1..])
  }

  lemma {:induction false} LinesAt(tokens: seq<Bytes>, i: nat)
    requires i < |tokens|
    ensures Lines(tokens)[i] == Item(CStr(tokens[i]), true)
  {
    if i > 0 {
      LinesAt(tokens[1..], i - 1);
    }
  }

  /** Terminated tokens are read back one by one, empty ones included, whatever follows. */
  lemma {:induction false} ReadsTerminated(tokens: seq<Bytes>, d: Byte, s: Bytes, fails: bool)
    requires FreeOf(tokens, d)
    ensures Tokenize(DelimKind(d), Terminated(tokens, d) + s, fails)
         == Before(Lines(tokens), Tokenize(DelimKind(d), s, fails))
    decreases |tokens|
  {
    var end := Tokenize(DelimKind(d), s, fails);
    if tokens == [] {
      assert [] + s == s && [] + end.items == end.items;
    } else {
      var later := Terminated(tokens[1..], d) + s;
      assert Terminated(tokens, d) + s == tokens[0] + [d] + later;
      StepTakes(d, tokens[0], later, fails);
      TokenizeToken(DelimKind(d), tokens[0] + [d] + later, fails);
      ReadsTerminated(tokens[1..], d, s, fails);
      BeforeBefore([Item(CStr(tokens[0]), true)], Lines(tokens[1..]), end);
    }
  }

  /** Terminator round trip: exactly the tokens, each ending a line, then a clean end. */
  lemma {:induction false} TerminatedRoundTrip(tokens: seq<Bytes>, d: Byte)
    requires FreeOf(tokens, d)
    ensures Tokenize(DelimKind(d), Terminated(tokens, d), false) == Tokens(Lines(tokens), CleanEnd)
  {
    ReadsTerminated(tokens, d, [], false);
    assert Terminated(tokens, d) + [] == Terminated(tokens, d);
  }

  lemma {:induction false} JoinedIsTerminated(tokens: seq<Bytes>, d: Byte)
    requires tokens != []
    ensures Joined(tokens, d) == Terminated(tokens[..|tokens| - 1], d) + tokens[|tokens| - 1]
    decreases |tokens|
  {
    if |tokens| > 1 {
      JoinedIsTerminated(tokens[1..], d);
      assert tokens[..|tokens| - 1][1..] == tokens[1..][..|tokens[1..]| - 1];
    }
  }

  /** What reading an undelimited last part at the end of input yields. */
  function LastPart(d: int, last: Bytes): seq<Item> {
    if last == [] then [] else [Item(CStr(StripNewline(d, last)), false)]
  }

  lemma ReadsLastPart(d: Byte, last: Bytes)
    requires d !in last
    ensures Tokenize(DelimKind(d), last, false) == Tokens(LastPart(d, last), CleanEnd)
  {
    assert Find(d, last) == |last|;
    assert Tokenize(DelimKind(d), [], false) == Tokens([], CleanEnd);
  }

  lemma {:induction false} JoinedReads(tokens: seq<Bytes>, d: Byte)
    requires tokens != [] && FreeOf(tokens, d)
    ensures
      var n := |tokens| - 1;
      Tokenize(DelimKind(d), Joined(tokens, d), false)
      == Tokens(Lines(tokens[..n]) + LastPart(d, tokens[n]), CleanEnd)
  {
    var n := |tokens| - 1;
    JoinedIsTerminated(tokens, d);
    ReadsTerminated(tokens[..n], d, tokens[n], false);
    ReadsLastPart(d, tokens[n]);
  }

  predicate SameTexts(items: seq<Item>, tokens: seq<Bytes>) {
    |items| == |tokens| && forall i | 0 <= i < |items| :: items[i].text == tokens[i]
  }

  /** The last token survives the end of input: it is not empty and loses no newline. */
  predicate Survives(d: Byte, last: Bytes) {
    last != [] && (d == NEWLINE || last[|last| - 1] != NEWLINE)
  }

  lemma SameTextsAppend(a: seq<Item>, ta: seq<Bytes>, b: seq<Item>, tb: seq<Bytes>)
    requires SameTexts(a, ta)
    ensures SameTexts(a + b, ta + tb) <==> SameTexts(b, tb)
  {
    if SameTexts(a + b, ta + tb) {
      assert forall i | 0 <= i < |b| :: b[i] == (a + b)[|a| + i] && tb[i] == (ta + tb)[|a| + i];
    }
  }

  lemma LinesSame(tokens: seq<Bytes>)
    requires FreeOf(tokens, NUL)
    ensures SameTexts(Lines(tokens), tokens)
  {
    forall i | 0 <= i < |tokens|
      ensures Lines(tokens)[i].text == tokens[i]
    {
      LinesAt(tokens, i);
    }
  }

  lemma LastPartIff(d: Byte, last: Bytes)
    requires NUL !in last
    ensures SameTexts(LastPart(d, last), [last]) <==> Survives(d, last)
  {
    if last != [] {
      assert NUL !in StripNewline(d, last);
    }
  }

  lemma FrontAndLast(front: seq<Bytes>, last: Bytes, d: Byte)
    requires FreeOf(front, NUL) && NUL !in last
    ensures SameTexts(Lines(front) + LastPart(d, last), front + [last]) <==> Survives(d, last)
  {
    LinesSame(front);
    SameTextsAppend(Lines(front), front, LastPart(d, last), [last]);
    LastPartIff(d, last);
  }

  lemma SurvivesIff(items: seq<Item>, tokens: seq<Bytes>, d: Byte)
    requires tokens != [] && FreeOf(tokens, NUL)
    requires items == Lines(tokens[..|tokens| - 1]) + LastPart(d, tokens[|tokens| - 1])
    ensures SameTexts(items, tokens) <==> Survives(d, tokens[|tokens| - 1])
  {
    var n := |tokens| - 1;
    FrontAndLast(tokens[..n], tokens[n], d);
    assert tokens[..n] + [tokens[n]] == tokens;
  }

  /** Separator round trip: the joined tokens come back exactly when the last one survives the end of input. */
  lemma {:induction false} JoinedRoundTripIff(tokens: seq<Bytes>, d: Byte)
    requires tokens != [] && FreeOf(tokens, d) && FreeOf(tokens, NUL)
    ensures SameTexts(Tokenize(DelimKind(d), Joined(tokens, d), false).items, tokens)
       <==> Survives(d, tokens[|tokens| - 1])
  {
    JoinedReads(tokens, d);
    SurvivesIff(Tokenize(DelimKind(d), Joined(tokens, d), false).items, tokens, d);
  }

  /** Ending a terminated list with a newline that is not the delimiter adds one empty argument. */
  lemma {:induction false} ExtraNewlineAddsEmptyToken(tokens: seq<Bytes>, d: Byte)
    requires FreeOf(tokens, d) && d != NEWLINE
    ensures Tokenize(DelimKind(d), Terminated(tokens, d) + [NEWLINE], false)
         == Tokens(Lines(tokens) + [Item([], false)], CleanEnd)
  {
    ReadsTerminated(tokens, d, [NEWLINE], false);
    assert d !in [NEWLINE];
    ReadsLastPart(d, [NEWLINE]);
    assert StripNewline(d, [NEWLINE]) == [];
  }

  /** The token texts of an input. */
  function Parts(delim: int, s: Bytes): seq<Bytes> {
    Texts(Tokenize(DelimKind(delim), s, false).items)
  }

  /** The three ways an input can differ from its tokens. */
  predicate Restores(s: Bytes, parts: seq<Bytes>, d: Byte) {
    || s == Terminated(parts, d)
    || (parts != [] && s == Joined(parts, d))
    || (parts != [] && d != NEWLINE && s == Joined(parts, d) + [NEWLINE])
  }

  /** Splitting loses nothing but the final delimiter and at most one newline: rejoining restores the input. */
  lemma {:induction false} RejoiningRestores(d: Byte, s: Bytes)
    requires NUL !in s || d == NUL
    ensures Restores(s, Parts(d, s), d)
    decreases |s|
  {
    var i := Find(d, s);
    if i < |s| {
      var rest := s[i + 1..];
      RejoiningRestores(d, rest);
      PartsCons(d, s);
      RestoresCons(s[..i], rest, Parts(d, rest), d);
    } else {
      PartsLast(d, s);
    }
  }

  lemma PartsCons(d: Byte, s: Bytes)
    requires (NUL !in s || d == NUL) && Find(d, s) < |s|
    ensures s == s[..Find(d, s)] + [d] + s[Find(d, s) + 1..]
    ensures Parts(d, s) == [s[..Find(d, s)]] + Parts(d, s[Find(d, s) + 1..])
  {
    var i := Find(d, s);
    SplitAt(s, i);
    NoNulBefore(d, s);
    TokenizeToken(DelimKind(d), s, false);
    TextsCons(Item(s[..i], true), Tokenize(DelimKind(d), s[i + 1..], false).items);
  }

  lemma SplitAt(s: Bytes, i: nat)
    requires i < |s|
    ensures s == s[..i] + [s[i]] + s[i + 1..]
  {
  }

  lemma NoNulBefore(d: Byte, s: Bytes)
    requires NUL !in s || d == NUL
    ensures NUL !in s[..Find(d, s)]
  {
  }

  lemma TextsCons(item: Item, items: seq<Item>)
    ensures Texts([item] + items) == [item.text] + Texts(items)
  {
    assert ([item] + items)[1..] == items;
  }

  lemma {:induction false} PartsLast(d: Byte, s: Bytes)
    requires (NUL !in s || d == NUL) && Find(d, s) == |s|
    ensures Restores(s, Parts(d, s), d)
  {
    ReadsLastPart(d, s);
    if s != [] {
      var kept := StripNewline(d, s);
      assert NUL !in kept;
      assert Texts([Item(kept, false)]) == [kept];
      assert s == kept || s == kept + [NEWLINE];
    }
  }

  lemma RestoresCons(part: Bytes, s: Bytes, parts: seq<Bytes>, d: Byte)
    requires Restores(s, parts, d)
    ensures Restores(part + [d] + s, [part] + parts, d)
  {
    var longer := [part] + parts;
    assert longer[1..] == parts;
    if parts != [] && s == Joined(parts, d) + [NEWLINE] {
      assert part + [d] + s == (part + [d] + Joined(parts, d)) + [NEWLINE];
    }
  }

  /** A delimiter that, as a signed char, is negative matches no byte: the whole input is one token. */
  lemma NegativeDelimiterNeverMatches(delim: int, s: Bytes)
    requires delim < 0 && s != [] && NUL !in s
    ensures Parts(delim, s) == [if s[|s| - 1] == NEWLINE then s[..|s| - 1] else s]
  {
    assert Find(delim, s) == |s|;
    var kept := StripNewline(delim, s);
    assert NUL !in kept;
    assert Tokenize(DelimKind(delim), [], false) == Tokens([], CleanEnd);
    assert Tokenize(DelimKind(delim), s, false).items == [Item(kept, false)];
    assert Texts([Item(kept, false)]) == [kept];
  }
}
