/** What one next_token call yields, and what all of them together yield. */
module TokenStream {
  import opened Bytes
  import SpaceGrammar
  import DelimSplit
  import opened TokenStep

  /** Which of the two tokenizers the options select. */
  datatype Kind =
    | SpaceKind(marker: Option<CString>)
    | DelimKind(delim: int)

  /** A delivered token; lineEnds says whether its call also reported an input boundary. */
  datatype Item = Item(text: CString, lineEnds: bool)

  datatype Tokens = Tokens(items: seq<Item>, outcome: Outcome)

  function NextStep(kind: Kind, s: Bytes, fails: bool): (r: Step)
    ensures |r.rest| <= |s|
    ensures r.Token? ==> |r.rest| < |s|
  {
    match kind
    case SpaceKind(marker) => SpaceGrammar.SpaceStep(marker, s, fails)
    case DelimKind(delim) => DelimSplit.DelimStep(delim, s, fails)
  }

  /** The tokens of a whole input, up to the call that returns NULL. */
  function Tokenize(kind: Kind, s: Bytes, fails: bool): Tokens
    decreases |s|
  {
    match NextStep(kind, s, fails)
    case Token(text, lineEnds, rest) =>
      var later := Tokenize(kind, rest, fails);
      Tokens([Item(text, lineEnds)] + later.items, later.outcome)
    case Stop(outcome, _, _) =>
      Tokens([], outcome)
  }

  /** The same stream with these items in front. */
  function Before(items: seq<Item>, tokens: Tokens): Tokens {
    tokens.(items := items + tokens.items)
  }

  lemma BeforeBefore(a: seq<Item>, b: seq<Item>, tokens: Tokens)
    ensures Before(a, Before(b, tokens)) == Before(a + b, tokens)
  {
    assert a + (b + tokens.items) == a + b + tokens.items;
  }

  function ItemOf(step: Step): Item
    requires step.Token?
  {
    Item(step.text, step.lineEnds)
  }

  lemma TokenizeToken(kind: Kind, s: Bytes, fails: bool)
    requires NextStep(kind, s, fails).Token?
    ensures
      var step := NextStep(kind, s, fails);
      Tokenize(kind, s, fails) == Before([ItemOf(step)], Tokenize(kind, step.rest, fails))
  {
  }

  /**
   * When reading fails, the input is never taken to have ended: the call that meets the failure says so,
   * unless the marker or a quote left open at a newline came first.
   */
  lemma {:induction false} FailureIsSeen(kind: Kind, s: Bytes)
    ensures
      var outcome := Tokenize(kind, s, true).outcome;
      && (kind.DelimKind? ==> outcome == IoError)
      && (outcome == IoError || outcome == UnterminatedQuote || outcome == Marker)
      && (Tokenize(kind, s, false).outcome in {CleanEnd, BackslashAtEof} ==> outcome == IoError)
    decreases |s|
  {
    var step := NextStep(kind, s, true);
    if step.Token? {
      FailureIsSeen(kind, step.rest);
    }
  }

  function Texts(items: seq<Item>): (r: seq<CString>)
    ensures |r| == |items|
  {
    if items == [] then [] else [items[0].text] + Texts(items[1..])
  }
}
