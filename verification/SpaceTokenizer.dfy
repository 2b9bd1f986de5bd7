/** The six-state machine of the default tokenizer, proved to do what SpaceGrammar.SpaceStep says. */
module SpaceTokenizer {
  import opened Bytes
  import opened TokenStep
  import opened SpaceGrammar
  import opened Tokenizers

  datatype State = NoToken | NoTokenEscape | InToken | InQuotedToken | InTokenQuoted | InTokenEscape

  /** What the rest of the input adds to a word that has begun. */
  ghost function Resume(state: State, quote: Byte, s: Bytes): Scan
    requires state != NoToken
  {
    match state
    case InToken => ScanWord(s)
    case InQuotedToken | InTokenQuoted => ScanQuoted(quote, s)
    case NoTokenEscape | InTokenEscape => ScanEscaped(s)
  }

  class SpaceTokenizer {
    const base: Tokenizer
    var state: State
    var quoteChar: Byte
    var tokenStart: nat
    const marker: Option<CString>
    const boundary: LineCounter
    ghost var Repr: set<object>

    ghost predicate Valid()
      reads this, Repr
      ensures Valid() ==> this in Repr
    {
      && this in Repr && base in Repr && base.Repr <= Repr && this !in base.Repr
      && boundary !in Repr
      && base.Valid()
      && tokenStart <= |base.Contents()|
    }

    /** The bytes of the token being read. */
    ghost function Text(): Bytes
      requires Valid()
      reads this, Repr
    {
      base.Contents()[tokenStart..]
    }

    /** Between calls: no token begun, nothing in the buffer, no error so far. */
    ghost predicate Ready()
      reads this, Repr
    {
      Valid() && state.NoToken? && base.Contents() == [] && tokenStart == 0 && base.err == ErrNone
    }

    constructor (bufferSize: nat, marker: Option<CString>, boundary: LineCounter)
      ensures Ready() && fresh(Repr)
      ensures this.marker == marker && this.boundary == boundary
    {
      this.marker := marker;
      this.boundary := boundary;
      base := new Tokenizer(bufferSize);
      state := NoToken;
      quoteChar := NUL;
      tokenStart := 0;
      new;
      Repr := {this} + base.Repr;
    }

    method ResetToNoToken()
      requires Valid()
      modifies Repr
      ensures Valid() && fresh(Repr - old(Repr))
      ensures base.err == old(base.err)
      ensures state.NoToken? && base.Contents() == [] && tokenStart == 0
    {
      base.Reset();
      state := NoToken;
      quoteChar := NUL;
      tokenStart := 0;
    }

    method StartQuotedToken(quote: Byte)
      requires Valid()
      modifies Repr
      ensures Valid() && fresh(Repr - old(Repr))
      ensures base.err == old(base.err)
      ensures state.InQuotedToken? && quoteChar == quote && Text() == []
    {
      state := InQuotedToken;
      quoteChar := quote;
      tokenStart := base.Pos();
    }

    method StartNoTokenEscape()
      requires Valid()
      modifies Repr
      ensures Valid() && fresh(Repr - old(Repr))
      ensures base.err == old(base.err)
      ensures state.NoTokenEscape? && Text() == []
    {
      state := NoTokenEscape;
      tokenStart := base.Pos();
    }

    method AppendToToken(ch: Byte)
      requires Valid()
      modifies Repr
      ensures Valid() && fresh(Repr - old(Repr))
      ensures base.err == old(base.err) && state == old(state) && quoteChar == old(quoteChar)
      ensures Text() == old(Text()) + [ch]
    {
      base.Add(ch);
      Repr := Repr + base.Repr;
    }

    method StartToken(ch: Byte)
      requires Valid()
      modifies Repr
      ensures Valid() && fresh(Repr - old(Repr))
      ensures base.err == old(base.err)
      ensures state.InToken? && Text() == [ch]
    {
      state := InToken;
      tokenStart := base.Pos();
      AppendToToken(ch);
    }

    method EndEscape(ch: Byte)
      requires Valid()
      modifies Repr
      ensures Valid() && fresh(Repr - old(Repr))
      ensures base.err == old(base.err)
      ensures state.InToken? && Text() == old(Text()) + [ch]
    {
      state := InToken;
      AppendToToken(ch);
    }

    /** Delivers the token as the C string it is, unless it is the marker, and starts afresh. */
    method EndToken() returns (out: Option<CString>)
      requires Valid() && base.err == ErrNone
      modifies Repr
      ensures Ready() && fresh(Repr - old(Repr))
      ensures out == if marker == Some(CStr(old(Text()))) then None else Some(CStr(old(Text())))
    {
      ghost var text := Text();
      base.Add(NUL);
      Repr := Repr + base.Repr;
      base.TokenIsText(tokenStart);
      assert base.Contents()[tokenStart..base.Pos() - 1] == text;
      var token := base.Token(tokenStart);
      ResetToNoToken();
      if marker == Some(token) {
        return None;
      }
      return Some(token);
    }

    method HandleNoTokenChar(ch: Byte, lineHasToken: bool, ghost after: Bytes) returns (has: bool)
      requires Valid() && state.NoToken?
      modifies Repr
      ensures Valid() && fresh(Repr - old(Repr)) && base.err == old(base.err)
      ensures IsSeparator(ch) ==> state.NoToken? && has == lineHasToken && Text() == old(Text())
      ensures IsSeparator(ch) ==> base.Contents() == old(base.Contents()) && tokenStart == old(tokenStart)
      ensures !IsSeparator(ch) ==>
        !state.NoToken? && has && Prefixed(Text(), Resume(state, quoteChar, after)) == ScanWord([ch] + after)
    {
      if IsSeparator(ch) {
        return lineHasToken;
      }
      if IsQuote(ch) {
        StartQuotedToken(ch);
      } else if ch == BACKSLASH {
        StartNoTokenEscape();
      } else {
        StartToken(ch);
      }
      assert ([ch] + after)[1..] == after;
      assert [] + Resume(state, quoteChar, after).text == Resume(state, quoteChar, after).text;
      return true;
    }

    method HandleInTokenChar(ch: Byte, lineHasToken: bool, ghost after: Bytes)
      returns (done: bool, out: Option<CString>)
      requires Valid() && state.InToken? && base.err == ErrNone
      modifies Repr, boundary
      ensures Valid() && fresh(Repr - old(Repr)) && base.err == ErrNone
      ensures done == IsSeparator(ch)
      ensures boundary.count == old(boundary.count) + (if ch == NEWLINE && lineHasToken then 1 else 0)
      ensures done ==>
        Ready() && out == if marker == Some(CStr(old(Text()))) then None else Some(CStr(old(Text())))
      ensures !done ==>
        && !state.NoToken?
        && Prefixed(Text(), Resume(state, quoteChar, after)) == Prefixed(old(Text()), ScanWord([ch] + after))
    {
      assert ([ch] + after)[1..] == after;
      if IsBlank(ch) {
        out := EndToken();
        return true, out;
      }
      if ch == NEWLINE {
        if lineHasToken {
          boundary.Increment();
        }
        out := EndToken();
        return true, out;
      }
      if IsQuote(ch) {
        state := InTokenQuoted;
        quoteChar := ch;
      } else if ch == BACKSLASH {
        state := InTokenEscape;
      } else {
        ghost var text := Text();
        AppendToToken(ch);
        assert text + ([ch] + ScanWord(after).text) == (text + [ch]) + ScanWord(after).text;
      }
      return false, None;
    }

    method HandleQuotedChar(ch: Byte, ghost after: Bytes) returns (done: bool, out: Option<CString>)
      requires Valid() && (state.InQuotedToken? || state.InTokenQuoted?) && base.err == ErrNone
      modifies Repr
      ensures Valid() && fresh(Repr - old(Repr))
      ensures done == (ch != old(quoteChar) && ch == NEWLINE)
      ensures done ==> out.None? && base.err == ErrUnterminatedQuote
      ensures !done ==>
        && !state.NoToken? && base.err == ErrNone
        && Prefixed(Text(), Resume(state, quoteChar, after))
           == Prefixed(old(Text()), Resume(old(state), old(quoteChar), [ch] + after))
    {
      assert ([ch] + after)[1..] == after;
      if ch == quoteChar {
        state := InToken;
        return false, None;
      }
      if ch == NEWLINE {
        base.SetError(ErrUnterminatedQuote);
        return true, None;
      }
      ghost var text, q := Text(), quoteChar;
      AppendToToken(ch);
      assert text + ([ch] + ScanQuoted(q, after).text) == (text + [ch]) + ScanQuoted(q, after).text;
      return false, None;
    }

    method HandleEof(source: ByteSource, lineHasToken: bool) returns (out: Option<CString>)
      requires Valid() && base.err == ErrNone && lineHasToken == !state.NoToken?
      modifies Repr, boundary
      ensures Valid() && fresh(Repr - old(Repr))
      ensures
        var step :=
          if old(state).NoToken? then Stop(if source.fails then IoError else CleanEnd, false, [])
          else Finish(marker, Prefixed(old(Text()), Resume(old(state), old(quoteChar), [])), source.fails);
        && out == (if step.Token? then Some(step.text) else None)
        && boundary.count == old(boundary.count) + (if step.lineEnds then 1 else 0)
        && base.err == (if step.Token? then ErrNone else ErrorOf(step.outcome))
        && (step.Token? ==> Ready())
    {
      ghost var text := Text();
      assert text + [] == text;
      if source.Ferror() {
        base.SetError(ErrIo);
        return None;
      }
      if state.InTokenEscape? || state.NoTokenEscape? {
        base.SetError(ErrBackslashAtEof);
        return None;
      }
      if state.InQuotedToken? || state.InTokenQuoted? {
        base.SetError(ErrUnterminatedQuote);
        return None;
      }
      if lineHasToken {
        boundary.Increment();
        out := EndToken();
        return out;
      }
      return None;
    }

    /** EndEscape, with what it leaves of the word. */
    method ExtendEscape(ch: Byte, ghost after: Bytes)
      requires Valid() && (state.NoTokenEscape? || state.InTokenEscape?)
      modifies Repr
      ensures Valid() && fresh(Repr - old(Repr)) && base.err == old(base.err)
      ensures state.InToken?
      ensures Prefixed(Text(), ScanWord(after)) == Prefixed(old(Text()), ScanEscaped([ch] + after))
    {
      ghost var text := Text();
      EndEscape(ch);
      assert ([ch] + after)[1..] == after;
      assert text + ([ch] + ScanWord(after).text) == (text + [ch]) + ScanWord(after).text;
    }

    /** The loop's invariant: how the machine stands in the word it is reading, unread being what comes next. */
    ghost predicate Tracks(unread: Bytes, word: Bytes)
      requires Valid()
      reads this, Repr
    {
      if state.NoToken? then
        base.Contents() == [] && tokenStart == 0 && SkipSeparators(unread) == word
      else
        word != [] && Prefixed(Text(), Resume(state, quoteChar, unread)) == ScanWord(word)
    }

    /** What a call that returns leaves behind. */
    ghost predicate Did(step: Step, out: Option<CString>)
      reads this, Repr
    {
      && Valid()
      && out == (if step.Token? then Some(step.text) else None)
      && base.err == (if step.Token? then ErrNone else ErrorOf(step.outcome))
      && (step.Token? ==> Ready())
    }

    /** The switch over the states, for one byte. */
    method HandleChar(ch: Byte, lineHasToken: bool, ghost after: Bytes, ghost word: Bytes, ghost fails: bool)
      returns (done: bool, out: Option<CString>, has: bool)
      requires Valid() && base.err == ErrNone && lineHasToken == !state.NoToken? && Tracks([ch] + after, word)
      modifies Repr, boundary
      ensures Valid() && fresh(Repr - old(Repr))
      ensures !done ==> base.err == ErrNone && has == !state.NoToken? && Tracks(after, word)
      ensures !done ==> boundary.count == old(boundary.count)
      ensures done ==>
        var step := Finish(marker, ScanWord(word), fails);
        && word != [] && step.rest == after && Did(step, out)
        && boundary.count == old(boundary.count) + (if step.lineEnds then 1 else 0)
    {
      assert ([ch] + after)[1..] == after;
      done, out, has := false, None, lineHasToken;
      match state {
        case NoToken =>
          has := HandleNoTokenChar(ch, lineHasToken, after);
        case NoTokenEscape =>
          ExtendEscape(ch, after);
        case InToken =>
          ghost var text := Text();
          assert text + [] == text;
          done, out := HandleInTokenChar(ch, lineHasToken, after);
        case InQuotedToken =>
          done, out := HandleQuotedChar(ch, after);
        case InTokenQuoted =>
          done, out := HandleQuotedChar(ch, after);
        case InTokenEscape =>
          ExtendEscape(ch, after);
      }
    }

    /** One call of next_token: exactly one SpaceStep of the input that was left. */
    method NextToken(source: ByteSource) returns (out: Option<CString>)
      requires Ready() && source.Valid() && source !in Repr
      modifies Repr, source, boundary
      ensures fresh(Repr - old(Repr)) && source.Valid()
      ensures
        var step := SpaceStep(marker, old(source.Rest()), source.fails);
        && Did(step, out)
        && source.Rest() == step.rest
        && boundary.count == old(boundary.count) + (if step.lineEnds then 1 else 0)
    {
      ghost var unread := source.Rest();
      ghost var word := SkipSeparators(unread);
      var lineHasToken := false;
      var ch := source.Getc();
      while ch != EOF
        invariant Valid() && fresh(Repr - old(Repr)) && source.Valid() && source !in Repr
        invariant boundary.count == old(boundary.count) && base.err == ErrNone
        invariant ch == EOF ==> unread == [] && source.Rest() == []
        invariant ch != EOF ==> 0 <= ch < 256 && unread == [ch] + source.Rest()
        invariant lineHasToken == !state.NoToken?
        invariant Tracks(unread, word)
        decreases |unread|
      {
        var done;
        ghost var after := source.Rest();
        done, out, lineHasToken := HandleChar(ch, lineHasToken, after, word, source.fails);
        if done {
          return;
        }
        unread := after;
        ch := source.Getc();
      }
      out := HandleEof(source, lineHasToken);
    }
  }
}
