/** The -d / -0 tokenizer's byte loop, proved to do what DelimSplit.DelimStep says. */
module DelimTokenizer {
  import opened Bytes
  import opened TokenStep
  import opened DelimSplit
  import opened Tokenizers

  class DelimTokenizer {
    const base: Tokenizer
    var tokenStart: nat
    /** The char as promoted to int for the comparison with getc's result. */
    const delim: int
    const boundary: LineCounter
    ghost var Repr: set<object>

    ghost predicate Valid()
      reads this, Repr
      ensures Valid() ==> this in Repr
    {
      && this in Repr && base in Repr && base.Repr <= Repr && this !in base.Repr
      && boundary !in Repr
      && base.Valid()
      && tokenStart <= |base.Contents()|
    }

    /** No call has failed so far. */
    ghost predicate Ready()
      reads this, Repr
    {
      Valid() && base.err == ErrNone
    }

    constructor (bufferSize: nat, delim: int, boundary: LineCounter)
      ensures Ready() && fresh(Repr)
      ensures this.delim == delim && this.boundary == boundary
    {
      this.delim := delim;
      this.boundary := boundary;
      base := new Tokenizer(bufferSize);
      tokenStart := 0;
      new;
      Repr := {this} + base.Repr;
    }

    method EndToken() returns (out: CString)
      requires Valid()
      modifies Repr
      ensures Valid() && fresh(Repr - old(Repr)) && base.err == old(base.err)
      ensures out == CStr(old(base.Contents()[tokenStart..]))
    {
      ghost var text := base.Contents()[tokenStart..];
      base.Add(NUL);
      Repr := Repr + base.Repr;
      base.TokenIsText(tokenStart);
      assert base.Contents()[tokenStart..base.Pos() - 1] == text;
      out := base.Token(tokenStart);
    }

    ghost predicate Did(step: Step, out: Option<CString>)
      reads this, Repr
    {
      && Valid()
      && out == (if step.Token? then Some(step.text) else None)
      && base.err == (if step.Token? then ErrNone else ErrorOf(step.outcome))
    }

    /** After the last byte: an error, the end, or a last token without its trailing newline. */
    method HandleEof(source: ByteSource) returns (out: Option<CString>)
      requires Ready() && tokenStart == 0 && delim !in base.Contents()
      modifies Repr
      ensures fresh(Repr - old(Repr))
      ensures Did(DelimStep(delim, old(base.Contents()), source.fails), out)
    {
      assert Find(delim, base.Contents()) == |base.Contents()|;
      if source.Ferror() {
        base.SetError(ErrIo);
        return None;
      }
      if tokenStart == base.Pos() {
        return None;
      }
      if delim != NEWLINE && base.At(base.Pos() - 1) == NEWLINE {
        base.DropLast();
      }
      assert base.Contents()[tokenStart..] == StripNewline(delim, old(base.Contents()));
      var token := EndToken();
      return Some(token);
    }

    /** One byte: it grows the token, or it is the delimiter and ends it. */
    method HandleChar(ch: Byte, ghost after: Bytes, ghost fails: bool) returns (out: Option<CString>)
      requires Ready() && tokenStart == 0 && delim !in base.Contents()
      modifies Repr, boundary
      ensures Ready() && fresh(Repr - old(Repr))
      ensures out.None? ==>
        && tokenStart == 0 && delim !in base.Contents() && boundary.count == old(boundary.count)
        && base.Contents() + after == old(base.Contents()) + ([ch] + after)
      ensures out.Some? ==>
        && boundary.count == old(boundary.count) + 1
        && DelimStep(delim, old(base.Contents()) + ([ch] + after), fails) == Token(out.value, true, after)
    {
      ghost var text := base.Contents();
      AppendAssoc(text, ch, after);
      if ch != delim {
        base.Add(ch);
        Repr := Repr + base.Repr;
        return None;
      }
      StepTakes(ch, text, after, fails);
      assert text[0..] == text;
      boundary.Increment();
      var token := EndToken();
      return Some(token);
    }

    /** One call of next_token: exactly one DelimStep of the input that was left. */
    method NextToken(source: ByteSource) returns (out: Option<CString>)
      requires Ready() && source.Valid() && source !in Repr
      modifies Repr, source, boundary
      ensures fresh(Repr - old(Repr)) && source.Valid()
      ensures
        var step := DelimStep(delim, old(source.Rest()), source.fails);
        && Did(step, out)
        && source.Rest() == step.rest
        && boundary.count == old(boundary.count) + (if step.lineEnds then 1 else 0)
    {
      ghost var input := source.Rest();
      base.Reset();
      tokenStart := base.Pos();
      var ch := source.Getc();
      ghost var unread := input;
      while ch != EOF
        invariant Ready() && source.Valid() && source !in Repr
        invariant forall o | o in Repr :: o in old(Repr) || fresh(o)
        invariant boundary.count == old(boundary.count) && tokenStart == 0
        invariant ch == EOF ==> unread == [] && source.Rest() == []
        invariant ch != EOF ==> 0 <= ch < 256 && unread == [ch] + source.Rest()
        invariant input == base.Contents() + unread
        invariant delim !in base.Contents()
        decreases |unread|
      {
        ghost var after := source.Rest();
        out := HandleChar(ch, after, source.fails);
        if out.Some? {
          return;
        }
        unread := after;
        ch := source.Getc();
      }
      assert base.Contents() == input;
      out := HandleEof(source);
    }
  }
}
