/** The two tokenizers as the program runs them: one byte at a time, in place, resumable between calls. */
module Tokenizers {
  import opened Bytes
  import opened Buffer
  import opened TokenStep

  /** getc's end-of-file value. */
  const EOF := -1

  /** A FILE* opened for reading: its bytes, and whether reading past them reports an I/O error. */
  class ByteSource {
    const bytes: Bytes
    const fails: bool
    var next: nat

    ghost predicate Valid()
      reads this
    {
      next <= |bytes|
    }

    /** What has not been read. */
    ghost function Rest(): Bytes
      requires Valid()
      reads this
    {
      bytes[next..]
    }

    constructor (bytes: Bytes, fails: bool)
      ensures Valid() && Rest() == bytes && this.bytes == bytes && this.fails == fails
    {
      this.bytes := bytes;
      this.fails := fails;
      next := 0;
    }

    method Getc() returns (ch: int)
      requires Valid()
      modifies this
      ensures Valid()
      ensures ch == EOF ==> old(Rest()) == [] && Rest() == []
      ensures ch != EOF ==> 0 <= ch < 256 && old(Rest()) == [ch] + Rest()
    {
      if next == |bytes| {
        ch := EOF;
      } else {
        ch := bytes[next];
        next := next + 1;
      }
    }

    /** ferror, asked after getc returned EOF. */
    predicate Ferror() {
      fails
    }
  }

  /** The context of the input-boundary callback: the one field of the command that it changes. */
  class LineCounter {
    var count: nat

    constructor ()
      ensures count == 0
    {
      count := 0;
    }

    method Increment()
      modifies this
      ensures count == old(count) + 1
    {
      count := count + 1;
    }
  }

  datatype TokenizerError = ErrNone | ErrIo | ErrBackslashAtEof | ErrUnterminatedQuote

  function ErrorOf(outcome: Outcome): TokenizerError {
    match outcome
    case CleanEnd | Marker => ErrNone
    case UnterminatedQuote => ErrUnterminatedQuote
    case BackslashAtEof => ErrBackslashAtEof
    case IoError => ErrIo
  }

  /** The part the tokenizers share: buffer and error. */
  class Tokenizer {
    const buf: Buffer
    var err: TokenizerError
    ghost var Repr: set<object>

    ghost predicate Valid()
      reads this, Repr
      ensures Valid() ==> this in Repr
    {
      && this in Repr && buf in Repr && buf.Repr <= Repr && this !in buf.Repr
      && buf.Valid()
    }

    ghost function Contents(): Bytes
      requires Valid()
      reads this, Repr
    {
      buf.Contents()
    }

    constructor (bufferSize: nat)
      ensures Valid() && fresh(Repr)
      ensures Contents() == [] && err == ErrNone
    {
      buf := new Buffer(bufferSize);
      err := ErrNone;
      new;
      Repr := {this} + buf.Repr;
    }

    function Pos(): (p: nat)
      requires Valid()
      reads this, Repr
      ensures p == |Contents()|
    {
      buf.pos
    }

    /** The byte at a position of the token. */
    function At(i: nat): (b: Byte)
      requires Valid() && i < Pos()
      reads this, Repr
      ensures b == Contents()[i]
    {
      buf.buf[i]
    }

    /** The C string in memory from a position on, which may run into what earlier tokens left there. */
    function Token(start: nat): CString
      requires Valid() && start <= Pos()
      reads this, Repr
    {
      CStr(buf.buf[start..])
    }

    lemma TokenIsText(start: nat)
      requires Valid() && start < Pos() && At(Pos() - 1) == NUL
      ensures Token(start) == CStr(Contents()[start..Pos() - 1])
    {
      var memory, n := buf.buf[start..], Pos() - 1 - start;
      CStrStopsAt(memory, n);
      assert memory[..n] == Contents()[start..Pos() - 1];
    }

    method Add(ch: Byte)
      requires Valid()
      modifies Repr
      ensures Valid() && fresh(Repr - old(Repr))
      ensures Contents() == old(Contents()) + [ch] && err == old(err)
    {
      buf.Put(ch);
      Repr := Repr + buf.Repr;
    }

    method DropLast()
      requires Valid()
      modifies Repr
      ensures Valid() && Repr == old(Repr)
      ensures Contents() == if old(Contents()) == [] then [] else old(Contents()[..Pos() - 1])
      ensures err == old(err)
    {
      buf.DropLast();
    }

    method Reset()
      requires Valid()
      modifies Repr
      ensures Valid() && Repr == old(Repr)
      ensures Contents() == [] && err == old(err)
    {
      buf.Reset();
    }

    method SetError(e: TokenizerError)
      requires Valid()
      modifies Repr
      ensures Valid() && Repr == old(Repr)
      ensures Contents() == old(Contents()) && err == e
    {
      err := e;
    }
  }
}
