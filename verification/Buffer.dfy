/** Growable arrays: the doubling rule, and the byte buffer in which tokens are assembled. */
module Buffer {
  import opened Bytes

  /** phxargs_double_capacity; its overflow exit is out of reach before memory is. */
  function DoubleCapacity(capacity: nat): nat {
    if capacity == 0 then 1 else capacity * 2
  }

  class Buffer {
    var buf: array<Byte>
    var sz: nat
    var pos: nat

    ghost var Repr: set<object>
    /** Bytes ever put, the most ever held at once, and bytes moved by reallocations. */
    ghost var puts: nat
    ghost var longest: nat
    ghost var copied: nat

    /** Reallocation is paid for: in total it never moves more than two bytes per byte put. */
    ghost predicate Valid()
      reads this, Repr
      ensures Valid() ==> this in Repr
      ensures Valid() ==> copied <= 2 * longest <= 2 * puts
    {
      && Repr == {this, buf}
      && buf.Length == sz + 1
      && pos <= sz
      && pos <= longest <= puts
      && copied <= sz
      && (copied == 0 || sz <= 2 * longest)
    }

    ghost function Contents(): Bytes
      requires Valid()
      reads this, Repr
    {
      buf[..pos]
    }

    constructor (size: nat)
      ensures Valid() && fresh(Repr)
      ensures Contents() == [] && sz == size && puts == copied == longest == 0
    {
      buf := new Byte[size + 1](_ => NUL);
      sz := size;
      pos := 0;
      puts, longest, copied := 0, 0, 0;
      new;
      Repr := {this, buf};
    }

    /** Room for one more byte, by doubling when there is none. */
    method Grow()
      requires Valid()
      modifies Repr
      ensures Repr == {this, buf} && fresh(Repr - old(Repr)) && buf.Length == sz + 1
      ensures pos == old(pos) < sz && buf[..pos] == old(buf[..pos])
      ensures puts == old(puts) && longest == old(longest)
      ensures copied == old(copied) + (if old(pos) == old(sz) then old(pos) else 0)
      ensures sz == if old(pos) == old(sz) then (if old(sz) == 0 then 1 else 2 * old(sz)) else old(sz)
    {
      if pos == sz {
        sz := DoubleCapacity(sz);
        var bigger := new Byte[sz + 1](_ => NUL);
        forall i | 0 <= i < pos {
          bigger[i] := buf[i];
        }
        copied := copied + pos;
        buf := bigger;
        Repr := {this, buf};
      }
    }

    method Put(ch: Byte)
      requires Valid()
      modifies Repr
      ensures Valid() && fresh(Repr - old(Repr))
      ensures Contents() == old(Contents()) + [ch]
      ensures puts == old(puts) + 1
      ensures copied == old(copied) + (if old(pos) == old(sz) then old(pos) else 0)
      ensures sz == if old(pos) == old(sz) then (if old(sz) == 0 then 1 else 2 * old(sz)) else old(sz)
    {
      Grow();
      buf[pos] := ch;
      pos := pos + 1;
      puts := puts + 1;
      longest := if longest < pos then pos else longest;
    }

    method DropLast()
      requires Valid()
      modifies Repr
      ensures Valid() && Repr == old(Repr)
      ensures Contents() == if old(Contents()) == [] then [] else old(Contents()[..pos - 1])
      ensures puts == old(puts) && copied == old(copied) && sz == old(sz)
    {
      if pos > 0 {
        pos := pos - 1;
      }
    }

    method Reset()
      requires Valid()
      modifies Repr
      ensures Valid() && Repr == old(Repr)
      ensures Contents() == []
      ensures puts == old(puts) && copied == old(copied) && sz == old(sz)
    {
      pos := 0;
    }
  }
}
