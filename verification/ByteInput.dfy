/** A buffered reader over a given input, with one byte of unread and lookahead (bufio.Reader). */
module ByteInput {
  import opened Wrappers

  class ByteReader {
    const data: string
    var pos: nat

    constructor (data: string)
      ensures Valid() && Unread() == data
    {
      this.data, pos := data, 0;
      new;
      assert data[0..] == data;
    }

    ghost predicate Valid()
      reads this
    {
      pos <= |data|
    }

    ghost function Unread(): string
      requires Valid()
      reads this
    {
      data[pos..]
    }

    /** None at the end of the input. */
    method ReadByte() returns (b: Option<char>)
      requires Valid()
      modifies this
      ensures Valid()
      ensures b.None? <==> old(Unread()) == ""
      ensures b.None? ==> pos == old(pos)
      ensures b.Some? ==> pos == old(pos) + 1
      ensures b.Some? ==> b.value == old(Unread())[0] && Unread() == old(Unread())[1..]
    {
      if pos == |data| {
        return None;
      }
      b := Some(data[pos]);
      pos := pos + 1;
    }

    method UnreadByte()
      requires Valid() && pos > 0
      modifies this
      ensures Valid() && pos == old(pos) - 1
    {
      pos := pos - 1;
    }

    method Peek(n: nat) returns (ahead: Option<string>)
      requires Valid()
      ensures ahead == if n <= |Unread()| then Some(Unread()[..n]) else None
    {
      if n <= |data| - pos {
        ahead := Some(data[pos..pos + n]);
        assert data[pos..pos + n] == Unread()[..n];
      } else {
        ahead := None;
      }
    }

    method Discard(n: nat)
      requires Valid() && n <= |Unread()|
      modifies this
      ensures Valid() && Unread() == old(Unread())[n..]
    {
      pos := pos + n;
    }
  }
}
