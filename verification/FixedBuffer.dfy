/** base/LogStream.h: a buffer of fixed size, which drops what does not fit. */
module FixedBuffer {
  import opened Endian

  const SMALL_BUFFER: nat := 4000
  const LARGE_BUFFER: nat := 4000 * 1000

  /** append: all of the data if it leaves at least one byte free, otherwise none of it. */
  function Appended(contents: Bytes, size: nat, data: Bytes): Bytes
    requires |contents| <= size
  {
    if size - |contents| > |data| then contents + data else contents
  }

  class FixedBuffer {
    const data: array<Byte>
    var cur: nat

    ghost predicate Valid()
      reads this
    {
      cur <= data.Length
    }

    ghost function Contents(): Bytes
      requires Valid()
      reads this, data
    {
      data[..cur]
    }

    constructor (size: nat)
      ensures Valid() && fresh(data) && data.Length == size && Contents() == []
    {
      data := new Byte[size](_ => 0);
      cur := 0;
    }

    function Avail(): nat
      requires Valid()
      reads this
    {
      data.Length - cur
    }

    method Append(buf: Bytes)
      requires Valid()
      modifies this`cur, data
      ensures Valid() && Contents() == Appended(old(Contents()), data.Length, buf)
    {
      if Avail() > |buf| {
        forall i | 0 <= i < |buf| {
          data[cur + i] := buf[i];
        }
        assert data[..cur] == old(data[..cur]);
        Add(|buf|);
      }
    }

    /** add: commits bytes written straight to current(). */
    method Add(len: nat)
      requires Valid() && len <= Avail()
      modifies this`cur
      ensures Valid() && cur == old(cur) + len && Contents() == old(Contents()) + data[old(cur)..cur]
    {
      cur := cur + len;
    }

    method Reset()
      modifies this`cur
      ensures Valid() && Contents() == [] && Avail() == data.Length
    {
      cur := 0;
    }
  }
}
