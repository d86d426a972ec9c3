/** net/Buffer.h and net/Buffer.cpp: a growing byte buffer with room at the front, which acts as a queue of bytes. */
module Buffer {
  import opened Endian
  import opened Wrappers

  const CHEAP_PREPEND: nat := 8
  const INITIAL_SIZE: nat := 1024
  const EXTRA_SIZE: nat := 65536

  /** What readv returns: the bytes it read, or an errno. */
  datatype ReadResult = Read(bytes: Bytes) | Failed(errno: int)

  /** The index of the first occurrence of CRLF in s: what std::search finds. */
  function FindCRLF(s: Bytes): Option<nat> {
    if |s| < 2 then None
    else if s[0] == 13 && s[1] == 10 then Some(0)
    else match FindCRLF(s[1..]) case None => None case Some(i) => Some(i + 1)
  }

  lemma SliceOfPrefix(s: Bytes, n: nat, i: nat, j: nat)
    requires i <= j <= n <= |s|
    ensures s[..n][i..j] == s[i..j]
  {
  }

  lemma PrefixOfSlice(s: Bytes, i: nat, j: nat, k: nat)
    requires i <= j <= |s| && k <= j - i
    ensures s[i..j][..k] == s[i..i + k]
  {
  }

  class Buffer {
    var buffer: array<Byte>
    var readerIndex: nat
    var writerIndex: nat

    ghost predicate Valid()
      reads this
    {
      CHEAP_PREPEND <= buffer.Length && readerIndex <= writerIndex <= buffer.Length
    }

    /** The bytes between the indices: the queue that the buffer stands for. */
    ghost function Readable(): Bytes
      requires Valid()
      reads this, buffer
    {
      buffer[readerIndex..writerIndex]
    }

    constructor (initialSize: nat := INITIAL_SIZE)
      ensures Valid() && fresh(buffer)
      ensures Readable() == [] && WritableBytes() == initialSize && PrependableBytes() == CHEAP_PREPEND
    {
      buffer := new Byte[CHEAP_PREPEND + initialSize](_ => 0);
      readerIndex, writerIndex := CHEAP_PREPEND, CHEAP_PREPEND;
    }

    function ReadableBytes(): nat
      requires Valid()
      reads this
    {
      writerIndex - readerIndex
    }

    function WritableBytes(): nat
      requires Valid()
      reads this
    {
      buffer.Length - writerIndex
    }

    function PrependableBytes(): nat
      requires Valid()
      reads this
    {
      readerIndex
    }

    /** toStringPiece: a view of the readable bytes. */
    method Peek() returns (s: Bytes)
      requires Valid()
      ensures s == Readable()
    {
      s := buffer[readerIndex..writerIndex];
    }

    method Retrieve(len: nat)
      requires Valid() && len <= ReadableBytes()
      modifies this`readerIndex, this`writerIndex
      ensures Valid() && Readable() == old(Readable())[len..]
    {
      if len < ReadableBytes() {
        readerIndex := readerIndex + len;
      } else {
        RetrieveAll();
      }
    }

    method RetrieveAll()
      requires Valid()
      modifies this`readerIndex, this`writerIndex
      ensures Valid() && Readable() == [] && PrependableBytes() == CHEAP_PREPEND
    {
      readerIndex, writerIndex := CHEAP_PREPEND, CHEAP_PREPEND;
    }

    method RetrieveAsString(len: nat) returns (s: Bytes)
      requires Valid() && len <= ReadableBytes()
      modifies this`readerIndex, this`writerIndex
      ensures Valid() && s + Readable() == old(Readable()) && |s| == len
    {
      PrefixOfSlice(buffer[..], readerIndex, writerIndex, len);
      s := buffer[readerIndex..readerIndex + len];
      Retrieve(len);
    }

    /** std::vector::resize to a larger size: new storage, old contents, zeros after them. */
    method Resize(size: nat)
      requires buffer.Length <= size
      modifies this`buffer
      ensures fresh(buffer) && buffer.Length == size && buffer[..old(buffer.Length)] == old(buffer[..])
    {
      var larger := new Byte[size](_ => 0);
      forall i | 0 <= i < buffer.Length {
        larger[i] := buffer[i];
      }
      buffer := larger;
    }

    /** std::copy into the storage at index `at`. */
    method CopyIn(data: Bytes, at: nat)
      requires at + |data| <= buffer.Length
      modifies buffer
      ensures buffer[..at] == old(buffer[..at]) && buffer[at..at + |data|] == data
      ensures buffer[at + |data|..] == old(buffer[at + |data|..])
    {
      forall i | 0 <= i < |data| {
        buffer[at + i] := data[i];
      }
    }

    /** makeSpace: moves the readable bytes to the front if that gains enough room, otherwise grows. */
    method MakeSpace(len: nat)
      requires Valid() && WritableBytes() < len
      modifies this, buffer
      ensures Valid() && (buffer == old(buffer) || fresh(buffer))
      ensures Readable() == old(Readable()) && len <= WritableBytes()
      ensures buffer.Length <= Max(old(buffer.Length), ReadableBytes() + 2 * len + 7)
    {
      if WritableBytes() + PrependableBytes() < len + CHEAP_PREPEND {
        Resize(writerIndex + len);
        SliceOfPrefix(buffer[..], old(buffer.Length), readerIndex, writerIndex);
      } else {
        assert CHEAP_PREPEND < readerIndex;
        var readable := ReadableBytes();
        CopyIn(buffer[readerIndex..writerIndex], CHEAP_PREPEND);
        readerIndex := CHEAP_PREPEND;
        writerIndex := readerIndex + readable;
        assert readable == ReadableBytes();
      }
    }

    method EnsureWritableBytes(len: nat)
      requires Valid()
      modifies this, buffer
      ensures Valid() && (buffer == old(buffer) || fresh(buffer))
      ensures Readable() == old(Readable()) && len <= WritableBytes()
      ensures buffer.Length <= Max(old(buffer.Length), ReadableBytes() + 2 * len + 7)
      ensures len <= old(WritableBytes()) ==> buffer == old(buffer) && writerIndex == old(writerIndex)
    {
      if WritableBytes() < len {
        MakeSpace(len);
      }
    }

    method Append(data: Bytes)
      requires Valid()
      modifies this, buffer
      ensures Valid() && (buffer == old(buffer) || fresh(buffer))
      ensures Readable() == old(Readable()) + data
      ensures buffer.Length <= Max(old(buffer.Length), |old(Readable())| + 2 * |data| + 7)
      ensures |data| <= old(WritableBytes()) ==> buffer == old(buffer) && writerIndex == old(writerIndex) + |data|
    {
      EnsureWritableBytes(|data|);
      ghost var start := writerIndex;
      label before:
      CopyIn(data, writerIndex);
      HasWritten(|data|);
      assert buffer[readerIndex..start] == buffer[..start][readerIndex..] == old@before(buffer[..start])[readerIndex..] == old@before(Readable());
    }

    method HasWritten(len: nat)
      requires Valid() && len <= WritableBytes()
      modifies this`writerIndex
      ensures Valid() && writerIndex == old(writerIndex) + len
      ensures Readable() == old(Readable()) + buffer[old(writerIndex)..writerIndex]
    {
      writerIndex := writerIndex + len;
    }

    method Unwrite(len: nat)
      requires Valid() && len <= ReadableBytes()
      modifies this`writerIndex
      ensures Valid() && Readable() == old(Readable())[..old(ReadableBytes()) - len]
    {
      PrefixOfSlice(buffer[..], readerIndex, writerIndex, ReadableBytes() - len);
      writerIndex := writerIndex - len;
    }

    method Prepend(data: Bytes)
      requires Valid() && |data| <= PrependableBytes()
      modifies this`readerIndex, buffer
      ensures Valid() && Readable() == data + old(Readable())
    {
      var end := readerIndex;
      readerIndex := readerIndex - |data|;
      CopyIn(data, readerIndex);
      assert buffer[end..writerIndex] == buffer[end..][..writerIndex - end] == old(buffer[end..])[..writerIndex - end] == old(Readable());
      assert buffer[readerIndex..writerIndex] == buffer[readerIndex..end] + buffer[end..writerIndex];
    }

    /** shrink: the readable bytes move to storage of their own size plus the reserve, or the initial size. */
    method Shrink(reserve: nat)
      requires Valid()
      modifies this
      ensures Valid() && fresh(buffer)
      ensures Readable() == old(Readable()) && reserve <= WritableBytes()
      ensures buffer.Length <= Max(CHEAP_PREPEND + INITIAL_SIZE, 2 * (ReadableBytes() + reserve) + 7)
    {
      var other := new Buffer();
      other.EnsureWritableBytes(ReadableBytes() + reserve);
      var s := Peek();
      other.Append(s);
      buffer, readerIndex, writerIndex := other.buffer, other.readerIndex, other.writerIndex;
    }

    /** readFd: a scatter read into the writable bytes and a 65536-byte area on the stack. */
    method ReadFd(result: ReadResult) returns (n: int, savedErrno: Option<int>)
      requires Valid()
      requires result.Read? ==> |result.bytes| <= WritableBytes() + if WritableBytes() < EXTRA_SIZE then EXTRA_SIZE else 0
      modifies this, buffer
      ensures Valid() && (buffer == old(buffer) || fresh(buffer))
      ensures result.Read? ==> n == |result.bytes| && savedErrno == None && Readable() == old(Readable()) + result.bytes
      ensures result.Failed? ==> n < 0 && savedErrno == Some(result.errno) && Readable() == old(Readable())
    {
      var writable := WritableBytes();
      match result {
        case Failed(errno) =>
          n, savedErrno := -1, Some(errno);
        case Read(bytes) =>
          n, savedErrno := |bytes|, None;
          // readv fills the writable bytes first, then the extra area
          var inPlace := if n <= writable then n else writable;
          ghost var start := writerIndex;
          CopyIn(bytes[..inPlace], writerIndex);
          assert buffer[readerIndex..start] == buffer[..start][readerIndex..] == old(buffer[..start])[readerIndex..] == old(Readable());
          writerIndex := writerIndex + inPlace;
          assert buffer[readerIndex..writerIndex] == buffer[readerIndex..start] + buffer[start..writerIndex];
          if n > writable {
            assert writerIndex == buffer.Length;
            var extrabuf := bytes[writable..];
            assert bytes == bytes[..inPlace] + extrabuf;
            Append(extrabuf);
          }
      }
    }

    /** appendInt8 to appendInt64 */
    method AppendInt(x: int, width: nat)
      requires Valid() && width in {1, 2, 4, 8} && Fits(x, width)
      modifies this, buffer
      ensures Valid() && (buffer == old(buffer) || fresh(buffer))
      ensures Readable() == old(Readable()) + Encode(x, width)
    {
      Append(Encode(x, width));
    }

    /** prependInt8 to prependInt64 */
    method PrependInt(x: int, width: nat)
      requires Valid() && width in {1, 2, 4, 8} && Fits(x, width) && width <= PrependableBytes()
      modifies this`readerIndex, buffer
      ensures Valid() && Readable() == Encode(x, width) + old(Readable())
    {
      Prepend(Encode(x, width));
    }

    /** peekInt8 to peekInt64 */
    method PeekInt(width: nat) returns (x: int)
      requires Valid() && width in {1, 2, 4, 8} && width <= ReadableBytes()
      ensures Fits(x, width) && Encode(x, width) == Readable()[..width]
    {
      PrefixOfSlice(buffer[..], readerIndex, writerIndex, width);
      var bytes := buffer[readerIndex..readerIndex + width];
      x := Decode(bytes);
      EncodeDecode(bytes);
    }

    /** readInt8 to readInt64: undoes PrependInt, and AppendInt on an empty buffer. */
    method ReadInt(width: nat) returns (x: int)
      requires Valid() && width in {1, 2, 4, 8} && width <= ReadableBytes()
      modifies this`readerIndex, this`writerIndex
      ensures Valid() && Fits(x, width) && Encode(x, width) + Readable() == old(Readable())
    {
      x := PeekInt(width);
      Retrieve(width);
    }

    /** findCRLF, as an offset from peek() */
    method FindCRLFIndex() returns (crlf: Option<nat>)
      requires Valid()
      ensures crlf == FindCRLF(Readable())
    {
      crlf := FindCRLF(buffer[readerIndex..writerIndex]);
    }
  }

  function Max(a: nat, b: nat): nat {
    if a < b then b else a
  }

  /** findCRLF finds the first CRLF. */
  lemma {:induction false} FindCRLFIsFirst(s: Bytes)
    ensures match FindCRLF(s)
            case Some(i) => i + 1 < |s| && s[i] == 13 && s[i + 1] == 10
                            && forall j :: 0 <= j < i ==> !(s[j] == 13 && s[j + 1] == 10)
            case None => forall j :: 0 <= j && j + 1 < |s| ==> !(s[j] == 13 && s[j + 1] == 10)
  {
    if |s| < 2 || (s[0] == 13 && s[1] == 10) {
    } else {
      FindCRLFIsFirst(s[1..]);
      assert forall j :: 1 <= j < |s| ==> s[j] == s[1..][j - 1];
    }
  }

  /** What one integer's bytes read back as is that integer. */
  lemma IntegersReadBack(x: int, y: int, width: nat)
    requires Fits(x, width) && Fits(y, width) && Encode(x, width) == Encode(y, width)
    ensures x == y
  {
    DecodeEncode(x, width);
    DecodeEncode(y, width);
  }
}
