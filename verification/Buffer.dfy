/** The network buffer: one array, two indices, and eight bytes kept free in front.

    `Contents()` is the byte queue the class stands for.  Every method is specified on that queue alone,
    so callers cannot see where in the array the bytes lie. */
module Buffers {
  import opened Options
  import opened Text
  import opened NetworkOrder

  const CHEAP_PREPEND := 8
  const INITIAL_SIZE := 1024
  const EXTRA_BUFFER := 65536

  /** What the kernel answered to a scatter read of the socket. */
  datatype ReadResult = ReadFailed(errno: int) | Received(bytes: string)

  /** What the kernel answered to a write of the whole readable part. */
  datatype WriteResult = WriteFailed(errno: int) | Wrote(count: nat)

  class Buffer {
    var data: array<char>
    var readIndex: nat
    var writeIndex: nat

    ghost predicate Valid()
      reads this
    {
      readIndex <= writeIndex <= data.Length && CHEAP_PREPEND <= data.Length
    }

    ghost function Contents(): string
      requires Valid()
      reads this, data
    {
      data[readIndex..writeIndex]
    }

    function ReadableBytes(): nat
      requires Valid()
      reads this
    {
      writeIndex - readIndex
    }

    function WritableBytes(): nat
      requires Valid()
      reads this
    {
      data.Length - writeIndex
    }

    /** How many bytes one `ReadFd` may receive: the free tail, and the stack buffer behind it. */
    function ReadRoom(): nat
      requires Valid()
      reads this
    {
      WritableBytes() + if WritableBytes() < EXTRA_BUFFER then EXTRA_BUFFER else 0
    }

    constructor (initialSize: nat := INITIAL_SIZE)
      ensures Valid() && fresh(data) && Contents() == ""
      ensures data.Length == 8 + initialSize && readIndex == 8
    {
      data := new char[CHEAP_PREPEND + initialSize](_ => '\0');
      readIndex, writeIndex := CHEAP_PREPEND, CHEAP_PREPEND;
    }

    method RetrieveAll()
      requires Valid()
      modifies this
      ensures Valid() && data == old(data) && Contents() == ""
      ensures readIndex == CHEAP_PREPEND
    {
      readIndex, writeIndex := CHEAP_PREPEND, CHEAP_PREPEND;
    }

    method Retrieve(len: nat)
      requires Valid()
      modifies this
      ensures Valid() && data == old(data)
      ensures Contents() == old(if len < |Contents()| then Contents()[len..] else "")
    {
      if len < ReadableBytes() {
        readIndex := readIndex + len;
      } else {
        RetrieveAll();
      }
    }

    method RetrieveAsString(len: nat) returns (s: string)
      requires Valid() && len <= |Contents()|
      modifies this
      ensures Valid() && data == old(data)
      ensures s == old(Contents())[..len] && Contents() == old(Contents())[len..]
    {
      s := data[readIndex..readIndex + len];
      Retrieve(len);
    }

    method Grow(len: nat)
      requires Valid() && WritableBytes() < len
      modifies this
      ensures Valid() && fresh(data) && data.Length == old(writeIndex) + len
      ensures readIndex == old(readIndex) && writeIndex == old(writeIndex)
      ensures Contents() == old(Contents())
    {
      var grown := new char[writeIndex + len](_ => '\0');
      forall i | 0 <= i < data.Length {
        grown[i] := data[i];
      }
      data := grown;
    }

    /** A forward copy over the same array: safe because every byte moves to a strictly lower address. */
    method MoveDown()
      requires Valid() && CHEAP_PREPEND < readIndex
      modifies this, data
      ensures Valid() && data == old(data)
      ensures readIndex == CHEAP_PREPEND
      ensures Contents() == old(Contents())
    {
      var readable := ReadableBytes();
      ghost var was := Contents();
      for i := 0 to readable
        invariant data[CHEAP_PREPEND..CHEAP_PREPEND + i] == was[..i]
        invariant forall k | i <= k < readable :: data[readIndex + k] == was[k]
        modifies data
      {
        data[CHEAP_PREPEND + i] := data[readIndex + i];
        assert was[..i + 1] == was[..i] + [was[i]];
      }
      readIndex := CHEAP_PREPEND;
      writeIndex := readIndex + readable;
    }

    /** Room for `len` more bytes: grow when the free space on both sides does not suffice, and
        otherwise move the readable bytes down over the ones already read. */
    method MakeSpace(len: nat)
      requires Valid() && WritableBytes() < len
      modifies this, data
      ensures Valid() && (data == old(data) || fresh(data))
      ensures Contents() == old(Contents()) && len <= WritableBytes()
      ensures data == old(data) <==> len + CHEAP_PREPEND <= old(WritableBytes() + readIndex)
      ensures if data == old(data) then readIndex == CHEAP_PREPEND
              else readIndex == old(readIndex) && data.Length == old(writeIndex) + len
      ensures data.Length == old(data.Length) || data.Length < |Contents()| + 2 * len + CHEAP_PREPEND
    {
      if WritableBytes() + readIndex < len + CHEAP_PREPEND {
        Grow(len);
      } else {
        MoveDown();
      }
    }

    method EnsureWritableBytes(len: nat)
      requires Valid()
      modifies this, data
      ensures Valid() && (data == old(data) || fresh(data))
      ensures Contents() == old(Contents()) && len <= WritableBytes()
      ensures data == old(data) <==>
                len <= old(WritableBytes()) || len + CHEAP_PREPEND <= old(WritableBytes() + readIndex)
      ensures data.Length == old(data.Length) || data.Length < |Contents()| + 2 * len + CHEAP_PREPEND
    {
      if WritableBytes() < len {
        MakeSpace(len);
      }
    }

    /** Store bytes behind the readable ones: a copy by `Append`, the kernel's own stores in `ReadFd`. */
    method FillTail(bytes: string)
      requires Valid() && |bytes| <= WritableBytes()
      modifies this, data
      ensures Valid() && data == old(data)
      ensures Contents() == old(Contents()) + bytes && writeIndex == old(writeIndex) + |bytes|
    {
      forall i | 0 <= i < |bytes| {
        data[writeIndex + i] := bytes[i];
      }
      assert data[readIndex..writeIndex] == old(Contents());
      assert data[writeIndex..writeIndex + |bytes|] == bytes;
      assert data[readIndex..writeIndex + |bytes|] ==
             data[readIndex..writeIndex] + data[writeIndex..writeIndex + |bytes|];
      writeIndex := writeIndex + |bytes|;
    }

    method Append(s: string)
      requires Valid()
      modifies this, data
      ensures Valid() && (data == old(data) || fresh(data))
      ensures Contents() == old(Contents()) + s
      ensures data == old(data) <==>
                |s| <= old(WritableBytes()) || |s| + CHEAP_PREPEND <= old(WritableBytes() + readIndex)
      ensures data.Length == old(data.Length) || data.Length < |old(Contents())| + 2 * |s| + CHEAP_PREPEND
    {
      EnsureWritableBytes(|s|);
      FillTail(s);
    }

    /** The caller must stay within the bytes free in front: the source subtracts without a check. */
    method Prepend(s: string)
      requires Valid() && |s| <= readIndex
      modifies this, data
      ensures Valid() && data == old(data)
      ensures Contents() == s + old(Contents())
    {
      readIndex := readIndex - |s|;
      forall i | 0 <= i < |s| {
        data[readIndex + i] := s[i];
      }
      assert data[readIndex..readIndex + |s|] == s;
      assert data[readIndex + |s|..writeIndex] == old(Contents());
      assert Contents() == data[readIndex..readIndex + |s|] + data[readIndex + |s|..writeIndex];
    }

    /** The offset of the first line end from the first readable byte. */
    method FindLineEnd() returns (r: Option<nat>)
      requires Valid()
      ensures r == FindCrlf(Contents())
    {
      ghost var s := Contents();
      var i := 0;
      while i + 1 < ReadableBytes()
        invariant i <= |s|
        invariant forall j | 0 <= j < i :: !CrlfAt(s, j)
        decreases ReadableBytes() - i
      {
        if data[readIndex + i] == '\r' && data[readIndex + i + 1] == '\n' {
          assert CrlfAt(s, i);
          return Some(i);
        }
        i := i + 1;
      }
      r := None;
    }

    /** readv into the free tail and then a stack buffer, whose bytes are appended afterwards. */
    method ReadFd(kernel: ReadResult) returns (n: int, savedErrno: Option<int>)
      requires Valid()
      requires kernel.Received? ==> |kernel.bytes| <= ReadRoom()
      modifies this, data
      ensures Valid() && (data == old(data) || fresh(data))
      ensures match kernel
              case ReadFailed(e) => n < 0 && savedErrno == Some(e) && Contents() == old(Contents())
              case Received(bytes) =>
                n == |bytes| && savedErrno == None && Contents() == old(Contents()) + bytes
    {
      match kernel
      case ReadFailed(e) =>
        n, savedErrno := -1, Some(e);
      case Received(bytes) =>
        n, savedErrno := |bytes|, None;
        var writable := WritableBytes();
        if n <= writable {
          FillTail(bytes);
        } else {
          FillTail(bytes[..writable]);
          Append(bytes[writable..]);
          assert (old(Contents()) + bytes[..writable]) + bytes[writable..] == old(Contents()) + bytes;
        }
    }

    method WriteFd(kernel: WriteResult) returns (n: int, savedErrno: Option<int>)
      requires Valid()
      requires kernel.Wrote? ==> kernel.count <= |Contents()|
      modifies this
      ensures Valid() && data == old(data)
      ensures match kernel
              case WriteFailed(e) => n < 0 && savedErrno == Some(e) && Contents() == old(Contents())
              case Wrote(k) => n == k && savedErrno == None && Contents() == old(Contents())[k..]
    {
      match kernel
      case WriteFailed(e) =>
        n, savedErrno := -1, Some(e);
      case Wrote(k) =>
        n, savedErrno := k, None;
        Retrieve(k);
    }

    // ---- integers in network byte order -----------------------------------------------------------

    method AppendInt8(x: int)
      requires Valid() && Fits(x, 1)
      modifies this, data
      ensures Valid() && (data == old(data) || fresh(data))
      ensures Contents() == old(Contents()) + Encode(x, 1)
    {
      Append(Encode(x, 1));
    }

    method AppendInt16(x: int)
      requires Valid() && Fits(x, 2)
      modifies this, data
      ensures Valid() && (data == old(data) || fresh(data))
      ensures Contents() == old(Contents()) + Encode(x, 2)
    {
      Append(Encode(x, 2));
    }

    method AppendInt32(x: int)
      requires Valid() && Fits(x, 4)
      modifies this, data
      ensures Valid() && (data == old(data) || fresh(data))
      ensures Contents() == old(Contents()) + Encode(x, 4)
    {
      Append(Encode(x, 4));
    }

    method AppendInt64(x: int)
      requires Valid() && Fits(x, 8)
      modifies this, data
      ensures Valid() && (data == old(data) || fresh(data))
      ensures Contents() == old(Contents()) + Encode(x, 8)
    {
      HalvesAreNetworkOrder(x);
      AppendInt32(HighHalf(x));
      AppendInt32(LowHalf(x));
    }

    method PeekInt8() returns (x: int)
      requires Valid() && 1 <= |Contents()|
      ensures x == Peek(W8, Contents())
    {
      assert data[readIndex..readIndex + 1] == Contents()[..1];
      x := Decode(data[readIndex..readIndex + 1]);
    }

    method PeekInt16() returns (x: int)
      requires Valid() && 2 <= |Contents()|
      ensures x == Peek(W16, Contents())
    {
      assert data[readIndex..readIndex + 2] == Contents()[..2];
      x := Decode(data[readIndex..readIndex + 2]);
    }

    method PeekInt32() returns (x: int)
      requires Valid() && 4 <= |Contents()|
      ensures x == Peek(W32, Contents())
    {
      assert data[readIndex..readIndex + 4] == Contents()[..4];
      x := Decode(data[readIndex..readIndex + 4]);
    }

    /** Both words are read at the front of the queue, as the source does. */
    method PeekInt64() returns (x: int)
      requires Valid() && 8 <= |Contents()|
      ensures x == Peek(W64, Contents())
    {
      var high := PeekInt32();
      var low := PeekInt32();
      x := Combine(high, low);
    }

    method ReadInt8() returns (x: int)
      requires Valid() && 1 <= |Contents()|
      modifies this
      ensures Valid() && data == old(data)
      ensures x == Peek(W8, old(Contents())) && Contents() == old(Contents())[1..]
    {
      x := PeekInt8();
      Retrieve(1);
    }

    method ReadInt16() returns (x: int)
      requires Valid() && 2 <= |Contents()|
      modifies this
      ensures Valid() && data == old(data)
      ensures x == Peek(W16, old(Contents())) && Contents() == old(Contents())[2..]
    {
      x := PeekInt16();
      Retrieve(2);
    }

    method ReadInt32() returns (x: int)
      requires Valid() && 4 <= |Contents()|
      modifies this
      ensures Valid() && data == old(data)
      ensures x == Peek(W32, old(Contents())) && Contents() == old(Contents())[4..]
    {
      x := PeekInt32();
      Retrieve(4);
    }

    method ReadInt64() returns (x: int)
      requires Valid() && 8 <= |Contents()|
      modifies this
      ensures Valid() && data == old(data)
      ensures x == Peek(W64, old(Contents())) && Contents() == old(Contents())[8..]
    {
      x := PeekInt64();
      Retrieve(8);
    }
  }
}
