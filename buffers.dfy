/**
 * The part of Netty's `ByteBuf` (behind the `ByteBufAbstract` wrapper) that the codec
 * uses: the bytes between index 0 and the writer index, and a reader index into them.
 * Every read is proved against the matching reader function of WireFormat, every write
 * appends.
 */
module Buffers {
  import opened Wrappers
  import opened JavaInts
  import opened WireFormat
  import Utf8

  class ByteBuf {
    /** The bytes written so far: indices 0 to the writer index. */
    var bytes: seq<byte>
    var readerIndex: nat

    ghost predicate Valid()
      reads this
    {
      readerIndex <= |bytes|
    }

    /** `ByteBufUtil.buffer()`: a fresh, empty buffer. */
    constructor ()
      ensures Valid() && bytes == [] && readerIndex == 0
    {
      bytes := [];
      readerIndex := 0;
    }

    /** The number of readable bytes: writer index minus reader index. */
    function ReadableBytes(): nat
      reads this
      requires Valid()
    {
      |bytes| - readerIndex
    }

    /** `clear()`: both indices back to zero, so nothing written before is readable. */
    method Clear()
      modifies this
      ensures Valid() && bytes == [] && readerIndex == 0
    {
      bytes := [];
      readerIndex := 0;
    }

    /** `writeBytes(bs)`, and `writeByte` for one byte: append at the writer index. */
    method WriteBytes(bs: seq<byte>)
      requires Valid()
      modifies this
      ensures Valid() && bytes == old(bytes) + bs && readerIndex == old(readerIndex)
    {
      bytes := bytes + bs;
    }

    /** `readByte()`. */
    method ReadByte() returns (r: Result<byte, CodecError>)
      requires Valid()
      modifies this
      ensures Valid() && bytes == old(bytes)
      ensures r.Success? <==> old(readerIndex) < |bytes|
      ensures r.Success? ==> r.value == bytes[old(readerIndex)] && readerIndex == old(readerIndex) + 1
      ensures r.Failure? ==> r.error == IndexOutOfBounds && readerIndex == old(readerIndex)
    {
      if readerIndex >= |bytes| {
        return Failure(IndexOutOfBounds);
      }
      r := Success(bytes[readerIndex]);
      readerIndex := readerIndex + 1;
    }

    /** The `n`-byte big-endian reads (`readShort`, `readInt`, `readLong`) before sign handling. */
    method ReadUnsigned(n: nat) returns (r: Result<nat, CodecError>)
      requires Valid()
      modifies this
      ensures Valid() && bytes == old(bytes)
      ensures Parsed(r, readerIndex) == ReadUnsignedAt(old(bytes), old(readerIndex), n)
    {
      if readerIndex + n > |bytes| {
        return Failure(IndexOutOfBounds);
      }
      r := Success(FromBigEndian(bytes[readerIndex..readerIndex + n]));
      readerIndex := readerIndex + n;
    }

    /** `readBytes(dst)` for a destination of `length` bytes (allocated by the caller). */
    method ReadBytes(length: nat) returns (r: Result<seq<byte>, CodecError>)
      requires Valid()
      modifies this
      ensures Valid() && bytes == old(bytes)
      ensures r.Failure? <==> old(readerIndex) + length > |bytes|
      ensures r.Failure? ==> r.error == IndexOutOfBounds && readerIndex == old(readerIndex)
      ensures r.Success? ==>
        r.value == bytes[old(readerIndex)..old(readerIndex) + length] && readerIndex == old(readerIndex) + length
    {
      if readerIndex + length > |bytes| {
        return Failure(IndexOutOfBounds);
      }
      r := Success(bytes[readerIndex..readerIndex + length]);
      readerIndex := readerIndex + length;
    }

    /**
     * `toString(index, length, UTF_8)`: decode `length` bytes from `index` without moving
     * the reader index.
     */
    function DecodeString(index: nat, length: nat): (r: Result<string, CodecError>)
      reads this
      ensures r.Success? <==> index + length <= |bytes|
    {
      if index + length > |bytes| then Failure(IndexOutOfBounds)
      else Success(Utf8.Decode(bytes[index..index + length]))
    }

    /** `readerIndex(i)`: refused unless `0 <= i <=` the writer index. */
    method SetReaderIndex(i: int) returns (r: Result<(), CodecError>)
      requires Valid()
      modifies this
      ensures Valid() && bytes == old(bytes)
      ensures r.Success? <==> 0 <= i <= |bytes|
      ensures readerIndex == if r.Success? then i else old(readerIndex)
      ensures r.Failure? ==> r.error == IndexOutOfBounds
    {
      if i < 0 || i > |bytes| {
        return Failure(IndexOutOfBounds);
      }
      readerIndex := i;
      r := Success(());
    }
  }
}
