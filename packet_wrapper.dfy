/**
 * `PacketWrapper`: a packet's buffer plus the versions and id it was made for, and the
 * readers and writers of the protocol's field types on that buffer. Each reader is proved
 * to return what the matching WireFormat function returns and to leave the buffer's read
 * cursor where that function says; each writer appends exactly the bytes WireFormat gives.
 */
module PacketWrappers {
  import opened Wrappers
  import opened JavaInts
  import opened WireFormat
  import opened Buffers
  import opened Versions
  import Utf8

  class PacketWrapper {
    const clientVersion: ClientVersion
    const serverVersion: ServerVersion
    const byteBuf: ByteBuf
    const packetID: int32

    ghost predicate Valid()
      reads this, byteBuf
    {
      byteBuf.Valid()
    }

    constructor (clientVersion: ClientVersion, serverVersion: ServerVersion, byteBuf: ByteBuf, packetID: int32)
      requires byteBuf.Valid()
      ensures Valid()
      ensures this.clientVersion == clientVersion && this.serverVersion == serverVersion
      ensures this.byteBuf == byteBuf && this.packetID == packetID
    {
      this.clientVersion := clientVersion;
      this.serverVersion := serverVersion;
      this.byteBuf := byteBuf;
      this.packetID := packetID;
    }

    /** `createUniversalPacketWrapper`: an UNKNOWN client, packet id -1; the server version is passed in. */
    static method CreateUniversalPacketWrapper(byteBuf: ByteBuf, serverVersion: ServerVersion) returns (w: PacketWrapper)
      requires byteBuf.Valid()
      ensures fresh(w) && w.Valid()
      ensures w.clientVersion == UNKNOWN && w.serverVersion == serverVersion
      ensures w.byteBuf == byteBuf && w.packetID == -1
    {
      w := new PacketWrapper(UNKNOWN, serverVersion, byteBuf, -1);
    }

    /** `writeData`: the base wrapper has no fields to write. */
    method WriteData()
      requires Valid()
      modifies byteBuf
      ensures Valid() && unchanged(byteBuf)
    {
    }

    /** `resetByteBuf`: empty the buffer, then write the packet id as a VarInt. */
    method ResetByteBuf()
      requires Valid()
      modifies byteBuf
      ensures Valid() && byteBuf.bytes == VarInt(packetID) && byteBuf.readerIndex == 0
    {
      byteBuf.Clear();
      WriteVarInt(packetID);
    }

    // ---- VarInt --------------------------------------------------------------------------

    /**
     * `readVarInt`: read bytes while their high bit is set, or-ing their low seven bits in at
     * weight `2^(7 j)`; a sixth byte throws "VarInt too big". The sixth group is not added
     * before the throw (its value is never returned).
     */
    method ReadVarInt() returns (r: Result<int32, CodecError>)
      requires Valid()
      modifies byteBuf
      ensures Valid() && byteBuf.bytes == old(byteBuf.bytes)
      ensures Parsed(r, byteBuf.readerIndex) == ReadVarIntAt(old(byteBuf.bytes), old(byteBuf.readerIndex))
    {
      ghost var data, start := byteBuf.bytes, byteBuf.readerIndex;
      var i: nat := 0;
      var j: nat := 0;
      while true
        invariant byteBuf.Valid() && byteBuf.bytes == data
        invariant j <= 5 && i < Weight(j) && i < TWO_32
        invariant ReadVarIntLoop(data, byteBuf.readerIndex, i, j) == ReadVarIntLoop(data, start, 0, 0)
        decreases 5 - j
      {
        ghost var pos := byteBuf.readerIndex;
        var b0 := byteBuf.ReadByte();
        if b0.Failure? || j == 5 {
          ReadVarIntLoopThrows(data, pos, i, j);
          return Failure(if b0.Failure? then b0.error else VarIntTooBig);
        }
        var b := b0.value;
        ReadVarIntLoopStep(data, pos, i, j);
        i := i + Place(b % 128, j);
        j := j + 1;
        if b < 128 {
          assert ReadVarIntLoop(data, start, 0, 0) == Parsed(Success(i), pos + 1);
          return Success(ToSigned(i, 4));
        }
      }
    }

    /**
     * `writeVarInt`: while the value has bits above the low seven, write those seven with the
     * continuation bit and shift the value right by seven (unsigned); then write the rest.
     */
    method WriteVarInt(value: int32)
      requires Valid()
      modifies byteBuf
      ensures Valid() && byteBuf.bytes == old(byteBuf.bytes) + VarInt(value)
      ensures byteBuf.readerIndex == old(byteBuf.readerIndex)
    {
      var u: nat := ToUnsigned(value, 4);
      while u >= 128
        invariant byteBuf.Valid() && byteBuf.readerIndex == old(byteBuf.readerIndex)
        invariant byteBuf.bytes + VarIntBytes(u) == old(byteBuf.bytes) + VarInt(value)
        decreases u
      {
        byteBuf.WriteBytes([(u % 128 + 128)]);
        u := u / 128;
      }
      byteBuf.WriteBytes([u]);
    }

    // ---- Strings -------------------------------------------------------------------------

    /** `readString(maxLen)`. */
    method ReadString(maxLen: int32) returns (r: Result<string, CodecError>)
      requires Valid()
      modifies byteBuf
      ensures Valid() && byteBuf.bytes == old(byteBuf.bytes)
      ensures Parsed(r, byteBuf.readerIndex) == ReadStringAt(old(byteBuf.bytes), old(byteBuf.readerIndex), maxLen)
    {
      var p := ReadVarInt();
      if p.Failure? {
        return Failure(p.error);
      }
      var j := p.value;
      if j > Wrap32(maxLen * 4) {
        return Failure(DeclaredLengthTooLong);
      } else if j < 0 {
        return Failure(NegativeLength);
      }
      var s := byteBuf.DecodeString(byteBuf.readerIndex, j);
      if s.Failure? {
        return Failure(s.error);
      }
      var _ := byteBuf.SetReaderIndex(byteBuf.readerIndex + j);
      if Utf8.Utf16Length(s.value) > maxLen {
        return Failure(StringTooLong);
      }
      return Success(s.value);
    }

    /** `readString()`: the limit 32767. */
    method ReadStringDefault() returns (r: Result<string, CodecError>)
      requires Valid()
      modifies byteBuf
      ensures Valid() && byteBuf.bytes == old(byteBuf.bytes)
      ensures Parsed(r, byteBuf.readerIndex) == ReadStringAt(old(byteBuf.bytes), old(byteBuf.readerIndex), DEFAULT_MAX_LEN)
    {
      r := ReadString(DEFAULT_MAX_LEN);
    }

    /** `writeString(s, maxLen)`: on refusal (EncoderException) nothing is written. */
    method WriteString(s: string, maxLen: int32) returns (r: Result<(), CodecError>)
      requires Valid()
      modifies byteBuf
      ensures Valid() && byteBuf.readerIndex == old(byteBuf.readerIndex)
      ensures r.Success? <==> WriteStringBytes(s, maxLen).Success?
      ensures r.Failure? ==> r.error == EncodedStringTooBig && byteBuf.bytes == old(byteBuf.bytes)
      ensures r.Success? ==> byteBuf.bytes == old(byteBuf.bytes) + WriteStringBytes(s, maxLen).value
    {
      var bytes := Utf8.Encode(s);
      if |bytes| > maxLen {
        return Failure(EncodedStringTooBig);
      }
      WriteVarInt(|bytes|);
      byteBuf.WriteBytes(bytes);
      r := Success(());
    }

    /** `writeString(s)`: the limit 32767. */
    method WriteStringDefault(s: string) returns (r: Result<(), CodecError>)
      requires Valid()
      modifies byteBuf
      ensures Valid() && byteBuf.readerIndex == old(byteBuf.readerIndex)
      ensures r.Success? <==> WriteStringBytes(s, DEFAULT_MAX_LEN).Success?
      ensures r.Failure? ==> r.error == EncodedStringTooBig && byteBuf.bytes == old(byteBuf.bytes)
      ensures r.Success? ==> byteBuf.bytes == old(byteBuf.bytes) + WriteStringBytes(s, DEFAULT_MAX_LEN).value
    {
      r := WriteString(s, DEFAULT_MAX_LEN);
    }

    // ---- Fixed-width values: delegations to the buffer ------------------------------------

    /** `readByte`. */
    method ReadByte() returns (r: Result<byte, CodecError>)
      requires Valid()
      modifies byteBuf
      ensures Valid() && byteBuf.bytes == old(byteBuf.bytes)
      ensures Parsed(r, byteBuf.readerIndex) == ReadByteAt(old(byteBuf.bytes), old(byteBuf.readerIndex))
    {
      r := byteBuf.ReadByte();
    }

    /** `writeByte`. */
    method WriteByte(value: byte)
      requires Valid()
      modifies byteBuf
      ensures Valid() && byteBuf.bytes == old(byteBuf.bytes) + [value]
      ensures byteBuf.readerIndex == old(byteBuf.readerIndex)
    {
      byteBuf.WriteBytes([value]);
    }

    /** `readInt`. */
    method ReadInt() returns (r: Result<int32, CodecError>)
      requires Valid()
      modifies byteBuf
      ensures Valid() && byteBuf.bytes == old(byteBuf.bytes)
      ensures Parsed(r, byteBuf.readerIndex) == ReadIntAt(old(byteBuf.bytes), old(byteBuf.readerIndex))
    {
      var u := byteBuf.ReadUnsigned(4);
      if u.Failure? {
        return Failure(u.error);
      }
      r := Success(ToSigned(u.value, 4));
    }

    /** `writeInt`. */
    method WriteInt(value: int32)
      requires Valid()
      modifies byteBuf
      ensures Valid() && byteBuf.bytes == old(byteBuf.bytes) + IntBytes(value)
      ensures byteBuf.readerIndex == old(byteBuf.readerIndex)
    {
      byteBuf.WriteBytes(IntBytes(value));
    }

    /** `readUnsignedShort`. */
    method ReadUnsignedShort() returns (r: Result<nat, CodecError>)
      requires Valid()
      modifies byteBuf
      ensures Valid() && byteBuf.bytes == old(byteBuf.bytes)
      ensures Parsed(r, byteBuf.readerIndex) == ReadUnsignedShortAt(old(byteBuf.bytes), old(byteBuf.readerIndex))
    {
      r := byteBuf.ReadUnsigned(2);
    }

    /** `readShort`. */
    method ReadShort() returns (r: Result<int16, CodecError>)
      requires Valid()
      modifies byteBuf
      ensures Valid() && byteBuf.bytes == old(byteBuf.bytes)
      ensures Parsed(r, byteBuf.readerIndex) == ReadShortAt(old(byteBuf.bytes), old(byteBuf.readerIndex))
    {
      var u := byteBuf.ReadUnsigned(2);
      if u.Failure? {
        return Failure(u.error);
      }
      r := Success(ToSigned(u.value, 2));
    }

    /** `writeShort`: the low 16 bits of the `int` argument. */
    method WriteShort(value: int32)
      requires Valid()
      modifies byteBuf
      ensures Valid() && byteBuf.bytes == old(byteBuf.bytes) + ShortBytes(value)
      ensures byteBuf.readerIndex == old(byteBuf.readerIndex)
    {
      byteBuf.WriteBytes(ShortBytes(value));
    }

    /** `readLong`. */
    method ReadLong() returns (r: Result<int64, CodecError>)
      requires Valid()
      modifies byteBuf
      ensures Valid() && byteBuf.bytes == old(byteBuf.bytes)
      ensures Parsed(r, byteBuf.readerIndex) == ReadLongAt(old(byteBuf.bytes), old(byteBuf.readerIndex))
    {
      var u := byteBuf.ReadUnsigned(8);
      if u.Failure? {
        return Failure(u.error);
      }
      r := Success(ToSigned(u.value, 8));
    }

    /** `writeLong`. */
    method WriteLong(value: int64)
      requires Valid()
      modifies byteBuf
      ensures Valid() && byteBuf.bytes == old(byteBuf.bytes) + LongBytes(value)
      ensures byteBuf.readerIndex == old(byteBuf.readerIndex)
    {
      byteBuf.WriteBytes(LongBytes(value));
    }

    /** `readBoolean`. */
    method ReadBoolean() returns (r: Result<bool, CodecError>)
      requires Valid()
      modifies byteBuf
      ensures Valid() && byteBuf.bytes == old(byteBuf.bytes)
      ensures Parsed(r, byteBuf.readerIndex) == ReadBooleanAt(old(byteBuf.bytes), old(byteBuf.readerIndex))
    {
      var b := byteBuf.ReadByte();
      if b.Failure? {
        return Failure(b.error);
      }
      r := Success(b.value != 0);
    }

    /** `writeBoolean`. */
    method WriteBoolean(value: bool)
      requires Valid()
      modifies byteBuf
      ensures Valid() && byteBuf.bytes == old(byteBuf.bytes) + BooleanBytes(value)
      ensures byteBuf.readerIndex == old(byteBuf.readerIndex)
    {
      byteBuf.WriteBytes(BooleanBytes(value));
    }

    // ---- Byte arrays and UUIDs -----------------------------------------------------------

    /** `readByteArray(length)`: allocate `length` bytes (refused when negative), then fill them. */
    method ReadByteArray(length: int32) returns (r: Result<seq<byte>, CodecError>)
      requires Valid()
      modifies byteBuf
      ensures Valid() && byteBuf.bytes == old(byteBuf.bytes)
      ensures Parsed(r, byteBuf.readerIndex) == ReadBytesAt(old(byteBuf.bytes), old(byteBuf.readerIndex), length)
    {
      if length < 0 {
        return Failure(NegativeArraySize);
      }
      r := byteBuf.ReadBytes(length);
    }

    /** `writeByteArray`. */
    method WriteByteArray(bs: seq<byte>)
      requires Valid()
      modifies byteBuf
      ensures Valid() && byteBuf.bytes == old(byteBuf.bytes) + bs
      ensures byteBuf.readerIndex == old(byteBuf.readerIndex)
    {
      byteBuf.WriteBytes(bs);
    }

    /** `readUUID`: the most significant half, then the least significant half. */
    method ReadUuid() returns (r: Result<Uuid, CodecError>)
      requires Valid()
      modifies byteBuf
      ensures Valid() && byteBuf.bytes == old(byteBuf.bytes)
      ensures Parsed(r, byteBuf.readerIndex) == ReadUuidAt(old(byteBuf.bytes), old(byteBuf.readerIndex))
    {
      var mostSigBits := ReadLong();
      if mostSigBits.Failure? {
        return Failure(mostSigBits.error);
      }
      var leastSigBits := ReadLong();
      if leastSigBits.Failure? {
        return Failure(leastSigBits.error);
      }
      r := Success(Uuid(mostSigBits.value, leastSigBits.value));
    }

    /** `writeUUID`. */
    method WriteUuid(uuid: Uuid)
      requires Valid()
      modifies byteBuf
      ensures Valid() && byteBuf.bytes == old(byteBuf.bytes) + UuidBytes(uuid)
      ensures byteBuf.readerIndex == old(byteBuf.readerIndex)
    {
      WriteLong(uuid.mostSigBits);
      WriteLong(uuid.leastSigBits);
    }
  }
}
