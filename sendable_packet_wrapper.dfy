/**
 * `SendablePacketWrapper`: a wrapper built to be sent. Its id-taking constructors allocate a
 * fresh buffer and write the packet id into it as a VarInt header; `createPacket` runs the
 * wrapper's `writeData`. The Java subclass is modelled by composition: `base` is the
 * `PacketWrapper` part, and the server version the constructors look up globally is a
 * parameter.
 */
module SendablePacketWrappers {
  import opened Wrappers
  import opened JavaInts
  import opened WireFormat
  import opened Buffers
  import opened Versions
  import opened PacketWrappers

  class SendablePacketWrapper {
    const base: PacketWrapper

    ghost predicate Valid()
      reads this, base, base.byteBuf
    {
      base.Valid()
    }

    /** `SendablePacketWrapper(packetID, clientVersion)`. */
    constructor (packetID: int32, clientVersion: ClientVersion, serverVersion: ServerVersion)
      ensures Valid() && fresh(base) && fresh(base.byteBuf)
      ensures base.packetID == packetID && base.clientVersion == clientVersion
      ensures base.serverVersion == serverVersion
      ensures base.byteBuf.bytes == VarInt(packetID) && base.byteBuf.readerIndex == 0
    {
      var buffer := new ByteBuf();
      var wrapper := new PacketWrapper(clientVersion, serverVersion, buffer, packetID);
      wrapper.WriteVarInt(packetID);
      base := wrapper;
    }

    /** `SendablePacketWrapper(packetID)`: the client version is UNKNOWN. */
    constructor WithoutClient(packetID: int32, serverVersion: ServerVersion)
      ensures Valid() && fresh(base) && fresh(base.byteBuf)
      ensures base.packetID == packetID && base.clientVersion == UNKNOWN
      ensures base.serverVersion == serverVersion
      ensures base.byteBuf.bytes == VarInt(packetID) && base.byteBuf.readerIndex == 0
    {
      var buffer := new ByteBuf();
      var wrapper := new PacketWrapper(UNKNOWN, serverVersion, buffer, packetID);
      wrapper.WriteVarInt(packetID);
      base := wrapper;
    }

    /** `createPacket`: exactly `writeData`, which writes nothing in the base wrapper. */
    method CreatePacket()
      requires Valid()
      modifies base.byteBuf
      ensures Valid() && unchanged(base.byteBuf)
    {
      base.WriteData();
    }
  }

  /**
   * A wrapper built for `packetID` and then created reads its own id back from the front of
   * its buffer, and nothing is left unread after it.
   */
  method HeaderReadsBack(packetID: int32, clientVersion: ClientVersion, serverVersion: ServerVersion)
    returns (id: Result<int32, CodecError>, unread: nat)
    ensures id == Success(packetID) && unread == 0
  {
    var w := new SendablePacketWrapper(packetID, clientVersion, serverVersion);
    w.CreatePacket();
    VarIntRoundTrip(packetID, [], []);
    assert [] + VarInt(packetID) + [] == VarInt(packetID);
    id := w.base.ReadVarInt();
    unread := w.base.byteBuf.ReadableBytes();
  }
}
