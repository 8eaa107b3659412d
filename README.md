# packetevents core, modelled in Dafny

This project models the core of packetevents, a Minecraft server plugin library that reads
and writes the game's network packets. Four parts are modelled.

- **The wire codec** (`PacketWrapper`, `SendablePacketWrapper`).
  - A packet is a byte buffer with a read cursor.
  - The packet id comes first, as a VarInt: 7-bit groups, least significant first, with bit 7
    meaning "more bytes follow".
  - Strings are a VarInt byte count followed by UTF-8 bytes, under two limits: a byte-count
    limit on writing, and a byte-count and a character-count limit on reading.
  - UUIDs are two big-endian longs, most significant first.
  - The other primitives are fixed-width big-endian fields.
  - Modules: `WireFormat` (the encodings as functions, with round-trip and rejection lemmas),
    `Buffers` (Netty's `ByteBuf` as a class with a byte sequence and a reader index),
    `PacketWrappers` and `SendablePacketWrappers` (the classes, whose methods are proved
    against `WireFormat`), `Utf8` (the UTF-8 transcoding), `JavaInts` (two's complement,
    32-bit wrap-around, big-endian bytes) and `Versions` (client and server versions, ordered
    by protocol number).
- **The packet-id registry** (`PacketType`, module `PacketTypes`).
  - In the Handshaking, Status and Login phases, ids are fixed literals.
  - In the Game phase, the id of a packet is its position in a per-version declaration list.
  - Client-to-server ids are cached per client version, with a forward and an inverse table.
  - Server-to-client ids come from one list, chosen by the server version through a chain of
    "older than" comparisons.
  - The static caches are fields of two registry classes whose load methods are proved
    against the table functions `IdTable` and `PositionMap`.
- **The pipeline splice** (`PEChannelInitializerModern`, module `ChannelInitializers`). When
  a channel is initialised, its "decoder" stage is wrapped in a `PacketDecoderModern`. When
  the channel is destroyed, the wrapper is taken out again.
- **The encode handler's bookkeeping** (`CustomBukkitEncodeHandlerModern`, module
  `EncodeHandlers`).
  - It keeps an ordered list of foreign decoders, with first-match lookups.
  - It runs the decoders in turn over each encoded packet.
  - It releases the buffer it allocated on every way out of `encode`.
  - It ignores exceptions whose cause chain holds a `CancelCodecException`.

Java's `throw` becomes a `Result` failure. Where the source moves the read cursor before it
throws, the failure carries the cursor position too (`Parsed`). Several values that the Java
code looks up globally become parameters:
- the server version;
- the per-version declaration enums, `declarations`, which are not part of this model;
- the server's original channel initializer;
- ViaVersion's answers about a connection and its packet translation, `ViaConnection`; the translation takes the boolean flag each call site passes;
- the Minecraft encoder;
- the foreign decoders' behaviour.

`readString(maxLen)` compares the declared length with `maxLen * 4` in 32-bit arithmetic.
The model keeps that arithmetic as written. `StringLimitOverflow` shows its effect: for the limit
2^29 the product wraps to -2^31 and every string is refused. The same holds for every limit whose
product wraps to a negative number, that is for limits in [2^29, 2^30) and in [3·2^29, 2^31);
for limits in [2^30, 3·2^29) the product wraps to a smaller non-negative bound instead. The
round trip is proved for every limit below 2^29, which includes the default limit 32767.

## Model

| member | source | states |
|---|---|---|
| PacketWrappers.PacketWrapper.constructor | src/main/java/io/github/retrooper/packetevents/wrapper/PacketWrapper.java:39-44 | the four fields hold exactly the arguments and the wrapper is valid |
| PacketWrappers.PacketWrapper.CreateUniversalPacketWrapper | src/main/java/io/github/retrooper/packetevents/wrapper/PacketWrapper.java:245-248 | a fresh wrapper over the given buffer with an UNKNOWN client version, the given server version and packet id -1 |
| PacketWrappers.PacketWrapper.WriteData | src/main/java/io/github/retrooper/packetevents/wrapper/PacketWrapper.java:82-84 | the base `writeData` leaves the buffer unchanged |
| PacketWrappers.PacketWrapper.ResetByteBuf | src/main/java/io/github/retrooper/packetevents/wrapper/PacketWrapper.java:102-105 | afterwards the buffer holds exactly the VarInt of the packet id, read from the start; nothing written before survives |
| PacketWrappers.PacketWrapper.ReadVarInt | src/main/java/io/github/retrooper/packetevents/wrapper/PacketWrapper.java:123-134 | the result and the new reader index are those of the VarInt reader over the old contents; the contents do not change |
| PacketWrappers.PacketWrapper.WriteVarInt | src/main/java/io/github/retrooper/packetevents/wrapper/PacketWrapper.java:136-143 | appends exactly the VarInt encoding of the value and leaves the reader index alone |
| PacketWrappers.PacketWrapper.ReadString | src/main/java/io/github/retrooper/packetevents/wrapper/PacketWrapper.java:149-164 | the result and the new reader index are those of the string reader with the given limit, including where it throws after moving the cursor |
| PacketWrappers.PacketWrapper.ReadStringDefault | src/main/java/io/github/retrooper/packetevents/wrapper/PacketWrapper.java:145-147 | as `ReadString` with the limit 32767 |
| PacketWrappers.PacketWrapper.WriteString | src/main/java/io/github/retrooper/packetevents/wrapper/PacketWrapper.java:170-178 | fails with EncodedStringTooBig and writes nothing exactly when the UTF-8 form is longer than the limit; otherwise appends its byte count as a VarInt and then the bytes |
| PacketWrappers.PacketWrapper.WriteStringDefault | src/main/java/io/github/retrooper/packetevents/wrapper/PacketWrapper.java:166-168 | as `WriteString` with the limit 32767 |
| PacketWrappers.PacketWrapper.ReadByte | src/main/java/io/github/retrooper/packetevents/wrapper/PacketWrapper.java:107-109 | reads the byte at the cursor and moves past it, or fails at the end of the data |
| PacketWrappers.PacketWrapper.WriteByte | src/main/java/io/github/retrooper/packetevents/wrapper/PacketWrapper.java:111-113 | appends the byte |
| PacketWrappers.PacketWrapper.ReadInt | src/main/java/io/github/retrooper/packetevents/wrapper/PacketWrapper.java:115-117 | reads four big-endian bytes as a signed 32-bit value |
| PacketWrappers.PacketWrapper.WriteInt | src/main/java/io/github/retrooper/packetevents/wrapper/PacketWrapper.java:119-121 | appends the four big-endian bytes of the value |
| PacketWrappers.PacketWrapper.ReadUnsignedShort | src/main/java/io/github/retrooper/packetevents/wrapper/PacketWrapper.java:180-182 | reads two big-endian bytes as a value in 0..65535 |
| PacketWrappers.PacketWrapper.ReadShort | src/main/java/io/github/retrooper/packetevents/wrapper/PacketWrapper.java:184-186 | reads two big-endian bytes as a signed 16-bit value |
| PacketWrappers.PacketWrapper.WriteShort | src/main/java/io/github/retrooper/packetevents/wrapper/PacketWrapper.java:188-190 | appends the low two bytes of the value, big-endian |
| PacketWrappers.PacketWrapper.ReadLong | src/main/java/io/github/retrooper/packetevents/wrapper/PacketWrapper.java:192-194 | reads eight big-endian bytes as a signed 64-bit value |
| PacketWrappers.PacketWrapper.WriteLong | src/main/java/io/github/retrooper/packetevents/wrapper/PacketWrapper.java:196-198 | appends the eight big-endian bytes of the value |
| PacketWrappers.PacketWrapper.ReadBoolean | src/main/java/io/github/retrooper/packetevents/wrapper/PacketWrapper.java:216-218 | reads one byte; any non-zero byte is true |
| PacketWrappers.PacketWrapper.WriteBoolean | src/main/java/io/github/retrooper/packetevents/wrapper/PacketWrapper.java:220-222 | appends 1 for true and 0 for false |
| PacketWrappers.PacketWrapper.ReadByteArray | src/main/java/io/github/retrooper/packetevents/wrapper/PacketWrapper.java:224-228 | reads exactly `length` bytes, failing on a negative length or too few bytes |
| PacketWrappers.PacketWrapper.WriteByteArray | src/main/java/io/github/retrooper/packetevents/wrapper/PacketWrapper.java:230-232 | appends the bytes |
| PacketWrappers.PacketWrapper.ReadUuid | src/main/java/io/github/retrooper/packetevents/wrapper/PacketWrapper.java:234-238 | reads the most significant long and then the least significant one |
| PacketWrappers.PacketWrapper.WriteUuid | src/main/java/io/github/retrooper/packetevents/wrapper/PacketWrapper.java:240-243 | appends the most significant long and then the least significant one |
| WireFormat.VarIntShape | src/main/java/io/github/retrooper/packetevents/wrapper/PacketWrapper.java:136-143 | a VarInt has 1 to 5 bytes; every byte but the last has bit 7 set; byte k carries bits 7k.. of the value taken unsigned; a negative value takes 5 bytes |
| WireFormat.VarIntRoundTrip | src/main/java/io/github/retrooper/packetevents/wrapper/PacketWrapper.java:123-143 | reading a VarInt where one was written returns the value and stops right after its bytes, whatever surrounds them |
| WireFormat.ReadVarIntTooBig | src/main/java/io/github/retrooper/packetevents/wrapper/PacketWrapper.java:127-132 | `VarInt too big` is thrown exactly when the first five bytes all have the continuation bit, and the cursor is then past six bytes |
| WireFormat.VarIntBytesLength | src/main/java/io/github/retrooper/packetevents/wrapper/PacketWrapper.java:136-143 | the unsigned encoding is at most m bytes long exactly when the value is below 2^(7m) |
| WireFormat.ReadStringRefusesLength | src/main/java/io/github/retrooper/packetevents/wrapper/PacketWrapper.java:150-154 | a declared length above `maxLen * 4` (in 32-bit arithmetic) or below zero is refused with the cursor right after the length, before any payload byte |
| WireFormat.ReadStringConsumesPayload | src/main/java/io/github/retrooper/packetevents/wrapper/PacketWrapper.java:155-162 | an accepted length moves the cursor past exactly that many bytes; the string is then still refused if it has more than `maxLen` UTF-16 units |
| WireFormat.StringPayloadAccepted | src/main/java/io/github/retrooper/packetevents/wrapper/PacketWrapper.java:149-164 | a payload within both limits is returned decoded, with the cursor right after it |
| WireFormat.StringRoundTrip | src/main/java/io/github/retrooper/packetevents/wrapper/PacketWrapper.java:149-178 | `readString(maxLen)` of what `writeString(s, maxLen)` wrote returns `s` and stops right after it, for every limit below 2^29 |
| WireFormat.StringLimitOverflow | src/main/java/io/github/retrooper/packetevents/wrapper/PacketWrapper.java:151 | for the limit 2^29, `maxLen * 4` wraps to -2^31 and `readString` refuses every string that `writeString` accepted |
| WireFormat.IntRoundTrip | src/main/java/io/github/retrooper/packetevents/wrapper/PacketWrapper.java:115-121 | `readInt` of what `writeInt` wrote returns the value and moves four bytes |
| WireFormat.LongRoundTrip | src/main/java/io/github/retrooper/packetevents/wrapper/PacketWrapper.java:192-198 | `readLong` of what `writeLong` wrote returns the value and moves eight bytes |
| WireFormat.ShortRoundTrip | src/main/java/io/github/retrooper/packetevents/wrapper/PacketWrapper.java:184-190 | `readShort` of what `writeShort` wrote returns the value cast to short, `readUnsignedShort` the value modulo 65536 |
| WireFormat.ShortReadsAgree | src/main/java/io/github/retrooper/packetevents/wrapper/PacketWrapper.java:180-186 | the two short readers succeed together, move the cursor alike, and agree modulo 65536 |
| WireFormat.BooleanRoundTrip | src/main/java/io/github/retrooper/packetevents/wrapper/PacketWrapper.java:216-222 | `readBoolean` of what `writeBoolean` wrote returns the value |
| WireFormat.ReadBytesAt | src/main/java/io/github/retrooper/packetevents/wrapper/PacketWrapper.java:224-228 | a successful read of `length` bytes yields that many and moves the cursor by that many |
| WireFormat.ByteArrayRoundTrip | src/main/java/io/github/retrooper/packetevents/wrapper/PacketWrapper.java:224-232 | `readByteArray(|a|)` of what `writeByteArray(a)` wrote returns `a` |
| WireFormat.UuidRoundTrip | src/main/java/io/github/retrooper/packetevents/wrapper/PacketWrapper.java:234-243 | `readUUID` of what `writeUUID` wrote returns the same UUID and moves sixteen bytes |
| JavaInts.Wrap32 | src/main/java/io/github/retrooper/packetevents/wrapper/PacketWrapper.java:151 | 32-bit `int` arithmetic: the result is congruent to the exact value modulo 2^32 and equals it when it fits |
| Utf8.DecodeEncode | src/main/java/io/github/retrooper/packetevents/wrapper/PacketWrapper.java:156 | decoding the UTF-8 bytes of a string gives the string back |
| Utf8.Utf16LengthAtMostEncoded | src/main/java/io/github/retrooper/packetevents/wrapper/PacketWrapper.java:171 | a string has at most as many UTF-16 units as its UTF-8 form has bytes, so the byte limit of `writeString` implies the character limit of `readString` |
| Utf8.DecodedLengthAtMostBytes | src/main/java/io/github/retrooper/packetevents/wrapper/PacketWrapper.java:156 | decoding never yields more UTF-16 units than there were bytes |
| SendablePacketWrappers.SendablePacketWrapper.constructor | src/main/java/io/github/retrooper/packetevents/wrapper/SendablePacketWrapper.java:28-31 | a fresh buffer holding exactly the VarInt of the packet id; the id and the client version are the arguments |
| SendablePacketWrappers.SendablePacketWrapper.WithoutClient | src/main/java/io/github/retrooper/packetevents/wrapper/SendablePacketWrapper.java:33-36 | as the constructor, with the client version UNKNOWN |
| SendablePacketWrappers.SendablePacketWrapper.CreatePacket | src/main/java/io/github/retrooper/packetevents/wrapper/SendablePacketWrapper.java:48-50 | does what `writeData` does: with the base `writeData` the buffer is unchanged |
| SendablePacketWrappers.HeaderReadsBack | src/main/java/io/github/retrooper/packetevents/wrapper/SendablePacketWrapper.java:28-36 | a freshly built and created wrapper reads its own packet id back and has nothing left unread |
| PacketTypes.HandshakingClientById | src/main/java/io/github/retrooper/packetevents/protocol/PacketType.java:80-88 | a token exactly for the ids 0 and 254, and its `getID()` is the id asked for |
| PacketTypes.StatusClientById | src/main/java/io/github/retrooper/packetevents/protocol/PacketType.java:108-116 | a token exactly for the ids 0 and 1, with that `getID()` |
| PacketTypes.StatusServerById | src/main/java/io/github/retrooper/packetevents/protocol/PacketType.java:134-142 | a token exactly for the ids 0 and 1, with that `getID()` |
| PacketTypes.LoginClientById | src/main/java/io/github/retrooper/packetevents/protocol/PacketType.java:164-174 | a token exactly for the ids 0 to 2, with that `getID()` |
| PacketTypes.LoginServerById | src/main/java/io/github/retrooper/packetevents/protocol/PacketType.java:197-212 | a token exactly for the ids 0 to 4, with that `getID()` |
| PacketTypes.FixedIdsRoundTrip | src/main/java/io/github/retrooper/packetevents/protocol/PacketType.java:61-212 | `getById(t.getID()) == t` for every token of the fixed-id phases |
| PacketTypes.FixedById | src/main/java/io/github/retrooper/packetevents/protocol/PacketType.java:35-48 | in a fixed phase a token exists exactly for the declared ids; it is of that phase, has that id, and is a client token in HANDSHAKING and of the requested side otherwise |
| PacketTypes.GetById | src/main/java/io/github/retrooper/packetevents/protocol/PacketType.java:33-58 | dispatch: the token has the requested phase and side (always client in HANDSHAKING); in a fixed phase it exists exactly for the declared ids and has that id; in GAME it is the client table entry for a loaded version and an id inside its list, or the server cache entry |
| PacketTypes.HandshakingIgnoresSide | src/main/java/io/github/retrooper/packetevents/protocol/PacketType.java:35-36 | in HANDSHAKING both sides get the same answer |
| PacketTypes.ValueOf | src/main/java/io/github/retrooper/packetevents/protocol/PacketType.java:290 | `valueOf` succeeds exactly for a declared constant name and returns it |
| PacketTypes.IdTable | src/main/java/io/github/retrooper/packetevents/protocol/PacketType.java:289-293 | the id-to-token table of a list has exactly the positions as keys, each mapped to the name there |
| PacketTypes.PositionMap | src/main/java/io/github/retrooper/packetevents/protocol/PacketType.java:289-293 | each key of the token-to-id table is mapped to a position holding it |
| PacketTypes.PositionMapComplete | src/main/java/io/github/retrooper/packetevents/protocol/PacketType.java:289-293 | every listed name is a key of the token-to-id table (at its last position) |
| PacketTypes.TablesAreInverse | src/main/java/io/github/retrooper/packetevents/protocol/PacketType.java:286-296 | for a list of distinct names the two tables are mutually inverse bijections between positions and names |
| PacketTypes.IdTableSnoc | src/main/java/io/github/retrooper/packetevents/protocol/PacketType.java:289-293 | one more loop turn adds exactly its entry to each table |
| PacketTypes.BuildTables | src/main/java/io/github/retrooper/packetevents/protocol/PacketType.java:286-293 | the loop succeeds exactly when every name is a constant, and then yields the two tables of the list; otherwise `valueOf` throws |
| PacketTypes.FirstInvalid | src/main/java/io/github/retrooper/packetevents/protocol/PacketType.java:463-464 | the index of the first name `valueOf` rejects: all names before it are constants |
| PacketTypes.GameClientRegistry.constructor | src/main/java/io/github/retrooper/packetevents/protocol/PacketType.java:273-274 | both caches start empty |
| PacketTypes.GameClientRegistry.LoadPacketIDs | src/main/java/io/github/retrooper/packetevents/protocol/PacketType.java:286-296 | on success the version's two tables are those of the list; a name that is not a constant throws and nothing is stored |
| PacketTypes.GameClientRegistry.Load | src/main/java/io/github/retrooper/packetevents/protocol/PacketType.java:298-326 | on success each of the 28 client versions holds the tables of the list named for it and the loaded versions are exactly the old ones plus those 28; whatever the outcome, no other version is added and a version outside the 28 keeps its entry |
| PacketTypes.GameClientRegistry.LoadEach | src/main/java/io/github/retrooper/packetevents/protocol/PacketType.java:298-326 | the calls of `load` one after the other, for any list of calls with increasing versions: the same guarantees as `Load`, over that list |
| PacketTypes.ClientLoadsIncrease | src/main/java/io/github/retrooper/packetevents/protocol/PacketType.java:298-326 | the versions are loaded in increasing protocol order |
| PacketTypes.IncreasingIsDistinct | src/main/java/io/github/retrooper/packetevents/protocol/PacketType.java:298-326 | hence no version is loaded twice and a later load never overwrites an earlier one |
| PacketTypes.GameClientRegistry.SharedListsShareTables | src/main/java/io/github/retrooper/packetevents/protocol/PacketType.java:301-307 | versions loaded from the same list (1.9 to 1.11.1, for instance) have identical tables |
| PacketTypes.GameClientRegistry.GetById | src/main/java/io/github/retrooper/packetevents/protocol/PacketType.java:277-284 | a token exactly for a loaded version and an id inside its list: the name at that position |
| PacketTypes.GameClientRegistry.GetPacketID | src/main/java/io/github/retrooper/packetevents/protocol/PacketType.java:269-271 | throws exactly for a version never loaded; otherwise -1 exactly for a token absent from the list, else a position holding the token |
| PacketTypes.GameClientRegistry.IdsRoundTrip | src/main/java/io/github/retrooper/packetevents/protocol/PacketType.java:269-296 | for a loaded version, `getById(getPacketID(t)) == t` for a listed token and `getPacketID(getById(id)) == id` for a mapped id |
| PacketTypes.FloorFrom | src/main/java/io/github/retrooper/packetevents/protocol/PacketType.java:471-530 | the first bound from a start position that the version is older than: not older than any bound before it |
| PacketTypes.FloorIndex | src/main/java/io/github/retrooper/packetevents/protocol/PacketType.java:471-530 | the chosen list is one of the fourteen |
| PacketTypes.FloorFromMonotone | src/main/java/io/github/retrooper/packetevents/protocol/PacketType.java:471-530 | a newer version stops the chain no earlier than an older one |
| PacketTypes.FloorMonotone | src/main/java/io/github/retrooper/packetevents/protocol/PacketType.java:471-530 | a newer server version never gets an earlier list, and every version from 1.17 on gets the 1.17 list |
| PacketTypes.AssignedIsTable | src/main/java/io/github/retrooper/packetevents/protocol/PacketType.java:462-468 | the loop's step-by-step updates amount to the token-to-id table over the old `id` fields and the id-to-token table over the old cache |
| PacketTypes.AssignIdsLoop | src/main/java/io/github/retrooper/packetevents/protocol/PacketType.java:462-468 | the loop succeeds exactly when every name is a constant; it stores the entries of the names before the first rejected one |
| PacketTypes.GameServerRegistry.constructor | src/main/java/io/github/retrooper/packetevents/protocol/PacketType.java:331-455 | the constants are the 116 `Game.Server` constants, every `id` is -1 and the cache is empty |
| PacketTypes.GameServerRegistry.GetID | src/main/java/io/github/retrooper/packetevents/protocol/PacketType.java:449-453 | a constant never assigned an id reports -1 |
| PacketTypes.GameServerRegistry.GetById | src/main/java/io/github/retrooper/packetevents/protocol/PacketType.java:457-460 | a token exactly for a cached id |
| PacketTypes.GameServerRegistry.LoadPacketIDs | src/main/java/io/github/retrooper/packetevents/protocol/PacketType.java:462-468 | the `id` fields and the cache gain the tables of the list up to the first name `valueOf` rejects; success exactly when there is none |
| PacketTypes.GameServerRegistry.LoadedIdsAgree | src/main/java/io/github/retrooper/packetevents/protocol/PacketType.java:449-468 | after loading a list, each listed constant's `getID()` is its position and `getById` of it returns the constant; unlisted constants keep their old id (-1 if never set) |
| PacketTypes.GameServerRegistry.Load | src/main/java/io/github/retrooper/packetevents/protocol/PacketType.java:471-530 | the if-else chain loads exactly the list below the first bound the server version is older than (the 1.17 list from 1.17 on) |
| ChannelInitializers.Get | src/main/java/io/github/retrooper/packetevents/injector/modern/early/PEChannelInitializerModern.java:42 | `pipeline.get(name)` finds a handler exactly when a stage has that name, and that stage holds it |
| ChannelInitializers.Replace | src/main/java/io/github/retrooper/packetevents/injector/modern/early/PEChannelInitializerModern.java:43 | `replace(name, name, h)` puts `h` in the first stage with that name and changes no other stage; no such stage is NoSuchElement |
| ChannelInitializers.Install | src/main/java/io/github/retrooper/packetevents/injector/modern/early/PEChannelInitializerModern.java:41-44 | succeeds exactly when the "decoder" stage exists and is a ByteToMessageDecoder (NoSuchElement or ClassCast otherwise); that stage then holds a wrapper of its old handler, and every other stage and every name is kept |
| ChannelInitializers.Uninstall | src/main/java/io/github/retrooper/packetevents/injector/modern/early/PEChannelInitializerModern.java:46-52 | a wrapper in the "decoder" stage is replaced by its previous decoder; otherwise the pipeline is unchanged; names are kept |
| ChannelInitializers.UninstallAfterInstall | src/main/java/io/github/retrooper/packetevents/injector/modern/early/PEChannelInitializerModern.java:41-52 | `postDestroyChannel` after a successful `postInitChannel` restores the original pipeline |
| ChannelInitializers.SplicesKeepNamesUnique | src/main/java/io/github/retrooper/packetevents/injector/modern/early/PEChannelInitializerModern.java:41-52 | both splices keep the stage names distinct |
| ChannelInitializers.ChannelPipeline.ReplaceHandler | src/main/java/io/github/retrooper/packetevents/injector/modern/early/PEChannelInitializerModern.java:43 | the pipeline becomes the `Replace` of the old one, or is unchanged on failure |
| ChannelInitializers.PostInitChannel | src/main/java/io/github/retrooper/packetevents/injector/modern/early/PEChannelInitializerModern.java:41-44 | the pipeline becomes `Install` of the old one; on failure it is unchanged and the error is Install's |
| ChannelInitializers.PostDestroyChannel | src/main/java/io/github/retrooper/packetevents/injector/modern/early/PEChannelInitializerModern.java:46-52 | the pipeline becomes `Uninstall` of the old one |
| ChannelInitializers.PEChannelInitializerModern.constructor | src/main/java/io/github/retrooper/packetevents/injector/modern/early/PEChannelInitializerModern.java:36-39 | keeps the original initializer |
| ChannelInitializers.PEChannelInitializerModern.InitChannel | src/main/java/io/github/retrooper/packetevents/injector/modern/early/PEChannelInitializerModern.java:63-66 | the original initializer runs first and the splice applies to the pipeline it produced; if it throws, nothing is spliced |
| EncodeHandlers.CustomBukkitEncodeHandlerModern.constructor | src/main/java/io/github/retrooper/packetevents/utils/dependencies/viaversion/CustomBukkitEncodeHandlerModern.java:58-66 | the decoder list starts empty |
| EncodeHandlers.CustomBukkitEncodeHandlerModern.AddCustomDecoder | src/main/java/io/github/retrooper/packetevents/utils/dependencies/viaversion/CustomBukkitEncodeHandlerModern.java:68-70 | appends at the end; the earlier entries and their order are unchanged |
| EncodeHandlers.CustomBukkitEncodeHandlerModern.GetCustomDecoder | src/main/java/io/github/retrooper/packetevents/utils/dependencies/viaversion/CustomBukkitEncodeHandlerModern.java:72-79 | the first entry whose class is exactly the one asked for, and nothing exactly when there is none |
| EncodeHandlers.CustomBukkitEncodeHandlerModern.GetCustomDecoderBySimpleName | src/main/java/io/github/retrooper/packetevents/utils/dependencies/viaversion/CustomBukkitEncodeHandlerModern.java:81-88 | the first entry whose simple class name is the one asked for, and nothing exactly when there is none |
| EncodeHandlers.CustomBukkitEncodeHandlerModern.Transform | src/main/java/io/github/retrooper/packetevents/utils/dependencies/viaversion/CustomBukkitEncodeHandlerModern.java:91-95 | fails with the cancel exception exactly when the clientbound check fails; with an active connection the readable bytes become their translation with the flag `false`, and a failed translation is rethrown; otherwise the buffer is unchanged |
| EncodeHandlers.CustomBukkitEncodeHandlerModern.Encode | src/main/java/io/github/retrooper/packetevents/utils/dependencies/viaversion/CustomBukkitEncodeHandlerModern.java:98-153 | a failed serverbound check clears the buffer and throws the cancel exception; otherwise the outcome is the decoder chain over the readable bytes, translated with the flag `true` when the connection is active; the allocated buffer is released on every way out; once the check passes, `byteBuf` holds the old bytes plus the encoded ones, fully read when the connection is active and with its reader index unchanged otherwise |
| EncodeHandlers.CustomBukkitEncodeHandlerModern.ContainsCause | src/main/java/io/github/retrooper/packetevents/utils/dependencies/viaversion/CustomBukkitEncodeHandlerModern.java:155-164 | true exactly when some throwable in the cause chain is assignable to the class; false for null |
| EncodeHandlers.CustomBukkitEncodeHandlerModern.ExceptionCaught | src/main/java/io/github/retrooper/packetevents/utils/dependencies/viaversion/CustomBukkitEncodeHandlerModern.java:166-170 | returns without delegating exactly when the cause chain contains a CancelCodecException |
| EncodeHandlers.Catch | src/main/java/io/github/retrooper/packetevents/utils/dependencies/viaversion/CustomBukkitEncodeHandlerModern.java:141-147 | an invocation failure is rethrown exactly when its cause is an Exception or an Error; it never lets the chain go on |
| EncodeHandlers.ChainAppend | src/main/java/io/github/retrooper/packetevents/utils/dependencies/viaversion/CustomBukkitEncodeHandlerModern.java:121-128 | the chain runs in list order: a concatenated list runs the first part, then the second from its result |
| EncodeHandlers.ChainSkipsOthers | src/main/java/io/github/retrooper/packetevents/utils/dependencies/viaversion/CustomBukkitEncodeHandlerModern.java:121-128 | entries that are neither kind of decoder are skipped |
| EncodeHandlers.EmptyOutputFails | src/main/java/io/github/retrooper/packetevents/utils/dependencies/viaversion/CustomBukkitEncodeHandlerModern.java:123-126 | a decoder with empty output ends the chain with IndexOutOfBounds, whatever follows it |
| EncodeHandlers.StoppedPrefix | src/main/java/io/github/retrooper/packetevents/utils/dependencies/viaversion/CustomBukkitEncodeHandlerModern.java:119-147 | once a prefix of the decoders has stopped the chain with an exception, appending any further decoders leaves the outcome unchanged |
| EncodeHandlers.CauseChain | src/main/java/io/github/retrooper/packetevents/utils/dependencies/viaversion/CustomBukkitEncodeHandlerModern.java:156-161 | the chain starts at the throwable, follows `getCause()` link by link and ends at a throwable without cause |
| EncodeHandlers.BufferPool.Allocate | src/main/java/io/github/retrooper/packetevents/utils/dependencies/viaversion/CustomBukkitEncodeHandlerModern.java:115 | the allocated buffer is fresh, empty and live |
| EncodeHandlers.BufferPool.Release | src/main/java/io/github/retrooper/packetevents/utils/dependencies/viaversion/CustomBukkitEncodeHandlerModern.java:148-151 | the released buffer is no longer live |

## Left out

- Floating point: `readFloat`, `writeFloat`, `readDouble` and `writeDouble` are not modelled.
- The event-based constructors of both wrappers and the `readData` hooks are not modelled. They only copy fields out of an event object.
- `getClientVersion`, `getServerVersion`, `getByteBuf` and `getPacketID` are plain field reads of the wrapper class.
- Netty's `ByteBuf` is modelled by its readable contents and its reader index only. Capacity, reference counting and the writer index as a separate number are not modelled, and writes never fail.
- Signed bytes are modelled as their unsigned values 0..255. The VarInt code works on the value of the `int` taken as unsigned, so `value & -128`, `value & 127 | 128` and `>>>= 7` become comparisons, remainders and divisions. The read loop adds each 7-bit group at its place: the groups do not overlap, so this equals the source's `|`, and the fifth group keeps only the bits that fit.
- Utf8: Java strings are modelled as sequences of Unicode scalar values. Lone surrogates cannot occur, and a malformed byte sequence decodes byte by byte to U+FFFD. Java replaces maximal invalid subsequences instead, so the model's result there may differ in how many replacement characters appear.
- The reflective `versionField` copy in `encode`, and the static block that looks that field up, are not modelled.
- The reflective `initChannelMethod` lookup and call in `PEChannelInitializerModern` become the parameter `oldChannelInitializer`. `getOldChannelInitializer` returns that field.
- EncodeHandlers.CustomBukkitEncodeHandlerModern.Transform: the translation is taken to be all-or-nothing, so one that throws leaves the buffer untouched. In Java `transformPacket` works on the buffer in place and may have moved its reader index or changed its bytes before it throws.
- ChannelInitializers.PEChannelInitializerModern.InitChannel: the original initializer is a pure function of the pipeline here, so one that throws is taken to leave the pipeline untouched. In Java it runs on the live channel through reflection and may add handlers before it throws.
- The tail of `encode`, lines 129-140, hands `result` to an output list `list` that the method never declares. `Encode` returns the outcome of the decoder chain instead, so what would be appended is not modelled.
- EncodeHandlers.CustomBukkitEncodeHandlerModern.Encode: the decoders get the readable bytes as a value. When the connection is not active, Java hands them `byteBuf` itself, and a decoder that reads from it moves its reader index; the model keeps that index where `encode` left it.
- EncodeHandlers.CustomBukkitEncodeHandlerModern.Encode: an exception thrown by the Minecraft encoder, reached through `CustomPipelineUtil.callEncode`, is not modelled. The encoder is a total function here.
- EncodeHandlers.CustomBukkitEncodeHandlerModern.ExceptionCaught: delegating to the superclass, and the `printStackTrace` logging that follows, are not modelled. Only the early return is.
- `PacketDecoderModern` is not part of this model. Its constructor is taken to keep the decoder it is given as `previousDecoder`, and the wrapper itself is taken to be a `ByteToMessageDecoder`.
- Cause chains are finite: a `Throwable` is a datatype, so a cycle of causes cannot be expressed, and `containsCause` on a cyclic chain would not terminate.
- `IdentityHashMap<Integer, …>` compares boxed ids by identity. That matches value equality only for ids in -128..127, the range of Java's Integer cache. The model uses ordinary maps, so it assumes every packet id lies in that range.
- Game.Client and Game.Server: the loops of both `loadPacketIDs` run on values (`BuildTables`, `AssignIdsLoop`), and the static caches are assigned once the loop ends. Java updates the server's `id` fields and caches in place one by one. No caller can observe the difference, since the class is not used concurrently.
- PacketTypes.GameClientRegistry.Load: when a list names a constant that `Game.Client` does not declare, only the frame is stated (no other version is added and the others keep their entries); which of the 28 versions were loaded before the failure is not. `load` then throws out of the class initialiser, and the caches are never used.
- Game.Client `load` is modelled as a loop over the sequence `CLIENT_LOADS` of its 28 (version, list) calls, in source order. The source writes these as 28 straight-line calls.
- Concurrency is not modelled: the static caches are not synchronised.
