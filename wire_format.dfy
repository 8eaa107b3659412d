/**
 * The primitive wire encodings that `PacketWrapper` reads and writes, stated as functions
 * over byte sequences: what each writer appends, and what each reader returns together with
 * where it leaves the read cursor (also when it throws). The class in PacketWrappers is
 * proved against these functions; the round trips and rejection rules are proved here.
 */
module WireFormat {
  import opened Wrappers
  import opened JavaInts
  import Utf8

  /** The exceptions the codec throws. */
  datatype CodecError =
    | IndexOutOfBounds        // Netty: fewer readable bytes than the read needs
    | VarIntTooBig            // "VarInt too big"
    | DeclaredLengthTooLong   // declared string byte length above maxLen * 4
    | NegativeLength          // declared string byte length below zero
    | StringTooLong           // decoded string has more than maxLen characters
    | EncodedStringTooBig     // writeString: more than maxLen UTF-8 bytes
    | NegativeArraySize       // readByteArray with a negative length

  /** What a reader returns, and where the read cursor stands afterwards. */
  datatype Parsed<T> = Parsed(result: Result<T, CodecError>, next: nat)

  // ---- VarInt ----------------------------------------------------------------------------
  //
  // The bit operators of `readVarInt`/`writeVarInt` act on the 32-bit pattern of a Java `int`;
  // here they act on its unsigned value `u` (0 <= u < 2^32): `(value & -128) != 0` holds
  // exactly when u >= 128, `value & 127 | 128` is `u % 128 + 128`, `value >>>= 7` is
  // `u / 128`, and `b & 127` on a byte is `b % 128`.

  const TWO_32: int := 0x1_0000_0000

  /**
   * The bytes `writeVarInt` emits for the unsigned value `u`: while `u` has bits above the low
   * seven, its low seven bits with the continuation bit set, then `u / 128`; finally `u`
   * itself as one byte.
   */
  function VarIntBytes(u: nat): (r: seq<byte>)
    decreases u
  {
    if u < 128 then [u] else [(u % 128 + 128)] + VarIntBytes(u / 128)
  }

  /** `writeVarInt(v)`. */
  function VarInt(v: int32): seq<byte> {
    VarIntBytes(ToUnsigned(v, 4))
  }

  /** `2^(7 j)`, the weight of the `j`-th 7-bit group. */
  function Weight(j: nat): (w: nat)
    requires j <= 5
    ensures w >= 1
  {
    if j == 0 then 1 else if j == 1 then 0x80 else if j == 2 then 0x4000
    else if j == 3 then 0x20_0000 else if j == 4 then 0x1000_0000 else 0x8_0000_0000
  }

  /**
   * `(b & 127) << j * 7` on a Java `int` for a group `g` and `j <= 4`: the group lands at
   * weight `2^(7 j)`, and of the fifth group only the low four bits fit into 32 bits.
   */
  function Place(g: nat, j: nat): (r: nat)
    requires g < 128 && j <= 4
    ensures r + Weight(j) <= Weight(j + 1)
    ensures r + Weight(j) <= TWO_32
  {
    if j == 0 then g else if j == 1 then g * 0x80 else if j == 2 then g * 0x4000
    else if j == 3 then g * 0x20_0000 else (g % 16) * 0x1000_0000
  }

  /**
   * The do-while loop of `readVarInt`, with `j` groups already or-ed into `i` and the cursor
   * at `pos`: read a byte (failing when none is left); on the sixth byte throw "VarInt too
   * big"; otherwise add its seven low bits at weight `2^(7 j)` and go on while its high bit
   * is set. The or of the source is an addition here: `i` holds only bits below the group's
   * weight. (The source also ors the sixth group into `i` before throwing; that value is
   * never observed.)
   */
  function ReadVarIntLoop(data: seq<byte>, pos: nat, i: nat, j: nat): (p: Parsed<nat>)
    requires j <= 5 && i < Weight(j)
    ensures p.result.Success? ==> p.result.value < TWO_32
    decreases 5 - j
  {
    if pos >= |data| then Parsed(Failure(IndexOutOfBounds), pos)
    else if j == 5 then Parsed(Failure(VarIntTooBig), pos + 1)
    else
      var b := data[pos];
      var i' := i + Place(b % 128, j);
      if b >= 128 then ReadVarIntLoop(data, pos + 1, i', j + 1)
      else Parsed(Success(i'), pos + 1)
  }

  /** One pass of the loop on a byte below the sixth: continue, or stop with the group added. */
  lemma ReadVarIntLoopStep(data: seq<byte>, pos: nat, i: nat, j: nat)
    requires pos < |data| && j < 5 && i < Weight(j)
    ensures var i' := i + Place(data[pos] % 128, j);
      i' < Weight(j + 1) && i' < TWO_32
      && ReadVarIntLoop(data, pos, i, j)
        == if data[pos] >= 128 then ReadVarIntLoop(data, pos + 1, i', j + 1) else Parsed(Success(i'), pos + 1)
  {
  }

  /** The loop's two ways of throwing: no byte left, or a sixth byte. */
  lemma ReadVarIntLoopThrows(data: seq<byte>, pos: nat, i: nat, j: nat)
    requires j <= 5 && i < Weight(j) && (pos >= |data| || j == 5)
    ensures ReadVarIntLoop(data, pos, i, j)
      == if pos >= |data| then Parsed(Failure(IndexOutOfBounds), pos) else Parsed(Failure(VarIntTooBig), pos + 1)
  {
  }

  /** `readVarInt` with the read cursor at `pos`: the loop's bits taken as a Java `int`. */
  function ReadVarIntAt(data: seq<byte>, pos: nat): Parsed<int32> {
    var p := ReadVarIntLoop(data, pos, 0, 0);
    Parsed(if p.result.Success? then Success(ToSigned(p.result.value, 4)) else Failure(p.result.error), p.next)
  }

  /**
   * The arithmetic behind one group: `u` split at weight `2^(7 j)` into the groups still to
   * be written, `w`, and the bits already read, `lo`.
   */
  lemma GroupStep(u: nat, j: nat, w: nat, lo: nat)
    requires u < TWO_32 && j <= 4 && lo < Weight(j) && u == w * Weight(j) + lo
    ensures w >= 128 ==> j < 4 && u == (w / 128) * Weight(j + 1) + (lo + Place(w % 128, j))
    ensures w < 128 ==> lo + Place(w, j) == u
  {
    if j < 4 {
      assert Weight(j + 1) == Weight(j) * 128;
      if w >= 128 {
        assert w == (w / 128) * 128 + w % 128;
        assert w * Weight(j) == (w / 128) * Weight(j + 1) + (w % 128) * Weight(j);
      }
    }
  }

  /** Where the bytes of a multi-byte VarInt stand: its first byte, then the rest. */
  lemma SliceInner(data: seq<byte>, pos: nat, w: nat, rest: seq<byte>)
    requires pos <= |data| && data[pos..] == VarIntBytes(w) + rest && w >= 128
    ensures pos < |data| && data[pos] == w % 128 + 128
    ensures data[pos + 1..] == VarIntBytes(w / 128) + rest
    ensures |VarIntBytes(w)| == 1 + |VarIntBytes(w / 128)|
  {
    assert data[pos] == data[pos..][0];
    assert data[pos + 1..] == data[pos..][1..];
  }

  /** Where the single byte of a one-byte VarInt stands. */
  lemma SliceLast(data: seq<byte>, pos: nat, w: nat, rest: seq<byte>)
    requires pos <= |data| && data[pos..] == VarIntBytes(w) + rest && w < 128
    ensures pos < |data| && data[pos] == w && |VarIntBytes(w)| == 1
  {
    assert data[pos] == data[pos..][0];
  }

  /** One turn of the loop on a byte carrying group `g` with the continuation bit set. */
  lemma LoopInner(data: seq<byte>, pos: nat, i: nat, j: nat, g: nat)
    requires j < 5 && i < Weight(j) && g < 128 && pos < |data| && data[pos] == g + 128
    ensures ReadVarIntLoop(data, pos, i, j) == ReadVarIntLoop(data, pos + 1, i + Place(g, j), j + 1)
  {
    DivModUnique(g + 128, 128, 1, g);
  }

  /** The last turn of the loop, on a byte carrying group `g` and no continuation bit. */
  lemma LoopLast(data: seq<byte>, pos: nat, i: nat, j: nat, g: nat)
    requires j < 5 && i < Weight(j) && g < 128 && pos < |data| && data[pos] == g
    ensures ReadVarIntLoop(data, pos, i, j) == Parsed(Success(i + Place(g, j)), pos + 1)
  {
    DivModUnique(g, 128, 0, g);
  }

  /**
   * Started after the groups making up `lo` were read, with the cursor at the bytes written
   * for the remaining groups `w`, the loop reads the rest of `u` and stops right after the
   * last byte.
   */
  lemma {:induction false} ReadVarIntLoopResumes(data: seq<byte>, pos: nat, u: nat, j: nat, w: nat, lo: nat, rest: seq<byte>)
    requires u < TWO_32 && j <= 4 && lo < Weight(j) && u == w * Weight(j) + lo
    requires pos <= |data| && data[pos..] == VarIntBytes(w) + rest
    ensures ReadVarIntLoop(data, pos, lo, j) == Parsed(Success(u), pos + |VarIntBytes(w)|)
    decreases 4 - j
  {
    GroupStep(u, j, w, lo);
    if w >= 128 {
      SliceInner(data, pos, w, rest);
      LoopInner(data, pos, lo, j, w % 128);
      ReadVarIntLoopResumes(data, pos + 1, u, j + 1, w / 128, lo + Place(w % 128, j), rest);
    } else {
      ResumeLast(data, pos, u, j, w, lo, rest);
    }
  }

  /** The loop reads the last byte of a VarInt and returns the completed value. */
  lemma ResumeLast(data: seq<byte>, pos: nat, u: nat, j: nat, w: nat, lo: nat, rest: seq<byte>)
    requires j <= 4 && lo < Weight(j) && w < 128 && lo + Place(w, j) == u
    requires pos <= |data| && data[pos..] == VarIntBytes(w) + rest
    ensures ReadVarIntLoop(data, pos, lo, j) == Parsed(Success(u), pos + |VarIntBytes(w)|)
  {
    SliceLast(data, pos, w, rest);
    LoopLast(data, pos, lo, j, w);
  }

  /** The loop reads back the unsigned value whose bytes stand at the cursor. */
  lemma ReadVarIntLoopOfBytes(u: nat, prefix: seq<byte>, rest: seq<byte>)
    requires u < TWO_32
    ensures ReadVarIntLoop(prefix + VarIntBytes(u) + rest, |prefix|, 0, 0)
      == Parsed(Success(u), |prefix| + |VarIntBytes(u)|)
  {
    var data := prefix + VarIntBytes(u) + rest;
    assert data[|prefix|..] == VarIntBytes(u) + rest;
    assert u == u * Weight(0) + 0;
    ReadVarIntLoopResumes(data, |prefix|, u, 0, u, 0, rest);
  }

  /**
   * Round trip: wherever `writeVarInt(v)`'s bytes stand in a buffer, `readVarInt` from their
   * start returns `v` and leaves the cursor exactly at their end.
   */
  lemma VarIntRoundTrip(v: int32, prefix: seq<byte>, rest: seq<byte>)
    ensures ReadVarIntAt(prefix + VarInt(v) + rest, |prefix|) == Parsed(Success(v), |prefix| + |VarInt(v)|)
  {
    ReadVarIntLoopOfBytes(ToUnsigned(v, 4), prefix, rest);
    SignedUnsigned(v, 4);
  }

  /** Dividing by 128 and comparing with `x` is comparing with `128 x`. */
  lemma DivBy128Below(u: nat, x: nat)
    ensures u / 128 < x <==> u < 128 * x
  {
    DivModUnique(u, 128, u / 128, u % 128);
  }

  /** `writeVarInt` emits at most `m` bytes exactly when the value is below `2^(7 m)`. */
  lemma {:induction false} VarIntBytesLength(u: nat, m: nat)
    requires 1 <= m <= 5
    ensures |VarIntBytes(u)| <= m <==> u < Weight(m)
  {
    if u >= 128 && m > 1 {
      VarIntBytesLength(u / 128, m - 1);
      DivBy128Below(u, Weight(m - 1));
      assert Weight(m) == 128 * Weight(m - 1);
    }
  }

  /**
   * Byte `k` of `writeVarInt`'s output carries group `k` of `u` (bits `7k` to `7k+6`), and has
   * its high bit set exactly when it is not the last byte.
   */
  lemma {:induction false} VarIntBytesAt(u: nat, k: nat)
    requires u < TWO_32 && k < |VarIntBytes(u)|
    ensures k <= 4
    ensures (VarIntBytes(u)[k]) % 128 == u / Weight(k) % 128
    ensures (VarIntBytes(u)[k]) >= 128 <==> k < |VarIntBytes(u)| - 1
  {
    VarIntBytesLength(u, 5);
    var r := VarIntBytes(u);
    if k == 0 {
      if u < 128 {
        DivModUnique(u, 128, 0, u);
      } else {
        DivModUnique(u % 128 + 128, 128, 1, u % 128);
      }
    } else {
      assert r[k] == VarIntBytes(u / 128)[k - 1];
      VarIntBytesAt(u / 128, k - 1);
      DivModNested(u, 128, Weight(k - 1));
      assert 128 * Weight(k - 1) == Weight(k);
    }
  }

  /**
   * The shape of `writeVarInt(v)`: one to five bytes, every byte but the last with bit 7 set
   * and the last with it clear, byte `k` carrying bits `7k..7k+6` of `v` taken as unsigned;
   * so a negative value always takes five bytes.
   */
  lemma VarIntShape(v: int32)
    ensures 1 <= |VarInt(v)| <= 5
    ensures forall k :: 0 <= k < |VarInt(v)| ==>
      (VarInt(v)[k]) % 128 == ToUnsigned(v, 4) / Weight(k) % 128
      && ((VarInt(v)[k]) >= 128 <==> k < |VarInt(v)| - 1)
    ensures v < 0 ==> |VarInt(v)| == 5
  {
    var u := ToUnsigned(v, 4);
    VarIntBytesLength(u, 5);
    VarIntBytesLength(u, 4);
    forall k | 0 <= k < |VarInt(v)|
      ensures (VarInt(v)[k]) % 128 == u / Weight(k) % 128
      ensures (VarInt(v)[k]) >= 128 <==> k < |VarInt(v)| - 1
    {
      VarIntBytesAt(u, k);
    }
  }

  /**
   * From group `j` on, the loop throws "VarInt too big" exactly when the next `5 - j` bytes
   * all have the continuation bit set and one more byte follows them; it then stands after
   * that byte.
   */
  lemma {:induction false} ReadVarIntLoopTooBig(data: seq<byte>, pos: nat, i: nat, j: nat)
    requires j <= 5 && i < Weight(j)
    ensures var p := ReadVarIntLoop(data, pos, i, j);
      (p.result == Failure(VarIntTooBig) <==>
        pos + 5 - j < |data| && forall k :: pos <= k < pos + 5 - j ==> data[k] >= 128)
      && (p.result == Failure(VarIntTooBig) ==> p.next == pos + 6 - j)
    decreases 5 - j
  {
    if pos < |data| && j < 5 {
      var b := data[pos];
      if b >= 128 {
        ReadVarIntLoopTooBig(data, pos + 1, i + Place(b % 128, j), j + 1);
      }
    }
  }

  /**
   * `readVarInt` throws "VarInt too big" exactly when the first five bytes at the cursor all
   * have the continuation bit set and a sixth byte is there, which it reads before throwing.
   */
  lemma ReadVarIntTooBig(data: seq<byte>, pos: nat)
    ensures ReadVarIntAt(data, pos).result == Failure(VarIntTooBig)
      <==> pos + 5 < |data| && forall k :: pos <= k < pos + 5 ==> data[k] >= 128
    ensures ReadVarIntAt(data, pos).result == Failure(VarIntTooBig) ==> ReadVarIntAt(data, pos).next == pos + 6
  {
    ReadVarIntLoopTooBig(data, pos, 0, 0);
  }

  // ---- Fixed-width values: Netty's big-endian `ByteBuf` accessors ---------------------------

  /**
   * An `n`-byte read: the unsigned value of the next `n` bytes, most significant first, or
   * IndexOutOfBounds with the cursor unmoved when fewer than `n` bytes are readable.
   */
  function ReadUnsignedAt(data: seq<byte>, pos: nat, n: nat): (p: Parsed<nat>)
    ensures p.result.Success? ==> p.result.value < Pow256(n)
  {
    if pos + n > |data| then Parsed(Failure(IndexOutOfBounds), pos)
    else Parsed(Success(FromBigEndian(data[pos..pos + n])), pos + n)
  }

  /** `readByte`. */
  function ReadByteAt(data: seq<byte>, pos: nat): Parsed<byte> {
    if pos >= |data| then Parsed(Failure(IndexOutOfBounds), pos)
    else Parsed(Success(data[pos]), pos + 1)
  }

  /** `readInt`: four bytes as a two's complement `int`. */
  function ReadIntAt(data: seq<byte>, pos: nat): Parsed<int32> {
    var p := ReadUnsignedAt(data, pos, 4);
    Parsed(if p.result.Success? then Success(ToSigned(p.result.value, 4)) else Failure(p.result.error), p.next)
  }

  /** `readLong`: eight bytes as a two's complement `long`. */
  function ReadLongAt(data: seq<byte>, pos: nat): Parsed<int64> {
    var p := ReadUnsignedAt(data, pos, 8);
    Parsed(if p.result.Success? then Success(ToSigned(p.result.value, 8)) else Failure(p.result.error), p.next)
  }

  /** `readShort`: two bytes as a two's complement `short`. */
  function ReadShortAt(data: seq<byte>, pos: nat): Parsed<int16> {
    var p := ReadUnsignedAt(data, pos, 2);
    Parsed(if p.result.Success? then Success(ToSigned(p.result.value, 2)) else Failure(p.result.error), p.next)
  }

  /** `readUnsignedShort`: two bytes as a value in 0..65535. */
  function ReadUnsignedShortAt(data: seq<byte>, pos: nat): Parsed<nat> {
    ReadUnsignedAt(data, pos, 2)
  }

  /** `readBoolean`: one byte, true unless it is zero. */
  function ReadBooleanAt(data: seq<byte>, pos: nat): Parsed<bool> {
    if pos >= |data| then Parsed(Failure(IndexOutOfBounds), pos)
    else Parsed(Success(data[pos] != 0), pos + 1)
  }

  /** `writeInt(v)`. */
  function IntBytes(v: int32): seq<byte> {
    BigEndian(ToUnsigned(v, 4), 4)
  }

  /** `writeLong(v)`. */
  function LongBytes(v: int64): seq<byte> {
    BigEndian(ToUnsigned(v, 8), 8)
  }

  /** `writeShort(v)`: the low 16 bits of the `int` argument. */
  function ShortBytes(v: int32): seq<byte> {
    BigEndian(v % 0x1_0000, 2)
  }

  /** `writeBoolean(b)`: the byte 1 for true, 0 for false. */
  function BooleanBytes(b: bool): seq<byte> {
    [if b then 1 else 0]
  }

  /** Reading `n` bytes where a value was written as `n` bytes gives the value back. */
  lemma ReadUnsignedRoundTrip(u: nat, n: nat, prefix: seq<byte>, rest: seq<byte>)
    requires u < Pow256(n)
    ensures ReadUnsignedAt(prefix + BigEndian(u, n) + rest, |prefix|, n) == Parsed(Success(u), |prefix| + n)
  {
    var data := prefix + BigEndian(u, n) + rest;
    assert data[|prefix|..|prefix| + n] == BigEndian(u, n);
    FromBigEndianOfBigEndian(u, n);
  }

  /** `readInt` after `writeInt(v)` returns `v` and consumes four bytes. */
  lemma IntRoundTrip(v: int32, prefix: seq<byte>, rest: seq<byte>)
    ensures ReadIntAt(prefix + IntBytes(v) + rest, |prefix|) == Parsed(Success(v), |prefix| + 4)
  {
    ReadUnsignedRoundTrip(ToUnsigned(v, 4), 4, prefix, rest);
    SignedUnsigned(v, 4);
  }

  /** `readLong` after `writeLong(v)` returns `v` and consumes eight bytes. */
  lemma LongRoundTrip(v: int64, prefix: seq<byte>, rest: seq<byte>)
    ensures ReadLongAt(prefix + LongBytes(v) + rest, |prefix|) == Parsed(Success(v), |prefix| + 8)
  {
    ReadUnsignedRoundTrip(ToUnsigned(v, 8), 8, prefix, rest);
    SignedUnsigned(v, 8);
  }

  /**
   * After `writeShort(v)`, `readShort` returns `(short) v` (so `v` itself for a value in
   * range) and `readUnsignedShort` returns the low 16 bits of `v`; both consume two bytes.
   */
  lemma ShortRoundTrip(v: int32, prefix: seq<byte>, rest: seq<byte>)
    ensures ReadShortAt(prefix + ShortBytes(v) + rest, |prefix|) == Parsed(Success(ShortCast(v)), |prefix| + 2)
    ensures ReadUnsignedShortAt(prefix + ShortBytes(v) + rest, |prefix|) == Parsed(Success(v % 0x1_0000), |prefix| + 2)
  {
    ReadUnsignedRoundTrip(v % 0x1_0000, 2, prefix, rest);
  }

  /** `readShort` and `readUnsignedShort` see the same two bytes: the latter is the former & 0xFFFF. */
  lemma ShortReadsAgree(data: seq<byte>, pos: nat)
    ensures ReadShortAt(data, pos).next == ReadUnsignedShortAt(data, pos).next
    ensures ReadUnsignedShortAt(data, pos).result.Success? <==> ReadShortAt(data, pos).result.Success?
    ensures ReadShortAt(data, pos).result.Success? ==>
      ReadUnsignedShortAt(data, pos).result.value == ReadShortAt(data, pos).result.value % 0x1_0000
  {
  }

  /** `readBoolean` after `writeBoolean(b)` returns `b`. */
  lemma BooleanRoundTrip(b: bool, prefix: seq<byte>, rest: seq<byte>)
    ensures ReadBooleanAt(prefix + BooleanBytes(b) + rest, |prefix|) == Parsed(Success(b), |prefix| + 1)
  {
    var data := prefix + BooleanBytes(b) + rest;
    assert data[|prefix|] == BooleanBytes(b)[0];
  }

  // ---- Byte arrays -------------------------------------------------------------------------

  /**
   * `readByteArray(length)`: a negative length fails when the array is allocated, a length
   * beyond the readable bytes fails in `readBytes`; neither moves the cursor.
   */
  function ReadBytesAt(data: seq<byte>, pos: nat, length: int32): (p: Parsed<seq<byte>>)
    ensures p.result.Success? ==> |p.result.value| == length && p.next == pos + length
  {
    if length < 0 then Parsed(Failure(NegativeArraySize), pos)
    else if pos + length > |data| then Parsed(Failure(IndexOutOfBounds), pos)
    else Parsed(Success(data[pos..pos + length]), pos + length)
  }

  /** `readByteArray(|a|)` after `writeByteArray(a)` returns `a`. */
  lemma ByteArrayRoundTrip(a: seq<byte>, prefix: seq<byte>, rest: seq<byte>)
    requires |a| < 0x8000_0000
    ensures ReadBytesAt(prefix + a + rest, |prefix|, |a|) == Parsed(Success(a), |prefix| + |a|)
  {
    assert (prefix + a + rest)[|prefix|..|prefix| + |a|] == a;
  }

  // ---- UUID --------------------------------------------------------------------------------

  /** A `java.util.UUID`: its two 64-bit halves. */
  datatype Uuid = Uuid(mostSigBits: int64, leastSigBits: int64)

  /** `writeUUID`: the most significant half, then the least significant half. */
  function UuidBytes(id: Uuid): seq<byte> {
    LongBytes(id.mostSigBits) + LongBytes(id.leastSigBits)
  }

  /** `readUUID`: two `readLong`s, most significant first; a failure of the second leaves the first consumed. */
  function ReadUuidAt(data: seq<byte>, pos: nat): Parsed<Uuid> {
    var hi := ReadLongAt(data, pos);
    if hi.result.Failure? then Parsed(Failure(hi.result.error), hi.next)
    else
      var lo := ReadLongAt(data, hi.next);
      if lo.result.Failure? then Parsed(Failure(lo.result.error), lo.next)
      else Parsed(Success(Uuid(hi.result.value, lo.result.value)), lo.next)
  }

  /** `readUUID` after `writeUUID(id)` returns `id` and consumes sixteen bytes. */
  lemma UuidRoundTrip(id: Uuid, prefix: seq<byte>, rest: seq<byte>)
    ensures ReadUuidAt(prefix + UuidBytes(id) + rest, |prefix|) == Parsed(Success(id), |prefix| + 16)
  {
    var hi, lo := LongBytes(id.mostSigBits), LongBytes(id.leastSigBits);
    var data := prefix + UuidBytes(id) + rest;
    assert data == prefix + hi + (lo + rest);
    LongRoundTrip(id.mostSigBits, prefix, lo + rest);
    assert data == (prefix + hi) + lo + rest;
    LongRoundTrip(id.leastSigBits, prefix + hi, rest);
  }

  // ---- Strings -----------------------------------------------------------------------------

  /** The limit of the one-argument `writeString(s)` and the no-argument `readString()`. */
  const DEFAULT_MAX_LEN: int32 := 32767

  /**
   * `writeString(s, maxLen)`: the UTF-8 bytes of `s`, refused when there are more than
   * `maxLen` of them, otherwise written after their count as a VarInt.
   */
  function WriteStringBytes(s: string, maxLen: int32): Result<seq<byte>, CodecError> {
    var bytes := Utf8.Encode(s);
    if |bytes| > maxLen then Failure(EncodedStringTooBig) else Success(VarInt(|bytes|) + bytes)
  }

  /**
   * `readString(maxLen)`: read the declared byte length `j` as a VarInt; refuse it when it
   * exceeds `maxLen * 4` (computed in 32-bit `int` arithmetic) or is negative; fail when
   * fewer than `j` bytes are readable; otherwise decode the `j` bytes as UTF-8 and move the
   * cursor past them, and only then refuse a string of more than `maxLen` UTF-16 units.
   */
  function ReadStringAt(data: seq<byte>, pos: nat, maxLen: int32): Parsed<string> {
    var p := ReadVarIntAt(data, pos);
    if p.result.Failure? then Parsed(Failure(p.result.error), p.next)
    else
      var j := p.result.value;
      if j > Wrap32(maxLen * 4) then Parsed(Failure(DeclaredLengthTooLong), p.next)
      else if j < 0 then Parsed(Failure(NegativeLength), p.next)
      else if p.next + j > |data| then Parsed(Failure(IndexOutOfBounds), p.next)
      else
        var s := Utf8.Decode(data[p.next..p.next + j]);
        if Utf8.Utf16Length(s) > maxLen then Parsed(Failure(StringTooLong), p.next + j)
        else Parsed(Success(s), p.next + j)
  }

  /**
   * A declared length above `maxLen * 4` or below zero is refused whatever follows it, with
   * the cursor right after the length: no payload byte is consumed.
   */
  lemma ReadStringRefusesLength(j: int32, maxLen: int32, prefix: seq<byte>, payload: seq<byte>)
    requires j > Wrap32(maxLen * 4) || j < 0
    ensures ReadStringAt(prefix + VarInt(j) + payload, |prefix|, maxLen)
      == Parsed(Failure(if j > Wrap32(maxLen * 4) then DeclaredLengthTooLong else NegativeLength),
                |prefix| + |VarInt(j)|)
  {
    VarIntRoundTrip(j, prefix, payload);
  }

  /**
   * Once the declared length is accepted and that many bytes are there, the cursor moves past
   * exactly those bytes; the result is their decoding, or StringTooLong (with the cursor
   * already moved) when it has more than `maxLen` UTF-16 units.
   */
  lemma ReadStringConsumesPayload(payload: seq<byte>, maxLen: int32, prefix: seq<byte>, rest: seq<byte>)
    requires |payload| <= Wrap32(maxLen * 4)
    ensures var r := ReadStringAt(prefix + VarInt(|payload|) + payload + rest, |prefix|, maxLen);
      r.next == |prefix| + |VarInt(|payload|)| + |payload|
      && r.result == (if Utf8.Utf16Length(Utf8.Decode(payload)) > maxLen then Failure(StringTooLong)
                      else Success(Utf8.Decode(payload)))
  {
    var header := VarInt(|payload|);
    var data := prefix + header + payload + rest;
    assert data == prefix + header + (payload + rest);
    VarIntRoundTrip(|payload|, prefix, payload + rest);
    assert data[|prefix| + |header|..|prefix| + |header| + |payload|] == payload;
  }

  /**
   * Round trip: for a limit whose quadruple fits in an `int`, `readString(maxLen)` of what
   * `writeString(s, maxLen)` wrote returns `s` and stops right after it. (The default limit
   * 32767 is such a limit.)
   */
  lemma StringRoundTrip(s: string, maxLen: int32, prefix: seq<byte>, rest: seq<byte>)
    requires 0 <= maxLen < 0x2000_0000 && WriteStringBytes(s, maxLen).Success?
    ensures var bytes := WriteStringBytes(s, maxLen).value;
      ReadStringAt(prefix + bytes + rest, |prefix|, maxLen) == Parsed(Success(s), |prefix| + |bytes|)
  {
    var payload := Utf8.Encode(s);
    var bytes := WriteStringBytes(s, maxLen).value;
    assert bytes == VarInt(|payload|) + payload;
    assert prefix + bytes + rest == prefix + VarInt(|payload|) + payload + rest;
    Utf8.Utf16LengthAtMostEncoded(s);
    Utf8.DecodeEncode(s);
    StringPayloadAccepted(payload, maxLen, prefix, rest);
  }

  lemma StringPayloadAccepted(payload: seq<byte>, maxLen: int32, prefix: seq<byte>, rest: seq<byte>)
    requires 0 <= maxLen < 0x2000_0000 && |payload| <= maxLen
    requires Utf8.Utf16Length(Utf8.Decode(payload)) <= maxLen
    ensures ReadStringAt(prefix + VarInt(|payload|) + payload + rest, |prefix|, maxLen)
      == Parsed(Success(Utf8.Decode(payload)), |prefix| + |VarInt(|payload|)| + |payload|)
  {
    assert Wrap32(maxLen * 4) == maxLen * 4;
    ReadStringConsumesPayload(payload, maxLen, prefix, rest);
  }

  /**
   * For `maxLen == 2^29` the bound `maxLen * 4` wraps to `-2^31`, so `readString(maxLen)`
   * refuses every string, even one `writeString(s, maxLen)` accepted.
   */
  lemma StringLimitOverflow(s: string, prefix: seq<byte>, rest: seq<byte>)
    requires WriteStringBytes(s, 0x2000_0000).Success?
    ensures var bytes := WriteStringBytes(s, 0x2000_0000).value;
      ReadStringAt(prefix + bytes + rest, |prefix|, 0x2000_0000).result == Failure(DeclaredLengthTooLong)
  {
    var payload := Utf8.Encode(s);
    assert Wrap32(0x2000_0000 * 4) == -0x8000_0000;
    assert prefix + WriteStringBytes(s, 0x2000_0000).value + rest == prefix + VarInt(|payload|) + (payload + rest);
    ReadStringRefusesLength(|payload|, 0x2000_0000, prefix, payload + rest);
  }
}
