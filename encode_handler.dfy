/**
 * `CustomBukkitEncodeHandlerModern`: the encoder ViaVersion's pipeline sees in place of the
 * server's. It keeps an ordered list of foreign decoders that it runs over each encoded
 * packet, allocates a second buffer when the connection's protocol translation is active
 * and releases it on every way out of `encode`, and swallows exceptions caused by a
 * `CancelCodecException`. Everything it asks ViaVersion, the Minecraft encoder and the
 * foreign decoders is a parameter here: their answers and their outputs.
 */
module EncodeHandlers {
  import opened Wrappers
  import opened JavaInts
  import opened Buffers

  /** A Java class: its name, its simple name, and the names of all its supertypes. */
  datatype JavaClass = JavaClass(name: string, simpleName: string, supertypes: set<string>)

  /** `c.isAssignableFrom(d)`: `d` is `c` or a subtype of it. */
  predicate IsAssignableFrom(c: JavaClass, d: JavaClass) {
    c.name == d.name || c.name in d.supertypes
  }

  const BYTE_TO_MESSAGE_DECODER: string := "io.netty.handler.codec.ByteToMessageDecoder"
  const MESSAGE_TO_MESSAGE_DECODER: string := "io.netty.handler.codec.MessageToMessageDecoder"
  const EXCEPTION: string := "java.lang.Exception"
  const ERROR: string := "java.lang.Error"

  const CANCEL_CODEC_EXCEPTION: JavaClass := JavaClass(
    "com.viaversion.viaversion.exception.CancelCodecException", "CancelCodecException",
    {"java.lang.RuntimeException", EXCEPTION, "java.lang.Throwable", "java.lang.Object"})

  /** `x instanceof T` for an object of class `c`. */
  predicate IsInstance(c: JavaClass, typeName: string) {
    c.name == typeName || typeName in c.supertypes
  }

  /** A foreign decoder, known by its identity and its class. */
  datatype CustomDecoder = CustomDecoder(id: nat, cls: JavaClass)

  /** The decoders the chain calls: the `ByteToMessageDecoder`s and `MessageToMessageDecoder`s. */
  predicate IsDecoder(d: CustomDecoder) {
    IsInstance(d.cls, BYTE_TO_MESSAGE_DECODER) || IsInstance(d.cls, MESSAGE_TO_MESSAGE_DECODER)
  }

  /** An object passed along the decoder chain: a buffer's readable bytes, or anything else. */
  datatype Message = Buffer(bytes: seq<byte>) | Packet(id: nat)

  /** A throwable and the chain of its causes; a datatype, so the chain is finite. */
  datatype Throwable = Throwable(cls: JavaClass, cause: Option<Throwable>)

  /** What `PipelineUtil.callDecode` gives: the decoder's output list, or the cause it threw. */
  datatype DecodeOutcome =
    | Decoded(out: seq<Message>)
    | InvocationFailed(cause: Option<Throwable>)   // an `InvocationTargetException` and its cause

  datatype Thrown =
    | CancelEncoder           // `throwCancelEncoderException`
    | IndexOutOfBounds        // `get(0)` of an empty output list
    | Raised(t: Throwable)    // a throwable thrown on, or rethrown by the `catch`

  /** How the decoder chain ends. */
  datatype ChainOutcome =
    | Finished(result: Message)
    | Threw(thrown: Thrown)
    | Abandoned   // the `catch` swallowed a cause that is neither an Exception nor an Error

  /** The `catch (InvocationTargetException e)` block. */
  function Catch(cause: Option<Throwable>): (r: ChainOutcome)
    ensures r.Threw? <==> cause.Some? && (IsInstance(cause.value.cls, EXCEPTION) || IsInstance(cause.value.cls, ERROR))
    ensures r.Threw? ==> r.thrown == Raised(cause.value)
    ensures !r.Finished?
  {
    if cause.Some? && IsInstance(cause.value.cls, EXCEPTION) then Threw(Raised(cause.value))
    else if cause.Some? && IsInstance(cause.value.cls, ERROR) then Threw(Raised(cause.value))
    else Abandoned
  }

  /** One turn of the decoder loop: a decoder replaces `result` by its first output. */
  function Step(d: CustomDecoder, decode: (CustomDecoder, Message) -> DecodeOutcome, result: Message): ChainOutcome {
    if !IsDecoder(d) then Finished(result)
    else match decode(d, result)
      case Decoded(out) => if out == [] then Threw(IndexOutOfBounds) else Finished(out[0])
      case InvocationFailed(cause) => Catch(cause)
  }

  /** The decoder loop over `decoders`, in list order, starting from `input`. */
  function Chain(decoders: seq<CustomDecoder>, decode: (CustomDecoder, Message) -> DecodeOutcome, input: Message): ChainOutcome {
    if decoders == [] then Finished(input)
    else match Chain(decoders[..|decoders| - 1], decode, input)
      case Finished(result) => Step(decoders[|decoders| - 1], decode, result)
      case stopped => stopped
  }

  /**
   * The chain runs in list order: running `first + second` is running `first` and then,
   * if it finished, `second` from its result.
   */
  lemma {:induction false} ChainAppend(first: seq<CustomDecoder>, second: seq<CustomDecoder>,
                                       decode: (CustomDecoder, Message) -> DecodeOutcome, input: Message)
    ensures Chain(first + second, decode, input)
         == match Chain(first, decode, input)
            case Finished(result) => Chain(second, decode, result)
            case stopped => stopped
  {
    if second == [] {
      assert first + second == first;
    } else {
      var init := second[..|second| - 1];
      ChainAppend(first, init, decode, input);
      assert (first + second)[..|first + second| - 1] == first + init;
    }
  }

  /** The decoders in `decoders`, in order. */
  function Decoders(decoders: seq<CustomDecoder>): (r: seq<CustomDecoder>)
    ensures |r| <= |decoders|
    ensures forall d :: d in r <==> d in decoders && IsDecoder(d)
  {
    if decoders == [] then []
    else
      var last := decoders[|decoders| - 1];
      Decoders(decoders[..|decoders| - 1]) + (if IsDecoder(last) then [last] else [])
  }

  /** Objects that are neither kind of decoder are skipped: only the decoders matter. */
  lemma {:induction false} ChainSkipsOthers(decoders: seq<CustomDecoder>,
                                            decode: (CustomDecoder, Message) -> DecodeOutcome, input: Message)
    ensures Chain(decoders, decode, input) == Chain(Decoders(decoders), decode, input)
  {
    if decoders != [] {
      var init := decoders[..|decoders| - 1];
      var last := decoders[|decoders| - 1];
      ChainSkipsOthers(init, decode, input);
      if IsDecoder(last) {
        assert Decoders(decoders) == Decoders(init) + [last];
        assert (Decoders(init) + [last])[..|Decoders(init) + [last]| - 1] == Decoders(init);
      } else {
        assert Decoders(decoders) == Decoders(init) + [];
        assert Decoders(init) + [] == Decoders(init);
      }
    }
  }

  /** A decoder with empty output ends the chain with an IndexOutOfBoundsException. */
  lemma EmptyOutputFails(before: seq<CustomDecoder>, d: CustomDecoder, after: seq<CustomDecoder>,
                         decode: (CustomDecoder, Message) -> DecodeOutcome, input: Message)
    requires Chain(before, decode, input).Finished? && IsDecoder(d)
    requires decode(d, Chain(before, decode, input).result) == Decoded([])
    ensures Chain(before + [d] + after, decode, input) == Threw(IndexOutOfBounds)
  {
    ChainAppend(before + [d], after, decode, input);
    ChainAppend(before, [d], decode, input);
    assert [d][..0] == [];
    StoppedStaysStopped(after, decode, Threw(IndexOutOfBounds));
  }

  /** The chain of causes from `t`: `t`, its cause, that one's cause, and so on. */
  function CauseChain(t: Option<Throwable>): (r: seq<Throwable>)
    ensures t.None? <==> r == []
    ensures t.Some? ==> r[0] == t.value
    ensures forall i :: 0 <= i < |r| - 1 ==> r[i].cause == Some(r[i + 1])
    ensures r != [] ==> r[|r| - 1].cause.None?
  {
    if t.None? then [] else [t.value] + CauseChain(t.value.cause)
  }

  /** Allocated buffers not yet released: what `ctx.alloc()` hands out. */
  class BufferPool {
    var live: set<ByteBuf>

    constructor ()
      ensures live == {}
    {
      live := {};
    }

    /** `ctx.alloc().buffer()`: a fresh empty buffer, live until released. */
    method Allocate() returns (b: ByteBuf)
      modifies this
      ensures fresh(b) && b.Valid() && b.bytes == [] && b.readerIndex == 0
      ensures live == old(live) + {b}
    {
      b := new ByteBuf();
      live := live + {b};
    }

    /** `release()` of a buffer whose only reference is the caller's. */
    method Release(b: ByteBuf)
      requires b in live
      modifies this
      ensures live == old(live) - {b}
    {
      live := live - {b};
    }
  }

  /** What ViaVersion answers about the connection, and its packet translation. */
  datatype ViaConnection = ViaConnection(
    clientboundAllowed: bool,   // `checkClientboundPacketUserConnection`
    serverboundAllowed: bool,   // `checkServerboundPacketUserConnection`
    active: bool,               // `isUserConnectionActive`
    // `transformPacket(userInfo, buf, flag)` on a buffer's bytes: `transform` passes `false`,
    // `encode` passes `true`; what the flag selects is ViaVersion's business
    transform: (seq<byte>, bool) -> Result<seq<byte>, Throwable>)

  /** The outcome of `encode` once the serverbound check passed, from the bytes to encode. */
  function Transformed(decoders: seq<CustomDecoder>, via: ViaConnection,
                       decode: (CustomDecoder, Message) -> DecodeOutcome, readable: seq<byte>): ChainOutcome {
    if !via.active then Chain(decoders, decode, Buffer(readable))
    else match via.transform(readable, true)
      case Failure(t) => Threw(Raised(t))
      case Success(bs) => Chain(decoders, decode, Buffer(bs))
  }

  /** What `exceptionCaught` does with an exception. */
  datatype Handling = Ignored | Delegated

  class CustomBukkitEncodeHandlerModern {
    var customDecoders: seq<CustomDecoder>

    constructor ()
      ensures customDecoders == []
    {
      customDecoders := [];
    }

    /** `addCustomDecoder`: append at the end. */
    method AddCustomDecoder(customDecoder: CustomDecoder)
      modifies this
      ensures customDecoders == old(customDecoders) + [customDecoder]
    {
      customDecoders := customDecoders + [customDecoder];
    }

    /** `getCustomDecoder(clazz)`: the first decoder whose class is exactly `clazz`, or null. */
    method GetCustomDecoder(clazz: JavaClass) returns (r: Option<CustomDecoder>)
      ensures r.None? <==> forall i :: 0 <= i < |customDecoders| ==> customDecoders[i].cls != clazz
      ensures r.Some? ==> exists i :: (0 <= i < |customDecoders| && customDecoders[i] == r.value
        && r.value.cls == clazz && forall j :: 0 <= j < i ==> customDecoders[j].cls != clazz)
    {
      for i := 0 to |customDecoders|
        invariant forall j :: 0 <= j < i ==> customDecoders[j].cls != clazz
      {
        if customDecoders[i].cls == clazz {
          return Some(customDecoders[i]);
        }
      }
      return None;
    }

    /** `getCustomDecoderBySimpleName(simpleName)`: the first decoder with that simple class name, or null. */
    method GetCustomDecoderBySimpleName(simpleName: string) returns (r: Option<CustomDecoder>)
      ensures r.None? <==> forall i :: 0 <= i < |customDecoders| ==> customDecoders[i].cls.simpleName != simpleName
      ensures r.Some? ==> exists i :: (0 <= i < |customDecoders| && customDecoders[i] == r.value
        && r.value.cls.simpleName == simpleName
        && forall j :: 0 <= j < i ==> customDecoders[j].cls.simpleName != simpleName)
    {
      for i := 0 to |customDecoders|
        invariant forall j :: 0 <= j < i ==> customDecoders[j].cls.simpleName != simpleName
      {
        if customDecoders[i].cls.simpleName == simpleName {
          return Some(customDecoders[i]);
        }
      }
      return None;
    }

    /**
     * `transform(bytebuf)`, ViaVersion's codec hook: cancel if the clientbound check fails,
     * otherwise translate the buffer's readable bytes in place when the connection is active.
     */
    method Transform(bytebuf: ByteBuf, via: ViaConnection) returns (r: Result<(), Thrown>)
      requires bytebuf.Valid()
      modifies bytebuf
      ensures bytebuf.Valid()
      ensures r.Failure? <==>
        (!via.clientboundAllowed || (via.active && via.transform(old(bytebuf.bytes[bytebuf.readerIndex..]), false).Failure?))
      ensures !via.clientboundAllowed ==> r == Failure(CancelEncoder)
      ensures r.Failure? || !via.active ==> unchanged(bytebuf)
      ensures via.clientboundAllowed && via.active ==>
        match via.transform(old(bytebuf.bytes[bytebuf.readerIndex..]), false)
        case Failure(t) => r == Failure(Raised(t))
        case Success(bs) => r.Success? && bytebuf.bytes[bytebuf.readerIndex..] == bs
    {
      if !via.clientboundAllowed {
        return Failure(CancelEncoder);
      }
      if !via.active {
        return Success(());
      }
      var translated := via.transform(bytebuf.bytes[bytebuf.readerIndex..], false);
      if translated.Failure? {
        return Failure(Raised(translated.error));
      }
      bytebuf.Clear();
      bytebuf.WriteBytes(translated.value);
      assert bytebuf.bytes[bytebuf.readerIndex..] == translated.value;
      return Success(());
    }

    /**
     * `encode(ctx, o, byteBuf)`. A non-buffer `o` is first encoded into `byteBuf` by the
     * Minecraft encoder. If the serverbound check fails, `byteBuf` is cleared and the cancel
     * exception thrown. Otherwise the readable bytes, translated into a second buffer when
     * the connection is active, run through the decoder chain; the second buffer is
     * released on every way out. The returned outcome is what the rest of `encode` goes on
     * with.
     */
    method Encode(o: Message, byteBuf: ByteBuf, pool: BufferPool, via: ViaConnection,
                  minecraftEncode: Message -> seq<byte>, decode: (CustomDecoder, Message) -> DecodeOutcome)
      returns (r: ChainOutcome)
      requires byteBuf.Valid()
      modifies byteBuf, pool
      ensures pool.live == old(pool.live)
      ensures !via.serverboundAllowed ==>
        r == Threw(CancelEncoder) && byteBuf.bytes == [] && byteBuf.readerIndex == 0
      ensures via.serverboundAllowed ==>
        var written := old(byteBuf.bytes) + (if o.Buffer? then [] else minecraftEncode(o));
        r == Transformed(customDecoders, via, decode, written[old(byteBuf.readerIndex)..])
      ensures via.serverboundAllowed ==>
        var written := old(byteBuf.bytes) + (if o.Buffer? then [] else minecraftEncode(o));
        byteBuf.Valid() && byteBuf.bytes == written
        && byteBuf.readerIndex == if via.active then |written| else old(byteBuf.readerIndex)
    {
      if !o.Buffer? {
        byteBuf.WriteBytes(minecraftEncode(o));
      }
      ghost var pending := (old(byteBuf.bytes) + (if o.Buffer? then [] else minecraftEncode(o)))[old(byteBuf.readerIndex)..];
      assert byteBuf.bytes[byteBuf.readerIndex..] == pending;
      if !via.serverboundAllowed {
        byteBuf.Clear();
        return Threw(CancelEncoder);
      }
      var input: Message;
      var transformedBuf: Option<ByteBuf> := None;
      if via.active {
        var copy := pool.Allocate();
        var readable := byteBuf.ReadBytes(byteBuf.ReadableBytes());
        copy.WriteBytes(readable.value);
        assert copy.bytes == pending;
        var translated := via.transform(copy.bytes, true);
        if translated.Failure? {
          pool.Release(copy);
          return Threw(Raised(translated.error));
        }
        copy.Clear();
        copy.WriteBytes(translated.value);
        transformedBuf := Some(copy);
        input := Buffer(copy.bytes[copy.readerIndex..]);
        assert input == Buffer(translated.value);
      } else {
        input := Buffer(byteBuf.bytes[byteBuf.readerIndex..]);
      }

      r := Finished(input);
      var i := 0;
      while i < |customDecoders| && r.Finished?
        invariant i <= |customDecoders|
        invariant r == Chain(customDecoders[..i], decode, input)
      {
        var customDecoder := customDecoders[i];
        assert customDecoders[..i + 1][..i] == customDecoders[..i];
        if IsInstance(customDecoder.cls, BYTE_TO_MESSAGE_DECODER) || IsInstance(customDecoder.cls, MESSAGE_TO_MESSAGE_DECODER) {
          var decoded := decode(customDecoder, r.result);
          if decoded.InvocationFailed? {
            r := Catch(decoded.cause);
          } else if decoded.out == [] {
            r := Threw(IndexOutOfBounds);
          } else {
            r := Finished(decoded.out[0]);
          }
        }
        i := i + 1;
      }
      ChainAppend(customDecoders[..i], customDecoders[i..], decode, input);
      assert customDecoders[..i] + customDecoders[i..] == customDecoders;
      StoppedStaysStopped(customDecoders[i..], decode, r);

      if transformedBuf.Some? {
        pool.Release(transformedBuf.value);
      }
    }

    /** `containsCause(t, c)`: whether some throwable in the cause chain of `t` is a `c`. */
    method ContainsCause(t: Option<Throwable>, c: JavaClass) returns (b: bool)
      ensures b <==> exists e :: e in CauseChain(t) && IsAssignableFrom(c, e.cls)
    {
      var current := t;
      while current.Some?
        invariant (exists e :: e in CauseChain(t) && IsAssignableFrom(c, e.cls))
              == (exists e :: e in CauseChain(current) && IsAssignableFrom(c, e.cls))
        decreases current
      {
        if IsAssignableFrom(c, current.value.cls) {
          assert current.value in CauseChain(current);
          return true;
        }
        assert CauseChain(current) == [current.value] + CauseChain(current.value.cause);
        current := current.value.cause;
      }
      return false;
    }

    /**
     * The part of `exceptionCaught` before it delegates: an exception caused by a
     * `CancelCodecException` is ignored, any other is passed on.
     */
    method ExceptionCaught(cause: Option<Throwable>) returns (h: Handling)
      ensures h == Ignored <==> exists e :: e in CauseChain(cause) && IsAssignableFrom(CANCEL_CODEC_EXCEPTION, e.cls)
    {
      var cancelled := ContainsCause(cause, CANCEL_CODEC_EXCEPTION);
      if cancelled {
        return Ignored;
      }
      return Delegated;
    }
  }

  /**
   * A chain stopped by an exception stays stopped: the decoders after the one that threw
   * do not change the outcome.
   */
  lemma {:induction false} StoppedPrefix(first: seq<CustomDecoder>, second: seq<CustomDecoder>,
                                         decode: (CustomDecoder, Message) -> DecodeOutcome, input: Message)
    requires !Chain(first, decode, input).Finished?
    ensures Chain(first + second, decode, input) == Chain(first, decode, input)
  {
    ChainAppend(first, second, decode, input);
  }

  /** Helper for `Encode`: matching on a stopped outcome gives it back. */
  lemma {:induction false} StoppedStaysStopped(decoders: seq<CustomDecoder>,
                                               decode: (CustomDecoder, Message) -> DecodeOutcome, r: ChainOutcome)
    ensures !r.Finished? ==>
      (match r case Finished(result) => Chain(decoders, decode, result) case stopped => stopped) == r
  {
  }
}
