/**
 * `PEChannelInitializerModern`: splicing a wrapper around the stage named "decoder" of a
 * Netty channel pipeline when a channel is initialised, and taking it out again when the
 * channel is destroyed. The pipeline is an ordered list of named stages; only its
 * `get(name)` and `replace(name, name, handler)` are used. The original initializer, which
 * the Java class calls through reflection, is a parameter: its effect on the pipeline.
 */
module ChannelInitializers {
  import opened Wrappers

  /** A pipeline stage: an opaque handler, or the `PacketDecoderModern` wrapper around one. */
  datatype ChannelHandler =
    | Handler(id: nat, byteToMessageDecoder: bool)
    | PacketDecoderModern(previousDecoder: ChannelHandler)
  {
    /** Whether the `(ByteToMessageDecoder)` cast of this handler succeeds. */
    predicate IsByteToMessageDecoder() {
      PacketDecoderModern? || byteToMessageDecoder
    }
  }

  datatype PipelineError =
    | NoSuchElement   // `replace` of a name the pipeline does not have
    | ClassCast       // the "decoder" stage is not a `ByteToMessageDecoder`
    | InitializerFailed   // the original `initChannel` threw

  datatype Stage = Stage(name: string, handler: ChannelHandler)

  const DECODER: string := "decoder"

  /** Netty keeps the names of a pipeline's stages distinct. */
  predicate UniqueNames(stages: seq<Stage>) {
    forall i, j :: 0 <= i < j < |stages| ==> stages[i].name != stages[j].name
  }

  /** The position of the stage called `name`, the first one if several were. */
  function IndexOf(stages: seq<Stage>, name: string): (r: Option<nat>)
    ensures r.Some? ==> r.value < |stages| && stages[r.value].name == name
    ensures r.Some? ==> forall j :: 0 <= j < r.value ==> stages[j].name != name
    ensures r.None? <==> forall j :: 0 <= j < |stages| ==> stages[j].name != name
  {
    if stages == [] then None
    else if stages[0].name == name then Some(0)
    else match IndexOf(stages[1..], name)
      case Some(i) => Some(i + 1)
      case None => None
  }

  /** `pipeline.get(name)`: the handler of the stage called `name`, or null. */
  function Get(stages: seq<Stage>, name: string): (h: Option<ChannelHandler>)
    ensures h.Some? <==> exists j :: 0 <= j < |stages| && stages[j].name == name
    ensures h.Some? ==> exists j :: 0 <= j < |stages| && stages[j] == Stage(name, h.value)
  {
    match IndexOf(stages, name)
    case Some(i) => Some(stages[i].handler)
    case None => None
  }

  /**
   * `pipeline.replace(name, name, h)`: the stage called `name` gets handler `h` in place;
   * no stage called `name` is a NoSuchElementException.
   */
  function Replace(stages: seq<Stage>, name: string, h: ChannelHandler): (r: Result<seq<Stage>, PipelineError>)
    ensures r.Success? <==> exists j :: 0 <= j < |stages| && stages[j].name == name
    ensures r.Failure? ==> r.error == NoSuchElement
    ensures r.Success? ==> |r.value| == |stages|
    ensures r.Success? ==> forall j :: 0 <= j < |stages| ==>
      r.value[j] == if IndexOf(stages, name) == Some(j) then Stage(name, h) else stages[j]
  {
    match IndexOf(stages, name)
    case Some(i) => Success(stages[i := Stage(name, h)])
    case None => Failure(NoSuchElement)
  }

  /**
   * What `postInitChannel` does to a pipeline: the "decoder" stage, which must be a
   * `ByteToMessageDecoder`, is replaced in place by a wrapper holding it; no other stage
   * changes. Without a "decoder" stage the cast of null succeeds and `replace` throws.
   */
  function Install(stages: seq<Stage>): (r: Result<seq<Stage>, PipelineError>)
    ensures r.Success? <==> Get(stages, DECODER).Some? && Get(stages, DECODER).value.IsByteToMessageDecoder()
    ensures r.Failure? ==> r.error == if Get(stages, DECODER).None? then NoSuchElement else ClassCast
    ensures r.Success? ==> |r.value| == |stages|
    ensures r.Success? ==> Get(r.value, DECODER) == Some(PacketDecoderModern(Get(stages, DECODER).value))
    ensures r.Success? ==> forall j :: 0 <= j < |stages| ==>
      r.value[j].name == stages[j].name && (stages[j].name != DECODER ==> r.value[j] == stages[j])
  {
    match IndexOf(stages, DECODER)
    case None => Failure(NoSuchElement)
    case Some(i) =>
      var decoder := stages[i].handler;
      if !decoder.IsByteToMessageDecoder() then Failure(ClassCast)
      else
        var r := stages[i := Stage(DECODER, PacketDecoderModern(decoder))];
        assert IndexOf(r, DECODER) == Some(i) by {
          IndexOfSameNames(stages, r, DECODER);
        }
        Success(r)
  }

  /**
   * What `postDestroyChannel` does to a pipeline: a wrapper in the "decoder" stage is
   * replaced in place by the decoder it holds; any other pipeline is left as it is.
   */
  function Uninstall(stages: seq<Stage>): (r: seq<Stage>)
    ensures |r| == |stages| && forall j :: 0 <= j < |stages| ==> r[j].name == stages[j].name
    ensures Get(stages, DECODER).None? || !Get(stages, DECODER).value.PacketDecoderModern? ==> r == stages
    ensures Get(stages, DECODER).Some? && Get(stages, DECODER).value.PacketDecoderModern? ==>
      Get(r, DECODER) == Some(Get(stages, DECODER).value.previousDecoder)
  {
    match IndexOf(stages, DECODER)
    case None => stages
    case Some(i) =>
      match stages[i].handler
      case PacketDecoderModern(previous) =>
        var r := stages[i := Stage(DECODER, previous)];
        assert IndexOf(r, DECODER) == Some(i) by {
          IndexOfSameNames(stages, r, DECODER);
        }
        r
      case Handler(_, _) => stages
  }

  /** Changing handlers but not names does not move a name. */
  lemma {:induction false} IndexOfSameNames(s: seq<Stage>, t: seq<Stage>, name: string)
    requires |s| == |t| && forall j :: 0 <= j < |s| ==> s[j].name == t[j].name
    ensures IndexOf(s, name) == IndexOf(t, name)
  {
    if s != [] {
      IndexOfSameNames(s[1..], t[1..], name);
    }
  }

  /**
   * Destroying a channel undoes initialising it: after a successful `postInitChannel`,
   * `postDestroyChannel` gives back exactly the original pipeline.
   */
  lemma UninstallAfterInstall(stages: seq<Stage>)
    requires Install(stages).Success?
    ensures Uninstall(Install(stages).value) == stages
  {
    var i := IndexOf(stages, DECODER).value;
    var installed := Install(stages).value;
    IndexOfSameNames(stages, installed, DECODER);
    assert installed == stages[i := Stage(DECODER, PacketDecoderModern(stages[i].handler))];
  }

  /** Both splices keep the stage names, so they keep them distinct. */
  lemma SplicesKeepNamesUnique(stages: seq<Stage>)
    requires UniqueNames(stages)
    ensures Install(stages).Success? ==> UniqueNames(Install(stages).value)
    ensures UniqueNames(Uninstall(stages))
  {
  }

  /** A channel's pipeline; `get(name)` on it is `Get(stages, name)`. */
  class ChannelPipeline {
    var stages: seq<Stage>

    constructor (stages: seq<Stage>)
      ensures this.stages == stages
    {
      this.stages := stages;
    }

    /** `replace(name, name, h)`. */
    method ReplaceHandler(name: string, h: ChannelHandler) returns (r: Result<(), PipelineError>)
      modifies this
      ensures r.Success? <==> Replace(old(stages), name, h).Success?
      ensures stages == if r.Success? then Replace(old(stages), name, h).value else old(stages)
      ensures r.Failure? ==> r.error == NoSuchElement
    {
      var i := IndexOf(stages, name);
      if i.None? {
        return Failure(NoSuchElement);
      }
      stages := stages[i.value := Stage(name, h)];
      r := Success(());
    }
  }

  /** `postInitChannel(channel)`: wrap the channel's "decoder" stage. */
  method PostInitChannel(channel: ChannelPipeline) returns (r: Result<(), PipelineError>)
    modifies channel
    ensures r.Success? <==> Install(old(channel.stages)).Success?
    ensures channel.stages == if r.Success? then Install(old(channel.stages)).value else old(channel.stages)
    ensures r.Failure? ==> r.error == Install(old(channel.stages)).error
  {
    var decoder := Get(channel.stages, DECODER);
    if decoder.None? {
      // the cast of null succeeds; `replace` then finds no "decoder" stage
      return Failure(NoSuchElement);
    }
    if !decoder.value.IsByteToMessageDecoder() {
      return Failure(ClassCast);
    }
    r := channel.ReplaceHandler(DECODER, PacketDecoderModern(decoder.value));
  }

  /** `postDestroyChannel(channel)`: unwrap the "decoder" stage if it is the wrapper. */
  method PostDestroyChannel(channel: ChannelPipeline)
    modifies channel
    ensures channel.stages == Uninstall(old(channel.stages))
  {
    var decoder := Get(channel.stages, DECODER);
    if decoder.Some? && decoder.value.PacketDecoderModern? {
      var _ := channel.ReplaceHandler(DECODER, decoder.value.previousDecoder);
    }
  }

  /** The channel initializer installed in place of the server's own. */
  class PEChannelInitializerModern {
    /** The effect of the server's original `initChannel` on a pipeline. */
    const oldChannelInitializer: seq<Stage> -> Result<seq<Stage>, PipelineError>

    constructor (oldChannelInitializer: seq<Stage> -> Result<seq<Stage>, PipelineError>)
      ensures this.oldChannelInitializer == oldChannelInitializer
    {
      this.oldChannelInitializer := oldChannelInitializer;
    }

    /**
     * `initChannel(channel)`: first the original initializer, then `postInitChannel`, so the
     * wrapper goes around the decoder the original initializer installed. If the original
     * initializer throws, nothing is spliced.
     */
    method InitChannel(channel: ChannelPipeline) returns (r: Result<(), PipelineError>)
      modifies channel
      ensures var initialised := oldChannelInitializer(old(channel.stages));
        && (initialised.Failure? ==> r == Failure(initialised.error) && channel.stages == old(channel.stages))
        && (initialised.Success? ==>
              && (r.Success? <==> Install(initialised.value).Success?)
              && channel.stages == if r.Success? then Install(initialised.value).value else initialised.value)
    {
      var initialised := oldChannelInitializer(channel.stages);
      if initialised.Failure? {
        return Failure(initialised.error);
      }
      channel.stages := initialised.value;
      r := PostInitChannel(channel);
    }
  }
}
