/** Chat streaming: the frames the core sends for a provider's chunks, and the client that collects them. */
module LlmStream {
  import opened Basics
  import opened Ipc

  datatype LlmUsage = LlmUsage(promptTokens: nat, completionTokens: nat, totalTokens: nat)

  datatype StreamEvent = StreamEvent(contentDelta: string, finishReason: Option<string>, usage: Option<LlmUsage>)

  datatype ChatResponse = ChatResponse(content: string, finishReason: Option<string>, usage: Option<LlmUsage>)

  /** What a payload decodes to; an encoded event is never empty bytes. */
  datatype StreamPayload = Empty | Encoded(event: StreamEvent) | Reply(result: Result<string, CapabilityError>) | Other

  type StreamFrame = Frame<StreamPayload>

  datatype Choice = Choice(content: Option<string>, finishReason: Option<string>)

  datatype Item = Chunk(usage: Option<LlmUsage>, choices: seq<Choice>) | ProviderError(message: string)

  /** What the provider gives: no stream at all, or a list of items. */
  datatype Provider = Unavailable(error: CapabilityError) | Streams(items: seq<Item>)

  /** The request a stream answers: its ids and its two ends, as the client sent them. */
  datatype Origin = Origin(requestId: nat, sessionId: nat, source: string, target: string)

  // ------------------------------------------------------------ the core

  function EventOf(choice: Choice, usage: Option<LlmUsage>): StreamEvent {
    StreamEvent(if choice.content == None then "" else choice.content.value, choice.finishReason, usage)
  }

  predicate Skipped(e: StreamEvent) {
    e.contentDelta == "" && e.finishReason == None && e.usage == None
  }

  function DataFrame(o: Origin, e: StreamEvent): StreamFrame {
    Stream(o.requestId, Some(o.requestId), o.sessionId, TargetOrCore(o.target), o.source, Encoded(e), false)
  }

  function EndFrame(o: Origin): StreamFrame {
    Stream(o.requestId, Some(o.requestId), o.sessionId, TargetOrCore(o.target), o.source, Empty, true)
  }

  function ErrorFrame(o: Origin, message: string): StreamFrame {
    Error(Some(o.requestId), Some(o.requestId), Some(o.sessionId), TargetOrCore(o.target), o.source, "llm_stream_error", message)
  }

  function ChoiceFrames(o: Origin, usage: Option<LlmUsage>, choices: seq<Choice>): seq<StreamFrame> {
    if choices == [] then []
    else
      var e := EventOf(choices[0], usage);
      (if Skipped(e) then [] else [DataFrame(o, e)]) + ChoiceFrames(o, usage, choices[1..])
  }

  function ItemFrames(o: Origin, items: seq<Item>): seq<StreamFrame> {
    if items == [] then [EndFrame(o)]
    else
      match items[0]
      case ProviderError(message) => [ErrorFrame(o, message)]
      case Chunk(usage, choices) => ChoiceFrames(o, usage, choices) + ItemFrames(o, items[1..])
  }

  function ServerFrames(o: Origin, provider: Provider): seq<StreamFrame> {
    match provider
    case Unavailable(error) => [Response(o.requestId, o.sessionId, TargetOrCore(o.target), o.source, Reply(Err(error)))]
    case Streams(items) => ItemFrames(o, items)
  }

  lemma {:induction false} ChoiceFramesSplit(o: Origin, usage: Option<LlmUsage>, choices: seq<Choice>, k: nat)
    requires k < |choices|
    ensures ChoiceFrames(o, usage, choices[k..])
         == (if Skipped(EventOf(choices[k], usage)) then [] else [DataFrame(o, EventOf(choices[k], usage))])
            + ChoiceFrames(o, usage, choices[k + 1..])
  {
    assert choices[k..][1..] == choices[k + 1..];
  }

  lemma SentOneMore(sent: seq<StreamFrame>, frame: StreamFrame, rest: seq<StreamFrame>)
    ensures sent + ([frame] + rest) == sent + [frame] + rest
    ensures sent < sent + ([frame] + rest)
  {
  }

  /** The core's side of one streaming connection. */
  class StreamServer {
    var connection: Connection<StreamPayload>

    constructor (connection: Connection<StreamPayload>)
      ensures this.connection == connection
    {
      this.connection := connection;
    }

    method SendFrame(frame: StreamFrame) returns (ok: bool)
      modifies this
      ensures connection.sent == old(connection.sent) + if ok then [frame] else []
    {
      var (c, sent) := connection.Send(frame);
      connection := c;
      ok := sent;
    }

    method SendChoices(o: Origin, usage: Option<LlmUsage>, choices: seq<Choice>) returns (ok: bool)
      modifies this
      ensures ok ==> connection.sent == old(connection.sent) + ChoiceFrames(o, usage, choices)
      ensures !ok ==> connection.sent < old(connection.sent) + ChoiceFrames(o, usage, choices)
    {
      ghost var base := connection.sent;
      var k := 0;
      assert choices[0..] == choices;
      while k < |choices|
        invariant k <= |choices|
        invariant base + ChoiceFrames(o, usage, choices) == connection.sent + ChoiceFrames(o, usage, choices[k..])
      {
        ChoiceFramesSplit(o, usage, choices, k);
        var e := EventOf(choices[k], usage);
        ghost var rest := ChoiceFrames(o, usage, choices[k + 1..]);
        SentOneMore(connection.sent, DataFrame(o, e), rest);
        k := k + 1;
        if e.contentDelta == "" && e.finishReason == None && e.usage == None {
          assert [] + rest == rest;
          continue;
        }
        ok := SendFrame(DataFrame(o, e));
        if !ok {
          return;
        }
      }
      assert choices[k..] == [];
      return true;
    }

    /** Sends all frames, in order, or those before the first failing send. */
    method HandleStream(o: Origin, provider: Provider) returns (ok: bool)
      modifies this
      ensures ok ==> connection.sent == old(connection.sent) + ServerFrames(o, provider)
      ensures !ok ==> connection.sent < old(connection.sent) + ServerFrames(o, provider)
    {
      if provider.Unavailable? {
        ok := SendFrame(Response(o.requestId, o.sessionId, TargetOrCore(o.target), o.source, Reply(Err(provider.error))));
        return;
      }
      ghost var all := connection.sent + ServerFrames(o, provider);
      var i := 0;
      while i < |provider.items|
        invariant i <= |provider.items|
        invariant all == connection.sent + ItemFrames(o, provider.items[i..])
      {
        assert provider.items[i..][1..] == provider.items[i + 1..];
        match provider.items[i] {
          case ProviderError(message) =>
            ok := SendFrame(ErrorFrame(o, message));
            return;
          case Chunk(usage, choices) =>
            ok := SendChoices(o, usage, choices);
            if !ok {
              return;
            }
        }
        i := i + 1;
      }
      assert provider.items[i..] == [];
      ok := SendFrame(EndFrame(o));
    }
  }

  // ---------------------------------------------------------- the client

  datatype StreamError = IpcFailed | ConnectionClosed | Protocol | Decode

  datatype StreamChunk = StreamChunk(payload: StreamPayload, end: bool)

  const REQUEST_ID: nat := 1
  const SESSION_ID: nat := 1

  /** The first frame decides whether there is a stream, and under which id. */
  function FirstChunk(received: Received<StreamPayload>): Result<(nat, StreamChunk), StreamError> {
    match received
    case Broken => Err(IpcFailed)
    case Closed => Err(ConnectionClosed)
    case Got(frame) =>
      if frame.Response? then Err(if frame.requestId == REQUEST_ID && !frame.payload.Reply? then Decode else Protocol)
      else if !frame.Stream? then Err(Protocol)
      else if frame.streamRequest != Some(REQUEST_ID) || frame.sessionId != SESSION_ID then Err(Protocol)
      else Ok((frame.streamId, StreamChunk(frame.payload, frame.end)))
  }

  /** Every further frame must carry the ids of the stream; None is a closed connection. */
  function NextChunkOf(streamId: nat, received: Received<StreamPayload>): Result<Option<StreamChunk>, StreamError> {
    match received
    case Broken => Err(IpcFailed)
    case Closed => Ok(None)
    case Got(frame) =>
      if !frame.Stream? then Err(Protocol)
      else if frame.streamId != streamId || frame.streamRequest != Some(REQUEST_ID) || frame.sessionId != SESSION_ID then Err(Protocol)
      else Ok(Some(StreamChunk(frame.payload, frame.end)))
  }

  /** None is the end marker. */
  function ChunkEvent(chunk: StreamChunk): Result<Option<StreamEvent>, StreamError> {
    if chunk.end && chunk.payload == Empty then Ok(None)
    else if chunk.payload.Encoded? then Ok(Some(chunk.payload.event))
    else Err(Decode)
  }

  /** The event in what was received, None at the end of the stream. */
  function ReadEvent(chunk: Result<Option<StreamChunk>, StreamError>): Result<Option<StreamEvent>, StreamError> {
    match chunk
    case Err(e) => Err(e)
    case Ok(None) => Ok(None)
    case Ok(Some(c)) => ChunkEvent(c)
  }

  function Absorb(acc: ChatResponse, e: StreamEvent): ChatResponse {
    ChatResponse(acc.content + e.contentDelta,
                 if e.finishReason.Some? then e.finishReason else acc.finishReason,
                 if e.usage.Some? then e.usage else acc.usage)
  }

  const NOTHING := ChatResponse("", None, None)

  /** Collecting from one chunk at hand and what may still be received. */
  function CollectFrom(acc: ChatResponse, streamId: nat, chunk: StreamChunk, inbox: seq<Received<StreamPayload>>)
    : Result<ChatResponse, StreamError>
    decreases |inbox|, 1
  {
    match ChunkEvent(chunk)
    case Err(e) => Err(e)
    case Ok(None) => Ok(acc)
    case Ok(Some(event)) => CollectRest(Absorb(acc, event), streamId, inbox)
  }

  /** Collecting with no chunk at hand. */
  function CollectRest(acc: ChatResponse, streamId: nat, inbox: seq<Received<StreamPayload>>): Result<ChatResponse, StreamError>
    decreases |inbox|, 0
  {
    if inbox == [] then Ok(acc)
    else
      match NextChunkOf(streamId, inbox[0])
      case Err(e) => Err(e)
      case Ok(None) => Ok(acc)
      case Ok(Some(chunk)) => CollectFrom(acc, streamId, chunk, inbox[1..])
  }

  /** What collecting a whole stream yields, given everything the connection delivers. */
  function Collected(inbox: seq<Received<StreamPayload>>): Result<ChatResponse, StreamError> {
    match FirstChunk(if inbox == [] then Closed else inbox[0])
    case Err(e) => Err(e)
    case Ok((streamId, chunk)) => CollectFrom(NOTHING, streamId, chunk, inbox[1..])
  }

  class CapabilityStream {
    var connection: Connection<StreamPayload>
    const streamId: nat
    var buffered: Option<StreamChunk>

    constructor (connection: Connection<StreamPayload>, streamId: nat, first: StreamChunk)
      ensures this.connection == connection && this.streamId == streamId && buffered == Some(first)
    {
      this.connection := connection;
      this.streamId := streamId;
      buffered := Some(first);
    }

    method NextChunk() returns (r: Result<Option<StreamChunk>, StreamError>)
      modifies this
      ensures buffered == None
      ensures old(buffered).Some? ==> r == Ok(old(buffered)) && connection == old(connection)
      ensures old(buffered) == None ==>
                && connection == old(connection).Receive().0
                && r == NextChunkOf(streamId, old(connection).Receive().1)
    {
      if buffered.Some? {
        r := Ok(buffered);
        buffered := None;
        return;
      }
      var (c, received) := connection.Receive();
      connection := c;
      match received {
        case Broken => return Err(IpcFailed);
        case Closed => return Ok(None);
        case Got(frame) =>
          if frame.Stream? {
            if frame.streamId != streamId || frame.streamRequest != Some(REQUEST_ID) || frame.sessionId != SESSION_ID {
              return Err(Protocol);
            }
            return Ok(Some(StreamChunk(frame.payload, frame.end)));
          }
          return Err(Protocol);
      }
    }

    method NextEvent() returns (r: Result<Option<StreamEvent>, StreamError>)
      modifies this
      ensures buffered == None
      ensures r == ReadEvent(if old(buffered).Some? then Ok(old(buffered)) else NextChunkOf(streamId, old(connection).Receive().1))
      ensures connection == if old(buffered).Some? then old(connection) else old(connection).Receive().0
    {
      var chunk := NextChunk();
      if chunk.Err? {
        return Err(chunk.error);
      }
      if chunk.value == None {
        return Ok(None);
      }
      if chunk.value.value.end && chunk.value.value.payload == Empty {
        return Ok(None);
      }
      r := ChunkEvent(chunk.value.value);
    }
  }

  /** Opens a stream on a new connection by sending the request and waiting for its first frame. */
  method OpenStream(connection: Connection<StreamPayload>, request: StreamFrame) returns (r: Result<CapabilityStream, StreamError>)
    ensures r.Err? ==> !connection.Send(request).1 || FirstChunk(connection.Receive().1) == Err(r.error)
    ensures r.Ok? ==>
              && fresh(r.value)
              && connection.Send(request).1
              && FirstChunk(connection.Receive().1).Ok?
              && r.value.buffered == Some(FirstChunk(connection.Receive().1).value.1)
              && r.value.streamId == FirstChunk(connection.Receive().1).value.0
              && r.value.connection.inbox == connection.Receive().0.inbox
  {
    var (sending, sent) := connection.Send(request);
    if !sent {
      return Err(IpcFailed);
    }
    var (receiving, received) := sending.Receive();
    var first := FirstChunk(received);
    if first.Err? {
      return Err(first.error);
    }
    var stream := new CapabilityStream(receiving, first.value.0, first.value.1);
    return Ok(stream);
  }

  method CollectChat(connection: Connection<StreamPayload>, request: StreamFrame) returns (r: Result<ChatResponse, StreamError>)
    ensures connection.Send(request).1 ==> r == Collected(connection.inbox)
    ensures !connection.Send(request).1 ==> r.Err?
  {
    var attempt := OpenStream(connection, request);
    if attempt.Err? {
      return Err(attempt.error);
    }
    var stream := attempt.value;
    var acc := NOTHING;
    while true
      invariant fresh(stream)
      invariant stream.buffered.Some? ==>
        Collected(connection.inbox) == CollectFrom(acc, stream.streamId, stream.buffered.value, stream.connection.inbox)
      invariant stream.buffered == None ==>
        Collected(connection.inbox) == CollectRest(acc, stream.streamId, stream.connection.inbox)
      decreases |stream.connection.inbox| + if stream.buffered.Some? then 1 else 0
    {
      var event := stream.NextEvent();
      if event.Err? {
        return Err(event.error);
      }
      if event.value == None {
        return Ok(acc);
      }
      acc := Absorb(acc, event.value.value);
    }
  }

  // ------------------------------------------------ streaming is folding

  function WithUsage(usage: Option<LlmUsage>, choices: seq<Choice>): (r: seq<(Choice, Option<LlmUsage>)>)
    ensures |r| == |choices| && forall k :: 0 <= k < |r| ==> r[k] == (choices[k], usage)
  {
    if choices == [] then [] else [(choices[0], usage)] + WithUsage(usage, choices[1..])
  }

  /** Every choice with the usage of its chunk, in order, up to the first provider error. */
  function Choices(items: seq<Item>): seq<(Choice, Option<LlmUsage>)> {
    if items == [] || items[0].ProviderError? then []
    else WithUsage(items[0].usage, items[0].choices) + Choices(items[1..])
  }

  predicate Fails(items: seq<Item>) {
    exists k :: 0 <= k < |items| && items[k].ProviderError?
  }

  function Concatenated(cs: seq<(Choice, Option<LlmUsage>)>): string {
    if cs == [] then ""
    else (if cs[0].0.content == None then "" else cs[0].0.content.value) + Concatenated(cs[1..])
  }

  function LastPresent<T>(values: seq<Option<T>>): Option<T> {
    if values == [] then None
    else if values[|values| - 1].Some? then values[|values| - 1]
    else LastPresent(values[..|values| - 1])
  }

  function FinishReasons(cs: seq<(Choice, Option<LlmUsage>)>): seq<Option<string>> {
    seq(|cs|, k requires 0 <= k < |cs| => cs[k].0.finishReason)
  }

  function Usages(cs: seq<(Choice, Option<LlmUsage>)>): seq<Option<LlmUsage>> {
    seq(|cs|, k requires 0 <= k < |cs| => cs[k].1)
  }

  /** The answer the provider meant: all deltas joined, the last finish reason and the last usage of any choice. */
  function Meant(items: seq<Item>): ChatResponse {
    var cs := Choices(items);
    ChatResponse(Concatenated(cs), LastPresent(FinishReasons(cs)), LastPresent(Usages(cs)))
  }

  function AbsorbAll(acc: ChatResponse, cs: seq<(Choice, Option<LlmUsage>)>): ChatResponse
    decreases |cs|
  {
    if cs == [] then acc else AbsorbAll(Absorb(acc, EventOf(cs[0].0, cs[0].1)), cs[1..])
  }

  lemma {:induction false} LastPresentCons<T>(first: Option<T>, rest: seq<Option<T>>)
    ensures LastPresent([first] + rest) == if LastPresent(rest).Some? then LastPresent(rest) else first
  {
    if rest == [] {
      assert [first] + rest == [first];
      assert LastPresent([first]) == if first.Some? then first else LastPresent([first][..0]);
    } else {
      assert ([first] + rest)[..|rest|] == [first] + rest[..|rest| - 1];
      LastPresentCons(first, rest[..|rest| - 1]);
    }
  }

  lemma {:induction false} AbsorbAllIsSummary(acc: ChatResponse, cs: seq<(Choice, Option<LlmUsage>)>)
    ensures var r := AbsorbAll(acc, cs);
            && r.content == acc.content + Concatenated(cs)
            && r.finishReason == (if LastPresent(FinishReasons(cs)).Some? then LastPresent(FinishReasons(cs)) else acc.finishReason)
            && r.usage == (if LastPresent(Usages(cs)).Some? then LastPresent(Usages(cs)) else acc.usage)
    decreases |cs|
  {
    if cs != [] {
      AbsorbAllIsSummary(Absorb(acc, EventOf(cs[0].0, cs[0].1)), cs[1..]);
      assert FinishReasons(cs) == [cs[0].0.finishReason] + FinishReasons(cs[1..]);
      assert Usages(cs) == [cs[0].1] + Usages(cs[1..]);
      LastPresentCons(cs[0].0.finishReason, FinishReasons(cs[1..]));
      LastPresentCons(cs[0].1, Usages(cs[1..]));
    }
  }

  function Delivered(frames: seq<StreamFrame>): (r: seq<Received<StreamPayload>>)
    ensures |r| == |frames| && forall k :: 0 <= k < |r| ==> r[k] == Got(frames[k])
  {
    seq(|frames|, k requires 0 <= k < |frames| => Got(frames[k]))
  }

  predicate FromClient(o: Origin) {
    o.requestId == REQUEST_ID && o.sessionId == SESSION_ID
  }

  lemma CollectFrame(o: Origin, acc: ChatResponse, e: StreamEvent, tail: seq<StreamFrame>)
    requires FromClient(o)
    ensures CollectRest(acc, REQUEST_ID, Delivered([DataFrame(o, e)] + tail))
         == CollectRest(Absorb(acc, e), REQUEST_ID, Delivered(tail))
  {
    assert Delivered([DataFrame(o, e)] + tail)[1..] == Delivered(tail);
    assert Delivered([DataFrame(o, e)] + tail)[0] == Got(DataFrame(o, e));
  }

  lemma SkippedAddsNothing(acc: ChatResponse, e: StreamEvent)
    requires Skipped(e)
    ensures Absorb(acc, e) == acc
  {
    assert acc.content + "" == acc.content;
  }

  lemma {:induction false} CollectChoices(o: Origin, acc: ChatResponse, usage: Option<LlmUsage>, choices: seq<Choice>, rest: seq<StreamFrame>)
    requires FromClient(o)
    ensures CollectRest(acc, REQUEST_ID, Delivered(ChoiceFrames(o, usage, choices) + rest))
         == CollectRest(AbsorbAll(acc, WithUsage(usage, choices)), REQUEST_ID, Delivered(rest))
    decreases |choices|
  {
    if choices == [] {
      assert ChoiceFrames(o, usage, choices) + rest == rest;
    } else {
      var e := EventOf(choices[0], usage);
      var tail := ChoiceFrames(o, usage, choices[1..]) + rest;
      assert WithUsage(usage, choices)[1..] == WithUsage(usage, choices[1..]);
      CollectChoices(o, Absorb(acc, e), usage, choices[1..], rest);
      if Skipped(e) {
        assert ChoiceFrames(o, usage, choices) + rest == tail;
        SkippedAddsNothing(acc, e);
      } else {
        assert ChoiceFrames(o, usage, choices) + rest == [DataFrame(o, e)] + tail;
        CollectFrame(o, acc, e, tail);
      }
    }
  }

  lemma {:induction false} AbsorbAllConcat(acc: ChatResponse, a: seq<(Choice, Option<LlmUsage>)>, b: seq<(Choice, Option<LlmUsage>)>)
    ensures AbsorbAll(acc, a + b) == AbsorbAll(AbsorbAll(acc, a), b)
    decreases |a|
  {
    if a == [] {
      assert a + b == b;
    } else {
      assert (a + b)[1..] == a[1..] + b;
      AbsorbAllConcat(Absorb(acc, EventOf(a[0].0, a[0].1)), a[1..], b);
    }
  }

  lemma {:induction false} CollectItems(o: Origin, acc: ChatResponse, items: seq<Item>)
    requires FromClient(o)
    ensures var r := CollectRest(acc, REQUEST_ID, Delivered(ItemFrames(o, items)));
            if Fails(items) then r.Err? else r == Ok(AbsorbAll(acc, Choices(items)))
    decreases |items|
  {
    if items != [] && items[0].Chunk? {
      var usage, choices := items[0].usage, items[0].choices;
      CollectChoices(o, acc, usage, choices, ItemFrames(o, items[1..]));
      CollectItems(o, AbsorbAll(acc, WithUsage(usage, choices)), items[1..]);
      AbsorbAllConcat(acc, WithUsage(usage, choices), Choices(items[1..]));
      assert Fails(items) <==> Fails(items[1..]) by {
        if Fails(items) {
          var k :| 0 <= k < |items| && items[k].ProviderError?;
          assert items[1..][k - 1].ProviderError?;
        }
      }
    }
  }

  /** The buffered first frame changes nothing: opening and collecting is collecting everything. */
  lemma CollectedIsRest(frames: seq<StreamFrame>)
    requires frames != []
    requires frames[0].Stream? ==> frames[0].streamId == REQUEST_ID
    ensures var r := CollectRest(NOTHING, REQUEST_ID, Delivered(frames));
            if r.Ok? then Collected(Delivered(frames)) == r else Collected(Delivered(frames)).Err?
  {
  }

  predicate IsData(o: Origin, f: StreamFrame) {
    f.Stream? && f.streamId == o.requestId && f.streamRequest == Some(o.requestId) && f.sessionId == o.sessionId && f.payload.Encoded?
  }

  lemma {:induction false} ChoiceFramesAreData(o: Origin, usage: Option<LlmUsage>, choices: seq<Choice>)
    ensures forall k :: 0 <= k < |ChoiceFrames(o, usage, choices)| ==> IsData(o, ChoiceFrames(o, usage, choices)[k])
    decreases |choices|
  {
    if choices != [] {
      ChoiceFramesAreData(o, usage, choices[1..]);
    }
  }

  /** The frames of a stream: data, then one end or error frame. */
  lemma {:induction false} ItemFramesShape(o: Origin, items: seq<Item>)
    ensures var fs := ItemFrames(o, items);
            && fs != []
            && (forall k :: 0 <= k < |fs| - 1 ==> IsData(o, fs[k]))
            && (fs[|fs| - 1] == EndFrame(o) || fs[|fs| - 1].Error?)
    decreases |items|
  {
    if items != [] && items[0].Chunk? {
      ChoiceFramesAreData(o, items[0].usage, items[0].choices);
      ItemFramesShape(o, items[1..]);
    }
  }

  /** Streaming equals folding: for any items the client collects the answer the provider meant, and an
      error at any point, or no stream at all, makes collecting fail. */
  lemma StreamingIsFolding(o: Origin, provider: Provider)
    requires FromClient(o)
    ensures var r := Collected(Delivered(ServerFrames(o, provider)));
            && (r.Ok? <==> provider.Streams? && !Fails(provider.items))
            && (r.Ok? ==> r.value == Meant(provider.items))
  {
    if provider.Streams? {
      ItemFramesShape(o, provider.items);
      CollectedIsRest(ItemFrames(o, provider.items));
      CollectItems(o, NOTHING, provider.items);
      AbsorbAllIsSummary(NOTHING, Choices(provider.items));
      assert NOTHING.content + Concatenated(Choices(provider.items)) == Concatenated(Choices(provider.items));
    }
  }

  /** The events in what arrived, in order. */
  function EventsIn(frames: seq<StreamFrame>): seq<StreamEvent> {
    if frames == [] then []
    else (if frames[0].Stream? && frames[0].payload.Encoded? then [frames[0].payload.event] else []) + EventsIn(frames[1..])
  }

  function FoldEvents(acc: ChatResponse, events: seq<StreamEvent>): ChatResponse
    decreases |events|
  {
    if events == [] then acc else FoldEvents(Absorb(acc, events[0]), events[1..])
  }

  /** Each frame of data carries something, and goes to the one who asked, under the request's own ids. */
  lemma {:induction false} FramesCarrySomething(o: Origin, usage: Option<LlmUsage>, choices: seq<Choice>)
    ensures forall f :: f in ChoiceFrames(o, usage, choices) ==>
      && f.Stream? && f.streamId == o.requestId && f.streamRequest == Some(o.requestId) && f.sessionId == o.sessionId
      && f.source == (if o.target == "" then "core" else o.target) && f.target == o.source && !f.end
      && f.payload.Encoded? && f.payload.event.usage == usage
      && (f.payload.event.contentDelta != "" || f.payload.event.finishReason.Some? || usage.Some?)
    decreases |choices|
  {
    if choices != [] {
      FramesCarrySomething(o, usage, choices[1..]);
    }
  }

  /** A failing provider is reported under the request's own ids, with its message; what came before it is sent first. */
  lemma {:induction false} FailureIsReported(o: Origin, before: seq<Item>, message: string, after: seq<Item>)
    requires !Fails(before)
    ensures var fs := ItemFrames(o, before + [ProviderError(message)] + after);
            && |fs| == |ItemFrames(o, before)| > 0
            && fs[..|fs| - 1] == ItemFrames(o, before)[..|fs| - 1]
            && fs[|fs| - 1] == Error(Some(o.requestId), Some(o.requestId), Some(o.sessionId),
                                     if o.target == "" then "core" else o.target, o.source, "llm_stream_error", message)
    decreases |before|
  {
    var items := before + [ProviderError(message)] + after;
    if before == [] {
      assert items[0] == ProviderError(message);
    } else {
      assert before[0].Chunk?;
      assert items[1..] == before[1..] + [ProviderError(message)] + after;
      assert forall k :: 0 <= k < |before[1..]| ==> before[1..][k] == before[k + 1];
      FailureIsReported(o, before[1..], message, after);
    }
  }

  /** So is a provider that gives no stream: one response, with its error. */
  lemma RefusalIsReported(o: Origin, error: CapabilityError)
    ensures ServerFrames(o, Unavailable(error))
         == [Response(o.requestId, o.sessionId, if o.target == "" then "core" else o.target, o.source, Reply(Err(error)))]
  {
  }

  /** A frame of this stream: a stream frame with its three ids. */
  predicate Own(streamId: nat, f: StreamFrame) {
    f.Stream? && f.streamId == streamId && f.streamRequest == Some(1) && f.sessionId == 1
  }

  /** What ends the reading of data: the connection, a foreign frame, the end marker, or bytes that are no event. */
  function Ending(streamId: nat, next: Received<StreamPayload>, answer: ChatResponse): Result<ChatResponse, StreamError> {
    match next
    case Broken => Err(IpcFailed)
    case Closed => Ok(answer)
    case Got(f) =>
      if !Own(streamId, f) then Err(Protocol)
      else if f.end && f.payload == Empty then Ok(answer)
      else Err(Decode)
  }

  /** Against a peer that sends anything at all: the stream's own data is collected up to the first frame that is none, and that
      one decides, whatever follows it. */
  lemma {:induction false} FirstOddFrameDecides(acc: ChatResponse, streamId: nat, data: seq<StreamFrame>, next: Received<StreamPayload>,
                                                rest: seq<Received<StreamPayload>>)
    requires forall f :: f in data ==> Own(streamId, f) && f.payload.Encoded?
    requires next.Got? && Own(streamId, next.frame) ==> !next.frame.payload.Encoded?
    ensures CollectRest(acc, streamId, Delivered(data) + [next] + rest) == Ending(streamId, next, FoldEvents(acc, EventsIn(data)))
    decreases |data|
  {
    var inbox := Delivered(data) + [next] + rest;
    if data == [] {
      assert inbox[0] == next;
    } else {
      assert data[0] in data && inbox[0] == Got(data[0]);
      assert inbox[1..] == Delivered(data[1..]) + [next] + rest;
      FirstOddFrameDecides(Absorb(acc, data[0].payload.event), streamId, data[1..], next, rest);
      assert EventsIn(data) == [data[0].payload.event] + EventsIn(data[1..]);
    }
  }

  /** The first frame: what opens the stream, under which id, and how opening fails. */
  lemma OpeningErrors(received: Received<StreamPayload>)
    ensures var r := FirstChunk(received);
            match received
            case Broken => r == Err(IpcFailed)
            case Closed => r == Err(ConnectionClosed)
            case Got(f) =>
              && (r.Ok? <==> f.Stream? && Own(f.streamId, f))
              && (r.Ok? ==> r.value == (f.streamId, StreamChunk(f.payload, f.end)))
              && (r == Err(Decode) <==> f.Response? && f.requestId == 1 && !f.payload.Reply?)
              && (r.Ok? || r == Err(Decode) || r == Err(Protocol))
  {
  }

  /** Data followed by nothing or by the end frame is collected event by event. */
  lemma {:induction false} DataCollects(o: Origin, acc: ChatResponse, frames: seq<StreamFrame>)
    requires FromClient(o)
    requires forall k :: 0 <= k < |frames| ==> IsData(o, frames[k]) || (k == |frames| - 1 && frames[k] == EndFrame(o))
    ensures CollectRest(acc, REQUEST_ID, Delivered(frames)) == Ok(FoldEvents(acc, EventsIn(frames)))
    decreases |frames|
  {
    if frames != [] && frames[0] != EndFrame(o) {
      var e, rest := frames[0].payload.event, frames[1..];
      assert Delivered(frames)[1..] == Delivered(rest);
      DataCollects(o, Absorb(acc, e), rest);
      assert EventsIn(frames)[1..] == EventsIn(rest);
    }
  }

  lemma {:induction false} SoundStreamsEnd(o: Origin, items: seq<Item>)
    requires !Fails(items)
    ensures var fs := ItemFrames(o, items); fs != [] && fs[|fs| - 1] == EndFrame(o)
    decreases |items|
  {
    if items != [] {
      assert items[0].Chunk?;
      assert forall k :: 0 <= k < |items[1..]| ==> items[1..][k] == items[k + 1];
      SoundStreamsEnd(o, items[1..]);
    }
  }

  lemma CutIsDataThenEnd(o: Origin, items: seq<Item>, cut: nat)
    requires FromClient(o) && cut <= |ItemFrames(o, items)|
    requires cut < |ItemFrames(o, items)| || !Fails(items)
    ensures var arrived := ItemFrames(o, items)[..cut];
            forall k :: 0 <= k < cut ==> IsData(o, arrived[k]) || (k == cut - 1 && arrived[k] == EndFrame(o))
  {
    ItemFramesShape(o, items);
    if cut == |ItemFrames(o, items)| {
      CollectItems(o, NOTHING, items);
      SoundStreamsEnd(o, items);
    }
  }

  /** A connection that closes early is taken for the end of the answer: cut after any number of
      frames, collecting succeeds unless nothing arrived or the error frame did, and then it yields
      the fold of the events that arrived. */
  lemma EarlyCloseGoesUnnoticed(o: Origin, items: seq<Item>, cut: nat)
    requires FromClient(o) && cut <= |ItemFrames(o, items)|
    ensures var arrived := ItemFrames(o, items)[..cut];
            var r := Collected(Delivered(arrived));
            && (r.Ok? <==> cut > 0 && (cut < |ItemFrames(o, items)| || !Fails(items)))
            && (r.Ok? ==> r.value == FoldEvents(NOTHING, EventsIn(arrived)))
  {
    var fs := ItemFrames(o, items);
    ItemFramesShape(o, items);
    if cut == |fs| {
      assert fs[..cut] == fs;
      StreamingIsFolding(o, Streams(items));
    }
    if cut > 0 && (cut < |fs| || !Fails(items)) {
      CutIsDataThenEnd(o, items, cut);
      DataCollects(o, NOTHING, fs[..cut]);
      CollectedIsRest(fs[..cut]);
    }
  }

  function Deltas(events: seq<StreamEvent>): string {
    if events == [] then "" else events[0].contentDelta + Deltas(events[1..])
  }

  lemma {:induction false} FoldConcat(acc: ChatResponse, a: seq<StreamEvent>, b: seq<StreamEvent>)
    ensures FoldEvents(acc, a + b) == FoldEvents(FoldEvents(acc, a), b)
    decreases |a|
  {
    if a == [] {
      assert a + b == b;
    } else {
      assert (a + b)[1..] == a[1..] + b;
      FoldConcat(Absorb(acc, a[0]), a[1..], b);
    }
  }

  lemma {:induction false} EventsConcat(a: seq<StreamFrame>, b: seq<StreamFrame>)
    ensures EventsIn(a + b) == EventsIn(a) + EventsIn(b)
    decreases |a|
  {
    if a == [] {
      assert a + b == b;
    } else {
      assert (a + b)[1..] == a[1..] + b;
      EventsConcat(a[1..], b);
    }
  }

  lemma {:induction false} FoldedContent(acc: ChatResponse, events: seq<StreamEvent>)
    ensures FoldEvents(acc, events).content == acc.content + Deltas(events)
    ensures Deltas(events) == "" <==> forall e :: e in events ==> e.contentDelta == ""
    decreases |events|
  {
    if events != [] {
      FoldedContent(Absorb(acc, events[0]), events[1..]);
      assert events == [events[0]] + events[1..];
    }
  }

  /** What a cut costs: the meant answer is the collected one with the lost events absorbed, so their texts
      differ exactly when a lost event has text. */
  lemma CutLosesTheRest(o: Origin, items: seq<Item>, cut: nat)
    requires FromClient(o) && !Fails(items) && 0 < cut <= |ItemFrames(o, items)|
    ensures var fs := ItemFrames(o, items);
            var r := Collected(Delivered(fs[..cut]));
            && r.Ok?
            && Meant(items) == FoldEvents(r.value, EventsIn(fs[cut..]))
            && Meant(items).content == r.value.content + Deltas(EventsIn(fs[cut..]))
            && (Meant(items).content == r.value.content <==> forall e :: e in EventsIn(fs[cut..]) ==> e.contentDelta == "")
  {
    var fs := ItemFrames(o, items);
    EarlyCloseGoesUnnoticed(o, items, cut);
    EarlyCloseGoesUnnoticed(o, items, |fs|);
    StreamingIsFolding(o, Streams(items));
    assert fs[..|fs|] == fs == fs[..cut] + fs[cut..];
    EventsConcat(fs[..cut], fs[cut..]);
    FoldConcat(NOTHING, EventsIn(fs[..cut]), EventsIn(fs[cut..]));
    FoldedContent(FoldEvents(NOTHING, EventsIn(fs[..cut])), EventsIn(fs[cut..]));
  }

  lemma TwoChoiceFrames(o: Origin, x: string, y: string)
    requires x != "" && y != ""
    ensures ItemFrames(o, [Chunk(None, [Choice(Some(x), None), Choice(Some(y), None)])])
         == [DataFrame(o, StreamEvent(x, None, None)), DataFrame(o, StreamEvent(y, None, None)), EndFrame(o)]
  {
    var a, b := Choice(Some(x), None), Choice(Some(y), None);
    var items := [Chunk(None, [a, b])];
    assert [a, b][1..] == [b] && [b][1..] == [] && items[1..] == [];
    assert ChoiceFrames(o, None, [b]) == [DataFrame(o, EventOf(b, None))] + ChoiceFrames(o, None, []);
    assert ChoiceFrames(o, None, [a, b]) == [DataFrame(o, EventOf(a, None))] + ChoiceFrames(o, None, [b]);
    assert ItemFrames(o, items) == ChoiceFrames(o, None, [a, b]) + ItemFrames(o, []);
  }

  lemma OneFrameCollected(o: Origin, e: StreamEvent)
    requires FromClient(o)
    ensures EventsIn([DataFrame(o, e)]) == [e]
    ensures Collected(Delivered([DataFrame(o, e)])) == Ok(Absorb(NOTHING, e))
  {
    assert EventsIn([DataFrame(o, e)]) == [e] + EventsIn([]);
    assert [DataFrame(o, e)] + [] == [DataFrame(o, e)];
    CollectFrame(o, NOTHING, e, []);
    CollectedIsRest([DataFrame(o, e)]);
  }

  /** The instance: of two choices only the first arrives, and no end; the answer is accepted without the second. */
  lemma CutAnswerIsAccepted(o: Origin, x: string, y: string)
    requires FromClient(o) && x != "" && y != ""
    ensures var items := [Chunk(None, [Choice(Some(x), None), Choice(Some(y), None)])];
            var fs := ItemFrames(o, items);
            && |fs| == 3
            && Collected(Delivered(fs[..1])) == Ok(ChatResponse(x, None, None))
            && Meant(items).content == x + y
  {
    var items := [Chunk(None, [Choice(Some(x), None), Choice(Some(y), None)])];
    var e, f := StreamEvent(x, None, None), StreamEvent(y, None, None);
    TwoChoiceFrames(o, x, y);
    var fs := ItemFrames(o, items);
    OneFrameCollected(o, e);
    OneFrameCollected(o, f);
    EventsConcat([DataFrame(o, f)], [EndFrame(o)]);
    assert EventsIn([EndFrame(o)]) == [] + EventsIn([]);
    assert fs[..1] == [DataFrame(o, e)] && fs[1..] == [DataFrame(o, f)] + [EndFrame(o)];
    assert "" + x == x;
    CutLosesTheRest(o, items, 1);
    assert Deltas([f]) == y + Deltas([]) == y;
  }

  /** A chunk without choices sends nothing, so a usage it carries is lost wherever it stands. */
  lemma {:induction false} ChoicelessChunkIsLost(o: Origin, before: seq<Item>, usage: Option<LlmUsage>, after: seq<Item>)
    ensures ItemFrames(o, before + [Chunk(usage, [])] + after) == ItemFrames(o, before + after)
    decreases |before|
  {
    var items := before + [Chunk(usage, [])] + after;
    if before == [] {
      assert items[1..] == after && before + after == after;
    } else {
      assert items[1..] == before[1..] + [Chunk(usage, [])] + after;
      assert (before + after)[1..] == before[1..] + after;
      ChoicelessChunkIsLost(o, before[1..], usage, after);
    }
  }

  // ------------------------------------------------- which usage arrives

  function UsageOf(item: Item): Option<LlmUsage> {
    if item.Chunk? then item.usage else None
  }

  function ItemUsages(items: seq<Item>): seq<Option<LlmUsage>> {
    seq(|items|, k requires 0 <= k < |items| => UsageOf(items[k]))
  }

  /** The provider's last usage figure, whatever chunk carries it. */
  function LastUsage(items: seq<Item>): Option<LlmUsage> {
    LastPresent(ItemUsages(items))
  }

  /** The chunks that put frames on the wire. */
  function WithChoices(items: seq<Item>): seq<Item> {
    if items == [] then []
    else (if items[0].Chunk? && items[0].choices != [] then [items[0]] else []) + WithChoices(items[1..])
  }

  /** The chunk at k carries the provider's last figure. */
  predicate LastFigure(items: seq<Item>, k: nat) {
    && k < |items| && UsageOf(items[k]).Some?
    && forall j :: k < j < |items| ==> UsageOf(items[j]) == None
  }

  /** The chunk at k is the last that carries a figure and has a choice to send it with. */
  predicate Arriving(items: seq<Item>, k: nat) {
    && k < |items| && UsageOf(items[k]).Some? && items[k].choices != []
    && forall j :: k < j < |items| && UsageOf(items[j]).Some? ==> items[j].choices == []
  }

  predicate LastFigureHasNoChoice(items: seq<Item>) {
    exists k: nat :: k < |items| && LastFigure(items, k) && items[k].choices == []
  }

  lemma LastUsageCons(item: Item, rest: seq<Item>)
    ensures LastUsage([item] + rest) == if LastUsage(rest).Some? then LastUsage(rest) else UsageOf(item)
  {
    assert ItemUsages([item] + rest) == [UsageOf(item)] + ItemUsages(rest);
    LastPresentCons(UsageOf(item), ItemUsages(rest));
  }

  lemma {:induction false} LastPresentConcat<T>(a: seq<Option<T>>, b: seq<Option<T>>)
    ensures LastPresent(a + b) == if LastPresent(b).Some? then LastPresent(b) else LastPresent(a)
    decreases |a|
  {
    if a == [] {
      assert a + b == b;
    } else {
      assert a + b == [a[0]] + (a[1..] + b) && a == [a[0]] + a[1..];
      LastPresentConcat(a[1..], b);
      LastPresentCons(a[0], a[1..] + b);
      LastPresentCons(a[0], a[1..]);
    }
  }

  /** The usages of one chunk's choices: its own, if it has a choice. */
  lemma {:induction false} ChunkUsage(usage: Option<LlmUsage>, choices: seq<Choice>)
    ensures LastPresent(Usages(WithUsage(usage, choices))) == if choices == [] then None else usage
    decreases |choices|
  {
    if choices != [] {
      ChunkUsage(usage, choices[1..]);
      assert Usages(WithUsage(usage, choices)) == [usage] + Usages(WithUsage(usage, choices[1..]));
      LastPresentCons(usage, Usages(WithUsage(usage, choices[1..])));
    }
  }

  lemma FailsTail(items: seq<Item>)
    requires items != [] && !Fails(items)
    ensures items[0].Chunk? && !Fails(items[1..])
  {
    assert forall k :: 0 <= k < |items[1..]| ==> items[1..][k] == items[k + 1];
  }

  /** What is collected is the last usage of the chunks that have choices. */
  lemma {:induction false} MeantUsage(items: seq<Item>)
    requires !Fails(items)
    ensures Meant(items).usage == LastUsage(WithChoices(items))
    decreases |items|
  {
    if items != [] {
      FailsTail(items);
      MeantUsage(items[1..]);
      var head, rest := WithUsage(items[0].usage, items[0].choices), Choices(items[1..]);
      assert Usages(head + rest) == Usages(head) + Usages(rest);
      LastPresentConcat(Usages(head), Usages(rest));
      ChunkUsage(items[0].usage, items[0].choices);
      LastUsageCons(items[0], WithChoices(items[1..]));
      assert [] + WithChoices(items[1..]) == WithChoices(items[1..]);
    }
  }

  lemma {:induction false} NoneArrives(items: seq<Item>)
    requires !Fails(items)
    requires forall k :: 0 <= k < |items| && UsageOf(items[k]).Some? ==> items[k].choices == []
    ensures LastUsage(WithChoices(items)) == None
    decreases |items|
  {
    if items != [] {
      FailsTail(items);
      NoneArrives(items[1..]);
      LastUsageCons(items[0], WithChoices(items[1..]));
      assert [] + WithChoices(items[1..]) == WithChoices(items[1..]);
    }
  }

  lemma {:induction false} ArrivingUsage(items: seq<Item>, k: nat)
    requires !Fails(items) && Arriving(items, k)
    ensures LastUsage(WithChoices(items)) == items[k].usage
    decreases |items|
  {
    FailsTail(items);
    LastUsageCons(items[0], WithChoices(items[1..]));
    assert [] + WithChoices(items[1..]) == WithChoices(items[1..]);
    if k == 0 {
      NoneArrives(items[1..]);
    } else {
      ArrivingUsage(items[1..], k - 1);
    }
  }

  lemma {:induction false} SomeArrives(items: seq<Item>)
    requires exists k: nat :: k < |items| && UsageOf(items[k]).Some? && items[k].choices != []
    ensures exists k: nat :: Arriving(items, k)
    decreases |items|
  {
    var front, last := items[..|items| - 1], |items| - 1;
    if UsageOf(items[last]).Some? && items[last].choices != [] {
      assert Arriving(items, last);
    } else {
      var k: nat :| k < |items| && UsageOf(items[k]).Some? && items[k].choices != [];
      assert front[k] == items[k];
      SomeArrives(front);
      var l: nat :| Arriving(front, l);
      assert Arriving(items, l);
    }
  }

  /** The client ends up with the figure of the last chunk that has both a figure and a choice, or with none.
      The last chunk that carries a figure is that one exactly when it has a choice. */
  lemma UsageArrives(o: Origin, items: seq<Item>)
    requires FromClient(o) && !Fails(items)
    ensures var r := Collected(Delivered(ServerFrames(o, Streams(items))));
            && r.Ok?
            && (forall k: nat :: Arriving(items, k) ==> r.value.usage == items[k].usage)
            && (r.value.usage == None <==> forall k: nat :: !Arriving(items, k))
            && ((forall k: nat :: LastFigure(items, k) ==> Arriving(items, k)) <==> !LastFigureHasNoChoice(items))
  {
    StreamingIsFolding(o, Streams(items));
    MeantUsage(items);
    forall k: nat | Arriving(items, k) ensures LastUsage(WithChoices(items)) == items[k].usage {
      ArrivingUsage(items, k);
    }
    if exists k: nat :: k < |items| && UsageOf(items[k]).Some? && items[k].choices != [] {
      SomeArrives(items);
    } else {
      NoneArrives(items);
    }
  }

  /** The instance: a provider that ends with a chunk of usage only. */
  lemma UsageOnlyChunkIsLost(o: Origin, usage: LlmUsage)
    requires FromClient(o)
    ensures var items := [Chunk(Some(usage), [])];
            && LastUsage(items) == Some(usage)
            && Collected(Delivered(ServerFrames(o, Streams(items)))) == Ok(ChatResponse("", None, None))
  {
    var items := [Chunk(Some(usage), [])];
    LastUsageCons(items[0], []);
    assert items == [items[0]] + [] && items[1..] == [];
    assert !Fails(items);
    assert Choices(items) == [];
    StreamingIsFolding(o, Streams(items));
  }
}
