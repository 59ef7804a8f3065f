/** The handlers and the `Process` loop as the source writes them: methods that update a
    request context in place. Each is proved to compute its function in Handlers or Stream. */
module Servers {
  import opened Wrappers
  import opened Envoy
  import opened Messages
  import H = Handlers
  import T = RequestTrace
  import opened Stream

  class RequestContext {
    const request: InferenceMessage
    const response: InferenceResponse
    var profile: H.Profile
    var cycle: H.CycleState
    var responseHeadersSent: bool
    var calls: seq<H.Call>

    constructor ()
      ensures Valid() && fresh(Repr()) && Value() == H.NewContext
    {
      request := new InferenceMessage();
      response := new InferenceResponse();
      profile, cycle, responseHeadersSent, calls := H.EmptyProfile, map[], false, [];
    }

    ghost predicate Valid() { request != response.message }

    ghost function Repr(): set<object> { {this, request, response, response.message} }

    ghost function Value(): H.Context
      reads Repr()
    {
      H.Context(request.Value(), response.Value(), profile, cycle, responseHeadersSent, calls)
    }

    /** envoy header capture on either message. */
    static method CaptureHeaders(m: InferenceMessage, received: seq<H.HeaderValue>)
      modifies m
      ensures m.Value() == old(m.Value()).(headers := H.Capture(old(m.headers), received))
    {
      for i := 0 to |received|
        invariant m.Value() == old(m.Value()).(headers := m.headers)
        invariant H.Capture(m.headers, received[i..]) == H.Capture(old(m.headers), received)
      {
        assert received[i..][1..] == received[i + 1..];
        m.headers := m.headers[received[i].key := H.GetHeaderValue(received[i])];
      }
    }
  }

  class EventNotifier {
    var events: seq<H.EventType>

    constructor () ensures events == [] { events := []; }

    method Notify(e: H.EventType)
      modifies this
      ensures events == old(events) + [e]
    {
      events := events + [e];
    }
  }

  method AddStreamedResponseBody(responses: seq<H.Reply>, body: bytes) returns (r: seq<H.Reply>)
    ensures r == responses + H.ResponseBodyReplies(ChunkBody(body, true))
  {
    var chunks := BuildChunkedBodyResponses(body, true);
    r := responses;
    for i := 0 to |chunks|
      invariant r == responses + H.ResponseBodyReplies(chunks)[..i]
    {
      r := r + [H.ResponseBody(chunks[i])];
    }
  }

  method AddStreamedBodyResponse(responses: seq<H.Reply>, body: bytes) returns (r: seq<H.Reply>)
    ensures r == responses + H.RequestBodyReplies(ChunkBody(body, true))
  {
    var chunks := BuildChunkedBodyResponses(body, true);
    r := responses;
    for i := 0 to |chunks|
      invariant r == responses + H.RequestBodyReplies(chunks)[..i]
    {
      r := r + [H.RequestBody(chunks[i])];
    }
  }

  /** json.Unmarshal into the body of a message. */
  method Unmarshal(m: InferenceMessage, parsed: H.Parsed)
    modifies m
    ensures m.Value() == H.Unmarshalled(old(m.Value()), parsed)
  {
    match parsed
    case Malformed =>
    case Null => m.body, m.nilBody := map[], true;
    case Object(fields) => m.body, m.nilBody := m.body + fields, false;
  }

  class Server {
    const config: H.Config
    const eventNotifier: EventNotifier

    constructor (config: H.Config, eventNotifier: EventNotifier)
      ensures this.config == config && this.eventNotifier == eventNotifier
    {
      this.config, this.eventNotifier := config, eventNotifier;
    }

    // ----------------------------------------------------------------------------
    // request.go

    method HandleRequestHeaders(ctx: RequestContext, received: seq<H.HeaderValue>, eos: bool) returns (replies: seq<H.Reply>)
      requires ctx.Valid()
      modifies ctx.request
      ensures H.Handled(ctx.Value(), Success(replies), []) == H.HandleRequestHeaders(old(ctx.Value()), received, eos)
    {
      RequestContext.CaptureHeaders(ctx.request, received);
      replies := if eos then [H.RequestHeaders(H.NoMutation)] else [];
    }

    method RunRequestPlugins(cycle: H.CycleState, request: InferenceMessage, plugins: seq<H.RequestPlugin>)
      returns (cycle': H.CycleState, err: Option<H.Error>)
      modifies request
      ensures var run := H.RunRequestPlugins(cycle, old(request.Value()), plugins);
              cycle' == run.cycle && request.Value() == run.msg && err == run.error
      ensures exists calls ::
                && T.Ran(plugins, calls, cycle, old(request.Value()))
                && cycle' == T.CycleAfter(calls, cycle) && request.Value() == T.MessageAfter(calls, old(request.Value())) && err == T.ErrorAfter(calls)
    {
      hide T.Ran, T.CycleAfter, T.MessageAfter, T.ErrorAfter;
      ghost var calls := T.PluginsRun(cycle, request.Value(), plugins);
      cycle' := cycle;
      ghost var run := H.RunRequestPlugins(cycle, request.Value(), plugins);
      for i := 0 to |plugins|
        invariant var rest := H.RunRequestPlugins(cycle', request.Value(), plugins[i..]);
                  run.cycle == rest.cycle && run.msg == rest.msg && run.error == rest.error
      {
        assert plugins[i..][1..] == plugins[i + 1..];
        var o := plugins[i].run(cycle', request.Value());
        var panicked := request.PerformAll(o.ops);
        cycle' := o.cycle;
        if panicked {
          return cycle', Some(H.Panic);
        }
        if o.error.Some? {
          return cycle', o.error;
        }
      }
      err := None;
    }

    method HandleRequestBody(ctx: RequestContext, received: bytes) returns (r: Result<seq<H.Reply>, H.Error>)
      requires ctx.Valid()
      modifies ctx, ctx.request, eventNotifier
      ensures var h := H.HandleRequestBody(config, old(ctx.Value()), received);
              ctx.Value() == h.ctx && r == h.result && eventNotifier.events == old(eventNotifier.events) + h.events
      ensures exists pre, post, events ::
                && T.WentThrough(config, old(ctx.Value()), received, pre, post, H.Handled(ctx.Value(), r, events))
                && eventNotifier.events == old(eventNotifier.events) + events
    {
      hide T.WentThrough;
      ghost var pre, post := T.RequestGoesThrough(config, ctx.Value(), received);
      var parsed := config.parse(received);
      if parsed.Malformed? {
        return Failure(H.Coded("BadRequest"));
      }
      Unmarshal(ctx.request, parsed);

      var cycle, err := RunRequestPlugins(ctx.cycle, ctx.request, config.preProcessors);
      ctx.cycle := cycle;
      if err.Some? {
        return Failure(err.value);
      }

      var pick := config.picker(ctx.cycle, ctx.request.Value(), config.profiles);
      var panicked := ctx.request.PerformAll(pick.ops);
      ctx.cycle := pick.cycle;
      if panicked {
        return Failure(H.Panic);
      }
      if pick.choice.Failure? {
        return Failure(if pick.choice.error.Panic? then H.Panic else H.Coded("Internal"));
      }
      ctx.profile := pick.choice.value;

      cycle, err := RunRequestPlugins(ctx.cycle, ctx.request, ctx.profile.requestPlugins);
      ctx.cycle := cycle;
      if err.Some? {
        return Failure(err.value);
      }

      var out := received;
      if ctx.request.bodyMutated {
        var marshalled := config.marshal(if ctx.request.nilBody then None else Some(ctx.request.body));
        if marshalled.None? {
          return Failure(H.Uncoded);
        }
        out := marshalled.value;
      }
      ctx.request.SetHeader(H.CONTENT_LENGTH, Itoa(|out|));
      eventNotifier.Notify(H.RequestEvent);

      var replies := [H.RequestHeaders(H.Mutation(true, ctx.request.mutatedHeaders, ctx.request.removedHeaders))];
      replies := AddStreamedBodyResponse(replies, out);
      r := Success(replies);
    }

    // ----------------------------------------------------------------------------
    // response.go

    /** The three loops of response.go that run response plugins in order. */
    method RunResponsePlugins(stage: H.Stage, final: bool, cycle: H.CycleState, response: InferenceResponse, plugins: seq<H.ResponsePlugin>)
      returns (cycle': H.CycleState, calls: seq<H.Call>, err: Option<H.Error>)
      modifies response, response.message
      ensures H.ResponseRun(cycle', response.Value(), calls, err)
           == H.RunResponsePlugins(stage, final, cycle, old(response.Value()), plugins)
    {
      hide ApplyResponseOps, H.RunResponsePlugins, H.Remains;
      ghost var all := H.RunResponsePlugins(stage, final, cycle, response.Value(), plugins);
      cycle', calls := cycle, [];
      H.NothingDone(all);
      assert plugins[0..] == plugins;
      for i := 0 to |plugins|
        invariant H.Remains(all, calls, H.RunResponsePlugins(stage, final, cycle', response.Value(), plugins[i..]))
      {
        H.UnrollResponsePlugins(all, calls, stage, final, cycle', response.Value(), plugins, i);
        var call := H.CallPlugin(stage, final, cycle', response.Value(), plugins[i]);
        calls := calls + [call];
        var panicked := response.PerformAll(call.outcome.ops);
        cycle' := call.outcome.cycle;
        if panicked {
          return cycle', calls, Some(H.Panic);
        }
        if call.outcome.error.Some? {
          return cycle', calls, call.outcome.error;
        }
      }
      H.UnrollResponsePlugins(all, calls, stage, final, cycle', response.Value(), plugins, |plugins|);
      err := None;
    }

    method RunInContext(stage: H.Stage, final: bool, ctx: RequestContext, plugins: seq<H.ResponsePlugin>)
      returns (err: Option<H.Error>)
      requires ctx.Valid()
      modifies ctx, ctx.response, ctx.response.message
      ensures var run := H.RunResponsePlugins(stage, final, old(ctx.cycle), old(ctx.response.Value()), plugins);
              ctx.Value() == H.InContext(old(ctx.Value()), run) && err == run.error
    {
      var cycle, calls, e := RunResponsePlugins(stage, final, ctx.cycle, ctx.response, plugins);
      ctx.cycle, ctx.calls, err := cycle, ctx.calls + calls, e;
    }

    method HandleResponseHeaders(ctx: RequestContext, received: seq<H.HeaderValue>, eos: bool) returns (r: Result<seq<H.Reply>, H.Error>)
      requires ctx.Valid()
      modifies ctx, ctx.response, ctx.response.message
      ensures H.Handled(ctx.Value(), r, []) == H.HandleResponseHeaders(config, old(ctx.Value()), received, eos)
    {
      RequestContext.CaptureHeaders(ctx.response.message, received);
      var err := RunInContext(H.HeadersStage, true, ctx, config.responseHeadersPostProcessors);
      if err.Some? {
        return Failure(err.value);
      }
      r := Success(if eos then [H.ResponseHeaders(H.BuildHeadersResponse(ctx.response.message.Value()))] else []);
    }

    method GeneratePassthroughResponseBodyResponse(ctx: RequestContext, received: bytes) returns (replies: seq<H.Reply>)
      ensures replies == H.PassthroughReplies(ctx.response.message.Value(), received)
    {
      replies := [H.ResponseHeaders(H.BuildHeadersResponse(ctx.response.message.Value()))];
      replies := AddStreamedResponseBody(replies, received);
    }

    method HandleResponseBody(ctx: RequestContext, received: bytes) returns (r: Result<seq<H.Reply>, H.Error>)
      requires ctx.Valid()
      modifies ctx, ctx.response, ctx.response.message
      ensures H.Handled(ctx.Value(), r, []) == H.HandleResponseBody(config, old(ctx.Value()), received)
    {
      if ctx.profile.responsePlugins == [] && config.postProcessors == [] {
        var replies := GeneratePassthroughResponseBodyResponse(ctx, received);
        return Success(replies);
      }
      var parsed := config.parse(received);
      if parsed.Malformed? {
        var replies := GeneratePassthroughResponseBodyResponse(ctx, received);
        return Success(replies);
      }
      Unmarshal(ctx.response.message, parsed);

      var err := RunInContext(H.BodyStage, true, ctx, ctx.profile.responsePlugins);
      if err.Some? {
        return Failure(err.value);
      }
      err := RunInContext(H.BodyStage, true, ctx, config.postProcessors);
      if err.Some? {
        return Failure(err.value);
      }

      var out := received;
      if ctx.response.message.bodyMutated {
        var marshalled := config.marshal(if ctx.response.message.nilBody then None else Some(ctx.response.message.body));
        if marshalled.None? {
          return Failure(H.Uncoded);
        }
        out := marshalled.value;
        ctx.response.message.SetHeader(H.CONTENT_LENGTH, Itoa(|out|));
      }
      var replies := [H.ResponseHeaders(H.Mutation(true, ctx.response.message.mutatedHeaders, ctx.response.message.removedHeaders))];
      replies := AddStreamedResponseBody(replies, out);
      r := Success(replies);
    }

    method BuildStreamedChunkResponse(ctx: RequestContext, chunk: bytes, eos: bool) returns (replies: seq<H.Reply>)
      requires ctx.Valid()
      modifies ctx`responseHeadersSent
      ensures H.Handled(ctx.Value(), Success(replies), []) == H.BuildStreamedChunkResponse(old(ctx.Value()), chunk, eos)
    {
      replies := [H.ResponseBody(Chunk(chunk, eos))];
      if !ctx.responseHeadersSent {
        replies := [H.ResponseHeaders(H.BuildHeadersResponse(ctx.response.message.Value()))] + replies;
        ctx.responseHeadersSent := true;
      }
    }

    method HandleResponseChunk(ctx: RequestContext, received: bytes, eos: bool) returns (r: Result<seq<H.Reply>, H.Error>)
      requires ctx.Valid()
      modifies ctx, ctx.response, ctx.response.message
      ensures H.Handled(ctx.Value(), r, []) == H.HandleResponseChunk(config, old(ctx.Value()), received, eos)
    {
      var out := received;
      if ctx.profile.chunkProcessors != [] {
        ctx.response.ResetChunkState(received);
        var err := RunInContext(H.ChunkStage, eos, ctx, ctx.profile.chunkProcessors);
        if err.Some? {
          return Failure(err.value);
        }
        if ctx.response.chunkMutated {
          out := ctx.response.currentChunk;
        }
      }
      var replies := BuildStreamedChunkResponse(ctx, out, eos);
      r := Success(replies);
    }

    // ----------------------------------------------------------------------------
    // server.go

    /** One stream: receive until the sender stops, replying as Stream.Run says. `ending`
        is None when the stream ran to its end. */
    method Process(msgs: seq<Incoming>) returns (sent: seq<H.Reply>, ending: Option<Ending>)
      modifies eventNotifier
      ensures var run := Run(config, Initial, msgs);
              && sent == run.sent && ending == run.st.ended
              && eventNotifier.events == old(eventNotifier.events) + run.events
    {
      hide Next;
      var stream := new Locals();
      sent, ending := [], None;
      ghost var run := Run(config, Initial, msgs);

      for i := 0 to |msgs|
        invariant stream.Valid() && fresh(stream.Repr()) && ending == None
        invariant var rest := Run(config, stream.Value(), msgs[i..]);
                  && run.st == rest.st
                  && run.sent == sent + rest.sent
                  && old(eventNotifier.events) + run.events == eventNotifier.events + rest.events
      {
        ghost var one := Next(config, stream.Value(), msgs[i]);
        ghost var rest := Run(config, one.st, msgs[i + 1..]);
        assert msgs[i..][0] == msgs[i] && msgs[i..][1..] == msgs[i + 1..];
        assert sent + (one.sent + rest.sent) == (sent + one.sent) + rest.sent;
        assert eventNotifier.events + (one.events + rest.events) == (eventNotifier.events + one.events) + rest.events;

        var replies;
        replies, ending := Receive(stream, msgs[i]);
        sent := sent + replies;
        if ending.Some? {
          EndedRun(config, one.st, msgs[i + 1..]);
          return;
        }
      }
    }

    /** One turn of the loop. */
    method Receive(stream: Locals, msg: Incoming) returns (sent: seq<H.Reply>, ending: Option<Ending>)
      requires stream.Valid() && eventNotifier !in stream.Repr()
      modifies stream.Repr(), eventNotifier
      ensures var one := Next(config, old(stream.Value()), msg);
              && stream.Value() == one.st.(ended := None) && ending == one.st.ended && sent == one.sent
              && eventNotifier.events == old(eventNotifier.events) + one.events
    {
      hide OnRequestBody, OnResponseBody, H.HandleRequestHeaders, H.HandleResponseHeaders, H.ErrorStatus;
      if msg.InUnknown? {
        return [], Some(Errored);
      }
      ghost var one := Next(config, stream.Value(), msg);
      var r := Handle(stream, msg);
      hide Next;
      if r.Failure? {
        var status := H.ErrorStatus(r.error);
        if status.Some? {
          return [H.Immediate(status.value)], Some(Replied);
        }
        return [], Some(if r.error.Panic? then Crashed else Errored);
      }
      return r.value, None;
    }

    /** The switch over the kinds of message. */
    method Handle(stream: Locals, msg: Incoming) returns (r: Result<seq<H.Reply>, H.Error>)
      requires stream.Valid() && eventNotifier !in stream.Repr() && !msg.InUnknown?
      modifies stream.Repr(), eventNotifier
      ensures stream.Concluded(Next(config, old(stream.Value()), msg), r, old(eventNotifier.events), eventNotifier.events)
    {
      hide OnRequestBody, OnResponseBody, H.HandleRequestHeaders, H.HandleResponseHeaders, H.ErrorStatus;
      match msg {
        case InRequestHeaders(headers, eos) =>
          var replies := HandleRequestHeaders(stream.ctx, headers, eos);
          r := Success(replies);
        case InRequestBody(body, eos) =>
          r := ReceiveRequestBody(stream, body, eos);
        case InRequestTrailers =>
          r := Success([H.RequestTrailers]);
        case InResponseHeaders(headers, eos) =>
          r := HandleResponseHeaders(stream.ctx, headers, eos);
        case InResponseBody(body, eos) =>
          r := ReceiveResponseBody(stream, body, eos);
        case InResponseTrailers =>
          r := Success([H.ResponseTrailers]);
      }
    }

    method ReceiveRequestBody(stream: Locals, body: bytes, eos: bool) returns (r: Result<seq<H.Reply>, H.Error>)
      requires stream.Valid() && eventNotifier !in stream.Repr()
      modifies stream.Repr(), eventNotifier
      ensures stream.Concluded(OnRequestBody(config, old(stream.Value()), body, eos), r, old(eventNotifier.events), eventNotifier.events)
    {
      hide H.HandleRequestBody, H.ErrorStatus;
      if stream.requestBodyComplete {
        return Success([]);
      }
      stream.requestBody := stream.requestBody + body;
      if !eos {
        return Success([]);
      }
      stream.requestBodyComplete := true;
      r := HandleRequestBody(stream.ctx, stream.requestBody);
    }

    method ReceiveResponseBody(stream: Locals, body: bytes, eos: bool) returns (r: Result<seq<H.Reply>, H.Error>)
      requires stream.Valid() && eventNotifier !in stream.Repr()
      modifies stream.Repr(), eventNotifier
      ensures stream.Concluded(OnResponseBody(config, old(stream.Value()), body, eos), r, old(eventNotifier.events), eventNotifier.events)
    {
      hide H.HandleResponseBody, H.HandleResponseChunk, H.ErrorStatus;
      if stream.responseBodyComplete {
        return Success([]);
      }
      stream.responseStarted := true;
      if stream.ctx.profile.needsResponseBuffering {
        stream.responseBody := stream.responseBody + body;
        if !eos {
          return Success([]);
        }
        r := HandleResponseBody(stream.ctx, stream.responseBody);
      } else {
        r := HandleResponseChunk(stream.ctx, body, eos);
      }
      if eos {
        stream.responseBodyComplete := true;
        // a panic has left the method by now, and nobody reads its locals any more
        if r.Success? || !r.error.Panic? {
          eventNotifier.Notify(H.ResponseEvent);
        }
      }
    }
  }

  /** The local variables of `Process`. */
  class Locals {
    const ctx: RequestContext
    var requestBody: bytes
    var responseBody: bytes
    var requestBodyComplete: bool
    var responseBodyComplete: bool
    var responseStarted: bool

    constructor ()
      ensures Valid() && fresh(Repr()) && Value() == Initial
    {
      ctx := new RequestContext();
      requestBody, responseBody := [], [];
      requestBodyComplete, responseBodyComplete, responseStarted := false, false, false;
    }

    ghost predicate Valid() { ctx.Valid() }

    ghost function Repr(): set<object> { {this} + ctx.Repr() }

    /** The state of the running stream. */
    ghost function Value(): State
      reads Repr()
    {
      State(ctx.Value(), requestBody, responseBody, requestBodyComplete, responseBodyComplete, responseStarted, None)
    }

    /** These locals and this handler result are the step `one`, before the loop sends the
        replies or answers the error. */
    ghost predicate Concluded(one: Step, r: Result<seq<H.Reply>, H.Error>, before: seq<H.EventType>, after: seq<H.EventType>)
      reads Repr()
    {
      && one == Conclude(Value(), H.Handled(ctx.Value(), r, one.events))
      && after == before + one.events
    }
  }
}
