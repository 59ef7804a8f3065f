/** What the handlers of pkg/handlers compute: one call is a function from the request
    context it finds to the context it leaves, its replies and its data-layer events.
    Server.dfy holds the methods; here is the specification they are proved against. */
module Handlers {
  import opened Wrappers
  import opened Envoy
  import opened Messages

  const CONTENT_LENGTH := "Content-Length"

  /** errcommon.Error carries a code; every other Go error is Uncoded. Panic is not an error
      value: nothing recovers from it, and nobody is told. */
  datatype Error = Coded(code: string) | Uncoded | Panic

  type CycleState = map<string, Json>

  // ------------------------------------------------------------------------------
  // Plugins: arbitrary functions that act through the message API

  /** What one plugin call does: the API calls it makes, the cycle state it leaves, and
      whether it returned an error (the calls made before the error stand) or panicked for
      a reason of its own. An API call that panics ends the plugin before that. */
  datatype Outcome<+Op> = Outcome(ops: seq<Op>, cycle: CycleState, error: Option<Error>)

  datatype RequestPlugin = RequestPlugin(name: string, run: (CycleState, Message) -> Outcome<MessageOp>)

  /** A response plugin of any of the three kinds. Only chunk processors get to know
      whether the chunk is final; the others are always passed `true`. */
  datatype ResponsePlugin = ResponsePlugin(name: string, run: (CycleState, Response, bool) -> Outcome<ResponseOp>)

  datatype Profile = Profile(
    requestPlugins: seq<RequestPlugin>,
    responsePlugins: seq<ResponsePlugin>,
    chunkProcessors: seq<ResponsePlugin>,
    needsResponseBuffering: bool)

  const EmptyProfile := Profile([], [], [], false)

  datatype Picked = Picked(ops: seq<MessageOp>, cycle: CycleState, choice: Result<Profile, Error>)

  /** json.Unmarshal into a map: invalid input leaves the map alone, `null` makes it nil, an
      object adds its fields to what is there. */
  datatype Parsed = Malformed | Null | Object(fields: Body)

  datatype Config = Config(
    preProcessors: seq<RequestPlugin>,
    picker: (CycleState, Message, map<string, Profile>) -> Picked,
    profiles: map<string, Profile>,
    postProcessors: seq<ResponsePlugin>,
    responseHeadersPostProcessors: seq<ResponsePlugin>,
    parse: bytes -> Parsed,
    marshal: Option<Body> -> Option<bytes>)

  // ------------------------------------------------------------------------------
  // Replies and events

  datatype HeadersReply =
    | NoMutation
    | Mutation(clearRouteCache: bool, setHeaders: HeaderMap, removeHeaders: set<string>)

  datatype Reply =
    | RequestHeaders(h: HeadersReply)
    | RequestBody(chunk: Chunk)
    | RequestTrailers
    | ResponseHeaders(h: HeadersReply)
    | ResponseBody(chunk: Chunk)
    | ResponseTrailers
    | Immediate(status: int)

  datatype EventType = RequestEvent | ResponseEvent

  // ------------------------------------------------------------------------------
  // The request context

  datatype Stage = HeadersStage | BodyStage | ChunkStage

  /** One plugin call on the response, as the latency metric counts them, with what the
      plugin was given and what it did. */
  datatype Call = Call(
    stage: Stage, plugin: string, cycle: CycleState, seen: Response, final: bool, outcome: Outcome<ResponseOp>)

  datatype Context = Context(
    request: Message,
    response: Response,
    profile: Profile,
    cycle: CycleState,
    responseHeadersSent: bool,
    calls: seq<Call>)

  const NewContext := Context(NewMessage, NewResponse, EmptyProfile, map[], false, [])

  /** The context a handler leaves, its replies or its error, and what it notified. */
  datatype Handled = Handled(ctx: Context, result: Result<seq<Reply>, Error>, events: seq<EventType>)

  // ------------------------------------------------------------------------------
  // Headers

  datatype HeaderValue = HeaderValue(key: string, value: string, rawValue: string)

  function GetHeaderValue(h: HeaderValue): string {
    if |h.rawValue| > 0 then h.rawValue else h.value
  }

  function Capture(headers: HeaderMap, received: seq<HeaderValue>): HeaderMap
    decreases |received|
  {
    if received == [] then headers
    else Capture(headers[received[0].key := GetHeaderValue(received[0])], received[1..])
  }

  lemma {:induction false} CaptureAppend(headers: HeaderMap, a: seq<HeaderValue>, b: seq<HeaderValue>)
    ensures Capture(headers, a + b) == Capture(Capture(headers, a), b)
    decreases |a|
  {
    if a == [] {
      assert a + b == b;
    } else {
      assert (a + b)[1..] == a[1..] + b;
      CaptureAppend(headers[a[0].key := GetHeaderValue(a[0])], a[1..], b);
    }
  }

  /** received[i] is the last header of that key. */
  ghost predicate LastOfKey(received: seq<HeaderValue>, i: nat, key: string) {
    i < |received| && received[i].key == key && forall j :: i < j < |received| ==> received[j].key != key
  }

  /** Of the headers received with a key the last one counts, by its raw value, or, where
      that is empty, by its value; a key not received stays as it is. */
  lemma {:induction false} CaptureIs(headers: HeaderMap, received: seq<HeaderValue>, key: string)
    ensures var captured := Capture(headers, received);
            && (forall i: nat :: LastOfKey(received, i, key) ==>
                  key in captured && captured[key] == if received[i].rawValue != "" then received[i].rawValue else received[i].value)
            && ((forall i :: 0 <= i < |received| ==> received[i].key != key) ==>
                  (key in captured <==> key in headers) && (key in captured ==> captured[key] == headers[key]))
    decreases |received|
  {
    if received != [] {
      var before, last := received[..|received| - 1], received[|received| - 1];
      assert received == before + [last];
      CaptureAppend(headers, before, [last]);
      assert [last][1..] == [];
      assert Capture(headers, received) == Capture(headers, before)[last.key := GetHeaderValue(last)];
      CaptureIs(headers, before, key);
      assert forall i: nat :: LastOfKey(received, i, key) && last.key != key ==> LastOfKey(before, i, key);
    }
  }

  function Unmarshalled(m: Message, parsed: Parsed): Message {
    match parsed
    case Malformed => m
    case Null => m.(body := map[], nilBody := true)
    case Object(fields) => m.(body := m.body + fields, nilBody := false)
  }

  /** An object's fields are set and the other fields stay; null leaves a nil map, and bytes
      that do not parse leave the message alone. Nothing but the body changes. */
  lemma UnmarshalledIs(m: Message, parsed: Parsed, key: string)
    ensures var m' := Unmarshalled(m, parsed);
            && m' == m.(body := m'.body, nilBody := m'.nilBody)
            && (parsed.Malformed? ==> m' == m)
            && (parsed.Null? ==> m'.nilBody && m'.body == map[])
            && (parsed.Object? ==>
                  && !m'.nilBody && (key in m'.body <==> key in parsed.fields || key in m.body)
                  && (key in m'.body ==> m'.body[key] == if key in parsed.fields then parsed.fields[key] else m.body[key]))
  {
  }

  /** The body as a Go map, nil or not. */
  function GoBody(m: Message): Option<Body> {
    if m.nilBody then None else Some(m.body)
  }

  // ------------------------------------------------------------------------------
  // Requests

  function HandleRequestHeaders(ctx: Context, received: seq<HeaderValue>, eos: bool): Handled {
    Handled(
      ctx.(request := ctx.request.(headers := Capture(ctx.request.headers, received))),
      Success(if eos then [RequestHeaders(NoMutation)] else []), [])
  }

  /** `ops` are the message calls that the plugins which ran were out to make. */
  datatype RequestRun = RequestRun(cycle: CycleState, msg: Message, ops: seq<MessageOp>, error: Option<Error>)

  /** How a plugin call on m ends: a call that panics comes before whatever it returns. */
  function RequestError(m: Message, o: Outcome<MessageOp>): Option<Error> {
    if Panics(m, o.ops) then Some(Panic) else o.error
  }

  function RunRequestPlugins(cycle: CycleState, msg: Message, plugins: seq<RequestPlugin>): RequestRun
    decreases |plugins|
  {
    if plugins == [] then RequestRun(cycle, msg, [], None)
    else
      var o := plugins[0].run(cycle, msg);
      var msg' := ApplyOps(msg, o.ops);
      var error := RequestError(msg, o);
      if error.Some? then RequestRun(o.cycle, msg', o.ops, error)
      else
        var rest := RunRequestPlugins(o.cycle, msg', plugins[1..]);
        rest.(ops := o.ops + rest.ops)
  }

  function RequestBodyReplies(chunks: seq<Chunk>): seq<Reply> {
    seq(|chunks|, i requires 0 <= i < |chunks| => RequestBody(chunks[i]))
  }

  function ResponseBodyReplies(chunks: seq<Chunk>): seq<Reply> {
    seq(|chunks|, i requires 0 <= i < |chunks| => ResponseBody(chunks[i]))
  }

  /** The bytes to send on: the marshalled body if a plugin mutated it, else those received. */
  function OutgoingBody(c: Config, m: Message, received: bytes): Option<bytes> {
    if m.bodyMutated then c.marshal(GoBody(m)) else Some(received)
  }

  /** An error of the profile picker is answered as an internal one. */
  function PickError(m: Message, pick: Picked): Option<Error> {
    if Panics(m, pick.ops) || pick.choice == Failure(Panic) then Some(Panic)
    else if pick.choice.Failure? then Some(Coded("Internal"))
    else None
  }

  function HandleRequestBody(c: Config, ctx: Context, received: bytes): Handled {
    var parsed := c.parse(received);
    if parsed.Malformed? then Handled(ctx, Failure(Coded("BadRequest")), [])
    else
      var pre := RunRequestPlugins(ctx.cycle, Unmarshalled(ctx.request, parsed), c.preProcessors);
      if pre.error.Some? then Handled(ctx.(cycle := pre.cycle, request := pre.msg), Failure(pre.error.value), [])
      else
        var pick := c.picker(pre.cycle, pre.msg, c.profiles);
        var picked := ctx.(cycle := pick.cycle, request := ApplyOps(pre.msg, pick.ops));
        if PickError(pre.msg, pick).Some? then Handled(picked, Failure(PickError(pre.msg, pick).value), [])
        else
          var run := RunRequestPlugins(picked.cycle, picked.request, pick.choice.value.requestPlugins);
          var ran := picked.(cycle := run.cycle, request := run.msg, profile := pick.choice.value);
          if run.error.Some? then Handled(ran, Failure(run.error.value), [])
          else
            var out := OutgoingBody(c, ran.request, received);
            if out.None? then Handled(ran, Failure(Uncoded), [])
            else
              var m := ApplyOp(ran.request, MessageOp.SetHeader(CONTENT_LENGTH, Itoa(|out.value|)));
              Handled(ran.(request := m),
                      Success([RequestHeaders(Mutation(true, m.mutatedHeaders, m.removedHeaders))]
                              + RequestBodyReplies(ChunkBody(out.value, true))),
                      [RequestEvent])
  }

  // ------------------------------------------------------------------------------
  // Responses

  datatype ResponseRun = ResponseRun(cycle: CycleState, response: Response, calls: seq<Call>, error: Option<Error>)

  function CallPlugin(stage: Stage, final: bool, cycle: CycleState, r: Response, p: ResponsePlugin): Call {
    Call(stage, p.name, cycle, r, final, p.run(cycle, r, final))
  }

  function CallError(call: Call): Option<Error> {
    if ResponsePanics(call.seen, call.outcome.ops) then Some(Panic) else call.outcome.error
  }

  function RunResponsePlugins(stage: Stage, final: bool, cycle: CycleState, r: Response, plugins: seq<ResponsePlugin>): ResponseRun
    decreases |plugins|
  {
    if plugins == [] then ResponseRun(cycle, r, [], None)
    else
      var call := CallPlugin(stage, final, cycle, r, plugins[0]);
      var o := call.outcome;
      var r' := ApplyResponseOps(r, o.ops);
      if CallError(call).Some? then ResponseRun(o.cycle, r', [call], CallError(call))
      else
        var rest := RunResponsePlugins(stage, final, o.cycle, r', plugins[1..]);
        rest.(calls := [call] + rest.calls)
  }

  /** `all` is what is left to run at plugin i, after the calls already made. */
  ghost predicate Remains(all: ResponseRun, done: seq<Call>, rest: ResponseRun) {
    all == rest.(calls := done + rest.calls)
  }

  lemma NothingDone(all: ResponseRun)
    ensures Remains(all, [], all)
  {
    assert [] + all.calls == all.calls;
  }

  /** One turn of the plugin loop at plugin i. */
  lemma UnrollResponsePlugins(all: ResponseRun, done: seq<Call>, stage: Stage, final: bool, cycle: CycleState, r: Response, plugins: seq<ResponsePlugin>, i: nat)
    requires i <= |plugins|
    requires Remains(all, done, RunResponsePlugins(stage, final, cycle, r, plugins[i..]))
    ensures i == |plugins| ==> all == ResponseRun(cycle, r, done, None)
    ensures i < |plugins| ==>
              var call := CallPlugin(stage, final, cycle, r, plugins[i]);
              var r' := ApplyResponseOps(r, call.outcome.ops);
              if CallError(call).Some? then all == ResponseRun(call.outcome.cycle, r', done + [call], CallError(call))
              else Remains(all, done + [call], RunResponsePlugins(stage, final, call.outcome.cycle, r', plugins[i + 1..]))
  {
    if i < |plugins| {
      assert plugins[i..][1..] == plugins[i + 1..];
      var call := CallPlugin(stage, final, cycle, r, plugins[i]);
      var rest := RunResponsePlugins(stage, final, call.outcome.cycle, ApplyResponseOps(r, call.outcome.ops), plugins[i + 1..]);
      assert done + ([call] + rest.calls) == (done + [call]) + rest.calls;
    }
  }

  /** Running plugins is running them in the context and noting the calls. */
  function InContext(ctx: Context, run: ResponseRun): Context {
    ctx.(cycle := run.cycle, response := run.response, calls := ctx.calls + run.calls)
  }

  function BuildHeadersResponse(m: Message): HeadersReply {
    if m.mutatedHeaders == map[] && m.removedHeaders == {} then NoMutation
    else Mutation(false, m.mutatedHeaders, m.removedHeaders)
  }

  function HandleResponseHeaders(c: Config, ctx: Context, received: seq<HeaderValue>, eos: bool): Handled {
    var captured := ctx.response.(msg := ctx.response.msg.(headers := Capture(ctx.response.msg.headers, received)));
    var run := RunResponsePlugins(HeadersStage, true, ctx.cycle, captured, c.responseHeadersPostProcessors);
    var ctx' := InContext(ctx, run);
    if run.error.Some? then Handled(ctx', Failure(run.error.value), [])
    else Handled(ctx', Success(if eos then [ResponseHeaders(BuildHeadersResponse(ctx'.response.msg))] else []), [])
  }

  function PassthroughReplies(m: Message, received: bytes): seq<Reply> {
    [ResponseHeaders(BuildHeadersResponse(m))] + ResponseBodyReplies(ChunkBody(received, true))
  }

  function HandleResponseBody(c: Config, ctx: Context, received: bytes): Handled {
    var parsed := c.parse(received);
    if (ctx.profile.responsePlugins == [] && c.postProcessors == []) || parsed.Malformed? then
      Handled(ctx, Success(PassthroughReplies(ctx.response.msg, received)), [])
    else
      var r := ctx.response.(msg := Unmarshalled(ctx.response.msg, parsed));
      var run1 := RunResponsePlugins(BodyStage, true, ctx.cycle, r, ctx.profile.responsePlugins);
      var ctx1 := InContext(ctx, run1);
      if run1.error.Some? then Handled(ctx1, Failure(run1.error.value), [])
      else
        var run2 := RunResponsePlugins(BodyStage, true, ctx1.cycle, ctx1.response, c.postProcessors);
        var ctx2 := InContext(ctx1, run2);
        if run2.error.Some? then Handled(ctx2, Failure(run2.error.value), [])
        else
          var out := OutgoingBody(c, ctx2.response.msg, received);
          if out.None? then Handled(ctx2, Failure(Uncoded), [])
          else
            var m := if ctx2.response.msg.bodyMutated
                     then ApplyOp(ctx2.response.msg, MessageOp.SetHeader(CONTENT_LENGTH, Itoa(|out.value|)))
                     else ctx2.response.msg;
            Handled(ctx2.(response := ctx2.response.(msg := m)),
                    Success([ResponseHeaders(Mutation(true, m.mutatedHeaders, m.removedHeaders))]
                            + ResponseBodyReplies(ChunkBody(out.value, true))),
                    [])
  }

  function BuildStreamedChunkResponse(ctx: Context, chunk: bytes, eos: bool): Handled {
    var body := [ResponseBody(Chunk(chunk, eos))];
    if ctx.responseHeadersSent then Handled(ctx, Success(body), [])
    else Handled(ctx.(responseHeadersSent := true), Success([ResponseHeaders(BuildHeadersResponse(ctx.response.msg))] + body), [])
  }

  function HandleResponseChunk(c: Config, ctx: Context, received: bytes, eos: bool): Handled {
    if ctx.profile.chunkProcessors == [] then BuildStreamedChunkResponse(ctx, received, eos)
    else
      var run := RunResponsePlugins(ChunkStage, eos, ctx.cycle,
                                    ctx.response.(currentChunk := received, chunkMutated := false),
                                    ctx.profile.chunkProcessors);
      var ctx' := InContext(ctx, run);
      if run.error.Some? then Handled(ctx', Failure(run.error.value), [])
      else BuildStreamedChunkResponse(ctx', if run.response.chunkMutated then run.response.currentChunk else received, eos)
  }

  ghost predicate KeepsRequest(ctx: Context, h: Handled) {
    h.ctx.request == ctx.request && h.ctx.profile == ctx.profile && h.events == []
  }

  /** Nothing on the response side touches the request or the profile, or notifies. */
  lemma ResponseHandlersKeepRequest(c: Config, ctx: Context)
    ensures forall received, eos :: KeepsRequest(ctx, HandleResponseHeaders(c, ctx, received, eos))
    ensures forall body :: KeepsRequest(ctx, HandleResponseBody(c, ctx, body))
    ensures forall body, eos :: KeepsRequest(ctx, HandleResponseChunk(c, ctx, body, eos))
  {
    hide RunResponsePlugins, ResponseBodyReplies, PassthroughReplies, Capture, OutgoingBody, Unmarshalled;
  }

  // ------------------------------------------------------------------------------
  // Errors

  /** BuildErrResponse: the HTTP status of the immediate response, if the code has one. */
  function ErrorStatus(e: Error): Option<int> {
    match e
    case Uncoded => None
    case Panic => None
    case Coded(code) =>
      if code == "BadRequest" then Some(400)
      else if code == "Unauthorized" then Some(401)
      else if code == "Forbidden" then Some(403)
      else if code == "NotFound" then Some(404)
      else if code == "ResourceExhausted" then Some(429)
      else if code == "Internal" then Some(500)
      else if code == "ServiceUnavailable" then Some(503)
      else None
  }
}

/** One ext_proc stream as a state machine: what `Process` in pkg/handlers/server.go does
    with one received message, and with any sequence of them. */
module Stream {
  import opened Wrappers
  import opened Envoy
  import opened Messages
  import opened Handlers

  datatype Incoming =
    | InRequestHeaders(headers: seq<HeaderValue>, eos: bool)
    | InRequestBody(body: bytes, eos: bool)
    | InRequestTrailers
    | InResponseHeaders(headers: seq<HeaderValue>, eos: bool)
    | InResponseBody(body: bytes, eos: bool)
    | InResponseTrailers
    | InUnknown

  /** How `Process` ended: after an immediate response, with a gRPC error, or in a panic. */
  datatype Ending = Replied | Errored | Crashed

  /** `responseStarted` is a non-zero ResponseFirstChunkTimestamp. */
  datatype State = State(
    ctx: Context,
    requestBody: bytes,
    responseBody: bytes,
    requestBodyComplete: bool,
    responseBodyComplete: bool,
    responseStarted: bool,
    ended: Option<Ending>)

  const Initial := State(NewContext, [], [], false, false, false, None)

  datatype Step = Step(st: State, sent: seq<Reply>, events: seq<EventType>)

  /** Send the replies, or answer the error and return. */
  function Conclude(st: State, h: Handled): Step {
    var st' := st.(ctx := h.ctx);
    match h.result
    case Success(replies) => Step(st', replies, h.events)
    case Failure(e) =>
      match ErrorStatus(e)
      case Some(status) => Step(st'.(ended := Some(Replied)), [Immediate(status)], h.events)
      case None => Step(st'.(ended := Some(if e.Panic? then Crashed else Errored)), [], h.events)
  }

  function OnRequestBody(c: Config, st: State, body: bytes, eos: bool): Step {
    if st.requestBodyComplete then Step(st, [], [])
    else
      var st1 := st.(requestBody := st.requestBody + body);
      if !eos then Step(st1, [], [])
      else Conclude(st1.(requestBodyComplete := true), HandleRequestBody(c, st1.ctx, st1.requestBody))
  }

  function OnResponseBody(c: Config, st: State, body: bytes, eos: bool): Step {
    if st.responseBodyComplete then Step(st, [], [])
    else
      var st1 := st.(responseStarted := true);
      if st1.ctx.profile.needsResponseBuffering then
        var st2 := st1.(responseBody := st1.responseBody + body);
        if !eos then Step(st2, [], [])
        else CompleteResponse(st2, HandleResponseBody(c, st2.ctx, st2.responseBody))
      else
        var h := HandleResponseChunk(c, st1.ctx, body, eos);
        if eos then CompleteResponse(st1, h) else Conclude(st1, h)
  }

  /** At EndOfStream the response is complete and the data layer is told, even when the
      handler failed, but not when it panicked. */
  function CompleteResponse(st: State, h: Handled): Step {
    Conclude(st.(responseBodyComplete := true), if IsPanic(h) then h else h.(events := h.events + [ResponseEvent]))
  }

  predicate IsPanic(h: Handled) { h.result.Failure? && h.result.error.Panic? }

  function Next(c: Config, st: State, msg: Incoming): Step {
    if st.ended.Some? then Step(st, [], [])
    else
      match msg
      case InRequestHeaders(headers, eos) => Conclude(st, HandleRequestHeaders(st.ctx, headers, eos))
      case InRequestBody(body, eos) => OnRequestBody(c, st, body, eos)
      case InRequestTrailers => Step(st, [RequestTrailers], [])
      case InResponseHeaders(headers, eos) => Conclude(st, HandleResponseHeaders(c, st.ctx, headers, eos))
      case InResponseBody(body, eos) => OnResponseBody(c, st, body, eos)
      case InResponseTrailers => Step(st, [ResponseTrailers], [])
      case InUnknown => Step(st.(ended := Some(Errored)), [], [])
  }

  function Run(c: Config, st: State, msgs: seq<Incoming>): Step
    decreases |msgs|
  {
    if msgs == [] then Step(st, [], [])
    else
      var one := Next(c, st, msgs[0]);
      var rest := Run(c, one.st, msgs[1..]);
      Step(rest.st, one.sent + rest.sent, one.events + rest.events)
  }

  /** The HTTP status of the error codes that have one. */
  const STATUS: map<string, int> := map[
    "BadRequest" := 400, "Unauthorized" := 401, "Forbidden" := 403, "NotFound" := 404,
    "ResourceExhausted" := 429, "Internal" := 500, "ServiceUnavailable" := 503]

  /** How a handler's result is reported: replies are sent; an error whose code has a status
      is answered by an immediate response of that status; any other error ends the stream
      with a gRPC error, and a panic ends it without a word. */
  ghost predicate Reported(result: Result<seq<Reply>, Error>, one: Step) {
    match result
    case Success(replies) => one.sent == replies && one.st.ended == None
    case Failure(Coded(code)) =>
      if code in STATUS then one.sent == [Immediate(STATUS[code])] && one.st.ended == Some(Replied)
      else one.sent == [] && one.st.ended == Some(Errored)
    case Failure(Uncoded) => one.sent == [] && one.st.ended == Some(Errored)
    case Failure(Panic) => one.sent == [] && one.st.ended == Some(Crashed)
  }

  lemma ConcludeReports(st: State, h: Handled)
    requires st.ended.None?
    ensures Reported(h.result, Conclude(st, h)) && Reported(h.result, CompleteResponse(st, h))
  {
  }

  /** The messages that no plugin gets to see: request headers are captured, and answered at
      once only if they end the stream; a chunk of an incomplete body is kept, and one of a
      complete body ignored, without a word; trailers are acknowledged; anything else ends
      the stream with a gRPC error. */
  lemma QuietSteps(c: Config, st: State, headers: seq<HeaderValue>, body: bytes, eos: bool)
    requires st.ended.None?
    ensures var m := st.ctx.request;
            Next(c, st, InRequestHeaders(headers, eos)) ==
              Step(st.(ctx := st.ctx.(request := m.(headers := Capture(m.headers, headers)))), if eos then [RequestHeaders(NoMutation)] else [], [])
    ensures Next(c, st, InRequestTrailers) == Step(st, [RequestTrailers], [])
    ensures Next(c, st, InResponseTrailers) == Step(st, [ResponseTrailers], [])
    ensures Next(c, st, InUnknown) == Step(st.(ended := Some(Errored)), [], [])
    ensures st.requestBodyComplete ==> Next(c, st, InRequestBody(body, eos)) == Step(st, [], [])
    ensures !st.requestBodyComplete ==> Next(c, st, InRequestBody(body, false)) == Step(st.(requestBody := st.requestBody + body), [], [])
    ensures st.responseBodyComplete ==> Next(c, st, InResponseBody(body, eos)) == Step(st, [], [])
    ensures !st.responseBodyComplete && st.ctx.profile.needsResponseBuffering ==>
              Next(c, st, InResponseBody(body, false)) == Step(st.(responseBody := st.responseBody + body, responseStarted := true), [], [])
  {
    hide HandleRequestBody, HandleResponseHeaders, HandleResponseBody, HandleResponseChunk, Capture;
  }

  /** Once `Process` has returned nothing more is received. */
  lemma {:induction false} EndedRun(c: Config, st: State, msgs: seq<Incoming>)
    requires st.ended.Some?
    ensures Run(c, st, msgs) == Step(st, [], [])
    decreases |msgs|
  {
    if msgs != [] {
      EndedRun(c, st, msgs[1..]);
    }
  }

  lemma {:induction false} RunAppend(c: Config, st: State, a: seq<Incoming>, b: seq<Incoming>)
    ensures var ra := Run(c, st, a); var rb := Run(c, ra.st, b);
            Run(c, st, a + b) == Step(rb.st, ra.sent + rb.sent, ra.events + rb.events)
    decreases |a|
  {
    hide Next;
    if a == [] {
      assert [] + b == b;
    } else {
      assert (a + b)[1..] == a[1..] + b;
      RunAppend(c, Next(c, st, a[0]).st, a[1..], b);
    }
  }
}
