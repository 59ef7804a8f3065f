/** The response side, call by call: which plugins the headers, a whole body or a chunk go
    through, what each is given, and what becomes of the response, the cycle state and the
    stream, whether they succeed or fail. */
module ResponseTrace {
  import opened Wrappers
  import opened Envoy
  import opened Messages
  import opened Handlers
  import opened Stream

  // ------------------------------------------------------------------------------
  // The calls of one loop

  /** How a call ends: in a panic, if one of its API calls panics; else as the plugin says. */
  function ErrorOf(call: Call): Option<Error> {
    if ResponsePanics(call.seen, call.outcome.ops) then Some(Panic) else call.outcome.error
  }

  /** The cycle state, the response and the error that calls leave: those of the last one. */
  function CycleAfter(calls: seq<Call>, cycle: CycleState): CycleState {
    if calls == [] then cycle else calls[|calls| - 1].outcome.cycle
  }

  function ResponseAfter(calls: seq<Call>, r: Response): Response {
    if calls == [] then r else ApplyResponseOps(calls[|calls| - 1].seen, calls[|calls| - 1].outcome.ops)
  }

  function ErrorAfter(calls: seq<Call>): Option<Error> {
    if calls == [] then None else ErrorOf(calls[|calls| - 1])
  }

  /** The call of p with this cycle state and this response. */
  ghost predicate IsCall(stage: Stage, final: bool, p: ResponsePlugin, call: Call, cycle: CycleState, r: Response) {
    call == Call(stage, p.name, cycle, r, final, p.run(cycle, r, final))
  }

  /** Call i is that of plugin i, given the cycle state and the response its predecessors left. */
  ghost predicate EachIsCall(stage: Stage, final: bool, plugins: seq<ResponsePlugin>, calls: seq<Call>, cycle: CycleState, r: Response) {
    && |calls| <= |plugins|
    && forall i :: 0 <= i < |calls| ==> IsCall(stage, final, plugins[i], calls[i], CycleAfter(calls[..i], cycle), ResponseAfter(calls[..i], r))
  }

  /** No call but the last may fail. */
  ghost predicate OnlyLastFails(calls: seq<Call>) {
    forall i :: 0 <= i < |calls| - 1 ==> ErrorOf(calls[i]).None?
  }

  /** The calls are those of the plugins, in order: of all of them, or of those up to the
      first that fails. */
  ghost predicate Ran(stage: Stage, final: bool, plugins: seq<ResponsePlugin>, calls: seq<Call>, cycle: CycleState, r: Response) {
    && EachIsCall(stage, final, plugins, calls, cycle, r) && OnlyLastFails(calls)
    && (|calls| < |plugins| ==> ErrorAfter(calls).Some?)
  }

  lemma AfterAppend(a: seq<Call>, b: seq<Call>, cycle: CycleState, r: Response)
    ensures CycleAfter(a + b, cycle) == CycleAfter(b, CycleAfter(a, cycle))
    ensures ResponseAfter(a + b, r) == ResponseAfter(b, ResponseAfter(a, r))
    ensures ErrorAfter(a + b) == if b == [] then ErrorAfter(a) else ErrorAfter(b)
  {
    hide ApplyResponseOps, ErrorOf;
    if b == [] { assert a + b == a; }
  }

  lemma EachAppend(stage: Stage, final: bool, p: seq<ResponsePlugin>, a: seq<Call>, q: seq<ResponsePlugin>, b: seq<Call>, cycle: CycleState, r: Response)
    requires EachIsCall(stage, final, p, a, cycle, r) && |a| == |p|
    requires EachIsCall(stage, final, q, b, CycleAfter(a, cycle), ResponseAfter(a, r))
    ensures EachIsCall(stage, final, p + q, a + b, cycle, r)
  {
    hide ApplyResponseOps, CycleAfter, ResponseAfter, IsCall;
    var calls := a + b;
    forall i | 0 <= i < |calls| ensures IsCall(stage, final, (p + q)[i], calls[i], CycleAfter(calls[..i], cycle), ResponseAfter(calls[..i], r)) {
      if i < |a| {
        assert calls[..i] == a[..i];
      } else {
        assert calls[..i] == a + b[..i - |a|];
        AfterAppend(a, b[..i - |a|], cycle, r);
      }
    }
  }

  lemma OnlyLastAppend(a: seq<Call>, b: seq<Call>)
    requires OnlyLastFails(a) && OnlyLastFails(b) && ErrorAfter(a).None?
    ensures OnlyLastFails(a + b)
  {
    hide ErrorOf;
  }

  /** A loop after a loop that succeeded is one loop over the plugins of both. */
  lemma RanAppend(stage: Stage, final: bool, p: seq<ResponsePlugin>, a: seq<Call>, q: seq<ResponsePlugin>, b: seq<Call>, cycle: CycleState, r: Response)
    requires Ran(stage, final, p, a, cycle, r) && ErrorAfter(a).None?
    requires Ran(stage, final, q, b, CycleAfter(a, cycle), ResponseAfter(a, r))
    ensures Ran(stage, final, p + q, a + b, cycle, r)
  {
    AfterAppend(a, b, cycle, r);
    assert |a| <= |p|;
    hide ApplyResponseOps, ErrorOf, EachIsCall, OnlyLastFails;
    EachAppend(stage, final, p, a, q, b, cycle, r);
    OnlyLastAppend(a, b);
  }

  lemma RanFailed(stage: Stage, final: bool, p: seq<ResponsePlugin>, a: seq<Call>, q: seq<ResponsePlugin>, cycle: CycleState, r: Response)
    requires Ran(stage, final, p, a, cycle, r) && ErrorAfter(a).Some?
    ensures Ran(stage, final, p + q, a, cycle, r)
  {
    hide ErrorAfter, OnlyLastFails, CycleAfter, ResponseAfter, IsCall;
  }

  lemma OneCall(stage: Stage, final: bool, p: ResponsePlugin, cycle: CycleState, r: Response)
    ensures var call := CallPlugin(stage, final, cycle, r, p);
            && Ran(stage, final, [p], [call], cycle, r)
            && CycleAfter([call], cycle) == call.outcome.cycle
            && ResponseAfter([call], r) == ApplyResponseOps(r, call.outcome.ops)
            && ErrorAfter([call]) == CallError(call)
  {
    var call := CallPlugin(stage, final, cycle, r, p);
    assert [call][..0] == [];
    hide ApplyResponseOps, ResponsePanics;
  }

  /** RunResponsePlugins calls the plugins so, and leaves what the calls leave. */
  lemma {:induction false} PluginsRun(stage: Stage, final: bool, cycle: CycleState, r: Response, plugins: seq<ResponsePlugin>)
    ensures var run := RunResponsePlugins(stage, final, cycle, r, plugins);
            && Ran(stage, final, plugins, run.calls, cycle, r)
            && run.cycle == CycleAfter(run.calls, cycle) && run.response == ResponseAfter(run.calls, r) && run.error == ErrorAfter(run.calls)
    decreases |plugins|
  {
    if plugins != [] {
      var call := CallPlugin(stage, final, cycle, r, plugins[0]);
      var r' := ApplyResponseOps(r, call.outcome.ops);
      OneCall(stage, final, plugins[0], cycle, r);
      hide ApplyResponseOps, ResponsePanics, Ran, CycleAfter, ResponseAfter, ErrorAfter, CallPlugin, CallError;
      assert plugins == [plugins[0]] + plugins[1..];
      if CallError(call).Some? {
        RanFailed(stage, final, [plugins[0]], [call], plugins[1..], cycle, r);
      } else {
        var rest := RunResponsePlugins(stage, final, call.outcome.cycle, r', plugins[1..]);
        PluginsRun(stage, final, call.outcome.cycle, r', plugins[1..]);
        RanAppend(stage, final, [plugins[0]], [call], plugins[1..], rest.calls, cycle, r);
        AfterAppend([call], rest.calls, cycle, r);
        NothingAfter(rest.calls);
      }
    }
  }

  lemma NothingAfter(calls: seq<Call>)
    ensures calls == [] ==> ErrorAfter(calls).None?
  {
  }

  // ------------------------------------------------------------------------------
  // One handler call

  /** The context after the calls of a loop that started with response r. */
  function ContextAfter(ctx: Context, calls: seq<Call>, r: Response): Context {
    ctx.(cycle := CycleAfter(calls, ctx.cycle), response := ResponseAfter(calls, r), calls := ctx.calls + calls)
  }

  /** The reply carries the message's header log, if there is one, and leaves the route cache
      alone. */
  ghost predicate CarriesLog(h: HeadersReply, m: Message) {
    if m.mutatedHeaders == map[] && m.removedHeaders == {} then h == NoMutation else h == Mutation(false, m.mutatedHeaders, m.removedHeaders)
  }

  /** The replies are this headers reply, then the chunks of the body. */
  ghost predicate AnsweredWith(replies: seq<Reply>, h: HeadersReply, body: bytes) {
    var chunks := ChunkBody(body, true);
    && |replies| == 1 + |chunks| && replies[0] == ResponseHeaders(h)
    && forall i :: 0 <= i < |chunks| ==> replies[i + 1] == ResponseBody(chunks[i])
  }

  /** Response headers: captured, through the header post-processors, and answered only if
      they end the stream. */
  ghost predicate HeadersWentThrough(c: Config, ctx: Context, received: seq<HeaderValue>, eos: bool, calls: seq<Call>, h: Handled) {
    var m := ctx.response.msg;
    var r := ctx.response.(msg := m.(headers := Capture(m.headers, received)));
    && Ran(HeadersStage, true, c.responseHeadersPostProcessors, calls, ctx.cycle, r)
    && h.ctx == ContextAfter(ctx, calls, r) && h.events == []
    && if ErrorAfter(calls).Some? then h.result == Failure(ErrorAfter(calls).value)
       else h.result.Success? && if !eos then h.result.value == []
            else |h.result.value| == 1 && h.result.value[0].ResponseHeaders? && CarriesLog(h.result.value[0].h, h.ctx.response.msg)
  }

  /** A whole body: passed on as it is when there is no plugin for it or it does not parse;
      else through the profile's body plugins and the body post-processors, and sent as
      received, or marshalled with its new length if any call mutated it. */
  ghost predicate BodyWentThrough(c: Config, ctx: Context, received: bytes, calls: seq<Call>, h: Handled) {
    var plugins := ctx.profile.responsePlugins + c.postProcessors;
    if plugins == [] || c.parse(received).Malformed? then
      && calls == [] && h.ctx == ctx && h.events == [] && h.result.Success?
      && exists reply :: CarriesLog(reply, ctx.response.msg) && AnsweredWith(h.result.value, reply, received)
    else
      var r := ctx.response.(msg := Unmarshalled(ctx.response.msg, c.parse(received)));
      && Ran(BodyStage, true, plugins, calls, ctx.cycle, r)
      && BodySent(c, ContextAfter(ctx, calls, r), received, ErrorAfter(calls), h)
  }

  ghost predicate BodySent(c: Config, ran: Context, received: bytes, error: Option<Error>, h: Handled) {
    var m := ran.response.msg;
    var out := if m.bodyMutated then c.marshal(if m.nilBody then None else Some(m.body)) else Some(received);
    if error.Some? then h == Handled(ran, Failure(error.value), [])
    else if out.None? then h == Handled(ran, Failure(Uncoded), [])
    else
      var m' := if m.bodyMutated then ApplyOp(m, MessageOp.SetHeader("Content-Length", Itoa(|out.value|))) else m;
      && h.ctx == ran.(response := ran.response.(msg := m')) && h.events == [] && h.result.Success?
      && AnsweredWith(h.result.value, Mutation(true, m'.mutatedHeaders, m'.removedHeaders), out.value)
  }

  /** One chunk: through the profile's chunk processors, which find its bytes as the current
      chunk, and sent as received, or as the current chunk they left if any of them set one;
      the headers reply goes out before it, once. */
  ghost predicate ChunkWentThrough(c: Config, ctx: Context, received: bytes, eos: bool, calls: seq<Call>, h: Handled) {
    var processors := ctx.profile.chunkProcessors;
    var r := if processors == [] then ctx.response else ctx.response.(currentChunk := received, chunkMutated := false);
    var ran := ContextAfter(ctx, calls, r);
    && Ran(ChunkStage, eos, processors, calls, ctx.cycle, r)
    && if ErrorAfter(calls).Some? then h == Handled(ran, Failure(ErrorAfter(calls).value), [])
       else ChunkSent(ran, if processors != [] && ran.response.chunkMutated then ran.response.currentChunk else received, eos, h)
  }

  ghost predicate ChunkSent(ran: Context, out: bytes, eos: bool, h: Handled) {
    && h.ctx == ran.(responseHeadersSent := true) && h.events == [] && h.result.Success?
    && if ran.responseHeadersSent then h.result.value == [ResponseBody(Chunk(out, eos))]
       else exists reply :: CarriesLog(reply, ran.response.msg) && h.result.value == [ResponseHeaders(reply), ResponseBody(Chunk(out, eos))]
  }

  lemma HeadersGoThrough(c: Config, ctx: Context, received: seq<HeaderValue>, eos: bool) returns (calls: seq<Call>)
    ensures HeadersWentThrough(c, ctx, received, eos, calls, HandleResponseHeaders(c, ctx, received, eos))
  {
    var m := ctx.response.msg;
    var r := ctx.response.(msg := m.(headers := Capture(m.headers, received)));
    PluginsRun(HeadersStage, true, ctx.cycle, r, c.responseHeadersPostProcessors);
    calls := RunResponsePlugins(HeadersStage, true, ctx.cycle, r, c.responseHeadersPostProcessors).calls;
    hide Ran, CycleAfter, ResponseAfter, ErrorAfter, RunResponsePlugins, Capture;
  }

  lemma BodyIsSent(c: Config, ran: Context, received: bytes)
    ensures var out := OutgoingBody(c, ran.response.msg, received);
            if out.None? then BodySent(c, ran, received, None, Handled(ran, Failure(Uncoded), []))
            else
              var m := if ran.response.msg.bodyMutated then ApplyOp(ran.response.msg, MessageOp.SetHeader(CONTENT_LENGTH, Itoa(|out.value|)))
                       else ran.response.msg;
              BodySent(c, ran, received, None,
                       Handled(ran.(response := ran.response.(msg := m)),
                               Success([ResponseHeaders(Mutation(true, m.mutatedHeaders, m.removedHeaders))] + ResponseBodyReplies(ChunkBody(out.value, true))),
                               []))
    ensures forall e :: BodySent(c, ran, received, Some(e), Handled(ran, Failure(e), []))
  {
    hide ApplyOp, Itoa, ChunkBody;
  }

  lemma PassedOn(m: Message, received: bytes)
    ensures exists reply :: CarriesLog(reply, m) && AnsweredWith(PassthroughReplies(m, received), reply, received)
  {
    hide ChunkBody;
    assert CarriesLog(BuildHeadersResponse(m), m) && AnsweredWith(PassthroughReplies(m, received), BuildHeadersResponse(m), received);
  }

  lemma BodyGoesThrough(c: Config, ctx: Context, received: bytes) returns (calls: seq<Call>)
    ensures BodyWentThrough(c, ctx, received, calls, HandleResponseBody(c, ctx, received))
  {
    calls := [];
    PassedOn(ctx.response.msg, received);
    if ctx.profile.responsePlugins + c.postProcessors != [] && !c.parse(received).Malformed? {
      var first, second := ctx.profile.responsePlugins, c.postProcessors;
      var r := ctx.response.(msg := Unmarshalled(ctx.response.msg, c.parse(received)));
      var run1 := RunResponsePlugins(BodyStage, true, ctx.cycle, r, first);
      var run2 := RunResponsePlugins(BodyStage, true, run1.cycle, run1.response, second);
      PluginsRun(BodyStage, true, ctx.cycle, r, first);
      PluginsRun(BodyStage, true, run1.cycle, run1.response, second);
      hide Ran, ApplyOp, Unmarshalled, RunResponsePlugins, OutgoingBody, BodySent, Itoa, ResponseBodyReplies, ChunkBody, CycleAfter, ResponseAfter, ErrorAfter;
      if run1.error.Some? {
        calls := run1.calls;
        RanFailed(BodyStage, true, first, run1.calls, second, ctx.cycle, r);
        BodyIsSent(c, ContextAfter(ctx, calls, r), received);
      } else {
        calls := run1.calls + run2.calls;
        RanAppend(BodyStage, true, first, run1.calls, second, run2.calls, ctx.cycle, r);
        AfterAppend(run1.calls, run2.calls, ctx.cycle, r);
        NothingAfter(run2.calls);
        assert (ctx.calls + run1.calls) + run2.calls == ctx.calls + calls;
        BodyIsSent(c, ContextAfter(ctx, calls, r), received);
      }
    }
  }

  lemma ChunkIsSent(ran: Context, out: bytes, eos: bool)
    ensures ChunkSent(ran, out, eos, BuildStreamedChunkResponse(ran, out, eos))
  {
    assert CarriesLog(BuildHeadersResponse(ran.response.msg), ran.response.msg);
    hide CarriesLog, BuildHeadersResponse;
  }

  lemma ChunkGoesThrough(c: Config, ctx: Context, received: bytes, eos: bool) returns (calls: seq<Call>)
    ensures ChunkWentThrough(c, ctx, received, eos, calls, HandleResponseChunk(c, ctx, received, eos))
  {
    var processors := ctx.profile.chunkProcessors;
    if processors == [] {
      calls := [];
      assert ctx.calls + [] == ctx.calls;
      ChunkIsSent(ctx, received, eos);
      hide ChunkSent, BuildStreamedChunkResponse;
    } else {
      var r := ctx.response.(currentChunk := received, chunkMutated := false);
      var run := RunResponsePlugins(ChunkStage, eos, ctx.cycle, r, processors);
      PluginsRun(ChunkStage, eos, ctx.cycle, r, processors);
      calls := run.calls;
      ChunkIsSent(ContextAfter(ctx, calls, r), if run.response.chunkMutated then run.response.currentChunk else received, eos);
      hide Ran, CycleAfter, ResponseAfter, ErrorAfter, RunResponsePlugins, ChunkSent, BuildStreamedChunkResponse;
    }
  }

  // ------------------------------------------------------------------------------
  // One message of a stream

  /** Response headers, in whatever state of a living stream they come. */
  lemma HeadersStep(c: Config, st: State, headers: seq<HeaderValue>, eos: bool) returns (calls: seq<Call>, h: Handled)
    requires st.ended.None?
    ensures var one := Next(c, st, InResponseHeaders(headers, eos));
            && HeadersWentThrough(c, st.ctx, headers, eos, calls, h) && Reported(h.result, one)
            && one.st == st.(ctx := h.ctx, ended := one.st.ended) && one.events == []
  {
    h := HandleResponseHeaders(c, st.ctx, headers, eos);
    calls := HeadersGoThrough(c, st.ctx, headers, eos);
    assert h.events == [];
    hide HeadersWentThrough, HandleResponseHeaders, Reported, ErrorStatus;
    ConcludeReports(st, h);
  }

  /** The message that completes a buffered response: all its bytes go through as one body,
      and the data layer is told unless a plugin panicked. */
  lemma BodyStep(c: Config, st: State, body: bytes) returns (calls: seq<Call>, h: Handled)
    requires st.ended.None? && !st.responseBodyComplete && st.ctx.profile.needsResponseBuffering
    ensures var one := Next(c, st, InResponseBody(body, true));
            && BodyWentThrough(c, st.ctx, st.responseBody + body, calls, h) && Reported(h.result, one)
            && one.st == st.(ctx := h.ctx, ended := one.st.ended, responseBody := st.responseBody + body, responseStarted := true, responseBodyComplete := true)
            && one.events == if h.result == Failure(Panic) then [] else [ResponseEvent]
  {
    h := HandleResponseBody(c, st.ctx, st.responseBody + body);
    calls := BodyGoesThrough(c, st.ctx, st.responseBody + body);
    assert KeepsRequest(st.ctx, h) by { ResponseHandlersKeepRequest(c, st.ctx); }
    hide BodyWentThrough, HandleResponseBody, Reported, ErrorStatus;
    ConcludeReports(st.(responseBody := st.responseBody + body, responseStarted := true), h);
  }

  /** Each chunk of a streamed response. */
  lemma ChunkStep(c: Config, st: State, body: bytes, eos: bool) returns (calls: seq<Call>, h: Handled)
    requires st.ended.None? && !st.responseBodyComplete && !st.ctx.profile.needsResponseBuffering
    ensures var one := Next(c, st, InResponseBody(body, eos));
            && ChunkWentThrough(c, st.ctx, body, eos, calls, h) && Reported(h.result, one)
            && one.st == st.(ctx := h.ctx, ended := one.st.ended, responseStarted := true, responseBodyComplete := eos)
            && one.events == if eos && h.result != Failure(Panic) then [ResponseEvent] else []
  {
    h := HandleResponseChunk(c, st.ctx, body, eos);
    calls := ChunkGoesThrough(c, st.ctx, body, eos);
    assert KeepsRequest(st.ctx, h) by { ResponseHandlersKeepRequest(c, st.ctx); }
    hide ChunkWentThrough, HandleResponseChunk, Reported, ErrorStatus;
    ConcludeReports(st.(responseStarted := true), h);
  }
}
