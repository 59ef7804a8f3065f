/** When a stream panics: a JSON null leaves a nil map as the body of a message, and a plugin
    that writes a field of it takes the process down. Nothing recovers. */
module Crashes {
  import opened Wrappers
  import opened Envoy
  import opened Messages
  import opened Handlers
  import opened Stream
  import Framing

  lemma {:induction false} PanicsAppend(m: Message, a: seq<MessageOp>, b: seq<MessageOp>)
    ensures Panics(m, a + b) <==> Panics(m, a) || Panics(ApplyOps(m, a), b)
    ensures !Panics(m, a) ==> ApplyOps(m, a + b) == ApplyOps(ApplyOps(m, a), b)
    decreases |a|
  {
    if a == [] {
      assert a + b == b;
    } else {
      assert (a + b)[0] == a[0] && (a + b)[1..] == a[1..] + b;
      PanicsAppend(ApplyOp(m, a[0]), a[1..], b);
    }
  }

  // ------------------------------------------------------------------------------
  // Requests

  ghost predicate NeverPanics(p: RequestPlugin) {
    forall cycle, m :: p.run(cycle, m).error != Some(Panic)
  }

  /** No plugin of a request panics for a reason of its own. */
  ghost predicate NoOwnPanic(c: Config) {
    && (forall p :: p in c.preProcessors ==> NeverPanics(p))
    && forall cycle, m ::
         var choice := c.picker(cycle, m, c.profiles).choice;
         if choice.Failure? then !choice.error.Panic? else forall p :: p in choice.value.requestPlugins ==> NeverPanics(p)
  }

  /** One loop over plugins panics when the calls of the plugins that ran do. */
  lemma {:induction false} LoopPanicsIff(cycle: CycleState, m: Message, plugins: seq<RequestPlugin>)
    ensures var run := RunRequestPlugins(cycle, m, plugins);
            && (Panics(m, run.ops) ==> run.error == Some(Panic))
            && ((forall p :: p in plugins ==> NeverPanics(p)) ==> (run.error == Some(Panic) <==> Panics(m, run.ops)))
            && (!Panics(m, run.ops) ==> run.msg == ApplyOps(m, run.ops))
    decreases |plugins|
  {
    if plugins != [] {
      var o := plugins[0].run(cycle, m);
      hide Panics, ApplyOps;
      LoopPanicsIff(o.cycle, ApplyOps(m, o.ops), plugins[1..]);
      PanicsAppend(m, o.ops, RunRequestPlugins(o.cycle, ApplyOps(m, o.ops), plugins[1..]).ops);
      assert plugins[0] in plugins && forall p :: p in plugins[1..] ==> p in plugins;
    } else {
      assert !Panics(m, []) && ApplyOps(m, []) == m;
    }
  }

  /** The message calls that the plugins which ran for a request were out to make: those of
      the pre-processors, of the profile picker and of the profile's plugins, in order. */
  function RequestOps(c: Config, ctx: Context, received: bytes): seq<MessageOp> {
    var parsed := c.parse(received);
    if parsed.Malformed? then []
    else
      var pre := RunRequestPlugins(ctx.cycle, Unmarshalled(ctx.request, parsed), c.preProcessors);
      if pre.error.Some? then pre.ops
      else
        var pick := c.picker(pre.cycle, pre.msg, c.profiles);
        if PickError(pre.msg, pick).Some? then pre.ops + pick.ops
        else pre.ops + pick.ops + RunRequestPlugins(pick.cycle, ApplyOps(pre.msg, pick.ops), pick.choice.value.requestPlugins).ops
  }

  /** The request handler panics when these calls do. */
  lemma HandlerPanics(c: Config, ctx: Context, received: bytes)
    requires !c.parse(received).Malformed?
    ensures var m := Unmarshalled(ctx.request, c.parse(received)); var ops := RequestOps(c, ctx, received);
            var result := HandleRequestBody(c, ctx, received).result;
            && (Panics(m, ops) ==> result == Failure(Panic))
            && (NoOwnPanic(c) && result == Failure(Panic) ==> Panics(m, ops))
  {
    hide Panics, ApplyOps, ApplyOp, RunRequestPlugins, Unmarshalled, RequestBodyReplies, ChunkBody, Itoa, OutgoingBody, NeverPanics;
    var m := Unmarshalled(ctx.request, c.parse(received));
    var pre := RunRequestPlugins(ctx.cycle, m, c.preProcessors);
    LoopPanicsIff(ctx.cycle, m, c.preProcessors);
    if pre.error.None? {
      var pick := c.picker(pre.cycle, pre.msg, c.profiles);
      PanicsAppend(m, pre.ops, pick.ops);
      if PickError(pre.msg, pick).None? {
        var run := RunRequestPlugins(pick.cycle, ApplyOps(pre.msg, pick.ops), pick.choice.value.requestPlugins);
        LoopPanicsIff(pick.cycle, ApplyOps(pre.msg, pick.ops), pick.choice.value.requestPlugins);
        PanicsAppend(m, pre.ops + pick.ops, run.ops);
      }
    }
  }

  /** Exactly when a request panics: if its body parses as null and some plugin that runs
      writes a field before any plugin replaces the body, and, unless a plugin panics for a
      reason of its own, only then. */
  lemma RequestPanicsIff(c: Config, ctx: Context, received: bytes)
    requires !ctx.request.nilBody
    ensures var result := HandleRequestBody(c, ctx, received).result;
            var nullWrite := c.parse(received).Null? && FieldBeforeBody(RequestOps(c, ctx, received));
            && (nullWrite ==> result == Failure(Panic))
            && (NoOwnPanic(c) ==> (result == Failure(Panic) <==> nullWrite))
  {
    var parsed := c.parse(received);
    if !parsed.Malformed? {
      var m := Unmarshalled(ctx.request, parsed);
      assert m.nilBody <==> parsed.Null?;
      HandlerPanics(c, ctx, received);
      PanicsIff(m, RequestOps(c, ctx, received));
      hide RequestOps, HandleRequestBody, FieldBeforeBody, NoOwnPanic;
    }
  }

  // ------------------------------------------------------------------------------
  // Responses

  ghost predicate NeverPanicsOnResponse(p: ResponsePlugin) {
    forall cycle, r, final :: p.run(cycle, r, final).error != Some(Panic)
  }

  function CallOps(calls: seq<Call>): seq<MessageOp> {
    if calls == [] then [] else MessageOps(calls[0].outcome.ops) + CallOps(calls[1..])
  }

  lemma {:induction false} CallOpsAppend(a: seq<Call>, b: seq<Call>)
    ensures CallOps(a + b) == CallOps(a) + CallOps(b)
    decreases |a|
  {
    if a == [] {
      assert a + b == b;
    } else {
      assert (a + b)[0] == a[0] && (a + b)[1..] == a[1..] + b;
      CallOpsAppend(a[1..], b);
    }
  }

  lemma {:induction false} ResponseLoopPanicsIff(stage: Stage, final: bool, cycle: CycleState, r: Response, plugins: seq<ResponsePlugin>)
    ensures var run := RunResponsePlugins(stage, final, cycle, r, plugins); var ops := CallOps(run.calls);
            && (Panics(r.msg, ops) ==> run.error == Some(Panic))
            && ((forall p :: p in plugins ==> NeverPanicsOnResponse(p)) ==> (run.error == Some(Panic) <==> Panics(r.msg, ops)))
            && (!Panics(r.msg, ops) ==> run.response.msg == ApplyOps(r.msg, ops))
    decreases |plugins|
  {
    if plugins != [] {
      hide Panics, ApplyOps, ResponsePanics, ApplyResponseOps, MessageOps;
      var run := RunResponsePlugins(stage, final, cycle, r, plugins);
      var call := CallPlugin(stage, final, cycle, r, plugins[0]);
      var ops, r' := MessageOps(call.outcome.ops), ApplyResponseOps(r, call.outcome.ops);
      ResponsePanicsIff(r, call.outcome.ops);
      assert plugins[0] in plugins && forall p :: p in plugins[1..] ==> p in plugins;
      assert call.outcome == plugins[0].run(cycle, r, final) && call.seen == r;
      if CallError(call).Some? {
        assert run == ResponseRun(call.outcome.cycle, r', [call], CallError(call));
        assert CallOps([call]) == ops + [] == ops by { assert [call][1..] == []; }
      } else {
        var rest := RunResponsePlugins(stage, final, call.outcome.cycle, r', plugins[1..]);
        assert run == rest.(calls := [call] + rest.calls);
        ResponseLoopPanicsIff(stage, final, call.outcome.cycle, r', plugins[1..]);
        assert CallOps(run.calls) == ops + CallOps(rest.calls) by { assert ([call] + rest.calls)[1..] == rest.calls; }
        PanicsAppend(r.msg, ops, CallOps(rest.calls));
      }
      hide RunResponsePlugins, CallOps, NeverPanicsOnResponse;
    } else {
      assert !Panics(r.msg, []) && ApplyOps(r.msg, []) == r.msg;
    }
  }

  /** The calls of a response handler are the calls noted after those already there. */
  function CallsSince(ctx: Context, h: Handled): seq<Call> {
    if |ctx.calls| <= |h.ctx.calls| then h.ctx.calls[|ctx.calls|..] else []
  }

  ghost predicate NoOwnPanicOnResponse(c: Config, profile: Profile) {
    forall p :: p in profile.responsePlugins + c.postProcessors ==> NeverPanicsOnResponse(p)
  }

  lemma InContextCalls(ctx: Context, run1: ResponseRun, run2: ResponseRun)
    ensures InContext(ctx, run1).calls[|ctx.calls|..] == run1.calls
    ensures InContext(InContext(ctx, run1), run2).calls[|ctx.calls|..] == run1.calls + run2.calls
  {
  }

  /** The buffered response handler panics when the message calls of its plugins do. */
  lemma ResponseHandlerPanics(c: Config, ctx: Context, received: bytes)
    requires ctx.profile.responsePlugins + c.postProcessors != [] && !c.parse(received).Malformed?
    ensures var m := Unmarshalled(ctx.response.msg, c.parse(received)); var h := HandleResponseBody(c, ctx, received);
            var ops := CallOps(CallsSince(ctx, h));
            && (Panics(m, ops) ==> h.result == Failure(Panic))
            && (NoOwnPanicOnResponse(c, ctx.profile) && h.result == Failure(Panic) ==> Panics(m, ops))
  {
    hide Panics, ApplyOps, ApplyOp, RunResponsePlugins, Unmarshalled, ResponseBodyReplies, ChunkBody, Itoa, OutgoingBody,
         NeverPanicsOnResponse, CallOps;
    var r := ctx.response.(msg := Unmarshalled(ctx.response.msg, c.parse(received)));
    var run1 := RunResponsePlugins(BodyStage, true, ctx.cycle, r, ctx.profile.responsePlugins);
    var run2 := RunResponsePlugins(BodyStage, true, run1.cycle, run1.response, c.postProcessors);
    ResponseLoopPanicsIff(BodyStage, true, ctx.cycle, r, ctx.profile.responsePlugins);
    ResponseLoopPanicsIff(BodyStage, true, run1.cycle, run1.response, c.postProcessors);
    PanicsAppend(r.msg, CallOps(run1.calls), CallOps(run2.calls));
    CallOpsAppend(run1.calls, run2.calls);
    InContextCalls(ctx, run1, run2);
    assert NoOwnPanicOnResponse(c, ctx.profile) ==>
             (forall p :: p in ctx.profile.responsePlugins ==> NeverPanicsOnResponse(p))
             && (forall p :: p in c.postProcessors ==> NeverPanicsOnResponse(p));
  }

  /** Exactly when a buffered response panics: if there are body plugins or body
      post-processors, the body parses as null, and some of those that run writes a field
      before any replaces the body. */
  lemma ResponsePanicsIffNull(c: Config, ctx: Context, received: bytes)
    requires !ctx.response.msg.nilBody
    ensures var h := HandleResponseBody(c, ctx, received);
            var nullWrite := && ctx.profile.responsePlugins + c.postProcessors != [] && c.parse(received).Null?
                             && FieldBeforeBody(CallOps(CallsSince(ctx, h)));
            && (nullWrite ==> h.result == Failure(Panic))
            && (NoOwnPanicOnResponse(c, ctx.profile) ==> (h.result == Failure(Panic) <==> nullWrite))
  {
    var parsed := c.parse(received);
    if ctx.profile.responsePlugins + c.postProcessors != [] && !parsed.Malformed? {
      var m := Unmarshalled(ctx.response.msg, parsed);
      assert m.nilBody <==> parsed.Null?;
      ResponseHandlerPanics(c, ctx, received);
      PanicsIff(m, CallOps(CallsSince(ctx, HandleResponseBody(c, ctx, received))));
      hide HandleResponseBody, FieldBeforeBody, NoOwnPanicOnResponse, CallOps;
    }
  }

  // ------------------------------------------------------------------------------
  // Whole runs

  /** A body can only be nil once its direction is complete. */
  ghost predicate NilOnlyWhenComplete(st: State) {
    && (!st.requestBodyComplete ==> !st.ctx.request.nilBody)
    && (!st.responseBodyComplete ==> !st.ctx.response.msg.nilBody)
  }

  lemma PluginsKeepBodyNotNil(stage: Stage, final: bool, cycle: CycleState, r: Response, plugins: seq<ResponsePlugin>)
    requires !r.msg.nilBody
    ensures !RunResponsePlugins(stage, final, cycle, r, plugins).response.msg.nilBody
  {
    var run := RunResponsePlugins(stage, final, cycle, r, plugins);
    ResponseLoopPanicsIff(stage, final, cycle, r, plugins);
    PanicsIff(r.msg, CallOps(run.calls));
    hide RunResponsePlugins, ApplyOps, FieldBeforeBody;
  }

  lemma StreamedKeepsBodyNotNil(c: Config, ctx: Context, headers: seq<HeaderValue>, body: bytes, eos: bool)
    requires !ctx.response.msg.nilBody
    ensures !HandleResponseHeaders(c, ctx, headers, eos).ctx.response.msg.nilBody
    ensures !HandleResponseChunk(c, ctx, body, eos).ctx.response.msg.nilBody
  {
    var captured := ctx.response.(msg := ctx.response.msg.(headers := Capture(ctx.response.msg.headers, headers)));
    PluginsKeepBodyNotNil(HeadersStage, true, ctx.cycle, captured, c.responseHeadersPostProcessors);
    PluginsKeepBodyNotNil(ChunkStage, eos, ctx.cycle, ctx.response.(currentChunk := body, chunkMutated := false), ctx.profile.chunkProcessors);
    hide RunResponsePlugins, Capture;
  }

  lemma StepKeepsNil(c: Config, st: State, msg: Incoming)
    requires NilOnlyWhenComplete(st)
    ensures NilOnlyWhenComplete(Next(c, st, msg).st)
  {
    hide HandleRequestBody, HandleResponseHeaders, HandleResponseBody, HandleResponseChunk, ErrorStatus;
    match msg
    case InRequestBody(body, eos) => Framing.RequestKeepsResponse(c, st.ctx, st.requestBody + body);
    case InResponseHeaders(headers, eos) =>
      assert KeepsRequest(st.ctx, HandleResponseHeaders(c, st.ctx, headers, eos)) by { ResponseHandlersKeepRequest(c, st.ctx); }
      if !st.responseBodyComplete { StreamedKeepsBodyNotNil(c, st.ctx, headers, [], eos); }
    case InResponseBody(body, eos) =>
      assert KeepsRequest(st.ctx, HandleResponseBody(c, st.ctx, st.responseBody + body))
          && KeepsRequest(st.ctx, HandleResponseChunk(c, st.ctx, body, eos)) by { ResponseHandlersKeepRequest(c, st.ctx); }
      if !st.responseBodyComplete { StreamedKeepsBodyNotNil(c, st.ctx, [], body, eos); }
    case _ =>
  }

  lemma {:induction false} NilAlongRun(c: Config, st: State, msgs: seq<Incoming>)
    requires NilOnlyWhenComplete(st)
    ensures NilOnlyWhenComplete(Run(c, st, msgs).st)
    decreases |msgs|
  {
    hide NilOnlyWhenComplete, Next;
    if msgs != [] {
      StepKeepsNil(c, st, msgs[0]);
      NilAlongRun(c, Next(c, st, msgs[0]).st, msgs[1..]);
    }
  }

  /** Over whole runs: the message that completes the request takes the process down, with
      no reply and no event, if and only if the accumulated body parses as null and some
      plugin that runs writes a field before any replaces the body. */
  lemma RequestCrashesIff(c: Config, before: seq<Incoming>, body: bytes)
    requires NoOwnPanic(c)
    requires var st := Run(c, Initial, before).st; st.ended.None? && !st.requestBodyComplete
    ensures var st := Run(c, Initial, before).st; var one := Next(c, st, InRequestBody(body, true));
            var all := st.requestBody + body;
            && (one.st.ended == Some(Crashed) <==> c.parse(all).Null? && FieldBeforeBody(RequestOps(c, st.ctx, all)))
            && (one.st.ended == Some(Crashed) ==> one.sent == [] && one.events == [])
  {
    var st := Run(c, Initial, before).st;
    NilAlongRun(c, Initial, before);
    RequestPanicsIff(c, st.ctx, st.requestBody + body);
    RequestStepCrashes(c, st, body);
    hide Run, Next, HandleRequestBody, RequestOps, FieldBeforeBody, NoOwnPanic;
  }

  lemma RequestStepCrashes(c: Config, st: State, body: bytes)
    requires st.ended.None? && !st.requestBodyComplete
    ensures var one := Next(c, st, InRequestBody(body, true)); var h := HandleRequestBody(c, st.ctx, st.requestBody + body);
            && (one.st.ended == Some(Crashed) <==> h.result == Failure(Panic))
            && (one.st.ended == Some(Crashed) ==> one.sent == [] && one.events == [])
  {
    EventsOnSuccessOnly(c, st.ctx, st.requestBody + body);
    assert ErrorStatus(Panic).None?;
    hide HandleRequestBody, ErrorStatus;
  }

  lemma ResponseStepCrashes(c: Config, st: State, body: bytes)
    requires st.ended.None? && !st.responseBodyComplete && st.ctx.profile.needsResponseBuffering
    ensures var one := Next(c, st, InResponseBody(body, true)); var h := HandleResponseBody(c, st.ctx, st.responseBody + body);
            && (one.st.ended == Some(Crashed) <==> h.result == Failure(Panic))
            && (one.st.ended == Some(Crashed) ==> one.sent == [] && one.events == [])
  {
    assert KeepsRequest(st.ctx, HandleResponseBody(c, st.ctx, st.responseBody + body)) by { ResponseHandlersKeepRequest(c, st.ctx); }
    assert ErrorStatus(Panic).None?;
    hide HandleResponseBody, ErrorStatus;
  }

  lemma EventsOnSuccessOnly(c: Config, ctx: Context, received: bytes)
    ensures HandleRequestBody(c, ctx, received).result.Failure? ==> HandleRequestBody(c, ctx, received).events == []
  {
    hide RunRequestPlugins, ApplyOps, OutgoingBody, RequestBodyReplies, Unmarshalled;
  }

  /** The same for the message that completes a buffered response. */
  lemma ResponseCrashesIff(c: Config, before: seq<Incoming>, body: bytes)
    requires var st := Run(c, Initial, before).st;
             && st.ended.None? && !st.responseBodyComplete && st.ctx.profile.needsResponseBuffering
             && NoOwnPanicOnResponse(c, st.ctx.profile)
    ensures var st := Run(c, Initial, before).st; var one := Next(c, st, InResponseBody(body, true));
            var all := st.responseBody + body;
            && (one.st.ended == Some(Crashed) <==>
                  && st.ctx.profile.responsePlugins + c.postProcessors != [] && c.parse(all).Null?
                  && FieldBeforeBody(CallOps(CallsSince(st.ctx, HandleResponseBody(c, st.ctx, all)))))
            && (one.st.ended == Some(Crashed) ==> one.sent == [] && one.events == [])
  {
    var st := Run(c, Initial, before).st;
    NilAlongRun(c, Initial, before);
    ResponsePanicsIffNull(c, st.ctx, st.responseBody + body);
    ResponseStepCrashes(c, st, body);
    hide Run, Next, HandleResponseBody, CallOps, CallsSince, FieldBeforeBody, NoOwnPanicOnResponse;
  }

  /** For instance: a body that parses as null, and one pre-processor that sets a field. */
  lemma NullBodyCrashes(c: Config, body: bytes, p: RequestPlugin, key: string, field: Json)
    requires c.parse(body).Null? && c.preProcessors == [p]
    requires forall cycle, m :: p.run(cycle, m) == Outcome([MessageOp.SetBodyField(key, field)], cycle, None)
    ensures var r := Run(c, Initial, [InRequestHeaders([], false), InRequestBody(body, true)]);
            r.st.ended == Some(Crashed) && r.sent == [] && r.events == []
  {
    var msgs := [InRequestHeaders([], false), InRequestBody(body, true)];
    assert msgs[1..] == [msgs[1]];
    var one := Next(c, Initial, msgs[0]);
    assert one.st.ctx == NewContext && one.st.requestBody == [] && [] + body == body;
    var m := Unmarshalled(NewMessage, c.parse(body));
    assert Panics(m, [MessageOp.SetBodyField(key, field)]);
    assert RunRequestPlugins(map[], m, [p]).error == Some(Panic);
    assert HandleRequestBody(c, NewContext, body).result == Failure(Panic);
    var two := Next(c, one.st, msgs[1]);
    assert Run(c, two.st, []) == Step(two.st, [], []);
    assert Run(c, one.st, [msgs[1]]) == Step(two.st, two.sent + [], two.events + []);
  }
}
