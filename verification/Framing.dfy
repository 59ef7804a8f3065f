/** What the receiver of the replies reconstructs: the header state of the message, and a
    Content-Length (section 8.6 of RFC 9110) that matches the streamed body. */
module Framing {
  import opened Wrappers
  import opened Envoy
  import opened Messages
  import opened Handlers
  import opened Stream

  /** The headers a receiver holding `start` has after applying a headers reply. */
  function Applied(start: HeaderMap, h: HeadersReply): HeaderMap {
    match h
    case NoMutation => start
    case Mutation(_, set', removed) => Replay(start, set', removed)
  }

  // ------------------------------------------------------------------------------
  // The log survives the handlers

  lemma {:induction false} RequestPluginsKeepLog(start: HeaderMap, cycle: CycleState, m: Message, plugins: seq<RequestPlugin>)
    requires LogExplains(start, m)
    ensures LogExplains(start, RunRequestPlugins(cycle, m, plugins).msg)
    decreases |plugins|
  {
    hide LogExplains, ApplyOps;
    if plugins != [] {
      var o := plugins[0].run(cycle, m);
      HeaderLogReplay(start, m, o.ops);
      if RequestError(m, o).None? {
        RequestPluginsKeepLog(start, o.cycle, ApplyOps(m, o.ops), plugins[1..]);
      }
    }
  }

  lemma {:induction false} ResponsePluginsKeepLog(start: HeaderMap, stage: Stage, final: bool, cycle: CycleState, r: Response, plugins: seq<ResponsePlugin>)
    requires LogExplains(start, r.msg)
    ensures LogExplains(start, RunResponsePlugins(stage, final, cycle, r, plugins).response.msg)
    decreases |plugins|
  {
    hide LogExplains, ApplyResponseOps;
    if plugins != [] {
      var call := CallPlugin(stage, final, cycle, r, plugins[0]);
      var o := call.outcome;
      ResponseLogReplay(start, r, o.ops);
      if CallError(call).None? {
        ResponsePluginsKeepLog(start, stage, final, o.cycle, ApplyResponseOps(r, o.ops), plugins[1..]);
      }
    }
  }

  lemma BodyDoesNotMatter(start: HeaderMap, m: Message, parsed: Parsed)
    requires LogExplains(start, m)
    ensures LogExplains(start, Unmarshalled(m, parsed))
  {
  }

  lemma BuiltHeadersReplay(start: HeaderMap, m: Message)
    requires LogExplains(start, m)
    ensures Applied(start, BuildHeadersResponse(m)) == m.headers
  {
    if m.mutatedHeaders == map[] && m.removedHeaders == {} {
      assert Replay(start, map[], {}) == start;
    }
  }

  // ------------------------------------------------------------------------------
  // Framing of one handled body

  /** `replies` are a headers reply that reproduces `headers` from `start`, then body
      replies that carry `body` in chunks within the limit, the last one final. */
  ghost predicate Framed(start: HeaderMap, headers: HeaderMap, h: HeadersReply, chunks: seq<Chunk>, body: bytes) {
    && Applied(start, h) == headers
    && ConcatChunks(chunks) == body
    && |chunks| == ChunkCount(|body|)
    && (forall i :: 0 <= i < |chunks| ==> |chunks[i].body| <= BODY_BYTE_LIMIT && (chunks[i].eos <==> i == |chunks| - 1))
  }

  ghost predicate LengthHeader(headers: HeaderMap, body: bytes) {
    CONTENT_LENGTH in headers && headers[CONTENT_LENGTH] == Itoa(|body|)
  }

  /** Every successful request: the upstream gets the message's headers, and a
      Content-Length that is the decimal length of the body that follows. */
  lemma RequestFraming(c: Config, ctx: Context, received: bytes, start: HeaderMap)
    requires LogExplains(start, ctx.request)
    ensures var h := HandleRequestBody(c, ctx, received);
            && LogExplains(start, h.ctx.request)
            && (h.result.Success? ==>
                  exists headers, body ::
                    && h.result.value == [RequestHeaders(headers)] + RequestBodyReplies(ChunkBody(body, true))
                    && Framed(start, h.ctx.request.headers, headers, ChunkBody(body, true), body)
                    && LengthHeader(Applied(start, headers), body)
                    && Some(body) == OutgoingBody(c, h.ctx.request, received))
  {
    hide RunRequestPlugins, ApplyOps, ChunkBody, Unmarshalled, Itoa, LogExplains;
    var h := HandleRequestBody(c, ctx, received);
    var parsed := c.parse(received);
    if !parsed.Malformed? {
      var m0 := Unmarshalled(ctx.request, parsed);
      BodyDoesNotMatter(start, ctx.request, parsed);
      RequestPluginsKeepLog(start, ctx.cycle, m0, c.preProcessors);
      var pre := RunRequestPlugins(ctx.cycle, m0, c.preProcessors);
      if pre.error.None? {
        var pick := c.picker(pre.cycle, pre.msg, c.profiles);
        HeaderLogReplay(start, pre.msg, pick.ops);
        var picked := ApplyOps(pre.msg, pick.ops);
        if PickError(pre.msg, pick).None? {
          RequestPluginsKeepLog(start, pick.cycle, picked, pick.choice.value.requestPlugins);
          var run := RunRequestPlugins(pick.cycle, picked, pick.choice.value.requestPlugins);
          var out := OutgoingBody(c, run.msg, received);
          if run.error.None? && out.Some? {
            SetLength(c, start, run.msg, received);
          }
        }
      }
    }
  }

  /** Setting Content-Length and cutting the body into chunks. */
  lemma SetLength(c: Config, start: HeaderMap, m: Message, received: bytes)
    requires LogExplains(start, m) && OutgoingBody(c, m, received).Some?
    ensures var body := OutgoingBody(c, m, received).value;
            var m' := ApplyOp(m, MessageOp.SetHeader(CONTENT_LENGTH, Itoa(|body|)));
            var headers := Mutation(true, m'.mutatedHeaders, m'.removedHeaders);
            && LogExplains(start, m')
            && Framed(start, m'.headers, headers, ChunkBody(body, true), body)
            && LengthHeader(Applied(start, headers), body)
            && OutgoingBody(c, m', received) == Some(body)
  {
    var body := OutgoingBody(c, m, received).value;
    LogStep(start, m, MessageOp.SetHeader(CONTENT_LENGTH, Itoa(|body|)));
    ChunkingIsFaithful(body, true);
    hide ChunkBody, Itoa;
  }

  lemma UnchangedLength(c: Config, start: HeaderMap, m: Message, body: bytes)
    requires LogExplains(start, m)
    ensures Framed(start, m.headers, Mutation(true, m.mutatedHeaders, m.removedHeaders), ChunkBody(body, true), body)
  {
    ChunkingIsFaithful(body, true);
    hide ChunkBody;
  }

  /** No body plugin runs on this body. */
  predicate Passthrough(c: Config, ctx: Context, received: bytes) {
    (|ctx.profile.responsePlugins| == 0 && |c.postProcessors| == 0) || c.parse(received).Malformed?
  }

  /** A buffered response: the client gets the message's headers, and when a plugin
      mutated the body, the Content-Length of the body that follows. */
  lemma ResponseFraming(c: Config, ctx: Context, received: bytes, start: HeaderMap)
    requires LogExplains(start, ctx.response.msg)
    ensures var h := HandleResponseBody(c, ctx, received);
            && LogExplains(start, h.ctx.response.msg)
            && (h.result.Success? ==>
                  exists headers, body ::
                    && h.result.value == [ResponseHeaders(headers)] + ResponseBodyReplies(ChunkBody(body, true))
                    && Framed(start, h.ctx.response.msg.headers, headers, ChunkBody(body, true), body)
                    && (!Passthrough(c, ctx, received) && h.ctx.response.msg.bodyMutated ==> LengthHeader(Applied(start, headers), body)))
  {
    hide RunResponsePlugins, ChunkBody, Unmarshalled, Itoa, LogExplains, BuildHeadersResponse;
    var h := HandleResponseBody(c, ctx, received);
    var parsed := c.parse(received);
    if Passthrough(c, ctx, received) {
      ChunkingIsFaithful(received, true);
      BuiltHeadersReplay(start, ctx.response.msg);
      assert Framed(start, ctx.response.msg.headers, BuildHeadersResponse(ctx.response.msg), ChunkBody(received, true), received);
    } else {
      var r := ctx.response.(msg := Unmarshalled(ctx.response.msg, parsed));
      BodyDoesNotMatter(start, ctx.response.msg, parsed);
      ResponsePluginsKeepLog(start, BodyStage, true, ctx.cycle, r, ctx.profile.responsePlugins);
      var run1 := RunResponsePlugins(BodyStage, true, ctx.cycle, r, ctx.profile.responsePlugins);
      if run1.error.None? {
        ResponsePluginsKeepLog(start, BodyStage, true, run1.cycle, run1.response, c.postProcessors);
        var run2 := RunResponsePlugins(BodyStage, true, run1.cycle, run1.response, c.postProcessors);
        var out := OutgoingBody(c, run2.response.msg, received);
        if run2.error.None? && out.Some? {
          if run2.response.msg.bodyMutated {
            SetLength(c, start, run2.response.msg, received);
          } else {
            UnchangedLength(c, start, run2.response.msg, received);
          }
        }
      }
    }
  }

  // ------------------------------------------------------------------------------
  // Every headers reply of a run

  predicate LogIsEmpty(m: Message) { m.mutatedHeaders == map[] && m.removedHeaders == {} }

  /** The headers a direction started with, as far as they have been received. */
  function RequestStart(msgs: seq<Incoming>): HeaderMap {
    if msgs == [] then map[]
    else
      var before := RequestStart(msgs[..|msgs| - 1]);
      var last := msgs[|msgs| - 1];
      if last.InRequestHeaders? then Capture(before, last.headers) else before
  }

  function ResponseStart(msgs: seq<Incoming>): HeaderMap {
    if msgs == [] then map[]
    else
      var before := ResponseStart(msgs[..|msgs| - 1]);
      var last := msgs[|msgs| - 1];
      if last.InResponseHeaders? then Capture(before, last.headers) else before
  }

  /** Headers come before the body they belong to, and response headers once. */
  ghost predicate HeadersBeforeBody(msgs: seq<Incoming>) {
    forall i, j :: 0 <= i < j < |msgs| ==>
      && (msgs[j].InRequestHeaders? ==> !msgs[i].InRequestBody?)
      && (msgs[j].InResponseHeaders? ==> !msgs[i].InResponseBody? && !msgs[i].InResponseHeaders?)
  }

  /** The log of either message explains its headers; a direction whose plugins have had
      no occasion to run has an empty log. */
  ghost predicate LogsExplain(msgs: seq<Incoming>, st: State) {
    && LogExplains(RequestStart(msgs), st.ctx.request)
    && LogExplains(ResponseStart(msgs), st.ctx.response.msg)
    && ((forall i :: 0 <= i < |msgs| ==> !msgs[i].InRequestBody?) ==> LogIsEmpty(st.ctx.request))
    && ((forall i :: 0 <= i < |msgs| ==> !msgs[i].InResponseBody? && !msgs[i].InResponseHeaders?) ==> LogIsEmpty(st.ctx.response.msg))
  }

  /** Each headers reply reproduces the headers its message has when the reply is built. */
  ghost predicate RepliesReplay(requestStart: HeaderMap, responseStart: HeaderMap, one: Step) {
    forall i :: 0 <= i < |one.sent| ==>
      && (one.sent[i].RequestHeaders? ==> Applied(requestStart, one.sent[i].h) == one.st.ctx.request.headers)
      && (one.sent[i].ResponseHeaders? ==> Applied(responseStart, one.sent[i].h) == one.st.ctx.response.msg.headers)
  }

  ghost predicate ReplaysAll(start: HeaderMap, headers: HeaderMap, replies: seq<Reply>) {
    forall i :: 0 <= i < |replies| ==>
      && !replies[i].RequestHeaders?
      && (replies[i].ResponseHeaders? ==> Applied(start, replies[i].h) == headers)
  }

  lemma CaptureKeepsLog(start: HeaderMap, m: Message, received: seq<HeaderValue>)
    requires LogExplains(start, m) && LogIsEmpty(m)
    ensures var m' := m.(headers := Capture(m.headers, received));
            LogExplains(Capture(start, received), m') && LogIsEmpty(m')
  {
    assert Replay(start, map[], {}) == start;
    assert Replay(Capture(start, received), map[], {}) == Capture(start, received);
  }

  lemma ResponseHeadersReplay(c: Config, ctx: Context, received: seq<HeaderValue>, eos: bool, start: HeaderMap)
    requires LogExplains(start, ctx.response.msg) && LogIsEmpty(ctx.response.msg)
    ensures var h := HandleResponseHeaders(c, ctx, received, eos); var start' := Capture(start, received);
            && LogExplains(start', h.ctx.response.msg)
            && (h.result.Success? ==> ReplaysAll(start', h.ctx.response.msg.headers, h.result.value))
  {
    CaptureKeepsLog(start, ctx.response.msg, received);
    var start' := Capture(start, received);
    var r := ctx.response.(msg := ctx.response.msg.(headers := Capture(ctx.response.msg.headers, received)));
    ResponsePluginsKeepLog(start', HeadersStage, true, ctx.cycle, r, c.responseHeadersPostProcessors);
    hide LogExplains, LogIsEmpty, Capture, RunResponsePlugins, BuildHeadersResponse;
    BuiltHeadersReplay(start', HandleResponseHeaders(c, ctx, received, eos).ctx.response.msg);
  }

  lemma ChunkHeadersReplay(c: Config, ctx: Context, body: bytes, eos: bool, start: HeaderMap)
    requires LogExplains(start, ctx.response.msg)
    ensures var h := HandleResponseChunk(c, ctx, body, eos);
            && LogExplains(start, h.ctx.response.msg)
            && (h.result.Success? ==> ReplaysAll(start, h.ctx.response.msg.headers, h.result.value))
  {
    var r := ctx.response.(currentChunk := body, chunkMutated := false);
    ResponsePluginsKeepLog(start, ChunkStage, eos, ctx.cycle, r, ctx.profile.chunkProcessors);
    hide LogExplains, RunResponsePlugins, BuildHeadersResponse;
    BuiltHeadersReplay(start, HandleResponseChunk(c, ctx, body, eos).ctx.response.msg);
  }

  lemma BodyHeadersReplay(c: Config, ctx: Context, body: bytes, start: HeaderMap)
    requires LogExplains(start, ctx.response.msg)
    ensures var h := HandleResponseBody(c, ctx, body);
            && LogExplains(start, h.ctx.response.msg)
            && (h.result.Success? ==> ReplaysAll(start, h.ctx.response.msg.headers, h.result.value))
  {
    ResponseFraming(c, ctx, body, start);
    hide HandleResponseBody;
  }

  /** A message that is received leaves the logs explaining, and its headers replies replay. */
  lemma StepReplays(c: Config, st: State, msg: Incoming, requestStart: HeaderMap, responseStart: HeaderMap)
    requires st.ended.None?
    requires LogExplains(requestStart, st.ctx.request) && LogExplains(responseStart, st.ctx.response.msg)
    requires msg.InRequestHeaders? ==> LogIsEmpty(st.ctx.request)
    requires msg.InResponseHeaders? ==> LogIsEmpty(st.ctx.response.msg)
    ensures var one := Next(c, st, msg);
            var requestStart' := if msg.InRequestHeaders? then Capture(requestStart, msg.headers) else requestStart;
            var responseStart' := if msg.InResponseHeaders? then Capture(responseStart, msg.headers) else responseStart;
            && LogExplains(requestStart', one.st.ctx.request) && LogExplains(responseStart', one.st.ctx.response.msg)
            && RepliesReplay(requestStart', responseStart', one)
            && (!msg.InRequestBody? && LogIsEmpty(st.ctx.request) ==> LogIsEmpty(one.st.ctx.request))
            && (!msg.InResponseBody? && !msg.InResponseHeaders? ==> one.st.ctx.response == st.ctx.response)
  {
    match msg
    case InRequestHeaders(headers, eos) =>
      RequestHeadersReplays(c, st, headers, eos, requestStart, responseStart);
      hide *;
    case InRequestBody(body, eos) =>
      RequestBodyReplays(c, st, body, eos, requestStart, responseStart);
      hide *;
    case InResponseHeaders(headers, eos) =>
      ResponseHeadersReplays(c, st, headers, eos, requestStart, responseStart);
      hide *;
    case InResponseBody(body, eos) =>
      ResponseBodyReplays(c, st, body, eos, requestStart, responseStart);
      hide *;
    case _ =>
      OthersReplay(c, st, msg, requestStart, responseStart);
      hide *;
  }

  lemma RequestHeadersReplays(c: Config, st: State, headers: seq<HeaderValue>, eos: bool, requestStart: HeaderMap, responseStart: HeaderMap)
    requires st.ended.None? && LogExplains(requestStart, st.ctx.request) && LogIsEmpty(st.ctx.request)
    ensures var one := Next(c, st, InRequestHeaders(headers, eos)); var start := Capture(requestStart, headers);
            && LogExplains(start, one.st.ctx.request) && LogIsEmpty(one.st.ctx.request) && one.st.ctx.response == st.ctx.response
            && RepliesReplay(start, responseStart, one)
  {
    var start, m := Capture(requestStart, headers), st.ctx.request.(headers := Capture(st.ctx.request.headers, headers));
    CaptureKeepsLog(requestStart, st.ctx.request, headers);
    assert Applied(start, NoMutation) == m.headers by { assert Replay(start, map[], {}) == start; }
    hide LogExplains, Capture, Applied;
  }

  lemma OthersReplay(c: Config, st: State, msg: Incoming, requestStart: HeaderMap, responseStart: HeaderMap)
    requires st.ended.None? && (msg.InRequestTrailers? || msg.InResponseTrailers? || msg.InUnknown?)
    ensures var one := Next(c, st, msg); one.st.ctx == st.ctx && RepliesReplay(requestStart, responseStart, one)
  {
  }

  lemma ResponseHeadersReplays(c: Config, st: State, headers: seq<HeaderValue>, eos: bool, requestStart: HeaderMap, responseStart: HeaderMap)
    requires st.ended.None? && LogExplains(responseStart, st.ctx.response.msg) && LogIsEmpty(st.ctx.response.msg)
    ensures var one := Next(c, st, InResponseHeaders(headers, eos));
            && one.st.ctx.request == st.ctx.request && LogExplains(Capture(responseStart, headers), one.st.ctx.response.msg)
            && RepliesReplay(requestStart, Capture(responseStart, headers), one)
  {
    ResponseHeadersReplay(c, st.ctx, headers, eos, responseStart);
    hide LogExplains, LogIsEmpty, HandleResponseHeaders, ErrorStatus, Capture, Applied;
    assert KeepsRequest(st.ctx, HandleResponseHeaders(c, st.ctx, headers, eos)) by { ResponseHandlersKeepRequest(c, st.ctx); }
  }

  lemma RequestBodyReplays(c: Config, st: State, body: bytes, eos: bool, requestStart: HeaderMap, responseStart: HeaderMap)
    requires st.ended.None?
    requires LogExplains(requestStart, st.ctx.request) && LogExplains(responseStart, st.ctx.response.msg)
    ensures var one := Next(c, st, InRequestBody(body, eos));
            && LogExplains(requestStart, one.st.ctx.request) && one.st.ctx.response == st.ctx.response
            && RepliesReplay(requestStart, responseStart, one)
  {
    hide LogExplains, HandleRequestBody, ErrorStatus;
    if !st.requestBodyComplete && eos {
      RequestFraming(c, st.ctx, st.requestBody + body, requestStart);
      RequestKeepsResponse(c, st.ctx, st.requestBody + body);
      hide Applied, LengthHeader, ChunkBody, OutgoingBody;
    }
  }

  lemma ResponseBodyReplays(c: Config, st: State, body: bytes, eos: bool, requestStart: HeaderMap, responseStart: HeaderMap)
    requires st.ended.None?
    requires LogExplains(requestStart, st.ctx.request) && LogExplains(responseStart, st.ctx.response.msg)
    ensures var one := Next(c, st, InResponseBody(body, eos));
            && one.st.ctx.request == st.ctx.request && LogExplains(responseStart, one.st.ctx.response.msg)
            && RepliesReplay(requestStart, responseStart, one)
  {
    hide LogExplains, HandleResponseBody, HandleResponseChunk, Conclude, CompleteResponse;
    var st1 := st.(responseStarted := true);
    var st2 := st1.(responseBody := st1.responseBody + body);
    var whole, part := HandleResponseBody(c, st.ctx, st2.responseBody), HandleResponseChunk(c, st.ctx, body, eos);
    assert KeepsRequest(st.ctx, whole) && KeepsRequest(st.ctx, part) by { ResponseHandlersKeepRequest(c, st.ctx); }
    BodyHeadersReplay(c, st.ctx, st2.responseBody, responseStart);
    ChunkHeadersReplay(c, st.ctx, body, eos, responseStart);
    ConcludeReplays(st2, whole, requestStart, responseStart);
    ConcludeReplays(st1, part, requestStart, responseStart);
    assert RepliesReplay(requestStart, responseStart, Step(st, [], [])) && RepliesReplay(requestStart, responseStart, Step(st2, [], []));
    hide RepliesReplay, ReplaysAll;
  }

  /** Sending a handler's replies, or answering its error. */
  lemma ConcludeReplays(st: State, h: Handled, requestStart: HeaderMap, responseStart: HeaderMap)
    requires KeepsRequest(st.ctx, h) && LogExplains(responseStart, h.ctx.response.msg)
    requires h.result.Success? ==> ReplaysAll(responseStart, h.ctx.response.msg.headers, h.result.value)
    ensures var one := Conclude(st, h);
            && one.st.ctx.request == st.ctx.request && LogExplains(responseStart, one.st.ctx.response.msg)
            && RepliesReplay(requestStart, responseStart, one)
    ensures var one := CompleteResponse(st, h);
            && one.st.ctx.request == st.ctx.request && LogExplains(responseStart, one.st.ctx.response.msg)
            && RepliesReplay(requestStart, responseStart, one)
  {
    hide LogExplains, Applied, ErrorStatus;
  }

  lemma RequestKeepsResponse(c: Config, ctx: Context, received: bytes)
    ensures HandleRequestBody(c, ctx, received).ctx.response == ctx.response
  {
    hide RunRequestPlugins, ApplyOps, ChunkBody, Unmarshalled, Itoa;
  }

  lemma {:induction false} LogsAlongRun(c: Config, msgs: seq<Incoming>)
    requires HeadersBeforeBody(msgs) && Run(c, Initial, msgs).st.ended.None?
    ensures LogsExplain(msgs, Run(c, Initial, msgs).st)
    decreases |msgs|
  {
    if msgs == [] {
      assert Replay(map[], map[], {}) == map[];
    } else {
      var before := msgs[..|msgs| - 1];
      Snoc(c, msgs);
      hide Next, Run, LogExplains, Capture;
      LogsAlongRun(c, before);
      StepReplays(c, Run(c, Initial, before).st, msgs[|msgs| - 1], RequestStart(before), ResponseStart(before));
    }
  }

  lemma Snoc(c: Config, msgs: seq<Incoming>)
    requires msgs != []
    ensures var st := Run(c, Initial, msgs[..|msgs| - 1]).st; var r := Run(c, Initial, msgs);
            r.st == Next(c, st, msgs[|msgs| - 1]).st && (st.ended.Some? ==> r.st.ended.Some?)
  {
    var before, last := msgs[..|msgs| - 1], msgs[|msgs| - 1];
    assert msgs == before + [last];
    RunAppend(c, Initial, before, [last]);
    var st := Run(c, Initial, before).st;
    assert st.ended.Some? ==> Next(c, st, last).st == st;
    hide Next;
    assert Run(c, Next(c, st, last).st, [last][1..]).st == Next(c, st, last).st;
  }

  /** Header replay, over whole runs: in every stream that sends headers before bodies,
      each headers reply, applied to the headers received so far, gives exactly the
      headers the message has when that reply is built. */
  lemma EveryHeadersReplyReplays(c: Config, msgs: seq<Incoming>, msg: Incoming)
    requires HeadersBeforeBody(msgs + [msg]) && Run(c, Initial, msgs).st.ended.None?
    ensures RepliesReplay(RequestStart(msgs + [msg]), ResponseStart(msgs + [msg]), Next(c, Run(c, Initial, msgs).st, msg))
  {
    hide Next, Run, LogExplains, Capture;
    var all := msgs + [msg];
    assert all[..|all| - 1] == msgs;
    assert all[|msgs|] == msg && forall i :: 0 <= i < |msgs| ==> all[i] == msgs[i];
    assert msg.InRequestHeaders? ==> forall i :: 0 <= i < |msgs| ==> !all[i].InRequestBody?;
    assert msg.InResponseHeaders? ==> forall i :: 0 <= i < |msgs| ==> !all[i].InResponseBody? && !all[i].InResponseHeaders?;
    LogsAlongRun(c, msgs);
    StepReplays(c, Run(c, Initial, msgs).st, msg, RequestStart(msgs), ResponseStart(msgs));
  }

  // ------------------------------------------------------------------------------
  // Framing, over whole runs

  lemma LogsAtEnd(c: Config, msgs: seq<Incoming>)
    requires HeadersBeforeBody(msgs) && Run(c, Initial, msgs).st.ended.None?
    ensures var st := Run(c, Initial, msgs).st;
            LogExplains(RequestStart(msgs), st.ctx.request) && LogExplains(ResponseStart(msgs), st.ctx.response.msg)
  {
    LogsAlongRun(c, msgs);
    hide Run, LogExplains, RequestStart, ResponseStart;
  }

  lemma RequestAnswer(c: Config, st: State, body: bytes)
    requires st.ended.None? && !st.requestBodyComplete && Next(c, st, InRequestBody(body, true)).st.ended.None?
    ensures var one := Next(c, st, InRequestBody(body, true)); var h := HandleRequestBody(c, st.ctx, st.requestBody + body);
            h.result.Success? && one.sent == h.result.value && one.st.ctx == h.ctx
  {
    hide HandleRequestBody, ErrorStatus;
  }

  lemma BufferedAnswer(c: Config, st: State, body: bytes)
    requires st.ended.None? && !st.responseBodyComplete && st.ctx.profile.needsResponseBuffering
    requires Next(c, st, InResponseBody(body, true)).st.ended.None?
    ensures var one := Next(c, st, InResponseBody(body, true)); var h := HandleResponseBody(c, st.ctx, st.responseBody + body);
            h.result.Success? && one.sent == h.result.value && one.st.ctx == h.ctx
  {
    hide HandleResponseBody, ErrorStatus;
  }

  /** Over whole runs: in every stream that sends headers before bodies, the message that
      completes the request is answered, unless with an error, by a headers reply whose
      Content-Length, once applied to the headers received, is the decimal length of the
      chunks that follow it. */
  lemma EveryRequestIsFramed(c: Config, msgs: seq<Incoming>, body: bytes)
    requires HeadersBeforeBody(msgs) && Run(c, Initial, msgs).st.ended.None?
    requires var st := Run(c, Initial, msgs).st; !st.requestBodyComplete && Next(c, st, InRequestBody(body, true)).st.ended.None?
    ensures var one := Next(c, Run(c, Initial, msgs).st, InRequestBody(body, true)); var start := RequestStart(msgs);
            exists headers, out ::
              && one.sent == [RequestHeaders(headers)] + RequestBodyReplies(ChunkBody(out, true))
              && Framed(start, one.st.ctx.request.headers, headers, ChunkBody(out, true), out)
              && LengthHeader(Applied(start, headers), out)
  {
    hide *;
    var st := Run(c, Initial, msgs).st;
    LogsAtEnd(c, msgs);
    RequestAnswer(c, st, body);
    RequestFraming(c, st.ctx, st.requestBody + body, RequestStart(msgs));
  }

  /** The same for the message that completes a buffered response, with a Content-Length
      whenever a plugin mutated the body. */
  lemma EveryBufferedResponseIsFramed(c: Config, msgs: seq<Incoming>, body: bytes)
    requires HeadersBeforeBody(msgs) && Run(c, Initial, msgs).st.ended.None?
    requires var st := Run(c, Initial, msgs).st;
             && !st.responseBodyComplete && st.ctx.profile.needsResponseBuffering
             && Next(c, st, InResponseBody(body, true)).st.ended.None?
    ensures var st := Run(c, Initial, msgs).st;
            var one := Next(c, st, InResponseBody(body, true)); var start := ResponseStart(msgs);
            exists headers, out ::
              && one.sent == [ResponseHeaders(headers)] + ResponseBodyReplies(ChunkBody(out, true))
              && Framed(start, one.st.ctx.response.msg.headers, headers, ChunkBody(out, true), out)
              && (!Passthrough(c, st.ctx, st.responseBody + body) && one.st.ctx.response.msg.bodyMutated ==>
                    LengthHeader(Applied(start, headers), out))
  {
    hide *;
    var st := Run(c, Initial, msgs).st;
    LogsAtEnd(c, msgs);
    BufferedAnswer(c, st, body);
    ResponseFraming(c, st.ctx, st.responseBody + body, ResponseStart(msgs));
  }
}
