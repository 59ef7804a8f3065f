/** What the client gets back: the order of the response replies of a whole stream, and how
    the bytes sent relate to the bytes received and to what the plugins did. */
module ResponseStream {
  import opened Wrappers
  import opened Envoy
  import opened Messages
  import opened Handlers
  import opened Stream
  import SplitInvariance

  // ------------------------------------------------------------------------------
  // Views of a run

  predicate IsResponseReply(r: Reply) { r.ResponseHeaders? || r.ResponseBody? }

  /** The header and body replies of the response direction. */
  function ResponseReplies(sent: seq<Reply>): seq<Reply> {
    if sent == [] then []
    else (if IsResponseReply(sent[0]) then [sent[0]] else []) + ResponseReplies(sent[1..])
  }

  lemma {:induction false} ResponseRepliesAppend(a: seq<Reply>, b: seq<Reply>)
    ensures ResponseReplies(a + b) == ResponseReplies(a) + ResponseReplies(b)
  {
    if a == [] {
      assert a + b == b;
    } else {
      assert (a + b)[1..] == a[1..] + b;
      ResponseRepliesAppend(a[1..], b);
    }
  }

  lemma {:induction false} AllResponseReplies(sent: seq<Reply>)
    requires forall i :: 0 <= i < |sent| ==> IsResponseReply(sent[i])
    ensures ResponseReplies(sent) == sent
  {
    if sent != [] {
      AllResponseReplies(sent[1..]);
    }
  }

  /** The response-body chunks received, up to the first EndOfStream. */
  function ReceivedChunks(msgs: seq<Incoming>): seq<Chunk> {
    if msgs == [] then []
    else if !msgs[0].InResponseBody? then ReceivedChunks(msgs[1..])
    else [Chunk(msgs[0].body, msgs[0].eos)] + (if msgs[0].eos then [] else ReceivedChunks(msgs[1..]))
  }

  ghost predicate EosExactlyLast(chunks: seq<Chunk>) {
    |chunks| > 0 && forall i :: 0 <= i < |chunks| ==> (chunks[i].eos <==> i == |chunks| - 1)
  }

  /** The messages that may follow the response headers: response chunks, re-delivered
      request chunks, trailers. */
  ghost predicate Tail(st: State, msgs: seq<Incoming>) {
    forall i :: 0 <= i < |msgs| ==>
      || msgs[i].InResponseBody? || msgs[i].InResponseTrailers? || msgs[i].InRequestTrailers?
      || (msgs[i].InRequestBody? && st.requestBodyComplete)
  }

  // ------------------------------------------------------------------------------
  // One chunk through the chunk processors

  /** The chunk that a list of calls turns `chunk` into, each SetChunk replacing it. */
  function FoldChunk(chunk: bytes, calls: seq<Call>): bytes
    decreases |calls|
  {
    if calls == [] then chunk else FoldChunk(ChunkAfter(chunk, calls[0].outcome.ops), calls[1..])
  }

  /** `calls` are one call of every processor, in order, each given the chunk its
      predecessors left; `sent` is the chunk the last one left, with the flag received. */
  ghost predicate Served(calls: seq<Call>, processors: seq<ResponsePlugin>, received: Chunk, sent: Chunk) {
    && |calls| == |processors|
    && (forall i :: 0 <= i < |calls| ==>
          && calls[i] == CallPlugin(ChunkStage, received.eos, calls[i].cycle, calls[i].seen, processors[i])
          && calls[i].outcome.error.None?
          && calls[i].seen.currentChunk == FoldChunk(received.body, calls[..i]))
    && sent == Chunk(FoldChunk(received.body, calls), received.eos)
  }

  lemma {:induction false} RunServesChunk(final: bool, cycle: CycleState, r: Response, plugins: seq<ResponsePlugin>)
    requires RunResponsePlugins(ChunkStage, final, cycle, r, plugins).error.None?
    ensures var run := RunResponsePlugins(ChunkStage, final, cycle, r, plugins);
            && Served(run.calls, plugins, Chunk(r.currentChunk, final), Chunk(run.response.currentChunk, final))
            && (run.response.chunkMutated || run.response.currentChunk == r.currentChunk || r.chunkMutated)
            && (r.chunkMutated ==> run.response.chunkMutated)
    decreases |plugins|
  {
    if plugins != [] {
      var call := CallPlugin(ChunkStage, final, cycle, r, plugins[0]);
      var r' := ApplyResponseOps(r, call.outcome.ops);
      ChunkStateAfter(r, call.outcome.ops);
      NoSetChunkKeepsChunk(r.currentChunk, call.outcome.ops);
      RunServesChunk(final, call.outcome.cycle, r', plugins[1..]);
      hide RunResponsePlugins, ApplyResponseOps, ChunkAfter, SetsChunk;
      var rest := RunResponsePlugins(ChunkStage, final, call.outcome.cycle, r', plugins[1..]);
      ServedCons(call, rest.calls, plugins, Chunk(r.currentChunk, final), Chunk(rest.response.currentChunk, final));
      hide Served, CallPlugin;
    }
  }

  lemma ServedCons(call: Call, calls: seq<Call>, processors: seq<ResponsePlugin>, received: Chunk, sent: Chunk)
    requires processors != [] && call == CallPlugin(ChunkStage, received.eos, call.cycle, call.seen, processors[0])
    requires call.outcome.error.None? && call.seen.currentChunk == received.body
    requires Served(calls, processors[1..], Chunk(ChunkAfter(received.body, call.outcome.ops), received.eos), sent)
    ensures Served([call] + calls, processors, received, sent)
  {
    hide ChunkAfter, CallPlugin;
    var all := [call] + calls;
    assert all[1..] == calls;
    forall i | 0 <= i < |all|
      ensures all[i].seen.currentChunk == FoldChunk(received.body, all[..i])
      ensures all[i] == CallPlugin(ChunkStage, received.eos, all[i].cycle, all[i].seen, processors[i]) && all[i].outcome.error.None?
    {
      if i > 0 {
        assert all[..i][1..] == calls[..i - 1] && all[i] == calls[i - 1] && processors[i] == processors[1..][i - 1];
      }
    }
  }

  lemma {:induction false} NoSetChunkKeepsChunk(chunk: bytes, ops: seq<ResponseOp>)
    ensures !SetsChunk(ops) ==> ChunkAfter(chunk, ops) == chunk
    decreases |ops|
  {
    if ops != [] && !SetsChunk(ops) {
      assert forall i :: 0 <= i < |ops[..|ops| - 1]| ==> ops[..|ops| - 1][i] == ops[i];
      NoSetChunkKeepsChunk(chunk, ops[..|ops| - 1]);
    }
  }

  /** The headers reply of a streamed response goes out once, before the first chunk. */
  function HeadersFirst(ctx: Context, after: Context): seq<Reply> {
    if ctx.responseHeadersSent then [] else [ResponseHeaders(BuildHeadersResponse(after.response.msg))]
  }

  lemma ChunkHandled(c: Config, ctx: Context, body: bytes, eos: bool)
    requires HandleResponseChunk(c, ctx, body, eos).result.Success?
    ensures var h := HandleResponseChunk(c, ctx, body, eos);
            exists calls, sent ::
              && h.ctx.calls == ctx.calls + calls
              && Served(calls, ctx.profile.chunkProcessors, Chunk(body, eos), sent)
              && h.result.value == HeadersFirst(ctx, h.ctx) + [ResponseBody(sent)]
              && h.ctx.responseHeadersSent
  {
    var h := HandleResponseChunk(c, ctx, body, eos);
    if ctx.profile.chunkProcessors == [] {
      assert h.ctx.calls == ctx.calls + [];
      assert Served([], ctx.profile.chunkProcessors, Chunk(body, eos), Chunk(body, eos));
    } else {
      var r := ctx.response.(currentChunk := body, chunkMutated := false);
      RunServesChunk(eos, ctx.cycle, r, ctx.profile.chunkProcessors);
      hide RunResponsePlugins, Served;
      var run := RunResponsePlugins(ChunkStage, eos, ctx.cycle, r, ctx.profile.chunkProcessors);
      assert Served(run.calls, ctx.profile.chunkProcessors, Chunk(body, eos), Chunk(run.response.currentChunk, eos));
    }
  }

  // ------------------------------------------------------------------------------
  // A streamed response

  /** Chunk by chunk, `calls` served what was received as what was sent. */
  ghost predicate StreamTrace(calls: seq<Call>, processors: seq<ResponsePlugin>, received: seq<Chunk>, sent: seq<Chunk>)
    decreases |received|
  {
    if received == [] then calls == [] && sent == []
    else
      && |processors| <= |calls| && 0 < |sent|
      && Served(calls[..|processors|], processors, received[0], sent[0])
      && StreamTrace(calls[|processors|..], processors, received[1..], sent[1..])
  }

  /** A streamed continuation of a stream: what it replies and which calls it makes. */
  ghost predicate Streamed(c: Config, st: State, msgs: seq<Incoming>, calls: seq<Call>, sent: seq<Chunk>, headers: seq<Reply>) {
    var r := Run(c, st, msgs);
    && r.st.ctx.calls == st.ctx.calls + calls
    && StreamTrace(calls, st.ctx.profile.chunkProcessors, ReceivedChunks(msgs), sent)
    && ResponseReplies(r.sent) == headers + ResponseBodyReplies(sent)
    && (if st.ctx.responseHeadersSent || sent == [] then headers == [] else |headers| == 1 && headers[0].ResponseHeaders?)
  }

  ghost predicate StreamingResponse(st: State) {
    st.ended.None? && !st.ctx.profile.needsResponseBuffering
  }

  lemma TailStep(c: Config, st: State, msgs: seq<Incoming>)
    requires Tail(st, msgs) && msgs != []
    ensures var one := Next(c, st, msgs[0]);
            && Tail(one.st, msgs[1..])
            && one.st.requestBodyComplete == st.requestBodyComplete && one.st.ctx.profile == st.ctx.profile
  {
    SplitInvariance.ProfileIsFixed(c, st, msgs[0]);
    hide Next;
    var one := Next(c, st, msgs[0]);
    assert forall i :: 0 <= i < |msgs[1..]| ==> msgs[1..][i] == msgs[i + 1];
  }

  /** After the final chunk nothing on the response side happens any more. */
  lemma {:induction false} CompletedTail(c: Config, st: State, msgs: seq<Incoming>)
    requires Tail(st, msgs) && st.responseBodyComplete && st.ended.None?
    ensures var r := Run(c, st, msgs); r.st == st && ResponseReplies(r.sent) == [] && r.events == []
    decreases |msgs|
  {
    if msgs != [] {
      var one := Next(c, st, msgs[0]);
      assert one.st == st && one.events == [];
      TailStep(c, st, msgs);
      CompletedTail(c, st, msgs[1..]);
      ResponseRepliesAppend(one.sent, Run(c, st, msgs[1..]).sent);
      assert ResponseReplies(one.sent) == [];
    }
  }

  /** The step that a received chunk is, when it does not end the stream. */
  lemma StreamedChunkSucceeds(c: Config, st: State, msg: Incoming)
    requires StreamingResponse(st) && !st.responseBodyComplete && msg.InResponseBody?
    requires Next(c, st, msg).st.ended.None?
    ensures var h := HandleResponseChunk(c, st.ctx, msg.body, msg.eos); var one := Next(c, st, msg);
            && h.result.Success? && one.st.ctx == h.ctx && one.sent == h.result.value
            && one.st.ctx.responseHeadersSent && one.st.responseBodyComplete == msg.eos
  {
    var h := HandleResponseChunk(c, st.ctx, msg.body, msg.eos);
    assert h.result.Success? ==> h.ctx.responseHeadersSent by {
      if h.result.Success? {
        ChunkHandled(c, st.ctx, msg.body, msg.eos);
      }
    }
    hide HandleResponseChunk;
  }

  /** A served chunk in front of a served rest. */
  lemma StreamedChunk(c: Config, st: State, msgs: seq<Incoming>, calls: seq<Call>, sent: seq<Chunk>)
    requires StreamingResponse(st) && !st.responseBodyComplete && Tail(st, msgs)
    requires msgs != [] && msgs[0].InResponseBody?
    requires var one := Next(c, st, msgs[0]); var rest := Run(c, one.st, msgs[1..]);
             && one.st.ended.None?
             && rest.st.ctx.calls == one.st.ctx.calls + calls
             && ResponseReplies(rest.sent) == ResponseBodyReplies(sent)
             && StreamTrace(calls, st.ctx.profile.chunkProcessors, ReceivedChunks(msgs)[1..], sent)
    ensures exists calls', sent', headers :: Streamed(c, st, msgs, calls', sent', headers)
  {
    var one := Next(c, st, msgs[0]);
    var rest := Run(c, one.st, msgs[1..]);
    var h := HandleResponseChunk(c, st.ctx, msgs[0].body, msgs[0].eos);
    StreamedChunkSucceeds(c, st, msgs[0]);
    ChunkHandled(c, st.ctx, msgs[0].body, msgs[0].eos);
    hide Next, HandleResponseChunk, Served;
    var calls0, sent0 :|
      && h.ctx.calls == st.ctx.calls + calls0
      && Served(calls0, st.ctx.profile.chunkProcessors, Chunk(msgs[0].body, msgs[0].eos), sent0)
      && h.result.value == HeadersFirst(st.ctx, h.ctx) + [ResponseBody(sent0)]
      && h.ctx.responseHeadersSent;
    assert ReceivedChunks(msgs) != [];
    StreamedJoin(c, st, msgs, one, rest, calls0, sent0, HeadersFirst(st.ctx, h.ctx), calls, sent);
  }

  lemma StreamedJoin(c: Config, st: State, msgs: seq<Incoming>, one: Step, rest: Step,
                     calls0: seq<Call>, sent0: Chunk, headers: seq<Reply>, calls: seq<Call>, sent: seq<Chunk>)
    requires Run(c, st, msgs) == Step(rest.st, one.sent + rest.sent, one.events + rest.events)
    requires if st.ctx.responseHeadersSent then headers == [] else |headers| == 1 && headers[0].ResponseHeaders?
    requires one.st.ctx.calls == st.ctx.calls + calls0
    requires one.sent == headers + [ResponseBody(sent0)]
    requires rest.st.ctx.calls == one.st.ctx.calls + calls
    requires ResponseReplies(rest.sent) == ResponseBodyReplies(sent)
    requires ReceivedChunks(msgs) != []
    requires Served(calls0, st.ctx.profile.chunkProcessors, ReceivedChunks(msgs)[0], sent0)
    requires StreamTrace(calls, st.ctx.profile.chunkProcessors, ReceivedChunks(msgs)[1..], sent)
    ensures Streamed(c, st, msgs, calls0 + calls, [sent0] + sent, headers)
  {
    hide Run, Served, StreamTrace, ResponseReplies, ReceivedChunks;
    AllResponseReplies(one.sent);
    ResponseRepliesAppend(one.sent, rest.sent);
    assert ResponseBodyReplies([sent0] + sent) == [ResponseBody(sent0)] + ResponseBodyReplies(sent);
    assert (st.ctx.calls + calls0) + calls == st.ctx.calls + (calls0 + calls);
    TraceCons(st.ctx.profile.chunkProcessors, calls0, sent0, ReceivedChunks(msgs), calls, sent);
  }

  lemma TraceCons(processors: seq<ResponsePlugin>, calls0: seq<Call>, sent0: Chunk, received: seq<Chunk>, calls: seq<Call>, sent: seq<Chunk>)
    requires received != []
    requires Served(calls0, processors, received[0], sent0)
    requires StreamTrace(calls, processors, received[1..], sent)
    ensures StreamTrace(calls0 + calls, processors, received, [sent0] + sent)
  {
    ServedLength(calls0, processors, received[0], sent0);
    hide Served;
    var all := calls0 + calls;
    assert all[..|calls0|] == calls0 && all[|calls0|..] == calls && ([sent0] + sent)[1..] == sent;
  }

  lemma ServedLength(calls: seq<Call>, processors: seq<ResponsePlugin>, received: Chunk, sent: Chunk)
    requires Served(calls, processors, received, sent)
    ensures |calls| == |processors|
  {
  }

  /** Some calls and chunks make this a streamed continuation. */
  ghost predicate IsStreamed(c: Config, st: State, msgs: seq<Incoming>) {
    exists calls, sent, headers :: Streamed(c, st, msgs, calls, sent, headers)
  }

  lemma NothingStreamed(c: Config, st: State)
    ensures IsStreamed(c, st, [])
  {
    assert st.ctx.calls == st.ctx.calls + [];
    assert Streamed(c, st, [], [], [], []);
  }

  /** A message that is no response chunk, in front of a streamed rest. */
  lemma StreamedOther(c: Config, st: State, msgs: seq<Incoming>)
    requires StreamingResponse(st) && Tail(st, msgs) && msgs != [] && !msgs[0].InResponseBody?
    requires IsStreamed(c, Next(c, st, msgs[0]).st, msgs[1..])
    ensures IsStreamed(c, st, msgs)
  {
    var one := Next(c, st, msgs[0]);
    assert one.st == st && ResponseReplies(one.sent) == [];
    hide Next, StreamTrace;
    ResponseRepliesAppend(one.sent, Run(c, st, msgs[1..]).sent);
    var calls, sent, headers :| Streamed(c, st, msgs[1..], calls, sent, headers);
    assert Streamed(c, st, msgs, calls, sent, headers);
  }

  /** The final chunk: what follows is ignored. */
  lemma StreamedFinal(c: Config, st: State, msgs: seq<Incoming>)
    requires StreamingResponse(st) && !st.responseBodyComplete && Tail(st, msgs)
    requires msgs != [] && msgs[0].InResponseBody? && msgs[0].eos && Next(c, st, msgs[0]).st.ended.None?
    ensures IsStreamed(c, st, msgs)
  {
    var one := Next(c, st, msgs[0]);
    StreamedChunkSucceeds(c, st, msgs[0]);
    TailStep(c, st, msgs);
    CompletedTail(c, one.st, msgs[1..]);
    hide Next, Run;
    assert one.st.ctx.calls == one.st.ctx.calls + [];
    StreamedChunk(c, st, msgs, [], []);
  }

  /** A chunk that is not final, in front of a streamed rest. */
  lemma StreamedMiddle(c: Config, st: State, msgs: seq<Incoming>)
    requires StreamingResponse(st) && !st.responseBodyComplete && Tail(st, msgs)
    requires msgs != [] && msgs[0].InResponseBody? && !msgs[0].eos && Next(c, st, msgs[0]).st.ended.None?
    requires IsStreamed(c, Next(c, st, msgs[0]).st, msgs[1..])
    ensures IsStreamed(c, st, msgs)
  {
    var one := Next(c, st, msgs[0]);
    StreamedChunkSucceeds(c, st, msgs[0]);
    TailStep(c, st, msgs);
    hide Next, Run, StreamTrace, Tail;
    var calls, sent, headers :| Streamed(c, one.st, msgs[1..], calls, sent, headers);
    StreamedChunk(c, st, msgs, calls, sent);
  }

  /** A response that is not buffered is streamed, whatever comes in between. */
  lemma {:induction false} StreamedTail(c: Config, st: State, msgs: seq<Incoming>)
    requires StreamingResponse(st) && !st.responseBodyComplete && Tail(st, msgs)
    requires Run(c, st, msgs).st.ended.None?
    ensures IsStreamed(c, st, msgs)
    decreases |msgs|
  {
    hide IsStreamed, Next;
    if msgs == [] {
      NothingStreamed(c, st);
    } else {
      var one := Next(c, st, msgs[0]);
      TailStep(c, st, msgs);
      StaysEnded(c, one.st, msgs[1..]);
      if msgs[0].InResponseBody? {
        StreamedChunkSucceeds(c, st, msgs[0]);
        hide Run, Tail;
        if msgs[0].eos {
          StreamedFinal(c, st, msgs);
        } else {
          StreamedTail(c, one.st, msgs[1..]);
          StreamedMiddle(c, st, msgs);
        }
      } else {
        OtherKeepsState(c, st, msgs);
        StreamedTail(c, one.st, msgs[1..]);
        StreamedOther(c, st, msgs);
      }
    }
  }

  lemma OtherKeepsState(c: Config, st: State, msgs: seq<Incoming>)
    requires st.ended.None? && Tail(st, msgs) && msgs != [] && !msgs[0].InResponseBody?
    ensures Next(c, st, msgs[0]).st == st
  {
  }

  lemma {:induction false} StaysEnded(c: Config, st: State, msgs: seq<Incoming>)
    ensures st.ended.Some? ==> Run(c, st, msgs).st.ended.Some?
  {
    if st.ended.Some? {
      EndedRun(c, st, msgs);
    }
  }

  // ------------------------------------------------------------------------------
  // A buffered response

  /** The response that a list of calls turns `r` into. */
  function FoldResponse(r: Response, calls: seq<Call>): Response
    decreases |calls|
  {
    if calls == [] then r else FoldResponse(ApplyResponseOps(r, calls[0].outcome.ops), calls[1..])
  }

  lemma {:induction false} FoldResponseAppend(r: Response, a: seq<Call>, b: seq<Call>)
    ensures FoldResponse(r, a + b) == FoldResponse(FoldResponse(r, a), b)
    decreases |a|
  {
    hide ApplyResponseOps;
    if a == [] {
      assert a + b == b;
    } else {
      assert (a + b)[1..] == a[1..] + b;
      FoldResponseAppend(ApplyResponseOps(r, a[0].outcome.ops), a[1..], b);
    }
  }

  /** `calls` are one call of every body plugin, in order, each given the response its
      predecessors left. */
  ghost predicate BodyPluginsRan(calls: seq<Call>, plugins: seq<ResponsePlugin>, r: Response) {
    && |calls| == |plugins|
    && forall i :: 0 <= i < |calls| ==>
         && calls[i] == CallPlugin(BodyStage, true, calls[i].cycle, calls[i].seen, plugins[i])
         && calls[i].outcome.error.None?
         && calls[i].seen == FoldResponse(r, calls[..i])
  }

  lemma {:induction false} RunIsBodyRun(cycle: CycleState, r: Response, plugins: seq<ResponsePlugin>)
    requires RunResponsePlugins(BodyStage, true, cycle, r, plugins).error.None?
    ensures var run := RunResponsePlugins(BodyStage, true, cycle, r, plugins);
            BodyPluginsRan(run.calls, plugins, r) && run.response == FoldResponse(r, run.calls)
    decreases |plugins|
  {
    if plugins != [] {
      var call := CallPlugin(BodyStage, true, cycle, r, plugins[0]);
      var r' := ApplyResponseOps(r, call.outcome.ops);
      RunIsBodyRun(call.outcome.cycle, r', plugins[1..]);
      hide RunResponsePlugins, ApplyResponseOps;
      var rest := RunResponsePlugins(BodyStage, true, call.outcome.cycle, r', plugins[1..]);
      BodyRunCons(call, rest.calls, plugins, r);
      hide BodyPluginsRan, CallPlugin, FoldResponse;
    }
  }

  lemma BodyRunCons(call: Call, calls: seq<Call>, plugins: seq<ResponsePlugin>, r: Response)
    requires plugins != [] && call == CallPlugin(BodyStage, true, call.cycle, r, plugins[0]) && call.outcome.error.None?
    requires BodyPluginsRan(calls, plugins[1..], ApplyResponseOps(r, call.outcome.ops))
    ensures BodyPluginsRan([call] + calls, plugins, r)
    ensures FoldResponse(r, [call] + calls) == FoldResponse(ApplyResponseOps(r, call.outcome.ops), calls)
  {
    assert call.seen == r;
    hide ApplyResponseOps, CallPlugin;
    var all := [call] + calls;
    assert all[1..] == calls;
    forall i | 0 <= i < |all|
      ensures all[i].seen == FoldResponse(r, all[..i])
      ensures all[i] == CallPlugin(BodyStage, true, all[i].cycle, all[i].seen, plugins[i]) && all[i].outcome.error.None?
    {
      if i > 0 {
        assert all[..i][1..] == calls[..i - 1] && all[i] == calls[i - 1] && plugins[i] == plugins[1..][i - 1];
      }
    }
  }

  lemma BodyRunAppend(a: seq<Call>, pa: seq<ResponsePlugin>, b: seq<Call>, pb: seq<ResponsePlugin>, r: Response)
    requires BodyPluginsRan(a, pa, r) && BodyPluginsRan(b, pb, FoldResponse(r, a))
    ensures BodyPluginsRan(a + b, pa + pb, r)
  {
    hide FoldResponse, CallPlugin;
    var all := a + b;
    forall i | 0 <= i < |all|
      ensures all[i].seen == FoldResponse(r, all[..i])
    {
      if i < |a| {
        assert all[..i] == a[..i];
      } else {
        assert all[..i] == a + b[..i - |a|];
        FoldResponseAppend(r, a, b[..i - |a|]);
      }
    }
  }

  /** What a buffered response sends for `body`: itself when there is nothing to run or it
      does not parse; else what the body plugins, run once each and in order, make of it. */
  ghost predicate BufferedTrace(c: Config, ctx: Context, body: bytes, calls: seq<Call>, out: bytes) {
    var plugins := ctx.profile.responsePlugins + c.postProcessors;
    var parsed := c.parse(body);
    if plugins == [] || parsed.Malformed? then calls == [] && out == body
    else
      var r := ParsedResponse(c, ctx, body);
      var final := FoldResponse(r, calls).msg;
      && BodyPluginsRan(calls, plugins, r)
      && Some(out) == (if final.bodyMutated then c.marshal(GoBody(final)) else Some(body))
  }

  /** A buffered response that parses, as its two plugin runs. */
  lemma BodyResult(c: Config, ctx: Context, body: bytes, run1: ResponseRun, run2: ResponseRun)
    requires HandleResponseBody(c, ctx, body).result.Success?
    requires ctx.profile.responsePlugins + c.postProcessors != [] && !c.parse(body).Malformed?
    requires run1 == RunResponsePlugins(BodyStage, true, ctx.cycle, ParsedResponse(c, ctx, body), ctx.profile.responsePlugins)
    requires run2 == RunResponsePlugins(BodyStage, true, run1.cycle, run1.response, c.postProcessors)
    ensures var h := HandleResponseBody(c, ctx, body); var out := OutgoingBody(c, run2.response.msg, body);
            && run1.error.None? && run2.error.None? && out.Some?
            && h.ctx.calls == ctx.calls + (run1.calls + run2.calls)
            && exists headers :: h.result.value == [ResponseHeaders(headers)] + ResponseBodyReplies(ChunkBody(out.value, true))
  {
    hide RunResponsePlugins, ChunkBody, Unmarshalled, ApplyOp, Itoa, OutgoingBody;
    var h := HandleResponseBody(c, ctx, body);
    assert (ctx.calls + run1.calls) + run2.calls == ctx.calls + (run1.calls + run2.calls);
  }

  function ParsedResponse(c: Config, ctx: Context, body: bytes): Response {
    ctx.response.(msg := Unmarshalled(ctx.response.msg, c.parse(body)))
  }

  lemma BodyHandled(c: Config, ctx: Context, body: bytes)
    requires HandleResponseBody(c, ctx, body).result.Success?
    ensures var h := HandleResponseBody(c, ctx, body);
            exists calls, out, headers ::
              && h.ctx.calls == ctx.calls + calls
              && BufferedTrace(c, ctx, body, calls, out)
              && h.result.value == [ResponseHeaders(headers)] + ResponseBodyReplies(ChunkBody(out, true))
  {
    var plugins := ctx.profile.responsePlugins + c.postProcessors;
    if plugins == [] || c.parse(body).Malformed? {
      assert BufferedTrace(c, ctx, body, [], body);
      assert HandleResponseBody(c, ctx, body).ctx.calls == ctx.calls + [];
    } else {
      var r := ParsedResponse(c, ctx, body);
      var run1 := RunResponsePlugins(BodyStage, true, ctx.cycle, r, ctx.profile.responsePlugins);
      var run2 := RunResponsePlugins(BodyStage, true, run1.cycle, run1.response, c.postProcessors);
      hide HandleResponseBody, RunResponsePlugins, ChunkBody, BodyPluginsRan, FoldResponse;
      BodyResult(c, ctx, body, run1, run2);
      RunIsBodyRun(ctx.cycle, r, ctx.profile.responsePlugins);
      RunIsBodyRun(run1.cycle, run1.response, c.postProcessors);
      BodyRunAppend(run1.calls, ctx.profile.responsePlugins, run2.calls, c.postProcessors, r);
      FoldResponseAppend(r, run1.calls, run2.calls);
      assert BufferedTrace(c, ctx, body, run1.calls + run2.calls, OutgoingBody(c, run2.response.msg, body).value);
    }
  }

  ghost predicate BufferingResponse(st: State) {
    st.ended.None? && st.ctx.profile.needsResponseBuffering
  }

  /** One message of a buffered continuation. */
  lemma BufferedStep(c: Config, st: State, msgs: seq<Incoming>)
    requires BufferingResponse(st) && !st.responseBodyComplete && Tail(st, msgs) && msgs != []
    ensures var one := Next(c, st, msgs[0]); var msg := msgs[0];
            if !msg.InResponseBody? then
              one.st == st && ResponseReplies(one.sent) == []
            else if !msg.eos then
              one.st == st.(responseBody := st.responseBody + msg.body, responseStarted := true) && one.sent == []
            else
              var h := HandleResponseBody(c, st.ctx, st.responseBody + msg.body);
              && one.st.ctx == h.ctx && one.st.responseBodyComplete
              && (one.st.ended.None? ==> h.result.Success? && one.sent == h.result.value)
  {
    hide HandleResponseBody, ErrorStatus;
  }

  /** The continuation is one call of HandleResponseBody, on all the bytes up to EndOfStream. */
  ghost predicate IsOneCall(c: Config, st: State, chunks: seq<Chunk>, r: Step) {
    var h := HandleResponseBody(c, st.ctx, st.responseBody + ConcatChunks(chunks));
    h.result.Success? && r.st.ctx == h.ctx && ResponseReplies(r.sent) == h.result.value
  }

  lemma OneCallAppends(c: Config, st: State, st': State, chunk: Chunk, chunks: seq<Chunk>, r: Step)
    requires st'.ctx == st.ctx && st'.responseBody == st.responseBody + chunk.body
    requires IsOneCall(c, st', chunks, r)
    ensures IsOneCall(c, st, [chunk] + chunks, r)
  {
    hide HandleResponseBody, ResponseReplies;
    assert ([chunk] + chunks)[1..] == chunks;
    assert (st.responseBody + chunk.body) + ConcatChunks(chunks) == st.responseBody + ConcatChunks([chunk] + chunks);
  }

  /** A buffered continuation that completes is one call of HandleResponseBody. */
  lemma {:induction false} BufferedTail(c: Config, st: State, msgs: seq<Incoming>)
    requires BufferingResponse(st) && !st.responseBodyComplete && Tail(st, msgs)
    requires Run(c, st, msgs).st.ended.None? && Run(c, st, msgs).st.responseBodyComplete
    ensures IsOneCall(c, st, ReceivedChunks(msgs), Run(c, st, msgs))
    decreases |msgs|
  {
    hide IsOneCall, HandleResponseBody, Next;
    if msgs != [] && msgs[0].InResponseBody? && msgs[0].eos {
      BufferedEnd(c, st, msgs);
    } else if msgs != [] {
      var one, received := Next(c, st, msgs[0]), ReceivedChunks(msgs);
      var rest := Run(c, one.st, msgs[1..]);
      var r := Step(rest.st, one.sent + rest.sent, one.events + rest.events);
      assert Run(c, st, msgs) == r;
      assert received == if msgs[0].InResponseBody? then [Chunk(msgs[0].body, false)] + ReceivedChunks(msgs[1..]) else ReceivedChunks(msgs[1..]);
      BufferedStep(c, st, msgs);
      TailStep(c, st, msgs);
      BufferedTail(c, one.st, msgs[1..]);
      ResponseRepliesAppend(one.sent, rest.sent);
      assert ResponseReplies([]) == [];
      hide Run, Tail, ReceivedChunks, ResponseReplies;
      SameReplies(c, one.st, ReceivedChunks(msgs[1..]), rest, r);
      if msgs[0].InResponseBody? {
        OneCallAppends(c, st, one.st, Chunk(msgs[0].body, false), ReceivedChunks(msgs[1..]), r);
      }
    }
  }

  lemma SameReplies(c: Config, st: State, chunks: seq<Chunk>, r: Step, r': Step)
    requires IsOneCall(c, st, chunks, r) && r'.st == r.st && ResponseReplies(r'.sent) == ResponseReplies(r.sent)
    ensures IsOneCall(c, st, chunks, r')
  {
  }

  lemma BufferedEnd(c: Config, st: State, msgs: seq<Incoming>)
    requires BufferingResponse(st) && !st.responseBodyComplete && Tail(st, msgs)
    requires Run(c, st, msgs).st.ended.None? && msgs != [] && msgs[0].InResponseBody? && msgs[0].eos
    ensures IsOneCall(c, st, ReceivedChunks(msgs), Run(c, st, msgs))
  {
    hide HandleResponseBody, Next;
    var one := Next(c, st, msgs[0]);
    BufferedStep(c, st, msgs);
    TailStep(c, st, msgs);
    StaysEnded(c, one.st, msgs[1..]);
    CompletedTail(c, one.st, msgs[1..]);
    ResponseRepliesAppend(one.sent, Run(c, one.st, msgs[1..]).sent);
    hide Tail, ResponseReplies, Run;
    var received := ReceivedChunks(msgs);
    assert received[1..] == [] && ConcatChunks(received[1..]) == [] && msgs[0].body + [] == msgs[0].body;
    OnlyResponseReplies(c, st.ctx, st.responseBody + msgs[0].body);
    assert ResponseReplies(one.sent) == one.sent;
  }

  lemma OnlyResponseReplies(c: Config, ctx: Context, body: bytes)
    ensures var h := HandleResponseBody(c, ctx, body); h.result.Success? ==> ResponseReplies(h.result.value) == h.result.value
  {
    var h := HandleResponseBody(c, ctx, body);
    if h.result.Success? {
      BodyHandled(c, ctx, body);
      AllResponseReplies(h.result.value);
    }
  }

  // ------------------------------------------------------------------------------
  // The whole response

  /** What was sent for what was received, through the given plugin calls. */
  ghost predicate Delivered(c: Config, ctx: Context, received: seq<Chunk>, calls: seq<Call>, sent: seq<Chunk>) {
    if ctx.profile.needsResponseBuffering
    then BufferedTrace(c, ctx, ConcatChunks(received), calls, ConcatChunks(sent))
    else StreamTrace(calls, ctx.profile.chunkProcessors, received, sent)
  }

  /** One headers reply, then the delivered chunks, of which exactly the last ends the
      stream; `allCalls` are the plugin calls noted before and those of the delivery. */
  ghost predicate WellDelivered(c: Config, ctx: Context, received: seq<Chunk>, allCalls: seq<Call>, replies: seq<Reply>) {
    exists h, calls, sent ::
      && replies == [ResponseHeaders(h)] + ResponseBodyReplies(sent)
      && EosExactlyLast(sent)
      && allCalls == ctx.calls + calls
      && Delivered(c, ctx, received, calls, sent)
  }

  ghost predicate AwaitingResponse(st: State) {
    st.ended.None? && !st.responseBodyComplete && st.responseBody == [] && !st.ctx.responseHeadersSent
  }

  lemma {:induction false} CompletionMeansEos(c: Config, st: State, msgs: seq<Incoming>)
    requires st.ended.None? && !st.responseBodyComplete && Tail(st, msgs)
    requires Run(c, st, msgs).st.responseBodyComplete
    ensures EosExactlyLast(ReceivedChunks(msgs))
    decreases |msgs|
  {
    hide HandleResponseBody, HandleResponseChunk;
    if msgs != [] {
      var one := Next(c, st, msgs[0]);
      TailStep(c, st, msgs);
      if one.st.ended.Some? {
        EndedRun(c, one.st, msgs[1..]);
      } else if !(msgs[0].InResponseBody? && msgs[0].eos) {
        CompletionMeansEos(c, one.st, msgs[1..]);
      }
    }
  }

  lemma {:induction false} StreamTraceFlags(calls: seq<Call>, processors: seq<ResponsePlugin>, received: seq<Chunk>, sent: seq<Chunk>)
    requires StreamTrace(calls, processors, received, sent)
    ensures |sent| == |received| && forall i :: 0 <= i < |sent| ==> sent[i].eos == received[i].eos
    decreases |received|
  {
    if received != [] {
      StreamTraceFlags(calls[|processors|..], processors, received[1..], sent[1..]);
      assert forall i :: 1 <= i < |sent| ==> sent[i] == sent[1..][i - 1] && received[i] == received[1..][i - 1];
    }
  }

  lemma DeferredHeaders(c: Config, st: State, headers: seq<HeaderValue>)
    requires AwaitingResponse(st)
    ensures var h := HandleResponseHeaders(c, st.ctx, headers, false); var one := Next(c, st, InResponseHeaders(headers, false));
            && one.st.ctx == h.ctx && one.events == []
            && h.ctx.profile == st.ctx.profile
            && one.st.requestBodyComplete == st.requestBodyComplete
            && (one.st.ended.None? ==> one.sent == [] && AwaitingResponse(one.st))
  {
    hide RunResponsePlugins, ErrorStatus, Capture;
  }

  /** Response order and fidelity. When a response whose headers were deferred reaches its
      end without an error, the client has got one headers reply, then body chunks of which
      exactly the last ends the stream, and these chunks are what the plugin calls make of
      the chunks received. */
  lemma ResponseOrderAndFidelity(c: Config, st: State, headers: seq<HeaderValue>, tail: seq<Incoming>)
    requires AwaitingResponse(st) && Tail(st, tail)
    requires var r := Run(c, st, [InResponseHeaders(headers, false)] + tail);
             r.st.ended.None? && r.st.responseBodyComplete
    ensures var r := Run(c, st, [InResponseHeaders(headers, false)] + tail);
            var ctx := HandleResponseHeaders(c, st.ctx, headers, false).ctx;
            WellDelivered(c, ctx, ReceivedChunks(tail), r.st.ctx.calls, ResponseReplies(r.sent))
  {
    var msgs := [InResponseHeaders(headers, false)] + tail;
    assert msgs[1..] == tail;
    var one := Next(c, st, msgs[0]);
    DeferredHeaders(c, st, headers);
    hide Next, HandleResponseHeaders;
    assert Run(c, st, msgs).st == Run(c, one.st, tail).st && Run(c, st, msgs).sent == one.sent + Run(c, one.st, tail).sent;
    StaysEnded(c, one.st, tail);
    assert one.sent + Run(c, one.st, tail).sent == Run(c, one.st, tail).sent;
    AfterHeaders(c, one.st, tail);
  }

  lemma AfterHeaders(c: Config, st: State, tail: seq<Incoming>)
    requires AwaitingResponse(st) && Tail(st, tail)
    requires var r := Run(c, st, tail); r.st.ended.None? && r.st.responseBodyComplete
    ensures var r := Run(c, st, tail); WellDelivered(c, st.ctx, ReceivedChunks(tail), r.st.ctx.calls, ResponseReplies(r.sent))
  {
    hide Next, HandleResponseBody;
    CompletionMeansEos(c, st, tail);
    if st.ctx.profile.needsResponseBuffering {
      BufferedTail(c, st, tail);
      hide Run, WellDelivered, ConcatChunks;
      var received := ReceivedChunks(tail);
      assert st.responseBody + ConcatChunks(received) == ConcatChunks(received);
      BufferedDelivery(c, st.ctx, received);
    } else {
      StreamedTail(c, st, tail);
      hide WellDelivered;
      var calls, sent, headers: seq<Reply> :| Streamed(c, st, tail, calls, sent, headers);
      StreamedDelivery(c, st, tail, calls, sent, headers);
    }
  }

  lemma BufferedDelivery(c: Config, ctx: Context, received: seq<Chunk>)
    requires ctx.profile.needsResponseBuffering
    requires HandleResponseBody(c, ctx, ConcatChunks(received)).result.Success?
    ensures var h := HandleResponseBody(c, ctx, ConcatChunks(received));
            WellDelivered(c, ctx, received, h.ctx.calls, h.result.value)
  {
    var body := ConcatChunks(received);
    var done := HandleResponseBody(c, ctx, body);
    BodyHandled(c, ctx, body);
    hide HandleResponseBody, BufferedTrace;
    var calls, out, h :|
      && done.ctx.calls == ctx.calls + calls
      && BufferedTrace(c, ctx, body, calls, out)
      && done.result.value == [ResponseHeaders(h)] + ResponseBodyReplies(ChunkBody(out, true));
    ChunkingIsFaithful(out, true);
    hide ChunkBody, ConcatChunks;
    var sent := ChunkBody(out, true);
    assert EosExactlyLast(sent) && Delivered(c, ctx, received, calls, sent);
  }

  lemma StreamedDelivery(c: Config, st: State, tail: seq<Incoming>, calls: seq<Call>, sent: seq<Chunk>, headers: seq<Reply>)
    requires StreamingResponse(st) && !st.ctx.responseHeadersSent
    requires Streamed(c, st, tail, calls, sent, headers) && EosExactlyLast(ReceivedChunks(tail))
    ensures var r := Run(c, st, tail); WellDelivered(c, st.ctx, ReceivedChunks(tail), r.st.ctx.calls, ResponseReplies(r.sent))
  {
    StreamTraceFlags(calls, st.ctx.profile.chunkProcessors, ReceivedChunks(tail), sent);
    hide Run, StreamTrace, ReceivedChunks, ResponseReplies;
    assert headers == [ResponseHeaders(headers[0].h)];
    assert EosExactlyLast(sent) && Delivered(c, st.ctx, ReceivedChunks(tail), calls, sent);
  }

  // ------------------------------------------------------------------------------
  // Plugins that do not mutate

  ghost predicate ChangesBody(op: ResponseOp) {
    op.OnMessage? && (op.op.SetBody? || op.op.SetBodyField? || op.op.RemoveBodyField?)
  }

  /** No call sets a chunk or touches the body. */
  ghost predicate Harmless(calls: seq<Call>) {
    forall i :: 0 <= i < |calls| ==>
      !SetsChunk(calls[i].outcome.ops) && forall j :: 0 <= j < |calls[i].outcome.ops| ==> !ChangesBody(calls[i].outcome.ops[j])
  }

  lemma {:induction false} HarmlessOps(r: Response, ops: seq<ResponseOp>)
    requires forall j :: 0 <= j < |ops| ==> !ChangesBody(ops[j])
    ensures ApplyResponseOps(r, ops).msg.bodyMutated == r.msg.bodyMutated
    decreases |ops|
  {
    if ops != [] {
      HarmlessOps(ApplyResponseOp(r, ops[0]), ops[1..]);
    }
  }

  lemma {:induction false} HarmlessFold(r: Response, chunk: bytes, calls: seq<Call>)
    requires Harmless(calls)
    ensures FoldResponse(r, calls).msg.bodyMutated == r.msg.bodyMutated
    ensures FoldChunk(chunk, calls) == chunk
    decreases |calls|
  {
    if calls != [] {
      HarmlessOps(r, calls[0].outcome.ops);
      NoSetChunkKeepsChunk(chunk, calls[0].outcome.ops);
      hide ApplyResponseOps, ChunkAfter;
      HarmlessFold(ApplyResponseOps(r, calls[0].outcome.ops), chunk, calls[1..]);
    }
  }

  lemma {:induction false} HarmlessStream(calls: seq<Call>, processors: seq<ResponsePlugin>, received: seq<Chunk>, sent: seq<Chunk>)
    requires StreamTrace(calls, processors, received, sent) && Harmless(calls)
    ensures sent == received
    decreases |received|
  {
    if received != [] {
      var n := |processors|;
      HarmlessFold(NewResponse, received[0].body, calls[..n]);
      HarmlessStream(calls[n..], processors, received[1..], sent[1..]);
      assert sent == [sent[0]] + sent[1..] && received == [received[0]] + received[1..];
    }
  }

  /** Byte fidelity: plugins that do not mutate leave the body as received, and a streamed
      body even chunk by chunk. */
  lemma UnmutatedBodyIsKept(c: Config, ctx: Context, received: seq<Chunk>, calls: seq<Call>, sent: seq<Chunk>)
    requires Delivered(c, ctx, received, calls, sent)
    requires Harmless(calls) && !ctx.response.msg.bodyMutated
    ensures ConcatChunks(sent) == ConcatChunks(received)
    ensures !ctx.profile.needsResponseBuffering ==> sent == received
  {
    if ctx.profile.needsResponseBuffering {
      HarmlessFold(ParsedResponse(c, ctx, ConcatChunks(received)), [], calls);
    } else {
      HarmlessStream(calls, ctx.profile.chunkProcessors, received, sent);
    }
  }
}
