/** How a body is cut into chunks does not matter. Any sequence of received messages runs
    like its canonical form, where a body arrives as one final chunk. */
module SplitInvariance {
  import opened Wrappers
  import opened Envoy
  import opened Messages
  import opened Handlers
  import opened Stream

  // ------------------------------------------------------------------------------
  // Request bodies

  /** Merge all request-body chunks up to the first EndOfStream into that chunk, and drop
      those delivered after it. `pending` is what has been received so far. */
  function CanonicalRequest(msgs: seq<Incoming>, pending: bytes, complete: bool): seq<Incoming>
    decreases |msgs|
  {
    if msgs == [] then []
    else if !msgs[0].InRequestBody? then [msgs[0]] + CanonicalRequest(msgs[1..], pending, complete)
    else if complete then CanonicalRequest(msgs[1..], pending, complete)
    else if !msgs[0].eos then CanonicalRequest(msgs[1..], pending + msgs[0].body, complete)
    else [InRequestBody(pending + msgs[0].body, true)] + CanonicalRequest(msgs[1..], pending + msgs[0].body, true)
  }

  /** The state without the bytes of a request body still being accumulated. */
  function ForgetRequest(st: State): State {
    if st.requestBodyComplete then st else st.(requestBody := [])
  }

  lemma OtherMessagesIgnoreRequestBuffer(c: Config, st: State, msg: Incoming)
    requires !msg.InRequestBody?
    ensures var a := Next(c, st, msg);
            && Next(c, ForgetRequest(st), msg) == a.(st := ForgetRequest(a.st))
            && a.st.requestBody == st.requestBody && a.st.requestBodyComplete == st.requestBodyComplete
  {
    hide HandleRequestHeaders, HandleResponseHeaders, HandleResponseBody, HandleResponseChunk, ErrorStatus;
    match msg
    case InRequestHeaders(headers, eos) => ForgetConclude(st, HandleRequestHeaders(st.ctx, headers, eos)); hide Conclude;
    case InResponseHeaders(headers, eos) => ForgetConclude(st, HandleResponseHeaders(c, st.ctx, headers, eos)); hide Conclude;
    case InResponseBody(body, eos) => ForgetOnResponseBody(c, st, body, eos); hide OnResponseBody;
    case _ =>
  }

  lemma ForgetConclude(st: State, h: Handled)
    ensures var a := Conclude(st, h);
            && Conclude(ForgetRequest(st), h) == a.(st := ForgetRequest(a.st))
            && a.st.requestBody == st.requestBody && a.st.requestBodyComplete == st.requestBodyComplete
  {
    hide ErrorStatus;
  }

  lemma ForgetOnResponseBody(c: Config, st: State, body: bytes, eos: bool)
    ensures var a := OnResponseBody(c, st, body, eos);
            && OnResponseBody(c, ForgetRequest(st), body, eos) == a.(st := ForgetRequest(a.st))
            && a.st.requestBody == st.requestBody && a.st.requestBodyComplete == st.requestBodyComplete
  {
    hide HandleResponseBody, HandleResponseChunk, Conclude;
    var st1 := st.(responseStarted := true);
    var st2 := st1.(responseBody := st1.responseBody + body);
    var whole, part := HandleResponseBody(c, st.ctx, st2.responseBody), HandleResponseChunk(c, st.ctx, body, eos);
    ForgetConclude(st2.(responseBodyComplete := true), if IsPanic(whole) then whole else whole.(events := whole.events + [ResponseEvent]));
    ForgetConclude(st1.(responseBodyComplete := true), if IsPanic(part) then part else part.(events := part.events + [ResponseEvent]));
    ForgetConclude(st1, part);
  }

  /** Split invariance of the request. Whatever the interleaving with other messages: the
      replies, the events and the resulting state depend on the request body only through
      its bytes up to the first EndOfStream. */
  lemma {:induction false} RequestSplitInvariance(c: Config, st: State, msgs: seq<Incoming>)
    ensures var r := Run(c, st, msgs);
            Run(c, ForgetRequest(st), CanonicalRequest(msgs, st.requestBody, st.requestBodyComplete)) == r.(st := ForgetRequest(r.st))
    decreases |msgs|
  {
    hide Conclude, HandleRequestBody;
    if st.ended.Some? {
      EndedRun(c, st, msgs);
      EndedRun(c, ForgetRequest(st), CanonicalRequest(msgs, st.requestBody, st.requestBodyComplete));
    } else if msgs != [] {
      var one := Next(c, st, msgs[0]);
      var canon := CanonicalRequest(msgs, st.requestBody, st.requestBodyComplete);
      RequestSplitInvariance(c, one.st, msgs[1..]);
      if !msgs[0].InRequestBody? {
        hide Next;
        OtherMessagesIgnoreRequestBuffer(c, st, msgs[0]);
        assert canon[1..] == CanonicalRequest(msgs[1..], one.st.requestBody, one.st.requestBodyComplete);
      } else if !st.requestBodyComplete && msgs[0].eos {
        CompleteRequest(c, st, msgs[0].body);
        hide Next;
        assert canon[0] == InRequestBody(st.requestBody + msgs[0].body, true);
        assert canon[1..] == CanonicalRequest(msgs[1..], one.st.requestBody, true);
      }
    }
  }

  lemma CompleteRequest(c: Config, st: State, body: bytes)
    requires st.ended.None? && !st.requestBodyComplete
    ensures var one := Next(c, st, InRequestBody(body, true));
            && one.st.requestBodyComplete && one.st.requestBody == st.requestBody + body
            && Next(c, ForgetRequest(st), InRequestBody(st.requestBody + body, true)) == one
  {
    hide HandleRequestBody;
    assert [] + (st.requestBody + body) == st.requestBody + body;
  }

  // ------------------------------------------------------------------------------
  // Buffered response bodies

  function CanonicalResponse(msgs: seq<Incoming>, pending: bytes, complete: bool): seq<Incoming>
    decreases |msgs|
  {
    if msgs == [] then []
    else if !msgs[0].InResponseBody? then [msgs[0]] + CanonicalResponse(msgs[1..], pending, complete)
    else if complete then CanonicalResponse(msgs[1..], pending, complete)
    else if !msgs[0].eos then CanonicalResponse(msgs[1..], pending + msgs[0].body, complete)
    else [InResponseBody(pending + msgs[0].body, true)] + CanonicalResponse(msgs[1..], pending + msgs[0].body, true)
  }

  /** The state without what only records that a response body has begun. */
  function ForgetResponse(st: State): State {
    if st.responseBodyComplete then st else st.(responseBody := [], responseStarted := false)
  }

  /** The request is done, so no message changes the profile any more. */
  ghost predicate BufferedResponse(st: State) {
    st.requestBodyComplete && st.ctx.profile.needsResponseBuffering
  }

  lemma ProfileIsFixed(c: Config, st: State, msg: Incoming)
    requires st.requestBodyComplete || !msg.InRequestBody?
    ensures var a := Next(c, st, msg); a.st.ctx.profile == st.ctx.profile && a.st.requestBodyComplete == st.requestBodyComplete
  {
    hide HandleRequestBody, HandleResponseHeaders, HandleResponseBody, HandleResponseChunk, ErrorStatus;
    ResponseHandlersKeepRequest(c, st.ctx);
  }

  lemma OtherMessagesIgnoreResponseBuffer(c: Config, st: State, msg: Incoming)
    requires !msg.InResponseBody?
    ensures var a := Next(c, st, msg);
            && Next(c, ForgetResponse(st), msg) == a.(st := ForgetResponse(a.st))
            && a.st.responseBody == st.responseBody && a.st.responseBodyComplete == st.responseBodyComplete
  {
    hide HandleRequestHeaders, HandleResponseHeaders, HandleRequestBody;
  }

  lemma CompleteBufferedResponse(c: Config, st: State, body: bytes)
    requires st.ended.None? && !st.responseBodyComplete && BufferedResponse(st)
    ensures var one := Next(c, st, InResponseBody(body, true));
            && one.st.responseBodyComplete && one.st.responseBody == st.responseBody + body
            && Next(c, ForgetResponse(st), InResponseBody(st.responseBody + body, true)) == one
  {
    hide HandleResponseBody;
    assert [] + (st.responseBody + body) == st.responseBody + body;
  }

  /** Split invariance of a buffered response, for every interleaving once the request
      body is complete. */
  lemma {:induction false} ResponseSplitInvariance(c: Config, st: State, msgs: seq<Incoming>)
    requires BufferedResponse(st)
    ensures var r := Run(c, st, msgs);
            Run(c, ForgetResponse(st), CanonicalResponse(msgs, st.responseBody, st.responseBodyComplete)) == r.(st := ForgetResponse(r.st))
    decreases |msgs|
  {
    hide Conclude, HandleResponseBody, HandleResponseChunk;
    if st.ended.Some? {
      EndedRun(c, st, msgs);
      EndedRun(c, ForgetResponse(st), CanonicalResponse(msgs, st.responseBody, st.responseBodyComplete));
    } else if msgs != [] {
      var one := Next(c, st, msgs[0]);
      var canon := CanonicalResponse(msgs, st.responseBody, st.responseBodyComplete);
      ProfileIsFixed(c, st, msgs[0]);
      ResponseSplitInvariance(c, one.st, msgs[1..]);
      if !msgs[0].InResponseBody? {
        hide Next;
        OtherMessagesIgnoreResponseBuffer(c, st, msgs[0]);
        assert canon[1..] == CanonicalResponse(msgs[1..], one.st.responseBody, one.st.responseBodyComplete);
      } else if !st.responseBodyComplete && msgs[0].eos {
        CompleteBufferedResponse(c, st, msgs[0].body);
        hide Next;
        assert canon[0] == InResponseBody(st.responseBody + msgs[0].body, true);
        assert canon[1..] == CanonicalResponse(msgs[1..], one.st.responseBody, true);
      }
    }
  }

  // ------------------------------------------------------------------------------
  // What the canonical form of a chunked body is

  ghost predicate ChunksOf(chunks: seq<Incoming>, body: bytes) {
    && |chunks| > 0
    && (forall i :: 0 <= i < |chunks| ==> chunks[i].InRequestBody? && (chunks[i].eos <==> i == |chunks| - 1))
    && body == Received(chunks)
  }

  function Received(chunks: seq<Incoming>): bytes
    requires forall i :: 0 <= i < |chunks| ==> chunks[i].InRequestBody?
  {
    if chunks == [] then [] else chunks[0].body + Received(chunks[1..])
  }

  lemma {:induction false} CanonicalOfChunks(chunks: seq<Incoming>, body: bytes, pending: bytes)
    requires ChunksOf(chunks, body)
    ensures CanonicalRequest(chunks, pending, false) == [InRequestBody(pending + body, true)]
    decreases |chunks|
  {
    if |chunks| == 1 {
      assert Received(chunks[1..]) == [];
      assert pending + chunks[0].body == pending + body;
    } else {
      var rest := chunks[1..];
      assert forall i :: 0 <= i < |rest| ==> rest[i] == chunks[i + 1];
      CanonicalOfChunks(rest, Received(rest), pending + chunks[0].body);
      assert (pending + chunks[0].body) + Received(rest) == pending + (chunks[0].body + Received(rest));
    }
  }

  /** Two chunkings of the same request body leave the stream in the same state after the
      same replies and events, so everything that follows is the same too. */
  lemma AnyTwoChunkingsAgree(c: Config, st: State, chunks: seq<Incoming>, chunks': seq<Incoming>, body: bytes)
    requires ChunksOf(chunks, body) && ChunksOf(chunks', body)
    requires st.ended.None? && !st.requestBodyComplete
    ensures Run(c, st, chunks) == Run(c, st, chunks') == Next(c, st, InRequestBody(body, true))
  {
    OneChunkSuffices(c, st, chunks, body);
    OneChunkSuffices(c, st, chunks', body);
  }

  lemma OneChunkSuffices(c: Config, st: State, chunks: seq<Incoming>, body: bytes)
    requires ChunksOf(chunks, body)
    requires st.ended.None? && !st.requestBodyComplete
    ensures Run(c, st, chunks) == Next(c, st, InRequestBody(body, true))
  {
    var whole := InRequestBody(st.requestBody + body, true);
    RequestSplitInvariance(c, st, chunks);
    CanonicalOfChunks(chunks, body, st.requestBody);
    CompleteRequest(c, st, body);
    LastChunkCompletes(c, st, chunks);
    hide Next;
    var one := Next(c, ForgetRequest(st), whole);
    assert [whole][1..] == [];
    assert Run(c, one.st, []) == Step(one.st, [], []);
    assert one.sent + [] == one.sent && one.events + [] == one.events;
  }

  lemma {:induction false} LastChunkCompletes(c: Config, st: State, chunks: seq<Incoming>)
    requires |chunks| > 0 && chunks[|chunks| - 1].InRequestBody? && chunks[|chunks| - 1].eos
    requires forall i :: 0 <= i < |chunks| ==> chunks[i].InRequestBody?
    requires st.ended.None? || st.requestBodyComplete
    ensures Run(c, st, chunks).st.requestBodyComplete
    decreases |chunks|
  {
    hide HandleRequestBody;
    var one := Next(c, st, chunks[0]);
    if |chunks| > 1 {
      LastChunkCompletes(c, one.st, chunks[1..]);
    } else {
      assert Run(c, one.st, chunks[1..]).st == one.st;
    }
  }
}
