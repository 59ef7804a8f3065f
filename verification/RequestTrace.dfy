/** The request side, call by call: which plugins a request goes through, what each is given,
    and what becomes of the message, the cycle state and the stream. */
module RequestTrace {
  import opened Wrappers
  import opened Envoy
  import opened Messages
  import opened Handlers
  import opened Stream

  // ------------------------------------------------------------------------------
  // The calls of one loop

  /** One plugin call: what the plugin was given and what it did. */
  datatype RequestCall = RequestCall(cycle: CycleState, seen: Message, outcome: Outcome<MessageOp>)

  /** How a call ends: in a panic, if one of its API calls panics; else as the plugin says. */
  function ErrorOf(call: RequestCall): Option<Error> {
    if Panics(call.seen, call.outcome.ops) then Some(Panic) else call.outcome.error
  }

  /** The cycle state, the message and the error that calls leave: those of the last one. */
  function CycleAfter(calls: seq<RequestCall>, cycle: CycleState): CycleState {
    if calls == [] then cycle else calls[|calls| - 1].outcome.cycle
  }

  function MessageAfter(calls: seq<RequestCall>, m: Message): Message {
    if calls == [] then m else ApplyOps(calls[|calls| - 1].seen, calls[|calls| - 1].outcome.ops)
  }

  function ErrorAfter(calls: seq<RequestCall>): Option<Error> {
    if calls == [] then None else ErrorOf(calls[|calls| - 1])
  }

  /** The calls are those of the plugins in order, each given the cycle state and the message
      its predecessors left: of all of them, or of those up to the first that fails. */
  ghost predicate Ran(plugins: seq<RequestPlugin>, calls: seq<RequestCall>, cycle: CycleState, m: Message) {
    && |calls| <= |plugins|
    && (forall i :: 0 <= i < |calls| ==>
          && calls[i].cycle == CycleAfter(calls[..i], cycle)
          && calls[i].seen == MessageAfter(calls[..i], m)
          && calls[i].outcome == plugins[i].run(calls[i].cycle, calls[i].seen))
    && (forall i :: 0 <= i < |calls| - 1 ==> ErrorOf(calls[i]).None?)
    && (|calls| < |plugins| ==> ErrorAfter(calls).Some?)
  }

  /** The fold of the calls over the message: all they do to it, one after the other. */
  function Folded(m: Message, calls: seq<RequestCall>): Message
    decreases |calls|
  {
    if calls == [] then m else ApplyOps(Folded(m, calls[..|calls| - 1]), calls[|calls| - 1].outcome.ops)
  }

  /** Each call is given, and the loop leaves, the fold of the calls before. */
  lemma {:induction false} SeenIsFolded(plugins: seq<RequestPlugin>, calls: seq<RequestCall>, cycle: CycleState, m: Message, n: nat)
    requires Ran(plugins, calls, cycle, m) && n <= |calls|
    ensures MessageAfter(calls[..n], m) == Folded(m, calls[..n])
    ensures n < |calls| ==> calls[n].seen == Folded(m, calls[..n])
    decreases n
  {
    hide ApplyOps, ErrorOf;
    if n > 0 {
      SeenIsFolded(plugins, calls, cycle, m, n - 1);
      assert calls[..n][..n - 1] == calls[..n - 1];
    }
  }

  lemma AfterCons(first: RequestCall, rest: seq<RequestCall>)
    ensures CycleAfter([first] + rest, first.cycle) == CycleAfter(rest, first.outcome.cycle)
    ensures MessageAfter([first] + rest, first.seen) == MessageAfter(rest, ApplyOps(first.seen, first.outcome.ops))
    ensures rest != [] ==> ErrorAfter([first] + rest) == ErrorAfter(rest)
  {
    hide ApplyOps, ErrorOf;
  }

  lemma RanCons(plugins: seq<RequestPlugin>, first: RequestCall, rest: seq<RequestCall>)
    requires plugins != [] && first.outcome == plugins[0].run(first.cycle, first.seen)
    requires ErrorOf(first).None? && Ran(plugins[1..], rest, first.outcome.cycle, ApplyOps(first.seen, first.outcome.ops))
    ensures Ran(plugins, [first] + rest, first.cycle, first.seen)
    ensures ErrorAfter([first] + rest) == ErrorAfter(rest)
  {
    var calls := [first] + rest;
    AfterCons(first, rest);
    assert rest == [] ==> ErrorAfter(calls) == None && ErrorAfter(rest) == None;
    assert calls[..0] == [] && CycleAfter([], first.cycle) == first.cycle && MessageAfter([], first.seen) == first.seen;
    hide ApplyOps, ErrorOf, CycleAfter, MessageAfter, ErrorAfter;
    forall i | 0 <= i < |calls|
      ensures calls[i].cycle == CycleAfter(calls[..i], first.cycle) && calls[i].seen == MessageAfter(calls[..i], first.seen)
      ensures calls[i].outcome == plugins[i].run(calls[i].cycle, calls[i].seen)
      ensures i < |calls| - 1 ==> ErrorOf(calls[i]).None?
    {
      if i > 0 {
        assert calls[..i] == [first] + rest[..i - 1] && calls[i] == rest[i - 1] && plugins[i] == plugins[1..][i - 1];
        AfterCons(first, rest[..i - 1]);
      }
    }
  }

  /** RunRequestPlugins calls the plugins so, and leaves what the calls leave. */
  lemma {:induction false} PluginsRun(cycle: CycleState, m: Message, plugins: seq<RequestPlugin>) returns (calls: seq<RequestCall>)
    ensures Ran(plugins, calls, cycle, m)
    ensures var run := RunRequestPlugins(cycle, m, plugins);
            run.cycle == CycleAfter(calls, cycle) && run.msg == MessageAfter(calls, m) && run.error == ErrorAfter(calls)
    decreases |plugins|
  {
    calls := [];
    if plugins != [] {
      var first := RequestCall(cycle, m, plugins[0].run(cycle, m));
      hide ApplyOps, Panics;
      if ErrorOf(first).Some? {
        calls := [first];
        assert calls[..0] == [];
      } else {
        var rest := PluginsRun(first.outcome.cycle, ApplyOps(m, first.outcome.ops), plugins[1..]);
        RanCons(plugins, first, rest);
        AfterCons(first, rest);
        calls := [first] + rest;
        hide Ran, CycleAfter, MessageAfter, ErrorAfter;
      }
    }
  }

  // ------------------------------------------------------------------------------
  // One request

  /** The replies are a headers reply that clears the route cache and carries the message's
      header log, then the chunks of the body. */
  ghost predicate AnsweredWith(replies: seq<Reply>, m: Message, body: bytes) {
    var chunks := ChunkBody(body, true);
    && |replies| == 1 + |chunks|
    && replies[0] == RequestHeaders(Mutation(true, m.mutatedHeaders, m.removedHeaders))
    && forall i :: 0 <= i < |chunks| ==> replies[i + 1] == RequestBody(chunks[i])
  }

  /** What a request with these bytes goes through: `pre` are the calls of the
      pre-processors, `post` those of the picked profile's plugins. */
  ghost predicate WentThrough(c: Config, ctx: Context, received: bytes, pre: seq<RequestCall>, post: seq<RequestCall>, h: Handled) {
    if c.parse(received).Malformed? then pre == [] && post == [] && h == Handled(ctx, Failure(Coded("BadRequest")), [])
    else
      var m0 := Unmarshalled(ctx.request, c.parse(received));
      && Ran(c.preProcessors, pre, ctx.cycle, m0)
      && AfterPreProcessors(c, ctx, received, CycleAfter(pre, ctx.cycle), MessageAfter(pre, m0), ErrorAfter(pre), post, h)
  }

  /** Then the picker is called, unless a pre-processor failed. */
  ghost predicate AfterPreProcessors(c: Config, ctx: Context, received: bytes, cycle: CycleState, m: Message, error: Option<Error>,
                                     post: seq<RequestCall>, h: Handled) {
    if error.Some? then post == [] && h == Handled(ctx.(cycle := cycle, request := m), Failure(error.value), [])
    else
      var pick := c.picker(cycle, m, c.profiles);
      var picked := ctx.(cycle := pick.cycle, request := ApplyOps(m, pick.ops));
      if Panics(m, pick.ops) || pick.choice == Failure(Panic) then post == [] && h == Handled(picked, Failure(Panic), [])
      else if pick.choice.Failure? then post == [] && h == Handled(picked, Failure(Coded("Internal")), [])
      else
        && Ran(pick.choice.value.requestPlugins, post, pick.cycle, picked.request)
        && var ran := picked.(profile := pick.choice.value, cycle := CycleAfter(post, pick.cycle), request := MessageAfter(post, picked.request));
           Sent(c, ran, received, ErrorAfter(post), h)
  }

  /** Then the body is sent on: the one received, or the marshalled one if any call mutated it. */
  ghost predicate Sent(c: Config, ran: Context, received: bytes, error: Option<Error>, h: Handled) {
    var m := ran.request;
    var out := if m.bodyMutated then c.marshal(if m.nilBody then None else Some(m.body)) else Some(received);
    if error.Some? then h == Handled(ran, Failure(error.value), [])
    else if out.None? then h == Handled(ran, Failure(Uncoded), [])
    else
      var m' := ApplyOp(m, MessageOp.SetHeader("Content-Length", Itoa(|out.value|)));
      h.ctx == ran.(request := m') && h.events == [RequestEvent] && h.result.Success? && AnsweredWith(h.result.value, m', out.value)
  }

  lemma RequestIsSent(c: Config, ran: Context, received: bytes)
    ensures var out := OutgoingBody(c, ran.request, received);
            if out.None? then Sent(c, ran, received, None, Handled(ran, Failure(Uncoded), []))
            else
              var m := ApplyOp(ran.request, MessageOp.SetHeader(CONTENT_LENGTH, Itoa(|out.value|)));
              Sent(c, ran, received, None,
                   Handled(ran.(request := m),
                           Success([RequestHeaders(Mutation(true, m.mutatedHeaders, m.removedHeaders))] + RequestBodyReplies(ChunkBody(out.value, true))),
                           [RequestEvent]))
  {
    hide ApplyOp, Itoa, ChunkBody;
  }

  /** Every request body, whatever becomes of it, goes through exactly that. */
  lemma RequestGoesThrough(c: Config, ctx: Context, received: bytes) returns (pre: seq<RequestCall>, post: seq<RequestCall>)
    ensures WentThrough(c, ctx, received, pre, post, HandleRequestBody(c, ctx, received))
  {
    pre, post := [], [];
    if !c.parse(received).Malformed? {
      hide Ran, ApplyOps, ApplyOp, Panics, RunRequestPlugins, Unmarshalled, ChunkBody, Itoa, RequestBodyReplies, OutgoingBody, Sent, CycleAfter, MessageAfter, ErrorAfter;
      var m := Unmarshalled(ctx.request, c.parse(received));
      pre := PluginsRun(ctx.cycle, m, c.preProcessors);
      if ErrorAfter(pre).None? {
        var cycle, m1 := CycleAfter(pre, ctx.cycle), MessageAfter(pre, m);
        var pick := c.picker(cycle, m1, c.profiles);
        if PickError(m1, pick).None? {
          post := PluginsRun(pick.cycle, ApplyOps(m1, pick.ops), pick.choice.value.requestPlugins);
          var ran := ctx.(cycle := CycleAfter(post, pick.cycle), request := MessageAfter(post, ApplyOps(m1, pick.ops)), profile := pick.choice.value);
          RequestIsSent(c, ran, received);
          FailedIsSent(c, ran, received, ErrorAfter(post));
        }
      }
    }
  }

  lemma FailedIsSent(c: Config, ran: Context, received: bytes, error: Option<Error>)
    ensures error.Some? ==> Sent(c, ran, received, error, Handled(ran, Failure(error.value), []))
  {
  }

  // ------------------------------------------------------------------------------
  // Whole runs

  /** The bytes of the request body received. */
  function RequestBytes(msgs: seq<Incoming>): bytes {
    if msgs == [] then []
    else
      var last := msgs[|msgs| - 1];
      RequestBytes(msgs[..|msgs| - 1]) + (if last.InRequestBody? then last.body else [])
  }

  /** A stream that still waits for the rest of its request body. */
  ghost predicate AwaitingRequest(st: State) { st.ended.None? && !st.requestBodyComplete }

  lemma RunSnoc(c: Config, msgs: seq<Incoming>)
    requires msgs != []
    ensures Run(c, Initial, msgs).st == Next(c, Run(c, Initial, msgs[..|msgs| - 1]).st, msgs[|msgs| - 1]).st
  {
    var before, last := msgs[..|msgs| - 1], msgs[|msgs| - 1];
    assert msgs == before + [last];
    RunAppend(c, Initial, before, [last]);
    hide Next;
    var st := Run(c, Initial, before).st;
    assert [last][1..] == [] && Run(c, Next(c, st, last).st, []).st == Next(c, st, last).st;
  }

  lemma BytesStep(c: Config, st: State, msg: Incoming)
    requires AwaitingRequest(Next(c, st, msg).st)
    ensures AwaitingRequest(st)
    ensures Next(c, st, msg).st.requestBody == st.requestBody + (if msg.InRequestBody? then msg.body else [])
  {
    hide HandleRequestBody, HandleResponseHeaders, HandleResponseBody, HandleResponseChunk, ErrorStatus;
    assert st.requestBody + [] == st.requestBody;
  }

  /** Until the request body is complete, all its bytes received are kept, in order. */
  lemma {:induction false} BytesAreKept(c: Config, msgs: seq<Incoming>)
    requires AwaitingRequest(Run(c, Initial, msgs).st)
    ensures Run(c, Initial, msgs).st.requestBody == RequestBytes(msgs)
    decreases |msgs|
  {
    if msgs != [] {
      RunSnoc(c, msgs);
      BytesStep(c, Run(c, Initial, msgs[..|msgs| - 1]).st, msgs[|msgs| - 1]);
      hide Next, Run;
      BytesAreKept(c, msgs[..|msgs| - 1]);
    }
  }

  /** All request headers received. */
  function HeaderValues(msgs: seq<Incoming>): seq<HeaderValue> {
    if msgs == [] then []
    else
      var last := msgs[|msgs| - 1];
      HeaderValues(msgs[..|msgs| - 1]) + (if last.InRequestHeaders? then last.headers else [])
  }

  lemma FreshStep(c: Config, st: State, msg: Incoming)
    requires AwaitingRequest(Next(c, st, msg).st)
    ensures var m := st.ctx.request;
            Next(c, st, msg).st.ctx.request == if msg.InRequestHeaders? then m.(headers := Capture(m.headers, msg.headers)) else m
  {
    ResponseHandlersKeepRequest(c, st.ctx);
    hide HandleRequestBody, HandleResponseHeaders, HandleResponseBody, HandleResponseChunk, ErrorStatus, Capture;
  }

  lemma {:induction false} RequestIsFresh(c: Config, msgs: seq<Incoming>)
    requires AwaitingRequest(Run(c, Initial, msgs).st)
    ensures Run(c, Initial, msgs).st.ctx.request == NewMessage.(headers := Capture(map[], HeaderValues(msgs)))
    decreases |msgs|
  {
    if msgs != [] {
      var before, last := msgs[..|msgs| - 1], msgs[|msgs| - 1];
      RunSnoc(c, msgs);
      BytesStep(c, Run(c, Initial, before).st, last);
      FreshStep(c, Run(c, Initial, before).st, last);
      hide Next, Run, Capture;
      RequestIsFresh(c, before);
      var more := if last.InRequestHeaders? then last.headers else [];
      CaptureAppend(map[], HeaderValues(before), more);
      assert HeaderValues(before) + [] == HeaderValues(before);
    }
  }

  /** In every run, the message that the pre-processors get: its body is the parsed object
      and nothing else, no header or body mutation is noted yet, and of the headers received
      with a key the last one counts. */
  lemma RequestAsReceived(c: Config, msgs: seq<Incoming>, received: bytes, key: string)
    requires AwaitingRequest(Run(c, Initial, msgs).st)
    ensures var m := Unmarshalled(Run(c, Initial, msgs).st.ctx.request, c.parse(received)); var headers := HeaderValues(msgs);
            && (c.parse(received).Object? ==> m.body == c.parse(received).fields && !m.nilBody)
            && (c.parse(received).Null? ==> m.body == map[] && m.nilBody)
            && !m.bodyMutated && m.mutatedHeaders == map[] && m.removedHeaders == {}
            && (forall i: nat :: LastOfKey(headers, i, key) ==>
                  key in m.headers && m.headers[key] == if headers[i].rawValue != "" then headers[i].rawValue else headers[i].value)
            && ((forall i :: 0 <= i < |headers| ==> headers[i].key != key) ==> key !in m.headers)
  {
    RequestIsFresh(c, msgs);
    CaptureIs(map[], HeaderValues(msgs), key);
    hide Run, Capture, HeaderValues;
    assert c.parse(received).Object? ==> map[] + c.parse(received).fields == c.parse(received).fields;
  }

  /** In every run, the message that completes the request body takes all the bytes received
      through the plugins as WentThrough says, and the client is told as Reported says. */
  lemma EveryRequestGoesThrough(c: Config, msgs: seq<Incoming>, body: bytes)
    returns (pre: seq<RequestCall>, post: seq<RequestCall>, h: Handled)
    requires AwaitingRequest(Run(c, Initial, msgs).st)
    ensures var st := Run(c, Initial, msgs).st; var one := Next(c, st, InRequestBody(body, true));
            && WentThrough(c, st.ctx, RequestBytes(msgs) + body, pre, post, h)
            && one.st.ctx == h.ctx && one.events == h.events && one.st.requestBodyComplete
            && Reported(h.result, one)
  {
    var st := Run(c, Initial, msgs).st;
    BytesAreKept(c, msgs);
    pre, post := RequestGoesThrough(c, st.ctx, st.requestBody + body);
    h := HandleRequestBody(c, st.ctx, st.requestBody + body);
    ConcludeReports(st.(requestBody := st.requestBody + body, requestBodyComplete := true), h);
    hide Run, HandleRequestBody, WentThrough, Reported, ErrorStatus;
  }

  /** A request that was served: one call per pre-processor, in order; then the picker; then
      one call per request plugin of the picked profile, in order; nobody failed; and the
      cycle state and the message left are those after the last call, with the length of
      what is sent. */
  ghost predicate Served(c: Config, ctx: Context, received: bytes, pre: seq<RequestCall>, post: seq<RequestCall>, one: Step) {
    var m0 := Unmarshalled(ctx.request, c.parse(received));
    var cycle, m1 := CycleAfter(pre, ctx.cycle), MessageAfter(pre, m0);
    var pick := c.picker(cycle, m1, c.profiles);
    var profile, m2 := one.st.ctx.profile, ApplyOps(m1, pick.ops);
    var m3 := MessageAfter(post, m2);
    && !c.parse(received).Malformed?
    && Ran(c.preProcessors, pre, ctx.cycle, m0) && |pre| == |c.preProcessors| && ErrorAfter(pre).None?
    && !Panics(m1, pick.ops) && pick.choice == Success(profile)
    && Ran(profile.requestPlugins, post, pick.cycle, m2) && |post| == |profile.requestPlugins| && ErrorAfter(post).None?
    && one.st.ctx.cycle == CycleAfter(post, pick.cycle)
    && (exists out ::
          && Some(out) == (if m3.bodyMutated then c.marshal(if m3.nilBody then None else Some(m3.body)) else Some(received))
          && one.st.ctx.request == ApplyOp(m3, MessageOp.SetHeader("Content-Length", Itoa(|out|)))
          && AnsweredWith(one.sent, one.st.ctx.request, out))
    && one.events == [RequestEvent]
  }

  lemma SuccessIsServed(c: Config, ctx: Context, received: bytes, pre: seq<RequestCall>, post: seq<RequestCall>, h: Handled, one: Step)
    requires WentThrough(c, ctx, received, pre, post, h) && h.result.Success?
    requires one.st.ctx == h.ctx && one.sent == h.result.value && one.events == h.events
    ensures Served(c, ctx, received, pre, post, one)
  {
    hide Ran, ApplyOps, ApplyOp, Panics, Unmarshalled, ChunkBody, Itoa, AnsweredWith, CycleAfter, MessageAfter, ErrorAfter;
    var m := Unmarshalled(ctx.request, c.parse(received));
    AllRan(c.preProcessors, pre, ctx.cycle, m);
    var cycle, m1 := CycleAfter(pre, ctx.cycle), MessageAfter(pre, m);
    var pick := c.picker(cycle, m1, c.profiles);
    AllRan(h.ctx.profile.requestPlugins, post, pick.cycle, ApplyOps(m1, pick.ops));
  }

  /** No request plugin is skipped: in every run, when the message that completes the request
      body does not end the stream, the request has gone through every plugin meant for it. */
  lemma NoRequestPluginIsSkipped(c: Config, msgs: seq<Incoming>, body: bytes) returns (pre: seq<RequestCall>, post: seq<RequestCall>)
    requires AwaitingRequest(Run(c, Initial, msgs).st)
    requires Next(c, Run(c, Initial, msgs).st, InRequestBody(body, true)).st.ended.None?
    ensures var st := Run(c, Initial, msgs).st;
            Served(c, st.ctx, RequestBytes(msgs) + body, pre, post, Next(c, st, InRequestBody(body, true)))
  {
    hide Next, Run, WentThrough, Served, RequestBytes;
    var h;
    pre, post, h := EveryRequestGoesThrough(c, msgs, body);
    var st := Run(c, Initial, msgs).st;
    SuccessIsServed(c, st.ctx, RequestBytes(msgs) + body, pre, post, h, Next(c, st, InRequestBody(body, true)));
  }

  lemma AllRan(plugins: seq<RequestPlugin>, calls: seq<RequestCall>, cycle: CycleState, m: Message)
    ensures Ran(plugins, calls, cycle, m) && ErrorAfter(calls).None? ==> |calls| == |plugins|
  {
  }
}
