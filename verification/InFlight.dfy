/** End-to-end in-flight accounting: any number of streams, the event queue and its loop,
    and the request-metadata extractor, in every interleaving. Events carry a reference to
    their request, so the extractor reads the body when it runs, not when it was notified. */
module InFlight {
  import opened Wrappers
  import opened Messages
  import H = Handlers
  import opened Stream
  import F = FanOut
  import R = RequestMetadata

  // ------------------------------------------------------------------------------
  // One stream

  lemma RequestBodyNotifiesOnSuccess(c: H.Config, ctx: H.Context, received: seq<Envoy.byte>)
    ensures var h := H.HandleRequestBody(c, ctx, received);
            h.events == if h.result.Success? then [H.RequestEvent] else []
  {
    hide H.RunRequestPlugins, ApplyOps, H.OutgoingBody, H.RequestBodyReplies;
  }

  /** What a received message can notify, and what it leaves alone. */
  ghost predicate Facts(st: State, msg: Incoming, one: Step) {
    // one request event per successful body, one response event per completed response,
    // unless its handler panicked
    && one.events == (if !st.requestBodyComplete && one.st.requestBodyComplete && one.st.ended.None? then [H.RequestEvent]
                      else if !st.responseBodyComplete && one.st.responseBodyComplete && one.st.ended != Some(Crashed) then [H.ResponseEvent] else [])
    && (one.st.requestBodyComplete != st.requestBodyComplete ==> msg.InRequestBody? && one.st.requestBodyComplete)
    && (one.st.responseBodyComplete != st.responseBodyComplete ==> msg.InResponseBody? && one.st.responseBodyComplete)
    && one.st.responseStarted == (st.responseStarted || (msg.InResponseBody? && !st.responseBodyComplete))
    // the body is only written when the request completes
    && (one.st.requestBodyComplete == st.requestBodyComplete ==> one.st.ctx.request.body == st.ctx.request.body)
  }

  lemma StepFacts(c: H.Config, st: State, msg: Incoming)
    requires st.ended.None?
    ensures Facts(st, msg, Next(c, st, msg))
  {
    match msg
    case InRequestBody(body, eos) =>
      RequestBodyFacts(c, st, body, eos);
      hide OnRequestBody;
    case InResponseHeaders(_, _) =>
      H.ResponseHandlersKeepRequest(c, st.ctx);
      hide H.HandleResponseHeaders, H.ErrorStatus;
    case InResponseBody(body, eos) =>
      ResponseBodyFacts(c, st, body, eos);
      hide OnResponseBody;
    case _ =>
      hide H.ErrorStatus;
  }

  lemma RequestBodyFacts(c: H.Config, st: State, body: seq<Envoy.byte>, eos: bool)
    requires st.ended.None?
    ensures Facts(st, InRequestBody(body, eos), OnRequestBody(c, st, body, eos))
  {
    RequestBodyNotifiesOnSuccess(c, st.ctx, st.requestBody + body);
    hide H.HandleRequestBody, H.ErrorStatus;
  }

  lemma ConcludeFacts(st: State, h: H.Handled)
    requires st.ended.None? && H.KeepsRequest(st.ctx, h)
    ensures var one := Conclude(st, h);
            && one.events == [] && one.st.ctx.request == st.ctx.request
            && one.st == st.(ctx := one.st.ctx, ended := one.st.ended)
    ensures var one := CompleteResponse(st, h);
            && one.events == (if one.st.ended != Some(Crashed) then [H.ResponseEvent] else [])
            && one.st.ctx.request == st.ctx.request
            && one.st == st.(ctx := one.st.ctx, ended := one.st.ended, responseBodyComplete := true)
  {
  }

  lemma ResponseBodyFacts(c: H.Config, st: State, body: seq<Envoy.byte>, eos: bool)
    requires st.ended.None?
    ensures Facts(st, InResponseBody(body, eos), OnResponseBody(c, st, body, eos))
  {
    hide H.HandleResponseBody, H.HandleResponseChunk, Conclude, CompleteResponse;
    var st1 := st.(responseStarted := true);
    var st2 := st1.(responseBody := st1.responseBody + body);
    var whole, part := H.HandleResponseBody(c, st.ctx, st2.responseBody), H.HandleResponseChunk(c, st.ctx, body, eos);
    assert H.KeepsRequest(st.ctx, whole) && H.KeepsRequest(st.ctx, part) by { H.ResponseHandlersKeepRequest(c, st.ctx); }
    ConcludeFacts(st2, whole);
    ConcludeFacts(st1, part);
  }

  // ------------------------------------------------------------------------------
  // The world

  /** An event names its stream, whose request it points to. */
  datatype Event = Event(stream: nat, kind: H.EventType)

  datatype World = World(streams: seq<State>, flow: F.State<Event>, counters: R.Counters)

  /** Idle is anything that happens elsewhere. */
  datatype Action = Open | Deliver(i: nat, msg: Incoming) | Loop(a: F.Action<Event>) | Idle

  /** The request body's final chunk comes before any response chunk. */
  ghost predicate Lifecycle(st: State, msg: Incoming) {
    msg.InRequestBody? && !st.requestBodyComplete ==> !st.responseStarted
  }

  function Tagged(i: nat, events: seq<H.EventType>): seq<Event> {
    seq(|events|, k requires 0 <= k < |events| => Event(i, events[k]))
  }

  /** A step with no event dropped. `x` is the index of the request-metadata extractor. */
  ghost predicate Enabled(c: H.Config, w: World, a: Action) {
    match a
    case Open => true
    case Deliver(i, msg) =>
      && i < |w.streams| && w.streams[i].ended.None? && Lifecycle(w.streams[i], msg)
      && |w.flow.queue| + |Next(c, w.streams[i], msg).events| <= F.DEFAULT_BUFFER_SIZE
    case Loop(b) => !b.Notify? && F.Enabled(w.flow, b)
    case Idle => true
  }

  /** Whether this step is a call of the request-metadata extractor. */
  predicate Extracts(x: nat, w: World, b: F.Action<Event>) {
    b.Extract? && w.flow.loop.Dispatching? && w.flow.loop.next == x && x < |w.flow.calls|
  }

  /** The body of the request that events of stream i point to. */
  function BodyOf(w: World, i: nat): Body {
    if i < |w.streams| then w.streams[i].ctx.request.body else map[]
  }

  function Seen(w: World, e: Event): R.Observation {
    R.Observe(e.kind == H.RequestEvent, BodyOf(w, e.stream))
  }

  /** Each event is one notify step of the queue. */
  ghost function NotifyAll(s: F.State<Event>, events: seq<Event>): F.State<Event>
    decreases |events|
  {
    if events == [] then s else NotifyAll(F.NotifyStep(s, events[0]), events[1..])
  }

  ghost function Do(c: H.Config, x: nat, w: World, a: Action): World
    requires Enabled(c, w, a)
  {
    match a
    case Open => w.(streams := w.streams + [Initial])
    case Deliver(i, msg) =>
      var one := Next(c, w.streams[i], msg);
      w.(streams := w.streams[i := one.st], flow := NotifyAll(w.flow, Tagged(i, one.events)))
    case Loop(b) =>
      World(w.streams, F.Do(w.flow, b),
            if Extracts(x, w, b) then R.Account(w.counters, Seen(w, w.flow.loop.event)) else w.counters)
    case Idle => w
  }

  /** Within capacity every event is accepted and queued, in order. */
  lemma {:induction false} NotifyAllAccepts(s: F.State<Event>, events: seq<Event>)
    requires |s.queue| + |events| <= F.DEFAULT_BUFFER_SIZE
    ensures NotifyAll(s, events) == s.(queue := s.queue + events, accepted := s.accepted + events)
    decreases |events|
  {
    if events == [] {
      assert s.queue + events == s.queue && s.accepted + events == s.accepted;
    } else {
      NotifyAllAccepts(F.NotifyStep(s, events[0]), events[1..]);
      assert (s.queue + [events[0]]) + events[1..] == s.queue + events;
      assert (s.accepted + [events[0]]) + events[1..] == s.accepted + events;
    }
  }

  // ------------------------------------------------------------------------------
  // The invariant of the event path

  /** What the request-metadata extractor has been called with. */
  function Extracted(x: nat, w: World): seq<Event> {
    if x < |w.flow.calls| then w.flow.calls[x] else []
  }

  ghost predicate Precedes(a: Event, b: Event, events: seq<Event>) {
    exists p, q :: 0 <= p < q < |events| && events[p] == a && events[q] == b
  }

  ghost predicate Distinct(events: seq<Event>) {
    forall p, q :: 0 <= p < q < |events| ==> events[p] != events[q]
  }

  /** How the state of stream i and its accepted events fit together. */
  ghost predicate StreamInv(st: State, i: nat, accepted: seq<Event>) {
    var request, response := Event(i, H.RequestEvent), Event(i, H.ResponseEvent);
    && (!st.requestBodyComplete ==> st.ctx.request.body == map[])
    && (st.responseBodyComplete ==> st.responseStarted)
    && (request in accepted ==> st.requestBodyComplete)
    && (st.requestBodyComplete && st.ended.None? ==> request in accepted)
    && (response in accepted ==> st.responseBodyComplete)
    && (response in accepted && R.IsNamed(st.ctx.request.body) ==> Precedes(request, response, accepted))
  }

  ghost predicate Inv(x: nat, w: World) {
    && F.Inv(w.flow) && x < |w.flow.calls|
    && Distinct(w.flow.accepted)
    && (forall e :: e in w.flow.accepted ==> e.stream < |w.streams|)
    && forall i :: 0 <= i < |w.streams| ==> StreamInv(w.streams[i], i, w.flow.accepted)
  }

  lemma PrecedesAppend(a: Event, b: Event, events: seq<Event>, more: seq<Event>)
    requires Precedes(a, b, events)
    ensures Precedes(a, b, events + more)
  {
    var p, q :| 0 <= p < q < |events| && events[p] == a && events[q] == b;
    assert (events + more)[p] == a && (events + more)[q] == b;
  }

  lemma PrecedesNew(a: Event, b: Event, events: seq<Event>)
    requires a in events
    ensures Precedes(a, b, events + [b])
  {
    var p :| 0 <= p < |events| && events[p] == a;
    assert (events + [b])[p] == a && (events + [b])[|events|] == b;
  }

  /** The stream that receives a message. */
  lemma DeliveredStream(c: H.Config, st: State, i: nat, msg: Incoming, accepted: seq<Event>)
    requires StreamInv(st, i, accepted) && st.ended.None? && Lifecycle(st, msg)
    ensures var one := Next(c, st, msg); var tagged := Tagged(i, one.events);
            && StreamInv(one.st, i, accepted + tagged)
            && |tagged| <= 1 && forall e :: e in tagged ==> e !in accepted
  {
    var one := Next(c, st, msg);
    StepFacts(c, st, msg);
    hide Next, R.IsNamed;
    var request, response := Event(i, H.RequestEvent), Event(i, H.ResponseEvent);
    var tagged := Tagged(i, one.events);
    assert !R.IsNamed(map[]) by { EmptyIsNotNamed(); }
    if one.events == [H.RequestEvent] {
      assert tagged == [request];
    } else if one.events == [H.ResponseEvent] {
      assert tagged == [response];
      if request in accepted {
        PrecedesNew(request, response, accepted);
      }
    } else {
      assert accepted + tagged == accepted;
    }
  }

  lemma EmptyIsNotNamed()
    ensures !R.IsNamed(map[])
  {
  }

  /** A stream whose state and events stay as they are. */
  lemma OtherStream(st: State, j: nat, accepted: seq<Event>, tagged: seq<Event>)
    requires StreamInv(st, j, accepted) && forall e :: e in tagged ==> e.stream != j
    ensures StreamInv(st, j, accepted + tagged)
  {
    hide R.IsNamed;
    var request, response := Event(j, H.RequestEvent), Event(j, H.ResponseEvent);
    if Precedes(request, response, accepted) {
      PrecedesAppend(request, response, accepted, tagged);
    }
  }

  /** Notifying keeps the invariant of the queue, full or not. */
  lemma {:induction false} NotifyKeepsFlow(s: F.State<Event>, events: seq<Event>)
    requires F.Inv(s)
    ensures F.Inv(NotifyAll(s, events))
    decreases |events|
  {
    hide F.Inv;
    if events != [] {
      F.NotifyKeepsInv(s, events[0]);
      NotifyKeepsFlow(F.NotifyStep(s, events[0]), events[1..]);
    }
  }

  lemma DeliverKeepsInv(c: H.Config, x: nat, w: World, i: nat, msg: Incoming)
    requires Inv(x, w) && Enabled(c, w, Deliver(i, msg))
    ensures Inv(x, Do(c, x, w, Deliver(i, msg)))
  {
    hide Next, F.Inv, StreamInv, Lifecycle;
    var one := Next(c, w.streams[i], msg);
    var tagged := Tagged(i, one.events);
    var w' := Do(c, x, w, Deliver(i, msg));
    DeliveredStream(c, w.streams[i], i, msg, w.flow.accepted);
    NotifyKeepsFlow(w.flow, tagged);
    NotifyAllAccepts(w.flow, tagged);
    hide NotifyAll;
    forall j | 0 <= j < |w'.streams| ensures StreamInv(w'.streams[j], j, w'.flow.accepted) {
      if j != i {
        OtherStream(w.streams[j], j, w.flow.accepted, tagged);
      }
    }
    DistinctAppend(w.flow.accepted, tagged);
  }

  lemma DistinctAppend(events: seq<Event>, more: seq<Event>)
    requires Distinct(events) && |more| <= 1 && forall e :: e in more ==> e !in events
    ensures Distinct(events + more)
  {
    var all := events + more;
    forall p, q | 0 <= p < q < |all| ensures all[p] != all[q] {
      assert all[p] == events[p] && events[p] in events;
      if q == |events| { assert all[q] == more[0] && more[0] in more; }
    }
  }

  lemma OpenKeepsInv(c: H.Config, x: nat, w: World)
    requires Inv(x, w)
    ensures Inv(x, Do(c, x, w, Open))
  {
    hide F.Inv;
    var w' := Do(c, x, w, Open);
    forall j | 0 <= j < |w'.streams| ensures StreamInv(w'.streams[j], j, w'.flow.accepted) {
      if j < |w.streams| {
        assert w'.streams[j] == w.streams[j];
      } else {
        assert Event(j, H.RequestEvent) !in w.flow.accepted && Event(j, H.ResponseEvent) !in w.flow.accepted;
      }
    }
  }

  lemma LoopKeepsInv(c: H.Config, x: nat, w: World, b: F.Action<Event>)
    requires Inv(x, w) && Enabled(c, w, Loop(b))
    ensures Inv(x, Do(c, x, w, Loop(b)))
  {
    hide F.Inv, F.Do, F.Enabled, StreamInv, R.Account, Extracts, Distinct, Seen;
    F.StepKeepsInv(w.flow, b);
    FlowStepKeepsAccepted(w.flow, b);
    var w' := Do(c, x, w, Loop(b));
    assert w'.streams == w.streams && w'.flow.accepted == w.flow.accepted;
  }

  lemma FlowStepKeepsAccepted(s: F.State<Event>, b: F.Action<Event>)
    requires F.Enabled(s, b) && !b.Notify?
    ensures F.Do(s, b).accepted == s.accepted && |F.Do(s, b).calls| == |s.calls|
  {
  }

  lemma IdleChangesNothing(c: H.Config, x: nat, w: World)
    ensures Do(c, x, w, Idle) == w
  {
  }

  lemma StepKeepsInv(c: H.Config, x: nat, w: World, a: Action)
    requires Inv(x, w) && Enabled(c, w, a)
    ensures Inv(x, Do(c, x, w, a))
  {
    hide Inv, Do, Enabled;
    match a
    case Open => OpenKeepsInv(c, x, w);
    case Deliver(i, msg) => DeliverKeepsInv(c, x, w, i, msg);
    case Loop(b) => LoopKeepsInv(c, x, w, b);
    case Idle => IdleChangesNothing(c, x, w);
  }

  // ------------------------------------------------------------------------------
  // The counters

  function SumUpTo(n: nat, f: nat -> int): int {
    if n == 0 then 0 else SumUpTo(n - 1, f) + f(n - 1)
  }

  lemma {:induction false} SumCompare(n: nat, f: nat -> int, g: nat -> int)
    requires forall i :: 0 <= i < n ==> f(i) <= g(i)
    ensures SumUpTo(n, f) <= SumUpTo(n, g)
  {
    if n > 0 { SumCompare(n - 1, f, g); }
  }

  lemma {:induction false} SumChange(n: nat, f: nat -> int, g: nat -> int, k: nat)
    requires forall i :: 0 <= i < n && i != k ==> f(i) == g(i)
    ensures SumUpTo(n, g) == SumUpTo(n, f) + (if k < n then g(k) - f(k) else 0)
  {
    if n > 0 { SumChange(n - 1, f, g, k); }
  }

  /** The request event of stream i has been extracted and its response event has not. */
  predicate IsInFlight(x: nat, w: World, i: nat, m: string) {
    && Event(i, H.RequestEvent) in Extracted(x, w) && Event(i, H.ResponseEvent) !in Extracted(x, w)
    && R.Names(BodyOf(w, i), m)
  }

  /** What stream i counts for: one request, or its max_tokens. */
  function AmountOf(w: World, i: nat, q: R.Quantity): int {
    R.Amount(Seen(w, Event(i, H.RequestEvent)), q)
  }

  function InFlightAmount(x: nat, w: World, i: nat, m: string, q: R.Quantity): int {
    if IsInFlight(x, w, i, m) then AmountOf(w, i, q) else 0
  }

  function StreamAmount(w: World, i: nat, m: string, q: R.Quantity): int {
    if R.Names(BodyOf(w, i), m) then AmountOf(w, i, q) else 0
  }

  /** The amount in flight for m. */
  function Total(x: nat, w: World, m: string, q: R.Quantity): int {
    SumUpTo(|w.streams|, (i: nat) => InFlightAmount(x, w, i, m, q))
  }

  /** Amounts are not negative, and all streams for m together fit an int64. */
  ghost predicate Fits(w: World, m: string, q: R.Quantity) {
    && (forall i :: 0 <= i < |w.streams| ==> StreamAmount(w, i, m, q) >= 0)
    && SumUpTo(|w.streams|, (i: nat) => StreamAmount(w, i, m, q)) <= R.MAX_INT64
  }

  ghost predicate Accounted(x: nat, w: World, m: string, q: R.Quantity) {
    R.Current(w.counters, m, q) == Total(x, w, m, q)
  }

  /** The extractor has been called with a prefix of the accepted events; at its turn, the
      event in hand is the next one. */
  lemma ExtractedIsPrefix(x: nat, w: World)
    requires Inv(x, w)
    ensures Extracted(x, w) <= w.flow.accepted
    ensures w.flow.loop.Dispatching? && w.flow.loop.next == x ==>
              |Extracted(x, w)| < |w.flow.accepted| && w.flow.accepted[|Extracted(x, w)|] == w.flow.loop.event
  {
    assert w.flow.calls[x] == F.Seen(w.flow, x);
  }

  lemma {:induction false} AmountsAreBounded(x: nat, w: World, m: string, q: R.Quantity, i: nat)
    requires Fits(w, m, q) && i < |w.streams|
    ensures 0 <= InFlightAmount(x, w, i, m, q) <= Total(x, w, m, q)
    ensures Total(x, w, m, q) + (StreamAmount(w, i, m, q) - InFlightAmount(x, w, i, m, q)) <= R.MAX_INT64
  {
    var f := (j: nat) => InFlightAmount(x, w, j, m, q);
    var g := (j: nat) => StreamAmount(w, j, m, q);
    var without := (j: nat) => if j == i then 0 else InFlightAmount(x, w, j, m, q);
    var more := (j: nat) => if j == i then StreamAmount(w, i, m, q) else InFlightAmount(x, w, j, m, q);
    var zero := (j: nat) => 0;
    forall j | 0 <= j < |w.streams| ensures 0 <= f(j) <= g(j) {
      assert StreamAmount(w, j, m, q) >= 0;
    }
    hide InFlightAmount, StreamAmount;
    SumChange(|w.streams|, without, f, i);
    SumCompare(|w.streams|, zero, without);
    SumOfZero(|w.streams|, zero);
    SumChange(|w.streams|, f, more, i);
    SumCompare(|w.streams|, more, g);
  }

  lemma {:induction false} SumOfZero(n: nat, f: nat -> int)
    requires forall i :: 0 <= i < n ==> f(i) == 0
    ensures SumUpTo(n, f) == 0
  {
    if n > 0 { SumOfZero(n - 1, f); }
  }

  lemma SumSame(n: nat, f: nat -> int, g: nat -> int)
    requires forall i :: 0 <= i < n ==> f(i) == g(i)
    ensures SumUpTo(n, f) == SumUpTo(n, g)
  {
    SumCompare(n, f, g);
    SumCompare(n, g, f);
  }

  /** Delivering a message changes nothing that is in flight: the request bodies that the
      extracted events point to are frozen. */
  lemma DeliverKeepsTotal(c: H.Config, x: nat, w: World, i: nat, msg: Incoming, m: string, q: R.Quantity)
    requires Inv(x, w) && Enabled(c, w, Deliver(i, msg))
    ensures Total(x, Do(c, x, w, Deliver(i, msg)), m, q) == Total(x, w, m, q)
  {
    hide F.Inv, R.ModelOf, R.Observe, Next;
    StepFacts(c, w.streams[i], msg);
    ExtractedIsPrefix(x, w);
    var w' := Do(c, x, w, Deliver(i, msg));
    NotifyAllAccepts(w.flow, Tagged(i, Next(c, w.streams[i], msg).events));
    hide NotifyAll;
    assert Extracted(x, w') == Extracted(x, w);
    forall j: nat | 0 <= j < |w.streams| ensures InFlightAmount(x, w', j, m, q) == InFlightAmount(x, w, j, m, q) {
      if IsInFlight(x, w, j, m) || IsInFlight(x, w', j, m) {
        assert Event(j, H.RequestEvent) in w.flow.accepted;
        assert StreamInv(w.streams[j], j, w.flow.accepted);
        assert BodyOf(w', j) == BodyOf(w, j);
      }
    }
    hide Inv, InFlightAmount, Enabled, Do;
    SumSame(|w.streams|, (j: nat) => InFlightAmount(x, w', j, m, q), (j: nat) => InFlightAmount(x, w, j, m, q));
  }

  lemma OpenKeepsTotal(c: H.Config, x: nat, w: World, m: string, q: R.Quantity)
    requires Inv(x, w)
    ensures Total(x, Do(c, x, w, Open), m, q) == Total(x, w, m, q)
  {
    var n := |w.streams|;
    var w' := Do(c, x, w, Open);
    ExtractedIsPrefix(x, w);
    assert Event(n, H.RequestEvent) !in w.flow.accepted;
    NotExtractedNotInFlight(x, w', n, m, q);
    forall j: nat | 0 <= j < n ensures InFlightAmount(x, w', j, m, q) == InFlightAmount(x, w, j, m, q) {
      OlderStreamStands(x, w, w', j, m, q);
    }
    hide Inv, InFlightAmount;
    SumSame(n, (j: nat) => InFlightAmount(x, w', j, m, q), (j: nat) => InFlightAmount(x, w, j, m, q));
  }

  lemma NotExtractedNotInFlight(x: nat, w: World, i: nat, m: string, q: R.Quantity)
    requires Event(i, H.RequestEvent) !in Extracted(x, w)
    ensures InFlightAmount(x, w, i, m, q) == 0
  {
  }

  lemma OlderStreamStands(x: nat, w: World, w': World, j: nat, m: string, q: R.Quantity)
    requires j < |w.streams| && w'.streams == w.streams + [Initial] && w'.flow == w.flow
    ensures InFlightAmount(x, w', j, m, q) == InFlightAmount(x, w, j, m, q)
  {
    hide R.ModelOf, R.Observe;
    assert BodyOf(w', j) == BodyOf(w, j);
  }

  /** A call of the extractor on event e changes what is in flight by what e says. */
  lemma ExtractChangesTotal(c: H.Config, x: nat, w: World, b: F.Action<Event>, m: string, q: R.Quantity)
    requires Inv(x, w) && Enabled(c, w, Loop(b)) && Extracts(x, w, b) && m != ""
    ensures var e := w.flow.loop.event; var o := Seen(w, e);
            && e.stream < |w.streams|
            && Total(x, Do(c, x, w, Loop(b)), m, q) == Total(x, w, m, q) + R.Change(o, m, q)
            && (o.model == m ==> InFlightAmount(x, w, e.stream, m, q) == if o.isRequest then 0 else R.Amount(o, q))
            && (o.model == m ==> StreamAmount(w, e.stream, m, q) == R.Amount(o, q))
  {
    hide F.Inv, F.Do, F.Enabled, F.ExtractStep, StreamInv, R.ModelOf, R.Account;
    var e := w.flow.loop.event;
    assert R.ModelOf(BodyOf(w, e.stream)) == m <==> R.Names(BodyOf(w, e.stream), m) by { R.ModelOfIs(BodyOf(w, e.stream), m); }
    ModelIsNamed(BodyOf(w, e.stream));
    var w' := Do(c, x, w, Loop(b));
    OneMoreExtracted(c, x, w, b);
    ExtractedInOrder(x, w);
    hide Inv, Enabled, Do;
    forall j: nat | 0 <= j < |w.streams| && j != e.stream ensures InFlightAmount(x, w', j, m, q) == InFlightAmount(x, w, j, m, q) {
      assert BodyOf(w', j) == BodyOf(w, j);
    }
    SumChange(|w.streams|, (j: nat) => InFlightAmount(x, w, j, m, q), (j: nat) => InFlightAmount(x, w', j, m, q), e.stream);
    assert BodyOf(w', e.stream) == BodyOf(w, e.stream);
  }

  lemma ModelIsNamed(b: Body)
    ensures R.ModelOf(b) != "" <==> R.IsNamed(b)
  {
    R.ModelOfIs(b, "");
  }

  lemma OneMoreExtracted(c: H.Config, x: nat, w: World, b: F.Action<Event>)
    requires Enabled(c, w, Loop(b)) && Extracts(x, w, b)
    ensures var w' := Do(c, x, w, Loop(b)); w'.streams == w.streams && Extracted(x, w') == Extracted(x, w) + [w.flow.loop.event]
  {
    hide R.Account, Seen;
  }

  /** First in, first out: a request event is extracted before its response event. */
  lemma ExtractedInOrder(x: nat, w: World)
    requires Inv(x, w) && w.flow.loop.Dispatching? && w.flow.loop.next == x
    ensures var e := w.flow.loop.event; var before := Extracted(x, w);
            var request, response := Event(e.stream, H.RequestEvent), Event(e.stream, H.ResponseEvent);
            && e.stream < |w.streams|
            && e !in before
            && (R.IsNamed(BodyOf(w, e.stream)) ==>
                  (e == request ==> response !in before) && (e == response ==> request in before))
  {
    ExtractedIsPrefix(x, w);
    hide F.Inv, R.IsNamed;
    var e := w.flow.loop.event;
    var before, accepted := Extracted(x, w), w.flow.accepted;
    assert before == accepted[..|before|] && e == accepted[|before|];
    assert e in accepted;
    assert StreamInv(w.streams[e.stream], e.stream, accepted);
    PrefixOrder(accepted, |before|, Event(e.stream, H.RequestEvent), Event(e.stream, H.ResponseEvent));
  }

  lemma PrefixOrder(events: seq<Event>, n: nat, a: Event, b: Event)
    requires Distinct(events) && n < |events|
    ensures events[n] !in events[..n]
    ensures (b in events ==> Precedes(a, b, events)) ==>
              (events[n] == a ==> b !in events[..n]) && (events[n] == b ==> a in events[..n])
  {
    if Precedes(a, b, events) {
      var p, k :| 0 <= p < k < |events| && events[p] == a && events[k] == b;
      if events[n] == b {
        assert k == n && events[..n][p] == a;
      }
    }
  }

  /** All streams for m together, amounts taken as positive, fit an int64. */
  ghost predicate FitsSigned(w: World, m: string, q: R.Quantity) {
    SumUpTo(|w.streams|, (i: nat) => R.Abs(StreamAmount(w, i, m, q))) <= R.MAX_INT64
  }

  /** The extraction of a response event for m would take what is in flight below zero. */
  ghost predicate Undershoots(x: nat, w: World, a: Action, w': World, m: string, q: R.Quantity) {
    && a.Loop? && Extracts(x, w, a.a)
    && w.flow.loop.event.kind == H.ResponseEvent && R.Names(BodyOf(w, w.flow.loop.event.stream), m)
    && Total(x, w', m, q) < 0
  }

  lemma TotalIsBounded(x: nat, w: World, m: string, q: R.Quantity)
    requires FitsSigned(w, m, q)
    ensures R.Abs(Total(x, w, m, q)) <= R.MAX_INT64
  {
    var n := |w.streams|;
    var f := (i: nat) => InFlightAmount(x, w, i, m, q);
    var g: nat -> int := (i: nat) => R.Abs(StreamAmount(w, i, m, q));
    var minus: nat -> int := (i: nat) => -R.Abs(StreamAmount(w, i, m, q));
    forall i: nat | 0 <= i < n ensures minus(i) <= f(i) <= g(i) && minus(i) == -g(i) {
      AmountIsWithin(x, w, i, m, q);
    }
    hide InFlightAmount, StreamAmount;
    SumCompare(n, f, g);
    SumCompare(n, minus, f);
    SumNegated(n, g, minus);
  }

  lemma AmountIsWithin(x: nat, w: World, i: nat, m: string, q: R.Quantity)
    ensures var bound := R.Abs(StreamAmount(w, i, m, q)); -bound <= InFlightAmount(x, w, i, m, q) <= bound
  {
  }

  lemma {:induction false} SumNegated(n: nat, f: nat -> int, g: nat -> int)
    requires forall i :: 0 <= i < n ==> g(i) == -f(i)
    ensures SumUpTo(n, g) == -SumUpTo(n, f)
  {
    if n > 0 { SumNegated(n - 1, f, g); }
  }

  /** Exactly when a step of the loop keeps a counter equal to what is in flight. */
  lemma LoopAccountedIff(c: H.Config, x: nat, w: World, b: F.Action<Event>, m: string, q: R.Quantity)
    requires Inv(x, w) && Enabled(c, w, Loop(b)) && Accounted(x, w, m, q) && FitsSigned(w, m, q) && m != ""
    ensures var w' := Do(c, x, w, Loop(b)); Accounted(x, w', m, q) <==> !Undershoots(x, w, Loop(b), w', m, q)
  {
    var w' := Do(c, x, w, Loop(b));
    if Extracts(x, w, b) {
      var o := Seen(w, w.flow.loop.event);
      ExtractChangesTotal(c, x, w, b, m, q);
      assert w'.streams == w.streams && w'.counters == R.Account(w.counters, o);
      SameFit(w, w', m, q);
      TotalIsBounded(x, w', m, q);
      hide Total, Inv, F.Do, InFlightAmount, StreamAmount, R.Account, R.Current;
      R.SignedStep(w.counters, o, m, q);
    } else {
      OtherLoopSteps(x, w, b);
      hide Inv, F.Do, InFlightAmount;
      forall j: nat | 0 <= j < |w.streams| ensures InFlightAmount(x, w', j, m, q) == InFlightAmount(x, w, j, m, q) {
        SameInFlight(x, w, w', j, m, q);
      }
      SumSame(|w.streams|, (j: nat) => InFlightAmount(x, w', j, m, q), (j: nat) => InFlightAmount(x, w, j, m, q));
    }
  }

  lemma SameFit(w: World, w': World, m: string, q: R.Quantity)
    requires w'.streams == w.streams
    ensures FitsSigned(w', m, q) <==> FitsSigned(w, m, q)
    ensures Fits(w', m, q) <==> Fits(w, m, q)
  {
    hide R.ModelOf;
    assert forall i: nat :: StreamAmount(w', i, m, q) == StreamAmount(w, i, m, q);
    SumSame(|w.streams|, (i: nat) => R.Abs(StreamAmount(w', i, m, q)), (i: nat) => R.Abs(StreamAmount(w, i, m, q)));
    SumSame(|w.streams|, (i: nat) => StreamAmount(w', i, m, q), (i: nat) => StreamAmount(w, i, m, q));
  }

  lemma FitsIsFitsSigned(w: World, m: string, q: R.Quantity)
    requires Fits(w, m, q)
    ensures FitsSigned(w, m, q)
  {
    SumSame(|w.streams|, (i: nat) => R.Abs(StreamAmount(w, i, m, q)), (i: nat) => StreamAmount(w, i, m, q));
  }

  /** With amounts that are not negative nothing undershoots. */
  lemma LoopKeepsAccounted(c: H.Config, x: nat, w: World, b: F.Action<Event>, m: string, q: R.Quantity)
    requires Inv(x, w) && Enabled(c, w, Loop(b)) && Accounted(x, w, m, q) && Fits(w, m, q) && m != ""
    ensures Accounted(x, Do(c, x, w, Loop(b)), m, q)
  {
    var w' := Do(c, x, w, Loop(b));
    FitsIsFitsSigned(w, m, q);
    LoopAccountedIff(c, x, w, b, m, q);
    if Extracts(x, w, b) {
      ExtractChangesTotal(c, x, w, b, m, q);
      SameFit(w, w', m, q);
      AmountsAreBounded(x, w', m, q, w.flow.loop.event.stream);
    }
    hide Inv, Do, Accounted, Total, Fits;
  }

  lemma SameInFlight(x: nat, w: World, w': World, j: nat, m: string, q: R.Quantity)
    requires Extracted(x, w') == Extracted(x, w) && w'.streams == w.streams
    ensures InFlightAmount(x, w', j, m, q) == InFlightAmount(x, w, j, m, q)
  {
  }

  lemma OtherLoopSteps(x: nat, w: World, b: F.Action<Event>)
    requires F.Enabled(w.flow, b) && !b.Notify? && !Extracts(x, w, b) && x < |w.flow.calls|
    ensures F.Do(w.flow, b).calls[x] == w.flow.calls[x]
    ensures |F.Do(w.flow, b).calls| == |w.flow.calls|
  {
  }

  // ------------------------------------------------------------------------------
  // Whole runs

  ghost predicate IsRun(c: H.Config, x: nat, worlds: seq<World>, actions: seq<Action>) {
    && |worlds| == |actions| + 1
    && worlds[0] == World([], F.Initial(|worlds[0].flow.calls|), map[]) && x < |worlds[0].flow.calls|
    && forall k :: 0 <= k < |actions| ==> Enabled(c, worlds[k], actions[k]) && worlds[k + 1] == Do(c, x, worlds[k], actions[k])
  }

  lemma {:induction false} InvAlongRun(c: H.Config, x: nat, worlds: seq<World>, actions: seq<Action>, k: nat)
    requires IsRun(c, x, worlds, actions) && k < |worlds|
    ensures Inv(x, worlds[k])
    decreases k
  {
    hide Do, Enabled;
    if k > 0 {
      InvAlongRun(c, x, worlds, actions, k - 1);
      StepKeepsInv(c, x, worlds[k - 1], actions[k - 1]);
      assert worlds[k] == Do(c, x, worlds[k - 1], actions[k - 1]);
    }
  }

  lemma StepKeepsAccounted(c: H.Config, x: nat, w: World, a: Action, m: string, q: R.Quantity)
    requires Inv(x, w) && Enabled(c, w, a) && Accounted(x, w, m, q) && Fits(w, m, q) && m != ""
    ensures Accounted(x, Do(c, x, w, a), m, q)
  {
    match a
    case Open => OpenKeepsTotal(c, x, w, m, q); hide Inv, Total, R.Current;
    case Deliver(i, msg) => DeliverKeepsTotal(c, x, w, i, msg, m, q); hide Inv, Total, Next, R.Current;
    case Loop(b) => LoopKeepsAccounted(c, x, w, b, m, q); hide Inv, Do, Accounted;
    case Idle => hide Accounted;
  }

  /** In-flight accounting. In every interleaving of lifecycle-ordered streams with the
      event path, with no event dropped, each counter of m is at every moment the sum over
      the streams for m whose request event has been extracted and whose response event
      has not. */
  lemma {:induction false} InFlightAccounting(c: H.Config, x: nat, worlds: seq<World>, actions: seq<Action>, k: nat, m: string, q: R.Quantity)
    requires IsRun(c, x, worlds, actions) && k < |worlds| && m != ""
    requires forall j :: 0 <= j < k ==> Fits(worlds[j], m, q)
    ensures R.Current(worlds[k].counters, m, q) == Total(x, worlds[k], m, q)
    decreases k
  {
    hide Do, Enabled, Fits, Total, Inv;
    if k == 0 {
      assert Total(x, worlds[0], m, q) == 0 by { NothingInFlight(x, worlds[0], m, q); }
    } else {
      InFlightAccounting(c, x, worlds, actions, k - 1, m, q);
      InvAlongRun(c, x, worlds, actions, k - 1);
      StepKeepsAccounted(c, x, worlds[k - 1], actions[k - 1], m, q);
      assert worlds[k] == Do(c, x, worlds[k - 1], actions[k - 1]);
    }
  }

  lemma StepAccountedIff(c: H.Config, x: nat, w: World, a: Action, m: string, q: R.Quantity)
    requires Inv(x, w) && Enabled(c, w, a) && Accounted(x, w, m, q) && FitsSigned(w, m, q) && m != ""
    ensures var w' := Do(c, x, w, a); Accounted(x, w', m, q) <==> !Undershoots(x, w, a, w', m, q)
  {
    match a
    case Open => OpenKeepsTotal(c, x, w, m, q); hide Inv, Total, R.Current;
    case Deliver(i, msg) => DeliverKeepsTotal(c, x, w, i, msg, m, q); hide Inv, Total, Next, R.Current;
    case Loop(b) => LoopAccountedIff(c, x, w, b, m, q); hide Inv, Do, Accounted, Undershoots;
    case Idle => hide Accounted;
  }

  /** Amounts of either sign, such as a client's negative max_tokens: on a run, a counter of
      m has always been what is in flight if and only if no extracted response has ever
      taken what is in flight below zero. */
  lemma {:induction false} SignedAccountingIff(c: H.Config, x: nat, worlds: seq<World>, actions: seq<Action>, k: nat, m: string, q: R.Quantity)
    requires IsRun(c, x, worlds, actions) && k < |worlds| && m != ""
    requires forall j :: 0 <= j < k ==> FitsSigned(worlds[j], m, q)
    ensures (forall j :: 0 <= j <= k ==> Accounted(x, worlds[j], m, q))
       <==> forall j :: 0 <= j < k ==> !Undershoots(x, worlds[j], actions[j], worlds[j + 1], m, q)
    decreases k
  {
    hide Do, Enabled, FitsSigned, Inv, Undershoots;
    if k == 0 {
      assert Accounted(x, worlds[0], m, q) by { NothingInFlight(x, worlds[0], m, q); }
    } else {
      SignedAccountingIff(c, x, worlds, actions, k - 1, m, q);
      hide Accounted;
      InvAlongRun(c, x, worlds, actions, k - 1);
      assert worlds[k] == Do(c, x, worlds[k - 1], actions[k - 1]);
      assert Enabled(c, worlds[k - 1], actions[k - 1]) && FitsSigned(worlds[k - 1], m, q);
      var kept := forall j :: 0 <= j <= k - 1 ==> Accounted(x, worlds[j], m, q);
      if kept {
        StepAccountedIff(c, x, worlds[k - 1], actions[k - 1], m, q);
        assert Accounted(x, worlds[k], m, q) <==> !Undershoots(x, worlds[k - 1], actions[k - 1], worlds[k], m, q);
      }
      assert (forall j :: 0 <= j <= k ==> Accounted(x, worlds[j], m, q)) <==> kept && Accounted(x, worlds[k], m, q);
      assert (forall j :: 0 <= j < k ==> !Undershoots(x, worlds[j], actions[j], worlds[j + 1], m, q))
        <==> (forall j :: 0 <= j < k - 1 ==> !Undershoots(x, worlds[j], actions[j], worlds[j + 1], m, q))
             && !Undershoots(x, worlds[k - 1], actions[k - 1], worlds[k], m, q);
    }
  }

  lemma NothingInFlight(x: nat, w: World, m: string, q: R.Quantity)
    requires w.streams == []
    ensures Total(x, w, m, q) == 0
  {
  }

  /** The floor never fires: when a response event for m is extracted, the counter of m
      holds at least what is subtracted. */
  lemma FloorNeverFires(c: H.Config, x: nat, worlds: seq<World>, actions: seq<Action>, k: nat, m: string, q: R.Quantity)
    requires IsRun(c, x, worlds, actions) && k < |actions| && m != ""
    requires forall j :: 0 <= j <= k ==> Fits(worlds[j], m, q)
    requires actions[k].Loop? && Extracts(x, worlds[k], actions[k].a)
    requires var e := worlds[k].flow.loop.event; e.kind == H.ResponseEvent && R.Names(BodyOf(worlds[k], e.stream), m)
    ensures R.Current(worlds[k].counters, m, q) >= AmountOf(worlds[k], worlds[k].flow.loop.event.stream, q)
  {
    InFlightAccounting(c, x, worlds, actions, k, m, q);
    InvAlongRun(c, x, worlds, actions, k);
    assert Enabled(c, worlds[k], actions[k]);
    hide Do, IsRun, Inv, Total;
    ExtractChangesTotal(c, x, worlds[k], actions[k].a, m, q);
    AmountsAreBounded(x, worlds[k], m, q, worlds[k].flow.loop.event.stream);
  }

  // ------------------------------------------------------------------------------
  // Counting requests

  function InFlightStreams(x: nat, w: World, m: string, n: nat): set<nat> {
    set i: nat | i < n && IsInFlight(x, w, i, m)
  }

  lemma {:induction false} RequestTotalIsACount(x: nat, w: World, m: string, n: nat)
    ensures SumUpTo(n, (i: nat) => InFlightAmount(x, w, i, m, R.RequestCount)) == |InFlightStreams(x, w, m, n)|
  {
    hide IsInFlight;
    if n > 0 {
      RequestTotalIsACount(x, w, m, n - 1);
      assert InFlightStreams(x, w, m, n) == InFlightStreams(x, w, m, n - 1) + if IsInFlight(x, w, n - 1, m) then {n - 1} else {};
    }
  }

  lemma {:induction false} RequestsFit(w: World, m: string, n: nat)
    ensures SumUpTo(n, (i: nat) => StreamAmount(w, i, m, R.RequestCount)) <= n
  {
    hide R.ModelOf;
    if n > 0 { RequestsFit(w, m, n - 1); }
  }

  /** In particular, as long as there are fewer than 2^63 streams, `Requests[m]` is the
      number of streams in flight for m. */
  lemma RequestsCountsStreamsInFlight(c: H.Config, x: nat, worlds: seq<World>, actions: seq<Action>, k: nat, m: string)
    requires IsRun(c, x, worlds, actions) && k < |worlds| && m != ""
    requires forall j :: 0 <= j < k ==> |worlds[j].streams| <= R.MAX_INT64
    ensures R.Count(worlds[k].counters, m).requests == |InFlightStreams(x, worlds[k], m, |worlds[k].streams|)|
  {
    hide IsRun, R.ModelOf, Total;
    forall j | 0 <= j < k ensures Fits(worlds[j], m, R.RequestCount) {
      RequestsFit(worlds[j], m, |worlds[j].streams|);
    }
    InFlightAccounting(c, x, worlds, actions, k, m, R.RequestCount);
    RequestTotalIsACount(x, worlds[k], m, |worlds[k].streams|);
    assert Total(x, worlds[k], m, R.RequestCount) == SumUpTo(|worlds[k].streams|, (i: nat) => InFlightAmount(x, worlds[k], i, m, R.RequestCount)) by {
      TotalIsSum(x, worlds[k], m, R.RequestCount);
    }
  }

  lemma TotalIsSum(x: nat, w: World, m: string, q: R.Quantity)
    ensures Total(x, w, m, q) == SumUpTo(|w.streams|, (i: nat) => InFlightAmount(x, w, i, m, q))
  {
  }
}
