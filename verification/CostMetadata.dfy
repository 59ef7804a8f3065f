/** pkg/framework/plugins/datalayer/requestcostmetadata/plugin.go: a cost sample per usable
    response, and the snapshots published of them. A digest is the sequence of the samples
    added to it. */
module CostMetadata {
  import opened Wrappers
  import opened Messages
  import opened Datastores
  import opened RequestMetadata

  /** A response event carries the bodies of its request and its response. */
  datatype CostEvent = OnRequest | OnResponse(request: Body, response: Body)

  // ------------------------------------------------------------------------------
  // Token counts

  /** `fields[key].(float64)` when it is a positive number. */
  function Positive(fields: Body, key: string): (n: Option<real>)
    ensures n.Some? ==> n.value > 0.0
  {
    if key in fields && fields[key].JNumber? && fields[key].n > 0.0 then Some(fields[key].n) else None
  }

  datatype TokenCounts = TokenCounts(prompt: real, completion: real)

  function ReadCounts(fields: Body, prompt: string, completion: string): Option<TokenCounts> {
    var p := Positive(fields, prompt);
    var c := Positive(fields, completion);
    if p.Some? && c.Some? then Some(TokenCounts(p.value, c.value)) else None
  }

  /** The first format whose marker is present decides, even if its counts are unusable. */
  function ExtractTokenCounts(body: Body): Option<TokenCounts> {
    if "usageMetadata" in body && body["usageMetadata"].JObject? then
      ReadCounts(body["usageMetadata"].fields, "promptTokenCount", "candidatesTokenCount")
    else if "usage" in body && body["usage"].JObject? then
      var usage := body["usage"].fields;
      if "prompt_tokens" in usage then ReadCounts(usage, "prompt_tokens", "completion_tokens")
      else if "input_tokens" in usage then ReadCounts(usage, "input_tokens", "output_tokens")
      else None
    else None
  }

  // ------------------------------------------------------------------------------
  // Samples

  function PriceIn(r: Registry, m: string): Option<TokenPrices> {
    if m in r && TOKEN_PRICES in r[m] && r[m][TOKEN_PRICES].Prices? then Some(r[m][TOKEN_PRICES].prices) else None
  }

  /** The model an event may add a sample to; the empty string is none. */
  function Subject(e: CostEvent): string {
    if e.OnResponse? then ModelOf(e.request) else ""
  }

  function Cost(t: TokenCounts, p: TokenPrices): real {
    t.prompt * p.inputTokenPrice + t.completion * p.outputTokenPrice
  }

  /** The sample of an event for its model, under the prices of r: at most one. */
  function SampleOf(r: Registry, e: CostEvent): seq<real> {
    if Subject(e) == "" || PriceIn(r, Subject(e)).None? || ExtractTokenCounts(e.response).None? then []
    else [Cost(ExtractTokenCounts(e.response).value, PriceIn(r, Subject(e)).value)]
  }

  lemma SampleIs(r: Registry, e: CostEvent)
    ensures var m, p, t := Subject(e), PriceIn(r, Subject(e)), if e.OnResponse? then ExtractTokenCounts(e.response) else None;
            SampleOf(r, e) == if m == "" || p.None? || t.None? then [] else [Cost(t.value, p.value)]
  {
  }

  /** The samples that a sequence of events gives m, in order. */
  function Samples(r: Registry, events: seq<CostEvent>, m: string): seq<real> {
    if events == [] then []
    else
      var last := events[|events| - 1];
      Samples(r, events[..|events| - 1], m) + (if Subject(last) == m then SampleOf(r, last) else [])
  }

  lemma {:induction false} SamplesConcat(r: Registry, a: seq<CostEvent>, b: seq<CostEvent>, m: string)
    ensures Samples(r, a + b, m) == Samples(r, a, m) + Samples(r, b, m)
    decreases |b|
  {
    hide SampleOf, Subject;
    if b == [] {
      assert a + b == a;
    } else {
      SamplesConcat(r, a, b[..|b| - 1], m);
      assert (a + b)[..|a + b| - 1] == a + b[..|b| - 1];
    }
  }

  /** Only the prices matter. */
  lemma {:induction false} SamplesDependOnPrices(r: Registry, r': Registry, events: seq<CostEvent>, m: string)
    requires forall n :: PriceIn(r, n) == PriceIn(r', n)
    ensures Samples(r, events, m) == Samples(r', events, m)
  {
    hide PriceIn, ExtractTokenCounts, Subject;
    if events != [] {
      SamplesDependOnPrices(r, r', events[..|events| - 1], m);
      var last := events[|events| - 1];
      assert PriceIn(r, Subject(last)) == PriceIn(r', Subject(last));
    }
  }

  /** Every response event of a named model touches it: looking its price up creates it. */
  function TouchedBy(events: seq<CostEvent>): set<string> {
    if events == [] then {}
    else
      var m := Subject(events[|events| - 1]);
      TouchedBy(events[..|events| - 1]) + (if m == "" then {} else {m})
  }

  lemma {:induction false} SampledIsTouched(r: Registry, events: seq<CostEvent>, m: string)
    requires Samples(r, events, m) != []
    ensures m in TouchedBy(events)
  {
    hide ExtractTokenCounts, PriceIn;
    var last := events[|events| - 1];
    if Subject(last) != m || SampleOf(r, last) == [] {
      SampledIsTouched(r, events[..|events| - 1], m);
    }
  }

  // ------------------------------------------------------------------------------
  // Accumulators

  datatype Accumulator = Accumulator(digest: seq<real>, lastFlush: int)

  type State = map<string, Accumulator>

  function DigestOf(st: State, m: string): seq<real> { if m in st then st[m].digest else [] }

  /** getOrCreateAccumulator: a new accumulator counts as flushed now. */
  function AccumulatorOf(st: State, m: string, now: int): Accumulator {
    if m in st then st[m] else Accumulator([], now)
  }

  function AddSamples(st: State, r: Registry, events: seq<CostEvent>, now: int): State {
    if events == [] then st
    else
      var before, e := AddSamples(st, r, events[..|events| - 1], now), events[|events| - 1];
      if SampleOf(r, e) == [] then before
      else
        var acc := AccumulatorOf(before, Subject(e), now);
        before[Subject(e) := acc.(digest := acc.digest + SampleOf(r, e))]
  }

  /** What the accumulators of m are after a batch, given those before. */
  ghost predicate Accumulated(st: State, st': State, samples: seq<real>, now: int, m: string) {
    && DigestOf(st', m) == DigestOf(st, m) + samples
    && (m in st' <==> m in st || samples != [])
    && (m in st' ==> st'[m].lastFlush == AccumulatorOf(st, m, now).lastFlush)
  }

  lemma OneMoreSample(st: State, before: State, samples: seq<real>, now: int, m: string, subject: string, sample: seq<real>)
    requires Accumulated(st, before, samples, now, m) && sample != []
    ensures var acc := AccumulatorOf(before, subject, now);
            Accumulated(st, before[subject := acc.(digest := acc.digest + sample)], if subject == m then samples + sample else samples, now, m)
  {
    if subject == m {
      assert (DigestOf(st, m) + samples) + sample == DigestOf(st, m) + (samples + sample);
    }
  }

  /** One sample per usable response, each in the digest of its model. */
  lemma {:induction false} OneSamplePerUsableResponse(st: State, r: Registry, events: seq<CostEvent>, now: int, m: string)
    ensures Accumulated(st, AddSamples(st, r, events, now), Samples(r, events, m), now, m)
    decreases |events|
  {
    if events == [] {
      assert DigestOf(st, m) + [] == DigestOf(st, m);
    } else {
      var before, e := events[..|events| - 1], events[|events| - 1];
      OneSamplePerUsableResponse(st, r, before, now, m);
      hide ExtractTokenCounts, PriceIn, Subject, Cost, SampleOf, Accumulated;
      var samples := Samples(r, before, m);
      if SampleOf(r, e) == [] {
        assert samples + [] == samples;
      } else {
        OneMoreSample(st, AddSamples(st, r, before, now), samples, now, m, Subject(e), SampleOf(r, e));
        assert samples + [] == samples;
      }
    }
  }

  // ------------------------------------------------------------------------------
  // One batch

  /** m got a sample in this batch and its window has passed. */
  predicate Due(added: State, r: Registry, events: seq<CostEvent>, now: int, interval: nat, m: string) {
    && Samples(r, events, m) != []
    && m in added && DueNow(added[m], now, interval)
  }

  /** What one call of Extract does to the accumulators and the store. */
  ghost predicate Extracts(st: State, r: Registry, events: seq<CostEvent>, now: int, interval: nat, st': State, r': Registry) {
    var added := AddSamples(st, r, events, now);
    && st'.Keys == added.Keys
    && (forall m :: m in added ==> st'[m] == Flushed(added[m], Due(added, r, events, now, interval, m), now))
    && r'.Keys == r.Keys + TouchedBy(events)
    && forall m :: m in r' ==> r'[m] == WithSnapshot(AttributesOf(r, m), DigestOf(added, m), Due(added, r, events, now, interval, m))
  }

  function Flushed(acc: Accumulator, due: bool, now: int): Accumulator {
    if due then acc.(lastFlush := now) else acc
  }

  function WithSnapshot(attributes: Attributes, digest: seq<real>, due: bool): Attributes {
    if due then attributes[COST_DIGEST := CostDigest(digest)] else attributes
  }

  class RequestCostMetadataExtractor {
    const ds: Store
    const flushInterval: nat
    var state: State

    constructor (ds: Store, flushInterval: nat)
      ensures this.ds == ds && this.flushInterval == flushInterval && state == map[]
    {
      this.ds, this.flushInterval, state := ds, flushInterval, map[];
    }

    method LookupTokenPrices(model: string) returns (prices: Option<TokenPrices>)
      requires ds.Valid()
      modifies ds
      ensures ds.Valid() && fresh(ds.Repr() - old(ds.Repr()))
      ensures ds.Contents() == Created(old(ds.Contents()), model)
      ensures prices == PriceIn(old(ds.Contents()), model)
    {
      var m := ds.GetOrCreateModel(model);
      assert m.attributes == ds.Contents()[model];
      if TOKEN_PRICES !in m.attributes {
        return None;
      }
      if !m.attributes[TOKEN_PRICES].Prices? {
        return None;
      }
      return Some(m.attributes[TOKEN_PRICES].prices);
    }

    /** The loop over the events. Prices looked up once per batch are the prices of the
        store throughout, so the cache changes nothing. */
    method AddBatch(events: seq<CostEvent>, now: int) returns (updated: set<string>)
      requires ds.Valid() && this !in ds.Repr()
      modifies `state, ds
      ensures ds.Valid() && fresh(ds.Repr() - old(ds.Repr()))
      ensures state == AddSamples(old(state), old(ds.Contents()), events, now)
      ensures forall m :: m in updated <==> Samples(old(ds.Contents()), events, m) != []
      ensures ds.Contents() == TouchAll(old(ds.Contents()), events)
    {
      hide ExtractTokenCounts, ModelOf, PriceIn, Samples, AddSamples, SampleOf, TouchAll, Cost, Store.Contents, Store.Valid;
      ghost var r := ds.Contents();
      var tokenPricesCache: map<string, TokenPrices> := map[];
      updated := {};
      NoEvents(state, r, now);
      for i := 0 to |events|
        invariant ds.Valid() && fresh(ds.Repr() - old(ds.Repr())) && this !in ds.Repr()
        invariant state == AddSamples(old(state), r, events[..i], now)
        invariant forall m :: m in updated <==> Samples(r, events[..i], m) != []
        invariant ds.Contents() == TouchAll(r, events[..i])
        invariant forall m :: m in tokenPricesCache ==> PriceIn(r, m) == Some(tokenPricesCache[m]) && m in ds.Contents()
      {
        var ev := events[i];
        OneMoreEvent(old(state), r, events, i, now);
        SampleIs(r, ev);
        if !ev.OnResponse? {
          continue;
        }
        var model := ModelOf(ev.request);
        if model == "" {
          continue;
        }
        var tp: TokenPrices;
        if model in tokenPricesCache {
          tp := tokenPricesCache[model];
        } else {
          var found := LookupTokenPrices(model);
          TouchKeepsPrices(r, events[..i], model);
          if found.None? {
            continue;
          }
          tp := found.value;
          tokenPricesCache := tokenPricesCache[model := tp];
        }
        var counts := ExtractTokenCounts(ev.response);
        if counts.None? {
          continue;
        }
        var cost := Cost(counts.value, tp);
        var acc := AccumulatorOf(state, model, now);
        state := state[model := acc.(digest := acc.digest + [cost])];
        updated := updated + {model};
      }
      assert events[..|events|] == events;
    }

    /** Publish a snapshot of one updated model, unless its window is still open. */
    method FlushModel(model: string, now: int)
      requires ds.Valid() && this !in ds.Repr() && model in state
      modifies `state, ds.Repr()
      ensures ds.Valid() && fresh(ds.Repr() - old(ds.Repr()))
      ensures var acc := old(state)[model];
              if DueNow(acc, now, flushInterval)
              then && state == old(state)[model := acc.(lastFlush := now)]
                   && ds.Contents() == Upserted(old(ds.Contents()), model, COST_DIGEST, CostDigest(acc.digest))
              else state == old(state) && ds.Contents() == old(ds.Contents())
    {
      var acc := state[model];
      if flushInterval > 0 && now - acc.lastFlush < flushInterval {
        return;
      }
      state := state[model := acc.(lastFlush := now)];
      Upsert(ds, model, COST_DIGEST, CostDigest(acc.digest));
    }

    /** The loop over the updated models, in an arbitrary order. */
    method Flush(updated: set<string>, now: int)
      requires ds.Valid() && this !in ds.Repr()
      requires updated <= state.Keys && updated <= ds.Contents().Keys
      modifies `state, ds.Repr()
      ensures ds.Valid() && fresh(ds.Repr() - old(ds.Repr()))
      ensures FlushedUpTo(old(state), old(ds.Contents()), updated, now, flushInterval, state, ds.Contents())
    {
      hide FlushedUpTo, Upserted, DueNow, Store.Contents, Store.Valid;
      ghost var st, r := state, ds.Contents();
      var todo := updated;
      NothingFlushed(st, r, now, flushInterval);
      assert updated - todo == {};
      while todo != {}
        invariant todo <= updated && ds.Valid() && fresh(ds.Repr() - old(ds.Repr())) && this !in ds.Repr()
        invariant FlushedUpTo(st, r, updated - todo, now, flushInterval, state, ds.Contents())
        decreases |todo|
      {
        var model :| model in todo;
        FlushOne(st, r, updated - todo, now, flushInterval, state, ds.Contents(), model);
        assert updated - (todo - {model}) == (updated - todo) + {model};
        todo := todo - {model};
        FlushModel(model, now);
      }
      assert updated - todo == updated;
    }

    /** One batch of events. */
    method Extract(events: seq<CostEvent>, now: int)
      requires ds.Valid() && this !in ds.Repr()
      modifies this, ds.Repr()
      ensures ds.Valid() && fresh(ds.Repr() - old(ds.Repr()))
      ensures Extracts(old(state), old(ds.Contents()), events, now, flushInterval, state, ds.Contents())
    {
      hide TouchAll, Samples, AddSamples, TouchedBy, FlushedUpTo, Extracts, Store.Contents, Store.Valid;
      var updated := AddBatch(events, now);
      ghost var st, r := old(state), old(ds.Contents());
      UpdatedExist(st, r, events, now, updated);
      Flush(updated, now);
      FlushCompletes(st, r, events, now, flushInterval, updated, state, ds.Contents());
    }
  }

  /** The updated models are in the state and in the store. */
  lemma UpdatedExist(st: State, r: Registry, events: seq<CostEvent>, now: int, updated: set<string>)
    requires forall m :: m in updated <==> Samples(r, events, m) != []
    ensures updated <= AddSamples(st, r, events, now).Keys && updated <= TouchAll(r, events).Keys
  {
    TouchAllIs(r, events);
    hide TouchAll, Samples, AddSamples, TouchedBy;
    forall m | m in updated ensures m in TouchedBy(events) && m in AddSamples(st, r, events, now) {
      SampledIsTouched(r, events, m);
      OneSamplePerUsableResponse(st, r, events, now, m);
    }
  }

  lemma FlushCompletes(st: State, r: Registry, events: seq<CostEvent>, now: int, interval: nat, updated: set<string>, st': State, r': Registry)
    requires forall m :: m in updated <==> Samples(r, events, m) != []
    requires FlushedUpTo(AddSamples(st, r, events, now), TouchAll(r, events), updated, now, interval, st', r')
    ensures Extracts(st, r, events, now, interval, st', r')
  {
    TouchAllIs(r, events);
    hide TouchAll, Samples, AddSamples, TouchedBy, Flushed, WithSnapshot, DueNow;
  }

  predicate DueNow(acc: Accumulator, now: int, interval: nat) {
    interval == 0 || now - acc.lastFlush >= interval
  }

  /** Of the models in `done`, those that are due have been flushed. */
  ghost predicate FlushedUpTo(st: State, r: Registry, done: set<string>, now: int, interval: nat, st': State, r': Registry) {
    && st'.Keys == st.Keys && r'.Keys == r.Keys
    && (forall m :: m in st ==> st'[m] == Flushed(st[m], m in done && DueNow(st[m], now, interval), now))
    && forall m :: m in r ==> r'[m] == WithSnapshot(r[m], DigestOf(st, m), m in done && m in st && DueNow(st[m], now, interval))
  }

  lemma NothingFlushed(st: State, r: Registry, now: int, interval: nat)
    ensures FlushedUpTo(st, r, {}, now, interval, st, r)
  {
  }

  lemma FlushOne(st: State, r: Registry, done: set<string>, now: int, interval: nat, st': State, r': Registry, m: string)
    requires FlushedUpTo(st, r, done, now, interval, st', r') && m !in done && m in st && m in r
    ensures m in st' && m in r' && st'[m] == st[m]
    ensures !DueNow(st[m], now, interval) ==> FlushedUpTo(st, r, done + {m}, now, interval, st', r')
    ensures DueNow(st[m], now, interval) ==>
              FlushedUpTo(st, r, done + {m}, now, interval, st'[m := st[m].(lastFlush := now)], Upserted(r', m, COST_DIGEST, CostDigest(st[m].digest)))
  {
  }

  /** The store after the lookups. */
  function TouchAll(r: Registry, events: seq<CostEvent>): Registry {
    if events == [] then r
    else
      var m := Subject(events[|events| - 1]);
      var before := TouchAll(r, events[..|events| - 1]);
      if m == "" then before else Created(before, m)
  }

  lemma {:induction false} TouchAllIs(r: Registry, events: seq<CostEvent>)
    ensures TouchAll(r, events).Keys == r.Keys + TouchedBy(events)
    ensures forall m :: m in TouchAll(r, events) ==> TouchAll(r, events)[m] == AttributesOf(r, m)
  {
    hide Subject;
    if events != [] { TouchAllIs(r, events[..|events| - 1]); }
  }

  lemma TouchKeepsPrices(r: Registry, events: seq<CostEvent>, m: string)
    ensures PriceIn(TouchAll(r, events), m) == PriceIn(r, m)
  {
    TouchAllIs(r, events);
    hide TouchAll, TouchedBy;
  }

  lemma NoEvents(st: State, r: Registry, now: int)
    ensures AddSamples(st, r, [], now) == st && TouchAll(r, []) == r && forall m :: Samples(r, [], m) == []
  {
  }

  /** What event i adds to what the events before it did. */
  lemma OneMoreEvent(st: State, r: Registry, events: seq<CostEvent>, i: nat, now: int)
    requires i < |events|
    ensures var e := events[i];
            var m, before, sample := Subject(e), AddSamples(st, r, events[..i], now), SampleOf(r, e);
            && TouchAll(r, events[..i + 1]) == (if m == "" then TouchAll(r, events[..i]) else Created(TouchAll(r, events[..i]), m))
            && AddSamples(st, r, events[..i + 1], now) ==
                 (if sample == [] then before
                  else before[m := AccumulatorOf(before, m, now).(digest := AccumulatorOf(before, m, now).digest + sample)])
            && (forall n :: Samples(r, events[..i + 1], n) == Samples(r, events[..i], n) + (if m == n then sample else []))
  {
    hide SampleOf, Subject;
    assert events[..i + 1][..i] == events[..i];
  }

  // ------------------------------------------------------------------------------
  // One batch, said of the bodies' fields

  /** m has the price p in the store. */
  predicate HasPrice(r: Registry, m: string, p: TokenPrices) {
    m in r && "token_prices" in r[m] && r[m]["token_prices"] == Prices(p)
  }

  /** Two fields are the positive numbers x and y. */
  predicate HasCounts(fields: Body, prompt: string, completion: string, x: real, y: real) {
    && prompt in fields && fields[prompt] == JNumber(x) && x > 0.0
    && completion in fields && fields[completion] == JNumber(y) && y > 0.0
  }

  predicate HasObject(body: Body, key: string) { key in body && body[key].JObject? }

  /** A response of the Google format: no other marker is looked at. */
  predicate GoogleCounts(body: Body, x: real, y: real) {
    HasObject(body, "usageMetadata") && HasCounts(body["usageMetadata"].fields, "promptTokenCount", "candidatesTokenCount", x, y)
  }

  /** Of the OpenAI format: "prompt_tokens" is there, whatever its value. */
  predicate OpenAICounts(body: Body, x: real, y: real) {
    && !HasObject(body, "usageMetadata") && HasObject(body, "usage")
    && HasCounts(body["usage"].fields, "prompt_tokens", "completion_tokens", x, y)
  }

  /** Of the Anthropic format: "prompt_tokens" is not there. */
  predicate AnthropicCounts(body: Body, x: real, y: real) {
    && !HasObject(body, "usageMetadata") && HasObject(body, "usage") && "prompt_tokens" !in body["usage"].fields
    && HasCounts(body["usage"].fields, "input_tokens", "output_tokens", x, y)
  }

  /** The response counts x prompt and y completion tokens. */
  predicate CountsTokens(body: Body, x: real, y: real) {
    GoogleCounts(body, x, y) || OpenAICounts(body, x, y) || AnthropicCounts(body, x, y)
  }

  /** The event is a response to a request for m, which has the price p, and counts tokens. */
  predicate Usable(r: Registry, e: CostEvent, m: string, p: TokenPrices, x: real, y: real) {
    e.OnResponse? && m != "" && Names(e.request, m) && HasPrice(r, m, p) && CountsTokens(e.response, x, y)
  }

  /** Some event is a response to a request for m. */
  ghost predicate Answers(events: seq<CostEvent>, m: string) {
    exists i :: 0 <= i < |events| && events[i].OnResponse? && m != "" && Names(events[i].request, m)
  }

  lemma CountsAreRead(body: Body, x: real, y: real)
    ensures CountsTokens(body, x, y) <==> ExtractTokenCounts(body) == Some(TokenCounts(x, y))
  {
  }

  /** The sample of a usable response, for its model and no other. */
  lemma UsableIsSampled(r: Registry, e: CostEvent, m: string, p: TokenPrices, x: real, y: real, n: string)
    requires Usable(r, e, m, p, x, y)
    ensures Samples(r, [e], n) == if n == m then [x * p.inputTokenPrice + y * p.outputTokenPrice] else []
  {
    ModelOfIs(e.request, m);
    CountsAreRead(e.response, x, y);
    OneEventSamples(r, e, n);
    hide ModelOf, ExtractTokenCounts, CountsTokens;
    assert Subject(e) == m && PriceIn(r, m) == Some(p);
    CostOfCounts(x, y, p);
    assert SampleOf(r, e) == [Cost(TokenCounts(x, y), p)];
    hide Cost;
  }

  lemma CostOfCounts(x: real, y: real, p: TokenPrices)
    ensures Cost(TokenCounts(x, y), p) == x * p.inputTokenPrice + y * p.outputTokenPrice
  {
  }

  /** Whatever gives m a sample is usable for m. */
  lemma SampledIsUsable(r: Registry, e: CostEvent, m: string)
    requires Samples(r, [e], m) != []
    ensures exists p, x, y :: Usable(r, e, m, p, x, y)
  {
    OneEventSamples(r, e, m);
    var t := ExtractTokenCounts(e.response).value;
    ModelOfIs(e.request, m);
    CountsAreRead(e.response, t.prompt, t.completion);
    hide ModelOf, ExtractTokenCounts, CountsTokens;
    assert Usable(r, e, m, PriceIn(r, m).value, t.prompt, t.completion);
  }

  lemma OneEventSamples(r: Registry, e: CostEvent, n: string)
    ensures Samples(r, [e], n) == if Subject(e) == n then SampleOf(r, e) else []
  {
    assert [e][..0] == [] && Samples(r, [], n) == [];
  }

  lemma {:induction false} TouchedByIs(events: seq<CostEvent>, m: string)
    ensures m in TouchedBy(events) <==> Answers(events, m)
    decreases |events|
  {
    if events != [] {
      var before, last := events[..|events| - 1], events[|events| - 1];
      TouchedByIs(before, m);
      if last.OnResponse? { ModelOfIs(last.request, m); }
      hide ModelOf;
      if Answers(events, m) && !(last.OnResponse? && m != "" && Names(last.request, m)) {
        var i :| 0 <= i < |events| && events[i].OnResponse? && m != "" && Names(events[i].request, m);
        assert before[i] == events[i];
      }
      if i :| 0 <= i < |before| && before[i].OnResponse? && m != "" && Names(before[i].request, m) {
        assert events[i] == before[i];
      }
    }
  }

  /** What a batch leaves of a model: its samples behind its digest; with a sample and its
      window passed, a new flush time and a snapshot of the digest, and else neither; and
      the model is there if it was or some response answers a request for it. A model's
      first sample opens its window. */
  lemma BatchLeaves(st: State, r: Registry, events: seq<CostEvent>, now: int, interval: nat, st': State, r': Registry, m: string)
    requires Extracts(st, r, events, now, interval, st', r')
    ensures var samples, last := Samples(r, events, m), if m in st then st[m].lastFlush else now;
            var digest := (if m in st then st[m].digest else []) + samples;
            var due := samples != [] && (interval == 0 || now - last >= interval);
            && (m in st' <==> m in st || samples != [])
            && (m in st' ==> st'[m] == Accumulator(digest, if due then now else last))
            && (m in r' <==> m in r || Answers(events, m))
            && (m in r' ==> r'[m] == (if m in r then r[m] else map[]) + if due then map["cost_digest" := CostDigest(digest)] else map[])
  {
    OneSamplePerUsableResponse(st, r, events, now, m);
    TouchedByIs(events, m);
    hide AddSamples, Samples, TouchedBy, Answers;
    var added := AddSamples(st, r, events, now);
    assert m in r' <==> m in r || m in TouchedBy(events);
    assert m in st' <==> m in added;
    assert m in added ==> st'[m] == Flushed(added[m], Due(added, r, events, now, interval, m), now);
    assert m in r' ==> r'[m] == WithSnapshot(AttributesOf(r, m), DigestOf(added, m), Due(added, r, events, now, interval, m));
    hide Extracts;
  }

  /** A batch of one response that answers a request for m, in the three formats: if it is
      usable, exactly the one sample is added, its tokens at m's prices; if not, none. */
  lemma ResponseIsAccounted(st: State, r: Registry, e: CostEvent, now: int, interval: nat, st': State, r': Registry, m: string)
    requires Extracts(st, r, [e], now, interval, st', r')
    requires e.OnResponse? && "model" in e.request && e.request["model"] == JString(m) && m != ""
    ensures forall p, x, y :: HasPrice(r, m, p) && CountsTokens(e.response, x, y) ==>
              st'.Keys == st.Keys + {m} && st'[m].digest == (if m in st then st[m].digest else []) + [x * p.inputTokenPrice + y * p.outputTokenPrice]
    ensures (forall p :: !HasPrice(r, m, p)) || (forall x, y :: !CountsTokens(e.response, x, y)) ==> st' == st
    ensures forall n :: n in st && n != m ==> n in st' && st'[n] == st[n]
    ensures r'.Keys == r.Keys + {m}
  {
    hide Extracts, CountsTokens, HasPrice, Samples;
    forall n ensures n in r' <==> n in r || n == m {
      BatchLeaves(st, r, [e], now, interval, st', r', n);
      AnswersOne(e, m, n);
    }
    forall n ensures n != m || (forall p, x, y :: !Usable(r, e, m, p, x, y)) ==> (n in st' <==> n in st) && (n in st ==> st'[n] == st[n]) {
      BatchLeaves(st, r, [e], now, interval, st', r', n);
      if Samples(r, [e], n) != [] { SampledIsUsable(r, e, n); }
    }
    forall p, x, y | HasPrice(r, m, p) && CountsTokens(e.response, x, y)
      ensures m in st' && st'[m].digest == (if m in st then st[m].digest else []) + [x * p.inputTokenPrice + y * p.outputTokenPrice]
    {
      BatchLeaves(st, r, [e], now, interval, st', r', m);
      UsableIsSampled(r, e, m, p, x, y, m);
    }
  }

  lemma AnswersOne(e: CostEvent, m: string, n: string)
    requires e.OnResponse? && Names(e.request, m) && m != ""
    ensures Answers([e], n) <==> n == m
  {
    assert [e][0] == e;
  }

  /** A request event, or a response to a request that names no model, changes nothing. */
  lemma OthersAreNotAccounted(st: State, r: Registry, e: CostEvent, now: int, interval: nat, st': State, r': Registry)
    requires Extracts(st, r, [e], now, interval, st', r')
    requires e.OnRequest? || "model" !in e.request || !e.request["model"].JString? || e.request["model"].s == ""
    ensures st' == st && r' == r
  {
    hide Extracts, Samples;
    forall m ensures (m in st' <==> m in st) && (m in st ==> st'[m] == st[m]) && (m in r' <==> m in r) && (m in r ==> r'[m] == r[m]) {
      BatchLeaves(st, r, [e], now, interval, st', r', m);
      if Samples(r, [e], m) != [] { SampledIsUsable(r, e, m); }
      assert !Answers([e], m);
    }
  }

  // ------------------------------------------------------------------------------
  // Histories

  /** A batch of events, or anything the rest of the system does to the store: prices may
      change and models be deleted, but nobody else publishes digests. */
  datatype Action = Batch(events: seq<CostEvent>, now: int) | Elsewhere

  datatype World = World(st: State, r: Registry)

  function SnapshotIn(r: Registry, m: string): Option<Attribute> {
    if m in r && COST_DIGEST in r[m] then Some(r[m][COST_DIGEST]) else None
  }

  ghost predicate Step(w: World, a: Action, interval: nat, w': World) {
    match a
    case Batch(events, now) => Extracts(w.st, w.r, events, now, interval, w'.st, w'.r)
    case Elsewhere => w'.st == w.st && forall m :: SnapshotIn(w'.r, m) == SnapshotIn(w.r, m) || SnapshotIn(w'.r, m) == None
  }

  /** A run from an extractor that has seen nothing. */
  ghost predicate IsRun(ws: seq<World>, actions: seq<Action>, interval: nat) {
    && |ws| == |actions| + 1
    && ws[0].st == map[] && (forall m :: SnapshotIn(ws[0].r, m) == None)
    && forall i :: 0 <= i < |actions| ==> Step(ws[i], actions[i], interval, ws[i + 1])
  }

  /** The samples of a run for m, each under the prices its batch found. */
  function RunSamples(ws: seq<World>, actions: seq<Action>, m: string): seq<real>
    requires |ws| == |actions| + 1
  {
    if actions == [] then []
    else
      var n := |actions| - 1;
      RunSamples(ws[..n + 1], actions[..n], m) + (if actions[n].Batch? then Samples(ws[n].r, actions[n].events, m) else [])
  }

  /** The snapshot of m has been deleted, with its model, since the last sample for m. */
  ghost predicate Withdrawn(ws: seq<World>, actions: seq<Action>, m: string)
    requires |ws| == |actions| + 1
  {
    if actions == [] then false
    else
      var n := |actions| - 1;
      match actions[n]
      case Batch(events, _) => Samples(ws[n].r, events, m) == [] && Withdrawn(ws[..n + 1], actions[..n], m)
      case Elsewhere =>
        (SnapshotIn(ws[n].r, m).Some? && SnapshotIn(ws[n + 1].r, m).None?) || Withdrawn(ws[..n + 1], actions[..n], m)
  }

  /** A published snapshot is a prefix of the digest; with interval 0 and not withdrawn, all
      of it. */
  ghost predicate SnapshotOk(w: World, m: string, interval: nat, withdrawn: bool) {
    var digest := DigestOf(w.st, m);
    && (SnapshotIn(w.r, m).Some? ==> SnapshotIn(w.r, m).value.CostDigest? && SnapshotIn(w.r, m).value.samples <= digest)
    && (interval == 0 ==> SnapshotIn(w.r, m) == if digest == [] || withdrawn then None else Some(CostDigest(digest)))
  }

  /** What a batch does at one model. */
  lemma BatchAt(w: World, events: seq<CostEvent>, now: int, interval: nat, w': World, m: string) returns (due: bool)
    requires Extracts(w.st, w.r, events, now, interval, w'.st, w'.r)
    ensures DigestOf(w'.st, m) == DigestOf(w.st, m) + Samples(w.r, events, m)
    ensures SnapshotIn(w'.r, m) == if due then Some(CostDigest(DigestOf(w'.st, m))) else SnapshotIn(w.r, m)
    ensures PriceIn(w'.r, m) == PriceIn(w.r, m)
    ensures due ==> Samples(w.r, events, m) != []
    ensures interval == 0 && Samples(w.r, events, m) != [] ==> due
  {
    OneSamplePerUsableResponse(w.st, w.r, events, now, m);
    if Samples(w.r, events, m) != [] { SampledIsTouched(w.r, events, m); }
    hide AddSamples, Samples, TouchedBy;
    var added := AddSamples(w.st, w.r, events, now);
    due := Due(added, w.r, events, now, interval, m);
    assert m in w'.r <==> m in w.r || m in TouchedBy(events);
    assert m in w'.r ==> w'.r[m] == WithSnapshot(AttributesOf(w.r, m), DigestOf(added, m), due);
    assert w'.st.Keys == added.Keys && (m in added ==> w'.st[m] == Flushed(added[m], due, now));
    assert interval == 0 && Samples(w.r, events, m) != [] ==> due;
    assert due ==> m in TouchedBy(events) && Samples(w.r, events, m) != [];
    hide Extracts, Due, DueNow;
    SnapshotAt(w.r, w'.r, m, DigestOf(added, m), due);
    hide WithSnapshot, PriceIn, SnapshotIn, AttributesOf;
    assert DigestOf(w'.st, m) == DigestOf(added, m);
  }

  lemma SnapshotAt(r: Registry, r': Registry, m: string, digest: seq<real>, due: bool)
    requires m in r ==> m in r'
    requires m in r' ==> r'[m] == WithSnapshot(AttributesOf(r, m), digest, due)
    requires due ==> m in r'
    ensures SnapshotIn(r', m) == if due then Some(CostDigest(digest)) else SnapshotIn(r, m)
    ensures PriceIn(r', m) == PriceIn(r, m)
  {
  }

  lemma BatchStep(w: World, events: seq<CostEvent>, now: int, interval: nat, w': World, m: string, withdrawn: bool)
    requires Extracts(w.st, w.r, events, now, interval, w'.st, w'.r)
    ensures DigestOf(w'.st, m) == DigestOf(w.st, m) + Samples(w.r, events, m)
    ensures SnapshotOk(w, m, interval, withdrawn) ==> SnapshotOk(w', m, interval, withdrawn && Samples(w.r, events, m) == [])
  {
    hide Extracts, Samples, DigestOf, SnapshotIn, PriceIn;
    var due := BatchAt(w, events, now, interval, w', m);
    assert DigestOf(w.st, m) <= DigestOf(w'.st, m);
    if !due && interval == 0 {
      assert DigestOf(w.st, m) + [] == DigestOf(w.st, m);
    }
  }

  /** Cost snapshots: after every run, whatever happens to prices and models meanwhile, the
      digest of a model is the sequence of its samples; a published snapshot is a prefix of
      it, and with flush interval 0 the whole of it, unless the model was deleted since. */
  lemma {:induction false} SnapshotsArePrefixes(ws: seq<World>, actions: seq<Action>, interval: nat, m: string)
    requires IsRun(ws, actions, interval)
    ensures DigestOf(ws[|actions|].st, m) == RunSamples(ws, actions, m)
    ensures SnapshotOk(ws[|actions|], m, interval, Withdrawn(ws, actions, m))
    decreases |actions|
  {
    hide Extracts, Samples, SnapshotOk, SnapshotIn;
    if actions == [] {
      FreshWorld(ws[0], m, interval);
      return;
    }
    var n := |actions| - 1;
    var a, w, w' := actions[n], ws[n], ws[n + 1];
    SnapshotsArePrefixes(ws[..n + 1], actions[..n], interval, m);
    assert Step(w, a, interval, w');
    if a.Batch? {
      BatchStep(w, a.events, a.now, interval, w', m, Withdrawn(ws[..n + 1], actions[..n], m));
    } else {
      ElsewhereStep(w, w', m, interval, Withdrawn(ws[..n + 1], actions[..n], m));
      assert RunSamples(ws[..n + 1], actions[..n], m) + [] == RunSamples(ws[..n + 1], actions[..n], m);
    }
  }

  lemma FreshWorld(w: World, m: string, interval: nat)
    requires w.st == map[] && SnapshotIn(w.r, m) == None
    ensures DigestOf(w.st, m) == [] && SnapshotOk(w, m, interval, false)
  {
  }

  lemma ElsewhereStep(w: World, w': World, m: string, interval: nat, withdrawn: bool)
    requires SnapshotOk(w, m, interval, withdrawn) && w'.st == w.st
    requires SnapshotIn(w'.r, m) == SnapshotIn(w.r, m) || SnapshotIn(w'.r, m) == None
    ensures SnapshotOk(w', m, interval, (SnapshotIn(w.r, m).Some? && SnapshotIn(w'.r, m).None?) || withdrawn)
  {
  }

  /** All events of a run, in order. */
  function EventsOf(actions: seq<Action>): seq<CostEvent> {
    if actions == [] then []
    else
      var last := actions[|actions| - 1];
      EventsOf(actions[..|actions| - 1]) + (if last.Batch? then last.events else [])
  }

  /** While prices stand, batches do not matter: the samples are those of all events. */
  lemma {:induction false} BatchesDoNotMatter(ws: seq<World>, actions: seq<Action>, m: string)
    requires |ws| == |actions| + 1
    requires forall i :: 0 <= i < |ws| ==> forall n :: PriceIn(ws[i].r, n) == PriceIn(ws[0].r, n)
    ensures RunSamples(ws, actions, m) == Samples(ws[0].r, EventsOf(actions), m)
    decreases |actions|
  {
    hide PriceIn, Samples;
    if actions == [] {
      NoSamples(ws[0].r, m);
    } else {
      var n := |actions| - 1;
      var a := actions[n];
      BatchesDoNotMatter(ws[..n + 1], actions[..n], m);
      if a.Batch? {
        SamplesDependOnPrices(ws[n].r, ws[0].r, a.events, m);
        SamplesConcat(ws[0].r, EventsOf(actions[..n]), a.events, m);
      } else {
        assert EventsOf(actions[..n]) + [] == EventsOf(actions[..n]);
      }
    }
  }

  lemma NoSamples(r: Registry, m: string)
    ensures Samples(r, [], m) == []
  {
  }
}
