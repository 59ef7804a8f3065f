/** pkg/framework/plugins/datalayer/requestmetadata/plugin.go: in-flight counters per
    model, floored at zero, and the law they obey on every history of events. */
module RequestMetadata {
  import opened Wrappers
  import opened Messages
  import opened Datastores

  const MAX_INT64: int := 0x7fff_ffff_ffff_ffff

  /** Two's-complement int64 arithmetic. */
  function Wrap64(x: int): int {
    (x + MAX_INT64 + 1) % (2 * (MAX_INT64 + 1)) - (MAX_INT64 + 1)
  }

  function Truncate(n: real): int {
    if n >= 0.0 then n.Floor else -((-n).Floor)
  }

  // ------------------------------------------------------------------------------
  // What an event says

  /** `Body["model"].(string)`, or the empty string. */
  function ModelOf(body: Body): string {
    if "model" in body && body["model"].JString? then body["model"].s else ""
  }

  /** `int64(Body["max_tokens"].(float64))`, or zero. */
  function TokensOf(body: Body): int {
    if "max_tokens" in body && body["max_tokens"].JNumber? then Wrap64(Truncate(body["max_tokens"].n)) else 0
  }

  /** One event as the extractor sees it when it reads the request's body. */
  datatype Observation = Observation(isRequest: bool, model: string, tokens: int)

  function Observe(isRequest: bool, body: Body): Observation {
    Observation(isRequest, ModelOf(body), TokensOf(body))
  }

  // ------------------------------------------------------------------------------
  // The same, said of the body's fields

  /** The body's "model" field is the string m. */
  predicate Names(body: Body, m: string) { "model" in body && body["model"] == JString(m) }

  /** It names a model. */
  ghost predicate IsNamed(body: Body) { exists m :: m != "" && Names(body, m) }

  /** k is n without its fraction: the integer nearest to n between 0 and n. */
  predicate IsIntegerPart(n: real, k: int) {
    if n >= 0.0 then 0.0 <= k as real <= n && n - k as real < 1.0 else n <= k as real <= 0.0 && k as real - n < 1.0
  }

  /** The body asks for k tokens: k is the integer part of its numeric "max_tokens", or 0. */
  predicate Asks(body: Body, k: int) {
    if "max_tokens" in body && body["max_tokens"].JNumber? then IsIntegerPart(body["max_tokens"].n, k) else k == 0
  }

  predicate IsInt64(x: int) { -0x8000_0000_0000_0000 <= x < 0x8000_0000_0000_0000 }

  lemma ModelOfIs(body: Body, m: string)
    ensures m != "" ==> (ModelOf(body) == m <==> Names(body, m))
    ensures ModelOf(body) != "" <==> IsNamed(body)
  {
    if ModelOf(body) != "" {
      assert Names(body, ModelOf(body));
    }
  }

  lemma TokensOfIs(body: Body, k: int)
    requires Asks(body, k) && IsInt64(k)
    ensures TokensOf(body) == k
  {
    if "max_tokens" in body && body["max_tokens"].JNumber? {
      var n := body["max_tokens"].n;
      IntegerPart(n, k);
      Wraps(k);
      hide Wrap64, Truncate;
    }
  }

  lemma IntegerPart(n: real, k: int)
    ensures Truncate(n) == k <==> IsIntegerPart(n, k)
  {
    var a := if n >= 0.0 then n else -n;
    var f := a.Floor;
    assert f as real <= a && a - f as real < 1.0;
  }

  /** Wrap64 is the int64 that is congruent modulo 2^64. */
  lemma Wraps(x: int)
    ensures IsInt64(Wrap64(x)) && (Wrap64(x) - x) % 0x1_0000_0000_0000_0000 == 0
    ensures IsInt64(x) ==> Wrap64(x) == x
  {
  }

  // ------------------------------------------------------------------------------
  // The counters

  type Counters = map<string, RequestMetadataCount>

  function Count(cs: Counters, m: string): RequestMetadataCount {
    if m in cs then cs[m] else RequestMetadataCount(0, 0)
  }

  function FloorDecrement(v: int, delta: int): int {
    if Wrap64(v - delta) < 0 then 0 else Wrap64(v - delta)
  }

  function Updated(c: RequestMetadataCount, o: Observation): RequestMetadataCount {
    if o.isRequest
    then RequestMetadataCount(Wrap64(c.requests + 1), Wrap64(c.tokens + o.tokens))
    else RequestMetadataCount(FloorDecrement(c.requests, 1), FloorDecrement(c.tokens, o.tokens))
  }

  function Account(cs: Counters, o: Observation): Counters {
    if o.model == "" then cs else cs[o.model := Updated(Count(cs, o.model), o)]
  }

  function AccountAll(cs: Counters, os: seq<Observation>): Counters
    decreases |os|
  {
    if os == [] then cs else Account(AccountAll(cs, os[..|os| - 1]), os[|os| - 1])
  }

  /** Batches do not matter: accounting for a history in two calls is accounting for it in one. */
  lemma {:induction false} BatchesDoNotMatter(cs: Counters, a: seq<Observation>, b: seq<Observation>)
    ensures AccountAll(AccountAll(cs, a), b) == AccountAll(cs, a + b)
    decreases |b|
  {
    hide Account;
    if b == [] {
      assert a + b == a;
    } else {
      BatchesDoNotMatter(cs, a, b[..|b| - 1]);
      assert (a + b)[..|a + b| - 1] == a + b[..|b| - 1];
    }
  }

  // ------------------------------------------------------------------------------
  // The reflection law

  /** Which of the two counters is meant. */
  datatype Quantity = RequestCount | TokenSum

  function Amount(o: Observation, q: Quantity): int {
    match q case RequestCount => 1 case TokenSum => o.tokens
  }

  function Current(cs: Counters, m: string, q: Quantity): int {
    match q case RequestCount => Count(cs, m).requests case TokenSum => Count(cs, m).tokens
  }

  /** Requests minus responses for m in a history. */
  function Net(os: seq<Observation>, m: string, q: Quantity): int {
    if os == [] then 0
    else Net(os[..|os| - 1], m, q) + Change(os[|os| - 1], m, q)
  }

  function Change(o: Observation, m: string, q: Quantity): int {
    if o.model != m then 0 else if o.isRequest then Amount(o, q) else -Amount(o, q)
  }

  /** The most that has come in for m. */
  function Incoming(os: seq<Observation>, m: string, q: Quantity): int {
    if os == [] then 0
    else
      var o := os[|os| - 1];
      Incoming(os[..|os| - 1], m, q) + (if o.model == m && o.isRequest then Amount(o, q) else 0)
  }

  /** x is the largest net of any suffix of the history, the empty one included. */
  ghost predicate IsMaxSuffixNet(x: int, os: seq<Observation>, m: string, q: Quantity) {
    && (forall k :: 0 <= k <= |os| ==> Net(os[k..], m, q) <= x)
    && exists k :: 0 <= k <= |os| && Net(os[k..], m, q) == x
  }

  /** Amounts are not negative, and what comes in for m fits an int64. */
  ghost predicate Representable(os: seq<Observation>, m: string, q: Quantity) {
    (forall i :: 0 <= i < |os| ==> os[i].model == m ==> 0 <= Amount(os[i], q) <= MAX_INT64) && Incoming(os, m, q) <= MAX_INT64
  }

  lemma SuffixOfSnoc(os: seq<Observation>, m: string, q: Quantity, k: nat)
    requires os != [] && k <= |os|
    ensures Net(os[k..], m, q) == if k == |os| then 0 else Net(os[..|os| - 1][k..], m, q) + Change(os[|os| - 1], m, q)
  {
    if k < |os| {
      assert os[k..][..|os| - k - 1] == os[..|os| - 1][k..];
    }
  }

  lemma RepresentableBefore(os: seq<Observation>, m: string, q: Quantity)
    requires os != [] && Representable(os, m, q)
    ensures Representable(os[..|os| - 1], m, q)
  {
    var before := os[..|os| - 1];
    assert forall i :: 0 <= i < |before| ==> before[i] == os[i];
    assert os[|os| - 1].model == m ==> Amount(os[|os| - 1], q) >= 0;
  }

  lemma CurrentStep(cs: Counters, o: Observation, m: string, q: Quantity)
    requires m != ""
    requires o.model == m ==> 0 <= Amount(o, q) <= MAX_INT64
    requires 0 <= Current(cs, m, q) && Current(cs, m, q) + (if o.model == m && o.isRequest then Amount(o, q) else 0) <= MAX_INT64
    ensures var x := Current(cs, m, q) + Change(o, m, q); Current(Account(cs, o), m, q) == if x < 0 then 0 else x
  {
    if o.model == m {
      NoWrap(Current(cs, m, q) + Change(o, m, q));
      hide Wrap64;
    }
  }

  lemma NoWrap(x: int)
    requires -MAX_INT64 <= x <= MAX_INT64
    ensures Wrap64(x) == x
  {
  }

  /** Reflection law: on every history, matched or not, the floored counter of m is the
      largest net of any suffix; so it is never negative and depends on nothing else. */
  lemma {:induction false} ReflectionLaw(os: seq<Observation>, m: string, q: Quantity)
    requires m != "" && Representable(os, m, q)
    ensures IsMaxSuffixNet(Current(AccountAll(map[], os), m, q), os, m, q)
    ensures 0 <= Current(AccountAll(map[], os), m, q) <= Incoming(os, m, q)
    decreases |os|
  {
    if os == [] {
      assert Net(os[0..], m, q) == 0;
    } else {
      var before, o := os[..|os| - 1], os[|os| - 1];
      RepresentableBefore(os, m, q);
      ReflectionLaw(before, m, q);
      var r := Current(AccountAll(map[], before), m, q);
      CurrentStep(AccountAll(map[], before), o, m, q);
      hide Account, Current;
      var x := Current(AccountAll(map[], os), m, q);
      forall k | 0 <= k <= |os| ensures Net(os[k..], m, q) <= x {
        SuffixOfSnoc(os, m, q, k);
      }
      if x == 0 {
        assert Net(os[|os|..], m, q) == 0;
      } else {
        var k :| 0 <= k <= |before| && Net(before[k..], m, q) == r;
        SuffixOfSnoc(os, m, q, k);
      }
    }
  }

  /** There is only one such number: the law determines the counter. */
  lemma MaxSuffixNetIsUnique(x: int, y: int, os: seq<Observation>, m: string, q: Quantity)
    requires IsMaxSuffixNet(x, os, m, q) && IsMaxSuffixNet(y, os, m, q)
    ensures x == y
  {
  }

  // ------------------------------------------------------------------------------
  // The law when amounts may be negative, as max_tokens may

  function Abs(x: int): int { if x < 0 then -x else x }

  /** All amounts for m, taken as positive, added up. */
  function Volume(os: seq<Observation>, m: string, q: Quantity): int {
    if os == [] then 0
    else
      var o := os[|os| - 1];
      Volume(os[..|os| - 1], m, q) + (if o.model == m then Abs(Amount(o, q)) else 0)
  }

  /** Where the floor can act: at the start, and right after a response for m. */
  predicate ResetPoint(os: seq<Observation>, m: string, k: nat) {
    k == 0 || (k <= |os| && os[k - 1].model == m && !os[k - 1].isRequest)
  }

  /** x is the largest net of any suffix that starts at a reset point. */
  ghost predicate IsMaxResetNet(x: int, os: seq<Observation>, m: string, q: Quantity) {
    && (forall k :: 0 <= k <= |os| && ResetPoint(os, m, k) ==> Net(os[k..], m, q) <= x)
    && exists k :: 0 <= k <= |os| && ResetPoint(os, m, k) && Net(os[k..], m, q) == x
  }

  /** Only responses are floored. */
  lemma SignedStep(cs: Counters, o: Observation, m: string, q: Quantity)
    requires m != "" && Abs(Current(cs, m, q) + Change(o, m, q)) <= MAX_INT64
    ensures var x := Current(cs, m, q) + Change(o, m, q);
            Current(Account(cs, o), m, q) == if o.model == m && !o.isRequest && x < 0 then 0 else x
  {
    if o.model == m {
      NoWrap(Current(cs, m, q) + Change(o, m, q));
      hide Wrap64;
    }
  }

  /** How one more event moves the largest net. */
  lemma ResetNetStep(os: seq<Observation>, m: string, q: Quantity, r: int, x: int)
    requires os != [] && IsMaxResetNet(r, os[..|os| - 1], m, q)
    requires var o := os[|os| - 1]; var y := r + Change(o, m, q); x == if o.model == m && !o.isRequest && y < 0 then 0 else y
    ensures IsMaxResetNet(x, os, m, q)
  {
    var before, o := os[..|os| - 1], os[|os| - 1];
    forall k | 0 <= k <= |os| && ResetPoint(os, m, k) ensures Net(os[k..], m, q) <= x {
      SuffixOfSnoc(os, m, q, k);
      assert k <= |before| ==> ResetPoint(before, m, k);
    }
    if o.model == m && !o.isRequest && x == 0 {
      assert ResetPoint(os, m, |os|) && Net(os[|os|..], m, q) == 0;
    } else {
      var k :| 0 <= k <= |before| && ResetPoint(before, m, k) && Net(before[k..], m, q) == r;
      SuffixOfSnoc(os, m, q, k);
      assert ResetPoint(os, m, k);
    }
  }

  /** The reflection law for amounts of either sign: the counter of m is the largest net of
      any suffix that starts where the floor can act. */
  lemma {:induction false} SignedReflectionLaw(os: seq<Observation>, m: string, q: Quantity)
    requires m != "" && Volume(os, m, q) <= MAX_INT64
    ensures IsMaxResetNet(Current(AccountAll(map[], os), m, q), os, m, q)
    ensures Abs(Current(AccountAll(map[], os), m, q)) <= Volume(os, m, q)
    decreases |os|
  {
    if os == [] {
      assert ResetPoint(os, m, 0) && Net(os[0..], m, q) == 0;
    } else {
      hide Account, Current, IsMaxResetNet;
      var before, o := os[..|os| - 1], os[|os| - 1];
      SignedReflectionLaw(before, m, q);
      SignedStep(AccountAll(map[], before), o, m, q);
      ResetNetStep(os, m, q, Current(AccountAll(map[], before), m, q), Current(AccountAll(map[], os), m, q));
    }
  }

  /** Exactly when a counter is not negative: if and only if the net of some suffix that
      starts where the floor can act is not. */
  lemma NonNegativeIff(os: seq<Observation>, m: string, q: Quantity)
    requires m != "" && Volume(os, m, q) <= MAX_INT64
    ensures Current(AccountAll(map[], os), m, q) >= 0
       <==> exists k :: 0 <= k <= |os| && ResetPoint(os, m, k) && Net(os[k..], m, q) >= 0
  {
    SignedReflectionLaw(os, m, q);
  }

  /** For instance, one request with max_tokens -5 leaves a token counter of -5. A request
      and its response for 3 tokens then raise it to 0, although the first is still open. */
  lemma NegativeTokens(m: string)
    requires m != ""
    ensures var first, second, done := Observation(true, m, -5), Observation(true, m, 3), Observation(false, m, 3);
            && Count(AccountAll(map[], [first]), m).tokens == -5
            && Count(AccountAll(map[], [first, second, done]), m).tokens == 0
            && Net([first, second, done], m, TokenSum) == -5
  {
    var first, second, done := Observation(true, m, -5), Observation(true, m, 3), Observation(false, m, 3);
    var one, two, three := [first], [first, second], [first, second, done];
    assert one[..0] == [] && two[..1] == one && three[..2] == two;
    assert AccountAll(map[], []) == map[];
    assert Net(one, m, TokenSum) == -5 && Net(two, m, TokenSum) == -2;
  }

  // ------------------------------------------------------------------------------
  // The extractor

  /** The attribute of every counted model is its counter. */
  ghost predicate Published(cs: Counters, r: Registry) {
    forall m :: m in cs ==> m in r && REQUEST_METADATA in r[m] && r[m][REQUEST_METADATA] == Requests(cs[m])
  }

  /** Writing the counters of the updated models, and nothing else. */
  ghost predicate WroteCounters(before: Registry, updated: Counters, after: Registry) {
    && after.Keys == before.Keys + updated.Keys
    && forall m :: m in after ==>
         after[m] == if m !in updated then before[m]
                     else (if m in before then before[m] else map[])[REQUEST_METADATA := Requests(updated[m])]
  }

  datatype Event = RequestEvent(body: Body) | ResponseEvent(body: Body) | OtherEvent

  /** What the events of a batch say, in order. */
  function Observations(events: seq<Event>): seq<Observation> {
    if events == [] then []
    else Observations(events[..|events| - 1]) + ObservationOf(events[|events| - 1])
  }

  function ObservationOf(ev: Event): seq<Observation> {
    match ev
    case RequestEvent(b) => [Observe(true, b)]
    case ResponseEvent(b) => [Observe(false, b)]
    case OtherEvent => []
  }

  /** The models that observations name. */
  function ModelsOf(os: seq<Observation>): set<string> {
    if os == [] then {}
    else ModelsOf(os[..|os| - 1]) + (if os[|os| - 1].model == "" then {} else {os[|os| - 1].model})
  }

  function Restricted(cs: Counters, names: set<string>): Counters {
    map m | m in cs && m in names :: if m in cs && m in names then cs[m] else RequestMetadataCount(0, 0)
  }

  /** The counters an update changes, with their new values. */
  function Touched(cs: Counters, os: seq<Observation>): Counters {
    Restricted(AccountAll(cs, os), ModelsOf(os))
  }

  class RequestMetadataExtractor {
    const ds: Store
    var counters: Counters

    constructor (ds: Store)
      ensures this.ds == ds && counters == map[]
    {
      this.ds, counters := ds, map[];
    }

    method FloorDecrementMethod(v: int, delta: int) returns (v': int)
      ensures v' == FloorDecrement(v, delta)
    {
      v' := Wrap64(v - delta);
      if v' < 0 {
        v' := 0;
      }
    }

    /** The first loop of Extract: account for each event. */
    method AccountBatch(events: seq<Event>) returns (updated: Counters)
      modifies `counters
      ensures counters == AccountAll(old(counters), Observations(events))
      ensures updated == Touched(old(counters), Observations(events))
    {
      hide Wrap64, FloorDecrement, AccountAll, Touched, ModelOf, TokensOf;
      updated := map[];
      ghost var os: seq<Observation> := [];
      NothingTouched(counters);
      for i := 0 to |events|
        invariant os == Observations(events[..i])
        invariant counters == AccountAll(old(counters), os) && updated == Touched(old(counters), os)
      {
        assert events[..i + 1][..i] == events[..i];
        var ev := events[i];
        if ev.OtherEvent? {
          assert os + [] == os;
          continue;
        }
        var model := ModelOf(ev.body);
        var maxTokens := TokensOf(ev.body);
        ghost var o := Observe(ev.RequestEvent?, ev.body);
        TouchedSnoc(old(counters), os, o);
        os := os + [o];
        if model == "" {
          continue;
        }
        var c := Count(counters, model);
        if ev.RequestEvent? {
          c := RequestMetadataCount(Wrap64(c.requests + 1), Wrap64(c.tokens + maxTokens));
        } else {
          var requests := FloorDecrementMethod(c.requests, 1);
          var tokens := FloorDecrementMethod(c.tokens, maxTokens);
          c := RequestMetadataCount(requests, tokens);
        }
        counters := counters[model := c];
        updated := updated[model := c];
      }
      assert events[..|events|] == events;
    }

    /** The second loop: publish the counters that changed, in an arbitrary order. */
    method Publish(updated: Counters)
      requires ds.Valid()
      modifies ds.Repr()
      ensures ds.Valid() && fresh(ds.Repr() - old(ds.Repr()))
      ensures WroteCounters(old(ds.Contents()), updated, ds.Contents())
    {
      var todo := updated.Keys;
      while todo != {}
        invariant todo <= updated.Keys && ds.Valid() && fresh(ds.Repr() - old(ds.Repr()))
        invariant WroteCounters(old(ds.Contents()), Restricted(updated, updated.Keys - todo), ds.Contents())
        decreases |todo|
      {
        var model :| model in todo;
        ghost var done := Restricted(updated, updated.Keys - todo);
        todo := todo - {model};
        assert Restricted(updated, updated.Keys - todo) == done[model := updated[model]];
        WroteOneMore(old(ds.Contents()), done, ds.Contents(), model, updated[model]);
        Upsert(ds, model, REQUEST_METADATA, Requests(updated[model]));
      }
      assert Restricted(updated, updated.Keys - todo) == updated;
    }

    /** One batch of events. */
    method Extract(events: seq<Event>)
      requires ds.Valid() && this !in ds.Repr()
      modifies this, ds.Repr()
      ensures ds.Valid() && fresh(ds.Repr() - old(ds.Repr()))
      ensures Extraction(old(counters), old(ds.Contents()), events, counters, ds.Contents())
      ensures old(Published(counters, ds.Contents())) ==> Published(counters, ds.Contents())
    {
      var updated := AccountBatch(events);
      assert ds.Contents() == old(ds.Contents());
      Publish(updated);
      UntouchedCountersStand(old(counters), Observations(events));
    }
  }

  /** What one call of Extract does to the counters and to the store. */
  ghost predicate Extraction(cs: Counters, r: Registry, events: seq<Event>, cs': Counters, r': Registry) {
    cs' == AccountAll(cs, Observations(events)) && WroteCounters(r, Touched(cs, Observations(events)), r')
  }

  /** The store r with c published as the counter of m. */
  function WithCounter(r: Registry, m: string, c: RequestMetadataCount): Registry {
    r[m := (if m in r then r[m] else map[])["request-metadata" := Requests(c)]]
  }

  /** A request event whose body's "model" is the string m: one request more, and its
      max_tokens more, for m and nobody else, and the counter is published. */
  lemma RequestIsCounted(cs: Counters, r: Registry, b: Body, m: string, k: int, cs': Counters, r': Registry)
    requires Extraction(cs, r, [RequestEvent(b)], cs', r')
    requires "model" in b && b["model"] == JString(m) && m != "" && Asks(b, k) && IsInt64(k)
    ensures var c := if m in cs then cs[m] else RequestMetadataCount(0, 0);
            var c' := RequestMetadataCount(Wrap64(c.requests + 1), Wrap64(c.tokens + k));
            && cs' == cs[m := c'] && r' == WithCounter(r, m, c')
            && (IsInt64(c.requests + 1) && IsInt64(c.tokens + k) ==> c' == RequestMetadataCount(c.requests + 1, c.tokens + k))
  {
    ModelOfIs(b, m);
    TokensOfIs(b, k);
    hide ModelOf, TokensOf, Asks;
    var c := if m in cs then cs[m] else RequestMetadataCount(0, 0);
    Wraps(c.requests + 1);
    Wraps(c.tokens + k);
    OneEvent(cs, r, RequestEvent(b), cs', r');
    hide Wrap64, Extraction;
  }

  /** A response event likewise: one request less and its max_tokens less, neither counter
      going below zero. */
  lemma ResponseIsCounted(cs: Counters, r: Registry, b: Body, m: string, k: int, cs': Counters, r': Registry)
    requires Extraction(cs, r, [ResponseEvent(b)], cs', r')
    requires "model" in b && b["model"] == JString(m) && m != "" && Asks(b, k) && IsInt64(k)
    ensures var c := if m in cs then cs[m] else RequestMetadataCount(0, 0);
            var requests, tokens := Wrap64(c.requests - 1), Wrap64(c.tokens - k);
            var c' := RequestMetadataCount(if requests < 0 then 0 else requests, if tokens < 0 then 0 else tokens);
            && cs' == cs[m := c'] && r' == WithCounter(r, m, c')
            && (IsInt64(c.requests - 1) && IsInt64(c.tokens - k) ==>
                  c' == RequestMetadataCount(if c.requests < 1 then 0 else c.requests - 1, if c.tokens < k then 0 else c.tokens - k))
  {
    ModelOfIs(b, m);
    TokensOfIs(b, k);
    hide ModelOf, TokensOf, Asks;
    var c := if m in cs then cs[m] else RequestMetadataCount(0, 0);
    Wraps(c.requests - 1);
    Wraps(c.tokens - k);
    OneEvent(cs, r, ResponseEvent(b), cs', r');
    hide Wrap64, Extraction;
  }

  /** Any other event changes nothing: "model" absent, not a string or empty, or another
      kind of event. */
  lemma OthersAreNotCounted(cs: Counters, r: Registry, ev: Event, cs': Counters, r': Registry)
    requires Extraction(cs, r, [ev], cs', r')
    requires ev.OtherEvent? || "model" !in ev.body || !ev.body["model"].JString? || ev.body["model"].s == ""
    ensures cs' == cs && r' == r
  {
    if !ev.OtherEvent? {
      assert ModelOf(ev.body) == "" by { ModelOfIs(ev.body, ""); }
    }
    hide ModelOf, TokensOf;
    OneEvent(cs, r, ev, cs', r');
  }

  /** One event on its own. */
  lemma OneEvent(cs: Counters, r: Registry, ev: Event, cs': Counters, r': Registry)
    requires Extraction(cs, r, [ev], cs', r')
    ensures if ev.OtherEvent? || ModelOf(ev.body) == "" then cs' == cs && r' == r
            else
              var c := Updated(Count(cs, ModelOf(ev.body)), Observe(ev.RequestEvent?, ev.body));
              cs' == cs[ModelOf(ev.body) := c] && r' == WithCounter(r, ModelOf(ev.body), c)
  {
    hide ModelOf, TokensOf, Updated, WroteCounters;
    assert [ev][..0] == [] && Observations([]) == [];
    NothingTouched(cs);
    WroteNothing(r, r');
    if ev.OtherEvent? {
      assert Observations([ev]) == [];
    } else {
      var o := Observe(ev.RequestEvent?, ev.body);
      assert Observations([ev]) == [o] && [] + [o] == [o];
      TouchedSnoc(cs, [], o);
      hide AccountAll, Touched, Observations, WithCounter;
      if o.model != "" {
        WroteOne(r, o.model, Updated(Count(cs, o.model), o), r');
      }
    }
  }

  lemma WroteNothing(r: Registry, r': Registry)
    ensures WroteCounters(r, map[], r') <==> r' == r
  {
  }

  lemma WroteOne(r: Registry, m: string, c: RequestMetadataCount, r': Registry)
    ensures WroteCounters(r, map[][m := c], r') <==> r' == WithCounter(r, m, c)
  {
  }

  lemma {:induction false} ObservationsAppend(a: seq<Event>, b: seq<Event>)
    ensures Observations(a + b) == Observations(a) + Observations(b)
    decreases |b|
  {
    hide ObservationOf;
    if b == [] {
      assert a + b == a;
    } else {
      ObservationsAppend(a, b[..|b| - 1]);
      assert (a + b)[..|a + b| - 1] == a + b[..|b| - 1];
    }
  }

  lemma {:induction false} ModelsAppend(a: seq<Observation>, b: seq<Observation>)
    ensures ModelsOf(a + b) == ModelsOf(a) + ModelsOf(b)
    decreases |b|
  {
    if b == [] {
      assert a + b == a;
    } else {
      ModelsAppend(a, b[..|b| - 1]);
      assert (a + b)[..|a + b| - 1] == a + b[..|b| - 1];
    }
  }

  /** Some event of the batch is a request or a response whose body names m. */
  ghost predicate Carries(events: seq<Event>, m: string) {
    m != "" && exists i :: 0 <= i < |events| && !events[i].OtherEvent? && Names(events[i].body, m)
  }

  lemma CarriesSnoc(events: seq<Event>, m: string)
    requires events != []
    ensures var before, last := events[..|events| - 1], events[|events| - 1];
            Carries(events, m) <==> Carries(before, m) || (!last.OtherEvent? && m != "" && Names(last.body, m))
  {
    hide Names;
    var before := events[..|events| - 1];
    assert forall i :: 0 <= i < |before| ==> before[i] == events[i];
  }

  /** The models that a batch touches are those its events name. */
  lemma {:induction false} CarriedNames(events: seq<Event>, m: string)
    ensures m in ModelsOf(Observations(events)) <==> Carries(events, m)
    decreases |events|
  {
    if events != [] {
      var before, last := events[..|events| - 1], events[|events| - 1];
      CarriedNames(before, m);
      CarriesSnoc(events, m);
      CarriedByOne(last, m);
      ModelsAppend(Observations(before), ObservationOf(last));
      hide ModelsOf, Names, Carries, ObservationOf;
    }
  }

  lemma CarriedByOne(ev: Event, m: string)
    ensures m in ModelsOf(ObservationOf(ev)) <==> !ev.OtherEvent? && m != "" && Names(ev.body, m)
  {
    if !ev.OtherEvent? {
      ModelOfIs(ev.body, m);
      var o := Observe(ev.RequestEvent?, ev.body);
      assert [o][..0] == [] && ModelsOf([]) == {};
    }
  }

  /** Batches do not matter: two calls of Extract leave the counters and the store that one
      call with all their events leaves. With the three lemmas on single events this says
      what every batch does. */
  lemma ExtractionsCompose(cs: Counters, r: Registry, a: seq<Event>, b: seq<Event>, cs1: Counters, r1: Registry, cs2: Counters, r2: Registry)
    requires Extraction(cs, r, a, cs1, r1) && Extraction(cs1, r1, b, cs2, r2)
    ensures Extraction(cs, r, a + b, cs2, r2)
  {
    var oa, ob := Observations(a), Observations(b);
    ObservationsAppend(a, b);
    BatchesDoNotMatter(cs, oa, ob);
    ModelsAppend(oa, ob);
    UntouchedCountersStand(cs, oa);
    UntouchedCountersStand(cs1, ob);
    UntouchedCountersStand(cs, oa + ob);
    hide AccountAll, ModelsOf, Observations, WroteCounters;
    var ta, tb, t := Touched(cs, oa), Touched(cs1, ob), Touched(cs, oa + ob);
    assert t.Keys == ta.Keys + tb.Keys;
    assert forall m :: m in t ==> t[m] == if m in tb then tb[m] else ta[m];
    WroteTwice(r, ta, r1, tb, r2, t);
  }

  lemma WroteTwice(r: Registry, first: Counters, r1: Registry, second: Counters, r2: Registry, both: Counters)
    requires WroteCounters(r, first, r1) && WroteCounters(r1, second, r2)
    requires both.Keys == first.Keys + second.Keys
    requires forall m :: m in both ==> both[m] == if m in second then second[m] else first[m]
    ensures WroteCounters(r, both, r2)
  {
  }

  /** What Extract leaves is determined. */
  lemma ExtractionIsDetermined(cs: Counters, r: Registry, events: seq<Event>, cs': Counters, r': Registry, cs'': Counters, r'': Registry)
    requires Extraction(cs, r, events, cs', r') && Extraction(cs, r, events, cs'', r'')
    ensures cs' == cs'' && r' == r''
  {
  }

  lemma WroteOneMore(before: Registry, done: Counters, now: Registry, m: string, c: RequestMetadataCount)
    requires WroteCounters(before, done, now) && m !in done
    ensures WroteCounters(before, done[m := c], Upserted(now, m, REQUEST_METADATA, Requests(c)))
  {
  }

  lemma NothingTouched(cs: Counters)
    ensures AccountAll(cs, []) == cs && Touched(cs, []) == map[]
  {
  }

  /** One more observation: its counter changes, and it is the one to publish. */
  lemma TouchedSnoc(cs: Counters, os: seq<Observation>, o: Observation)
    ensures var before := AccountAll(cs, os); var after := AccountAll(cs, os + [o]);
            if o.model == "" then after == before && Touched(cs, os + [o]) == Touched(cs, os)
            else
              var c := Updated(Count(before, o.model), o);
              after == before[o.model := c] && Touched(cs, os + [o]) == Touched(cs, os)[o.model := c]
  {
    hide Updated;
    assert (os + [o])[..|os|] == os;
    assert ModelsOf(os + [o]) == ModelsOf(os) + (if o.model == "" then {} else {o.model});
    var before, after := AccountAll(cs, os), AccountAll(cs, os + [o]);
    assert after == Account(before, o);
    hide AccountAll, ModelsOf;
  }

  /** Models no event names keep their counters. */
  lemma {:induction false} UntouchedCountersStand(cs: Counters, os: seq<Observation>)
    ensures var cs' := AccountAll(cs, os);
            && cs'.Keys == cs.Keys + ModelsOf(os)
            && forall m :: m in cs && m !in ModelsOf(os) ==> cs'[m] == cs[m]
    decreases |os|
  {
    hide Updated;
    if os != [] {
      UntouchedCountersStand(cs, os[..|os| - 1]);
    }
  }
}
