/** Requests for "auto/g" on the running system: streams, events, extractors and reconciler
    together with the selection pipeline. */
module GroupRouting {
  import opened Wrappers
  import opened Messages
  import opened Datastores
  import opened MaxScore
  import opened Scorers
  import opened Selection
  import opened ModelSelector
  import Handlers
  import I = InFlight
  import R = RequestMetadata
  import S = StoreHistory
  import ModelConfig
  import ModelGroup

  /** Right after a sync ws[0]; since then no other sync. */
  ghost predicate SinceSync(cfg: ModelConfig.ModelsConfig, before: Registry, ws: seq<S.World>, actions: seq<S.Action>, interval: nat) {
    && S.Steps(ws, actions, interval) && ws[0].r == ModelConfig.Synced(cfg, before)
    && forall i :: 0 <= i < |actions| ==> !actions[i].Sync?
  }

  lemma FilterIsKept(body: Body, candidates: seq<Candidate>)
    ensures Filtered([ModelGroupFilter], body, candidates) == Kept(ModelGroup.Select(body), candidates)
  {
    hide ModelGroup.Select;
    assert ModelGroupFilter.run(body, candidates) == Kept(ModelGroup.Select(body), candidates);
    assert [ModelGroupFilter][1..] == [];
  }

  // ------------------------------------------------------------------------------
  // Groups between syncs

  /** Between syncs the members of a group are the registered models that the configuration
      lists in it, whatever models events have added. */
  lemma MembersSinceSync(cfg: ModelConfig.ModelsConfig, before: Registry, ws: seq<S.World>, actions: seq<S.Action>, interval: nat, g: string, m: string)
    requires SinceSync(cfg, before, ws, actions, interval) && g != ""
    ensures var r := ws[|actions|].r;
            && (m in ModelConfig.Desired(cfg.models) && ModelGroup.ListedIn(cfg, g, m) <==> m in r && ModelGroup.InGroup(r[m], g))
            && (m in ModelConfig.Desired(cfg.models) ==> m in r && S.C.PriceIn(r, m).Some?)
  {
    S.ModelsSinceSync(ws, actions, interval);
    S.SyncPrices(cfg, before, m);
    ModelGroup.GroupInversionRoundTrip(cfg, before, g, "");
    assert (ModelGroup.AUTO_GROUP_PREFIX + g)[|ModelGroup.AUTO_GROUP_PREFIX|..] == g;
    assert ModelGroup.SelectName(ModelGroup.AUTO_GROUP_PREFIX + g) == ModelGroup.Group(g);
    var r0, r := ws[0].r, ws[|actions|].r;
    assert S.GroupsIn(r, m) == S.GroupsIn(r0, m) && S.C.PriceIn(r, m) == S.C.PriceIn(r0, m);
    hide ModelConfig.Synced, ModelConfig.Desired, ModelGroup.ListedIn, S.Steps, ModelGroup.SelectName, S.NamedBy;
    assert m in ModelGroup.KeptNames(ModelGroup.Group(g), r0) <==> m in r0 && ModelGroup.InGroup(r0[m], g);
  }

  lemma {:induction false} KeptOfSelector(sel: ModelGroup.Selector, models: seq<Candidate>)
    ensures sel.Everything? ==> Kept(sel, models) == models
    ensures sel.Nothing? ==> Kept(sel, models) == []
    ensures sel.Named? ==> |Kept(sel, models)| <= 1
    decreases |models|
  {
    if models != [] {
      KeptOfSelector(sel, models[..|models| - 1]);
      assert models == models[..|models| - 1] + [models[|models| - 1]];
    }
  }

  /** Exactly when a run through the group filter and the cost scorer panics, between syncs:
      only for requests that ask for every model, and for those if and only if there is more
      than one and some event has carried a name that the configuration does not list.
      Requests for a group or for one model never panic. */
  lemma FilteredCostPanicsIff(cfg: ModelConfig.ModelsConfig, before: Registry, ws: seq<S.World>, actions: seq<S.Action>, interval: nat,
                              candidates: seq<Candidate>, weight: real, body: Body)
    requires SinceSync(cfg, before, ws, actions, interval) && Lists(candidates, ws[|actions|].r)
    ensures var models := Filtered([ModelGroupFilter], body, candidates);
            !NoPanic([WeightedScorer(CostScorer, weight)], body, models)
            <==> ModelGroup.Select(body).Everything? && |candidates| != 1 && !(S.NamedBy(actions) <= ModelConfig.Desired(cfg.models))
  {
    var sel := ModelGroup.Select(body);
    var models := Kept(sel, candidates);
    FilterIsKept(body, candidates);
    var s := WeightedScorer(CostScorer, weight);
    assert s in [s];
    assert NoPanic([s], body, models) <==> Scorable(models);
    KeptOfSelector(sel, candidates);
    if sel.Group? {
      GroupIsPriced(cfg, before, ws, actions, interval, candidates, body);
    } else if sel.Everything? {
      S.PricedIff(cfg, before, ws, actions, interval, candidates);
    }
    hide ModelGroup.Select, SinceSync, Kept, NoPanic, Lists, Filtered, S.NamedBy, ModelConfig.Desired;
  }

  lemma GroupIsPriced(cfg: ModelConfig.ModelsConfig, before: Registry, ws: seq<S.World>, actions: seq<S.Action>, interval: nat,
                      candidates: seq<Candidate>, body: Body)
    requires SinceSync(cfg, before, ws, actions, interval) && Lists(candidates, ws[|actions|].r) && ModelGroup.Select(body).Group?
    ensures AllPriced(Kept(ModelGroup.Select(body), candidates))
  {
    var sel := ModelGroup.Select(body);
    GroupIsNotEmpty(body);
    KeptIsFilter(sel, candidates);
    var r := ws[|actions|].r;
    forall m | m in Kept(sel, candidates) ensures Priced(m) {
      assert m in candidates && m.name in r && r[m.name] == m.attributes && ModelGroup.InGroup(m.attributes, sel.group);
      MembersSinceSync(cfg, before, ws, actions, interval, sel.group, m.name);
    }
  }

  lemma GroupIsNotEmpty(body: Body)
    ensures ModelGroup.Select(body).Group? ==> ModelGroup.Select(body).group != ""
  {
  }

  // ------------------------------------------------------------------------------
  // Streams and store together

  /** Each step of the streams and the event path is a step of the store: a call of the
      request-metadata extractor is its batch of one event, and any other step is none. */
  ghost predicate Joined(x: nat, worlds: seq<I.World>, actions: seq<I.Action>, ws: seq<S.World>, stores: seq<S.Action>, interval: nat) {
    && |actions| == |stores| && |worlds| == |actions| + 1
    && S.Steps(ws, stores, interval)
    && ws[0].counters == map[] && (forall m :: S.MetadataIn(ws[0].r, m) == None)
    && forall k :: 0 <= k < |actions| ==>
         if actions[k].Loop? && I.Extracts(x, worlds[k], actions[k].a)
         then stores[k] == S.Metadata([I.Seen(worlds[k], worlds[k].flow.loop.event)])
         else !stores[k].Metadata?
  }

  lemma AccountOne(cs: R.Counters, o: R.Observation)
    ensures R.AccountAll(cs, [o]) == R.Account(cs, o)
  {
    assert [o][..0] == [];
    assert R.AccountAll(cs, []) == cs;
  }

  lemma StepKeepsCounters(c: Handlers.Config, x: nat, w: I.World, a: I.Action, s: S.World, b: S.Action, interval: nat, s': S.World)
    requires I.Enabled(c, w, a) && S.Step(s, b, interval, s') && s.counters == w.counters
    requires if a.Loop? && I.Extracts(x, w, a.a) then b == S.Metadata([I.Seen(w, w.flow.loop.event)]) else !b.Metadata?
    ensures s'.counters == I.Do(c, x, w, a).counters
  {
    if a.Loop? && I.Extracts(x, w, a.a) { AccountOne(w.counters, I.Seen(w, w.flow.loop.event)); }
    hide R.AccountAll, R.Account, I.NotifyAll, R.WroteCounters, S.C.Extracts, ModelConfig.Synced, I.Seen, I.Extracts, I.F.Do, I.F.Enabled;
  }

  /** The store's counters are those of the event path. */
  lemma {:induction false} CountersJoined(c: Handlers.Config, x: nat, worlds: seq<I.World>, actions: seq<I.Action>, ws: seq<S.World>, stores: seq<S.Action>,
                                          interval: nat, k: nat)
    requires I.IsRun(c, x, worlds, actions) && Joined(x, worlds, actions, ws, stores, interval) && k <= |actions|
    ensures ws[k].counters == worlds[k].counters
    decreases k
  {
    hide I.Enabled, I.Do, S.Step, I.Extracts, I.Seen;
    if k > 0 {
      CountersJoined(c, x, worlds, actions, ws, stores, interval, k - 1);
      assert I.Enabled(c, worlds[k - 1], actions[k - 1]) && worlds[k] == I.Do(c, x, worlds[k - 1], actions[k - 1]);
      StepKeepsCounters(c, x, worlds[k - 1], actions[k - 1], ws[k - 1], stores[k - 1], interval, ws[k]);
    }
  }

  /** The number of streams in flight for a model. */
  function InFlightCount(x: nat, w: I.World, m: string): nat { |I.InFlightStreams(x, w, m, |w.streams|)| }

  /** What the scorer knows of it: nothing of a model deleted since its last event. */
  function KnownCount(x: nat, w: I.World, stores: seq<S.Action>, m: string): nat {
    if S.Lost(stores, m) then 0 else InFlightCount(x, w, m)
  }

  /** The count the scorer reads is the number of streams in flight, as far as known. */
  lemma ScorerSeesStreams(c: Handlers.Config, x: nat, worlds: seq<I.World>, actions: seq<I.Action>, ws: seq<S.World>, stores: seq<S.Action>, interval: nat,
                          candidates: seq<Candidate>, m: Candidate)
    requires I.IsRun(c, x, worlds, actions) && Joined(x, worlds, actions, ws, stores, interval)
    requires forall k :: 0 <= k < |worlds| ==> |worlds[k].streams| <= MAX_INT64
    requires Lists(candidates, ws[|actions|].r) && m in candidates && m.name != ""
    ensures InFlightRequestCount(m) == KnownCount(x, worlds[|actions|], stores, m.name) <= MAX_INT64
  {
    var n := |actions|;
    CountersJoined(c, x, worlds, actions, ws, stores, interval, n);
    S.PublishedUnlessDeleted(ws, stores, interval, m.name);
    I.RequestsCountsStreamsInFlight(c, x, worlds, actions, n, m.name);
    InFlightIsAtMostStreams(x, worlds[n], m.name, |worlds[n].streams|);
    hide I.IsRun, Joined, I.InFlightStreams, S.Lost;
    assert m.name in ws[n].r && ws[n].r[m.name] == m.attributes;
  }

  lemma {:induction false} InFlightIsAtMostStreams(x: nat, w: I.World, m: string, n: nat)
    ensures |I.InFlightStreams(x, w, m, n)| <= n
  {
    hide I.IsInFlight;
    if n > 0 {
      InFlightIsAtMostStreams(x, w, m, n - 1);
      assert I.InFlightStreams(x, w, m, n) == I.InFlightStreams(x, w, m, n - 1) + if I.IsInFlight(x, w, n - 1, m) then {n - 1} else {};
    }
  }

  /** What the filter leaves for "auto/g" on the running system. */
  lemma GroupOnRun(cfg: ModelConfig.ModelsConfig, before: Registry, ws: seq<S.World>, actions: seq<S.Action>, interval: nat,
                   candidates: seq<Candidate>, body: Body, g: string)
    requires SinceSync(cfg, before, ws, actions, interval) && Lists(candidates, ws[|actions|].r)
    requires g != "" && "model" in body && body["model"] == JString(ModelGroup.AUTO_GROUP_PREFIX + g)
    ensures var models := Filtered([ModelGroupFilter], body, candidates);
            && Selection.DistinctNames(models)
            && forall m :: m in models <==>
                 m in candidates && m.name in ModelConfig.Desired(cfg.models) && ModelGroup.ListedIn(cfg, g, m.name)
  {
    assert (ModelGroup.AUTO_GROUP_PREFIX + g)[|ModelGroup.AUTO_GROUP_PREFIX|..] == g;
    assert ModelGroup.Select(body) == ModelGroup.Group(g);
    FilterIsKept(body, candidates);
    KeptIsFilter(ModelGroup.Group(g), candidates);
    KeptAreDistinct(ModelGroup.Group(g), candidates);
    forall m | m in candidates
      ensures ModelGroup.InGroup(m.attributes, g) <==> m.name in ModelConfig.Desired(cfg.models) && ModelGroup.ListedIn(cfg, g, m.name)
    {
      MembersSinceSync(cfg, before, ws, actions, interval, g, m.name);
    }
    hide ModelGroup.Select, Kept, ModelGroup.InGroup, ModelGroup.ListedIn, ModelConfig.Desired, SinceSync;
  }

  /** The whole system: in every interleaving of streams, events, extractors and syncs with
      no event dropped, at any moment since the last sync, a request for "auto/g" through
      the group filter, the in-flight scorer and the max-score picker can get exactly a
      model that the configuration lists in g and that has the fewest streams in flight, as
      far as the scorer knows. `last` is the moment of the last sync. */
  lemma FewestKnownInFlightWins(c: Handlers.Config, x: nat, worlds: seq<I.World>, actions: seq<I.Action>, ws: seq<S.World>, stores: seq<S.Action>,
                                interval: nat, last: nat, cfg: ModelConfig.ModelsConfig, before: Registry, candidates: seq<Candidate>, weight: real,
                                body: Body, g: string, chosen: Candidate)
    requires I.IsRun(c, x, worlds, actions) && Joined(x, worlds, actions, ws, stores, interval)
    requires forall k :: 0 <= k < |worlds| ==> |worlds[k].streams| <= MAX_INT64
    requires last <= |actions| && SinceSync(cfg, before, ws[last..], stores[last..], interval)
    requires Lists(candidates, ws[|actions|].r) && weight > 0.0
    requires g != "" && "model" in body && body["model"] == JString(ModelGroup.AUTO_GROUP_PREFIX + g)
    ensures var w := worlds[|actions|];
            IsBest([WeightedScorer(InFlightScorer, weight)], body, Filtered([ModelGroupFilter], body, candidates), chosen) <==>
              && chosen in candidates && IsMember(cfg, g, chosen.name)
              && forall m :: m in candidates && IsMember(cfg, g, m.name) ==>
                   KnownCount(x, w, stores, chosen.name) <= KnownCount(x, w, stores, m.name)
  {
    var n := |actions|;
    assert ws[last..][|stores[last..]|] == ws[n];
    GroupOnRun(cfg, before, ws[last..], stores[last..], interval, candidates, body, g);
    var models := Filtered([ModelGroupFilter], body, candidates);
    forall m | m in models ensures InFlightRequestCount(m) == KnownCount(x, worlds[n], stores, m.name) <= MAX_INT64 {
      DesiredIsNamed(cfg, m.name);
      ScorerSeesStreams(c, x, worlds, actions, ws, stores, interval, candidates, m);
    }
    hide ModelConfig.Desired, ModelGroup.ListedIn, InFlightRequestCount, IsBest, Filtered, Lists, I.IsRun, Joined, SinceSync, KnownCount;
    LeastLoadedWins(weight, body, models, chosen);
  }

  /** m is registered and listed in g. */
  ghost predicate IsMember(cfg: ModelConfig.ModelsConfig, g: string, m: string) {
    m in ModelConfig.Desired(cfg.models) && ModelGroup.ListedIn(cfg, g, m)
  }

  /** In particular, when no model of g that has streams in flight was deleted since its last
      event, "auto/g" gets exactly a model of g with the fewest streams in flight. */
  lemma FewestInFlightWins(c: Handlers.Config, x: nat, worlds: seq<I.World>, actions: seq<I.Action>, ws: seq<S.World>, stores: seq<S.Action>, interval: nat,
                           last: nat, cfg: ModelConfig.ModelsConfig, before: Registry, candidates: seq<Candidate>, weight: real, body: Body, g: string,
                           chosen: Candidate)
    requires I.IsRun(c, x, worlds, actions) && Joined(x, worlds, actions, ws, stores, interval)
    requires forall k :: 0 <= k < |worlds| ==> |worlds[k].streams| <= MAX_INT64
    requires last <= |actions| && SinceSync(cfg, before, ws[last..], stores[last..], interval)
    requires forall m :: IsMember(cfg, g, m) && S.Lost(stores, m) ==> InFlightCount(x, worlds[|actions|], m) == 0
    requires Lists(candidates, ws[|actions|].r) && weight > 0.0
    requires g != "" && "model" in body && body["model"] == JString(ModelGroup.AUTO_GROUP_PREFIX + g)
    ensures var w := worlds[|actions|];
            IsBest([WeightedScorer(InFlightScorer, weight)], body, Filtered([ModelGroupFilter], body, candidates), chosen) <==>
              && chosen in candidates && IsMember(cfg, g, chosen.name)
              && forall m :: m in candidates && IsMember(cfg, g, m.name) ==> InFlightCount(x, w, chosen.name) <= InFlightCount(x, w, m.name)
  {
    FewestKnownInFlightWins(c, x, worlds, actions, ws, stores, interval, last, cfg, before, candidates, weight, body, g, chosen);
    hide IsMember, S.Lost, InFlightCount, IsBest, Filtered, Lists, I.IsRun, Joined, SinceSync;
    forall m | IsMember(cfg, g, m) ensures KnownCount(x, worlds[|actions|], stores, m) == InFlightCount(x, worlds[|actions|], m) {
    }
  }

  lemma DesiredIsNamed(cfg: ModelConfig.ModelsConfig, m: string)
    requires m in ModelConfig.Desired(cfg.models)
    ensures m != ""
  {
  }
}
