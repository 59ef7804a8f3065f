/** The store under all its writers: the two extractors, which create a model for every name
    an event carries, and the reconciler, which deletes what is not configured. */
module StoreHistory {
  import opened Wrappers
  import opened Datastores
  import opened MaxScore
  import opened Scorers
  import R = RequestMetadata
  import C = CostMetadata
  import ModelConfig
  import ModelSelector

  /** A batch for the request-metadata extractor, a batch for the cost extractor, a sync, or
      a write of attributes that none of these three own. */
  datatype Action =
    | Metadata(os: seq<R.Observation>)
    | Costs(events: seq<C.CostEvent>, now: int)
    | Sync(cfg: ModelConfig.ModelsConfig)
    | Elsewhere

  datatype World = World(counters: R.Counters, costs: C.State, r: Registry)

  function MetadataIn(r: Registry, m: string): Option<Attribute> {
    if m in r && REQUEST_METADATA in r[m] then Some(r[m][REQUEST_METADATA]) else None
  }

  function GroupsIn(r: Registry, m: string): Option<Attribute> {
    if m in r && MODEL_GROUPS in r[m] then Some(r[m][MODEL_GROUPS]) else None
  }

  ghost predicate Step(w: World, a: Action, interval: nat, w': World) {
    match a
    case Metadata(os) =>
      && w'.counters == R.AccountAll(w.counters, os) && w'.costs == w.costs
      && R.WroteCounters(w.r, R.Touched(w.counters, os), w'.r)
    case Costs(events, now) =>
      w'.counters == w.counters && C.Extracts(w.costs, w.r, events, now, interval, w'.costs, w'.r)
    case Sync(cfg) =>
      w' == w.(r := ModelConfig.Synced(cfg, w.r))
    case Elsewhere =>
      && w' == w.(r := w'.r) && w'.r.Keys == w.r.Keys
      && forall m ::
           && MetadataIn(w'.r, m) == MetadataIn(w.r, m)
           && C.PriceIn(w'.r, m) == C.PriceIn(w.r, m) && GroupsIn(w'.r, m) == GroupsIn(w.r, m)
  }

  ghost predicate Steps(ws: seq<World>, actions: seq<Action>, interval: nat) {
    |ws| == |actions| + 1 && forall i :: 0 <= i < |actions| ==> Step(ws[i], actions[i], interval, ws[i + 1])
  }

  // ------------------------------------------------------------------------------
  // Published counters

  /** m has been deleted by a sync since the last event that named it. */
  function Lost(actions: seq<Action>, m: string): bool {
    if actions == [] then false else LostAfter(Lost(actions[..|actions| - 1], m), actions[|actions| - 1], m)
  }

  function LostAfter(lost: bool, a: Action, m: string): bool {
    match a
    case Metadata(os) => m !in R.ModelsOf(os) && lost
    case Sync(cfg) => m !in ModelConfig.Desired(cfg.models) || lost
    case _ => lost
  }

  /** The published attribute of m is its counter, unless it is lost. */
  ghost predicate Publishes(w: World, m: string, lost: bool) {
    MetadataIn(w.r, m) == if m in w.counters && !lost then Some(Requests(w.counters[m])) else None
  }

  lemma MetadataStep(w: World, os: seq<R.Observation>, r': Registry, m: string)
    requires R.WroteCounters(w.r, R.Touched(w.counters, os), r')
    ensures var counters' := R.AccountAll(w.counters, os);
            && (m in R.ModelsOf(os) ==> m in counters' && MetadataIn(r', m) == Some(Requests(counters'[m])))
            && (m !in R.ModelsOf(os) ==>
                  && MetadataIn(r', m) == MetadataIn(w.r, m)
                  && (m in counters' <==> m in w.counters) && (m in counters' ==> counters'[m] == w.counters[m]))
            && r'.Keys == w.r.Keys + R.ModelsOf(os)
            && C.PriceIn(r', m) == C.PriceIn(w.r, m) && GroupsIn(r', m) == GroupsIn(w.r, m)
  {
    R.UntouchedCountersStand(w.counters, os);
    hide R.AccountAll, R.ModelsOf;
  }

  lemma CostStep(w: World, events: seq<C.CostEvent>, now: int, interval: nat, w': World, m: string)
    requires C.Extracts(w.costs, w.r, events, now, interval, w'.costs, w'.r)
    ensures MetadataIn(w'.r, m) == MetadataIn(w.r, m)
    ensures C.PriceIn(w'.r, m) == C.PriceIn(w.r, m) && GroupsIn(w'.r, m) == GroupsIn(w.r, m)
    ensures w'.r.Keys == w.r.Keys + C.TouchedBy(events)
  {
    hide C.AddSamples, C.TouchedBy, C.Samples, C.Due;
  }

  lemma SyncStep(cfg: ModelConfig.ModelsConfig, r: Registry, m: string)
    ensures var r' := ModelConfig.Synced(cfg, r);
            MetadataIn(r', m) == if m in ModelConfig.Desired(cfg.models) then MetadataIn(r, m) else None
  {
    hide ModelConfig.Desired, ModelConfig.PriceOf, ModelConfig.GroupsOf;
  }

  lemma StepPublishes(w: World, a: Action, interval: nat, w': World, m: string, lost: bool)
    requires Step(w, a, interval, w') && Publishes(w, m, lost)
    ensures Publishes(w', m, LostAfter(lost, a, m))
  {
    hide MetadataIn, R.AccountAll, R.ModelsOf, R.WroteCounters, C.Extracts, ModelConfig.Synced, ModelConfig.Desired, C.PriceIn;
    match a
    case Metadata(os) => MetadataStep(w, os, w'.r, m);
    case Costs(events, now) => CostStep(w, events, now, interval, w', m);
    case Sync(cfg) => SyncStep(cfg, w.r, m);
    case Elsewhere => assert MetadataIn(w'.r, m) == MetadataIn(w.r, m);
  }

  /** Over every history of all writers: the published attribute of a model equals its
      counter, except for a model deleted since the last event that named it, which has no
      attribute, even if it has been configured again. */
  lemma {:induction false} PublishedUnlessDeleted(ws: seq<World>, actions: seq<Action>, interval: nat, m: string)
    requires Steps(ws, actions, interval)
    requires ws[0].counters == map[] && MetadataIn(ws[0].r, m) == None
    ensures Publishes(ws[|actions|], m, Lost(actions, m))
    decreases |actions|
  {
    hide Step, LostAfter;
    if actions != [] {
      var n := |actions| - 1;
      PublishedUnlessDeleted(ws[..n + 1], actions[..n], interval, m);
      hide Publishes;
      StepPublishes(ws[n], actions[n], interval, ws[n + 1], m, Lost(actions[..n], m));
    }
  }

  // ------------------------------------------------------------------------------
  // Prices

  /** The names that the events of a history carry. */
  function NamedBy(actions: seq<Action>): set<string> {
    if actions == [] then {}
    else
      var last := actions[|actions| - 1];
      NamedBy(actions[..|actions| - 1]) +
      match last
      case Metadata(os) => R.ModelsOf(os)
      case Costs(events, _) => C.TouchedBy(events)
      case _ => {}
  }

  lemma SyncPrices(cfg: ModelConfig.ModelsConfig, before: Registry, m: string)
    ensures C.PriceIn(ModelConfig.Synced(cfg, before), m).Some? <==> m in ModelConfig.Desired(cfg.models)
  {
    hide ModelConfig.Desired, ModelConfig.PriceOf, ModelConfig.GroupsOf;
  }

  /** Between syncs models are only added, one per name carried; prices and groups stand. */
  lemma {:induction false} ModelsSinceSync(ws: seq<World>, actions: seq<Action>, interval: nat)
    requires Steps(ws, actions, interval) && forall i :: 0 <= i < |actions| ==> !actions[i].Sync?
    ensures ws[|actions|].r.Keys == ws[0].r.Keys + NamedBy(actions)
    ensures forall m :: C.PriceIn(ws[|actions|].r, m) == C.PriceIn(ws[0].r, m) && GroupsIn(ws[|actions|].r, m) == GroupsIn(ws[0].r, m)
    decreases |actions|
  {
    hide C.PriceIn, GroupsIn;
    if actions != [] {
      var n := |actions| - 1;
      var a, w, w' := actions[n], ws[n], ws[n + 1];
      ModelsSinceSync(ws[..n + 1], actions[..n], interval);
      assert Step(w, a, interval, w');
      forall m ensures C.PriceIn(w'.r, m) == C.PriceIn(w.r, m) && GroupsIn(w'.r, m) == GroupsIn(w.r, m) {
        match a
        case Metadata(os) => MetadataStep(w, os, w'.r, m);
        case Costs(events, now) => CostStep(w, events, now, interval, w', m);
        case Elsewhere => assert C.PriceIn(w'.r, m) == C.PriceIn(w.r, m) && GroupsIn(w'.r, m) == GroupsIn(w.r, m);
      }
      match a
      case Metadata(os) => MetadataStep(w, os, w'.r, "");
      case Costs(events, now) => CostStep(w, events, now, interval, w', "");
      case Elsewhere =>
    }
  }

  lemma PricedCandidates(candidates: seq<Candidate>, r: Registry)
    requires ModelSelector.Lists(candidates, r)
    ensures AllPriced(candidates) <==> forall m :: m in r ==> C.PriceIn(r, m).Some?
  {
    if AllPriced(candidates) {
      forall m | m in r ensures C.PriceIn(r, m).Some? {
        assert Candidate(m, r[m]) in candidates;
      }
    }
    if forall m :: m in r ==> C.PriceIn(r, m).Some? {
      forall c | c in candidates ensures Priced(c) {
        assert C.PriceIn(r, c.name).Some?;
      }
    }
  }

  /** When every candidate has a price: if and only if no event since the last sync carried
      the name of a model that the configuration does not list. In particular all are priced
      right after a sync. */
  lemma PricedIff(cfg: ModelConfig.ModelsConfig, before: Registry, ws: seq<World>, actions: seq<Action>, interval: nat, candidates: seq<Candidate>)
    requires Steps(ws, actions, interval) && ws[0].r == ModelConfig.Synced(cfg, before)
    requires forall i :: 0 <= i < |actions| ==> !actions[i].Sync?
    requires ModelSelector.Lists(candidates, ws[|actions|].r)
    ensures AllPriced(candidates) <==> NamedBy(actions) <= ModelConfig.Desired(cfg.models)
    ensures |candidates| != 1 ==> (ModelSelector.CostScores(candidates).Some? <==> NamedBy(actions) <= ModelConfig.Desired(cfg.models))
  {
    ModelsSinceSync(ws, actions, interval);
    hide Steps;
    PricedCandidates(candidates, ws[|actions|].r);
    ModelConfig.SyncConverges(cfg, before, before);
    hide ModelConfig.Synced, ModelConfig.Desired, ModelSelector.Lists, C.PriceIn;
    var r := ws[|actions|].r;
    forall m ensures C.PriceIn(r, m).Some? <==> m in ModelConfig.Desired(cfg.models) {
      SyncPrices(cfg, before, m);
      assert C.PriceIn(r, m) == C.PriceIn(ws[0].r, m);
    }
  }

  /** The failing case: next to a configured model, one price lookup for a name that is not
      configured leaves a candidate without a price, and the cost scorer panics. */
  lemma UnconfiguredNamePanics(cfg: ModelConfig.ModelsConfig, before: Registry, name: string, candidates: seq<Candidate>)
    requires ModelConfig.Desired(cfg.models) != {} && name !in ModelConfig.Desired(cfg.models)
    requires ModelSelector.Lists(candidates, Created(ModelConfig.Synced(cfg, before), name))
    ensures Candidate(name, map[]) in candidates && ModelSelector.CostScores(candidates) == None
  {
    var r := Created(ModelConfig.Synced(cfg, before), name);
    hide ModelConfig.PriceOf, ModelConfig.GroupsOf, ModelConfig.Desired;
    var unpriced := Candidate(name, map[]);
    assert name in r && r[name] == map[];
    assert unpriced in candidates && !Priced(unpriced);
    var other :| other in ModelConfig.Desired(cfg.models);
    assert Candidate(other, r[other]) in candidates;
    assert |candidates| != 1;
  }
}
