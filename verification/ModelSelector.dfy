/** pkg/framework/plugins/requesthandling/modelselector/plugin.go, from the datastore to the
    "model" field of the request; and what a run with the real filter and scorers selects. */
module ModelSelector {
  import opened Wrappers
  import opened Messages
  import opened Datastores
  import opened MaxScore
  import opened Scorers
  import opened Handlers
  import opened Selection
  import ModelConfig
  import ModelGroup

  const SELECTED_MODEL := "model-selector/selected-model"

  function Snapshot(m: Model): (c: Candidate) reads m { Candidate(m.name, m.attributes) }

  /** The candidates are the models of the store, each once, in some order. */
  ghost predicate Lists(candidates: seq<Candidate>, r: Registry) {
    && Selection.DistinctNames(candidates)
    && forall c :: c in candidates <==> c.name in r && r[c.name] == c.attributes
  }

  method ReadCandidates(store: Store) returns (candidates: seq<Candidate>)
    requires store.Valid()
    ensures Lists(candidates, store.Contents())
  {
    var models := store.GetModels((_, _) => true);
    candidates := [];
    for i := 0 to |models|
      invariant |candidates| == i
      invariant forall k :: 0 <= k < i ==> candidates[k] == Snapshot(models[k])
    {
      candidates := candidates + [Snapshot(models[i])];
    }
    ghost var r := store.Contents();
    forall c | c in candidates ensures c.name in r && r[c.name] == c.attributes {
      var k :| 0 <= k < |models| && candidates[k] == c;
      assert models[k] in models;
    }
    forall c: Candidate | c.name in r && r[c.name] == c.attributes ensures c in candidates {
      var m := store.models[c.name];
      assert m in store.models.Values;
      var k :| 0 <= k < |models| && models[k] == m;
      assert candidates[k] == c;
    }
  }

  class ModelSelectorPlugin {
    const pipeline: Pipeline
    const datastore: Store

    constructor (pipeline: Pipeline, datastore: Store)
      ensures this.pipeline == pipeline && this.datastore == datastore
    {
      this.pipeline, this.datastore := pipeline, datastore;
    }

    /** A request that finds a model gets a best one among the filtered candidates, in its
        body and in the cycle state; any other request is left as it was. The call panics
        exactly when a scorer does on what the filters leave, or when a model is found and
        the body is a nil map. */
    method ProcessRequest(request: InferenceMessage, cycle: CycleState, random: nat -> nat)
      returns (panicked: bool, error: Option<Error>, cycle': CycleState, ghost candidates: seq<Candidate>)
      requires datastore.Valid() && pipeline.picker.Some?
      modifies request
      ensures Lists(candidates, datastore.Contents())
      ensures panicked || error.Some? ==> request.Value() == old(request.Value()) && cycle' == cycle
      ensures var models := Filtered(pipeline.filters, old(request.body), candidates);
              var scorersPanic := !NoPanic(pipeline.scorers, old(request.body), models);
              && (candidates == [] ==> !panicked && error == Some(Uncoded))
              && (candidates != [] ==> (!panicked && error == Some(Coded("ResourceExhausted")) <==> models == []))
              && (candidates != [] && models != [] && scorersPanic ==> panicked)
              && (panicked ==> candidates != [] && models != [] && (scorersPanic || old(request.nilBody)))
              && (candidates != [] && models != [] && pipeline.picker.value.MaxScorePicker? ==>
                    && (panicked <==> scorersPanic || old(request.nilBody))
                    && (!panicked ==>
                          && error.None?
                          && exists c :: IsBest(pipeline.scorers, old(request.body), models, c)
                                         && request.Value() == ApplyOp(old(request.Value()), SetBodyField("model", JString(c.name)))
                                         && cycle' == cycle[SELECTED_MODEL := JString(c.name)]))
    {
      hide IsBest, Filtered, Lists, NoPanic;
      cycle' := cycle;
      var candidateModels := ReadCandidates(datastore);
      candidates := candidateModels;
      if |candidateModels| == 0 {
        return false, Some(Uncoded), cycle, candidates;
      }
      var outcome := pipeline.Run(request.body, candidateModels, random);
      if outcome.Panicked? {
        return true, None, cycle, candidates;
      }
      var result := outcome.result;
      if result.Failure? {
        return false, Some(result.error), cycle, candidates;
      }
      if result.value.None? {
        return false, Some(Uncoded), cycle, candidates;
      }
      var selectedName := result.value.value.name;
      var panics := request.SetBodyField("model", JString(selectedName));
      if panics {
        return true, None, cycle, candidates;
      }
      return false, None, cycle[SELECTED_MODEL := JString(selectedName)], candidates;
    }
  }

  // ------------------------------------------------------------------------------
  // The real filter

  /** The model-group filter on candidates. */
  function Kept(sel: ModelGroup.Selector, models: seq<Candidate>): seq<Candidate> {
    if models == [] then []
    else
      var before, m := Kept(sel, models[..|models| - 1]), models[|models| - 1];
      before + (if ModelGroup.Keeps(sel, m.name, m.attributes) && (sel.Named? ==> before == []) then [m] else [])
  }

  ghost function Snapshots(models: seq<Model>): (cs: seq<Candidate>)
    reads models
    ensures |cs| == |models|
  {
    seq(|models|, i requires 0 <= i < |models| reads models => Snapshot(models[i]))
  }

  /** It is the filter that ModelGroup.Filter runs on the objects. */
  lemma {:induction false} KeptIsWanted(sel: ModelGroup.Selector, models: seq<Model>)
    ensures Kept(sel, Snapshots(models)) == Snapshots(ModelGroup.Wanted(sel, models))
    decreases |models|
  {
    if models != [] {
      var rest, m := models[..|models| - 1], models[|models| - 1];
      KeptIsWanted(sel, rest);
      assert Snapshots(models)[..|models| - 1] == Snapshots(rest);
      assert Snapshots(ModelGroup.Wanted(sel, rest) + [m]) == Snapshots(ModelGroup.Wanted(sel, rest)) + [Snapshot(m)];
    }
  }

  const ModelGroupFilter := Filter("model-group-filter", (body: Body, models: seq<Candidate>) => Kept(ModelGroup.Select(body), models))

  lemma {:induction false} KeptIsFilter(sel: ModelGroup.Selector, models: seq<Candidate>)
    requires !sel.Named?
    ensures forall m :: m in Kept(sel, models) <==> m in models && ModelGroup.Keeps(sel, m.name, m.attributes)
    decreases |models|
  {
    hide ModelGroup.Keeps;
    if models != [] {
      var rest, last := models[..|models| - 1], models[|models| - 1];
      KeptIsFilter(sel, rest);
      assert Kept(sel, models) == Kept(sel, rest) + (if ModelGroup.Keeps(sel, last.name, last.attributes) then [last] else []);
      hide Kept;
      assert forall m :: m in models <==> m in rest || m == last;
    }
  }

  lemma {:induction false} KeptAreDistinct(sel: ModelGroup.Selector, models: seq<Candidate>)
    requires Selection.DistinctNames(models)
    ensures Selection.DistinctNames(Kept(sel, models)) && forall m :: m in Kept(sel, models) ==> m in models
    decreases |models|
  {
    hide ModelGroup.Keeps;
    if models != [] {
      var rest, last := models[..|models| - 1], models[|models| - 1];
      KeptAreDistinct(sel, rest);
      var kept := Kept(sel, rest);
      forall i | 0 <= i < |kept| ensures kept[i].name != last.name && kept[i] in models {
        assert kept[i] in rest;
        var k :| 0 <= k < |rest| && rest[k] == kept[i];
        assert models[k] == kept[i];
      }
    }
  }

  // ------------------------------------------------------------------------------
  // The real scorers

  /** Counts are int64 values, so this is the map the scorer returns. */
  function InFlightScores(models: seq<Candidate>): Scores {
    if Int64Counts(models) then map m | m in models :: if m in models then InFlightScore(models, m) else 0.0 else map[]
  }

  /** What the cost scorer returns, unless it panics. */
  function CostScores(models: seq<Candidate>): Option<Scores> {
    if Scorable(models) then Some(map m | m in models :: if m in models then CostScore(models, m) else 0.0) else None
  }

  const InFlightScorer := Scorer("inflight-requests-scorer", (body: Body, models: seq<Candidate>) => Some(InFlightScores(models)))
  const CostScorer := Scorer("cost-scorer", (body: Body, models: seq<Candidate>) => CostScores(models))

  /** With a single scorer of positive weight that stays in [0,1], best is highest score. */
  lemma SingleScorer(s: WeightedScorer, body: Body, models: seq<Candidate>, c: Candidate)
    requires Selection.DistinctNames(models) && s.weight > 0.0 && s.scorer.score(body, models).Some?
    requires s.scorer.score(body, models).value.Keys == set m | m in models
    requires forall m :: m in models ==> 0.0 <= s.scorer.score(body, models).value[m] <= 1.0
    ensures var scores := s.scorer.score(body, models).value;
            IsBest([s], body, models, c) <==> c in models && forall m :: m in models ==> scores[m] <= scores[c]
  {
    hide IsBest, Weighed;
    BestMaximisesWeightedSum([s], body, models, c);
    var scores := ScoresOf(s, body, models);
    forall m | m in models ensures WeightedSum([s], body, models, m) == Weighed(s.weight, scores[m]) {
      assert [s][..0] == [];
      assert WeightedSum([], body, models, m) == 0.0;
    }
    if c in models {
      forall m | m in models
        ensures Weighed(s.weight, scores[m]) <= Weighed(s.weight, scores[c]) <==> scores[m] <= scores[c]
      {
        if scores[m] <= scores[c] { Times(s.weight, scores[c], scores[m]); } else { Times(s.weight, scores[m], scores[c]); }
      }
    }
  }

  /** The in-flight scorer alone selects exactly a least loaded candidate. */
  lemma LeastLoadedWins(weight: real, body: Body, models: seq<Candidate>, c: Candidate)
    requires Selection.DistinctNames(models) && weight > 0.0 && Int64Counts(models)
    requires forall m :: m in models ==> InFlightRequestCount(m) >= 0
    ensures IsBest([WeightedScorer(InFlightScorer, weight)], body, models, c) <==>
            c in models && forall m :: m in models ==> InFlightRequestCount(c) <= InFlightRequestCount(m)
  {
    hide IsBest, InFlightRequestCount, InFlightScore;
    var s := WeightedScorer(InFlightScorer, weight);
    if models != [] {
      NonNegativeCountsFit(models);
      forall a, b | a in models && b in models
        ensures 0.0 <= InFlightScore(models, a) <= 1.0
        ensures InFlightScore(models, a) > InFlightScore(models, b) <==> InFlightRequestCount(a) < InFlightRequestCount(b)
      {
        InFlightReversesLoad(models, a, b);
      }
    }
    SingleScorer(s, body, models, c);
  }

  /** The cost scorer alone selects exactly a cheapest candidate, provided that all are
      priced; if there is a choice and one is not, nothing is selected: the run panics. */
  lemma CheapestWins(weight: real, body: Body, models: seq<Candidate>, c: Candidate)
    requires Selection.DistinctNames(models) && weight > 0.0 && NonNegativePrices(models)
    ensures NoPanic([WeightedScorer(CostScorer, weight)], body, models) <==> Scorable(models)
    ensures IsBest([WeightedScorer(CostScorer, weight)], body, models, c) <==>
            Scorable(models) && c in models && (|models| != 1 ==> forall m :: m in models ==> Price(c) <= Price(m))
  {
    var s := WeightedScorer(CostScorer, weight);
    assert s in [s];
    if Scorable(models) {
      forall a, b | a in models && b in models
        ensures 0.0 <= CostScore(models, a) <= 1.0
        ensures |models| >= 2 ==> (CostScore(models, a) > CostScore(models, b) <==> Price(a) < Price(b))
        ensures |models| == 1 ==> a == b
      {
        CostReversesPrice(models, a, b);
      }
      hide IsBest, CostScore;
      SingleScorer(s, body, models, c);
    }
  }

  // ------------------------------------------------------------------------------
  // End to end

  /** What the group filter leaves of the candidates of a synced store. */
  lemma GroupCandidates(cfg: ModelConfig.ModelsConfig, before: Registry, candidates: seq<Candidate>, body: Body, g: string)
    requires Lists(candidates, ModelConfig.Synced(cfg, before))
    requires g != "" && "model" in body && body["model"] == JString(ModelGroup.AUTO_GROUP_PREFIX + g)
    ensures var models := Filtered([ModelGroupFilter], body, candidates);
            && Selection.DistinctNames(models)
            && forall m :: m in models <==> m in candidates && ModelGroup.ListedIn(cfg, g, m.name)
  {
    var r := ModelConfig.Synced(cfg, before);
    var sel := ModelGroup.SelectName(ModelGroup.AUTO_GROUP_PREFIX + g);
    var models := Kept(sel, candidates);
    assert Filtered([ModelGroupFilter], body, candidates) == models by {
      assert ModelGroup.Select(body) == sel;
      assert ModelGroupFilter.run(body, candidates) == models;
      assert [ModelGroupFilter][1..] == [];
    }
    KeptIsFilter(sel, candidates);
    KeptAreDistinct(sel, candidates);
    ModelGroup.GroupInversionRoundTrip(cfg, before, g, "");
    hide ModelGroup.SelectName, ModelGroup.Select, ModelGroup.ListedIn, ModelConfig.Desired, Filtered, Kept;
    forall m | m in candidates ensures m in models <==> ModelGroup.ListedIn(cfg, g, m.name) {
      assert m.name in ModelGroup.KeptNames(sel, r) <==> ModelGroup.Keeps(sel, m.name, r[m.name]);
    }
  }

  /** From configuration to choice: after a sync over any store, a request for "auto/g"
      through the group filter, the in-flight scorer and the max-score picker can get
      exactly a least loaded one of the registered models that some group g lists, and is
      refused exactly when there is none. */
  lemma GroupRequestGetsLeastLoaded(cfg: ModelConfig.ModelsConfig, before: Registry, candidates: seq<Candidate>, weight: real, body: Body, g: string, c: Candidate)
    requires Lists(candidates, ModelConfig.Synced(cfg, before)) && weight > 0.0 && Int64Counts(candidates)
    requires forall m :: m in candidates ==> InFlightRequestCount(m) >= 0
    requires g != "" && "model" in body && body["model"] == JString(ModelGroup.AUTO_GROUP_PREFIX + g)
    ensures var models := Filtered([ModelGroupFilter], body, candidates);
            && (models == [] <==> forall m :: m in candidates ==> !ModelGroup.ListedIn(cfg, g, m.name))
            && (IsBest([WeightedScorer(InFlightScorer, weight)], body, models, c) <==>
                  && c in candidates && ModelGroup.ListedIn(cfg, g, c.name)
                  && forall m :: m in candidates && ModelGroup.ListedIn(cfg, g, m.name) ==> InFlightRequestCount(c) <= InFlightRequestCount(m))
  {
    GroupCandidates(cfg, before, candidates, body, g);
    hide ModelConfig.Synced, ModelConfig.Desired, ModelGroup.ListedIn, InFlightRequestCount, IsBest, Filtered, Lists;
    var models := Filtered([ModelGroupFilter], body, candidates);
    assert models != [] ==> models[0] in models;
    LeastLoadedWins(weight, body, models, c);
  }

  /** The candidates are the registered models. */
  lemma CandidatesAreRegistered(cfg: ModelConfig.ModelsConfig, before: Registry, candidates: seq<Candidate>, name: string)
    requires Lists(candidates, ModelConfig.Synced(cfg, before))
    ensures (exists m :: m in candidates && m.name == name) <==> name in ModelConfig.Desired(cfg.models)
  {
    var r := ModelConfig.Synced(cfg, before);
    hide ModelConfig.Desired;
    if name in ModelConfig.Desired(cfg.models) {
      assert Candidate(name, r[name]) in candidates;
    }
  }

  /** The price that the scorer reads of a candidate is a millionth of the configured one. */
  lemma ConfiguredPrice(cfg: ModelConfig.ModelsConfig, before: Registry, candidates: seq<Candidate>, m: Candidate)
    requires Lists(candidates, ModelConfig.Synced(cfg, before)) && m in candidates
    ensures Priced(m) && Price(m) >= 0.0 && exists i: nat :: ModelConfig.Decides(cfg.models, i, m.name)
    ensures forall i: nat :: ModelConfig.Decides(cfg.models, i, m.name) ==> Price(m) * 1000000.0 == cfg.models[i].pricing.inputPerMillion
  {
    ModelConfig.SyncedPrices(cfg, before, m.name);
    hide ModelConfig.Synced;
  }

  /** No entry that decides about a name has a lower input price than those about m. */
  ghost predicate ConfiguredCheapest(cfg: ModelConfig.ModelsConfig, m: string) {
    forall i: nat, j: nat, n :: ModelConfig.Decides(cfg.models, i, m) && ModelConfig.Decides(cfg.models, j, n) ==>
      cfg.models[i].pricing.inputPerMillion <= cfg.models[j].pricing.inputPerMillion
  }

  lemma CheapestIsConfigured(cfg: ModelConfig.ModelsConfig, before: Registry, candidates: seq<Candidate>, c: Candidate)
    requires Lists(candidates, ModelConfig.Synced(cfg, before)) && c in candidates && AllPriced(candidates)
    ensures (forall m :: m in candidates ==> Price(c) <= Price(m)) <==> ConfiguredCheapest(cfg, c.name)
  {
    var r := ModelConfig.Synced(cfg, before);
    ConfiguredPrice(cfg, before, candidates, c);
    hide ModelConfig.Synced, ModelConfig.Decides, Price;
    if forall m :: m in candidates ==> Price(c) <= Price(m) {
      forall i: nat, j: nat, n | ModelConfig.Decides(cfg.models, i, c.name) && ModelConfig.Decides(cfg.models, j, n)
        ensures cfg.models[i].pricing.inputPerMillion <= cfg.models[j].pricing.inputPerMillion
      {
        ModelConfig.SyncedPrices(cfg, before, n);
        var m := Candidate(n, r[n]);
        assert m in candidates;
        ConfiguredPrice(cfg, before, candidates, m);
      }
    }
    if ConfiguredCheapest(cfg, c.name) {
      forall m | m in candidates ensures Price(c) <= Price(m) {
        ConfiguredPrice(cfg, before, candidates, m);
      }
    }
  }

  /** From configuration to choice, for the cost scorer: right after a sync over any store it
      can select exactly the candidates with the lowest configured input price. */
  lemma CheapestConfiguredWins(cfg: ModelConfig.ModelsConfig, before: Registry, candidates: seq<Candidate>, weight: real, body: Body, c: Candidate)
    requires Lists(candidates, ModelConfig.Synced(cfg, before)) && weight > 0.0
    ensures IsBest([WeightedScorer(CostScorer, weight)], body, candidates, c) <==> c in candidates && ConfiguredCheapest(cfg, c.name)
  {
    hide ModelConfig.Synced, IsBest, Price, NoPanic, ConfiguredCheapest;
    forall m | m in candidates ensures Priced(m) && Price(m) >= 0.0 {
      ConfiguredPrice(cfg, before, candidates, m);
    }
    CheapestWins(weight, body, candidates, c);
    if c in candidates {
      CheapestIsConfigured(cfg, before, candidates, c);
      assert |candidates| == 1 ==> forall m :: m in candidates ==> m == c;
    }
  }
}
