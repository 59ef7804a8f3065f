/** pkg/modelselector/model_selector_pipeline.go: filter, score, pick. Filters and scorers
    are arbitrary functions; map iteration order and the picker's random draws are
    arbitrary. */
module Selection {
  import opened Wrappers
  import opened Messages
  import opened Datastores
  import opened MaxScore
  import opened Scorers
  import opened Handlers

  datatype Filter = Filter(name: string, run: (Body, seq<Candidate>) -> seq<Candidate>)

  /** A scorer that returns None panics; nothing in the pipeline recovers. */
  datatype Scorer = Scorer(name: string, score: (Body, seq<Candidate>) -> Option<Scores>)

  datatype WeightedScorer = WeightedScorer(scorer: Scorer, weight: real)

  /** The max-score picker, or any other; another picker may return nothing. */
  datatype Picker = MaxScorePicker | OtherPicker(name: string, pick: seq<ScoredModel> -> Option<Candidate>)

  /** What an object given to AddPlugins implements besides a scorer. */
  datatype Roles = Roles(filter: Option<Filter>, picker: Option<Picker>)

  datatype Plugin = Weighted(scorer: WeightedScorer, roles: Roles) | BareScorer(roles: Roles) | Unscored(roles: Roles)

  // ------------------------------------------------------------------------------
  // Filters

  /** Filters run in order; an empty result ends the run. */
  function Filtered(filters: seq<Filter>, body: Body, models: seq<Candidate>): seq<Candidate>
    decreases |filters|
  {
    if filters == [] then models
    else
      var kept := filters[0].run(body, models);
      if kept == [] then [] else Filtered(filters[1..], body, kept)
  }

  /** kept[i] is what filter i was given: the first is given all models, each of the others
      what its predecessor kept. All run, unless one keeps nothing, which is then the last. */
  ghost predicate FilterTrace(filters: seq<Filter>, body: Body, models: seq<Candidate>, kept: seq<seq<Candidate>>) {
    && 0 < |kept| <= |filters| + 1 && kept[0] == models
    && (forall i :: 0 <= i < |kept| - 1 ==> kept[i + 1] == filters[i].run(body, kept[i]))
    && (forall i :: 0 < i < |kept| - 1 ==> kept[i] != [])
    && (|kept| < |filters| + 1 ==> |kept| > 1 && kept[|kept| - 1] == [])
  }

  /** Each filter runs once, in order, on what its predecessor kept, until one keeps nothing;
      what the last one kept is the result. */
  lemma {:induction false} FiltersRunInOrder(filters: seq<Filter>, body: Body, models: seq<Candidate>) returns (kept: seq<seq<Candidate>>)
    ensures FilterTrace(filters, body, models, kept) && Filtered(filters, body, models) == kept[|kept| - 1]
    decreases |filters|
  {
    if filters == [] {
      return [models];
    }
    var next := filters[0].run(body, models);
    if next == [] {
      return [models, next];
    }
    var rest := FiltersRunInOrder(filters[1..], body, next);
    kept := [models] + rest;
    forall i | 0 <= i < |kept| - 1 ensures kept[i + 1] == filters[i].run(body, kept[i]) {
      if i > 0 { assert kept[i] == rest[i - 1] && filters[i] == filters[1..][i - 1]; }
    }
  }

  ghost predicate ReturnsSubset(f: Filter) {
    forall body, models, m :: m in f.run(body, models) ==> m in models
  }

  lemma {:induction false} FilteredAreCandidates(filters: seq<Filter>, body: Body, models: seq<Candidate>)
    requires forall f :: f in filters ==> ReturnsSubset(f)
    ensures forall m :: m in Filtered(filters, body, models) ==> m in models
    decreases |filters|
  {
    if filters != [] {
      var kept := filters[0].run(body, models);
      assert ReturnsSubset(filters[0]);
      FilteredAreCandidates(filters[1..], body, kept);
    }
  }

  // ------------------------------------------------------------------------------
  // Scores

  function Clamp(score: real): real {
    if score < 0.0 then 0.0 else if score > 1.0 then 1.0 else score
  }

  /** The nearest point of [0,1]. */
  lemma ClampIs(score: real, y: real)
    requires 0.0 <= y <= 1.0
    ensures 0.0 <= Clamp(score) <= 1.0
    ensures y < Clamp(score) ==> Clamp(score) <= score
    ensures y > Clamp(score) ==> score <= Clamp(score)
  {
  }

  function Term(scores: Scores, weight: real, name: string, m: Candidate): real
    requires m in scores
  {
    if m.name == name then Clamp(scores[m]) * weight else 0.0
  }

  /** What the scored models of `keys` add to the cell of name, in whatever order. */
  ghost function Points(scores: Scores, weight: real, name: string, keys: set<Candidate>): real
    requires keys <= scores.Keys
    decreases |keys|
  {
    if keys == {} then 0.0
    else
      var m :| m in keys;
      Points(scores, weight, name, keys - {m}) + Term(scores, weight, name, m)
  }

  /** The order of the iteration over the scores does not matter. */
  lemma {:induction false} AnyOrder(scores: Scores, weight: real, name: string, keys: set<Candidate>, m: Candidate)
    requires m in keys && keys <= scores.Keys
    ensures Points(scores, weight, name, keys) == Points(scores, weight, name, keys - {m}) + Term(scores, weight, name, m)
    decreases |keys|
  {
    hide Term;
    var k :| k in keys && Points(scores, weight, name, keys)
                          == Points(scores, weight, name, keys - {k}) + Term(scores, weight, name, k);
    if k != m {
      AnyOrder(scores, weight, name, keys - {k}, m);
      AnyOrder(scores, weight, name, keys - {m}, k);
      assert keys - {k} - {m} == keys - {m} - {k};
    }
  }

  /** No scorer panics on these candidates. */
  ghost predicate NoPanic(scorers: seq<WeightedScorer>, body: Body, models: seq<Candidate>) {
    forall s :: s in scorers ==> s.scorer.score(body, models).Some?
  }

  function ScoresOf(s: WeightedScorer, body: Body, models: seq<Candidate>): Scores {
    var scores := s.scorer.score(body, models);
    if scores.Some? then scores.value else map[]
  }

  /** The score that ends up in the cell of name. */
  ghost function Total(scorers: seq<WeightedScorer>, body: Body, models: seq<Candidate>, name: string): real {
    if scorers == [] then 0.0
    else
      var last := scorers[|scorers| - 1];
      var scores := ScoresOf(last, body, models);
      Total(scorers[..|scorers| - 1], body, models, name) + Points(scores, last.weight, name, scores.Keys)
  }

  // ------------------------------------------------------------------------------
  // The cells: one per model, reached through a map from names

  /** The map gives each name the position of the last model that bears it. */
  predicate Indexes(models: seq<Candidate>, index: map<string, nat>) {
    && (forall n :: n in index ==> index[n] < |models| && models[index[n]].name == n)
    && (forall i :: 0 <= i < |models| ==> models[i].name in index && i <= index[models[i].name])
  }

  method MakeCells(models: seq<Candidate>) returns (storage: array<ScoredModel>, index: map<string, nat>)
    ensures fresh(storage) && storage.Length == |models| && Indexes(models, index)
    ensures forall i :: 0 <= i < |models| ==> storage[i] == ScoredModel(models[i], 0.0)
  {
    storage, index := new ScoredModel[|models|], map[];
    for i := 0 to |models|
      invariant forall k :: 0 <= k < i ==> storage[k] == ScoredModel(models[k], 0.0)
      invariant forall n :: n in index ==> index[n] < i && models[index[n]].name == n
      invariant forall k :: 0 <= k < i ==> models[k].name in index && k <= index[models[k].name]
    {
      storage[i] := ScoredModel(models[i], 0.0);
      index := index[models[i].name := i];
    }
  }

  /** Every name's cell has gained the points of `done`. */
  ghost predicate Gained(before: seq<ScoredModel>, after: seq<ScoredModel>, index: map<string, nat>, scores: Scores, weight: real, done: set<Candidate>)
    requires done <= scores.Keys
  {
    && |after| == |before|
    && (forall n :: n in index ==> index[n] < |before|)
    && forall n :: n in index ==>
         after[index[n]] == before[index[n]].(score := before[index[n]].score + Points(scores, weight, n, done))
  }

  lemma GainOne(before: seq<ScoredModel>, now: seq<ScoredModel>, after: seq<ScoredModel>, models: seq<Candidate>, index: map<string, nat>, scores: Scores,
                weight: real, done: set<Candidate>, m: Candidate)
    requires done + {m} <= scores.Keys && m !in done && Indexes(models, index)
    requires Gained(before, now, index, scores, weight, done)
    requires m.name !in index ==> after == now
    requires m.name in index ==>
               after == now[index[m.name] := now[index[m.name]].(score := now[index[m.name]].score + Clamp(scores[m]) * weight)]
    ensures Gained(before, after, index, scores, weight, done + {m})
  {
    hide Points, Clamp;
    assert done + {m} - {m} == done;
    forall n | n in index
      ensures after[index[n]] == before[index[n]].(score := before[index[n]].score + Points(scores, weight, n, done + {m}))
    {
      AnyOrder(scores, weight, n, done + {m}, m);
    }
  }

  /** The loop over one scorer's map: every name's cell gains that name's points. */
  method AddScores(storage: array<ScoredModel>, index: map<string, nat>, models: seq<Candidate>, scores: Scores, weight: real)
    requires storage.Length == |models| && Indexes(models, index)
    modifies storage
    ensures Gained(old(storage[..]), storage[..], index, scores, weight, scores.Keys)
  {
    hide Points, Clamp;
    var keys := scores.Keys;
    ghost var done: set<Candidate> := {};
    NothingGained(storage[..], index, scores, weight);
    hide Gained;
    while keys != {}
      invariant done !! keys && done + keys == scores.Keys
      invariant Gained(old(storage[..]), storage[..], index, scores, weight, done)
      decreases |keys|
    {
      var m :| m in keys;
      ghost var now := storage[..];
      if m.name in index {
        var i := index[m.name];
        storage[i] := storage[i].(score := storage[i].score + Clamp(scores[m]) * weight);
      }
      GainOne(old(storage[..]), now, storage[..], models, index, scores, weight, done, m);
      keys, done := keys - {m}, done + {m};
    }
    assert done == scores.Keys;
  }

  lemma NothingGained(cells: seq<ScoredModel>, index: map<string, nat>, scores: Scores, weight: real)
    requires forall n :: n in index ==> index[n] < |cells|
    ensures Gained(cells, cells, index, scores, weight, {})
  {
  }

  /** Every cell holds the total of its name. */
  ghost predicate Scored(storage: seq<ScoredModel>, index: map<string, nat>, scorers: seq<WeightedScorer>, body: Body, models: seq<Candidate>) {
    && |storage| == |models| && Indexes(models, index)
    && forall n :: n in index ==> storage[index[n]] == ScoredModel(models[index[n]], Total(scorers, body, models, n))
  }

  // ------------------------------------------------------------------------------
  // The best candidate

  /** No scorer panics, c is a candidate, the last of its name, and no name totals more. */
  ghost predicate IsBest(scorers: seq<WeightedScorer>, body: Body, models: seq<Candidate>, c: Candidate) {
    && NoPanic(scorers, body, models)
    && (exists i :: 0 <= i < |models| && models[i] == c && forall j :: i < j < |models| ==> models[j].name != c.name)
    && forall m :: m in models ==> Total(scorers, body, models, m.name) <= Total(scorers, body, models, c.name)
  }

  class Pipeline {
    var filters: seq<Filter>
    var scorers: seq<WeightedScorer>
    var picker: Option<Picker>

    constructor ()
      ensures filters == [] && scorers == [] && picker == None
    {
      filters, scorers, picker := [], [], None;
    }

    /** Everything is added in order, or, on a scorer without a weight or a second picker,
        nothing is. */
    method AddPlugins(plugins: seq<Plugin>) returns (ok: bool)
      modifies this
      ensures ok <==> (forall p :: p in plugins ==> !p.BareScorer?) && |PickersOf(plugins)| + (if old(picker).Some? then 1 else 0) <= 1
      ensures ok ==> && filters == old(filters) + FiltersOf(plugins) && scorers == old(scorers) + ScorersOf(plugins)
                     && picker == if PickersOf(plugins) == [] then old(picker) else Some(PickersOf(plugins)[0])
      ensures !ok ==> filters == old(filters) && scorers == old(scorers) && picker == old(picker)
    {
      var newFilters: seq<Filter>, newScorers: seq<WeightedScorer>, newPicker: Option<Picker> := [], [], None;
      for i := 0 to |plugins|
        modifies {}
        invariant forall p :: p in plugins[..i] ==> !p.BareScorer?
        invariant newFilters == FiltersOf(plugins[..i]) && newScorers == ScorersOf(plugins[..i])
        invariant PickersOf(plugins[..i]) == if newPicker.Some? then [newPicker.value] else []
        invariant newPicker.Some? ==> picker.None?
      {
        assert plugins[..i + 1][..i] == plugins[..i];
        MorePickers(plugins, i + 1);
        var p := plugins[i];
        if p.Weighted? {
          newScorers := newScorers + [p.scorer];
        } else if p.BareScorer? {
          return false;
        }
        if p.roles.filter.Some? {
          newFilters := newFilters + [p.roles.filter.value];
        }
        if p.roles.picker.Some? {
          if picker.Some? || newPicker.Some? {
            return false;
          }
          newPicker := p.roles.picker;
        }
      }
      assert plugins[..|plugins|] == plugins;
      filters, scorers := filters + newFilters, scorers + newScorers;
      if newPicker.Some? {
        picker := newPicker;
      }
      return true;
    }

    method RunFilterPlugins(body: Body, models: seq<Candidate>) returns (filteredModels: seq<Candidate>)
      ensures filteredModels == Filtered(filters, body, models)
    {
      filteredModels := models;
      for i := 0 to |filters|
        invariant Filtered(filters[i..], body, filteredModels) == Filtered(filters, body, models)
      {
        assert filters[i..][1..] == filters[i + 1..];
        filteredModels := filters[i].run(body, filteredModels);
        if |filteredModels| == 0 {
          break;
        }
      }
    }

    method RunScorerPlugins(body: Body, models: seq<Candidate>)
      returns (panicked: bool, storage: array<ScoredModel>, index: map<string, nat>)
      ensures fresh(storage)
      ensures panicked <==> !NoPanic(scorers, body, models)
      ensures !panicked ==> Scored(storage[..], index, scorers, body, models)
    {
      storage, index := MakeCells(models);
      for k := 0 to |scorers|
        invariant Scored(storage[..], index, scorers[..k], body, models)
        invariant NoPanic(scorers[..k], body, models)
      {
        assert scorers[..k + 1][..k] == scorers[..k] && scorers[k] in scorers;
        var scores := scorers[k].scorer.score(body, models);
        if scores.None? {
          return true, storage, index;
        }
        AddScores(storage, index, models, scores.value, scorers[k].weight);
      }
      assert scorers[..|scorers|] == scorers;
      panicked := false;
    }

    /** The cells in an arbitrary order, then the picker. */
    method RunPickerPlugin(storage: array<ScoredModel>, index: map<string, nat>, random: nat -> nat, ghost body: Body, ghost models: seq<Candidate>)
      returns (target: Option<Candidate>)
      requires Scored(storage[..], index, scorers, body, models) && NoPanic(scorers, body, models)
      requires models != [] && picker.Some?
      ensures picker.value.MaxScorePicker? ==> target.Some? && IsBest(scorers, body, models, target.value)
    {
      hide Winner, Total, IsBest, IsMaximum;
      var cells := ListCells(storage, index);
      if picker.value.OtherPicker? {
        return picker.value.pick(cells[..]);
      }
      ghost var listed := cells[..];
      assert models[0].name in index && storage[index[models[0].name]] in listed;
      ghost var stored := storage[..];
      var picked, w := PickAtRandom(cells, random);
      MaximumIsBest(stored, index, scorers, body, models, listed, w);
      return Some(picked);
    }

    /** Selection optimality: with the max-score picker a run returns a best candidate among
        those the filters leave, whatever the order of the maps and the draws of the
        shuffle. It fails exactly when the filters leave nothing, and panics exactly when
        they leave something a scorer panics on. */
    method Run(body: Body, candidates: seq<Candidate>, random: nat -> nat) returns (outcome: RunOutcome)
      requires picker.Some?
      ensures var models := Filtered(filters, body, candidates);
              && (outcome == Returned(Failure(Coded("ResourceExhausted"))) <==> models == [])
              && (outcome.Panicked? <==> models != [] && !NoPanic(scorers, body, models))
              && (outcome.Returned? && outcome.result.Failure? ==> models == [])
              && (outcome.Returned? && outcome.result.Success? && picker.value.MaxScorePicker? ==>
                    outcome.result.value.Some? && IsBest(scorers, body, models, outcome.result.value.value))
    {
      hide IsBest, NoPanic, Scored;
      var models := RunFilterPlugins(body, candidates);
      if |models| == 0 {
        return Returned(Failure(Coded("ResourceExhausted")));
      }
      var panicked, storage, index := RunScorerPlugins(body, models);
      if panicked {
        return Panicked;
      }
      var target := RunPickerPlugin(storage, index, random, body, models);
      return Returned(Success(target));
    }
  }

  datatype RunOutcome = Returned(result: Result<Option<Candidate>, Error>) | Panicked

  /** The max-score picker with the draws of a random source. */
  method PickAtRandom(cells: array<ScoredModel>, random: nat -> nat) returns (target: Candidate, ghost w: ScoredModel)
    requires cells.Length > 0
    modifies cells
    ensures IsMaximum(old(cells[..]), w) && target == w.model
  {
    var draws := seq(cells.Length, i requires 0 <= i < cells.Length => random(i) % (i + 1));
    WinnerIsMaximum(cells[..], draws);
    w := Winner(cells[..], draws);
    hide Winner, IsMaximum;
    target := Pick(cells, draws);
  }

  /** The values of the map, in an arbitrary order. */
  method ListCells(storage: array<ScoredModel>, index: map<string, nat>) returns (cells: array<ScoredModel>)
    requires forall n :: n in index ==> index[n] < storage.Length
    ensures fresh(cells) && cells.Length == |index|
    ensures forall n :: n in index ==> storage[index[n]] in cells[..]
    ensures forall x :: x in cells[..] ==> exists n :: n in index && storage[index[n]] == x
  {
    cells := new ScoredModel[|index|];
    ghost var listed: seq<string> := [];
    var names := index.Keys;
    while names != {}
      invariant names <= index.Keys && |listed| + |names| == |index|
      invariant forall n :: n in index ==> n in names || n in listed
      invariant forall k :: 0 <= k < |listed| ==> listed[k] in index && cells[k] == storage[index[listed[k]]]
      decreases |names|
    {
      var n :| n in names;
      cells[|index| - |names|] := storage[index[n]];
      names, listed := names - {n}, listed + [n];
    }
    forall n | n in index ensures storage[index[n]] in cells[..] {
      var k :| 0 <= k < |listed| && listed[k] == n;
      assert cells[..][k] == storage[index[n]];
    }
    forall x | x in cells[..] ensures exists n :: n in index && storage[index[n]] == x {
      var k :| 0 <= k < |listed| && cells[k] == x;
      assert listed[k] in index;
    }
  }

  lemma MaximumIsBest(storage: seq<ScoredModel>, index: map<string, nat>, scorers: seq<WeightedScorer>, body: Body, models: seq<Candidate>,
                      listed: seq<ScoredModel>, w: ScoredModel)
    requires Scored(storage, index, scorers, body, models) && NoPanic(scorers, body, models) && IsMaximum(listed, w)
    requires forall n :: n in index ==> storage[index[n]] in listed
    requires forall x :: x in listed ==> exists n :: n in index && storage[index[n]] == x
    ensures IsBest(scorers, body, models, w.model)
  {
    hide Total;
    var n :| n in index && storage[index[n]] == w;
    forall m | m in models ensures Total(scorers, body, models, m.name) <= Total(scorers, body, models, n) {
      assert m.name in index && storage[index[m.name]] in listed;
    }
  }

  // ------------------------------------------------------------------------------
  // What AddPlugins sorts out

  function FiltersOf(plugins: seq<Plugin>): seq<Filter> {
    if plugins == [] then []
    else
      var p := plugins[|plugins| - 1];
      FiltersOf(plugins[..|plugins| - 1]) + (if p.roles.filter.Some? then [p.roles.filter.value] else [])
  }

  function ScorersOf(plugins: seq<Plugin>): seq<WeightedScorer> {
    if plugins == [] then []
    else
      var p := plugins[|plugins| - 1];
      ScorersOf(plugins[..|plugins| - 1]) + (if p.Weighted? then [p.scorer] else [])
  }

  function PickersOf(plugins: seq<Plugin>): seq<Picker> {
    if plugins == [] then []
    else
      var p := plugins[|plugins| - 1];
      PickersOf(plugins[..|plugins| - 1]) + (if p.roles.picker.Some? then [p.roles.picker.value] else [])
  }

  lemma {:induction false} MorePickers(plugins: seq<Plugin>, i: nat)
    requires i <= |plugins|
    ensures |PickersOf(plugins[..i])| <= |PickersOf(plugins)|
    decreases |plugins|
  {
    if i == |plugins| {
      assert plugins[..i] == plugins;
    } else {
      MorePickers(plugins[..|plugins| - 1], i);
      assert plugins[..|plugins| - 1][..i] == plugins[..i];
    }
  }

  // ------------------------------------------------------------------------------
  // What the best candidate is

  ghost predicate DistinctNames(models: seq<Candidate>) {
    forall i, j :: 0 <= i < j < |models| ==> models[i].name != models[j].name
  }

  ghost predicate Named(models: seq<Candidate>, name: string) {
    exists m :: m in models && m.name == name
  }

  /** Scored models of a candidate's name are candidates. Models of unknown names may be
      scored too: the pipeline ignores them. */
  ghost predicate ScoresCandidates(scorers: seq<WeightedScorer>, body: Body, models: seq<Candidate>) {
    forall s :: s in scorers ==> forall m :: m in ScoresOf(s, body, models) && Named(models, m.name) ==> m in models
  }

  function ClampedScore(s: WeightedScorer, body: Body, models: seq<Candidate>, m: Candidate): real {
    var scores := ScoresOf(s, body, models);
    if m in scores then Clamp(scores[m]) else 0.0
  }

  /** The sum over the scorers of weight times clamped score. */
  function WeightedSum(scorers: seq<WeightedScorer>, body: Body, models: seq<Candidate>, m: Candidate): real {
    if scorers == [] then 0.0
    else
      var last := scorers[|scorers| - 1];
      WeightedSum(scorers[..|scorers| - 1], body, models, m) + Weighed(last.weight, ClampedScore(last, body, models, m))
  }

  function Weighed(weight: real, score: real): real { weight * score }

  /** The sum over scorers is that over two parts of them; one scorer gives its weight times
      its score, or 0 for a model it does not score. */
  lemma {:induction false} WeightedSumIs(a: seq<WeightedScorer>, b: seq<WeightedScorer>, s: WeightedScorer, body: Body, models: seq<Candidate>, m: Candidate)
    ensures WeightedSum(a + b, body, models, m) == WeightedSum(a, body, models, m) + WeightedSum(b, body, models, m)
    ensures WeightedSum([s], body, models, m) == s.weight * ClampedScore(s, body, models, m)
    decreases |b|
  {
    hide ClampedScore;
    assert [s][..0] == [] && WeightedSum([], body, models, m) == 0.0;
    if b == [] {
      assert a + b == a;
    } else {
      WeightedSumIs(a, b[..|b| - 1], s, body, models, m);
      assert (a + b)[..|a + b| - 1] == a + b[..|b| - 1];
    }
  }

  lemma {:induction false} PointsOfOne(scores: Scores, weight: real, keys: set<Candidate>, m: Candidate)
    requires keys <= scores.Keys && forall k :: k in keys && k.name == m.name ==> k == m
    ensures Points(scores, weight, m.name, keys) == if m in keys then weight * Clamp(scores[m]) else 0.0
    decreases |keys|
  {
    if keys != {} {
      var k :| k in keys && (m in keys ==> k == m);
      AnyOrder(scores, weight, m.name, keys, k);
      PointsOfOne(scores, weight, keys - {k}, m);
    }
  }

  lemma SameName(models: seq<Candidate>, a: Candidate, b: Candidate)
    requires DistinctNames(models) && a in models && b in models && a.name == b.name
    ensures a == b
  {
  }

  lemma {:induction false} TotalIsWeightedSum(scorers: seq<WeightedScorer>, body: Body, models: seq<Candidate>, m: Candidate)
    requires DistinctNames(models) && ScoresCandidates(scorers, body, models) && m in models
    ensures Total(scorers, body, models, m.name) == WeightedSum(scorers, body, models, m)
    decreases |scorers|
  {
    hide Clamp, Points, DistinctNames;
    if scorers != [] {
      var last := scorers[|scorers| - 1];
      var scores := ScoresOf(last, body, models);
      assert forall s :: s in scorers[..|scorers| - 1] ==> s in scorers;
      TotalIsWeightedSum(scorers[..|scorers| - 1], body, models, m);
      assert last in scorers;
      forall k | k in scores.Keys && k.name == m.name ensures k == m {
        SameName(models, k, m);
      }
      PointsOfOne(scores, last.weight, scores.Keys, m);
    }
  }

  /** For distinct names and scorers that score the candidates without panic, best means a
      candidate whose weighted sum no other candidate exceeds. */
  lemma BestMaximisesWeightedSum(scorers: seq<WeightedScorer>, body: Body, models: seq<Candidate>, c: Candidate)
    requires DistinctNames(models) && ScoresCandidates(scorers, body, models)
    ensures IsBest(scorers, body, models, c) <==>
            NoPanic(scorers, body, models) && c in models && forall m :: m in models ==> WeightedSum(scorers, body, models, m) <= WeightedSum(scorers, body, models, c)
  {
    hide Total, WeightedSum, ScoresCandidates, NoPanic;
    if c in models {
      var i :| 0 <= i < |models| && models[i] == c;
      assert forall j :: i < j < |models| ==> models[j].name != c.name;
      forall m | m in models ensures Total(scorers, body, models, m.name) == WeightedSum(scorers, body, models, m) {
        TotalIsWeightedSum(scorers, body, models, m);
      }
    }
  }

  /** The result is unique whenever the maximum is. */
  lemma UniqueMaximumIsChosen(scorers: seq<WeightedScorer>, body: Body, models: seq<Candidate>, c: Candidate, chosen: Candidate)
    requires DistinctNames(models) && ScoresCandidates(scorers, body, models)
    requires c in models && forall m :: m in models && m != c ==> WeightedSum(scorers, body, models, m) < WeightedSum(scorers, body, models, c)
    requires IsBest(scorers, body, models, chosen)
    ensures chosen == c
  {
    BestMaximisesWeightedSum(scorers, body, models, chosen);
  }

  /** A candidate that another one beats under every scorer is never chosen. */
  lemma DominatedIsNeverChosen(scorers: seq<WeightedScorer>, body: Body, models: seq<Candidate>, m: Candidate, loser: Candidate)
    requires DistinctNames(models) && ScoresCandidates(scorers, body, models) && m in models
    requires forall s :: s in scorers ==> s.weight >= 0.0 && ClampedScore(s, body, models, m) >= ClampedScore(s, body, models, loser)
    requires exists s :: s in scorers && s.weight > 0.0 && ClampedScore(s, body, models, m) > ClampedScore(s, body, models, loser)
    ensures !IsBest(scorers, body, models, loser)
  {
    Dominates(scorers, body, models, m, loser);
    BestMaximisesWeightedSum(scorers, body, models, loser);
  }

  lemma {:induction false} Dominates(scorers: seq<WeightedScorer>, body: Body, models: seq<Candidate>, m: Candidate, loser: Candidate)
    requires forall s :: s in scorers ==> s.weight >= 0.0 && ClampedScore(s, body, models, m) >= ClampedScore(s, body, models, loser)
    ensures WeightedSum(scorers, body, models, m) >= WeightedSum(scorers, body, models, loser)
    ensures (exists s :: s in scorers && s.weight > 0.0 && ClampedScore(s, body, models, m) > ClampedScore(s, body, models, loser))
            ==> WeightedSum(scorers, body, models, m) > WeightedSum(scorers, body, models, loser)
    decreases |scorers|
  {
    hide ClampedScore, Weighed;
    if scorers != [] {
      var last, rest := scorers[|scorers| - 1], scorers[..|scorers| - 1];
      assert last in scorers && forall s :: s in rest ==> s in scorers;
      assert forall s :: s in scorers ==> s in rest || s == last;
      Dominates(rest, body, models, m, loser);
      Times(last.weight, ClampedScore(last, body, models, m), ClampedScore(last, body, models, loser));
      if s :| s in scorers && s.weight > 0.0 && ClampedScore(s, body, models, m) > ClampedScore(s, body, models, loser) {
        assert s in rest || s == last;
      }
    }
  }

  lemma Times(w: real, x: real, y: real)
    requires w >= 0.0 && x >= y
    ensures Weighed(w, x) >= Weighed(w, y)
    ensures w > 0.0 && x > y ==> Weighed(w, x) > Weighed(w, y)
  {
  }
}
