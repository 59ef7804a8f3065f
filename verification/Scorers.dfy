/** The in-flight and cost scorers of pkg/framework/plugins/modelselector/scorer, over exact
    arithmetic: what their scores say about loads and prices. */
module Scorers {
  import opened Wrappers
  import opened Datastores
  import opened MaxScore
  import RequestMetadata

  const MAX_INT64 := RequestMetadata.MAX_INT64
  const MIN_INT64: int := -MAX_INT64 - 1

  type Scores = map<Candidate, real>

  // ------------------------------------------------------------------------------
  // In-flight requests

  /** A missing attribute, or one of another type, counts as idle. */
  function InFlightRequestCount(m: Candidate): int {
    if REQUEST_METADATA in m.attributes && m.attributes[REQUEST_METADATA].Requests?
    then m.attributes[REQUEST_METADATA].count.requests else 0
  }

  function MinCount(models: seq<Candidate>): int {
    if models == [] then MAX_INT64
    else
      var least, count := MinCount(models[..|models| - 1]), InFlightRequestCount(models[|models| - 1]);
      if count < least then count else least
  }

  function MaxCount(models: seq<Candidate>): int {
    if models == [] then MIN_INT64
    else
      var most, count := MaxCount(models[..|models| - 1]), InFlightRequestCount(models[|models| - 1]);
      if count > most then count else most
  }

  /** The counts are int64 values. */
  predicate Int64Counts(models: seq<Candidate>) {
    forall m :: m in models ==> MIN_INT64 <= InFlightRequestCount(m) <= MAX_INT64
  }

  lemma {:induction false} CountBounds(models: seq<Candidate>, m: Candidate)
    requires m in models
    ensures MinCount(models) <= InFlightRequestCount(m) <= MaxCount(models)
  {
    var last := |models| - 1;
    if m != models[last] {
      assert m in models[..last];
      CountBounds(models[..last], m);
    }
  }

  /** The bounds are counts of the list. */
  lemma {:induction false} CountsReached(models: seq<Candidate>) returns (least: Candidate, most: Candidate)
    requires Int64Counts(models) && models != []
    ensures least in models && InFlightRequestCount(least) == MinCount(models)
    ensures most in models && InFlightRequestCount(most) == MaxCount(models)
  {
    var last := models[|models| - 1];
    var rest := models[..|models| - 1];
    assert last in models && MIN_INT64 <= InFlightRequestCount(last) <= MAX_INT64;
    least, most := last, last;
    if rest != [] {
      assert forall m :: m in rest ==> m in models;
      var l, m := CountsReached(rest);
      if InFlightRequestCount(last) >= MinCount(rest) { least := l; }
      if InFlightRequestCount(last) <= MaxCount(rest) { most := m; }
    }
  }

  lemma WrapOfSpread(d: int)
    requires 0 <= d <= MAX_INT64 - MIN_INT64
    ensures d != 0 ==> RequestMetadata.Wrap64(d) != 0
    ensures d <= MAX_INT64 ==> RequestMetadata.Wrap64(d) == d
  {
  }

  lemma Spread(models: seq<Candidate>)
    requires Int64Counts(models) && models != []
    ensures MIN_INT64 <= MinCount(models) <= MaxCount(models) <= MAX_INT64
  {
    var least, most := CountsReached(models);
    CountBounds(models, least);
  }

  /** float64(maxCount - count) / float64(maxCount - minCount), the differences in int64. */
  function InFlightScore(models: seq<Candidate>, m: Candidate): real
    requires Int64Counts(models) && m in models
  {
    Spread(models);
    WrapOfSpread(MaxCount(models) - MinCount(models));
    Normalised(MaxCount(models), MinCount(models), InFlightRequestCount(m))
  }

  function Normalised(most: int, least: int, count: int): real
    requires RequestMetadata.Wrap64(most - least) == 0 ==> most == least
  {
    if most == least then 1.0
    else RequestMetadata.Wrap64(most - count) as real / RequestMetadata.Wrap64(most - least) as real
  }

  /** The first loop: the count of every model, and the bounds of the counts. */
  method CountRequests(models: seq<Candidate>) returns (minCount: int, maxCount: int, requestCounts: map<Candidate, int>)
    ensures minCount == MinCount(models) && maxCount == MaxCount(models)
    ensures forall m :: m in models ==> m in requestCounts && requestCounts[m] == InFlightRequestCount(m)
  {
    hide InFlightRequestCount;
    minCount, maxCount, requestCounts := MAX_INT64, MIN_INT64, map[];
    for i := 0 to |models|
      invariant minCount == MinCount(models[..i]) && maxCount == MaxCount(models[..i])
      invariant forall j :: 0 <= j < i ==> models[j] in requestCounts
      invariant forall m :: m in requestCounts ==> requestCounts[m] == InFlightRequestCount(m)
    {
      assert models[..i + 1][..i] == models[..i];
      var count := InFlightRequestCount(models[i]);
      requestCounts := requestCounts[models[i] := count];
      if count < minCount { minCount := count; }
      if count > maxCount { maxCount := count; }
    }
    assert models[..|models|] == models;
  }

  method ScoreInFlight(models: seq<Candidate>) returns (scores: Scores)
    requires Int64Counts(models)
    ensures forall m :: m in scores <==> m in models
    ensures forall m :: m in models ==> scores[m] == InFlightScore(models, m)
  {
    hide InFlightRequestCount, MinCount, MaxCount, RequestMetadata.Wrap64, Int64Counts;
    var minCount, maxCount, requestCounts := CountRequests(models);
    scores := map[];
    for i := 0 to |models|
      invariant forall j :: 0 <= j < i ==> models[j] in scores
      invariant forall m :: m in scores ==> m in models && scores[m] == InFlightScore(models, m)
    {
      var m := models[i];
      if maxCount == minCount {
        scores := scores[m := 1.0];
      } else {
        Spread(models);
        WrapOfSpread(maxCount - minCount);
        scores := scores[m := RequestMetadata.Wrap64(maxCount - requestCounts[m]) as real
                              / RequestMetadata.Wrap64(maxCount - minCount) as real];
      }
    }
  }

  lemma Ratio(x: int, y: int, d: int)
    requires 0 <= x <= d && 0 <= y <= d && 0 < d
    ensures 0.0 <= x as real / d as real <= 1.0
    ensures x < y <==> x as real / d as real < y as real / d as real
    ensures x == d ==> x as real / d as real == 1.0
    ensures x == 0 ==> x as real / d as real == 0.0
  {
    var r, s := x as real / d as real, y as real / d as real;
    assert r * d as real == x as real && s * d as real == y as real;
  }

  lemma NormalisedOrder(most: int, least: int, x: int, y: int)
    requires least <= x <= most && least <= y <= most && most - least <= MAX_INT64
    ensures RequestMetadata.Wrap64(most - least) == 0 ==> most == least
    ensures var r, s := Normalised(most, least, x), Normalised(most, least, y);
            0.0 <= r <= 1.0 && (r > s <==> x < y) && (r == 1.0 <==> x == least) && (r == 0.0 <==> x == most != least)
  {
    WrapOfSpread(most - x);
    WrapOfSpread(most - y);
    WrapOfSpread(most - least);
    hide RequestMetadata.Wrap64;
    if most != least {
      Ratio(most - x, most - y, most - least);
      Ratio(most - x, most - least, most - least);
      Ratio(0, most - x, most - least);
      Ratio(most - y, most - x, most - least);
    }
  }

  /** As long as the spread of the counts fits an int64, as that of non-negative counts
      always does, scores lie in [0,1], the least loaded score 1, the most loaded 0 unless
      all are equal, and the order of the scores is the reverse of the order of the loads. */
  lemma InFlightReversesLoad(models: seq<Candidate>, a: Candidate, b: Candidate)
    requires Int64Counts(models) && a in models && b in models
    requires MaxCount(models) - MinCount(models) <= MAX_INT64
    ensures 0.0 <= InFlightScore(models, a) <= 1.0
    ensures InFlightScore(models, a) > InFlightScore(models, b) <==> InFlightRequestCount(a) < InFlightRequestCount(b)
    ensures InFlightScore(models, a) == 1.0 <==> InFlightRequestCount(a) == MinCount(models)
    ensures InFlightScore(models, a) == 0.0 <==> InFlightRequestCount(a) == MaxCount(models) != MinCount(models)
  {
    hide MinCount, MaxCount, InFlightRequestCount, RequestMetadata.Wrap64;
    CountBounds(models, a);
    CountBounds(models, b);
    NormalisedOrder(MaxCount(models), MinCount(models), InFlightRequestCount(a), InFlightRequestCount(b));
    hide Normalised;
  }

  /** The score is linear in the count, falling from 1 at the least to 0 at the most loaded. */
  lemma InFlightScoreIs(models: seq<Candidate>, m: Candidate)
    requires Int64Counts(models) && m in models
    requires MaxCount(models) - MinCount(models) <= MAX_INT64
    ensures InFlightScore(models, m) ==
              if MaxCount(models) == MinCount(models) then 1.0
              else (MaxCount(models) - InFlightRequestCount(m)) as real / (MaxCount(models) - MinCount(models)) as real
  {
    CountBounds(models, m);
    WrapOfSpread(MaxCount(models) - InFlightRequestCount(m));
    WrapOfSpread(MaxCount(models) - MinCount(models));
    hide MinCount, MaxCount, InFlightRequestCount, RequestMetadata.Wrap64;
  }

  lemma Overflowed(x: int, d: int)
    requires 0 <= x <= d && MAX_INT64 < d <= MAX_INT64 - MIN_INT64
    ensures RequestMetadata.Wrap64(d) == d - 2 * (MAX_INT64 + 1) < 0
    ensures RequestMetadata.Wrap64(x) == if x <= MAX_INT64 then x else x - 2 * (MAX_INT64 + 1)
  {
  }

  lemma NegativeRatio(x: int, d: int)
    requires d < 0
    ensures 0.0 <= x as real / d as real <= 1.0 <==> d <= x <= 0
  {
    var r := x as real / d as real;
    assert r * d as real == x as real;
  }

  /** Without that bound the scores leave [0,1]: exactly when the spread overflows and some
      count lies strictly between the bounds. */
  lemma InFlightRangeExactly(models: seq<Candidate>)
    requires Int64Counts(models) && models != []
    ensures (forall m :: m in models ==> 0.0 <= InFlightScore(models, m) <= 1.0)
       <==> || MaxCount(models) - MinCount(models) <= MAX_INT64
            || forall m :: m in models ==> InFlightRequestCount(m) == MinCount(models) || InFlightRequestCount(m) == MaxCount(models)
  {
    hide MinCount, MaxCount, InFlightRequestCount;
    forall m | m in models
      ensures 0.0 <= InFlightScore(models, m) <= 1.0
         <==> || MaxCount(models) - MinCount(models) <= MAX_INT64
              || InFlightRequestCount(m) == MinCount(models) || InFlightRequestCount(m) == MaxCount(models)
    {
      CountBounds(models, m);
      Spread(models);
      if MaxCount(models) - MinCount(models) <= MAX_INT64 {
        InFlightReversesLoad(models, m, m);
      } else {
        InRangeWhenExtreme(MaxCount(models), MinCount(models), InFlightRequestCount(m));
      }
    }
  }

  /** For instance, three models with counts -1, 0 and the largest int64: the middle one
      scores below 0. */
  lemma InFlightRangeFails(low: Candidate, middle: Candidate, high: Candidate)
    requires InFlightRequestCount(low) == -1 && InFlightRequestCount(middle) == 0 && InFlightRequestCount(high) == MAX_INT64
    ensures var models := [low, middle, high]; Int64Counts(models) && InFlightScore(models, middle) < 0.0
  {
    var models := [low, middle, high];
    assert models[..2] == [low, middle] && models[..2][..1] == [low] && models[..2][..1][..0] == [];
    hide InFlightRequestCount;
    assert MinCount([low]) == -1 && MaxCount([low]) == -1;
    assert MinCount([low, middle]) == -1 && MaxCount([low, middle]) == 0;
    Overflowed(MAX_INT64, MAX_INT64 + 1);
    hide RequestMetadata.Wrap64;
    var x, d := RequestMetadata.Wrap64(MAX_INT64), RequestMetadata.Wrap64(MAX_INT64 + 1);
    var r := x as real / d as real;
    assert r * d as real == x as real;
    assert InFlightScore(models, middle) == r;
  }

  lemma InRangeWhenExtreme(most: int, least: int, count: int)
    requires MIN_INT64 <= least <= count <= most <= MAX_INT64 < most - least
    ensures RequestMetadata.Wrap64(most - least) != 0
    ensures 0.0 <= Normalised(most, least, count) <= 1.0 <==> count == least || count == most
  {
    Overflowed(most - count, most - least);
    hide RequestMetadata.Wrap64;
    NegativeRatio(RequestMetadata.Wrap64(most - count), RequestMetadata.Wrap64(most - least));
  }

  lemma NonNegativeCountsFit(models: seq<Candidate>)
    requires Int64Counts(models) && models != []
    requires forall m :: m in models ==> InFlightRequestCount(m) >= 0
    ensures MaxCount(models) - MinCount(models) <= MAX_INT64
  {
    var least, most := CountsReached(models);
  }

  // ------------------------------------------------------------------------------
  // Cost

  predicate Priced(m: Candidate) {
    TOKEN_PRICES in m.attributes && m.attributes[TOKEN_PRICES].Prices?
  }

  /** The scorer reads prices only when there is a choice, and panics on a missing one. */
  predicate Scorable(models: seq<Candidate>) {
    |models| != 1 ==> AllPriced(models)
  }

  predicate AllPriced(models: seq<Candidate>) {
    forall m :: m in models ==> Priced(m)
  }

  function Price(m: Candidate): real
    requires Priced(m)
  {
    m.attributes[TOKEN_PRICES].prices.inputTokenPrice
  }

  function SumPrices(models: seq<Candidate>): real
    requires AllPriced(models)
  {
    if models == [] then 0.0
    else
      assert models[|models| - 1] in models;
      SumPrices(models[..|models| - 1]) + Price(models[|models| - 1])
  }

  function CostScore(models: seq<Candidate>, m: Candidate): real
    requires Scorable(models) && m in models
  {
    if |models| == 1 then 0.5
    else if SumPrices(models) == 0.0 then 1.0
    else 1.0 - Price(m) / SumPrices(models)
  }

  /** The first loop: the sum of the prices, or a panic. */
  method AddPrices(models: seq<Candidate>) returns (sumPrices: Option<real>)
    ensures sumPrices == if AllPriced(models) then Some(SumPrices(models)) else None
  {
    var sum := 0.0;
    for i := 0 to |models|
      invariant AllPriced(models[..i]) && sum == SumPrices(models[..i])
    {
      assert models[..i + 1][..i] == models[..i] && models[i] in models;
      if !Priced(models[i]) {
        return None;
      }
      sum := sum + models[i].attributes[TOKEN_PRICES].prices.inputTokenPrice;
    }
    assert models[..|models|] == models;
    return Some(sum);
  }

  /** The scores of exactly the given models, or a panic exactly when there is a choice and
      some price attribute is missing. */
  method ScoreCost(models: seq<Candidate>) returns (result: Option<Scores>)
    ensures result.Some? <==> Scorable(models)
    ensures result.Some? ==> forall m :: m in result.value <==> m in models
    ensures result.Some? ==> forall m :: m in models ==> result.value[m] == CostScore(models, m)
  {
    var scores: Scores := map[];
    if |models| == 1 {
      return Some(scores[models[0] := 0.5]);
    }
    var total := AddPrices(models);
    if total.None? {
      return None;
    }
    var sumPrices := total.value;
    hide SumPrices;
    if sumPrices == 0.0 {
      for i := 0 to |models|
        invariant forall m :: m in scores <==> m in models[..i]
        invariant forall m :: m in scores ==> scores[m] == 1.0
      {
        scores := scores[models[i] := 1.0];
      }
      return Some(scores);
    }
    for i := 0 to |models|
      invariant forall m :: m in scores <==> m in models[..i]
      invariant forall m :: m in scores ==> m in models && scores[m] == CostScore(models, m)
    {
      assert models[i] in models;
      scores := scores[models[i] := 1.0 - models[i].attributes[TOKEN_PRICES].prices.inputTokenPrice / sumPrices];
    }
    return Some(scores);
  }

  predicate NonNegativePrices(models: seq<Candidate>) {
    forall m :: m in models && Priced(m) ==> Price(m) >= 0.0
  }

  lemma {:induction false} PriceIsPartOfSum(models: seq<Candidate>, m: Candidate)
    requires AllPriced(models) && NonNegativePrices(models)
    ensures SumPrices(models) >= 0.0
    ensures m in models ==> Price(m) <= SumPrices(models)
  {
    if models != [] {
      var rest := models[..|models| - 1];
      assert models[|models| - 1] in models && forall x :: x in rest ==> x in models;
      PriceIsPartOfSum(rest, m);
    }
  }

  lemma Quotient(x: real, y: real, d: real)
    requires d > 0.0
    ensures x / d + y / d == (x + y) / d
    ensures x < y <==> x / d < y / d
    ensures 0.0 <= x <= d <==> 0.0 <= x / d <= 1.0
    ensures d / d == 1.0
  {
    var r, s := x / d, y / d;
    assert r * d == x && s * d == y && (r + s) * d == x + y;
  }

  /** With prices that are not negative, scores lie in [0,1], and of two or more models a
      cheaper one scores strictly higher. */
  lemma CostReversesPrice(models: seq<Candidate>, a: Candidate, b: Candidate)
    requires Scorable(models) && NonNegativePrices(models) && a in models && b in models
    ensures 0.0 <= CostScore(models, a) <= 1.0
    ensures |models| >= 2 ==> (CostScore(models, a) > CostScore(models, b) <==> Price(a) < Price(b))
  {
    if |models| >= 2 {
      PriceIsPartOfSum(models, a);
      PriceIsPartOfSum(models, b);
      var total := SumPrices(models);
      if total != 0.0 { Quotient(Price(a), Price(b), total); }
    }
  }

  /** The score of one of several models falls short of 1 by its share of the total price. */
  lemma CostScoreIs(models: seq<Candidate>, m: Candidate)
    requires Scorable(models) && m in models
    ensures |models| == 1 ==> CostScore(models, m) == 0.5
    ensures |models| != 1 ==> (1.0 - CostScore(models, m)) * SumPrices(models) == if SumPrices(models) == 0.0 then 0.0 else Price(m)
    ensures |models| != 1 && SumPrices(models) == 0.0 ==> CostScore(models, m) == 1.0
  {
    if |models| != 1 && SumPrices(models) != 0.0 {
      var p, total := Price(m), SumPrices(models);
      assert (p / total) * total == p;
    }
  }

  /** The total price counts the input price of every model. */
  lemma {:induction false} SumPricesAppend(a: seq<Candidate>, b: seq<Candidate>, p: TokenPrices, name: string)
    requires AllPriced(a) && AllPriced(b)
    ensures AllPriced(a + b) && SumPrices(a + b) == SumPrices(a) + SumPrices(b)
    ensures SumPrices([Candidate(name, map["token_prices" := Prices(p)])]) == p.inputTokenPrice
    decreases |b|
  {
    var one := [Candidate(name, map["token_prices" := Prices(p)])];
    assert one[..0] == [] && SumPrices(one[..0]) == 0.0;
    if b == [] {
      assert a + b == a;
    } else {
      SumPricesAppend(a, b[..|b| - 1], p, name);
      assert (a + b)[..|a + b| - 1] == a + b[..|b| - 1];
    }
  }

  /** The scores a list of models gets out of `all`, added up. */
  function SumScores(all: seq<Candidate>, models: seq<Candidate>): real
    requires Scorable(all) && forall m :: m in models ==> m in all
  {
    if models == [] then 0.0
    else
      assert models[|models| - 1] in models;
      SumScores(all, models[..|models| - 1]) + CostScore(all, models[|models| - 1])
  }

  lemma {:induction false} ScoresOfPart(all: seq<Candidate>, models: seq<Candidate>)
    requires |all| >= 2 && AllPriced(all) && SumPrices(all) > 0.0 && forall m :: m in models ==> m in all
    ensures AllPriced(models)
    ensures SumScores(all, models) == |models| as real - SumPrices(models) / SumPrices(all)
  {
    if models != [] {
      var rest, last := models[..|models| - 1], models[|models| - 1];
      assert last in models && last in all;
      ScoresOfPart(all, rest);
      Quotient(SumPrices(rest), Price(last), SumPrices(all));
    }
  }

  /** The scores of n >= 2 models with a positive total price add up to n - 1. */
  lemma CostScoresSum(models: seq<Candidate>)
    requires |models| >= 2 && AllPriced(models) && SumPrices(models) > 0.0
    ensures SumScores(models, models) == (|models| - 1) as real
  {
    ScoresOfPart(models, models);
    Quotient(0.0, 0.0, SumPrices(models));
  }
}
