/** pkg/framework/plugins/modelselector/picker: shuffle in place, sort stably by descending
    score, take the first. */
module MaxScore {
  import opened Datastores

  /** A model as one selection sees it. */
  datatype Candidate = Candidate(name: string, attributes: Attributes)

  datatype ScoredModel = ScoredModel(model: Candidate, score: real)

  // ------------------------------------------------------------------------------
  // The shuffle

  function Swap(s: seq<ScoredModel>, i: nat, j: nat): seq<ScoredModel>
    requires i < |s| && j < |s|
  {
    s[i := s[j]][j := s[i]]
  }

  /** The random draws of one shuffle: at position i, any index up to i. */
  predicate Draws(draws: seq<nat>, n: nat) {
    |draws| == n && forall i :: 0 <= i < n ==> draws[i] <= i
  }

  /** The shuffle from position i - 1 down to position 1. */
  function Shuffled(s: seq<ScoredModel>, draws: seq<nat>, i: nat): (r: seq<ScoredModel>)
    requires Draws(draws, |s|) && i <= |s|
    ensures |r| == |s|
    decreases i
  {
    if i <= 1 then s else Shuffled(Swap(s, i - 1, draws[i - 1]), draws, i - 1)
  }

  method ShuffleScoredModels(a: array<ScoredModel>, draws: seq<nat>)
    requires Draws(draws, a.Length)
    modifies a
    ensures a[..] == Shuffled(old(a[..]), draws, a.Length)
  {
    var i := a.Length;
    while i > 1
      invariant 0 <= i <= a.Length
      invariant Shuffled(a[..], draws, i) == Shuffled(old(a[..]), draws, a.Length)
    {
      ghost var before := a[..];
      var j := draws[i - 1];
      a[i - 1], a[j] := a[j], a[i - 1];
      assert a[..] == Swap(before, i - 1, j);
      i := i - 1;
    }
  }

  lemma {:induction false} ShuffleIsPermutation(s: seq<ScoredModel>, draws: seq<nat>, i: nat)
    requires Draws(draws, |s|) && i <= |s|
    ensures multiset(Shuffled(s, draws, i)) == multiset(s)
    decreases i
  {
    if i > 1 {
      ShuffleIsPermutation(Swap(s, i - 1, draws[i - 1]), draws, i - 1);
    }
  }

  // ------------------------------------------------------------------------------
  // The stable sort

  /** x goes after everything that scores no less. */
  function Insert(t: seq<ScoredModel>, x: ScoredModel): (r: seq<ScoredModel>)
    ensures |r| == |t| + 1
  {
    if t == [] || t[|t| - 1].score >= x.score then t + [x]
    else Insert(t[..|t| - 1], x) + [t[|t| - 1]]
  }

  function StableSorted(s: seq<ScoredModel>): (r: seq<ScoredModel>)
    ensures |r| == |s|
  {
    if s == [] then [] else Insert(StableSorted(s[..|s| - 1]), s[|s| - 1])
  }

  predicate Descending(s: seq<ScoredModel>) {
    forall i, j :: 0 <= i < j < |s| ==> s[i].score >= s[j].score
  }

  /** The entries that score v, in order. */
  function WithScore(s: seq<ScoredModel>, v: real): seq<ScoredModel> {
    if s == [] then []
    else WithScore(s[..|s| - 1], v) + (if s[|s| - 1].score == v then [s[|s| - 1]] else [])
  }

  lemma {:induction false} InsertIsSorted(t: seq<ScoredModel>, x: ScoredModel)
    requires Descending(t)
    ensures Descending(Insert(t, x)) && multiset(Insert(t, x)) == multiset(t) + multiset{x}
    decreases |t|
  {
    if t != [] && t[|t| - 1].score < x.score {
      var t', last := t[..|t| - 1], t[|t| - 1];
      InsertIsSorted(t', x);
      assert t == t' + [last];
      var r := Insert(t', x);
      forall i | 0 <= i < |r| ensures r[i].score >= last.score {
        assert r[i] in multiset(r);
        assert r[i] == x || r[i] in t';
      }
    }
  }

  lemma {:induction false} InsertKeepsTies(t: seq<ScoredModel>, x: ScoredModel, v: real)
    ensures WithScore(Insert(t, x), v) == WithScore(t, v) + (if x.score == v then [x] else [])
    decreases |t|
  {
    var r := Insert(t, x);
    if t == [] || t[|t| - 1].score >= x.score {
      assert r[..|r| - 1] == t;
    } else {
      InsertKeepsTies(t[..|t| - 1], x, v);
      assert r[..|r| - 1] == Insert(t[..|t| - 1], x);
    }
  }

  /** A stable sort: descending, a permutation, and ties keep their order. */
  lemma {:induction false} SortIsStable(s: seq<ScoredModel>)
    ensures Descending(StableSorted(s)) && multiset(StableSorted(s)) == multiset(s)
    ensures forall v :: WithScore(StableSorted(s), v) == WithScore(s, v)
    decreases |s|
  {
    if s != [] {
      SortIsStable(s[..|s| - 1]);
      InsertIsSorted(StableSorted(s[..|s| - 1]), s[|s| - 1]);
      forall v ensures WithScore(StableSorted(s), v) == WithScore(s, v) {
        InsertKeepsTies(StableSorted(s[..|s| - 1]), s[|s| - 1], v);
      }
      assert s == s[..|s| - 1] + [s[|s| - 1]];
    }
  }

  /** One turn of the inner loop: x passes the last of the first j entries. */
  lemma InsertPasses(t: seq<ScoredModel>, x: ScoredModel, j: nat)
    requires 0 < j <= |t| && t[j - 1].score < x.score
    ensures Insert(t[..j - 1], x) + t[j - 1..] == Insert(t[..j], x) + t[j..]
  {
    assert t[..j][..j - 1] == t[..j - 1];
    assert t[j - 1..] == [t[j - 1]] + t[j..];
    assert Insert(t[..j], x) == Insert(t[..j - 1], x) + [t[j - 1]];
  }

  lemma InsertStops(t: seq<ScoredModel>, x: ScoredModel, j: nat)
    requires j <= |t| && (j == 0 || t[j - 1].score >= x.score)
    ensures Insert(t[..j], x) == t[..j] + [x]
  {
  }

  /** The inner loop: swap the entry at i down to its place. */
  method Sift(a: array<ScoredModel>, i: nat)
    requires i < a.Length
    modifies a
    ensures a[..i + 1] == Insert(old(a[..i]), old(a[i]))
    ensures forall k :: i < k < a.Length ==> a[k] == old(a[k])
  {
    hide Insert;
    ghost var t, x := a[..i], a[i];
    var j := i;
    assert t[..i] == t && Insert(t, x) + t[i..] == Insert(t, x);
    while j > 0 && a[j].score > a[j - 1].score
      invariant 0 <= j <= i && a[j] == x
      invariant forall k :: 0 <= k < j ==> a[k] == t[k]
      invariant forall k :: j < k <= i ==> a[k] == t[k - 1]
      invariant forall k :: i < k < a.Length ==> a[k] == old(a[k])
      invariant Insert(t[..j], x) + t[j..] == Insert(t, x)
    {
      InsertPasses(t, x, j);
      a[j], a[j - 1] := a[j - 1], a[j];
      j := j - 1;
    }
    InsertStops(t, x, j);
    assert a[..i + 1] == t[..j] + [x] + t[j..];
  }

  /** slices.SortStableFunc as the insertion sort by adjacent swaps it is on short slices. */
  method SortStable(a: array<ScoredModel>)
    modifies a
    ensures a[..] == StableSorted(old(a[..]))
  {
    for i := 0 to a.Length
      invariant a[..i] == StableSorted(old(a[..])[..i])
      invariant forall k :: i <= k < a.Length ==> a[k] == old(a[k])
    {
      assert old(a[..])[..i + 1][..i] == old(a[..])[..i];
      Sift(a, i);
    }
    assert a[..a.Length] == a[..] && old(a[..])[..a.Length] == old(a[..]);
  }

  // ------------------------------------------------------------------------------
  // The pick

  /** The winner of a shuffle with these draws. */
  function Winner(s: seq<ScoredModel>, draws: seq<nat>): ScoredModel
    requires s != [] && Draws(draws, |s|)
  {
    StableSorted(Shuffled(s, draws, |s|))[0]
  }

  method Pick(scoredModels: array<ScoredModel>, draws: seq<nat>) returns (target: Candidate)
    requires scoredModels.Length > 0 && Draws(draws, scoredModels.Length)
    modifies scoredModels
    ensures target == Winner(old(scoredModels[..]), draws).model
  {
    ShuffleScoredModels(scoredModels, draws);
    SortStable(scoredModels);
    target := scoredModels[0].model;
  }

  predicate IsMaximum(s: seq<ScoredModel>, x: ScoredModel) {
    x in s && forall y :: y in s ==> y.score <= x.score
  }

  /** Whatever the draws, the winner has the highest score. */
  lemma WinnerIsMaximum(s: seq<ScoredModel>, draws: seq<nat>)
    requires s != [] && Draws(draws, |s|)
    ensures IsMaximum(s, Winner(s, draws))
  {
    var t := Shuffled(s, draws, |s|);
    var r := StableSorted(t);
    ShuffleIsPermutation(s, draws, |s|);
    SortIsStable(t);
    assert r[0] in multiset(s);
    forall y | y in s ensures y.score <= r[0].score {
      assert y in multiset(r);
      var k :| 0 <= k < |r| && r[k] == y;
    }
  }

  /** The draws that leave everything in place above position 0 except k. */
  function FrontDraws(n: nat, k: nat): (draws: seq<nat>)
    ensures Draws(draws, n)
  {
    seq(n, i requires 0 <= i < n => if i == k then 0 else i)
  }

  lemma {:induction false} FrontShuffle(s: seq<ScoredModel>, k: nat, i: nat)
    requires k < |s| && i <= |s|
    ensures Shuffled(s, FrontDraws(|s|, k), i) == if k < i then Swap(s, k, 0) else s
    decreases i
  {
    if i > 1 {
      var draws := FrontDraws(|s|, k);
      if i - 1 == k {
        SettledShuffle(Swap(s, k, 0), k, i - 1);
      } else {
        assert Swap(s, i - 1, i - 1) == s;
        FrontShuffle(s, k, i - 1);
      }
    }
  }

  lemma {:induction false} SettledShuffle(s: seq<ScoredModel>, k: nat, i: nat)
    requires i <= k < |s|
    ensures Shuffled(s, FrontDraws(|s|, k), i) == s
    decreases i
  {
    if i > 1 {
      assert Swap(s, i - 1, i - 1) == s;
      SettledShuffle(s, k, i - 1);
    }
  }

  lemma {:induction false} FirstMaximumStays(s: seq<ScoredModel>)
    requires s != [] && IsMaximum(s, s[0])
    ensures StableSorted(s)[0] == s[0]
    decreases |s|
  {
    if |s| > 1 {
      var t := s[..|s| - 1];
      FirstMaximumStays(t);
      InsertKeepsFirst(StableSorted(t), s[|s| - 1]);
    }
  }

  lemma {:induction false} InsertKeepsFirst(t: seq<ScoredModel>, x: ScoredModel)
    requires t != [] && t[0].score >= x.score
    ensures Insert(t, x)[0] == t[0]
    decreases |t|
  {
    if |t| > 1 && t[|t| - 1].score < x.score { InsertKeepsFirst(t[..|t| - 1], x); }
  }

  /** The tie break is open: every entry with the highest score wins some shuffle. */
  lemma EveryMaximumCanWin(s: seq<ScoredModel>, k: nat) returns (draws: seq<nat>)
    requires k < |s| && IsMaximum(s, s[k])
    ensures Draws(draws, |s|) && Winner(s, draws) == s[k]
  {
    draws := FrontDraws(|s|, k);
    FrontShuffle(s, k, |s|);
    var t := Swap(s, k, 0);
    assert forall y :: y in t ==> y in s;
    FirstMaximumStays(t);
  }
}
