/** The adapters store against a direct search of the ConfigMaps themselves: which of them
    are in force after a history, and what their data says of a name. */
module AdaptersSearch {
  import opened Wrappers
  import opened AdaptersStores

  /** The ConfigMap of operation i is in force after ops: it was well formed, and what came
      later for it were updates that are not. */
  ghost predicate InForce(u: Unmarshal, ops: seq<Op>, i: nat) {
    && i < |ops| && ops[i].Update? && WellFormed(u, ops[i].cm)
    && forall j :: i < j < |ops| && ops[j].cm.key == ops[i].cm.key ==> ops[j].Update? && !WellFormed(u, ops[j].cm)
  }

  /** Some ConfigMap in force lists t; one that does has the base model answer; t is a base
      model of one. */
  ghost predicate SomeLists(u: Unmarshal, ops: seq<Op>, t: string) {
    exists i: nat :: InForce(u, ops, i) && ListsAdapter(u, ops[i].cm, t)
  }

  ghost predicate SomeListsUnder(u: Unmarshal, ops: seq<Op>, t: string, answer: string) {
    exists i: nat :: InForce(u, ops, i) && ListsAdapter(u, ops[i].cm, t) && HasBase(ops[i].cm, answer)
  }

  ghost predicate SomeHasBase(u: Unmarshal, ops: seq<Op>, t: string) {
    exists i: nat :: InForce(u, ops, i) && HasBase(ops[i].cm, t)
  }

  /** The answer of a direct search for the trimmed name t: the base model of a ConfigMap in
      force that lists t as an adapter; if there is none, t itself if it is the base model
      of a ConfigMap in force; else nothing. */
  ghost predicate SearchAnswers(u: Unmarshal, ops: seq<Op>, t: string, answer: string) {
    if SomeLists(u, ops, t) then SomeListsUnder(u, ops, t, answer)
    else answer == if SomeHasBase(u, ops, t) then t else ""
  }

  /** An operation on a ConfigMap in force is handed its base model. */
  ghost predicate HandsBase(u: Unmarshal, ops: seq<Op>, op: Op) {
    forall i: nat, b :: InForce(u, ops, i) && ops[i].cm.key == op.cm.key && HasBase(ops[i].cm, b) && (op.Update? ==> WellFormed(u, op.cm)) ==>
      HasBase(op.cm, b)
  }

  /** No two ConfigMaps in force list the same adapter. */
  ghost predicate UniqueNames(u: Unmarshal, ops: seq<Op>) {
    forall i: nat, j: nat, a :: InForce(u, ops, i) && InForce(u, ops, j) && i != j ==>
      !(ListsAdapter(u, ops[i].cm, a) && ListsAdapter(u, ops[j].cm, a))
  }

  /** As documented: names are unique at every moment, and base models are kept and handed
      to deletes. */
  ghost predicate WellBehaved(u: Unmarshal, ops: seq<Op>) {
    && (forall n :: 0 <= n <= |ops| ==> UniqueNames(u, ops[..n]))
    && forall n :: 0 <= n < |ops| ==> HandsBase(u, ops[..n], ops[n])
  }

  // ------------------------------------------------------------------------------
  // The live mappings are what the ConfigMaps in force say

  lemma InForceSnoc(u: Unmarshal, ops: seq<Op>, i: nat)
    requires ops != []
    ensures var before, last := ops[..|ops| - 1], ops[|ops| - 1];
            InForce(u, ops, i) <==>
              if i == |ops| - 1 then last.Update? && WellFormed(u, last.cm)
              else InForce(u, before, i) && (last.cm.key == before[i].cm.key ==> last.Update? && !WellFormed(u, last.cm))
  {
    hide WellFormed;
    var before := ops[..|ops| - 1];
    assert forall j :: 0 <= j < |before| ==> before[j] == ops[j];
  }

  /** A mapping is live for a key if and only if a ConfigMap of that key is in force, and
      it says what that ConfigMap says. */
  ghost predicate SaysAsInForce(u: Unmarshal, ops: seq<Op>, key: NamespacedName) {
    var live := AllLive(u, ops);
    && (key in live <==> exists i: nat :: InForce(u, ops, i) && ops[i].cm.key == key)
    && forall i: nat :: InForce(u, ops, i) && ops[i].cm.key == key ==>
         && key in live
         && (forall b :: HasBase(ops[i].cm, b) <==> b == live[key].base)
         && (forall a :: ListsAdapter(u, ops[i].cm, a) <==> a in live[key].adapters)
  }

  lemma {:induction false} LiveIsInForce(u: Unmarshal, ops: seq<Op>, key: NamespacedName)
    ensures SaysAsInForce(u, ops, key)
    decreases |ops|
  {
    hide WellFormed, HasBase, ListsAdapter, ParseConfigMap;
    if ops == [] {
      assert AllLive(u, ops) == map[];
    } else {
      var before, last := ops[..|ops| - 1], ops[|ops| - 1];
      LiveIsInForce(u, before, key);
      ParseIs(u, last.cm);
      forall i: nat
        ensures InForce(u, ops, i) <==>
                  if i == |ops| - 1 then last.Update? && WellFormed(u, last.cm)
                  else InForce(u, before, i) && (last.cm.key == before[i].cm.key ==> last.Update? && !WellFormed(u, last.cm))
      {
        InForceSnoc(u, ops, i);
      }
      assert AllLive(u, ops) == DoLive(u, AllLive(u, before), last);
      assert forall i :: 0 <= i < |before| ==> before[i] == ops[i];
      hide InForce, AllLive;
    }
  }

  // ------------------------------------------------------------------------------
  // Refinement

  lemma UniqueIsDisjoint(u: Unmarshal, ops: seq<Op>)
    requires UniqueNames(u, ops)
    ensures DisjointAdapters(AllLive(u, ops))
  {
    var live := AllLive(u, ops);
    forall k ensures SaysAsInForce(u, ops, k) { LiveIsInForce(u, ops, k); }
    hide InForce, WellFormed, HasBase, ListsAdapter, AllLive;
    forall k, l, a | k in live && l in live && k != l && a in live[k].adapters ensures a !in live[l].adapters {
      assert SaysAsInForce(u, ops, k) && SaysAsInForce(u, ops, l);
      var i: nat :| InForce(u, ops, i) && ops[i].cm.key == k;
      var j: nat :| InForce(u, ops, j) && ops[j].cm.key == l;
      assert ListsAdapter(u, ops[i].cm, a) && !ListsAdapter(u, ops[j].cm, a);
    }
  }

  lemma HandsIsKeeps(u: Unmarshal, ops: seq<Op>, op: Op)
    requires HandsBase(u, ops, op)
    ensures KeepsBase(u, AllLive(u, ops), op)
  {
    var live, key := AllLive(u, ops), op.cm.key;
    LiveIsInForce(u, ops, key);
    ParseIs(u, op.cm);
    hide WellFormed, ListsAdapter, AllLive, ParseConfigMap;
    if key in live {
      var i: nat :| InForce(u, ops, i) && ops[i].cm.key == key;
      BaseIs(op.cm, live[key].base);
      hide ParseBaseModel, HasBase;
      assert HasBase(ops[i].cm, live[key].base);
    }
  }

  lemma {:induction false} WellBehavedIsProper(u: Unmarshal, ops: seq<Op>)
    requires WellBehaved(u, ops)
    ensures Proper(u, ops)
    decreases |ops|
  {
    hide HandsBase, UniqueNames, KeepsBase, DisjointAdapters, AllLive;
    if ops != [] {
      var before := ops[..|ops| - 1];
      assert forall n :: 0 <= n <= |before| ==> before[..n] == ops[..n];
      assert WellBehaved(u, before);
      WellBehavedIsProper(u, before);
      assert HandsBase(u, ops[..|ops| - 1], ops[|ops| - 1]);
      HandsIsKeeps(u, before, ops[|ops| - 1]);
      assert ops[..|ops|] == ops;
      UniqueIsDisjoint(u, ops);
    }
  }

  /** Mappings and ConfigMaps in force correspond. */
  ghost predicate Corresponds(u: Unmarshal, ops: seq<Op>, live: Live, t: string, answer: string) {
    && (forall k :: k in live ==> exists i: nat :: InForce(u, ops, i) && ops[i].cm.key == k)
    && forall i: nat :: InForce(u, ops, i) ==>
         && ops[i].cm.key in live
         && (HasBase(ops[i].cm, t) <==> t == live[ops[i].cm.key].base)
         && (HasBase(ops[i].cm, answer) <==> answer == live[ops[i].cm.key].base)
         && (ListsAdapter(u, ops[i].cm, t) <==> t in live[ops[i].cm.key].adapters)
  }

  lemma LiveCorresponds(u: Unmarshal, ops: seq<Op>, t: string, answer: string)
    ensures Corresponds(u, ops, AllLive(u, ops), t, answer)
  {
    var live := AllLive(u, ops);
    hide WellFormed, HasBase, ListsAdapter, AllLive, SaysAsInForce;
    forall k | k in live ensures exists i: nat :: InForce(u, ops, i) && ops[i].cm.key == k {
      LiveIsInForce(u, ops, k);
      SaysWhich(u, ops, k);
    }
    forall i: nat | InForce(u, ops, i)
      ensures ops[i].cm.key in live
      ensures HasBase(ops[i].cm, t) <==> t == live[ops[i].cm.key].base
      ensures HasBase(ops[i].cm, answer) <==> answer == live[ops[i].cm.key].base
      ensures ListsAdapter(u, ops[i].cm, t) <==> t in live[ops[i].cm.key].adapters
    {
      LiveIsInForce(u, ops, ops[i].cm.key);
      SaysWhat(u, ops, i, t, answer);
    }
  }

  lemma SaysWhich(u: Unmarshal, ops: seq<Op>, k: NamespacedName)
    requires SaysAsInForce(u, ops, k) && k in AllLive(u, ops)
    ensures exists i: nat :: InForce(u, ops, i) && ops[i].cm.key == k
  {
    hide WellFormed, HasBase, ListsAdapter, AllLive;
  }

  lemma SaysWhat(u: Unmarshal, ops: seq<Op>, i: nat, t: string, answer: string)
    requires InForce(u, ops, i) && SaysAsInForce(u, ops, ops[i].cm.key)
    ensures var live, cm := AllLive(u, ops), ops[i].cm;
            && cm.key in live
            && (HasBase(cm, t) <==> t == live[cm.key].base) && (HasBase(cm, answer) <==> answer == live[cm.key].base)
            && (ListsAdapter(u, cm, t) <==> t in live[cm.key].adapters)
  {
    hide WellFormed, HasBase, ListsAdapter, AllLive;
  }

  lemma ListedAgree(u: Unmarshal, ops: seq<Op>, live: Live, t: string, answer: string)
    requires Corresponds(u, ops, live, t, answer)
    ensures IsListed(live, t) <==> SomeLists(u, ops, t)
    ensures IsListedUnder(live, t, answer) <==> SomeListsUnder(u, ops, t, answer)
  {
    hide WellFormed, HasBase, ListsAdapter;
    if k :| k in live && t in live[k].adapters {
      var i: nat :| InForce(u, ops, i) && ops[i].cm.key == k;
      assert ListsAdapter(u, ops[i].cm, t);
    }
    if k :| k in live && t in live[k].adapters && answer == live[k].base {
      var i: nat :| InForce(u, ops, i) && ops[i].cm.key == k;
      assert ListsAdapter(u, ops[i].cm, t) && HasBase(ops[i].cm, answer);
    }
  }

  lemma BasesAgree(u: Unmarshal, ops: seq<Op>, live: Live, t: string, answer: string)
    requires Corresponds(u, ops, live, t, answer)
    ensures WithBase(live, t) != {} <==> SomeHasBase(u, ops, t)
  {
    hide WellFormed, HasBase, ListsAdapter;
    if k :| k in WithBase(live, t) {
      var i: nat :| InForce(u, ops, i) && ops[i].cm.key == k;
      assert HasBase(ops[i].cm, t);
    }
    if i: nat :| InForce(u, ops, i) && HasBase(ops[i].cm, t) {
      assert ops[i].cm.key in WithBase(live, t);
    }
  }

  lemma AnswersAgree(u: Unmarshal, ops: seq<Op>, t: string, answer: string)
    ensures IsAnswer(AllLive(u, ops), t, answer) <==> SearchAnswers(u, ops, t, answer)
  {
    var live := AllLive(u, ops);
    LiveCorresponds(u, ops, t, answer);
    ListedAgree(u, ops, live, t, answer);
    BasesAgree(u, ops, live, t, answer);
    hide Corresponds, SomeLists, SomeListsUnder, SomeHasBase, IsListed, IsListedUnder, AllLive, WithBase;
  }

  /** The base models of the ConfigMaps in force, counted by their names. */
  ghost function WithBaseInForce(u: Unmarshal, ops: seq<Op>, b: string): set<NamespacedName> {
    set i | 0 <= i < |ops| && InForce(u, ops, i) && HasBase(ops[i].cm, b) :: ops[i].cm.key
  }

  lemma CountsAgree(u: Unmarshal, ops: seq<Op>, b: string)
    ensures WithBaseInForce(u, ops, b) == WithBase(AllLive(u, ops), b)
  {
    var live := AllLive(u, ops);
    LiveCorresponds(u, ops, b, b);
    hide WellFormed, HasBase, ListsAdapter, AllLive;
    forall k | k in WithBase(live, b) ensures k in WithBaseInForce(u, ops, b) {
      var i: nat :| InForce(u, ops, i) && ops[i].cm.key == k;
      assert HasBase(ops[i].cm, b);
    }
  }

  /** Refinement: after every history that keeps the documented rules, getBaseModel answers
      what a direct search of the ConfigMaps in force answers for the trimmed name, which is
      one answer; and the store counts, for each base model, the ConfigMaps in force. */
  lemma StoreRefinesSearch(u: Unmarshal, ops: seq<Op>, modelName: string, t: string, answer: string, b: string)
    requires WellBehaved(u, ops) && IsTrimOf(t, modelName)
    ensures var ix := DoAll(u, ops);
            && SearchAnswers(u, ops, t, Lookup(ix, modelName))
            && (SearchAnswers(u, ops, t, answer) ==> answer == Lookup(ix, modelName))
            && CountOf(ix.baseModels, b) == |WithBaseInForce(u, ops, b)|
  {
    WellBehavedIsProper(u, ops);
    TrimSpaceIs(modelName, t);
    LookupIsAnswer(u, ops, modelName, answer);
    AnswersAgree(u, ops, t, answer);
    AnswersAgree(u, ops, t, Lookup(DoAll(u, ops), modelName));
    CountsAgree(u, ops, b);
    hide *;
  }
}
