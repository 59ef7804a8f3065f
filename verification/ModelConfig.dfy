/** `syncModels` of pkg/framework/plugins/datalayer/modelconfigcollector/plugin.go: the
    store converges to what a parsed configuration says. */
module ModelConfig {
  import opened Datastores
  import opened Wrappers

  datatype ModelPriceShape = ModelPriceShape(inputPerMillion: real, outputPerMillion: real)

  datatype ModelConfiguration = ModelConfiguration(name: string, pricing: ModelPriceShape)

  datatype ModelGroupConfig = ModelGroupConfig(name: string, models: seq<string>)

  datatype ModelsConfig = ModelsConfig(models: seq<ModelConfiguration>, groups: seq<ModelGroupConfig>)

  function ToTokenPrices(p: ModelPriceShape): TokenPrices {
    TokenPrices(p.inputPerMillion / 1000000.0, p.outputPerMillion / 1000000.0)
  }

  // ------------------------------------------------------------------------------
  // What a configuration says about one model

  predicate ValidEntry(e: ModelConfiguration) {
    e.name != "" && e.pricing.inputPerMillion >= 0.0 && e.pricing.outputPerMillion >= 0.0
  }

  /** The names with at least one valid entry. */
  function Desired(models: seq<ModelConfiguration>): set<string> {
    set i | 0 <= i < |models| && ValidEntry(models[i]) :: models[i].name
  }

  /** The price of the last valid entry for name. */
  function PriceOf(models: seq<ModelConfiguration>, name: string): TokenPrices
    requires name in Desired(models)
  {
    var last := models[|models| - 1];
    if ValidEntry(last) && last.name == name then ToTokenPrices(last.pricing)
    else
      assert forall i :: 0 <= i < |models| - 1 ==> models[..|models| - 1][i] == models[i];
      PriceOf(models[..|models| - 1], name)
  }

  /** g is an entry of the list, once per time it lists name. */
  function Repeated(g: string, models: seq<string>, name: string): seq<string> {
    if models == [] then []
    else Repeated(g, models[..|models| - 1], name) + (if models[|models| - 1] == name then [g] else [])
  }

  /** The groups of name, in configuration order; invalid groups and empty names are skipped. */
  function GroupsOf(groups: seq<ModelGroupConfig>, name: string): seq<string> {
    if groups == [] || name == "" then []
    else
      var g := groups[|groups| - 1];
      GroupsOf(groups[..|groups| - 1], name) + (if g.name == "" then [] else Repeated(g.name, g.models, name))
  }

  /** The attributes a sync leaves on a model that had `attributes`. */
  function Configured(attributes: Attributes, prices: TokenPrices, groups: seq<string>): Attributes {
    var priced := attributes[TOKEN_PRICES := Prices(prices)];
    if groups == [] then priced - {MODEL_GROUPS} else priced[MODEL_GROUPS := Groups(groups)]
  }

  /** The store a sync leaves: exactly the desired models. */
  function Synced(cfg: ModelsConfig, before: Registry): Registry {
    map name | name in Desired(cfg.models) ::
      if name in Desired(cfg.models)
      then Configured(AttributesOf(before, name), PriceOf(cfg.models, name), GroupsOf(cfg.groups, name))
      else map[]
  }

  // ------------------------------------------------------------------------------
  // Convergence

  /** Convergence: whatever the stores before, afterwards they hold the same models, with
      the same prices and groups; every other attribute of a surviving model is kept. */
  lemma SyncConverges(cfg: ModelsConfig, before: Registry, before': Registry)
    ensures var after, after' := Synced(cfg, before), Synced(cfg, before');
            && after.Keys == after'.Keys == Desired(cfg.models)
            && (forall name :: name in after ==>
                  && TOKEN_PRICES in after[name] && TOKEN_PRICES in after'[name] && after[name][TOKEN_PRICES] == after'[name][TOKEN_PRICES]
                  && (MODEL_GROUPS in after[name] <==> MODEL_GROUPS in after'[name])
                  && (MODEL_GROUPS in after[name] ==> after[name][MODEL_GROUPS] == after'[name][MODEL_GROUPS]))
            && (forall name, key :: name in after && key != TOKEN_PRICES && key != MODEL_GROUPS ==>
                  && (key in after[name] <==> key in AttributesOf(before, name))
                  && (key in after[name] ==> after[name][key] == AttributesOf(before, name)[key]))
  {
    hide PriceOf, GroupsOf, Desired;
  }

  /** Entry i decides about n: it bears that name, not the empty one, its prices are not
      negative, and the prices of every later entry for n are not in order. */
  ghost predicate Decides(models: seq<ModelConfiguration>, i: nat, n: string) {
    && i < |models| && models[i].name == n != ""
    && models[i].pricing.inputPerMillion >= 0.0 && models[i].pricing.outputPerMillion >= 0.0
    && forall j :: i < j < |models| && models[j].name == n ==>
         models[j].pricing.inputPerMillion < 0.0 || models[j].pricing.outputPerMillion < 0.0
  }

  lemma {:induction false} PriceOfIs(models: seq<ModelConfiguration>, i: nat, n: string)
    requires Decides(models, i, n)
    ensures n in Desired(models) && PriceOf(models, n) == ToTokenPrices(models[i].pricing)
    decreases |models|
  {
    assert ValidEntry(models[i]);
    assert models[i].name in Desired(models);
    if i < |models| - 1 {
      PriceOfIs(models[..|models| - 1], i, n);
    }
  }

  lemma {:induction false} DesiredIs(models: seq<ModelConfiguration>, n: string)
    ensures n in Desired(models) <==> exists i: nat :: Decides(models, i, n)
    decreases |models|
  {
    if i: nat :| Decides(models, i, n) {
      PriceOfIs(models, i, n);
    }
    if n in Desired(models) {
      var i :| 0 <= i < |models| && ValidEntry(models[i]) && models[i].name == n;
      var k := LastEntry(models, i, n);
    }
  }

  lemma LastEntry(models: seq<ModelConfiguration>, i: nat, n: string) returns (k: nat)
    requires i < |models| && ValidEntry(models[i]) && models[i].name == n
    ensures Decides(models, k, n)
    decreases |models| - i
  {
    if j :| i < j < |models| && models[j].name == n && ValidEntry(models[j]) {
      k := LastEntry(models, j, n);
    } else {
      k := i;
      forall j | i < j < |models| && models[j].name == n
        ensures models[j].pricing.inputPerMillion < 0.0 || models[j].pricing.outputPerMillion < 0.0
      {
        assert !ValidEntry(models[j]);
      }
    }
  }

  /** What is priced how after a sync over any store: exactly the names about which some
      entry decides, each at a millionth of that entry's prices, input for input and output
      for output. */
  lemma SyncedPrices(cfg: ModelsConfig, before: Registry, n: string)
    ensures n in Synced(cfg, before) <==> exists i: nat :: Decides(cfg.models, i, n)
    ensures forall i: nat :: Decides(cfg.models, i, n) ==>
              var attributes := Synced(cfg, before)[n];
              && "token_prices" in attributes && attributes["token_prices"].Prices?
              && attributes["token_prices"].prices.inputTokenPrice * 1000000.0 == cfg.models[i].pricing.inputPerMillion
              && attributes["token_prices"].prices.outputTokenPrice * 1000000.0 == cfg.models[i].pricing.outputPerMillion
  {
    DesiredIs(cfg.models, n);
    forall i: nat | Decides(cfg.models, i, n)
      ensures Synced(cfg, before)[n]["token_prices"] == Prices(ToTokenPrices(cfg.models[i].pricing))
    {
      PriceOfIs(cfg.models, i, n);
      hide Desired, PriceOf, GroupsOf;
    }
    hide Desired, PriceOf, GroupsOf, Decides;
  }

  /** Groups are listed in configuration order. */
  lemma {:induction false} GroupsOfAppend(a: seq<ModelGroupConfig>, b: seq<ModelGroupConfig>, name: string)
    ensures GroupsOf(a + b, name) == GroupsOf(a, name) + GroupsOf(b, name)
    decreases |b|
  {
    hide Repeated;
    if b == [] {
      assert a + b == a;
    } else {
      GroupsOfAppend(a, b[..|b| - 1], name);
      assert (a + b)[..|a + b| - 1] == a + b[..|b| - 1];
    }
  }

  /** A group with a name is listed as often as it lists the model; one without is not. */
  lemma GroupsOfOne(g: ModelGroupConfig, name: string)
    ensures |GroupsOf([g], name)| == if g.name == "" || name == "" then 0 else multiset(g.models)[name]
    ensures forall i :: 0 <= i < |GroupsOf([g], name)| ==> GroupsOf([g], name)[i] == g.name
  {
    assert [g][..0] == [] && GroupsOf([], name) == [];
    RepeatedCounts(g.name, g.models, name);
    hide Repeated;
  }

  lemma {:induction false} RepeatedCounts(g: string, models: seq<string>, name: string)
    ensures |Repeated(g, models, name)| == multiset(models)[name]
    ensures forall i :: 0 <= i < |Repeated(g, models, name)| ==> Repeated(g, models, name)[i] == g
  {
    if models != [] {
      RepeatedCounts(g, models[..|models| - 1], name);
      assert models == models[..|models| - 1] + [models[|models| - 1]];
    }
  }

  /** After a sync the group attribute of a registered model lists its groups, and is there
      if and only if there are any. */
  lemma SyncedGroupsAttribute(cfg: ModelsConfig, before: Registry, n: string)
    requires n in Synced(cfg, before)
    ensures "model_groups" in Synced(cfg, before)[n] <==> GroupsOf(cfg.groups, n) != []
    ensures "model_groups" in Synced(cfg, before)[n] ==> Synced(cfg, before)[n]["model_groups"] == Groups(GroupsOf(cfg.groups, n))
  {
    hide Desired, PriceOf, GroupsOf;
  }

  /** A second sync of the same configuration changes nothing. */
  lemma SyncIsIdempotent(cfg: ModelsConfig, before: Registry)
    ensures Synced(cfg, Synced(cfg, before)) == Synced(cfg, before)
  {
    hide PriceOf, GroupsOf, Desired;
    var once, twice := Synced(cfg, before), Synced(cfg, Synced(cfg, before));
    forall name | name in once ensures twice[name] == once[name] {
      var groups := GroupsOf(cfg.groups, name);
      assert Configured(once[name], PriceOf(cfg.models, name), groups) == once[name];
    }
  }

  // ------------------------------------------------------------------------------
  // The method

  /** The groups of name when the first j models of one more group have been read. */
  function GroupsSoFar(groups: seq<ModelGroupConfig>, g: ModelGroupConfig, j: nat, name: string): seq<string>
    requires j <= |g.models|
  {
    if name == "" then [] else GroupsOf(groups, name) + Repeated(g.name, g.models[..j], name)
  }

  /** An entry for exactly the names with groups, listing them. */
  ghost predicate Lists(membership: map<string, seq<string>>, name: string, groups: seq<string>) {
    (name in membership <==> groups != []) && (name in membership ==> membership[name] == groups)
  }

  ghost predicate IsMembership(membership: map<string, seq<string>>, groups: seq<ModelGroupConfig>) {
    forall name :: Lists(membership, name, GroupsOf(groups, name))
  }

  /** The inner loop: one valid group. */
  method AddGroup(membership: map<string, seq<string>>, ghost groups: seq<ModelGroupConfig>, g: ModelGroupConfig)
    returns (membership': map<string, seq<string>>)
    requires IsMembership(membership, groups)
    ensures forall name :: Lists(membership', name, GroupsSoFar(groups, g, |g.models|, name))
  {
    hide GroupsOf, GroupsSoFar, Lists;
    membership' := membership;
    forall name ensures Lists(membership', name, GroupsSoFar(groups, g, 0, name)) {
      NoModelYet(groups, g, name);
      assert Lists(membership, name, GroupsOf(groups, name));
    }
    for j := 0 to |g.models|
      invariant forall name :: Lists(membership', name, GroupsSoFar(groups, g, j, name))
    {
      var modelName := g.models[j];
      ghost var before := membership';
      if modelName != "" {
        membership' := membership'[modelName := (if modelName in membership' then membership'[modelName] else []) + [g.name]];
      }
      ghost var next := j + 1;
      forall name ensures Lists(membership', name, GroupsSoFar(groups, g, next, name)) {
        assert Lists(before, name, GroupsSoFar(groups, g, j, name));
        OneMoreModel(groups, g, j, name);
        ListsAppended(before, name, GroupsSoFar(groups, g, j, name), modelName, g.name);
      }
    }
  }

  lemma NoModelYet(groups: seq<ModelGroupConfig>, g: ModelGroupConfig, name: string)
    ensures GroupsSoFar(groups, g, 0, name) == GroupsOf(groups, name)
  {
    assert g.models[..0] == [];
    assert GroupsOf(groups, name) + [] == GroupsOf(groups, name);
  }

  lemma ListsAppended(before: map<string, seq<string>>, name: string, listed: seq<string>, modelName: string, g: string)
    requires Lists(before, name, listed)
    ensures var after := if modelName == "" then before
                         else before[modelName := (if modelName in before then before[modelName] else []) + [g]];
            Lists(after, name, listed + if name != "" && modelName == name then [g] else [])
  {
    assert listed + [] == listed;
  }

  lemma OneMoreModel(groups: seq<ModelGroupConfig>, g: ModelGroupConfig, j: nat, name: string)
    requires j < |g.models|
    ensures GroupsSoFar(groups, g, j + 1, name)
         == GroupsSoFar(groups, g, j, name) + if name != "" && g.models[j] == name then [g.name] else []
  {
    assert g.models[..j + 1][..j] == g.models[..j];
    hide GroupsOf;
  }

  /** The first loops of syncModels: from groups of models to groups per model. */
  method Membership(groups: seq<ModelGroupConfig>) returns (membership: map<string, seq<string>>)
    ensures IsMembership(membership, groups)
  {
    hide Lists, GroupsSoFar;
    membership := map[];
    NoMembership();
    assert groups[..0] == [];
    for i := 0 to |groups|
      invariant IsMembership(membership, groups[..i])
    {
      assert groups[..i + 1][..i] == groups[..i];
      var g := groups[i];
      ghost var before, now := membership, groups[..i + 1];
      if g.name == "" || |g.models| == 0 {
        forall name ensures Lists(membership, name, GroupsOf(now, name)) {
          assert Lists(before, name, GroupsOf(groups[..i], name));
          OneMoreGroup(groups, i, name);
        }
        continue;
      }
      membership := AddGroup(membership, groups[..i], g);
      forall name ensures Lists(membership, name, GroupsOf(now, name)) {
        OneMoreGroup(groups, i, name);
      }
    }
    assert groups[..|groups|] == groups;
  }

  lemma NoMembership()
    ensures IsMembership(map[], [])
  {
  }

  lemma OneMoreGroup(groups: seq<ModelGroupConfig>, i: nat, name: string)
    requires i < |groups|
    ensures GroupsOf(groups[..i + 1], name)
         == if groups[i].name == "" || groups[i].models == [] then GroupsOf(groups[..i], name)
            else GroupsSoFar(groups[..i], groups[i], |groups[i].models|, name)
  {
    assert groups[..i + 1][..i] == groups[..i];
    var g := groups[i];
    assert g.models[..|g.models|] == g.models;
    assert GroupsOf(groups[..i], name) + [] == GroupsOf(groups[..i], name);
  }

  function Get(r: Registry, name: string): Option<Attributes> { if name in r then Some(r[name]) else None }

  /** What the entries models[..i] leave of one model. */
  function Entry(cfg: ModelsConfig, i: nat, before: Registry, name: string): Option<Attributes>
    requires i <= |cfg.models|
  {
    if name in Desired(cfg.models[..i])
    then Some(Configured(AttributesOf(before, name), PriceOf(cfg.models[..i], name), GroupsOf(cfg.groups, name)))
    else Get(before, name)
  }

  /** The store after the entries models[..i]: no model deleted yet. */
  ghost predicate Registered(cfg: ModelsConfig, i: nat, before: Registry, now: Registry)
    requires i <= |cfg.models|
  {
    forall name :: Get(now, name) == Entry(cfg, i, before, name)
  }

  /** What one entry does to the store. */
  function RegisterStep(r: Registry, e: ModelConfiguration, groups: seq<string>): Registry {
    if !ValidEntry(e) then r
    else r[e.name := Configured(AttributesOf(r, e.name), ToTokenPrices(e.pricing), groups)]
  }

  lemma DesiredSnoc(models: seq<ModelConfiguration>, i: nat)
    requires i < |models|
    ensures Desired(models[..i + 1]) == Desired(models[..i]) + if ValidEntry(models[i]) then {models[i].name} else {}
    ensures forall name :: name in Desired(models[..i + 1]) ==>
              PriceOf(models[..i + 1], name) ==
              if ValidEntry(models[i]) && models[i].name == name then ToTokenPrices(models[i].pricing) else PriceOf(models[..i], name)
  {
    var now, before := models[..i + 1], models[..i];
    assert now[..|now| - 1] == before && now[|now| - 1] == models[i];
    assert forall k :: 0 <= k < i ==> now[k] == before[k];
    forall name | name in Desired(now)
      ensures PriceOf(now, name) == if ValidEntry(models[i]) && models[i].name == name then ToTokenPrices(models[i].pricing) else PriceOf(before, name)
    {
    }
  }

  lemma EntrySnoc(cfg: ModelsConfig, i: nat, before: Registry, name: string)
    requires i < |cfg.models|
    ensures var e, entry := cfg.models[i], Entry(cfg, i, before, name);
            Entry(cfg, i + 1, before, name) ==
              if ValidEntry(e) && e.name == name
              then Some(Configured(if entry.Some? then entry.value else map[], ToTokenPrices(e.pricing), GroupsOf(cfg.groups, name)))
              else entry
  {
    DesiredSnoc(cfg.models, i);
    var e := cfg.models[i];
    if ValidEntry(e) && e.name == name && name in Desired(cfg.models[..i]) {
      Reconfigured(AttributesOf(before, name), PriceOf(cfg.models[..i], name), ToTokenPrices(e.pricing), GroupsOf(cfg.groups, name));
    }
    hide Desired, PriceOf, GroupsOf, Configured, ToTokenPrices, ValidEntry;
  }

  lemma RegisterOneMore(cfg: ModelsConfig, i: nat, before: Registry, now: Registry)
    requires i < |cfg.models| && Registered(cfg, i, before, now)
    ensures Registered(cfg, i + 1, before, RegisterStep(now, cfg.models[i], GroupsOf(cfg.groups, cfg.models[i].name)))
  {
    hide Entry, GroupsOf, Configured, ToTokenPrices, ValidEntry;
    var e := cfg.models[i];
    var now' := RegisterStep(now, e, GroupsOf(cfg.groups, e.name));
    var next := i + 1;
    forall name ensures Get(now', name) == Entry(cfg, next, before, name) {
      EntrySnoc(cfg, i, before, name);
      assert Get(now, name) == Entry(cfg, i, before, name);
    }
  }

  /** Deleting the rest leaves the synced store. */
  lemma RegisteredThenPruned(cfg: ModelsConfig, before: Registry, now: Registry)
    requires Registered(cfg, |cfg.models|, before, now)
    ensures now - (now.Keys - Desired(cfg.models)) == Synced(cfg, before)
  {
    assert cfg.models[..|cfg.models|] == cfg.models;
    hide Desired, PriceOf, GroupsOf, Configured;
    var pruned, synced := now - (now.Keys - Desired(cfg.models)), Synced(cfg, before);
    forall name ensures Get(pruned, name) == Get(synced, name) {
      assert Get(now, name) == Entry(cfg, |cfg.models|, before, name);
    }
    assert forall name :: name in pruned <==> Get(pruned, name).Some?;
    assert forall name :: name in synced <==> Get(synced, name).Some?;
    assert forall name :: name in pruned ==> Some(pruned[name]) == Get(pruned, name) && Some(synced[name]) == Get(synced, name);
  }

  lemma Reconfigured(attributes: Attributes, p: TokenPrices, p': TokenPrices, groups: seq<string>)
    ensures Configured(Configured(attributes, p, groups), p', groups) == Configured(attributes, p', groups)
  {
  }

  method RegisterModel(store: Store, e: ModelConfiguration, membership: map<string, seq<string>>, ghost groups: seq<ModelGroupConfig>)
    requires store.Valid() && ValidEntry(e) && IsMembership(membership, groups)
    modifies store.Repr()
    ensures store.Valid() && fresh(store.Repr() - old(store.Repr()))
    ensures store.Contents() == RegisterStep(old(store.Contents()), e, GroupsOf(groups, e.name))
  {
    hide GroupsOf, ToTokenPrices, Store.Contents, Store.Valid;
    assert Lists(membership, e.name, GroupsOf(groups, e.name));
    hide IsMembership;
    Upsert(store, e.name, TOKEN_PRICES, Prices(ToTokenPrices(e.pricing)));
    if e.name in membership {
      Upsert(store, e.name, MODEL_GROUPS, Groups(membership[e.name]));
    } else {
      store.KeysAreNames();
      DeleteAttribute(store, e.name, MODEL_GROUPS);
    }
  }

  /** The last loop: delete the models that are not desired. */
  method DeleteStale(store: Store, desired: set<string>)
    requires store.Valid()
    modifies store
    ensures store.Valid() && store.Repr() <= old(store.Repr())
    ensures store.Contents() == old(store.Contents()) - (old(store.Contents()).Keys - desired)
  {
    var models := store.GetModels((_, _) => true);
    ghost var before, names := store.Contents(), seq(|models|, k requires 0 <= k < |models| => models[k].name);
    NamesOf(store, models, names);
    assert names[..0] == [];
    hide Store.Contents, Store.Valid, Store.Repr;
    for j := 0 to |models|
      invariant store.Valid() && store.Repr() <= old(store.Repr())
      invariant store.Contents() == before - Stale(names[..j], desired)
    {
      var modelName := models[j].name;
      StaleSnoc(before, names, j, desired);
      if modelName !in desired {
        store.DeleteModel(modelName);
      }
    }
    assert names[..|names|] == names;
    assert Stale(names, desired) == before.Keys - desired;
  }

  function Stale(names: seq<string>, desired: set<string>): set<string> {
    (set n | n in names) - desired
  }

  lemma StaleSnoc(before: Registry, names: seq<string>, j: nat, desired: set<string>)
    requires j < |names|
    ensures before - Stale(names[..j + 1], desired)
         == if names[j] in desired then before - Stale(names[..j], desired) else before - Stale(names[..j], desired) - {names[j]}
  {
    assert names[..j + 1] == names[..j] + [names[j]];
    assert Stale(names[..j + 1], desired) == Stale(names[..j], desired) + (if names[j] in desired then {} else {names[j]});
    hide Stale;
    if names[j] !in desired {
      var stale := Stale(names[..j], desired);
      assert before - (stale + {names[j]}) == before - stale - {names[j]};
    }
  }

  /** All models of a store have the names of its value. */
  lemma NamesOf(store: Store, models: seq<Model>, names: seq<string>)
    requires store.Valid() && forall m :: m in models <==> m in store.models.Values
    requires |names| == |models| && forall k :: 0 <= k < |models| ==> names[k] == models[k].name
    ensures forall n :: n in names <==> n in store.Contents()
  {
    forall n | n in names ensures n in store.models {
      var k :| 0 <= k < |models| && names[k] == n;
      assert models[k] in store.models.Values;
    }
    forall n | n in store.models ensures n in names {
      var m := store.models[n];
      assert m in store.models.Values;
      var k :| 0 <= k < |models| && models[k] == m;
      assert names[k] == n;
    }
  }

  /** syncModels, from the parsed configuration on. */
  method SyncModels(store: Store, cfg: ModelsConfig)
    requires store.Valid()
    modifies store.Repr()
    ensures store.Valid() && fresh(store.Repr() - old(store.Repr()))
    ensures store.Contents() == Synced(cfg, old(store.Contents()))
  {
    hide Desired, GroupsOf, PriceOf, Registered, Synced;
    ghost var before := store.Contents();
    var membership := Membership(cfg.groups);
    var desired: set<string> := {};
    NothingRegistered(cfg, before);
    for i := 0 to |cfg.models|
      invariant store.Valid() && fresh(store.Repr() - old(store.Repr()))
      invariant Registered(cfg, i, before, store.Contents())
      invariant desired == Desired(cfg.models[..i])
    {
      var m := cfg.models[i];
      RegisterOneMore(cfg, i, before, store.Contents());
      DesiredSnoc(cfg.models, i);
      if m.name == "" {
        continue;
      }
      if m.pricing.inputPerMillion < 0.0 || m.pricing.outputPerMillion < 0.0 {
        continue;
      }
      desired := desired + {m.name};
      RegisterModel(store, m, membership, cfg.groups);
    }
    assert cfg.models[..|cfg.models|] == cfg.models;
    RegisteredThenPruned(cfg, before, store.Contents());
    DeleteStale(store, desired);
  }

  lemma NothingRegistered(cfg: ModelsConfig, before: Registry)
    ensures Desired(cfg.models[..0]) == {} && Registered(cfg, 0, before, before)
  {
  }
}
