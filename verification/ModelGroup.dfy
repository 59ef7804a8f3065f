/** pkg/framework/plugins/modelselector/filter/modelgroup/filter.go, and how it undoes the
    inversion that syncModels makes of the configured groups. */
module ModelGroup {
  import opened Messages
  import opened Datastores
  import opened ModelConfig

  const AUTO := "auto"
  const AUTO_GROUP_PREFIX := "auto/"

  /** What the request's "model" field asks for. */
  datatype Selector = Everything | Nothing | Named(name: string) | Group(group: string)

  function Select(body: Body): Selector {
    if "model" in body && !body["model"].JString? && !body["model"].JNull? then Nothing
    else SelectName(if "model" in body && body["model"].JString? then body["model"].s else "")
  }

  function SelectName(requested: string): Selector {
    if requested == "" || requested == AUTO then Everything
    else if !(AUTO_GROUP_PREFIX <= requested) then Named(requested)
    else
      var group := requested[|AUTO_GROUP_PREFIX|..];
      if group == "" then Nothing else Group(group)
  }

  /** No "model", null, the empty string and "auto" ask for every model; a value that is no
      string, and "auto/" alone, for none; "auto/g" for group g; any other string for the
      model of that name. */
  lemma SelectIs(body: Body, s: string)
    ensures "model" !in body || body["model"] in [JNull, JString(""), JString("auto")] ==> Select(body) == Everything
    ensures "model" in body && (body["model"].JBool? || body["model"].JNumber? || body["model"].JArray? || body["model"].JObject?) ==> Select(body) == Nothing
    ensures "model" in body && body["model"] == JString("auto/" + s) ==> Select(body) == if s == "" then Nothing else Group(s)
    ensures "model" in body && body["model"] == JString(s) && s !in ["", "auto"] && (|s| < 5 || s[..5] != "auto/") ==> Select(body) == Named(s)
  {
    assert ("auto/" + s)[5..] == s;
    assert AUTO_GROUP_PREFIX == "auto/";
    assert AUTO_GROUP_PREFIX <= s ==> s[..5] == "auto/";
  }

  predicate InGroup(attributes: Attributes, group: string) {
    MODEL_GROUPS in attributes && attributes[MODEL_GROUPS].Groups? && group in attributes[MODEL_GROUPS].names
  }

  /** Whether a model of this name and these attributes is asked for. */
  predicate Keeps(sel: Selector, name: string, attributes: Attributes) {
    match sel
    case Everything => true
    case Nothing => false
    case Named(n) => name == n
    case Group(g) => InGroup(attributes, g)
  }

  ghost predicate DistinctNames(models: seq<Model>) {
    forall i, j :: 0 <= i < j < |models| ==> models[i].name != models[j].name
  }

  /** The wanted models, in the order given; of an explicit name only the first. */
  ghost function Wanted(sel: Selector, models: seq<Model>): seq<Model>
    reads models
  {
    if models == [] then []
    else
      var before, m := Wanted(sel, models[..|models| - 1]), models[|models| - 1];
      before + (if Keeps(sel, m.name, m.attributes) && (sel.Named? ==> before == []) then [m] else [])
  }

  lemma {:induction false} WantedOne(models: seq<Model>, i: nat)
    requires i < |models| && forall j :: 0 <= j < i ==> models[j].name != models[i].name
    ensures Wanted(Named(models[i].name), models) == [models[i]]
    decreases |models|
  {
    var n := |models| - 1;
    if i < n {
      WantedOne(models[..n], i);
    } else {
      WantedNone(models[..n], models[i].name);
    }
  }

  lemma {:induction false} WantedNone(models: seq<Model>, name: string)
    requires forall i :: 0 <= i < |models| ==> models[i].name != name
    ensures Wanted(Named(name), models) == []
  {
    if models != [] { WantedNone(models[..|models| - 1], name); }
  }

  lemma {:induction false} WantedAll(models: seq<Model>)
    ensures Wanted(Everything, models) == models && Wanted(Nothing, models) == []
  {
    if models != [] {
      var m := models[|models| - 1];
      assert Keeps(Everything, m.name, m.attributes) && !Keeps(Nothing, m.name, m.attributes);
      hide Keeps;
      WantedAll(models[..|models| - 1]);
      assert models == models[..|models| - 1] + [models[|models| - 1]];
    }
  }

  /** The order is that of the models given: but for an explicit name, what is wanted of two
      lists is what is wanted of each, and a model is wanted if and only if it is asked for. */
  lemma {:induction false} WantedInOrder(sel: Selector, a: seq<Model>, b: seq<Model>, m: Model)
    requires !sel.Named?
    ensures Wanted(sel, a + b) == Wanted(sel, a) + Wanted(sel, b)
    ensures Wanted(sel, [m]) == if Keeps(sel, m.name, m.attributes) then [m] else []
    decreases |b|
  {
    hide Keeps;
    assert [m][..0] == [] && Wanted(sel, []) == [];
    if b == [] {
      assert a + b == a;
    } else {
      WantedInOrder(sel, a, b[..|b| - 1], m);
      assert (a + b)[..|a + b| - 1] == a + b[..|b| - 1];
    }
  }

  /** What is wanted is given and asked for. The converse holds too, but for a name that
      occurs more than once: then exactly one bearer is wanted. */
  lemma {:induction false} WantedIsFilter(sel: Selector, models: seq<Model>, m: Model)
    ensures m in Wanted(sel, models) ==> m in models && Keeps(sel, m.name, m.attributes)
    ensures m in models && Keeps(sel, m.name, m.attributes) ==> Wanted(sel, models) != []
    ensures m in models && Keeps(sel, m.name, m.attributes) && (sel.Named? ==> DistinctNames(models)) ==> m in Wanted(sel, models)
    ensures sel.Named? ==> |Wanted(sel, models)| <= 1
  {
    if models != [] {
      var rest, last := models[..|models| - 1], models[|models| - 1];
      WantedIsFilter(sel, rest, m);
      assert models == rest + [last];
      if sel.Named? && DistinctNames(models) && Wanted(sel, rest) != [] {
        var x := Wanted(sel, rest)[0];
        WantedIsFilter(sel, rest, x);
        var k :| 0 <= k < |rest| && rest[k] == x;
        assert models[k] == x && models[k].name != last.name;
      }
    }
  }

  /** Filter keeps exactly the wanted models, in order. */
  method Filter(body: Body, models: seq<Model>) returns (result: seq<Model>)
    ensures result == Wanted(Select(body), models)
    ensures "model" !in body || body["model"] in [JNull, JString(""), JString("auto")] ==> result == models
    ensures "model" in body && (body["model"].JBool? || body["model"].JNumber? || body["model"].JArray? || body["model"].JObject?) ==> result == []
  {
    hide Wanted;
    SelectIs(body, "");
    WantedAll(models);
    if "model" in body && !body["model"].JString? && !body["model"].JNull? {
      return [];
    }
    var requested := if "model" in body && body["model"].JString? then body["model"].s else "";
    if requested == "" || requested == AUTO {
      return models;
    }
    if !(AUTO_GROUP_PREFIX <= requested) {
      for i := 0 to |models|
        invariant forall j :: 0 <= j < i ==> models[j].name != requested
      {
        if models[i].name == requested {
          WantedOne(models, i);
          return [models[i]];
        }
      }
      WantedNone(models, requested);
      return [];
    }
    var groupName := requested[|AUTO_GROUP_PREFIX|..];
    if groupName == "" {
      return [];
    }
    result := FilterGroup(models, groupName);
  }

  /** The loop over the models' groups. */
  method FilterGroup(models: seq<Model>, groupName: string) returns (result: seq<Model>)
    ensures result == Wanted(Group(groupName), models)
  {
    result := [];
    for i := 0 to |models|
      invariant result == Wanted(Group(groupName), models[..i])
    {
      assert models[..i + 1][..i] == models[..i];
      var m := models[i];
      if MODEL_GROUPS !in m.attributes {
        continue;
      }
      var groups := m.attributes[MODEL_GROUPS];
      if groups.Groups? && groupName in groups.names {
        result := result + [m];
      }
    }
    assert models[..|models|] == models;
  }

  // ------------------------------------------------------------------------------
  // The round trip

  /** The names of the stored models that a request keeps. */
  function KeptNames(sel: Selector, r: Registry): set<string> {
    set name | name in r && Keeps(sel, name, r[name])
  }

  /** Some group g of the configuration lists name. */
  ghost predicate ListedIn(cfg: ModelsConfig, g: string, name: string) {
    SomeLists(cfg.groups, g, name)
  }

  lemma {:induction false} RepeatedIs(g: string, models: seq<string>, name: string)
    ensures forall x :: x in Repeated(g, models, name) <==> x == g && name in models
  {
    if models != [] {
      RepeatedIs(g, models[..|models| - 1], name);
      assert models == models[..|models| - 1] + [models[|models| - 1]];
    }
  }

  /** Some of the groups is called g and lists name. */
  ghost predicate SomeLists(groups: seq<ModelGroupConfig>, g: string, name: string) {
    exists i :: 0 <= i < |groups| && groups[i].name == g && name in groups[i].models
  }

  lemma SomeListsSnoc(groups: seq<ModelGroupConfig>, g: string, name: string)
    requires groups != []
    ensures var n := |groups| - 1;
            SomeLists(groups, g, name) <==> SomeLists(groups[..n], g, name) || (groups[n].name == g && name in groups[n].models)
  {
    var n := |groups| - 1;
    if i :| 0 <= i < n && groups[..n][i].name == g && name in groups[..n][i].models {
      assert groups[i].name == g && name in groups[i].models;
    }
    if i :| 0 <= i < |groups| && groups[i].name == g && name in groups[i].models {
      if i < n { assert groups[..n][i].name == g; }
    }
  }

  lemma {:induction false} GroupsOfIs(groups: seq<ModelGroupConfig>, name: string, g: string)
    requires name != "" && g != ""
    ensures g in GroupsOf(groups, name) <==> SomeLists(groups, g, name)
  {
    hide SomeLists;
    if groups == [] {
      assert !SomeLists([], g, name) by { NobodyLists(g, name); }
    } else {
      var before, last := groups[..|groups| - 1], groups[|groups| - 1];
      GroupsOfIs(before, name, g);
      SomeListsSnoc(groups, g, name);
      RepeatedIs(last.name, last.models, name);
      hide Repeated;
    }
  }

  lemma NobodyLists(g: string, name: string)
    ensures !SomeLists([], g, name)
  {
  }

  /** Round trip: after a sync over any store, "auto/g" keeps exactly the registered models
      that some group named g lists, and a name that is not reserved keeps exactly the
      registered model of that name, or nothing. */
  lemma GroupInversionRoundTrip(cfg: ModelsConfig, before: Registry, g: string, name: string)
    requires g != ""
    ensures var r := Synced(cfg, before);
            && (forall n :: n in KeptNames(SelectName(AUTO_GROUP_PREFIX + g), r) <==> n in Desired(cfg.models) && ListedIn(cfg, g, n))
            && (name != "" && name != AUTO && !(AUTO_GROUP_PREFIX <= name) ==>
                  KeptNames(SelectName(name), r) == {name} * Desired(cfg.models))
            && KeptNames(SelectName(AUTO), r) == Desired(cfg.models)
  {
    var r := Synced(cfg, before);
    assert (AUTO_GROUP_PREFIX + g)[|AUTO_GROUP_PREFIX|..] == g;
    assert SelectName(AUTO_GROUP_PREFIX + g) == Group(g);
    hide SelectName, GroupsOf, PriceOf;
    forall n ensures n in KeptNames(Group(g), r) <==> n in Desired(cfg.models) && ListedIn(cfg, g, n) {
      if n in Desired(cfg.models) {
        GroupsOfIs(cfg.groups, n, g);
        SyncedGroups(cfg, before, n, g);
      }
    }
    NamesKept(cfg, before, name);
  }

  lemma SyncedGroups(cfg: ModelsConfig, before: Registry, n: string, g: string)
    requires n in Desired(cfg.models)
    ensures InGroup(Synced(cfg, before)[n], g) <==> g in GroupsOf(cfg.groups, n)
  {
    hide GroupsOf, PriceOf, Desired;
  }

  lemma NamesKept(cfg: ModelsConfig, before: Registry, name: string)
    ensures var r := Synced(cfg, before);
            && (name != "" && name != AUTO && !(AUTO_GROUP_PREFIX <= name) ==>
                  KeptNames(SelectName(name), r) == {name} * Desired(cfg.models))
            && KeptNames(SelectName(AUTO), r) == Desired(cfg.models)
  {
    hide GroupsOf, PriceOf, Desired, Configured;
  }
}
