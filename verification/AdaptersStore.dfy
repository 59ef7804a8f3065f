/** pkg/framework/plugins/requesthandling/basemodelextractor/adapters_store.go: three maps
    kept as an index over the ConfigMaps in force, and what a direct search of these
    ConfigMaps would answer. */
module AdaptersStores {
  import opened Wrappers

  const BASE_MODEL_KEY := "baseModel"
  const ADAPTERS_KEY := "adapters"

  datatype NamespacedName = NamespacedName(namespace: string, name: string)

  datatype ConfigMap = ConfigMap(key: NamespacedName, data: map<string, string>)

  /** yaml.Unmarshal into a list of strings. */
  type Unmarshal = string -> Option<seq<string>>

  // ------------------------------------------------------------------------------
  // strings.TrimSpace

  predicate IsSpace(c: char) {
    var n := c as int;
    || 0x09 <= n <= 0x0d || n == 0x20 || n == 0x85 || n == 0xa0 || n == 0x1680
    || 0x2000 <= n <= 0x200a || n == 0x2028 || n == 0x2029 || n == 0x202f || n == 0x205f || n == 0x3000
  }

  function TrimLeft(s: string): (t: string)
    ensures t != [] ==> !IsSpace(t[0])
    ensures |t| <= |s| && t == s[|s| - |t|..]
  {
    if s != [] && IsSpace(s[0]) then TrimLeft(s[1..]) else s
  }

  function TrimRight(s: string): (t: string)
    ensures t != [] ==> !IsSpace(t[|t| - 1])
    ensures t <= s
  {
    if s != [] && IsSpace(s[|s| - 1]) then TrimRight(s[..|s| - 1]) else s
  }

  function TrimSpace(s: string): string { TrimRight(TrimLeft(s)) }

  // ------------------------------------------------------------------------------
  // Parsing

  /** What a well-formed ConfigMap says. */
  datatype Mapping = Mapping(base: string, adapters: set<string>)

  function ParseBaseModel(cm: ConfigMap): Option<string> {
    if BASE_MODEL_KEY !in cm.data || TrimSpace(cm.data[BASE_MODEL_KEY]) == "" then None
    else Some(TrimSpace(cm.data[BASE_MODEL_KEY]))
  }

  function TrimmedNames(list: seq<string>): set<string> {
    set i | 0 <= i < |list| && TrimSpace(list[i]) != "" :: TrimSpace(list[i])
  }

  function ParseConfigMap(u: Unmarshal, cm: ConfigMap): Option<Mapping> {
    var base := ParseBaseModel(cm);
    if base.None? then None
    else if ADAPTERS_KEY in cm.data && TrimSpace(cm.data[ADAPTERS_KEY]) != "" then
      var list := u(cm.data[ADAPTERS_KEY]);
      if list.None? then None else Some(Mapping(base.value, TrimmedNames(list.value)))
    else Some(Mapping(base.value, {}))
  }

  // ------------------------------------------------------------------------------
  // The same, said of a ConfigMap's data

  predicate IsBlank(s: string) { forall i :: 0 <= i < |s| ==> IsSpace(s[i]) }

  /** s is t between spaces, and t neither begins nor ends with one. */
  ghost predicate IsTrimOf(t: string, s: string) {
    && (exists l, r :: s == l + t + r && IsBlank(l) && IsBlank(r))
    && (t != "" ==> !IsSpace(t[0]) && !IsSpace(t[|t| - 1]))
  }

  /** The space characters of Unicode. */
  lemma SpacesAre(c: char)
    ensures IsSpace(c) <==> c as int in {
      0x09, 0x0a, 0x0b, 0x0c, 0x0d, 0x20, 0x85, 0xa0, 0x1680, 0x2000, 0x2001, 0x2002, 0x2003, 0x2004, 0x2005, 0x2006, 0x2007, 0x2008,
      0x2009, 0x200a, 0x2028, 0x2029, 0x202f, 0x205f, 0x3000}
  {
  }

  lemma {:induction false} TrimLeftIs(s: string)
    ensures IsBlank(s[..|s| - |TrimLeft(s)|])
  {
    if s != [] && IsSpace(s[0]) {
      TrimLeftIs(s[1..]);
      var n := |s| - |TrimLeft(s)|;
      assert s[..n] == [s[0]] + s[1..][..n - 1];
    }
  }

  lemma {:induction false} TrimRightIs(s: string)
    ensures IsBlank(s[|TrimRight(s)|..])
  {
    if s != [] && IsSpace(s[|s| - 1]) {
      var rest := s[..|s| - 1];
      TrimRightIs(rest);
      assert s[|TrimRight(s)|..] == rest[|TrimRight(s)|..] + [s[|s| - 1]];
    }
  }

  /** TrimSpace is the one trim there is. */
  lemma TrimSpaceIs(s: string, t: string)
    ensures IsTrimOf(t, s) <==> t == TrimSpace(s)
  {
    var left := TrimLeft(s);
    var trimmed := TrimRight(left);
    TrimLeftIs(s);
    TrimRightIs(left);
    var l, r := s[..|s| - |left|], left[|trimmed|..];
    assert s == l + trimmed + r;
    assert trimmed != "" ==> trimmed[0] == left[0];
    hide TrimLeft, TrimRight, IsSpace;
    assert IsTrimOf(trimmed, s);
    if IsTrimOf(t, s) {
      TrimIsUnique(s, t, trimmed);
    }
  }

  lemma TrimIsEmptyIff(t: string, s: string)
    requires IsTrimOf(t, s)
    ensures t == "" <==> IsBlank(s)
  {
    hide IsSpace;
    var l, r :| s == l + t + r && IsBlank(l) && IsBlank(r);
    if t == "" {
      forall i | 0 <= i < |s| ensures IsSpace(s[i]) {
        assert s[i] == if i < |l| then l[i] else r[i - |l|];
      }
    } else {
      assert s[|l|] == t[0];
    }
  }

  lemma TrimIsUnique(s: string, t: string, t': string)
    requires IsTrimOf(t, s) && IsTrimOf(t', s)
    ensures t == t'
  {
    TrimIsEmptyIff(t, s);
    TrimIsEmptyIff(t', s);
    hide IsSpace;
    if t != "" && t' != "" {
      var l, r :| s == l + t + r && IsBlank(l) && IsBlank(r);
      var l', r' :| s == l' + t' + r' && IsBlank(l') && IsBlank(r');
      WithinTrim(s, l, t, r, l', t', r');
      WithinTrim(s, l', t', r', l, t, r);
      assert t == s[|l|..|l| + |t|] && t' == s[|l'|..|l'| + |t'|];
    }
  }

  /** Spaces around t' leave no room for the ends of t. */
  lemma WithinTrim(s: string, l: string, t: string, r: string, l': string, t': string, r': string)
    requires s == l + t + r && s == l' + t' + r' && t != "" && !IsSpace(t[0]) && !IsSpace(t[|t| - 1])
    requires IsBlank(l') && IsBlank(r')
    ensures |l'| <= |l| && |l| + |t| <= |l'| + |t'|
  {
    hide IsSpace;
    var last := |l| + |t| - 1;
    assert s[|l|] == t[0] && s[last] == t[|t| - 1];
    assert forall i :: 0 <= i < |l'| ==> s[i] == l'[i];
    assert forall i :: |l'| + |t'| <= i < |s| ==> s[i] == r'[i - |l'| - |t'|];
  }

  lemma BlankIs(s: string)
    ensures IsBlank(s) <==> TrimSpace(s) == ""
  {
    TrimSpaceIs(s, TrimSpace(s));
    TrimIsEmptyIff(TrimSpace(s), s);
  }

  /** b is the trimmed "baseModel" of the ConfigMap, and not empty. */
  ghost predicate HasBase(cm: ConfigMap, b: string) {
    "baseModel" in cm.data && IsTrimOf(b, cm.data["baseModel"]) && b != ""
  }

  /** The "adapters" of the ConfigMap, if not blank, can be read as a list. */
  predicate Readable(u: Unmarshal, cm: ConfigMap) {
    "adapters" in cm.data && !IsBlank(cm.data["adapters"]) ==> u(cm.data["adapters"]).Some?
  }

  /** Some entry of that list is a, once trimmed, and not empty. */
  ghost predicate ListsAdapter(u: Unmarshal, cm: ConfigMap, a: string) {
    && "adapters" in cm.data && !IsBlank(cm.data["adapters"]) && u(cm.data["adapters"]).Some? && a != ""
    && exists i :: 0 <= i < |u(cm.data["adapters"]).value| && IsTrimOf(a, u(cm.data["adapters"]).value[i])
  }

  /** There is a base model, and the adapters can be read. */
  ghost predicate WellFormed(u: Unmarshal, cm: ConfigMap) {
    (exists b :: HasBase(cm, b)) && Readable(u, cm)
  }

  lemma BaseIs(cm: ConfigMap, b: string)
    ensures HasBase(cm, b) <==> ParseBaseModel(cm) == Some(b)
    ensures ParseBaseModel(cm).Some? ==> HasBase(cm, ParseBaseModel(cm).value)
  {
    if BASE_MODEL_KEY in cm.data {
      TrimSpaceIs(cm.data[BASE_MODEL_KEY], b);
      TrimSpaceIs(cm.data[BASE_MODEL_KEY], TrimSpace(cm.data[BASE_MODEL_KEY]));
    }
    hide TrimSpace, IsTrimOf;
  }

  /** ParseConfigMap reads exactly that off the data. */
  lemma ParseIs(u: Unmarshal, cm: ConfigMap)
    ensures ParseConfigMap(u, cm).Some? <==> WellFormed(u, cm)
    ensures ParseConfigMap(u, cm).Some? ==>
              var m := ParseConfigMap(u, cm).value;
              && (forall b :: HasBase(cm, b) <==> b == m.base)
              && (forall a :: ListsAdapter(u, cm, a) <==> a in m.adapters)
  {
    forall b ensures HasBase(cm, b) <==> ParseBaseModel(cm) == Some(b) { BaseIs(cm, b); }
    BaseIs(cm, "");
    hide ParseBaseModel, HasBase, TrimSpace, IsBlank, IsTrimOf;
    if ADAPTERS_KEY in cm.data {
      BlankIs(cm.data[ADAPTERS_KEY]);
      if u(cm.data[ADAPTERS_KEY]).Some? {
        var list := u(cm.data[ADAPTERS_KEY]).value;
        forall a ensures a in TrimmedNames(list) <==> a != "" && exists i :: 0 <= i < |list| && IsTrimOf(a, list[i]) {
          TrimmedNamesAre(list, a);
        }
      }
    }
    hide TrimmedNames;
  }

  lemma TrimmedNamesAre(list: seq<string>, a: string)
    ensures a in TrimmedNames(list) <==> a != "" && exists i :: 0 <= i < |list| && IsTrimOf(a, list[i])
  {
    forall i | 0 <= i < |list| ensures IsTrimOf(a, list[i]) <==> a == TrimSpace(list[i]) {
      TrimSpaceIs(list[i], a);
    }
    hide TrimSpace, IsTrimOf;
  }

  // ------------------------------------------------------------------------------
  // The index

  datatype Index = Index(
    loraAdapterToBaseModel: map<string, string>,
    configmapAdapters: map<NamespacedName, set<string>>,
    baseModels: map<string, int>)

  const EmptyIndex := Index(map[], map[], map[])

  function CountOf(counts: map<string, int>, base: string): int { if base in counts then counts[base] else 0 }

  /** Every adapter mapped to base. */
  function Mapped(adapters: set<string>, base: string): map<string, string> {
    map a | a in adapters :: if a in adapters then base else ""
  }

  function Updated(ix: Index, key: NamespacedName, m: Mapping): Index {
    var existing := if key in ix.configmapAdapters then ix.configmapAdapters[key] else {};
    Index(
      (ix.loraAdapterToBaseModel + Mapped(m.adapters, m.base)) - (existing - m.adapters),
      ix.configmapAdapters[key := m.adapters],
      if key in ix.configmapAdapters then ix.baseModels
      else ix.baseModels[m.base := CountOf(ix.baseModels, m.base) + 1])
  }

  function Decremented(counts: map<string, int>, base: string): map<string, int> {
    if CountOf(counts, base) == 1 then counts - {base} else counts[base := CountOf(counts, base) - 1]
  }

  function Deleted(ix: Index, cm: ConfigMap): Index {
    if cm.key !in ix.configmapAdapters then ix
    else
      var base := ParseBaseModel(cm);
      Index(
        ix.loraAdapterToBaseModel - ix.configmapAdapters[cm.key],
        ix.configmapAdapters - {cm.key},
        if base.None? then ix.baseModels else Decremented(ix.baseModels, base.value))
  }

  function Lookup(ix: Index, modelName: string): string {
    var t := TrimSpace(modelName);
    if t in ix.loraAdapterToBaseModel then ix.loraAdapterToBaseModel[t]
    else if t in ix.baseModels then t
    else ""
  }

  // ------------------------------------------------------------------------------
  // Histories

  datatype Op = Update(cm: ConfigMap) | Delete(cm: ConfigMap)

  function Do(u: Unmarshal, ix: Index, op: Op): Index {
    match op
    case Update(cm) =>
      var m := ParseConfigMap(u, cm);
      if m.None? then ix else Updated(ix, cm.key, m.value)
    case Delete(cm) => Deleted(ix, cm)
  }

  function DoAll(u: Unmarshal, ops: seq<Op>): Index {
    if ops == [] then EmptyIndex else Do(u, DoAll(u, ops[..|ops| - 1]), ops[|ops| - 1])
  }

  /** The ConfigMaps in force: the last well-formed content of each one not deleted since. */
  type Live = map<NamespacedName, Mapping>

  function DoLive(u: Unmarshal, live: Live, op: Op): Live {
    match op
    case Update(cm) =>
      var m := ParseConfigMap(u, cm);
      if m.None? then live else live[cm.key := m.value]
    case Delete(cm) => live - {cm.key}
  }

  function AllLive(u: Unmarshal, ops: seq<Op>): Live {
    if ops == [] then map[] else DoLive(u, AllLive(u, ops[..|ops| - 1]), ops[|ops| - 1])
  }

  // ------------------------------------------------------------------------------
  // No dangling adapters, on any history

  ghost predicate NoDangling(ix: Index) {
    forall a :: a in ix.loraAdapterToBaseModel ==> exists k :: k in ix.configmapAdapters && a in ix.configmapAdapters[k]
  }

  lemma StepLeavesNoDangling(u: Unmarshal, ix: Index, op: Op)
    requires NoDangling(ix)
    ensures NoDangling(Do(u, ix, op))
  {
    hide ParseConfigMap, ParseBaseModel, Decremented;
    var ix' := Do(u, ix, op);
    forall a | a in ix'.loraAdapterToBaseModel
      ensures exists k :: k in ix'.configmapAdapters && a in ix'.configmapAdapters[k]
    {
      var key := op.cm.key;
      if a in ix.loraAdapterToBaseModel {
        var k :| k in ix.configmapAdapters && a in ix.configmapAdapters[k];
        assert k != key ==> k in ix'.configmapAdapters && a in ix'.configmapAdapters[k];
        assert k == key ==> ix' == ix || (key in ix'.configmapAdapters && a in ix'.configmapAdapters[key]);
      } else {
        assert key in ix'.configmapAdapters && a in ix'.configmapAdapters[key];
      }
    }
  }

  /** Whatever the updates, failed updates and deletes: an adapter that still resolves is
      listed by some ConfigMap still recorded. */
  lemma {:induction false} NoAdapterEverDangles(u: Unmarshal, ops: seq<Op>)
    ensures NoDangling(DoAll(u, ops))
    decreases |ops|
  {
    if ops != [] {
      NoAdapterEverDangles(u, ops[..|ops| - 1]);
      StepLeavesNoDangling(u, DoAll(u, ops[..|ops| - 1]), ops[|ops| - 1]);
    }
  }

  // ------------------------------------------------------------------------------
  // The index and a direct search agree

  ghost predicate DisjointAdapters(live: Live) {
    forall k, l :: k in live && l in live && k != l ==> live[k].adapters !! live[l].adapters
  }

  /** The live ConfigMaps of base model b. */
  function WithBase(live: Live, b: string): set<NamespacedName> {
    set k | k in live && live[k].base == b
  }

  /** The count of b is the number of its ConfigMaps, and there is an entry if any. */
  ghost predicate CountAgrees(counts: map<string, int>, live: Live, b: string) {
    CountOf(counts, b) == |WithBase(live, b)| && (b in counts <==> WithBase(live, b) != {})
  }

  ghost predicate CountsAgree(counts: map<string, int>, live: Live) {
    forall b :: CountAgrees(counts, live, b)
  }

  ghost predicate AdaptersAgree(lora: map<string, string>, live: Live) {
    && (forall a :: a in lora <==> exists k :: k in live && a in live[k].adapters)
    && forall k, a :: k in live && a in live[k].adapters ==> a in lora && lora[a] == live[k].base
  }

  function AdaptersOf(live: Live): map<NamespacedName, set<string>> {
    map k | k in live :: if k in live then live[k].adapters else {}
  }

  ghost predicate Agrees(ix: Index, live: Live) {
    && ix.configmapAdapters == AdaptersOf(live)
    && CountsAgree(ix.baseModels, live)
    && AdaptersAgree(ix.loraAdapterToBaseModel, live)
  }

  /** An update keeps the base model of its ConfigMap, and a delete is handed it. */
  ghost predicate KeepsBase(u: Unmarshal, live: Live, op: Op) {
    match op
    case Update(cm) =>
      cm.key in live && ParseConfigMap(u, cm).Some? ==> ParseConfigMap(u, cm).value.base == live[cm.key].base
    case Delete(cm) =>
      cm.key in live ==> ParseBaseModel(cm) == Some(live[cm.key].base)
  }

  lemma WithBaseAfterSet(live: Live, key: NamespacedName, m: Mapping, b: string)
    ensures var now := WithBase(live[key := m], b); var before := WithBase(live, b);
            && now == (if b == m.base then before + {key} else before - {key})
            && |now| == |before| + (if b == m.base && key !in before then 1 else 0) - (if b != m.base && key in before then 1 else 0)
  {
    var now, before := WithBase(live[key := m], b), WithBase(live, b);
    assert now == if b == m.base then before + {key} else before - {key};
  }

  lemma WithBaseAfterRemove(live: Live, key: NamespacedName, b: string)
    ensures var now := WithBase(live - {key}, b); var before := WithBase(live, b);
            && now == before - {key}
            && |now| == |before| - (if key in before then 1 else 0)
  {
    var now, before := WithBase(live - {key}, b), WithBase(live, b);
    assert now == before - {key};
  }

  lemma CountsAfterAdd(counts: map<string, int>, live: Live, key: NamespacedName, m: Mapping)
    requires CountsAgree(counts, live) && key !in live
    ensures CountsAgree(counts[m.base := CountOf(counts, m.base) + 1], live[key := m])
  {
    var counts', live' := counts[m.base := CountOf(counts, m.base) + 1], live[key := m];
    forall b ensures CountAgrees(counts', live', b) {
      assert CountAgrees(counts, live, b);
      WithBaseAfterSet(live, key, m, b);
    }
  }

  /** An update of a known ConfigMap leaves the counts alone, which is right exactly when
      its base model is the same. */
  lemma CountsAfterChange(counts: map<string, int>, live: Live, key: NamespacedName, m: Mapping)
    requires CountsAgree(counts, live) && key in live
    ensures CountsAgree(counts, live[key := m]) <==> live[key].base == m.base
  {
    var b0 := live[key].base;
    var live' := live[key := m];
    assert key in WithBase(live, b0);
    WithBaseAfterSet(live, key, m, b0);
    assert CountAgrees(counts, live, b0);
    if b0 == m.base {
      forall b ensures CountAgrees(counts, live', b) {
        assert CountAgrees(counts, live, b);
        WithBaseAfterSet(live, key, m, b);
      }
    } else {
      assert !CountAgrees(counts, live', b0);
    }
  }

  /** A delete that is handed another base model, or none, miscounts. */
  lemma CountsAfterDelete(counts: map<string, int>, live: Live, key: NamespacedName, base: Option<string>)
    requires CountsAgree(counts, live) && key in live
    ensures CountsAgree(if base.None? then counts else Decremented(counts, base.value), live - {key})
            <==> base == Some(live[key].base)
  {
    var counts' := if base.None? then counts else Decremented(counts, base.value);
    var live' := live - {key};
    var b0 := live[key].base;
    assert key in WithBase(live, b0);
    WithBaseAfterRemove(live, key, b0);
    assert CountAgrees(counts, live, b0);
    if base == Some(b0) {
      forall b ensures CountAgrees(counts', live', b) {
        assert CountAgrees(counts, live, b);
        WithBaseAfterRemove(live, key, b);
        assert b != b0 ==> key !in WithBase(live, b);
      }
    } else {
      assert !CountAgrees(counts', live', b0);
    }
  }

  /** Of the adapters that other ConfigMaps list, an update of key maps those it lists itself
      to the same base model, and drops none. */
  ghost predicate UpdateShares(live: Live, key: NamespacedName, m: Mapping) {
    forall l, a :: l in live && l != key && a in live[l].adapters ==>
      && (a in m.adapters ==> live[l].base == m.base)
      && (key in live && a in live[key].adapters ==> a in m.adapters)
  }

  /** No other ConfigMap lists an adapter of key. */
  ghost predicate DeleteShares(live: Live, key: NamespacedName) {
    forall l, a :: l in live && l != key && a in live[l].adapters && key in live ==> a !in live[key].adapters
  }

  ghost predicate Shares(u: Unmarshal, live: Live, op: Op) {
    match op
    case Update(cm) => ParseConfigMap(u, cm).Some? ==> UpdateShares(live, cm.key, ParseConfigMap(u, cm).value)
    case Delete(cm) => DeleteShares(live, cm.key)
  }

  lemma AdaptersAfterUpdate(lora: map<string, string>, live: Live, key: NamespacedName, m: Mapping)
    requires AdaptersAgree(lora, live)
    ensures var existing := if key in live then live[key].adapters else {};
            AdaptersAgree((lora + Mapped(m.adapters, m.base)) - (existing - m.adapters), live[key := m]) <==> UpdateShares(live, key, m)
  {
    var existing := if key in live then live[key].adapters else {};
    var lora', live' := (lora + Mapped(m.adapters, m.base)) - (existing - m.adapters), live[key := m];
    if UpdateShares(live, key, m) {
      UpdatedListed(lora, live, key, m);
      UpdatedKnown(lora, live, key, m);
    }
    if AdaptersAgree(lora', live') {
      forall l, a | l in live && l != key && a in live[l].adapters
        ensures (a in m.adapters ==> live[l].base == m.base) && (key in live && a in live[key].adapters ==> a in m.adapters)
      {
        assert l in live' && a in live'[l].adapters;
        assert a in lora' && lora'[a] == live[l].base;
      }
    }
  }

  /** After an update that shares fairly, listed adapters resolve to their base model. */
  lemma UpdatedListed(lora: map<string, string>, live: Live, key: NamespacedName, m: Mapping)
    requires AdaptersAgree(lora, live) && UpdateShares(live, key, m)
    ensures var existing := if key in live then live[key].adapters else {};
            var lora', live' := (lora + Mapped(m.adapters, m.base)) - (existing - m.adapters), live[key := m];
            forall k, a :: k in live' && a in live'[k].adapters ==> a in lora' && lora'[a] == live'[k].base
  {
    var live' := live[key := m];
    forall k, a | k in live' && a in live'[k].adapters && k != key
      ensures a in lora && lora[a] == live'[k].base
    {
      assert k in live && a in live[k].adapters;
    }
  }

  /** After an update, what resolves is listed. */
  lemma UpdatedKnown(lora: map<string, string>, live: Live, key: NamespacedName, m: Mapping)
    requires AdaptersAgree(lora, live)
    ensures var existing := if key in live then live[key].adapters else {};
            var lora', live' := (lora + Mapped(m.adapters, m.base)) - (existing - m.adapters), live[key := m];
            forall a :: a in lora' ==> exists k :: k in live' && a in live'[k].adapters
  {
    var existing := if key in live then live[key].adapters else {};
    var lora', live' := (lora + Mapped(m.adapters, m.base)) - (existing - m.adapters), live[key := m];
    forall a | a in lora' ensures exists k :: k in live' && a in live'[k].adapters {
      if a in m.adapters {
        assert key in live' && a in live'[key].adapters;
      } else {
        assert a in lora && a !in existing;
        var k :| k in live && a in live[k].adapters;
        assert k in live' && a in live'[k].adapters;
      }
    }
  }

  lemma AdaptersAfterDelete(lora: map<string, string>, live: Live, key: NamespacedName)
    requires AdaptersAgree(lora, live) && key in live
    ensures AdaptersAgree(lora - live[key].adapters, live - {key}) <==> DeleteShares(live, key)
  {
    var lora', live' := lora - live[key].adapters, live - {key};
    if DeleteShares(live, key) {
      forall k, a | k in live' && a in live'[k].adapters ensures a in lora' && lora'[a] == live'[k].base {
        assert k in live && k != key && a in live[k].adapters;
      }
      forall a | a in lora' ensures exists k :: k in live' && a in live'[k].adapters {
        var k :| k in live && a in live[k].adapters;
        assert k in live' && a in live'[k].adapters;
      }
    }
    if AdaptersAgree(lora', live') {
      forall l, a | l in live && l != key && a in live[l].adapters ensures a !in live[key].adapters {
        assert l in live' && a in live'[l].adapters && a in lora';
      }
    }
  }

  /** Exactly when one operation keeps the index in agreement with the live ConfigMaps: if
      and only if it keeps the ConfigMap's base model and shares its adapters fairly. */
  lemma StepAgreesExactly(u: Unmarshal, ix: Index, live: Live, op: Op)
    requires Agrees(ix, live)
    ensures Agrees(Do(u, ix, op), DoLive(u, live, op)) <==> KeepsBase(u, live, op) && Shares(u, live, op)
  {
    hide CountsAgree, AdaptersAgree, ParseConfigMap, ParseBaseModel, Decremented, UpdateShares, DeleteShares;
    var key := op.cm.key;
    match op
    case Update(cm) =>
      var m := ParseConfigMap(u, cm);
      if m.Some? {
        AdaptersAfterUpdate(ix.loraAdapterToBaseModel, live, key, m.value);
        if key in live {
          CountsAfterChange(ix.baseModels, live, key, m.value);
        } else {
          CountsAfterAdd(ix.baseModels, live, key, m.value);
        }
        var live' := live[key := m.value];
        assert AdaptersOf(live)[key := m.value.adapters] == AdaptersOf(live');
      }
    case Delete(cm) =>
      if key in live {
        CountsAfterDelete(ix.baseModels, live, key, ParseBaseModel(cm));
        AdaptersAfterDelete(ix.loraAdapterToBaseModel, live, key);
        var live' := live - {key};
        assert AdaptersOf(live) - {key} == AdaptersOf(live');
      } else {
        assert live - {key} == live;
        DeleteOfUnknownShares(live, key);
      }
  }

  lemma DeleteOfUnknownShares(live: Live, key: NamespacedName)
    requires key !in live
    ensures DeleteShares(live, key)
  {
  }

  lemma DisjointShares(u: Unmarshal, live: Live, op: Op)
    requires DisjointAdapters(live) && DisjointAdapters(DoLive(u, live, op))
    ensures Shares(u, live, op)
  {
    hide ParseConfigMap;
    var live' := DoLive(u, live, op);
    if op.Update? && ParseConfigMap(u, op.cm).Some? {
      var key, m := op.cm.key, ParseConfigMap(u, op.cm).value;
      forall l, a | l in live && l != key && a in live[l].adapters ensures a !in m.adapters && (key in live ==> a !in live[key].adapters) {
        assert l in live' && live'[l].adapters !! live'[key].adapters;
      }
    }
  }

  /** With names globally unique, as documented, that leaves the base model. */
  lemma StepAgreesIff(u: Unmarshal, ix: Index, live: Live, op: Op)
    requires Agrees(ix, live) && DisjointAdapters(live) && DisjointAdapters(DoLive(u, live, op))
    ensures Agrees(Do(u, ix, op), DoLive(u, live, op)) <==> KeepsBase(u, live, op)
  {
    StepAgreesExactly(u, ix, live, op);
    DisjointShares(u, live, op);
    hide Agrees, KeepsBase, Shares, Do, DoLive;
  }

  /** For instance, an adapter moved by adding it to a second ConfigMap and then removing it
      from the first: it is still listed, but no longer found. */
  lemma MovedAdapterIsLost(k1: NamespacedName, k2: NamespacedName, a: string, b: string)
    requires k1 != k2 && TrimSpace(a) == a && a != b && b != ""
    ensures var one := Updated(EmptyIndex, k1, Mapping(b, {a}));
            var two := Updated(one, k2, Mapping(b, {a}));
            var three := Updated(two, k1, Mapping(b, {}));
            var live := map[k1 := Mapping(b, {}), k2 := Mapping(b, {a})];
            Lookup(two, a) == b && Lookup(three, a) == "" && IsAnswer(live, a, b)
  {
    hide TrimSpace;
    var live := map[k1 := Mapping(b, {}), k2 := Mapping(b, {a})];
    assert k2 in live && a in live[k2].adapters;
  }

  /** A history with globally unique names in which every operation keeps base models. */
  ghost predicate Proper(u: Unmarshal, ops: seq<Op>) {
    ops == [] ||
    (var before := ops[..|ops| - 1];
     Proper(u, before) && KeepsBase(u, AllLive(u, before), ops[|ops| - 1]) && DisjointAdapters(AllLive(u, ops)))
  }

  lemma {:induction false} IndexAgrees(u: Unmarshal, ops: seq<Op>)
    requires Proper(u, ops)
    ensures Agrees(DoAll(u, ops), AllLive(u, ops)) && DisjointAdapters(AllLive(u, ops))
    decreases |ops|
  {
    if ops == [] {
      assert forall b :: WithBase(map[], b) == {};
      assert forall b :: CountAgrees(map[], map[], b);
    } else {
      hide Agrees, DisjointAdapters, KeepsBase, Do, DoLive;
      var before := ops[..|ops| - 1];
      IndexAgrees(u, before);
      StepAgreesIff(u, DoAll(u, before), AllLive(u, before), ops[|ops| - 1]);
    }
  }

  ghost predicate IsListed(live: Live, t: string) { exists k :: k in live && t in live[k].adapters }

  ghost predicate IsListedUnder(live: Live, t: string, base: string) {
    exists k :: k in live && t in live[k].adapters && base == live[k].base
  }

  /** The answer of a direct search for a trimmed name: the base model of a ConfigMap that
      lists it as an adapter, else itself if it is a base model, else nothing. */
  ghost predicate IsAnswer(live: Live, t: string, answer: string) {
    if IsListed(live, t) then IsListedUnder(live, t, answer)
    else answer == if WithBase(live, t) != {} then t else ""
  }

  /** After every proper history, the store counts the live ConfigMaps of each base model,
      and getBaseModel answers as a search of them does, which has one answer. */
  lemma LookupIsAnswer(u: Unmarshal, ops: seq<Op>, modelName: string, answer: string)
    requires Proper(u, ops)
    ensures var ix, live := DoAll(u, ops), AllLive(u, ops);
            && IsAnswer(live, TrimSpace(modelName), Lookup(ix, modelName))
            && (IsAnswer(live, TrimSpace(modelName), answer) ==> answer == Lookup(ix, modelName))
            && (forall b :: CountOf(ix.baseModels, b) == |WithBase(live, b)|)
  {
    IndexAgrees(u, ops);
    hide DoAll, AllLive, Proper, TrimSpace;
    var ix, live := DoAll(u, ops), AllLive(u, ops);
    forall b ensures CountOf(ix.baseModels, b) == |WithBase(live, b)| {
      assert CountAgrees(ix.baseModels, live, b);
    }
    assert CountAgrees(ix.baseModels, live, TrimSpace(modelName));
  }

  /** Why base models must be kept: a ConfigMap recorded with base model a and updated to
      b is live with b only, but b is not found and a still is. */
  lemma ChangedBaseModelIsNotFound(key: NamespacedName, a: string, b: string)
    requires a != b && TrimSpace(a) == a && TrimSpace(b) == b
    ensures var ix := Updated(Updated(EmptyIndex, key, Mapping(a, {})), key, Mapping(b, {}));
            var live := map[key := Mapping(b, {})];
            && Lookup(ix, b) == "" && IsAnswer(live, b, b)
            && Lookup(ix, a) == a && IsAnswer(live, a, "")
  {
    hide TrimSpace;
    var live := map[key := Mapping(b, {})];
    assert key in WithBase(live, b) && WithBase(live, a) == {};
  }

  // ------------------------------------------------------------------------------
  // One update, said of the ConfigMap's data

  /** What an update records: nothing, if the ConfigMap is not well formed; else exactly the
      adapters it lists, in place of those recorded for it before. */
  lemma UpdateRecords(u: Unmarshal, ix: Index, cm: ConfigMap)
    ensures var ix' := Do(u, ix, Update(cm));
            if !WellFormed(u, cm) then ix' == ix
            else
              && ix'.configmapAdapters.Keys == ix.configmapAdapters.Keys + {cm.key}
              && (forall a :: a in ix'.configmapAdapters[cm.key] <==> ListsAdapter(u, cm, a))
              && forall k :: k in ix.configmapAdapters && k != cm.key ==> ix'.configmapAdapters[k] == ix.configmapAdapters[k]
  {
    ParseIs(u, cm);
    hide ParseConfigMap, WellFormed, ListsAdapter, HasBase;
  }

  /** Where names lead after it: each adapter it lists to its base model; one that was
      recorded for it and is not listed any more, nowhere; any other where it led before. */
  lemma UpdateMaps(u: Unmarshal, ix: Index, cm: ConfigMap, b: string, a: string)
    requires WellFormed(u, cm) && HasBase(cm, b)
    ensures var lora, lora' := ix.loraAdapterToBaseModel, Do(u, ix, Update(cm)).loraAdapterToBaseModel;
            if ListsAdapter(u, cm, a) then a in lora' && lora'[a] == b
            else if cm.key in ix.configmapAdapters && a in ix.configmapAdapters[cm.key] then a !in lora'
            else (a in lora' <==> a in lora) && (a in lora ==> lora'[a] == lora[a])
  {
    ParseIs(u, cm);
    hide ParseConfigMap, WellFormed, ListsAdapter, HasBase;
  }

  /** And the counts: the first update of a ConfigMap adds one to its base model. */
  lemma UpdateCounts(u: Unmarshal, ix: Index, cm: ConfigMap, b: string, n: string)
    requires WellFormed(u, cm) && HasBase(cm, b)
    ensures var counts, counts' := ix.baseModels, Do(u, ix, Update(cm)).baseModels;
            var added := n == b && cm.key !in ix.configmapAdapters;
            && (n in counts' <==> n in counts || added)
            && (n in counts' ==> counts'[n] == (if n in counts then counts[n] else 0) + (if added then 1 else 0))
  {
    ParseIs(u, cm);
    hide ParseConfigMap, WellFormed, ListsAdapter, HasBase;
  }

  /** What a name gets after an update that lists it: the base model of that ConfigMap. */
  lemma UpdatedAdapterIsFound(u: Unmarshal, ix: Index, cm: ConfigMap, b: string, a: string, modelName: string)
    requires WellFormed(u, cm) && HasBase(cm, b) && ListsAdapter(u, cm, a) && IsTrimOf(a, modelName)
    ensures Lookup(Do(u, ix, Update(cm)), modelName) == b
  {
    UpdateMaps(u, ix, cm, b, a);
    TrimSpaceIs(modelName, a);
    hide Do, WellFormed, HasBase, ListsAdapter, IsTrimOf, TrimSpace;
  }

  // ------------------------------------------------------------------------------
  // The store

  class AdaptersStore {
    const unmarshal: Unmarshal
    var loraAdapterToBaseModel: map<string, string>
    var configmapAdapters: map<NamespacedName, set<string>>
    var baseModels: map<string, int>

    constructor (unmarshal: Unmarshal)
      ensures this.unmarshal == unmarshal && Value() == EmptyIndex
    {
      this.unmarshal := unmarshal;
      loraAdapterToBaseModel, configmapAdapters, baseModels := map[], map[], map[];
    }

    function Value(): Index reads this {
      Index(loraAdapterToBaseModel, configmapAdapters, baseModels)
    }

    static method ParseBaseModelFromConfigMap(cm: ConfigMap) returns (base: Option<string>)
      ensures base == ParseBaseModel(cm)
    {
      if BASE_MODEL_KEY !in cm.data || TrimSpace(cm.data[BASE_MODEL_KEY]) == "" {
        return None;
      }
      base := Some(TrimSpace(cm.data[BASE_MODEL_KEY]));
    }

    method Parse(cm: ConfigMap) returns (m: Option<Mapping>)
      ensures m == ParseConfigMap(unmarshal, cm)
    {
      hide TrimSpace;
      var base := ParseBaseModelFromConfigMap(cm);
      if base.None? {
        return None;
      }
      var adapters: set<string> := {};
      if ADAPTERS_KEY in cm.data && TrimSpace(cm.data[ADAPTERS_KEY]) != "" {
        var list := unmarshal(cm.data[ADAPTERS_KEY]);
        if list.None? {
          return None;
        }
        for i := 0 to |list.value|
          invariant adapters == set j | 0 <= j < i && TrimSpace(list.value[j]) != "" :: TrimSpace(list.value[j])
        {
          var trimmedAdapter := TrimSpace(list.value[i]);
          if trimmedAdapter == "" {
            continue;
          }
          adapters := adapters + {trimmedAdapter};
        }
      }
      m := Some(Mapping(base.value, adapters));
    }

    method ConfigMapUpdateOrAddIfNotExist(cm: ConfigMap) returns (err: bool)
      modifies this
      ensures Value() == Do(unmarshal, old(Value()), Update(cm))
      ensures err <==> !WellFormed(unmarshal, cm)
      ensures !err ==> cm.key in configmapAdapters && forall a :: a in configmapAdapters[cm.key] <==> ListsAdapter(unmarshal, cm, a)
    {
      ParseIs(unmarshal, cm);
      hide ParseConfigMap, WellFormed, ListsAdapter, HasBase;
      var m := Parse(cm);
      if m.None? {
        return true;
      }
      var baseModel, newAdapters := m.value.base, m.value.adapters;
      var existingAdapters := {};
      var configmapExist := cm.key in configmapAdapters;
      if configmapExist {
        existingAdapters := configmapAdapters[cm.key];
      }
      var adaptersToRemove := existingAdapters - newAdapters;

      MapAdapters(newAdapters, baseModel);
      RemoveAdapters(adaptersToRemove);

      if !configmapExist {
        if baseModel in baseModels {
          baseModels := baseModels[baseModel := baseModels[baseModel] + 1];
        } else {
          baseModels := baseModels[baseModel := 1];
        }
      }
      configmapAdapters := configmapAdapters[cm.key := newAdapters];
      err := false;
    }

    /** The loop that maps adapters, in an arbitrary order. */
    method MapAdapters(adapters: set<string>, baseModel: string)
      modifies `loraAdapterToBaseModel
      ensures loraAdapterToBaseModel == old(loraAdapterToBaseModel) + Mapped(adapters, baseModel)
    {
      var todo := adapters;
      while todo != {}
        invariant todo <= adapters
        invariant loraAdapterToBaseModel == old(loraAdapterToBaseModel) + Mapped(adapters - todo, baseModel)
      {
        var adapter :| adapter in todo;
        todo := todo - {adapter};
        loraAdapterToBaseModel := loraAdapterToBaseModel[adapter := baseModel];
      }
    }

    /** The loops that delete adapters, in an arbitrary order. */
    method RemoveAdapters(adapters: set<string>)
      modifies `loraAdapterToBaseModel
      ensures loraAdapterToBaseModel == old(loraAdapterToBaseModel) - adapters
    {
      var todo := adapters;
      while todo != {}
        invariant todo <= adapters
        invariant loraAdapterToBaseModel == old(loraAdapterToBaseModel) - (adapters - todo)
      {
        var adapter :| adapter in todo;
        todo := todo - {adapter};
        loraAdapterToBaseModel := loraAdapterToBaseModel - {adapter};
      }
    }

    method ConfigMapDelete(cm: ConfigMap)
      modifies this
      ensures Value() == Do(unmarshal, old(Value()), Delete(cm))
    {
      hide ParseBaseModel;
      if cm.key !in configmapAdapters {
        return;
      }
      RemoveAdapters(configmapAdapters[cm.key]);
      configmapAdapters := configmapAdapters - {cm.key};

      var baseModel := ParseBaseModelFromConfigMap(cm);
      if baseModel.None? {
        return;
      }
      var count := if baseModel.value in baseModels then baseModels[baseModel.value] else 0;
      if count == 1 {
        baseModels := baseModels - {baseModel.value};
      } else {
        baseModels := baseModels[baseModel.value := count - 1];
      }
    }

    method GetBaseModel(modelName: string) returns (answer: string)
      ensures answer == Lookup(Value(), modelName)
    {
      var trimmedModelName := TrimSpace(modelName);
      if trimmedModelName in loraAdapterToBaseModel {
        return loraAdapterToBaseModel[trimmedModelName];
      }
      if trimmedModelName in baseModels {
        return trimmedModelName;
      }
      answer := "";
    }
  }
}
