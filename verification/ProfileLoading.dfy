/** What a loaded profile consists of: when a profile is refused, and which plugin of which
    reference ends up where, in the order of the references. */
module ProfileLoading {
  import opened Wrappers
  import opened Handlers
  import opened ConfigLoader
  import Selection

  // ------------------------------------------------------------------------------
  // Order: a list is that of its parts, and that of one reference is what it stands for

  lemma {:induction false} RequestRefsAppend(a: seq<PluginRef>, b: seq<PluginRef>, handle: Handle)
    requires forall r :: r in a + b ==> RequestRefOk(r, handle)
    ensures forall r :: r in a || r in b ==> RequestRefOk(r, handle)
    ensures RequestPluginsOf(a + b, handle) == RequestPluginsOf(a, handle) + RequestPluginsOf(b, handle)
    ensures SelectorPluginsOf(a + b, handle) == SelectorPluginsOf(a, handle) + SelectorPluginsOf(b, handle)
    decreases |b|
  {
    hide RequestRefOk;
    forall r | r in a || r in b ensures r in a + b {}
    if b == [] {
      assert a + b == a;
    } else {
      var before := b[..|b| - 1];
      assert (a + b)[..|a + b| - 1] == a + before;
      assert forall r :: r in a + before ==> r in a + b;
      RequestRefsAppend(a, before, handle);
    }
  }

  /** A request processor is that and nothing else; any other plugin goes to the model
      selector, a scorer with the weight of its reference. */
  lemma OneRequestRef(ref: PluginRef, handle: Handle)
    requires RequestRefOk(ref, handle)
    ensures var p := handle[ref.name]; var roles := Selection.Roles(p.filter, p.picker);
            && RequestPluginsOf([ref], handle) == (if p.request.Some? then [p.request.value] else [])
            && (p.request.Some? ==> SelectorPluginsOf([ref], handle) == [])
            && (p.request.None? && p.scorer.Some? ==>
                  ref.weight.Some? && SelectorPluginsOf([ref], handle) ==
                    [Selection.Weighted(Selection.WeightedScorer(p.scorer.value, ref.weight.value), roles)])
            && (p.request.None? && p.scorer.None? ==> SelectorPluginsOf([ref], handle) == [Selection.Unscored(roles)])
  {
    assert [ref][..0] == [];
    assert RequestPluginsOf([], handle) == [] && SelectorPluginsOf([], handle) == [];
  }

  lemma {:induction false} ResponseRefsAppend(a: seq<PluginRef>, b: seq<PluginRef>, handle: Handle)
    requires forall r :: r in a + b ==> ResponseRefOk(r, handle)
    ensures forall r :: r in a || r in b ==> ResponseRefOk(r, handle)
    ensures BodyPluginsOf(a + b, handle) == BodyPluginsOf(a, handle) + BodyPluginsOf(b, handle)
    ensures ChunkPluginsOf(a + b, handle) == ChunkPluginsOf(a, handle) + ChunkPluginsOf(b, handle)
    decreases |b|
  {
    hide ResponseRefOk;
    forall r | r in a || r in b ensures r in a + b {}
    if b == [] {
      assert a + b == a;
    } else {
      var before := b[..|b| - 1];
      assert (a + b)[..|a + b| - 1] == a + before;
      assert forall r :: r in a + before ==> r in a + b;
      assert forall r :: r in b ==> ResponseRefOk(r, handle);
      ResponseRefsAppend(a, before, handle);
    }
  }

  /** A plugin that processes bodies is that, even if it also processes chunks. */
  lemma OneResponseRef(ref: PluginRef, handle: Handle)
    requires ResponseRefOk(ref, handle)
    ensures var p := handle[ref.name];
            && BodyPluginsOf([ref], handle) == (if p.response.Some? then [p.response.value] else [])
            && (p.response.Some? ==> ChunkPluginsOf([ref], handle) == [])
            && (p.response.None? ==> p.chunk.Some? && ChunkPluginsOf([ref], handle) == [p.chunk.value])
  {
    assert [ref][..0] == [];
    assert BodyPluginsOf([], handle) == [] && ChunkPluginsOf([], handle) == [];
  }

  lemma {:induction false} PostNamesAppend(a: seq<string>, b: seq<string>, handle: Handle)
    requires forall n :: n in a + b ==> PostRefOk(n, handle)
    ensures forall n :: n in a || n in b ==> PostRefOk(n, handle)
    ensures PostBodyOf(a + b, handle) == PostBodyOf(a, handle) + PostBodyOf(b, handle)
    ensures PostHeadersOf(a + b, handle) == PostHeadersOf(a, handle) + PostHeadersOf(b, handle)
    decreases |b|
  {
    hide PostRefOk;
    forall n | n in a || n in b ensures n in a + b {}
    if b == [] {
      assert a + b == a;
    } else {
      var before := b[..|b| - 1];
      assert (a + b)[..|a + b| - 1] == a + before;
      assert forall n :: n in a + before ==> n in a + b;
      PostNamesAppend(a, before, handle);
    }
  }

  /** A post-processor of both kinds is in both lists. */
  lemma OnePostName(n: string, handle: Handle)
    requires PostRefOk(n, handle)
    ensures var p := handle[n];
            && (p.response.Some? || p.headers.Some?)
            && PostBodyOf([n], handle) == (if p.response.Some? then [p.response.value] else [])
            && PostHeadersOf([n], handle) == (if p.headers.Some? then [p.headers.value] else [])
  {
    assert [n][..0] == [];
    assert PostBodyOf([], handle) == [] && PostHeadersOf([], handle) == [];
  }

  // ------------------------------------------------------------------------------
  // The model selector's plugins

  lemma {:induction false} FiltersAppend(a: seq<Selection.Plugin>, b: seq<Selection.Plugin>)
    ensures Selection.FiltersOf(a + b) == Selection.FiltersOf(a) + Selection.FiltersOf(b)
    decreases |b|
  {
    if b == [] {
      assert a + b == a;
    } else {
      FiltersAppend(a, b[..|b| - 1]);
      assert (a + b)[..|a + b| - 1] == a + b[..|b| - 1];
    }
  }

  lemma {:induction false} ScorersAppend(a: seq<Selection.Plugin>, b: seq<Selection.Plugin>)
    ensures Selection.ScorersOf(a + b) == Selection.ScorersOf(a) + Selection.ScorersOf(b)
    decreases |b|
  {
    if b == [] {
      assert a + b == a;
    } else {
      ScorersAppend(a, b[..|b| - 1]);
      assert (a + b)[..|a + b| - 1] == a + b[..|b| - 1];
    }
  }

  lemma {:induction false} PickersAppend(a: seq<Selection.Plugin>, b: seq<Selection.Plugin>)
    ensures Selection.PickersOf(a + b) == Selection.PickersOf(a) + Selection.PickersOf(b)
    decreases |b|
  {
    if b == [] {
      assert a + b == a;
    } else {
      PickersAppend(a, b[..|b| - 1]);
      assert (a + b)[..|a + b| - 1] == a + b[..|b| - 1];
    }
  }

  /** One plugin may be a filter, a weighted scorer and a picker at once. */
  lemma OneSelector(p: Selection.Plugin)
    ensures Selection.FiltersOf([p]) == if p.roles.filter.Some? then [p.roles.filter.value] else []
    ensures Selection.ScorersOf([p]) == if p.Weighted? then [p.scorer] else []
    ensures Selection.PickersOf([p]) == if p.roles.picker.Some? then [p.roles.picker.value] else []
  {
    assert [p][..0] == [];
    assert Selection.FiltersOf([]) == [] && Selection.ScorersOf([]) == [] && Selection.PickersOf([]) == [];
  }

  // ------------------------------------------------------------------------------
  // When a profile is refused

  /** The reference is unknown, or not to a plugin that a request section can hold: a request
      processor, a filter or a picker, or a scorer with a weight. */
  predicate BadRequestRef(ref: PluginRef, handle: Handle) {
    || ref.name !in handle
    || var p := handle[ref.name];
       p.request.None? && ((p.scorer.Some? && ref.weight.None?) || (p.scorer.None? && p.filter.None? && p.picker.None?))
  }

  /** The reference is unknown, or not to a plugin that processes bodies or chunks. */
  predicate BadResponseRef(ref: PluginRef, handle: Handle) {
    ref.name !in handle || (handle[ref.name].response.None? && handle[ref.name].chunk.None?)
  }

  predicate IsBodyRef(ref: PluginRef, handle: Handle) { ref.name in handle && handle[ref.name].response.Some? }

  predicate IsChunkRef(ref: PluginRef, handle: Handle) { ref.name in handle && handle[ref.name].response.None? && handle[ref.name].chunk.Some? }

  ghost predicate HasBodyRef(refs: seq<PluginRef>, handle: Handle) { exists i :: 0 <= i < |refs| && IsBodyRef(refs[i], handle) }

  ghost predicate HasChunkRef(refs: seq<PluginRef>, handle: Handle) { exists i :: 0 <= i < |refs| && IsChunkRef(refs[i], handle) }

  lemma HasRefSnoc(refs: seq<PluginRef>, handle: Handle)
    requires refs != []
    ensures var before, last := refs[..|refs| - 1], refs[|refs| - 1];
            && (HasBodyRef(refs, handle) <==> HasBodyRef(before, handle) || IsBodyRef(last, handle))
            && (HasChunkRef(refs, handle) <==> HasChunkRef(before, handle) || IsChunkRef(last, handle))
  {
    hide IsBodyRef, IsChunkRef;
    var before := refs[..|refs| - 1];
    assert forall i :: 0 <= i < |before| ==> before[i] == refs[i];
  }

  lemma {:induction false} ListsAreEmpty(refs: seq<PluginRef>, handle: Handle)
    requires forall r :: r in refs ==> ResponseRefOk(r, handle)
    ensures BodyPluginsOf(refs, handle) != [] <==> HasBodyRef(refs, handle)
    ensures ChunkPluginsOf(refs, handle) != [] <==> HasChunkRef(refs, handle)
    decreases |refs|
  {
    if refs != [] {
      var before, last := refs[..|refs| - 1], refs[|refs| - 1];
      assert last in refs && ResponseRefOk(last, handle);
      assert IsBodyRef(last, handle) <==> handle[last.name].response.Some?;
      assert IsChunkRef(last, handle) <==> handle[last.name].response.None?;
      HasRefSnoc(refs, handle);
      hide HasBodyRef, HasChunkRef, IsBodyRef, IsChunkRef, ResponseRefOk;
      ListsAreEmpty(before, handle);
    }
  }

  /** A profile loads unless it has no name, no plugins section or an empty one, a bad
      reference, or body plugins next to chunk processors. */
  lemma RefusedIff(raw: RawProfile, handle: Handle)
    ensures !Loadable(raw, handle) <==>
              || raw.name == "" || raw.plugins.None?
              || (raw.plugins.value.request == [] && raw.plugins.value.response == [])
              || (exists i :: 0 <= i < |raw.plugins.value.request| && BadRequestRef(raw.plugins.value.request[i], handle))
              || (exists i :: 0 <= i < |raw.plugins.value.response| && BadResponseRef(raw.plugins.value.response[i], handle))
              || (HasBodyRef(raw.plugins.value.response, handle) && HasChunkRef(raw.plugins.value.response, handle))
  {
    if raw.plugins.Some? {
      var refs := raw.plugins.value.response;
      forall r ensures RequestRefOk(r, handle) <==> !BadRequestRef(r, handle) {}
      forall r ensures ResponseRefOk(r, handle) <==> !BadResponseRef(r, handle) {}
      hide RequestRefOk, BadRequestRef;
      if forall r :: r in refs ==> ResponseRefOk(r, handle) {
        ListsAreEmpty(refs, handle);
      }
      hide BodyPluginsOf, ChunkPluginsOf, BadResponseRef, ResponseRefOk, HasBodyRef, HasChunkRef;
    }
  }

  /** The four lists of a loaded profile, and its buffering flag before any post-processor is
      considered. */
  lemma LoadedIs(raw: RawProfile, handle: Handle)
    requires Loadable(raw, handle)
    ensures var loaded, refs := Loaded(raw, handle), raw.plugins.value;
            && loaded.profile.requestPlugins == RequestPluginsOf(refs.request, handle)
            && loaded.modelSelectorPlugins == SelectorPluginsOf(refs.request, handle)
            && loaded.profile.responsePlugins == BodyPluginsOf(refs.response, handle)
            && loaded.profile.chunkProcessors == ChunkPluginsOf(refs.response, handle)
            && (loaded.profile.needsResponseBuffering <==> HasBodyRef(refs.response, handle))
  {
    var refs := raw.plugins.value.response;
    ListsAreEmpty(refs, handle);
    hide RequestPluginsOf, SelectorPluginsOf, BodyPluginsOf, ChunkPluginsOf, RequestRefOk, HasBodyRef;
  }
}
