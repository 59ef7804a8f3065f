/** pkg/config/loader/configloader.go: from plugin references to profiles and processor
    lists, and the buffering rule that keeps response plugins from being skipped. */
module ConfigLoader {
  import opened Wrappers
  import opened Envoy
  import opened Messages
  import opened Handlers
  import opened Stream
  import Selection
  import ResponseStream

  /** A configured plugin object: which interfaces it implements, and how. */
  datatype PluginObject = PluginObject(
    request: Option<RequestPlugin>,
    response: Option<ResponsePlugin>,
    chunk: Option<ResponsePlugin>,
    headers: Option<ResponsePlugin>,
    filter: Option<Selection.Filter>,
    scorer: Option<Selection.Scorer>,
    picker: Option<Selection.Picker>)

  type Handle = map<string, PluginObject>

  datatype PluginRef = PluginRef(name: string, weight: Option<real>)

  datatype Sections = Sections(request: seq<PluginRef>, response: seq<PluginRef>)

  datatype RawProfile = RawProfile(name: string, plugins: Option<Sections>)

  datatype RawConfig = RawConfig(profiles: seq<RawProfile>, preProcessing: seq<string>, postProcessing: seq<string>)

  /** A profile with the plugins meant for its model selector. */
  datatype LoadedProfile = LoadedProfile(profile: Profile, modelSelectorPlugins: seq<Selection.Plugin>)

  // ------------------------------------------------------------------------------
  // What the references of a profile stand for

  predicate RequestRefOk(ref: PluginRef, handle: Handle) {
    && ref.name in handle
    && var p := handle[ref.name];
       p.request.Some? || (if p.scorer.Some? then ref.weight.Some? else p.filter.Some? || p.picker.Some?)
  }

  predicate ResponseRefOk(ref: PluginRef, handle: Handle) {
    ref.name in handle && (handle[ref.name].response.Some? || handle[ref.name].chunk.Some?)
  }

  function RequestPluginsOf(refs: seq<PluginRef>, handle: Handle): seq<RequestPlugin>
    requires forall r :: r in refs ==> RequestRefOk(r, handle)
  {
    if refs == [] then []
    else
      assert RequestRefOk(refs[|refs| - 1], handle);
      var p := handle[refs[|refs| - 1].name];
      RequestPluginsOf(refs[..|refs| - 1], handle) + (if p.request.Some? then [p.request.value] else [])
  }

  /** References that are not request plugins, scorers with their weights. */
  function SelectorPluginsOf(refs: seq<PluginRef>, handle: Handle): (ps: seq<Selection.Plugin>)
    requires forall r :: r in refs ==> RequestRefOk(r, handle)
    ensures forall p :: p in ps ==> !p.BareScorer?
  {
    if refs == [] then []
    else
      var ref := refs[|refs| - 1];
      assert RequestRefOk(ref, handle);
      var p := handle[ref.name];
      var roles := Selection.Roles(p.filter, p.picker);
      SelectorPluginsOf(refs[..|refs| - 1], handle) +
      (if p.request.Some? then []
       else if p.scorer.Some? then [Selection.Weighted(Selection.WeightedScorer(p.scorer.value, ref.weight.value), roles)]
       else [Selection.Unscored(roles)])
  }

  /** A plugin that processes whole bodies counts as that, even if it also processes chunks. */
  function BodyPluginsOf(refs: seq<PluginRef>, handle: Handle): seq<ResponsePlugin>
    requires forall r :: r in refs ==> ResponseRefOk(r, handle)
  {
    if refs == [] then []
    else
      assert ResponseRefOk(refs[|refs| - 1], handle);
      var p := handle[refs[|refs| - 1].name];
      BodyPluginsOf(refs[..|refs| - 1], handle) + (if p.response.Some? then [p.response.value] else [])
  }

  function ChunkPluginsOf(refs: seq<PluginRef>, handle: Handle): seq<ResponsePlugin>
    requires forall r :: r in refs ==> ResponseRefOk(r, handle)
  {
    if refs == [] then []
    else
      assert ResponseRefOk(refs[|refs| - 1], handle);
      var p := handle[refs[|refs| - 1].name];
      ChunkPluginsOf(refs[..|refs| - 1], handle) + (if p.response.None? then [p.chunk.value] else [])
  }

  predicate Loadable(raw: RawProfile, handle: Handle) {
    && raw.name != "" && raw.plugins.Some?
    && (raw.plugins.value.request != [] || raw.plugins.value.response != [])
    && (forall r :: r in raw.plugins.value.request ==> RequestRefOk(r, handle))
    && (forall r :: r in raw.plugins.value.response ==> ResponseRefOk(r, handle))
    && (|BodyPluginsOf(raw.plugins.value.response, handle)| == 0 || |ChunkPluginsOf(raw.plugins.value.response, handle)| == 0)
  }

  function Loaded(raw: RawProfile, handle: Handle): LoadedProfile
    requires Loadable(raw, handle)
  {
    var body := BodyPluginsOf(raw.plugins.value.response, handle);
    LoadedProfile(
      Profile(RequestPluginsOf(raw.plugins.value.request, handle), body, ChunkPluginsOf(raw.plugins.value.response, handle), |body| > 0),
      SelectorPluginsOf(raw.plugins.value.request, handle))
  }

  method BuildRequestPlugins(refs: seq<PluginRef>, handle: Handle)
    returns (ok: bool, requestPlugins: seq<RequestPlugin>, modelSelectorPlugins: seq<Selection.Plugin>)
    ensures ok <==> forall r :: r in refs ==> RequestRefOk(r, handle)
    ensures ok ==> requestPlugins == RequestPluginsOf(refs, handle) && modelSelectorPlugins == SelectorPluginsOf(refs, handle)
  {
    requestPlugins, modelSelectorPlugins := [], [];
    for i := 0 to |refs|
      invariant forall r :: r in refs[..i] ==> RequestRefOk(r, handle)
      invariant requestPlugins == RequestPluginsOf(refs[..i], handle)
      invariant modelSelectorPlugins == SelectorPluginsOf(refs[..i], handle)
    {
      assert refs[..i + 1][..i] == refs[..i];
      var ref := refs[i];
      assert ref in refs;
      if ref.name !in handle {
        return false, [], [];
      }
      var p := handle[ref.name];
      if p.request.Some? {
        requestPlugins := requestPlugins + [p.request.value];
        continue;
      }
      if p.filter.None? && p.scorer.None? && p.picker.None? {
        return false, [], [];
      }
      var roles := Selection.Roles(p.filter, p.picker);
      if p.scorer.Some? {
        if ref.weight.None? {
          return false, [], [];
        }
        modelSelectorPlugins := modelSelectorPlugins + [Selection.Weighted(Selection.WeightedScorer(p.scorer.value, ref.weight.value), roles)];
      } else {
        modelSelectorPlugins := modelSelectorPlugins + [Selection.Unscored(roles)];
      }
    }
    assert refs[..|refs|] == refs;
    return true, requestPlugins, modelSelectorPlugins;
  }

  method BuildResponsePlugins(refs: seq<PluginRef>, handle: Handle)
    returns (ok: bool, responsePlugins: seq<ResponsePlugin>, chunkProcessors: seq<ResponsePlugin>)
    ensures ok <==> forall r :: r in refs ==> ResponseRefOk(r, handle)
    ensures ok ==> responsePlugins == BodyPluginsOf(refs, handle) && chunkProcessors == ChunkPluginsOf(refs, handle)
  {
    responsePlugins, chunkProcessors := [], [];
    for i := 0 to |refs|
      invariant forall r :: r in refs[..i] ==> ResponseRefOk(r, handle)
      invariant responsePlugins == BodyPluginsOf(refs[..i], handle) && chunkProcessors == ChunkPluginsOf(refs[..i], handle)
    {
      assert refs[..i + 1][..i] == refs[..i];
      var ref := refs[i];
      assert ref in refs;
      if ref.name !in handle {
        return false, [], [];
      }
      var p := handle[ref.name];
      if p.response.Some? {
        responsePlugins := responsePlugins + [p.response.value];
      } else if p.chunk.Some? {
        chunkProcessors := chunkProcessors + [p.chunk.value];
      } else {
        return false, [], [];
      }
    }
    assert refs[..|refs|] == refs;
    return true, responsePlugins, chunkProcessors;
  }

  /** The profiles of a load: exactly the names of the raw profiles, each as the last raw
      profile of its name says. */
  ghost predicate Built(raws: seq<RawProfile>, handle: Handle, profiles: map<string, LoadedProfile>) {
    && (forall i :: 0 <= i < |raws| ==> Loadable(raws[i], handle) && raws[i].name in profiles)
    && forall n :: n in profiles ==>
         exists i :: 0 <= i < |raws| && raws[i].name == n && profiles[n] == Loaded(raws[i], handle)
                     && forall j :: i < j < |raws| ==> raws[j].name != n
  }

  /** The body of the loop over the raw profiles. */
  method BuildProfile(raw: RawProfile, handle: Handle) returns (result: Option<LoadedProfile>)
    ensures result.Some? <==> Loadable(raw, handle)
    ensures result.Some? ==> result.value == Loaded(raw, handle)
  {
    if |raw.name| == 0 || raw.plugins.None? || (|raw.plugins.value.request| == 0 && |raw.plugins.value.response| == 0) {
      return None;
    }
    hide RequestPluginsOf, SelectorPluginsOf, BodyPluginsOf, ChunkPluginsOf, RequestRefOk, ResponseRefOk;
    var ok, requestPlugins, modelSelectorPlugins := BuildRequestPlugins(raw.plugins.value.request, handle);
    if !ok {
      return None;
    }
    var ok', responsePlugins, chunkProcessors := BuildResponsePlugins(raw.plugins.value.response, handle);
    if !ok' {
      return None;
    }
    if |responsePlugins| > 0 && |chunkProcessors| > 0 {
      return None;
    }
    return Some(LoadedProfile(Profile(requestPlugins, responsePlugins, chunkProcessors, |responsePlugins| > 0), modelSelectorPlugins));
  }

  method BuildProfiles(raws: seq<RawProfile>, handle: Handle) returns (result: Option<map<string, LoadedProfile>>)
    ensures result.Some? <==> raws != [] && forall i :: 0 <= i < |raws| ==> Loadable(raws[i], handle)
    ensures result.Some? ==> Built(raws, handle, result.value)
  {
    hide Loadable, Loaded;
    if |raws| == 0 {
      return None;
    }
    var profiles: map<string, LoadedProfile> := map[];
    assert Built(raws[..0], handle, profiles);
    hide Built;
    for i := 0 to |raws|
      invariant Built(raws[..i], handle, profiles)
      invariant forall k :: 0 <= k < i ==> Loadable(raws[k], handle)
    {
      var loaded := BuildProfile(raws[i], handle);
      if loaded.None? {
        return None;
      }
      BuildOneMore(raws, handle, profiles, i, loaded.value);
      profiles := profiles[raws[i].name := loaded.value];
    }
    assert raws[..|raws|] == raws;
    return Some(profiles);
  }

  lemma BuildOneMore(raws: seq<RawProfile>, handle: Handle, profiles: map<string, LoadedProfile>, i: nat, loaded: LoadedProfile)
    requires i < |raws| && Built(raws[..i], handle, profiles)
    requires Loadable(raws[i], handle) && loaded == Loaded(raws[i], handle)
    ensures Built(raws[..i + 1], handle, profiles[raws[i].name := loaded])
  {
    hide Loadable, Loaded;
    var before, now, profiles' := raws[..i], raws[..i + 1], profiles[raws[i].name := loaded];
    forall n | n in profiles'
      ensures exists k :: 0 <= k < |now| && now[k].name == n && profiles'[n] == Loaded(now[k], handle)
                          && forall j :: k < j < |now| ==> now[j].name != n
    {
      if n == raws[i].name {
        assert now[i].name == n;
      } else {
        var k :| 0 <= k < |before| && before[k].name == n && profiles[n] == Loaded(before[k], handle)
                 && forall j :: k < j < |before| ==> before[j].name != n;
        assert now[k] == before[k] && forall j :: k < j < |now| ==> now[j].name != n;
      }
    }
    forall k | 0 <= k < |now| ensures Loadable(now[k], handle) && now[k].name in profiles' {
      if k < i { assert now[k] == before[k]; }
    }
  }

  // ------------------------------------------------------------------------------
  // Processors outside profiles

  predicate PostRefOk(name: string, handle: Handle) {
    name in handle && (handle[name].headers.Some? || handle[name].response.Some?)
  }

  function PostBodyOf(names: seq<string>, handle: Handle): seq<ResponsePlugin>
    requires forall n :: n in names ==> PostRefOk(n, handle)
  {
    if names == [] then []
    else
      assert PostRefOk(names[|names| - 1], handle);
      var p := handle[names[|names| - 1]];
      PostBodyOf(names[..|names| - 1], handle) + (if p.response.Some? then [p.response.value] else [])
  }

  function PostHeadersOf(names: seq<string>, handle: Handle): seq<ResponsePlugin>
    requires forall n :: n in names ==> PostRefOk(n, handle)
  {
    if names == [] then []
    else
      assert PostRefOk(names[|names| - 1], handle);
      var p := handle[names[|names| - 1]];
      PostHeadersOf(names[..|names| - 1], handle) + (if p.headers.Some? then [p.headers.value] else [])
  }

  /** A post-processor with both interfaces goes to both lists. */
  method BuildPostProcessors(names: seq<string>, handle: Handle)
    returns (ok: bool, bodyPostProcessors: seq<ResponsePlugin>, headersPostProcessors: seq<ResponsePlugin>)
    ensures ok <==> forall n :: n in names ==> n in handle && (handle[n].headers.Some? || handle[n].response.Some?)
    ensures ok <==> forall n :: n in names ==> PostRefOk(n, handle)
    ensures ok ==> bodyPostProcessors == PostBodyOf(names, handle) && headersPostProcessors == PostHeadersOf(names, handle)
  {
    bodyPostProcessors, headersPostProcessors := [], [];
    for i := 0 to |names|
      invariant forall n :: n in names[..i] ==> PostRefOk(n, handle)
      invariant bodyPostProcessors == PostBodyOf(names[..i], handle) && headersPostProcessors == PostHeadersOf(names[..i], handle)
    {
      assert names[..i + 1][..i] == names[..i];
      assert names[i] in names;
      if names[i] !in handle {
        return false, [], [];
      }
      var p := handle[names[i]];
      var placed := false;
      if p.headers.Some? {
        headersPostProcessors := headersPostProcessors + [p.headers.value];
        placed := true;
      }
      if p.response.Some? {
        bodyPostProcessors := bodyPostProcessors + [p.response.value];
        placed := true;
      }
      if !placed {
        return false, [], [];
      }
    }
    assert names[..|names|] == names;
    return true, bodyPostProcessors, headersPostProcessors;
  }

  method BuildPreProcessors(names: seq<string>, handle: Handle) returns (ok: bool, preProcessors: seq<RequestPlugin>)
    ensures ok <==> forall n :: n in names ==> n in handle && handle[n].request.Some?
    ensures ok ==> |preProcessors| == |names| && forall i :: 0 <= i < |names| ==> names[i] in handle && handle[names[i]].request == Some(preProcessors[i])
  {
    preProcessors := [];
    for i := 0 to |names|
      invariant |preProcessors| == i
      invariant forall k :: 0 <= k < i ==> names[k] in handle && Some(preProcessors[k]) == handle[names[k]].request
    {
      if names[i] !in handle {
        return false, [];
      }
      if handle[names[i]].request.None? {
        return false, [];
      }
      preProcessors := preProcessors + [handle[names[i]].request.value];
    }
    return true, preProcessors;
  }

  // ------------------------------------------------------------------------------
  // The buffering rule

  /** Every profile needs buffering exactly when a body plugin would see its responses, and
      then no chunk processor is left to miss them. */
  ghost predicate SoundBuffering(c: Config) {
    forall n :: n in c.profiles ==> SoundProfile(c.profiles[n], c.postProcessors)
  }

  ghost predicate SoundProfile(p: Profile, postProcessors: seq<ResponsePlugin>) {
    && (p.needsResponseBuffering <==> p.responsePlugins != [] || postProcessors != [])
    && (p.needsResponseBuffering ==> p.chunkProcessors == [])
  }

  /** Body post-processors force every profile to buffer, and refuse chunk processors. */
  method ForceBuffering(profiles: map<string, LoadedProfile>) returns (ok: bool, forced: map<string, LoadedProfile>)
    ensures ok <==> forall n :: n in profiles ==> |profiles[n].profile.chunkProcessors| == 0
    ensures ok ==> forced.Keys == profiles.Keys &&
                   forall n :: n in profiles ==> forced[n] == profiles[n].(profile := profiles[n].profile.(needsResponseBuffering := true))
  {
    forced := profiles;
    var names := profiles.Keys;
    while names != {}
      invariant names <= profiles.Keys && forced.Keys == profiles.Keys
      invariant forall n :: n in profiles && n !in names ==>
                  && |profiles[n].profile.chunkProcessors| == 0
                  && forced[n] == profiles[n].(profile := profiles[n].profile.(needsResponseBuffering := true))
      invariant forall n :: n in names ==> forced[n] == profiles[n]
      decreases |names|
    {
      var name :| name in names;
      names := names - {name};
      if |forced[name].profile.chunkProcessors| > 0 {
        return false, forced;
      }
      forced := forced[name := forced[name].(profile := forced[name].profile.(needsResponseBuffering := true))];
    }
    return true, forced;
  }

  /** No profile that a load would keep mixes chunk processors with body post-processors. */
  ghost predicate Compatible(raw: RawConfig, handle: Handle)
    requires forall i :: 0 <= i < |raw.profiles| ==> Loadable(raw.profiles[i], handle)
    requires forall n :: n in raw.postProcessing ==> PostRefOk(n, handle)
  {
    || |PostBodyOf(raw.postProcessing, handle)| == 0
    || forall i :: 0 <= i < |raw.profiles| ==>
         || |Loaded(raw.profiles[i], handle).profile.chunkProcessors| == 0
         || exists j :: i < j < |raw.profiles| && raw.profiles[j].name == raw.profiles[i].name
  }

  ghost predicate Accepted(raw: RawConfig, handle: Handle) {
    && raw.profiles != []
    && (forall i :: 0 <= i < |raw.profiles| ==> Loadable(raw.profiles[i], handle))
    && (forall n :: n in raw.preProcessing ==> n in handle && handle[n].request.Some?)
    && (forall n :: n in raw.postProcessing ==> PostRefOk(n, handle))
    && Compatible(raw, handle)
  }

  lemma ChunkProfiles(raws: seq<RawProfile>, handle: Handle, profiles: map<string, LoadedProfile>)
    requires Built(raws, handle, profiles)
    ensures (forall n :: n in profiles ==> |profiles[n].profile.chunkProcessors| == 0)
       <==> forall i :: 0 <= i < |raws| ==>
              || |Loaded(raws[i], handle).profile.chunkProcessors| == 0
              || exists j :: i < j < |raws| && raws[j].name == raws[i].name
  {
    hide Loadable, Loaded;
    if forall n :: n in profiles ==> |profiles[n].profile.chunkProcessors| == 0 {
      forall i | 0 <= i < |raws| && !exists j :: i < j < |raws| && raws[j].name == raws[i].name
        ensures |Loaded(raws[i], handle).profile.chunkProcessors| == 0
      {
        var n := raws[i].name;
        var k :| 0 <= k < |raws| && raws[k].name == n && profiles[n] == Loaded(raws[k], handle)
                 && forall j :: k < j < |raws| ==> raws[j].name != n;
        assert k == i;
      }
    }
  }

  /** A profile as the buffering rule leaves it. */
  function Ruled(p: LoadedProfile, postProcessors: seq<ResponsePlugin>): LoadedProfile {
    if |postProcessors| > 0 then p.(profile := p.profile.(needsResponseBuffering := true)) else p
  }

  /** What every built profile satisfies before the rule. */
  lemma BuiltBuffering(raws: seq<RawProfile>, handle: Handle, built: map<string, LoadedProfile>)
    requires Built(raws, handle, built)
    ensures forall n :: n in built ==>
              var p := built[n].profile;
              (p.needsResponseBuffering <==> p.responsePlugins != []) && (p.responsePlugins == [] || p.chunkProcessors == [])
  {
    hide BodyPluginsOf, ChunkPluginsOf, RequestPluginsOf, SelectorPluginsOf;
  }

  lemma RuleIsSound(raws: seq<RawProfile>, handle: Handle, built: map<string, LoadedProfile>, postProcessors: seq<ResponsePlugin>)
    requires Built(raws, handle, built)
    ensures |postProcessors| == 0 || (forall n :: n in built ==> |built[n].profile.chunkProcessors| == 0) ==>
              forall n :: n in built ==> SoundProfile(Ruled(built[n], postProcessors).profile, postProcessors)
  {
    BuiltBuffering(raws, handle, built);
    hide Built;
  }

  method ApplyBufferingRule(profiles: map<string, LoadedProfile>, postProcessors: seq<ResponsePlugin>)
    returns (ok: bool, ruled: map<string, LoadedProfile>)
    ensures ok <==> |postProcessors| == 0 || forall n :: n in profiles ==> |profiles[n].profile.chunkProcessors| == 0
    ensures ok ==> ruled.Keys == profiles.Keys && forall n :: n in profiles ==> ruled[n] == Ruled(profiles[n], postProcessors)
  {
    ok, ruled := true, profiles;
    if |postProcessors| > 0 {
      ok, ruled := ForceBuffering(profiles);
    }
  }

  /** The part of LoadConfiguration that shapes responses. */
  method LoadProcessing(raw: RawConfig, handle: Handle, picker: (CycleState, Message, map<string, Profile>) -> Picked,
                        parse: bytes -> Parsed, marshal: Option<Body> -> Option<bytes>)
    returns (result: Option<(Config, map<string, LoadedProfile>)>, ghost built: map<string, LoadedProfile>)
    ensures result.Some? <==> Accepted(raw, handle)
    ensures result.Some? ==>
              var (c, profiles) := result.value;
              && SoundBuffering(c)
              && Built(raw.profiles, handle, built) && profiles.Keys == built.Keys == c.profiles.Keys
              && (forall n :: n in profiles ==> profiles[n] == Ruled(built[n], c.postProcessors) && c.profiles[n] == profiles[n].profile)
              && |c.preProcessors| == |raw.preProcessing|
              && (forall i :: 0 <= i < |raw.preProcessing| ==>
                    raw.preProcessing[i] in handle && handle[raw.preProcessing[i]].request == Some(c.preProcessors[i]))
              && c.postProcessors == PostBodyOf(raw.postProcessing, handle)
              && c.responseHeadersPostProcessors == PostHeadersOf(raw.postProcessing, handle)
              && c.picker == picker && c.parse == parse && c.marshal == marshal
  {
    hide Loadable, PostRefOk, SoundProfile, Built, Loaded, Ruled, PostBodyOf, PostHeadersOf;
    built := map[];
    var profiles := BuildProfiles(raw.profiles, handle);
    if profiles.None? {
      return None, built;
    }
    built := profiles.value;
    var preOk, preProcessors := BuildPreProcessors(raw.preProcessing, handle);
    if !preOk {
      return None, built;
    }
    var postOk, postProcessors, headersPostProcessors := BuildPostProcessors(raw.postProcessing, handle);
    if !postOk {
      return None, built;
    }
    ChunkProfiles(raw.profiles, handle, built);
    RuleIsSound(raw.profiles, handle, built, postProcessors);
    var ruleOk, ruled := ApplyBufferingRule(profiles.value, postProcessors);
    if !ruleOk {
      return None, built;
    }
    var plain := map n | n in ruled :: if n in ruled then ruled[n].profile else EmptyProfile;
    return Some((Config(preProcessors, picker, plain, postProcessors, headersPostProcessors, parse, marshal), ruled)), built;
  }

  /** buildModelSelector for one plugin: the pipeline gets the profile's plugins, and the
      max-score picker when they bring none. */
  method WireModelSelector(pipeline: Selection.Pipeline, plugins: seq<Selection.Plugin>) returns (ok: bool)
    requires forall p :: p in plugins ==> !p.BareScorer?
    modifies pipeline
    ensures ok <==> |Selection.PickersOf(plugins)| + (if old(pipeline.picker).Some? then 1 else 0) <= 1
    ensures ok ==> pipeline.picker.Some? && pipeline.scorers == old(pipeline.scorers) + Selection.ScorersOf(plugins)
    ensures ok ==> pipeline.filters == old(pipeline.filters) + Selection.FiltersOf(plugins)
    ensures !ok ==> pipeline.filters == old(pipeline.filters) && pipeline.scorers == old(pipeline.scorers) && pipeline.picker == old(pipeline.picker)
    ensures ok && old(pipeline.picker).None? && Selection.PickersOf(plugins) == [] ==> pipeline.picker.value.MaxScorePicker?
  {
    ok := pipeline.AddPlugins(plugins);
    if !ok {
      return;
    }
    if pipeline.picker.None? {
      pipeline.picker := Some(Selection.MaxScorePicker);
    }
  }

  // ------------------------------------------------------------------------------
  // No silently skipped response plugin

  /** The profile picker chooses among the profiles it is given. */
  ghost predicate PicksConfigured(c: Config) {
    forall cycle, m :: var pick := c.picker(cycle, m, c.profiles); pick.choice.Success? ==> pick.choice.value in c.profiles.Values
  }

  /** While a stream lives, its profile is a configured one exactly once its request body is
      complete; before that it is the empty profile. */
  ghost predicate ProfileIsPicked(c: Config, st: State) {
    st.ended.None? ==> if st.requestBodyComplete then st.ctx.profile in c.profiles.Values else st.ctx.profile == EmptyProfile
  }

  lemma RequestBodyPicks(c: Config, ctx: Context, body: bytes)
    requires PicksConfigured(c) && HandleRequestBody(c, ctx, body).result.Success?
    ensures HandleRequestBody(c, ctx, body).ctx.profile in c.profiles.Values
  {
    hide RunRequestPlugins, Unmarshalled, ApplyOps, ApplyOp, RequestBodyReplies, OutgoingBody, Itoa, ChunkBody;
    var parsed := c.parse(body);
    var pre := RunRequestPlugins(ctx.cycle, Unmarshalled(ctx.request, parsed), c.preProcessors);
    var pick := c.picker(pre.cycle, pre.msg, c.profiles);
    assert pick.choice.Success? ==> pick.choice.value in c.profiles.Values;
  }

  lemma StepKeepsProfile(c: Config, st: State, msg: Incoming)
    requires PicksConfigured(c) && ProfileIsPicked(c, st)
    ensures ProfileIsPicked(c, Next(c, st, msg).st)
  {
    hide HandleRequestBody, HandleResponseHeaders, HandleResponseBody, HandleResponseChunk, PicksConfigured;
    ResponseHandlersKeepRequest(c, st.ctx);
    if msg.InRequestBody? && msg.eos && HandleRequestBody(c, st.ctx, st.requestBody + msg.body).result.Success? {
      RequestBodyPicks(c, st.ctx, st.requestBody + msg.body);
    }
  }

  lemma {:induction false} ProfileAlongRun(c: Config, st: State, msgs: seq<Incoming>)
    requires PicksConfigured(c) && ProfileIsPicked(c, st)
    ensures ProfileIsPicked(c, Run(c, st, msgs).st)
    decreases |msgs|
  {
    hide ProfileIsPicked, PicksConfigured, Next;
    if msgs != [] {
      StepKeepsProfile(c, st, msgs[0]);
      ProfileAlongRun(c, Next(c, st, msgs[0]).st, msgs[1..]);
    }
  }

  /** Every chunk processor was called on every chunk, once and in order; and every body
      plugin and body post-processor was called once, in order, on a body that parses. */
  ghost predicate NothingMissed(c: Config, ctx: Context, received: seq<Chunk>, calls: seq<Call>, sent: seq<Chunk>) {
    var plugins, body := ctx.profile.responsePlugins + c.postProcessors, ConcatChunks(received);
    && (ctx.profile.chunkProcessors != [] ==> ResponseStream.StreamTrace(calls, ctx.profile.chunkProcessors, received, sent))
    && (plugins != [] && !c.parse(body).Malformed? ==>
          ResponseStream.BodyPluginsRan(calls, plugins, ResponseStream.ParsedResponse(c, ctx, body)))
  }

  /** What is delivered on a configured profile misses nothing. */
  lemma NothingSkipped(c: Config, ctx: Context, received: seq<Chunk>, calls: seq<Call>, sent: seq<Chunk>)
    requires SoundBuffering(c) && ctx.profile in c.profiles.Values
    requires ResponseStream.Delivered(c, ctx, received, calls, sent)
    ensures NothingMissed(c, ctx, received, calls, sent)
  {
    hide ResponseStream.StreamTrace, ResponseStream.BodyPluginsRan;
    var n :| n in c.profiles && c.profiles[n] == ctx.profile;
  }

  /** Under body post-processors a live stream buffers its response exactly when its request
      had a complete body: without one the empty profile streams the response past them. */
  lemma PostProcessorsNeedRequestBody(c: Config, msgs: seq<Incoming>)
    requires SoundBuffering(c) && PicksConfigured(c) && c.postProcessors != []
    requires Run(c, Initial, msgs).st.ended.None?
    ensures var st := Run(c, Initial, msgs).st; st.ctx.profile.needsResponseBuffering <==> st.requestBodyComplete
  {
    ProfileAlongRun(c, Initial, msgs);
    var st := Run(c, Initial, msgs).st;
    if st.requestBodyComplete {
      var n :| n in c.profiles && c.profiles[n] == st.ctx.profile;
    }
  }

  /** A run from the start that gets response headers and then completes its response. */
  ghost predicate CompletesResponse(c: Config, before: seq<Incoming>, headers: seq<HeaderValue>, tail: seq<Incoming>) {
    var st := Run(c, Initial, before).st;
    var r := Run(c, Initial, before + ([InResponseHeaders(headers, false)] + tail));
    && ResponseStream.AwaitingResponse(st) && ResponseStream.Tail(st, tail)
    && r.st.ended.None? && r.st.responseBodyComplete
  }

  /** What such a run has delivered after the response headers, and through which calls. */
  lemma DeliveredOnRun(c: Config, before: seq<Incoming>, headers: seq<HeaderValue>, tail: seq<Incoming>)
    returns (calls: seq<Call>, sent: seq<Chunk>)
    requires CompletesResponse(c, before, headers, tail)
    ensures var st := Run(c, Initial, before).st; var ctx := HandleResponseHeaders(c, st.ctx, headers, false).ctx;
            var r := Run(c, Initial, before + ([InResponseHeaders(headers, false)] + tail));
            && ctx.profile == st.ctx.profile && r.st.ctx.calls == ctx.calls + calls
            && ResponseStream.Delivered(c, ctx, ResponseStream.ReceivedChunks(tail), calls, sent)
  {
    var response := [InResponseHeaders(headers, false)] + tail;
    RunAppend(c, Initial, before, response);
    var st := Run(c, Initial, before).st;
    ResponseStream.ResponseOrderAndFidelity(c, st, headers, tail);
    ResponseStream.DeferredHeaders(c, st, headers);
    hide Run, HandleResponseHeaders, ResponseStream.Delivered;
    var ctx := HandleResponseHeaders(c, st.ctx, headers, false).ctx;
    var r := Run(c, st, response);
    var h;
    h, calls, sent :|
      && ResponseStream.ResponseReplies(r.sent) == [ResponseHeaders(h)] + ResponseBodyReplies(sent)
      && ResponseStream.EosExactlyLast(sent)
      && r.st.ctx.calls == ctx.calls + calls
      && ResponseStream.Delivered(c, ctx, ResponseStream.ReceivedChunks(tail), calls, sent);
  }

  /** No silently skipped response plugin: under a loaded configuration, in every run whose
      request body was completed, a response that ends without error has gone through every
      plugin meant for it. `before` is all that led to the response headers. */
  lemma NoPluginIsSkipped(c: Config, before: seq<Incoming>, headers: seq<HeaderValue>, tail: seq<Incoming>)
    requires SoundBuffering(c) && PicksConfigured(c) && CompletesResponse(c, before, headers, tail)
    requires Run(c, Initial, before).st.requestBodyComplete
    ensures var ctx := HandleResponseHeaders(c, Run(c, Initial, before).st.ctx, headers, false).ctx;
            var r := Run(c, Initial, before + ([InResponseHeaders(headers, false)] + tail));
            exists calls, sent ::
              r.st.ctx.calls == ctx.calls + calls && NothingMissed(c, ctx, ResponseStream.ReceivedChunks(tail), calls, sent)
  {
    ProfileAlongRun(c, Initial, before);
    var calls, sent := DeliveredOnRun(c, before, headers, tail);
    hide Run, HandleResponseHeaders, ResponseStream.Delivered, NothingMissed;
    var ctx := HandleResponseHeaders(c, Run(c, Initial, before).st.ctx, headers, false).ctx;
    NothingSkipped(c, ctx, ResponseStream.ReceivedChunks(tail), calls, sent);
  }

  lemma {:induction false} NoProcessorsNoCalls(calls: seq<Call>, received: seq<Chunk>, sent: seq<Chunk>)
    requires ResponseStream.StreamTrace(calls, [], received, sent)
    ensures calls == []
    decreases |received|
  {
    if received != [] {
      NoProcessorsNoCalls(calls[0..], received[1..], sent[1..]);
    }
  }

  /** Every body plugin of the profile and every body post-processor was called once, in
      order, each on the response its predecessors left. */
  ghost predicate BodyPluginsCalled(c: Config, ctx: Context, tail: seq<Incoming>, calls: seq<Call>) {
    ResponseStream.BodyPluginsRan(calls, ctx.profile.responsePlugins + c.postProcessors,
                                  ResponseStream.ParsedResponse(c, ctx, ConcatChunks(ResponseStream.ReceivedChunks(tail))))
  }

  /** Exactly when body post-processors are called: under a loaded configuration that has
      some, a completed response goes through them, behind the profile's body plugins, if
      and only if its request had a complete body and its own bytes parse; if not, no
      plugin at all is called on it. */
  lemma PostProcessorsCalledIff(c: Config, before: seq<Incoming>, headers: seq<HeaderValue>, tail: seq<Incoming>)
    requires SoundBuffering(c) && PicksConfigured(c) && c.postProcessors != []
    requires CompletesResponse(c, before, headers, tail)
    ensures var st := Run(c, Initial, before).st; var ctx := HandleResponseHeaders(c, st.ctx, headers, false).ctx;
            var r := Run(c, Initial, before + ([InResponseHeaders(headers, false)] + tail));
            var parses := !c.parse(ConcatChunks(ResponseStream.ReceivedChunks(tail))).Malformed?;
            exists calls ::
              && r.st.ctx.calls == ctx.calls + calls
              && (BodyPluginsCalled(c, ctx, tail, calls) <==> st.requestBodyComplete && parses)
              && (!(st.requestBodyComplete && parses) ==> calls == [])
  {
    ProfileAlongRun(c, Initial, before);
    PostProcessorsNeedRequestBody(c, before);
    var calls, sent := DeliveredOnRun(c, before, headers, tail);
    hide Run, HandleResponseHeaders;
    var st := Run(c, Initial, before).st;
    var ctx := HandleResponseHeaders(c, st.ctx, headers, false).ctx;
    if !st.requestBodyComplete {
      NoProcessorsNoCalls(calls, ResponseStream.ReceivedChunks(tail), sent);
    }
    hide ResponseStream.ParsedResponse, ResponseStream.FoldResponse, CallPlugin;
    assert calls == [] ==> !BodyPluginsCalled(c, ctx, tail, calls);
  }

  /** The failing family of bodies that do not parse: the final chunk completes the response
      and no plugin is called. */
  lemma UnparsedResponseSkipsPostProcessors(c: Config, st: State, body: bytes)
    requires st.ended.None? && !st.responseBodyComplete && st.ctx.profile.needsResponseBuffering
    requires c.parse(st.responseBody + body).Malformed?
    ensures var one := Next(c, st, InResponseBody(body, true));
            one.st.ended.None? && one.st.responseBodyComplete && one.st.ctx.calls == st.ctx.calls
  {
  }

  /** For instance: a request of headers only, and a one-chunk response, which goes out
      without any plugin having seen it. */
  lemma BodylessRequestSkipsPostProcessors(c: Config, body: bytes)
    requires c.responseHeadersPostProcessors == []
    ensures var r := Run(c, Initial, [InRequestHeaders([], true), InResponseHeaders([], false), InResponseBody(body, true)]);
            && r.st.ended.None? && r.st.responseBodyComplete && r.st.ctx.calls == []
            && r.sent == [RequestHeaders(NoMutation), ResponseHeaders(NoMutation), ResponseBody(Chunk(body, true))]
  {
    var msgs := [InRequestHeaders([], true), InResponseHeaders([], false), InResponseBody(body, true)];
    assert msgs[1..] == [InResponseHeaders([], false), InResponseBody(body, true)] && msgs[1..][1..] == [InResponseBody(body, true)];
    var one := Next(c, Initial, msgs[0]);
    var two := Next(c, one.st, msgs[1]);
    var three := Next(c, two.st, msgs[2]);
    assert Run(c, three.st, []) == Step(three.st, [], []);
    assert Run(c, two.st, [msgs[2]]) == Step(three.st, three.sent + [], three.events + []);
  }
}
