/** The Processor as the source writes it: each method is one atomic section of
    pkg/datalayer/processor.go, proved to be the matching step of FanOut or Launching. */
module Processors {
  import F = FanOut
  import L = Launching

  /** An extractor, seen as the log of what it is called with. */
  class Extractor<E> {
    var events: seq<E>

    constructor () ensures events == [] { events := []; }

    method Extract(batch: seq<E>)
      modifies this
      ensures events == old(events) + batch
    {
      events := events + batch;
    }
  }

  class Processor<E(==)> {
    var ch: seq<E>
    var extractors: seq<Extractor<E>>
    var collectors: seq<L.Id>
    var datasources: seq<L.Id>
    var started: bool
    var stopped: bool

    /** The two transition systems' states, kept along. */
    ghost var flow: F.State<E>
    ghost var launch: L.State

    ghost predicate Valid()
      reads this
    {
      && flow.queue == ch && |flow.calls| == |extractors|
      && launch.collectors == collectors && launch.datasources == datasources
      && launch.started == started && launch.stopped == stopped
      && launch.registering <= launch.registered
      && (flow.loop.NotStarted? <==> !started)
    }

    constructor ()
      ensures Valid() && extractors == [] && flow == F.Initial(0) && launch == L.Initial
    {
      ch, extractors, collectors, datasources := [], [], [], [];
      started, stopped := false, false;
      flow, launch := F.Initial(0), L.Initial;
    }

    /** Before Start only; later calls are ignored. */
    method RegisterExtractor(e: Extractor<E>)
      requires Valid()
      modifies this
      ensures Valid() && launch == old(launch) && ch == old(ch)
      ensures extractors == if old(started) then old(extractors) else old(extractors) + [e]
      ensures flow == if old(started) then old(flow) else old(flow).(calls := old(flow).calls + [[]])
    {
      if started {
        return;
      }
      extractors := extractors + [e];
      flow := flow.(calls := flow.calls + [[]]);
    }

    method RegisterCollector(c: L.Id, frequency: int) returns (launched: bool)
      requires Valid() && L.Enabled(launch, L.RegisterCollector(c, frequency))
      modifies this
      ensures Valid() && flow == old(flow) && extractors == old(extractors)
      ensures launch == L.RegisterCollectorStep(old(launch), c, frequency)
      ensures launched <==> launch.launchedByRegister != old(launch.launchedByRegister)
    {
      launched := false;
      if frequency <= 0 {
        return;
      }
      launch := L.RegisterCollectorStep(launch, c, frequency);
      collectors := collectors + [c];
      if started && !stopped {
        launched := true;
        assert launch.launchedByRegister[c] == old(launch.launchedByRegister)[c] + 1;
      }
    }

    /** Up to the unlock; `started'` tells the caller to launch. */
    method RegisterDatasource(d: L.Id) returns (started': bool)
      requires Valid() && L.Enabled(launch, L.RegisterDatasource(d))
      modifies this
      ensures Valid() && flow == old(flow) && extractors == old(extractors)
      ensures launch == L.RegisterDatasourceStep(old(launch), d)
      ensures started' <==> d in launch.registering
      ensures d !in old(launch.registering)
    {
      datasources := datasources + [d];
      started' := started && !stopped;
      launch := L.RegisterDatasourceStep(launch, d);
    }

    /** The non-blocking send. */
    method Notify(e: E)
      requires Valid()
      modifies this
      ensures Valid() && launch == old(launch) && extractors == old(extractors)
      ensures flow == F.NotifyStep(old(flow), e)
    {
      flow := F.NotifyStep(flow, e);
      if |ch| < F.DEFAULT_BUFFER_SIZE {
        ch := ch + [e];
      }
    }

    /** Start's critical section, with the snapshot it will launch from. */
    method Start() returns (err: bool, snapshot: seq<L.Id>)
      requires Valid()
      modifies this
      ensures Valid() && extractors == old(extractors)
      ensures err <==> old(started) || old(stopped)
      ensures launch == L.StartStep(old(launch)) && (!err ==> snapshot == launch.startSnapshot)
      ensures flow == if err then old(flow) else F.Do(old(flow), F.Start)
    {
      snapshot := [];
      if started || stopped {
        return true, snapshot;
      }
      launch := L.StartStep(launch);
      flow := F.Do(flow, F.Start);
      started := true;
      snapshot := collectors + datasources;
      err := false;
    }

    method Stop()
      requires Valid()
      modifies this
      ensures Valid() && extractors == old(extractors)
      ensures launch == L.Do(old(launch), L.Stop) && flow == F.Do(old(flow), F.Cancel)
    {
      stopped := true;
      launch := L.Do(launch, L.Stop);
      flow := F.Do(flow, F.Cancel);
    }

    /** One turn of the event loop that receives an event: all extractors are called with
        it, in order, an extractor that is registered more than once as often. The steps
        of FanOut that this is are `Turn`. */
    method Dispatch()
      requires Valid() && F.Enabled(flow, F.Receive)
      modifies this, extractors
      ensures extractors == old(extractors) && launch == old(launch)
      ensures Valid() && flow == Turn(old(flow))
      ensures forall x :: x in extractors ==> x.events == old(x.events) + Repeated(old(ch)[0], Registrations(extractors, x))
    {
      hide Registrations, Repeated;
      var e := ch[0];
      ch := ch[1..];
      ghost var before := flow;
      flow := F.Do(flow, F.Receive);
      assert extractors[..0] == [];
      forall x: Extractor<E> ensures x.events == x.events + Repeated(e, Registrations(extractors[..0], x)) { NoRegistrations(x, e); }
      for k := 0 to |extractors|
        invariant Valid() && extractors == old(extractors) && launch == old(launch)
        invariant flow.loop == F.Dispatching(e, k)
        invariant ExtractAll(flow) == Turn(before)
        invariant forall x :: x in extractors ==> x.events == old(x.events) + Repeated(e, Registrations(extractors[..k], x))
      {
        forall x: Extractor<E> { RegistrationsSnoc(extractors, k, x, e); }
        extractors[k].Extract([e]);
        flow := F.ExtractStep(flow);
      }
      assert extractors[..|extractors|] == extractors;
      flow := F.ExtractStep(flow);
    }
  }

  /** How often an extractor is registered. */
  function Registrations<E(==)>(extractors: seq<Extractor<E>>, x: Extractor<E>): nat {
    if extractors == [] then 0
    else Registrations(extractors[..|extractors| - 1], x) + (if extractors[|extractors| - 1] == x then 1 else 0)
  }

  lemma NoRegistrations<E>(x: Extractor<E>, e: E)
    ensures Repeated(e, Registrations([], x)) == []
  {
  }

  lemma RegistrationsSnoc<E>(extractors: seq<Extractor<E>>, k: nat, x: Extractor<E>, e: E)
    requires k < |extractors|
    ensures Repeated(e, Registrations(extractors[..k + 1], x))
         == Repeated(e, Registrations(extractors[..k], x)) + (if extractors[k] == x then [e] else [])
  {
    assert extractors[..k + 1][..k] == extractors[..k];
    var before := Repeated(e, Registrations(extractors[..k], x));
    assert before + [] == before;
  }

  function Repeated<E>(e: E, n: nat): seq<E> { if n == 0 then [] else Repeated(e, n - 1) + [e] }

  /** Call the remaining extractors and go back to the select. */
  ghost function ExtractAll<E>(s: F.State<E>): F.State<E>
    requires s.loop.Dispatching?
    decreases |s.calls| - s.loop.next
  {
    if s.loop.next < |s.calls| then ExtractAll(F.ExtractStep(s)) else F.ExtractStep(s)
  }

  ghost function Turn<E>(s: F.State<E>): F.State<E>
    requires F.Enabled(s, F.Receive)
  {
    ExtractAll(F.Do(s, F.Receive))
  }
}
