/** pkg/datalayer/processor.go as two transition systems over its atomic steps: the event
    queue with its fan-out loop, and the registration of background components against
    Start and Stop. Any interleaving of the goroutines is a sequence of these steps. */
module FanOut {

  const DEFAULT_BUFFER_SIZE: nat := 10000

  /** Where the event loop is: at its select, or handing `event` to extractor `next`. */
  datatype Loop<E> = NotStarted | Selecting | Dispatching(event: E, next: nat) | Done

  /** `calls[k]` is what extractor k has been called with. `accepted` and `dropped` record
      the outcome of each Notify. `Done` means that notifyDone is closed. */
  datatype State<E> = State(
    queue: seq<E>,
    loop: Loop<E>,
    cancelled: bool,
    calls: seq<seq<E>>,
    accepted: seq<E>,
    dropped: seq<E>)

  function Initial<E>(extractors: nat): State<E> {
    State([], NotStarted, false, seq(extractors, _ => []), [], [])
  }

  datatype Action<E> = Notify(e: E) | Start | Receive | Extract | Cancel | Close

  ghost predicate Enabled<E>(s: State<E>, a: Action<E>) {
    match a
    case Notify(e) => true
    case Start => s.loop.NotStarted?
    case Receive => s.loop.Selecting? && s.queue != []
    case Extract => s.loop.Dispatching?
    case Cancel => true
    case Close => s.loop.Selecting? && s.cancelled
  }

  /** The non-blocking send: accept if there is room, else drop. */
  function NotifyStep<E>(s: State<E>, e: E): State<E> {
    if |s.queue| < DEFAULT_BUFFER_SIZE
    then s.(queue := s.queue + [e], accepted := s.accepted + [e])
    else s.(dropped := s.dropped + [e])
  }

  /** One call of an extractor, or the end of the loop over them. Errors are only logged. */
  function ExtractStep<E>(s: State<E>): State<E>
    requires s.loop.Dispatching?
  {
    var k := s.loop.next;
    if k < |s.calls|
    then s.(calls := s.calls[k := s.calls[k] + [s.loop.event]], loop := Dispatching(s.loop.event, k + 1))
    else s.(loop := Selecting)
  }

  function Do<E>(s: State<E>, a: Action<E>): State<E>
    requires Enabled(s, a)
  {
    match a
    case Notify(e) => NotifyStep(s, e)
    case Start => s.(loop := Selecting)
    case Receive => s.(loop := Dispatching(s.queue[0], 0), queue := s.queue[1..])
    case Extract => ExtractStep(s)
    case Cancel => s.(cancelled := true)
    case Close => s.(loop := Done)
  }

  /** The events taken off the queue so far. */
  function Taken<E>(s: State<E>): seq<E>
    requires |s.queue| <= |s.accepted|
  {
    s.accepted[..|s.accepted| - |s.queue|]
  }

  /** What extractor k has seen: everything taken, except the event in hand when it is not
      its turn yet. */
  function Seen<E>(s: State<E>, k: nat): seq<E>
    requires |s.queue| <= |s.accepted|
    requires s.loop.Dispatching? ==> |Taken(s)| > 0
  {
    if s.loop.Dispatching? && k >= s.loop.next then Taken(s)[..|Taken(s)| - 1] else Taken(s)
  }

  ghost predicate Inv<E>(s: State<E>) {
    && |s.queue| <= DEFAULT_BUFFER_SIZE
    && |s.queue| <= |s.accepted|
    && s.accepted == Taken(s) + s.queue
    && (s.loop.Dispatching? ==> |Taken(s)| > 0 && Taken(s)[|Taken(s)| - 1] == s.loop.event && s.loop.next <= |s.calls|)
    && (s.loop.NotStarted? ==> Taken(s) == [])
    && forall k :: 0 <= k < |s.calls| ==> s.calls[k] == Seen(s, k)
  }

  lemma NotifyKeepsInv<E>(s: State<E>, e: E)
    requires Inv(s)
    ensures Inv(NotifyStep(s, e))
  {
    var s' := NotifyStep(s, e);
    assert Taken(s') == Taken(s);
    assert forall k :: 0 <= k < |s.calls| ==> Seen(s', k) == Seen(s, k);
  }

  lemma ReceiveKeepsInv<E>(s: State<E>)
    requires Inv(s) && Enabled(s, Receive)
    ensures Inv(Do(s, Receive))
  {
    var s' := Do(s, Receive);
    assert Taken(s') == Taken(s) + [s.queue[0]];
    assert Taken(s')[..|Taken(s')| - 1] == Taken(s);
    assert forall k :: 0 <= k < |s.calls| ==> Seen(s', k) == Seen(s, k);
  }

  lemma ExtractKeepsInv<E>(s: State<E>)
    requires Inv(s) && s.loop.Dispatching?
    ensures Inv(ExtractStep(s))
  {
    var s' := ExtractStep(s);
    assert Taken(s') == Taken(s);
    assert Taken(s) == Taken(s)[..|Taken(s)| - 1] + [s.loop.event];
    forall k | 0 <= k < |s'.calls| ensures s'.calls[k] == Seen(s', k) {
      assert s.calls[k] == Seen(s, k);
    }
  }

  lemma StepKeepsInv<E>(s: State<E>, a: Action<E>)
    requires Inv(s) && Enabled(s, a)
    ensures Inv(Do(s, a))
  {
    match a
    case Notify(e) => NotifyKeepsInv(s, e);
    case Receive => ReceiveKeepsInv(s);
    case Extract => ExtractKeepsInv(s);
    case _ =>
      assert Taken(Do(s, a)) == Taken(s);
      assert forall k :: 0 <= k < |s.calls| ==> s.calls[k] == Seen(s, k) == Seen(Do(s, a), k);
  }

  /** A run: the actions taken and the states they lead through. */
  ghost predicate IsRun<E>(states: seq<State<E>>, actions: seq<Action<E>>) {
    && |states| == |actions| + 1
    && states[0] == Initial(|states[0].calls|)
    && forall i :: 0 <= i < |actions| ==> Enabled(states[i], actions[i]) && states[i + 1] == Do(states[i], actions[i])
  }

  lemma {:induction false} InvAlongRun<E>(states: seq<State<E>>, actions: seq<Action<E>>, i: nat)
    requires IsRun(states, actions) && i < |states|
    ensures Inv(states[i]) && |states[i].calls| == |states[0].calls|
    decreases i
  {
    if i > 0 {
      InvAlongRun(states, actions, i - 1);
      StepKeepsInv(states[i - 1], actions[i - 1]);
      assert states[i] == Do(states[i - 1], actions[i - 1]);
    }
  }

  /** The events of the first i actions that are notifications. */
  function Notified<E>(actions: seq<Action<E>>): seq<E> {
    if actions == [] then []
    else
      var last := actions[|actions| - 1];
      Notified(actions[..|actions| - 1]) + (if last.Notify? then [last.e] else [])
  }

  lemma NotifiedSnoc<E>(actions: seq<Action<E>>, i: nat)
    requires i < |actions|
    ensures multiset(Notified(actions[..i + 1]))
         == multiset(Notified(actions[..i])) + (if actions[i].Notify? then multiset{actions[i].e} else multiset{})
  {
    assert actions[..i + 1][..i] == actions[..i];
  }

  /** What one step does with a notified event. */
  lemma NotifyOutcome<E>(s: State<E>, a: Action<E>)
    requires Enabled(s, a) && |s.queue| <= DEFAULT_BUFFER_SIZE
    ensures var s' := Do(s, a);
            && multiset(s'.accepted) + multiset(s'.dropped)
                 == multiset(s.accepted) + multiset(s.dropped) + (if a.Notify? then multiset{a.e} else multiset{})
            && (|s'.dropped| > |s.dropped| <==> a.Notify? && |s.queue| == DEFAULT_BUFFER_SIZE)
  {
  }

  /** Nothing notified is lost without a trace: it is accepted or dropped, once. */
  lemma {:induction false} NotifiedIsAcceptedOrDropped<E>(states: seq<State<E>>, actions: seq<Action<E>>, i: nat)
    requires IsRun(states, actions) && i < |states|
    ensures multiset(Notified(actions[..i])) == multiset(states[i].accepted) + multiset(states[i].dropped)
    decreases i
  {
    hide Notified, Do, Enabled, Inv;
    if i == 0 {
      NothingNotified(states, actions);
    } else {
      NotifiedIsAcceptedOrDropped(states, actions, i - 1);
      InvAlongRun(states, actions, i - 1);
      InvBoundsQueue(states[i - 1]);
      NotifiedSnoc(actions, i - 1);
      NotifyOutcome(states[i - 1], actions[i - 1]);
      assert states[i] == Do(states[i - 1], actions[i - 1]);
    }
  }

  lemma NothingNotified<E>(states: seq<State<E>>, actions: seq<Action<E>>)
    requires IsRun(states, actions)
    ensures multiset(Notified(actions[..0])) == multiset(states[0].accepted) + multiset(states[0].dropped)
  {
    assert actions[..0] == [];
  }

  lemma InvBoundsQueue<E>(s: State<E>)
    requires Inv(s)
    ensures |s.queue| <= DEFAULT_BUFFER_SIZE
  {
  }

  lemma InvMeansOrdered<E>(s: State<E>)
    requires Inv(s)
    ensures |s.queue| <= DEFAULT_BUFFER_SIZE && |s.queue| <= |s.accepted|
    ensures s.accepted == Taken(s) + s.queue
    ensures forall k :: 0 <= k < |s.calls| ==>
              s.calls[k] == Taken(s) || (s.loop.Dispatching? && s.calls[k] + [s.loop.event] == Taken(s))
    ensures forall k, l :: 0 <= k <= l < |s.calls| ==> s.calls[l] <= s.calls[k]
  {
    if s.loop.Dispatching? {
      assert Taken(s) == Taken(s)[..|Taken(s)| - 1] + [s.loop.event];
    }
  }

  /** Fan-out. In every interleaving: the queue is bounded; what was taken followed by what
      is queued is what was accepted, in order; every extractor has been called on the
      same events, but for the one in hand; every notified event is accepted or dropped,
      and it is dropped exactly when it finds the queue full. */
  lemma FanOutIsOrdered<E>(states: seq<State<E>>, actions: seq<Action<E>>, i: nat)
    requires IsRun(states, actions) && i < |states|
    ensures var s := states[i];
            && |s.queue| <= 10000 && |s.queue| <= |s.accepted|
            && s.accepted == Taken(s) + s.queue
            && (forall k :: 0 <= k < |s.calls| ==>
                  s.calls[k] == Taken(s) || (s.loop.Dispatching? && s.calls[k] + [s.loop.event] == Taken(s)))
            && (forall k, l :: 0 <= k <= l < |s.calls| ==> s.calls[l] <= s.calls[k])
            && multiset(Notified(actions[..i])) == multiset(s.accepted) + multiset(s.dropped)
            && (i < |actions| ==>
                  (|states[i + 1].dropped| > |s.dropped| <==> actions[i].Notify? && |s.queue| == 10000))
  {
    hide Notified, Inv, Do, Enabled, Taken;
    InvAlongRun(states, actions, i);
    InvMeansOrdered(states[i]);
    NotifiedIsAcceptedOrDropped(states, actions, i);
    if i < |actions| {
      NotifyOutcome(states[i], actions[i]);
      assert states[i + 1] == Do(states[i], actions[i]);
    }
  }

  /** Once notifyDone is closed, all extractors have been called on the same prefix of what
      was accepted, and they are never called again. */
  lemma {:induction false} ClosedLoopIsFinal<E>(states: seq<State<E>>, actions: seq<Action<E>>, i: nat, j: nat)
    requires IsRun(states, actions) && i <= j < |states| && states[i].loop.Done?
    ensures states[j].loop.Done? && states[j].calls == states[i].calls
    ensures forall k :: 0 <= k < |states[j].calls| ==> states[j].calls[k] == states[j].calls[0] <= states[i].accepted
    ensures states[i].accepted <= states[j].accepted
    decreases j
  {
    if i == j {
      InvAlongRun(states, actions, i);
      assert Taken(states[i]) <= states[i].accepted;
      assert forall k :: 0 <= k < |states[i].calls| ==> states[i].calls[k] == Seen(states[i], k) == Taken(states[i]);
    } else {
      ClosedLoopIsFinal(states, actions, i, j - 1);
      var s, s' := states[j - 1], states[j];
      assert s' == Do(s, actions[j - 1]);
      assert s.accepted == s'.accepted[..|s.accepted|];
      assert states[i].accepted == s.accepted[..|states[i].accepted|];
      assert s'.loop.Done? && s'.calls == s.calls;
    }
  }

  /** Stop of a started processor returns when the loop it cancelled has closed notifyDone.
      From then on, whatever the notifiers do, no extractor is called any more. */
  lemma StopIsFinal<E>(states: seq<State<E>>, actions: seq<Action<E>>, i: nat, j: nat)
    requires IsRun(states, actions) && i <= j < |states| && StopReturned(states[i])
    ensures states[j].calls == states[i].calls
    ensures i <= j < |actions| ==> !actions[j].Extract? && !actions[j].Receive?
  {
    ClosedLoopIsFinal(states, actions, i, j);
  }

  ghost predicate StopReturned<E>(s: State<E>) { s.cancelled && s.loop.Done? }

  /** The steps the loop still has to make: finish the event in hand, then close. */
  function Remaining<E>(s: State<E>): nat
  {
    match s.loop
    case Dispatching(_, next) => (if next <= |s.calls| then |s.calls| - next else 0) + 2
    case Selecting => 1
    case _ => 0
  }

  /** Stop does return: once a started processor is cancelled, the loop, if it takes the
      cancellation at its next select, closes notifyDone within as many steps as it has
      extractor calls left and two more. */
  lemma {:induction false} StopReturns<E>(s: State<E>) returns (states: seq<State<E>>, actions: seq<Action<E>>)
    requires Inv(s) && s.cancelled && !s.loop.NotStarted?
    ensures |actions| == Remaining(s) && |states| == |actions| + 1 && states[0] == s
    ensures forall k :: 0 <= k < |actions| ==>
              (actions[k].Extract? || actions[k].Close?) && Enabled(states[k], actions[k]) && states[k + 1] == Do(states[k], actions[k])
    ensures StopReturned(states[|actions|])
    decreases Remaining(s)
  {
    if s.loop.Done? {
      return [s], [];
    }
    var a: Action<E> := if s.loop.Dispatching? then Extract else Close;
    var s' := Do(s, a);
    StepKeepsInv(s, a);
    hide Inv;
    var rest, todo := StopReturns(s');
    states, actions := [s] + rest, [a] + todo;
    forall k | 0 <= k < |actions|
      ensures (actions[k].Extract? || actions[k].Close?) && Enabled(states[k], actions[k]) && states[k + 1] == Do(states[k], actions[k])
    {
      if k > 0 { assert states[k] == rest[k - 1] && actions[k] == todo[k - 1] && states[k + 1] == rest[k]; }
    }
  }
}

module Launching {

  type Id = nat

  /** `beforeStop` records the valid registrations made before Stop. `startSnapshot` is
      what Start has still to launch, outside the lock; `registering` are the datasource
      registrations that saw a running processor and have still to launch. */
  datatype State = State(
    started: bool,
    stopped: bool,
    collectors: seq<Id>,
    datasources: seq<Id>,
    startSnapshot: seq<Id>,
    registering: set<Id>,
    launchedByStart: multiset<Id>,
    launchedByRegister: multiset<Id>,
    registered: set<Id>,
    beforeStop: set<Id>)

  const Initial := State(false, false, [], [], [], {}, multiset{}, multiset{}, {}, {})

  datatype Action =
    | RegisterCollector(id: Id, frequency: int)
    | RegisterDatasource(id: Id)
    | LaunchRegistered(id: Id)
    | Start
    | LaunchSnapshot
    | Stop

  /** Ids name registrations, so each is used once. */
  ghost predicate Enabled(s: State, a: Action) {
    match a
    case RegisterCollector(id, _) => id !in s.registered
    case RegisterDatasource(id) => id !in s.registered
    case LaunchRegistered(id) => id in s.registering
    case LaunchSnapshot => s.startSnapshot != []
    case _ => true
  }

  function Note(s: State, id: Id): State {
    s.(registered := s.registered + {id}, beforeStop := if s.stopped then s.beforeStop else s.beforeStop + {id})
  }

  /** A collector is launched inside the lock; a non-positive frequency is refused. */
  function RegisterCollectorStep(s: State, id: Id, frequency: int): State {
    if frequency <= 0 then s
    else
      var s1 := Note(s, id).(collectors := s.collectors + [id]);
      if s.started && !s.stopped then s1.(launchedByRegister := s.launchedByRegister + multiset{id}) else s1
  }

  /** A datasource is launched after the lock is released. */
  function RegisterDatasourceStep(s: State, id: Id): State {
    var s1 := Note(s, id).(datasources := s.datasources + [id]);
    if s.started && !s.stopped then s1.(registering := s.registering + {id}) else s1
  }

  /** Start's critical section; it fails when started or stopped before. */
  function StartStep(s: State): State {
    if s.started || s.stopped then s
    else s.(started := true, startSnapshot := s.collectors + s.datasources)
  }

  function Do(s: State, a: Action): State
    requires Enabled(s, a)
  {
    match a
    case RegisterCollector(id, frequency) => RegisterCollectorStep(s, id, frequency)
    case RegisterDatasource(id) => RegisterDatasourceStep(s, id)
    case LaunchRegistered(id) =>
      s.(registering := s.registering - {id}, launchedByRegister := s.launchedByRegister + multiset{id})
    case Start => StartStep(s)
    case LaunchSnapshot =>
      s.(startSnapshot := s.startSnapshot[1..], launchedByStart := s.launchedByStart + multiset{s.startSnapshot[0]})
    case Stop => s.(stopped := true)
  }

  /** How often a component has been launched or is about to be. */
  function Total(s: State, id: Id): nat {
    s.launchedByStart[id] + s.launchedByRegister[id] + multiset(s.startSnapshot)[id] + (if id in s.registering then 1 else 0)
  }

  /** How often a component is on the lists Start takes its snapshot of. */
  function Listed(s: State, id: Id): nat { multiset(s.collectors)[id] + multiset(s.datasources)[id] }

  ghost predicate Inv(s: State) {
    && s.beforeStop <= s.registered
    && (forall id :: Total(s, id) == if s.started && id in s.beforeStop then 1 else 0)
    && (!s.started && !s.stopped ==> forall id :: Listed(s, id) == if id in s.beforeStop then 1 else 0)
  }

  lemma RegistrationKeepsInv(s: State, a: Action)
    requires Inv(s) && Enabled(s, a) && (a.RegisterCollector? || a.RegisterDatasource?)
    ensures Inv(Do(s, a))
  {
    var s' := Do(s, a);
    assert Total(s, a.id) == if s.started && a.id in s.beforeStop then 1 else 0;
    forall id
      ensures Total(s', id) == if s'.started && id in s'.beforeStop then 1 else 0
      ensures !s'.started && !s'.stopped ==> Listed(s', id) == if id in s'.beforeStop then 1 else 0
    {
      assert Total(s, id) == if s.started && id in s.beforeStop then 1 else 0;
      assert !s.started && !s.stopped ==> Listed(s, id) == if id in s.beforeStop then 1 else 0;
      RegistrationCounts(s, a, id);
      hide Total, Listed, Do;
    }
  }

  /** What a registration changes for one component. */
  lemma RegistrationCounts(s: State, a: Action, id: Id)
    requires Enabled(s, a) && (a.RegisterCollector? || a.RegisterDatasource?)
    requires a.id !in s.registering
    ensures var s' := Do(s, a); var valid := a.RegisterDatasource? || a.frequency > 0;
            && s'.started == s.started && s'.stopped == s.stopped
            && s'.registered == (if valid then s.registered + {a.id} else s.registered)
            && s'.beforeStop == (if valid && !s.stopped then s.beforeStop + {a.id} else s.beforeStop)
            && Total(s', id) == Total(s, id) + (if id == a.id && valid && s.started && !s.stopped then 1 else 0)
            && Listed(s', id) == Listed(s, id) + (if id == a.id && valid then 1 else 0)
  {
  }

  lemma StartKeepsInv(s: State)
    requires Inv(s)
    ensures Inv(StartStep(s))
  {
    var s' := StartStep(s);
    forall id ensures Total(s', id) == if s'.started && id in s'.beforeStop then 1 else 0 {
      assert Total(s, id) == if s.started && id in s.beforeStop then 1 else 0;
      assert !s.started && !s.stopped ==> Listed(s, id) == if id in s.beforeStop then 1 else 0;
    }
  }

  lemma LaunchKeepsInv(s: State, a: Action)
    requires Inv(s) && Enabled(s, a) && (a.LaunchRegistered? || a.LaunchSnapshot?)
    ensures Inv(Do(s, a))
  {
    var s' := Do(s, a);
    if a.LaunchSnapshot? {
      assert s.startSnapshot == [s.startSnapshot[0]] + s.startSnapshot[1..];
    }
    forall id ensures Total(s', id) == Total(s, id) {
    }
    assert forall id :: Listed(s', id) == Listed(s, id);
  }

  lemma StepKeepsInv(s: State, a: Action)
    requires Inv(s) && Enabled(s, a)
    ensures Inv(Do(s, a))
  {
    match a
    case RegisterCollector(_, _) => RegistrationKeepsInv(s, a);
    case RegisterDatasource(_) => RegistrationKeepsInv(s, a);
    case Start => StartKeepsInv(s);
    case Stop =>
      assert forall id :: Total(Do(s, a), id) == Total(s, id);
    case _ => LaunchKeepsInv(s, a);
  }

  ghost predicate IsRun(states: seq<State>, actions: seq<Action>) {
    && |states| == |actions| + 1
    && states[0] == Initial
    && forall i :: 0 <= i < |actions| ==> Enabled(states[i], actions[i]) && states[i + 1] == Do(states[i], actions[i])
  }

  lemma {:induction false} InvAlongRun(states: seq<State>, actions: seq<Action>, i: nat)
    requires IsRun(states, actions) && i < |states|
    ensures Inv(states[i])
    decreases i
  {
    if i > 0 {
      InvAlongRun(states, actions, i - 1);
      StepKeepsInv(states[i - 1], actions[i - 1]);
      assert states[i] == Do(states[i - 1], actions[i - 1]);
    }
  }

  /** At most once, at every moment of every interleaving: no component is launched twice,
      in particular not both by Start and by its registration. */
  lemma NeverLaunchedTwice(states: seq<State>, actions: seq<Action>, i: nat, id: Id)
    requires IsRun(states, actions) && i < |states|
    ensures states[i].launchedByStart[id] + states[i].launchedByRegister[id] <= 1
  {
    InvAlongRun(states, actions, i);
    assert Total(states[i], id) <= 1;
  }

  /** Exactly once: when nothing is left to launch after a successful Start, the components
      launched are those validly registered before Stop, once each. */
  lemma LaunchedExactlyOnce(states: seq<State>, actions: seq<Action>, i: nat)
    requires IsRun(states, actions) && i < |states|
    requires states[i].startSnapshot == [] && states[i].registering == {}
    ensures states[i].launchedByStart + states[i].launchedByRegister
         == if states[i].started then multiset(states[i].beforeStop) else multiset{}
  {
    InvAlongRun(states, actions, i);
    var s := states[i];
    forall id ensures (s.launchedByStart + s.launchedByRegister)[id] == if s.started && id in s.beforeStop then 1 else 0 {
      assert Total(s, id) == s.launchedByStart[id] + s.launchedByRegister[id];
    }
  }
}
