/** The closed loop: the mock vehicle observed by the engine, and the engine's injections carried out
    by the mock. What the metrics say about such a run follows from both sides. */
module Lab {
  import opened Options
  import opened States
  import opened Rounding
  import opened RunLog
  import opened EngineModel
  import opened EngineMirror
  import opened Containment
  import opened Timelines
  import D = MockDerive
  import V = MockVehicle
  import R = MockRuns
  import S = MockSpread
  import T = Topology
  import Timeline = TimelineAgreement

  /** What chance and the operator contribute to one pass of the loop. */
  datatype Moment = Moment(noise: V.Noise, cancelled: bool, draw: EventId -> real)

  /** The mock carries out the engine's calls. */
  function Deliver(plan: V.Plan, course: R.Course, calls: seq<AdapterCall>, draw: EventId -> real): R.Course {
    if calls == [] then course
    else
      var before := Deliver(plan, course, calls[..|calls| - 1], draw);
      match calls[|calls| - 1]
      case InjectCall(request) => R.Perform(plan, before, R.Op.Inject(request, draw(request.eventId)))
      case ClearCall(id) => R.Perform(plan, before, R.Op.Clear(id))
  }

  function Observe(plan: V.Plan, course: R.Course, m: Moment): Observation {
    V.Step(plan, course.v, m.noise).1
  }

  /** The mock after one step and the calls the engine made upon it. */
  function Answer(plan: V.Plan, c: Config, e: EngineState, course: R.Course, m: Moment): R.Course {
    var next := ProcessTick(c, e, Observe(plan, course, m));
    if |e.calls| <= |next.calls|
    then Deliver(plan, R.Perform(plan, course, R.Op.Tick(m.noise)), next.calls[|e.calls|..], m.draw)
    else course
  }

  datatype Session = Session(engine: EngineState, exit: Exit, course: R.Course, feed: seq<Input>)

  /** The loop of the engine over the observations of the mock. `course` is the mock as far as the engine
      processed it; `feed` lists what the engine was given. */
  function Play(plan: V.Plan, c: Config, e: EngineState, course: R.Course, moments: seq<Moment>): Session
    decreases |moments|
  {
    if moments == [] then Session(e, Exhausted, course, [])
    else
      var m := moments[0];
      var o := Observe(plan, course, m);
      var t := o.sample.t;
      if m.cancelled then
        Session(Emit(e.(lastT := t), t, LifecycleEvent, None, None, None, None, NoDetails), CancelRequested, course, [Input(o, true)])
      else
        var next, told := ProcessTick(c, e, o), Answer(plan, c, e, course, m);
        if o.finished then
          Session(Emit(next, t, MissionProgress, None, None, None, None, NoDetails), Finished, told, [Input(o, false)])
        else if t >= c.timeout then
          Session(Emit(next, t, MissionProgress, None, None, None, None, NoDetails), TimedOut, told, [Input(o, false)])
        else
          var rest := Play(plan, c, next, told, moments[1..]);
          rest.(feed := [Input(o, false)] + rest.feed)
  }

  /** The mock after preparation and start. */
  function Prepared(): R.Course {
    R.Course(V.Start(V.NewVehicle()), {}, {}, 0, [])
  }

  function Whole(plan: V.Plan, c: Config, events: seq<ScenarioEvent>, moments: seq<Moment>): Session {
    Play(plan, c, StartRun(events, V.NewVehicle().states), Prepared(), moments)
  }

  /** A session is a run of the engine on the feed it records. */
  lemma {:induction false} PlayIsLoop(plan: V.Plan, c: Config, e: EngineState, course: R.Course, moments: seq<Moment>)
    ensures var s := Play(plan, c, e, course, moments); Loop(c, e, s.feed) == (s.engine, s.exit)
    decreases |moments|
  {
    hide ProcessTick, V.Step, Answer, Emit;
    if moments != [] && !moments[0].cancelled {
      var o := Observe(plan, course, moments[0]);
      PlayIsLoop(plan, c, ProcessTick(c, e, o), Answer(plan, c, e, course, moments[0]), moments[1..]);
      var s := Play(plan, c, e, course, moments);
      if !o.finished && o.sample.t < c.timeout {
        assert s.feed[1..] == Play(plan, c, ProcessTick(c, e, o), Answer(plan, c, e, course, moments[0]), moments[1..]).feed;
      }
    }
  }

  // ---- The calls of one tick

  /** The scenario only injects what the catalogue allows. */
  ghost predicate AllowedEvents(events: seq<ScenarioEvent>) {
    forall k :: 0 <= k < |events| ==> events[k].effect in D.AllowedEffects(events[k].subsystem)
  }

  predicate Logged(call: AdapterCall, injected: set<Id>) {
    call.InjectCall? ==> call.request.effect in D.AllowedEffects(call.request.subsystem) && call.request.subsystem in injected
  }

  /** The new calls carry out logged injections. */
  ghost predicate CallsLogged(before: seq<AdapterCall>, after: seq<AdapterCall>, log: seq<RunEvent>) {
    before <= after && forall k :: |before| <= k < |after| ==> Logged(after[k], Injected(log))
  }

  lemma InjectedGrows(before: seq<RunEvent>, after: seq<RunEvent>)
    requires before <= after
    ensures Injected(before) <= Injected(after)
  {
    forall id | id in Injected(before)
      ensures id in Injected(after)
    {
      var k :| 0 <= k < |before| && Applies(before[k]) && before[k].subsystem.value == id;
      assert after[k] == before[k];
    }
  }

  lemma CallsStayLogged(a: seq<AdapterCall>, b: seq<AdapterCall>, log: seq<RunEvent>, longer: seq<RunEvent>)
    requires CallsLogged(a, b, log) && log <= longer
    ensures CallsLogged(a, b, longer)
  {
    InjectedGrows(log, longer);
  }

  lemma CallsCompose(a: seq<AdapterCall>, b: seq<AdapterCall>, d: seq<AdapterCall>, log: seq<RunEvent>)
    requires CallsLogged(a, b, log) && CallsLogged(b, d, log)
    ensures CallsLogged(a, d, log)
  {
    hide Logged, Injected;
    forall k | |a| <= k < |d|
      ensures Logged(d[k], Injected(log))
    {
      if k < |b| {
        assert d[k] == b[k];
      }
    }
  }

  /** The mock never refuses a catalogue-allowed injection. */
  ghost predicate Accepts(c: Config) {
    forall n :: c.applies(n)
  }

  lemma InjectIsLogged(c: Config, e: EngineState, event: ScenarioEvent, t: real)
    requires Accepts(c) && event.effect in D.AllowedEffects(event.subsystem)
    ensures CallsLogged(e.calls, Inject(c, e, event, t).calls, Inject(c, e, event, t).log)
    ensures Inject(c, e, event, t).pending == e.pending
  {
    hide Put, Watches, D.AllowedEffects;
    var r := Inject(c, e, event, t);
    assert c.applies(|e.log|);
    assert Applies(r.log[|e.log| + 1]) && r.log[|e.log| + 1].subsystem == Some(event.subsystem);
  }

  lemma {:induction false} InjectDueIsLogged(c: Config, e: EngineState, t: real)
    requires Accepts(c) && AllowedEvents(e.pending)
    ensures CallsLogged(e.calls, InjectDue(c, e, t).calls, InjectDue(c, e, t).log) && AllowedEvents(InjectDue(c, e, t).pending)
    decreases |e.pending|
  {
    hide Inject, D.AllowedEffects, Logged, Injected;
    if e.pending != [] && e.pending[0].at <= t {
      var taken := e.(pending := e.pending[1..]);
      InjectIsLogged(c, taken, e.pending[0], t);
      var step := Inject(c, taken, e.pending[0], t);
      InjectDueIsLogged(c, step, t);
      var r := InjectDue(c, step, t);
      CallsStayLogged(e.calls, step.calls, step.log, r.log);
      CallsCompose(e.calls, step.calls, r.calls, r.log);
    }
  }

  lemma ClearOnlyClears(e: EngineState, request: InjectionRequest, t: real, log: seq<RunEvent>)
    ensures CallsLogged(e.calls, Clear(e, request, t, DurationElapsed).calls, log)
  {
    hide Remove, Find, Injected, D.AllowedEffects;
  }

  lemma {:induction false} ClearDueOnlyClears(e: EngineState, t: real, log: seq<RunEvent>)
    ensures CallsLogged(e.calls, ClearDue(e, t).calls, log)
    decreases |e.clears|
  {
    hide Injected, D.AllowedEffects;
    if e.clears != [] && e.clears[0].at <= t {
      var step := Clear(e.(clears := HeapQueue.Pop(e.clears)), e.clears[0].item, t, DurationElapsed);
      ClearOnlyClears(e.(clears := HeapQueue.Pop(e.clears)), e.clears[0].item, t, log);
      hide Clear, CallsLogged;
      ClearDueOnlyClears(step, t, log);
      CallsCompose(e.calls, step.calls, ClearDue(step, t).calls, log);
    }
  }

  lemma TickCallsLogged(c: Config, e: EngineState, o: Observation)
    requires Accepts(c) && AllowedEvents(e.pending)
    ensures var r := ProcessTick(c, e, o); CallsLogged(e.calls, r.calls, r.log) && AllowedEvents(r.pending)
  {
    hide InjectDue, ClearDue, ApplyChanges, Respond, Progress, JudgeEach, Logged, Injected, AllowedEvents, AnyRecovering;
    var t := o.sample.t;
    var late := e.(lastT := t);
    InjectDueIsLogged(c, late, t);
    var injected := InjectDue(c, late, t);
    var scheduled := ClearDue(injected, t);
    ClearDueOnlyClears(injected, t, scheduled.log);
    CallsStayLogged(e.calls, injected.calls, injected.log, scheduled.log);
    CallsCompose(e.calls, injected.calls, scheduled.calls, scheduled.log);
    EnginePairing.TickAppends(c, e, o);
    var r := ProcessTick(c, e, o);
    assert scheduled.log <= r.log && r.calls == scheduled.calls;
    CallsStayLogged(e.calls, scheduled.calls, scheduled.log, r.log);
  }

  /** Carrying out logged calls keeps the spread explained, and only logged components become targets. */
  lemma {:induction false} DeliverKeepsSpread(plan: V.Plan, course: R.Course, calls: seq<AdapterCall>, draw: EventId -> real, injected: set<Id>)
    requires S.SpreadHolds(course) && course.targets <= injected
    requires forall k :: 0 <= k < |calls| ==> Logged(calls[k], injected)
    ensures var r := Deliver(plan, course, calls, draw);
            S.SpreadHolds(r) && r.targets <= injected && r.impaired == course.impaired && r.v.states == course.v.states && r.seen == course.seen
    decreases |calls|
  {
    hide S.SpreadHolds, D.AllowedEffects, V.FindEffect, V.PutEffect, V.EffectOf;
    if calls != [] {
      DeliverKeepsSpread(plan, course, calls[..|calls| - 1], draw, injected);
      var before := Deliver(plan, course, calls[..|calls| - 1], draw);
      match calls[|calls| - 1]
      case InjectCall(request) =>
        S.OperationKeepsSpread(plan, before, R.Op.Inject(request, draw(request.eventId)));
      case ClearCall(id) =>
        S.OperationKeepsSpread(plan, before, R.Op.Clear(id));
    }
  }

  // ---- The observation of one tick

  ghost predicate NamesChanges(order: seq<Id>, previous: Health, states: Health, changes: seq<StateChange>) {
    && (forall k :: 0 <= k < |changes| ==> changes[k].subsystem in order && changes[k].after == Observed(states, changes[k].subsystem))
    && (forall s :: s in order && Observed(previous, s) != Observed(states, s) ==> exists k :: 0 <= k < |changes| && changes[k].subsystem == s)
  }

  lemma NamesOneMore(order: seq<Id>, c: Id, previous: Health, states: Health, changes: seq<StateChange>)
    requires NamesChanges(order, previous, states, changes)
    ensures NamesChanges(order + [c], previous, states,
                         if Observed(previous, c) != Observed(states, c) then changes + [StateChange(c, Observed(states, c), None)] else changes)
  {
    var longer := changes + [StateChange(c, Observed(states, c), None)];
    assert longer[|changes|].subsystem == c;
    forall s | s in order && Observed(previous, s) != Observed(states, s)
      ensures exists k :: 0 <= k < |longer| && longer[k].subsystem == s
    {
      var k :| 0 <= k < |changes| && changes[k].subsystem == s;
      assert longer[k].subsystem == s;
    }
  }

  lemma {:induction false} DiffNames(order: seq<Id>, previous: Health, states: Health)
    ensures NamesChanges(order, previous, states, V.Diff(order, previous, states))
    decreases |order|
  {
    if order != [] {
      hide NamesChanges;
      DiffNames(order[..|order| - 1], previous, states);
      NamesOneMore(order[..|order| - 1], order[|order| - 1], previous, states, V.Diff(order[..|order| - 1], previous, states));
      assert order == order[..|order| - 1] + [order[|order| - 1]];
    }
  }

  lemma OrderIsComplete()
    ensures forall c :: c in V.ORDER <==> c in D.COMPONENTS
  {
    assert V.ORDER[0] == ExternalGcs && V.ORDER[1] == CommunicationsC2 && V.ORDER[2] == CommunicationsTelemetry;
    assert V.ORDER[3] == MissionCompute && V.ORDER[4] == MissionPlanner && V.ORDER[5] == MissionServices;
    assert V.ORDER[6] == NetworkCompanionLink && V.ORDER[7] == SecurityGateway && V.ORDER[8] == NavigationGnss;
    assert V.ORDER[9] == NavigationEstimator && V.ORDER[10] == SensorsBarometer && V.ORDER[11] == SensorsMagnetometer;
    assert V.ORDER[12] == SensorsImu && V.ORDER[13] == FlightControlCore && V.ORDER[14] == ActuationMotors;
    assert V.ORDER[15] == PowerBattery && V.ORDER[16] == PowerBus;
  }

  /** The mock reports exactly what changed since its previous step. */
  lemma MockIsFaithful(plan: V.Plan, v: V.Vehicle, n: V.Noise)
    requires v.states.Keys == D.COMPONENTS
    ensures var (next, o) := V.Step(plan, v, n);
            Faithful(v.states, o) && next.states == o.sample.health && next.states.Keys == D.COMPONENTS
            && forall c :: c in o.sample.health ==> !o.sample.health[c].Unknown?
  {
    hide V.Step, V.ORDER, D.StateOf, D.COMPONENTS, V.Wake, V.Diff;
    S.StepParts(plan, v, n);
    OrderIsComplete();
    var o := V.Step(plan, v, n).1;
    DiffNames(V.ORDER, v.states, o.sample.health);
    var i := V.InputsOf(V.Wake(v, n), n);
    forall c | c in D.COMPONENTS
      ensures !D.StateOf(i, c).Unknown?
    {
      D.DerivedIsKnown(i, c);
    }
  }

  /** Exactly the components that changed into an impaired state join the affected ones. */
  lemma {:induction false} ChangesAffect(c: Config, e: EngineState, changes: seq<StateChange>, t: real, health: Health)
    requires e.states.Keys == health.Keys && forall s :: s in health ==> !health[s].Unknown?
    requires forall k :: 0 <= k < |changes| ==> changes[k].subsystem in health && changes[k].after == health[changes[k].subsystem]
    requires forall s :: s in health && health[s] != e.states[s] ==> exists k :: 0 <= k < |changes| && changes[k].subsystem == s
    ensures Affected(ApplyChanges(c, e, changes, t).log)
         == Affected(e.log) + (set s | s in R.Impaired(health) && health[s] != e.states[s])
    decreases |changes|
  {
    hide CauseOf, RetireOn, NextFaults, IsDirect, Affected;
    if changes != [] {
      var s := changes[0].subsystem;
      var step := ApplyChange(c, e, changes[0], t);
      assert step.states == e.states[s := health[s]];
      forall x | x in health && health[x] != step.states[x]
        ensures exists k :: 0 <= k < |changes| - 1 && changes[1..][k].subsystem == x
      {
        var k :| 0 <= k < |changes| && changes[k].subsystem == x;
        assert changes[1..][k - 1] == changes[k];
      }
      StepAffects(c, e, changes[0], t);
      hide Affected, ApplyChange, R.Impaired;
      ChangesAffect(c, step, changes[1..], t, health);
      ImpairedNow(e.states, s, health);
    }
  }

  /** What one change adds. */
  lemma StepAffects(c: Config, e: EngineState, change: StateChange, t: real)
    requires !change.after.Unknown?
    ensures Affected(ApplyChange(c, e, change, t).log) == Affected(e.log)
              + if !change.after.IsHealthy() && Observed(e.states, change.subsystem) != change.after then {change.subsystem} else {}
  {
    hide CauseOf, RetireOn, NextFaults, IsDirect, Affected;
    var step := ApplyChange(c, e, change, t);
    if step.log != e.log {
      CollectOne(e.log, step.log[|e.log|]);
      assert step.log == e.log + [step.log[|e.log|]];
    }
  }

  lemma ImpairedNow(states: Health, s: Id, health: Health)
    requires s in health && states.Keys == health.Keys
    ensures (set x | x in R.Impaired(health) && health[x] != states[x])
         == (if !health[s].IsHealthy() && health[s] != states[s] then {s} else {})
            + (set x | x in R.Impaired(health) && health[x] != states[s := health[s]][x])
  {
  }

  lemma TickAffects(c: Config, e: EngineState, o: Observation)
    requires Faithful(e.states, o) && forall s :: s in o.sample.health ==> !o.sample.health[s].Unknown?
    ensures var r := ProcessTick(c, e, o);
            Affected(r.log) == Affected(e.log) + (set s | s in R.Impaired(o.sample.health) && o.sample.health[s] != e.states[s])
            && r.states == o.sample.health
  {
    hide InjectDue, ClearDue, ApplyChanges, Respond, Progress, JudgeEach, AnyRecovering, Affected, Injected;
    var t := o.sample.t;
    var scheduled := ProcessScheduled(c, e.(lastT := t), t);
    CollectIgnores(e.log, scheduled.log, SCHEDULING, t);
    var changed := ApplyChanges(c, scheduled, o.changes, t);
    ChangesAffect(c, scheduled, o.changes, t, o.sample.health);
    ChangesMirror(c, scheduled, o.changes, t, o.sample.health);
    var responded := Respond(changed, o.responses, t);
    CollectIgnores(changed.log, responded.log, {SystemResponded}, t);
    var progressed := Progress(responded, o.missionEvents, t);
    CollectIgnores(responded.log, progressed.log, {MissionProgress}, t);
    var observed := ProcessObservation(c, scheduled, o);
    CollectIgnores(observed.log, ProcessExpectations(observed, t).log, {ExpectationResult}, t);
  }

  // ---- The whole loop

  /** Engine and mock agree on the states, the log on what was impaired and what was injected. */
  ghost predicate Coupled(e: EngineState, course: R.Course) {
    && S.SpreadHolds(course)
    && e.states == course.v.states && e.states.Keys == D.COMPONENTS
    && Affected(e.log) == course.impaired && R.Impaired(e.states) <= course.impaired
    && course.targets <= Injected(e.log)
    && AllowedEvents(e.pending)
  }

  lemma TickStaysCoupled(plan: V.Plan, c: Config, e: EngineState, course: R.Course, m: Moment)
    requires Coupled(e, course) && Accepts(c)
    ensures Coupled(ProcessTick(c, e, Observe(plan, course, m)), Answer(plan, c, e, course, m))
    ensures Faithful(e.states, Observe(plan, course, m))
    ensures ProcessTick(c, e, Observe(plan, course, m)).states == Observe(plan, course, m).sample.health
  {
    hide ProcessTick, V.Step, S.SpreadHolds, Affected, Injected, AllowedEvents, Logged, Faithful, D.COMPONENTS, Deliver, R.WaypointsIn;
    var o := Observe(plan, course, m);
    MockIsFaithful(plan, course.v, m.noise);
    var next := ProcessTick(c, e, o);
    TickAffects(c, e, o);
    TickCallsLogged(c, e, o);
    EnginePairing.TickAppends(c, e, o);
    InjectedGrows(e.log, next.log);
    S.StepKeepsSpread(plan, course, m.noise);
    var ticked := R.Perform(plan, course, R.Op.Tick(m.noise));
    DeliverKeepsSpread(plan, ticked, next.calls[|e.calls|..], m.draw, Injected(next.log));
    SameKeys(e.states, o);
    assert Affected(next.log) == course.impaired + R.Impaired(o.sample.health);
  }

  lemma SameKeys(previous: Health, o: Observation)
    requires Faithful(previous, o)
    ensures o.sample.health.Keys == previous.Keys
  {
  }

  lemma {:induction false} PlayStaysCoupled(plan: V.Plan, c: Config, e: EngineState, course: R.Course, moments: seq<Moment>)
    requires Coupled(e, course) && Accepts(c)
    ensures var s := Play(plan, c, e, course, moments); Coupled(s.engine, s.course) && FaithfulFeed(e.states, s.feed)
    decreases |moments|
  {
    hide ProcessTick, V.Step, Coupled, Faithful, Answer;
    if moments != [] {
      var m := moments[0];
      var o := Observe(plan, course, m);
      var next, told := ProcessTick(c, e, o), Answer(plan, c, e, course, m);
      TickStaysCoupled(plan, c, e, course, m);
      QuietStaysCoupled(e, course, e.(lastT := o.sample.t), LifecycleEvent);
      QuietStaysCoupled(next, told, next, MissionProgress);
      PlayStaysCoupled(plan, c, next, told, moments[1..]);
      var s := Play(plan, c, e, course, moments);
      if !m.cancelled && !o.finished && o.sample.t < c.timeout {
        assert s.feed[1..] == Play(plan, c, next, told, moments[1..]).feed;
      }
    }
  }

  lemma QuietStaysCoupled(e: EngineState, course: R.Course, late: EngineState, kind: EventKind)
    requires Coupled(e, course) && kind != ObservedEffect && kind != InjectionApplied
    requires late == e.(lastT := late.lastT)
    ensures Coupled(Emit(late, late.lastT, kind, None, None, None, None, NoDetails), course)
  {
    var r := Emit(late, late.lastT, kind, None, None, None, None, NoDetails);
    CollectIgnores(e.log, r.log, {kind}, late.lastT);
    hide S.SpreadHolds, Affected, Injected, AllowedEvents, D.COMPONENTS, R.Impaired;
  }

  lemma StartCoupled(events: seq<ScenarioEvent>)
    requires AllowedEvents(events)
    ensures Coupled(StartRun(events, V.NewVehicle().states), Prepared())
  {
    hide D.AllowedEffects;
    var e := StartRun(events, V.NewVehicle().states);
    assert Injected(e.log) == {} && Affected(e.log) == {};
    forall c | c in D.COMPONENTS
      ensures D.HealthyState(c).IsHealthy()
    {
    }
  }

  lemma CloseKeepsSets(e: EngineState, exit: Exit, raises: bool)
    ensures var r := Close(e, exit, raises).0; Affected(r.log) == Affected(e.log) && Injected(r.log) == Injected(e.log)
  {
    hide Affected, Injected;
    var t := e.lastT;
    var failed := Emit(e, t, LifecycleEvent, None, None, None, None, NoDetails);
    CollectIgnores(e.log, failed.log, {LifecycleEvent}, t);
    var flushed := FlushExpectations(e, t);
    CollectIgnores(e.log, flushed.log, {ExpectationResult}, t);
    CollectIgnores(flushed.log, ClearAll(flushed, t).log, {InjectionCleared}, t);
  }

  /** Main result. For every scenario of catalogue-allowed injections, every policy, all noise and any
      moment of cancellation: in the finished log of a run on the mock, every affected component has a
      propagation depth of 0, 1 or 2, and the log is that of an engine run on a faithful feed. */
  lemma LabDepths(plan: V.Plan, c: Config, events: seq<ScenarioEvent>, moments: seq<Moment>, raises: bool, depths: map<Id, int>)
    requires AllowedEvents(events) && Accepts(c)
    requires var s := Whole(plan, c, events, moments);
             var log := Close(s.engine, s.exit, raises).0.log;
             T.AreDepths(T.DEFAULT_TOPOLOGY, Injected(log), Affected(log), depths)
    ensures forall id :: id in depths ==> 0 <= depths[id] <= 2
    ensures var s := Whole(plan, c, events, moments);
            Loop(c, StartRun(events, V.NewVehicle().states), s.feed) == (s.engine, s.exit) && FaithfulFeed(V.NewVehicle().states, s.feed)
  {
    hide Close, StartRun, Play, Loop, Affected, Injected, T.DEFAULT_TOPOLOGY, S.SpreadHolds;
    var start := StartRun(events, V.NewVehicle().states);
    StartCoupled(events);
    PlayStaysCoupled(plan, c, start, Prepared(), moments);
    PlayIsLoop(plan, c, start, Prepared(), moments);
    var s := Whole(plan, c, events, moments);
    CloseKeepsSets(s.engine, s.exit, raises);
    StartStates(events);
    DepthsOf(s.course, Injected(s.engine.log), depths);
  }

  lemma StartStates(events: seq<ScenarioEvent>)
    ensures StartRun(events, V.NewVehicle().states).states == V.NewVehicle().states
  {
  }

  lemma DepthsOf(course: R.Course, injected: set<Id>, depths: map<Id, int>)
    requires S.SpreadHolds(course) && course.targets <= injected
    requires T.AreDepths(T.DEFAULT_TOPOLOGY, injected, course.impaired, depths)
    ensures forall id :: id in depths ==> 0 <= depths[id] <= 2
  {
    hide T.DEFAULT_TOPOLOGY;
    forall id | id in depths
      ensures 0 <= depths[id] <= 2
    {
      S.ExplainedGrows(course.targets, course.impaired, injected, course.impaired, id);
      var path := S.ShortRoute(injected, course.impaired, id);
    }
  }

  // ---- Containment

  /** The scenario leaves the flight control and actuation domains alone. */
  ghost predicate SparesCritical(events: seq<ScenarioEvent>) {
    forall k :: 0 <= k < |events| ==> events[k].subsystem !in S.CRITICAL
  }

  /** A sample with the flight core healthy and control kept. */
  predicate InControl(s: Sample) {
    s.controlAuthority && FlightControlCore in s.health && s.health[FlightControlCore].IsHealthy()
  }

  lemma TickInControl(plan: V.Plan, course: R.Course, m: Moment)
    requires S.SpreadHolds(course) && course.targets !! S.CRITICAL && course.v.states.Keys == D.COMPONENTS
    ensures InControl(Observe(plan, course, m).sample)
  {
    hide V.Step, D.Derivation, V.Wake, V.AfterDerivation, S.FromTargets, V.AdvanceTransients;
    var awake := V.Wake(course.v, m.noise);
    S.StepParts(plan, course.v, m.noise);
    S.TransientsKeepTargets(course.v.effects, m.noise.clock, m.noise.restart, course.targets);
    var i := V.InputsOf(awake, m.noise);
    WakeFacts(course.v, m.noise);
    S.ControlKept(i, course.targets);
    MockIsFaithful(plan, course.v, m.noise);
    var health := Observe(plan, course, m).sample.health;
    SameKeys(course.v.states, Observe(plan, course, m));
    if FlightControlCore in R.Impaired(health) {
      S.DerivationExplained(i, course.targets, course.impaired, FlightControlCore);
      S.CriticalNeedsCritical(course.targets, course.impaired + R.Impaired(health), FlightControlCore);
    }
  }

  lemma WakeFacts(v: V.Vehicle, n: V.Noise)
    ensures V.Wake(v, n).effects == V.AdvanceTransients(v.effects, n.clock, n.restart).0
    ensures V.Wake(v, n).brownoutUntil == v.brownoutUntil
    ensures V.InputsOf(V.Wake(v, n), n).effects == V.Wake(v, n).effects
  {
    hide V.AdvanceTransients;
  }

  /** What was injected comes from the scenario. */
  ghost predicate InjectedSpared(e: EngineState) {
    SparesCritical(e.pending) && Injected(e.log) !! S.CRITICAL
  }

  lemma InjectSpares(c: Config, e: EngineState, event: ScenarioEvent, t: real)
    requires InjectedSpared(e) && event.subsystem !in S.CRITICAL
    ensures InjectedSpared(Inject(c, e, event, t))
  {
    hide Put, Watches, S.CRITICAL, Injected, SparesCritical;
    InjectLeavesPending(c, e, event, t);
    var r := Inject(c, e, event, t);
    var first, second := r.log[|e.log|], r.log[|e.log| + 1];
    assert r.log == e.log + [first] + [second];
    CollectOne(e.log, first);
    CollectOne(e.log + [first], second);
  }

  lemma {:induction false} InjectDueSpares(c: Config, e: EngineState, t: real)
    requires InjectedSpared(e)
    ensures InjectedSpared(InjectDue(c, e, t))
    decreases |e.pending|
  {
    hide Inject, Injected, S.CRITICAL;
    if e.pending != [] && e.pending[0].at <= t {
      var taken := e.(pending := e.pending[1..]);
      InjectSpares(c, taken, e.pending[0], t);
      InjectLeavesPending(c, taken, e.pending[0], t);
      InjectDueSpares(c, Inject(c, taken, e.pending[0], t), t);
    }
  }

  lemma TickSpares(c: Config, e: EngineState, o: Observation)
    requires InjectedSpared(e)
    ensures InjectedSpared(ProcessTick(c, e, o))
  {
    hide InjectDue, ClearDue, ApplyChanges, Respond, Progress, JudgeEach, AnyRecovering, Injected, SparesCritical, S.CRITICAL;
    var t := o.sample.t;
    var late := e.(lastT := t);
    InjectDueSpares(c, late, t);
    var injected := InjectDue(c, late, t);
    var scheduled := ClearDue(injected, t);
    CollectIgnores(injected.log, scheduled.log, {InjectionCleared}, t);
    var changed := ApplyChanges(c, scheduled, o.changes, t);
    CollectIgnores(scheduled.log, changed.log, CHANGES, t);
    var responded := Respond(changed, o.responses, t);
    CollectIgnores(changed.log, responded.log, {SystemResponded}, t);
    var progressed := Progress(responded, o.missionEvents, t);
    CollectIgnores(responded.log, progressed.log, {MissionProgress}, t);
    var observed := ProcessObservation(c, scheduled, o);
    CollectIgnores(observed.log, ProcessExpectations(observed, t).log, {ExpectationResult}, t);
  }

  lemma {:induction false} PlayInControl(plan: V.Plan, c: Config, e: EngineState, course: R.Course, moments: seq<Moment>)
    requires Coupled(e, course) && Accepts(c) && InjectedSpared(e)
    ensures var s := Play(plan, c, e, course, moments);
            InjectedSpared(s.engine) && forall k :: 0 <= k < |s.feed| ==> InControl(s.feed[k].observation.sample)
    decreases |moments|
  {
    hide ProcessTick, V.Step, Coupled, InjectedSpared, Answer, InControl, Accepts;
    if moments != [] {
      var m := moments[0];
      var o := Observe(plan, course, m);
      var next, told := ProcessTick(c, e, o), Answer(plan, c, e, course, m);
      CoupledInControl(plan, e, course, m);
      TickStaysCoupled(plan, c, e, course, m);
      TickSpares(c, e, o);
      QuietSpares(e, e.(lastT := o.sample.t), LifecycleEvent);
      QuietSpares(next, next, MissionProgress);
      PlayInControl(plan, c, next, told, moments[1..]);
    }
  }

  lemma CoupledInControl(plan: V.Plan, e: EngineState, course: R.Course, m: Moment)
    requires Coupled(e, course) && InjectedSpared(e)
    ensures InControl(Observe(plan, course, m).sample)
  {
    hide V.Step, S.SpreadHolds, Injected, InControl, S.CRITICAL;
    TickInControl(plan, course, m);
  }

  lemma QuietSpares(e: EngineState, late: EngineState, kind: EventKind)
    requires InjectedSpared(e) && kind != InjectionApplied && late == e.(lastT := late.lastT)
    ensures InjectedSpared(Emit(late, late.lastT, kind, None, None, None, None, NoDetails))
  {
    var r := Emit(late, late.lastT, kind, None, None, None, None, NoDetails);
    CollectIgnores(e.log, r.log, {kind}, late.lastT);
    hide Injected, SparesCritical, S.CRITICAL;
  }

  /** Main result. A scenario that never targets the flight control or actuation domains is contained:
      no component of either is among the affected, and no sample counts as loss of control. */
  lemma LabContained(plan: V.Plan, c: Config, events: seq<ScenarioEvent>, moments: seq<Moment>, raises: bool)
    requires AllowedEvents(events) && Accepts(c) && SparesCritical(events)
    ensures var s := Whole(plan, c, events, moments);
            var log := Close(s.engine, s.exit, raises).0.log;
            && Affected(log) !! S.CRITICAL
            && !LossOfControl(Processed(c, s.feed))
  {
    hide Close, StartRun, Play, Loop, Affected, Injected, S.SpreadHolds, InControl, S.CRITICAL, Processed;
    var start := StartRun(events, V.NewVehicle().states);
    StartCoupled(events);
    StartSpares(events);
    PlayStaysCoupled(plan, c, start, Prepared(), moments);
    PlayInControl(plan, c, start, Prepared(), moments);
    var s := Whole(plan, c, events, moments);
    CloseKeepsSets(s.engine, s.exit, raises);
    ContainedSets(s.course, Injected(s.engine.log));
    ProcessedInControl(c, s.feed);
  }

  lemma StartSpares(events: seq<ScenarioEvent>)
    requires SparesCritical(events)
    ensures InjectedSpared(StartRun(events, V.NewVehicle().states))
  {
    hide SparesCritical, S.CRITICAL;
    var e := StartRun(events, V.NewVehicle().states);
    assert Injected(e.log) == {};
  }

  lemma ContainedSets(course: R.Course, injected: set<Id>)
    requires S.SpreadHolds(course) && course.targets <= injected && injected !! S.CRITICAL
    ensures course.impaired !! S.CRITICAL
  {
    hide S.FromTargets, S.Explained;
    forall x | x in course.impaired
      ensures x !in S.CRITICAL
    {
      S.CriticalNeedsCritical(course.targets, course.impaired, x);
    }
  }

  lemma {:induction false} ProcessedInControl(c: Config, feed: seq<Input>)
    requires forall k :: 0 <= k < |feed| ==> InControl(feed[k].observation.sample)
    ensures !LossOfControl(Processed(c, feed))
    decreases |feed|
  {
    if feed != [] && !feed[0].cancelled {
      ProcessedInControl(c, feed[1..]);
      var o := feed[0].observation;
      var rest := if o.finished || o.sample.t >= c.timeout then [] else Processed(c, feed[1..]);
      assert !LosesControl(o.sample);
      assert !LossOfControl(rest);
      forall k | 0 <= k < |[o.sample] + rest|
        ensures !LosesControl(([o.sample] + rest)[k])
      {
      }
    }
  }

  /** What the propagation metrics report for such a run. */
  lemma LabMetrics(plan: V.Plan, c: Config, events: seq<ScenarioEvent>, moments: seq<Moment>, raises: bool, p: Propagation)
    requires AllowedEvents(events) && Accepts(c)
    requires var s := Whole(plan, c, events, moments);
             var log := Close(s.engine, s.exit, raises).0.log;
             && p.injected == Injected(log) && p.affected == Affected(log)
             && T.AreDepths(T.DEFAULT_TOPOLOGY, p.injected, p.affected, p.depths) && IsMaxDepth(p.depths, p.maxDepth)
             && (p.contained <==> forall id :: id in p.affected && T.DEFAULT_TOPOLOGY.HasComponent(id) ==>
                                    T.DEFAULT_TOPOLOGY.ComponentOf(id).domain !in T.CRITICAL_DOMAINS)
    ensures p.maxDepth <= 2 && forall id :: id in p.depths ==> p.depths[id] != -1
    ensures SparesCritical(events) ==> p.contained
  {
    hide Close, StartRun, Play, Loop, Affected, Injected, T.DEFAULT_TOPOLOGY, S.CRITICAL, SparesCritical;
    LabDepths(plan, c, events, moments, raises, p.depths);
    if SparesCritical(events) {
      LabContained(plan, c, events, moments, raises);
      forall id | id in p.affected && T.DEFAULT_TOPOLOGY.HasComponent(id)
        ensures T.DEFAULT_TOPOLOGY.ComponentOf(id).domain !in T.CRITICAL_DOMAINS
      {
        S.CriticalMatchesTopology(id, T.DEFAULT_TOPOLOGY);
      }
    }
  }

  // ---- What the log says about such a run

  /** The simulated clock never goes back. */
  ghost predicate ClocksFrom(moments: seq<Moment>, t: real) {
    && (forall k :: 0 <= k < |moments| ==> t <= moments[k].noise.clock)
    && (forall j, k :: 0 <= j < k < |moments| ==> moments[j].noise.clock <= moments[k].noise.clock)
  }

  /** Steps at least a millisecond apart. */
  ghost predicate ClocksSpaced(moments: seq<Moment>) {
    forall j, k :: 0 <= j < k < |moments| ==> moments[k].noise.clock - moments[j].noise.clock >= 0.001
  }

  lemma ObservedClock(plan: V.Plan, course: R.Course, m: Moment)
    ensures Observe(plan, course, m).sample.t == m.noise.clock
  {
    hide V.DecideMode, V.AdvanceMission, D.Derivation, V.AdvanceTransients, V.ProgressOf, V.Diff, D.InBrownout, D.BrownoutEnd;
    var awake := V.Wake(course.v, m.noise);
    var d := D.Derivation(V.InputsOf(awake, m.noise));
    var decided := V.DecideMode(plan, V.AfterDerivation(awake, m.noise), d).0;
    V.DecisionFrame(plan, V.AfterDerivation(awake, m.noise), d);
    V.AdvanceFrame(plan, V.Move(decided, m.noise), m.noise);
  }

  /** The feed of a session, one observation at a time: what comes first, and how the session goes on, if it does. */
  lemma PlayFeed(plan: V.Plan, c: Config, e: EngineState, course: R.Course, moments: seq<Moment>)
    returns (first: Input, goesOn: bool, next: EngineState, told: R.Course)
    requires moments != []
    ensures first.observation.sample.t == moments[0].noise.clock
    ensures Play(plan, c, e, course, moments).feed == [first] + if goesOn then Play(plan, c, next, told, moments[1..]).feed else []
  {
    hide ProcessTick, Observe, Answer, Emit, V.Step, Deliver, R.Perform;
    var m := moments[0];
    ObservedClock(plan, course, m);
    var o := Observe(plan, course, m);
    first, next, told := Input(o, m.cancelled), ProcessTick(c, e, o), Answer(plan, c, e, course, m);
    goesOn := !m.cancelled && !o.finished && o.sample.t < c.timeout;
    assert [first] + [] == [first];
  }

  /** Each observation carries the clock of its moment. */
  ghost predicate OnTime(feed: seq<Input>, moments: seq<Moment>) {
    |feed| <= |moments| && forall k :: 0 <= k < |feed| ==> feed[k].observation.sample.t == moments[k].noise.clock
  }

  lemma {:induction false} PlayOnTime(plan: V.Plan, c: Config, e: EngineState, course: R.Course, moments: seq<Moment>)
    ensures OnTime(Play(plan, c, e, course, moments).feed, moments)
    decreases |moments|
  {
    if moments != [] {
      var first, goesOn, next, told := PlayFeed(plan, c, e, course, moments);
      hide Play;
      PlayOnTime(plan, c, next, told, moments[1..]);
      OnTimePrepend(first, if goesOn then Play(plan, c, next, told, moments[1..]).feed else [], moments);
      hide OnTime;
    }
  }

  lemma OnTimePrepend(first: Input, rest: seq<Input>, moments: seq<Moment>)
    requires moments != [] && first.observation.sample.t == moments[0].noise.clock && OnTime(rest, moments[1..])
    ensures OnTime([first] + rest, moments)
  {
  }

  lemma OnTimeOrder(feed: seq<Input>, moments: seq<Moment>, t: real)
    requires OnTime(feed, moments) && ClocksFrom(moments, t)
    ensures TimesFrom(feed, t)
    ensures ClocksSpaced(moments) ==> Timeline.Spaced(feed)
  {
  }

  /** Main result, joining both sides of the log. For every session on the mock: the finished log replays
      to the faults the engine tracked, with stamped durations; after every tick the states folded from the
      log are the vehicle's; and the finished log folds to the last of them. */
  lemma LabAgrees(plan: V.Plan, c: Config, events: seq<ScenarioEvent>, moments: seq<Moment>, raises: bool)
    requires AllowedEvents(events) && Accepts(c) && ClocksFrom(moments, 0.0)
    requires KnownEvents(events, V.NewVehicle().states)
    ensures var s := Whole(plan, c, events, moments);
            var r := Close(s.engine, s.exit, raises).0;
            EnginePairing.Settled(r) && TicksMirror(V.NewVehicle().states, r, s.feed, 0) && Folds(V.NewVehicle().states, r)
  {
    hide Close, Play, Loop, StartRun, ClocksFrom, TimesFrom, FaithfulFeed, TicksMirror, EnginePairing.Settled, OnTime, FoldStates;
    var healthy := V.NewVehicle().states;
    var start := StartRun(events, healthy);
    StartCoupled(events);
    StartStates(events);
    PlayStaysCoupled(plan, c, start, Prepared(), moments);
    PlayIsLoop(plan, c, start, Prepared(), moments);
    PlayOnTime(plan, c, start, Prepared(), moments);
    var s := Whole(plan, c, events, moments);
    OnTimeOrder(s.feed, moments, 0.0);
    EnginePairing.RunAgrees(c, events, Setup.Prepared(healthy), s.feed, raises);
    RunMirrors(c, events, healthy, s.feed, raises);
  }

  /** Main result. For every session on the mock with steps at least a millisecond apart, the report's
      timeline shows the vehicle's state at every sample; the client's timeline, drawn from the finished log, does so
      too exactly when the step time does not round up, or the component did not change at that step. */
  lemma LabTimelines(plan: V.Plan, c: Config, events: seq<ScenarioEvent>, moments: seq<Moment>, raises: bool, k: nat, s: Id, end: real)
    requires AllowedEvents(events) && Accepts(c) && ClocksFrom(moments, 0.0) && ClocksSpaced(moments)
    requires KnownEvents(events, V.NewVehicle().states) && s in V.NewVehicle().states
    requires var e := Whole(plan, c, events, moments).engine; k < |e.ticks| && e.ticks[k].t < end
    ensures var run := Whole(plan, c, events, moments);
            var r := Close(run.engine, run.exit, raises).0;
            && Timeline.AgreeAt(V.NewVehicle().states, r, run.feed, k, s, end) && k < |r.ticks| && k < |run.feed|
            && s in run.feed[k].observation.sample.health && s in Timeline.StatesBefore(V.NewVehicle().states, run.feed, k)
            && (StateAt(EventTrack(V.NewVehicle().states[s], ChangesOf(r.log, s), end), r.ticks[k].t)
                == Some(run.feed[k].observation.sample.health[s])
                <==> Round3(r.ticks[k].t) <= r.ticks[k].t
                     || run.feed[k].observation.sample.health[s] == Timeline.StatesBefore(V.NewVehicle().states, run.feed, k)[s])
  {
    hide Play, Loop, StartRun, Close, ClocksFrom, ClocksSpaced, TimesFrom, FaithfulFeed, OnTime, Timeline.Spaced;
    hide StateAt, EventTrack, ChangesOf, Round3, Track, History, Timeline.StatesBefore, Timeline.Reached;
    var healthy := V.NewVehicle().states;
    var start := StartRun(events, healthy);
    StartCoupled(events);
    StartStates(events);
    PlayStaysCoupled(plan, c, start, Prepared(), moments);
    PlayIsLoop(plan, c, start, Prepared(), moments);
    PlayOnTime(plan, c, start, Prepared(), moments);
    var run := Whole(plan, c, events, moments);
    OnTimeOrder(run.feed, moments, 0.0);
    CloseKeepsTicks(run.engine, run.exit, raises);
    Timeline.SpacedTimelinesAgree(c, events, healthy, run.feed, raises, k, s, end);
  }

  lemma CloseKeepsTicks(e: EngineState, exit: Exit, raises: bool)
    ensures Close(e, exit, raises).0.ticks == e.ticks
  {
    hide FlushEach, ClearEach;
  }
}
