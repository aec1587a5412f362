/** Concrete runs at the edges of a schedule: a clear overtaken by a cancel request, and a verdict given by the first
    observation past its deadline. */
module EdgeCases {
  import opened Options
  import opened States
  import opened RunLog
  import opened HeapQueue
  import opened EngineModel
  import opened EngineClock
  import opened EnginePairing
  import opened EngineLedger
  import opened EngineMirror
  import opened EngineExpectations
  import opened Blinking
  import Timeline = TimelineAgreement

  function Look(t: real, state: ComponentState, changes: seq<StateChange>, finished: bool): Observation {
    Observation(Sample(t, map[NavigationGnss := state], Mission, Enroute, true, true, 0.5), changes, [], [], finished)
  }

  // ---- Overdue at a cancel request

  /** One second of degraded aiding, from half a second on. */
  const BOUNDED := ScenarioEvent("e", 0.5, NavigationGnss, Degradation, Some(1.0), map[], [])

  /** An observation at one second, and one at two and a half that finds a cancel request. */
  const CANCELLED: seq<Input> := [Input(Look(1.0, Nominal, [], false), false), Input(Look(2.5, Nominal, [], false), true)]

  lemma BoundedStart()
    ensures var start := StartRun([BOUNDED], HEALTHY);
            && start.pending == [BOUNDED] && start.active == [] && start.clears == [] && start.expectations == [] && start.created == []
            && |start.log| == 1 && start.log[0].kind == MissionProgress && start.ticks == [] && start.states == HEALTHY
  {
  }

  lemma BoundedInjected(c: Config, e: EngineState)
    requires c.applies(1) && e.pending == [BOUNDED] && e.active == [] && e.clears == [] && e.lastT == 1.0
    requires |e.log| == 1 && e.log[0].kind == MissionProgress
    ensures var r, request := ProcessScheduled(c, e, 1.0), RequestOf(BOUNDED);
            && r.active == [request] && r.clears == [Entry(2.0, request)] && r.pending == []
            && |r.log| == 3 && r.log[0].kind == MissionProgress && r.log[1].kind == InjectionRequested && IsApplication(r.log[2], "e")
            && r.expectations == e.expectations + Watches(BOUNDED, 1.0, |e.created|)
  {
    var taken := e.(pending := e.pending[1..]);
    var r := Inject(c, taken, BOUNDED, 1.0);
    assert Put([], RequestOf(BOUNDED)) == [RequestOf(BOUNDED)];
    assert Push([], Entry(2.0, RequestOf(BOUNDED))) == [Entry(2.0, RequestOf(BOUNDED))];
    assert InjectDue(c, e, 1.0) == r;
    assert ClearDue(r, 1.0) == r;
  }

  /** A tick at which nothing is observed to change and nothing is expected. */
  lemma NothingObserved(c: Config, e: EngineState, o: Observation)
    requires o.changes == [] && o.responses == [] && o.missionEvents == []
    requires ProcessScheduled(c, e.(lastT := o.sample.t), o.sample.t).expectations == []
    ensures var scheduled, next := ProcessScheduled(c, e.(lastT := o.sample.t), o.sample.t), ProcessTick(c, e, o);
            && next.active == scheduled.active && next.clears == scheduled.clears && next.log == scheduled.log
            && next.pending == scheduled.pending && next.lastT == o.sample.t
            && next.ticks == e.ticks + [Tick(o.sample.t, e.states, |next.log|)]
  {
    hide ProcessScheduled, AnyRecovering;
  }

  /** The application is the third entry of the log, logged by the first tick. */
  lemma DueOfBounded(e: EngineState, states: Health)
    requires |e.log| >= 3 && e.log[0].kind == MissionProgress && e.log[1].kind == InjectionRequested && IsApplication(e.log[2], "e")
    requires e.ticks == [Tick(1.0, states, 3)]
    ensures DueAt(e, RequestOf(BOUNDED)) == 2.0
  {
    assert AppliedAt(e.log, "e") == 2;
    assert ClockOf(e).At(2) == 1.0;
  }

  lemma CancelledLoop(c: Config)
    requires c.applies(1) && c.timeout > 1.0
    ensures var (looped, exit) := Loop(c, StartRun([BOUNDED], HEALTHY), CANCELLED);
            && exit == CancelRequested && looped.active == [RequestOf(BOUNDED)] && looped.lastT == 2.5
            && looped.ticks == [Tick(1.0, HEALTHY, 3)] && DueAt(looped, RequestOf(BOUNDED)) == 2.0
  {
    hide ProcessTick, StartRun, ProcessScheduled, Due;
    var start, o := StartRun([BOUNDED], HEALTHY), CANCELLED[0].observation;
    BoundedStart();
    BoundedInjected(c, start.(lastT := 1.0));
    assert Watches(BOUNDED, 1.0, 0) == [];
    NothingObserved(c, start, o);
    var next := ProcessTick(c, start, o);
    assert CANCELLED[1..] == [CANCELLED[1]];
    var looped := Emit(next.(lastT := 2.5), 2.5, LifecycleEvent, None, None, None, None, NoDetails);
    assert Loop(c, next, CANCELLED[1..]) == (looped, CancelRequested);
    DueOfBounded(looped, HEALTHY);
  }

  /** The injection was due at two seconds. The observation that finds the cancel request comes later, but its schedule is
      not looked at any more: the run ends with the injection active, overdue and never cleared. */
  lemma CancelLeavesOverdue(c: Config, raises: bool)
    requires c.applies(1) && c.timeout > 1.0
    ensures var r, request := Run(c, [BOUNDED], Setup.Prepared(HEALTHY), CANCELLED, raises).0, RequestOf(BOUNDED);
            && request in r.active && request.eventId !in AccountOf(r.log).cleared
            && DueAt(r, request) == 2.0 && r.lastT == 2.5
  {
    hide Run, Loop, StartRun, AccountOf, Due;
    CancelledLoop(c);
    RunLeavesActive(c, [BOUNDED], HEALTHY, CANCELLED, raises);
  }

  // ---- Past the deadline

  /** The receiver is expected to become unavailable within a second of the injection. */
  const EXPECTING := ScenarioEvent("e", 1.0, NavigationGnss, Unavailability, None, map[], [Expectation(NavigationGnss, Unavailable, 1.0)])

  /** It is seen to, but only by the observation after the deadline. */
  const LATE: seq<Input> :=
    [Input(Look(1.0, Nominal, [], false), false),
     Input(Look(2.5, Unavailable, [StateChange(NavigationGnss, Unavailable, None)], true), false)]

  lemma LateIsFaithful()
    ensures FaithfulFeed(HEALTHY, LATE) && TimesFrom(LATE, 0.0) && KnownEvents([EXPECTING], HEALTHY)
  {
    assert LATE[1..] == [LATE[1]] && LATE[1..][1..] == [];
    var second := LATE[1].observation;
    assert second.changes[0].subsystem == NavigationGnss;
    assert Faithful(HEALTHY, LATE[0].observation) && Faithful(HEALTHY, second);
  }

  lemma MadeByTick(c: Config, e: EngineState, o: Observation)
    ensures var injected, next := InjectDue(c, e.(lastT := o.sample.t), o.sample.t), ProcessTick(c, e, o);
            next.created == injected.created && next.pending == injected.pending
  {
    hide InjectDue, ClearDue, ProcessObservation, JudgeEach, BufferSample;
  }

  lemma LateLoop(c: Config)
    requires c.applies(1) && c.timeout > 1.0
    ensures var looped := Loop(c, StartRun([EXPECTING], HEALTHY), LATE).0;
            && looped.created == [Watch(0, "e", Expectation(NavigationGnss, Unavailable, 1.0), 2.0, 1.0, false)]
            && |looped.ticks| == 2 && looped.lastT == 2.5
  {
    hide ProcessTick, StartRun, InjectDue;
    var start := StartRun([EXPECTING], HEALTHY);
    var first := ProcessTick(c, start, LATE[0].observation);
    var second := ProcessTick(c, first, LATE[1].observation);
    ExpectingStart();
    ExpectingInjected(c, start.(lastT := 1.0));
    MadeByTick(c, start, LATE[0].observation);
    MadeByTick(c, first, LATE[1].observation);
    NothingPending(c, first.(lastT := 2.5));
    TickTime(c, start, LATE[0].observation);
    TickTime(c, first, LATE[1].observation);
    TickClock(c, first, LATE[1].observation);
    assert LATE[1..] == [LATE[1]];
    assert Loop(c, first, LATE[1..]) == (Emit(second, 2.5, MissionProgress, None, None, None, None, NoDetails), Finished);
  }

  lemma ExpectingStart()
    ensures var start := StartRun([EXPECTING], HEALTHY);
            start.pending == [EXPECTING] && start.created == [] && |start.log| == 1 && start.ticks == []
  {
  }

  lemma ExpectingInjected(c: Config, e: EngineState)
    requires c.applies(1) && e.pending == [EXPECTING] && e.created == [] && |e.log| == 1
    ensures var r := InjectDue(c, e, 1.0);
            r.created == [Watch(0, "e", Expectation(NavigationGnss, Unavailable, 1.0), 2.0, 1.0, false)] && r.pending == []
  {
    hide Put, Push;
    var r := Inject(c, e.(pending := e.pending[1..]), EXPECTING, 1.0);
    assert InjectDue(c, e, 1.0) == r;
  }

  lemma NothingPending(c: Config, e: EngineState)
    requires e.pending == []
    ensures InjectDue(c, e, e.lastT) == e
  {
  }

  /** The expectation passes although no observation up to the deadline shows the expected state. */
  lemma LateTickCounts(c: Config)
    requires c.applies(1) && c.timeout > 1.0
    ensures var looped := Loop(c, StartRun([EXPECTING], HEALTHY), LATE).0;
            && |looped.created| == 1 && looped.created[0].deadline == 2.0
            && Verdicts(Conclude(looped).log, 0) == [true] && !HoldsInTime(looped.created[0], Closed(looped.created[0], looped))
  {
    hide Loop, StartRun, Verdicts, Conclude, FoldStates, KnownEvents, FaithfulFeed, Mirrors, TimesFrom;
    var start := StartRun([EXPECTING], HEALTHY);
    var looped := Loop(c, start, LATE).0;
    LateIsFaithful();
    LateLoop(c);
    ExpectingStart();
    RunDecidesEachOnce(c, [EXPECTING], HEALTHY, LATE, 0);
    Timeline.StartMirrors([EXPECTING], HEALTHY);
    LoopMirrors(HEALTHY, c, start, LATE);
    var p, ticks := looped.created[0], Closed(looped.created[0], looped);
    assert looped.ticks[0].t == LATE[0 - 0].observation.sample.t && looped.ticks[1].t == LATE[1 - 0].observation.sample.t;
    assert looped.ticks[1].states == LATE[1 - 0].observation.sample.health;
    LateReading(p, ticks);
  }

  lemma LateReading(p: Watch, ticks: seq<Tick>)
    requires p.requestedAt == 1.0 && p.deadline == 2.0 && p.expectation == Expectation(NavigationGnss, Unavailable, 1.0)
    requires |ticks| == 3 && ticks[0].t == 1.0 && ticks[1].t == 2.5 && ticks[2].t > 2.0
    requires ticks[1].states == map[NavigationGnss := Unavailable]
    ensures Holds(p, ticks) && !HoldsInTime(p, ticks)
  {
    assert ticks[..1] == [ticks[0]];
    assert InWindow(p, ticks, 1) && SeenAt(p, ticks, 1) == Unavailable;
  }
}
