/** Agreement between what the engine tracks live and what the analysis reads from the log: open
    faults, fault durations, and the order of the log itself. */
module EnginePairing {
  import opened Options
  import opened States
  import opened RunStates
  import opened Rounding
  import opened RunLog
  import opened EngineModel
  import opened EngineClock
  import opened RecoveryAnalysis

  /** A closed fault: the log carries the rounded start and end, and the recovery event is
      stamped with the rounded raw difference. */
  ghost predicate Stamped(pair: (RunEvent, RunEvent), start: real, end: real) {
    && start <= end
    && OpensFault(pair.0) && pair.0.time == Round3(start)
    && pair.1.kind == Recovery && pair.1.subsystem == pair.0.subsystem && pair.1.time == Round3(end)
    && pair.1.details.RecoveryDetails? && pair.1.details.faultDuration == Some(Round3(end - start))
  }

  /** The pair carries the stamp of the observations that opened and closed the fault. */
  ghost predicate HasStamp(pair: (RunEvent, RunEvent), clock: Clock) {
    Stamped(pair, clock.At(pair.0.sequence), clock.At(pair.1.sequence))
  }

  /** The replay agrees with the live bookkeeping: same open faults, opened by the observations the engine says. */
  ghost predicate SameFaults(r: Replay, since: map<Id, real>, clock: Clock) {
    && r.open.Keys == since.Keys
    && (forall s :: s in r.open ==>
          && OpensFault(r.open[s]) && r.open[s].subsystem == Some(s)
          && since[s] == clock.At(r.open[s].sequence) && r.open[s].time == Round3(since[s]))
    && (forall k :: 0 <= k < |r.closed| ==> HasStamp(r.closed[k], clock))
  }

  /** Every event of the replay is among the first `n` entries. */
  ghost predicate Below(r: Replay, n: nat) {
    && (forall s :: s in r.open ==> r.open[s].sequence < n)
    && (forall k :: 0 <= k < |r.closed| ==> r.closed[k].0.sequence < n && r.closed[k].1.sequence < n)
  }

  /** Faults opened in the past, and every impaired component has one open. */
  ghost predicate FaultsTracked(states: Health, since: map<Id, real>, t: real) {
    && (forall s :: s in since ==> since[s] <= t)
    && (forall s :: s in states && !states[s].IsHealthy() && !states[s].Unknown? ==> s in since)
  }

  /** Every recovery event stamped with a duration closes a fault of the replay, in the same order. */
  function StampedRecoveries(log: seq<RunEvent>): seq<RunEvent> {
    if log == [] then []
    else
      var last := log[|log| - 1];
      var rest := StampedRecoveries(log[..|log| - 1]);
      if last.kind == Recovery && last.details.RecoveryDetails? && last.details.faultDuration.Some?
      then rest + [last] else rest
  }

  ghost predicate StampsMatch(stamps: seq<RunEvent>, closed: seq<(RunEvent, RunEvent)>) {
    |stamps| == |closed| && forall k :: 0 <= k < |stamps| ==> stamps[k] == closed[k].1
  }

  ghost predicate Agrees(e: EngineState) {
    && SameFaults(Replayed(e.log), e.faultOpenSince, ClockOf(e))
    && FaultsTracked(e.states, e.faultOpenSince, e.lastT)
    && StampsMatch(StampedRecoveries(e.log), Replayed(e.log).closed)
    && Below(Replayed(e.log), |e.log|) && TicksWithin(e.ticks, |e.log|)
  }

  /** Between ticks, moreover, every fault of the replay was opened and closed by a finished tick. */
  ghost predicate Settled(e: EngineState) {
    Agrees(e) && Below(Replayed(e.log), ClockOf(e).Logged())
  }

  /** A step that leaves components alone and logs neither effects nor recoveries. */
  lemma QuietKeepsAgreement(e: EngineState, r: EngineState, kinds: set<EventKind>, t: real)
    requires Agrees(e) && Appended(e.log, r.log, kinds, t) && r.lastT == e.lastT && r.ticks == e.ticks
    requires ObservedEffect !in kinds && Recovery !in kinds
    requires r.states == e.states && r.faultOpenSince == e.faultOpenSince
    ensures Agrees(r) && (Settled(e) ==> Settled(r))
  {
    ReplayIgnores(e.log, r.log, kinds, t);
    StampsIgnore(e.log, r.log, kinds, t);
    hide SameFaults;
  }

  /** The next observation begins. */
  lemma NextBegins(e: EngineState, t: real)
    requires Settled(e) && e.lastT <= t
    ensures Settled(e.(lastT := t))
  {
    var r, clock := Replayed(e.log), ClockOf(e);
    forall i: nat | i < clock.Logged()
      ensures Clock(e.ticks, t).At(i) == clock.At(i)
    {
      SettledAt(clock, t, i);
    }
    hide Replayed, StampedRecoveries, OpensFault, Round3;
  }

  /** An observation ends. */
  lemma TickEnds(e: EngineState, r: EngineState, states: Health)
    requires Agrees(e) && r.log == e.log && r.states == e.states && r.faultOpenSince == e.faultOpenSince && r.lastT == e.lastT
    requires r.ticks == e.ticks + [Tick(e.lastT, states, |e.log|)]
    ensures Settled(r)
  {
    var clock := ClockOf(e);
    forall i: nat
      ensures ClockOf(r).At(i) == clock.At(i)
    {
      TickDone(clock, Tick(e.lastT, states, |e.log|), i);
    }
    hide Replayed, StampedRecoveries, OpensFault, Round3;
  }

  lemma {:induction false} StampsIgnore(before: seq<RunEvent>, after: seq<RunEvent>, kinds: set<EventKind>, t: real)
    requires Appended(before, after, kinds, t) && Recovery !in kinds
    ensures StampedRecoveries(after) == StampedRecoveries(before)
    decreases |after|
  {
    if |after| > |before| {
      StampsIgnore(before, after[..|after| - 1], kinds, t);
    } else {
      assert after == before;
    }
  }

  /** What one logged change does to the replay and to the stamps. */
  lemma LoggedChange(log: seq<RunEvent>, event: RunEvent)
    ensures Replayed(log + [event]) == ReplayStep(Replayed(log), event)
    ensures event.kind != Recovery ==> StampedRecoveries(log + [event]) == StampedRecoveries(log)
    ensures event.kind == Recovery && event.details.RecoveryDetails? ==>
              StampedRecoveries(log + [event])
              == if event.details.faultDuration.Some? then StampedRecoveries(log) + [event] else StampedRecoveries(log)
  {
    ReplayAppend(log, event);
    assert (log + [event])[..|log|] == log;
  }

  /** One logged change moves the live map and the replay together. */
  lemma FaultsMoveTogether(log: seq<RunEvent>, open: map<Id, real>, clock: Clock, s: Id, before: ComponentState, after: ComponentState,
                           cause: Option<EventId>, direct: bool)
    requires SameFaults(Replayed(log), open, clock) && StampsMatch(StampedRecoveries(log), Replayed(log).closed)
    requires clock.At(|log|) == clock.now && Below(Replayed(log), |log|)
    requires s in open ==> open[s] <= clock.now
    requires !before.IsHealthy() && !before.Unknown? ==> s in open
    ensures var longer := log + [ChangeEvent(log, clock.now, s, before, after, cause, direct, open)];
            SameFaults(Replayed(longer), NextFaults(open, s, before, after, clock.now), clock)
            && StampsMatch(StampedRecoveries(longer), Replayed(longer).closed) && Below(Replayed(longer), |longer|)
  {
    hide Replayed, StampedRecoveries, RoundEven, Clock.At, SameFaults;
    var event := ChangeEvent(log, clock.now, s, before, after, cause, direct, open);
    LoggedChange(log, event);
    StepStaysBelow(Replayed(log), event, |log|);
    StepAgrees(Replayed(log), open, clock, event, s, before, after, cause, direct, log);
    SameKeys(Replayed(log), open, clock);
    hide Below, NewEvent;
  }

  lemma SameKeys(r: Replay, since: map<Id, real>, clock: Clock)
    requires SameFaults(r, since, clock)
    ensures r.open.Keys == since.Keys
  {
  }

  /** The replay of one change keeps step with the live map. */
  lemma StepAgrees(r: Replay, open: map<Id, real>, clock: Clock, event: RunEvent, s: Id, before: ComponentState, after: ComponentState,
                   cause: Option<EventId>, direct: bool, log: seq<RunEvent>)
    requires event == ChangeEvent(log, clock.now, s, before, after, cause, direct, open)
    requires SameFaults(r, open, clock) && clock.At(|log|) == clock.now
    requires s in open ==> open[s] <= clock.now
    requires !before.IsHealthy() && !before.Unknown? ==> s in open
    ensures SameFaults(ReplayStep(r, event), NextFaults(open, s, before, after, clock.now), clock)
  {
    hide RoundEven, Clock.At, HasStamp;
    if KindOf(before, after) == Recovery && s in open {
      StampedNow(r.open[s], event, open[s], clock);
    }
  }

  lemma StepStaysBelow(r: Replay, event: RunEvent, n: nat)
    requires Below(r, n) && event.sequence == n
    ensures Below(ReplayStep(r, event), n + 1)
  {
  }

  lemma StampedNow(fault: RunEvent, event: RunEvent, start: real, clock: Clock)
    requires Stamped((fault, event), start, clock.now)
    requires start == clock.At(fault.sequence) && clock.At(event.sequence) == clock.now
    ensures HasStamp((fault, event), clock)
  {
  }

  /** One observed change keeps the agreement. */
  lemma ChangeKeepsAgreement(c: Config, e: EngineState, change: StateChange)
    requires Agrees(e)
    ensures Agrees(ApplyChange(c, e, change, e.lastT))
  {
    hide CauseOf, IsDirect, RetireOn, SameFaults, StampsMatch, ChangeEvent, Replayed, StampedRecoveries, Below;
    UnderWay(ClockOf(e), |e.log|);
    var s, t := change.subsystem, e.lastT;
    var before, after := Observed(e.states, s), change.after;
    var cause := CauseOf(c, e, change);
    FaultsMoveTogether(e.log, e.faultOpenSince, ClockOf(e), s, before, after, cause, IsDirect(e.active, cause, s));
  }

  lemma {:induction false} ChangesKeepAgreement(c: Config, e: EngineState, changes: seq<StateChange>)
    requires Agrees(e)
    ensures Agrees(ApplyChanges(c, e, changes, e.lastT))
    decreases |changes|
  {
    if changes != [] {
      ChangeKeepsAgreement(c, e, changes[0]);
      ChangesKeepAgreement(c, ApplyChange(c, e, changes[0], e.lastT), changes[1..]);
    }
  }

  lemma ObservationKeepsAgreement(c: Config, e: EngineState, o: Observation)
    requires Agrees(e) && e.lastT == o.sample.t
    ensures Agrees(ProcessObservation(c, e, o))
  {
    hide ApplyChanges, Respond, Progress, SameFaults, StampsMatch, FaultsTracked;
    var t := o.sample.t;
    ChangesKeepAgreement(c, e, o.changes);
    var changed := ApplyChanges(c, e, o.changes, t);
    var responded := Respond(changed, o.responses, t);
    QuietKeepsAgreement(changed, responded, {SystemResponded}, t);
    var progressed := Progress(responded, o.missionEvents, t);
    QuietKeepsAgreement(responded, progressed, {MissionProgress}, t);
    var followed := FollowRecovery(progressed);
    assert followed == progressed.(runState := followed.runState, lifecycle := followed.lifecycle);
  }

  /** Processing one observation at a time no earlier than the last keeps the agreement. */
  lemma TickKeepsAgreement(c: Config, e: EngineState, o: Observation)
    requires Settled(e) && e.lastT <= o.sample.t
    ensures Settled(ProcessTick(c, e, o))
  {
    var t := o.sample.t;
    var late := e.(lastT := t);
    NextBegins(e, t);
    hide Agrees;
    var scheduled := ProcessScheduled(c, late, t);
    QuietKeepsAgreement(late, scheduled, SCHEDULING, t);
    ObservationKeepsAgreement(c, scheduled, o);
    var observed := ProcessObservation(c, scheduled, o);
    var judged := ProcessExpectations(observed, t);
    QuietKeepsAgreement(observed, judged, {ExpectationResult}, t);
    TickEnds(judged, ProcessTick(c, e, o), observed.states);
  }

  lemma EmitKeepsAgreement(e: EngineState, kind: EventKind)
    requires Settled(e) && kind != ObservedEffect && kind != Recovery
    ensures Settled(Emit(e, e.lastT, kind, None, None, None, None, NoDetails))
  {
    QuietKeepsAgreement(e, Emit(e, e.lastT, kind, None, None, None, None, NoDetails), {kind}, e.lastT);
  }

  lemma {:induction false} LoopKeepsAgreement(c: Config, e: EngineState, feed: seq<Input>)
    requires Settled(e) && TimesFrom(feed, e.lastT)
    ensures Settled(Loop(c, e, feed).0)
    decreases |feed|
  {
    hide Settled, ProcessTick;
    if feed != [] {
      TimesAfter(feed, e.lastT);
      var o := feed[0].observation;
      NextBegins(e, o.sample.t);
      if feed[0].cancelled {
        EmitKeepsAgreement(e.(lastT := o.sample.t), LifecycleEvent);
      } else {
        TickKeepsAgreement(c, e, o);
        EmitKeepsAgreement(ProcessTick(c, e, o), MissionProgress);
        LoopKeepsAgreement(c, ProcessTick(c, e, o), feed[1..]);
      }
    }
  }

  lemma CloseKeepsAgreement(e: EngineState, exit: Exit, raises: bool)
    requires Settled(e)
    ensures Settled(Close(e, exit, raises).0)
  {
    hide Replayed, StampedRecoveries, RoundEven, SameFaults, StampsMatch, FaultsTracked, Below, TicksWithin;
    if exit == Exhausted && raises {
      EmitKeepsAgreement(e, LifecycleEvent);
    } else {
      var flushed := FlushExpectations(e, e.lastT);
      QuietKeepsAgreement(e, flushed, {ExpectationResult}, e.lastT);
      QuietKeepsAgreement(flushed, Conclude(e), {InjectionCleared}, e.lastT);
    }
  }

  /** The precondition of the pairing: no component starts out impaired or down. */
  ghost predicate StartsHealthyOrUnknown(states: Health) {
    forall s :: s in states ==> states[s].IsHealthy() || states[s].Unknown?
  }

  lemma NothingLogged(e: EngineState)
    requires e.log == [] && e.ticks == [] && e.faultOpenSince == map[] && StartsHealthyOrUnknown(e.states)
    ensures Settled(e)
  {
    assert Replayed([]) == Replay(map[], []) && StampedRecoveries([]) == [];
  }

  lemma StartAgrees(events: seq<ScenarioEvent>, states: Health)
    requires StartsHealthyOrUnknown(states)
    ensures Settled(StartRun(events, states)) && StartRun(events, states).lastT == 0.0
  {
    hide Settled, StartsHealthyOrUnknown;
    var ready := SetRunState(SetRunState(Initial(events), Preparing).(states := states), Running);
    NothingLogged(ready);
    EmitKeepsAgreement(ready, MissionProgress);
  }

  /** Main result. For every scenario, every adapter and every feed of observations whose times do
      not decrease, the finished log replays to exactly the faults the engine holds open, opened by the
      observations whose times it remembers, and every closed fault carries the stamp of the observations
      that opened and closed it. */
  lemma RunAgrees(c: Config, events: seq<ScenarioEvent>, setup: Setup, feed: seq<Input>, raises: bool)
    requires setup.Prepared? ==> StartsHealthyOrUnknown(setup.states)
    requires TimesFrom(feed, 0.0)
    ensures Settled(Run(c, events, setup, feed, raises).0)
  {
    hide Loop, Close, StartRun, Settled, Abandon;
    if setup.Prepared? {
      var start := StartRun(events, setup.states);
      var (looped, exit) := Loop(c, start, feed);
      StartAgrees(events, setup.states);
      LoopKeepsAgreement(c, start, feed);
      CloseKeepsAgreement(looped, exit, raises);
    } else {
      AbandonAgrees(events, setup);
    }
  }

  lemma AbandonAgrees(events: seq<ScenarioEvent>, setup: Setup)
    requires !setup.Prepared?
    ensures Settled(Abandon(events, setup).0)
  {
    hide Settled, StartsHealthyOrUnknown;
    var ready := SetRunState(Initial(events), Preparing);
    NothingUnhealthy();
    NothingLogged(ready);
    EmitKeepsAgreement(ready, if setup.Unsupported? then InjectionRejected else LifecycleEvent);
    LastStateKept(Emit(ready, 0.0, if setup.Unsupported? then InjectionRejected else LifecycleEvent, None, None, None, None, NoDetails));
  }

  lemma NothingUnhealthy()
    ensures StartsHealthyOrUnknown(map[])
  {
  }

  lemma LastStateKept(e: EngineState)
    requires Settled(e)
    ensures Settled(SetRunState(e, Collecting))
  {
    hide SameFaults, FaultsTracked, StampsMatch, Below, TicksWithin;
  }

  /** From position `from` on, the ticks have the times of the observations. */
  ghost predicate TicksOfFeed(ticks: seq<Tick>, from: nat, feed: seq<Input>) {
    from <= |ticks| <= from + |feed| && forall k :: from <= k < |ticks| ==> ticks[k].t == feed[k - from].observation.sample.t
  }

  lemma {:induction false} LoopTicks(c: Config, e: EngineState, feed: seq<Input>)
    ensures e.ticks <= Loop(c, e, feed).0.ticks && TicksOfFeed(Loop(c, e, feed).0.ticks, |e.ticks|, feed)
    decreases |feed|
  {
    hide ProcessTick, TicksOfFeed;
    if feed == [] || feed[0].cancelled {
      NoTicks(e.ticks, feed);
    } else {
      var next := ProcessTick(c, e, feed[0].observation);
      TickTime(c, e, feed[0].observation);
      LoopTicks(c, next, feed[1..]);
      NoTicks(next.ticks, feed[1..]);
      OneTick(Loop(c, e, feed).0.ticks, e.ticks, next.ticks, feed);
    }
  }

  lemma NoTicks(ticks: seq<Tick>, feed: seq<Input>)
    ensures TicksOfFeed(ticks, |ticks|, feed)
  {
  }

  lemma OneTick(ticks: seq<Tick>, before: seq<Tick>, next: seq<Tick>, feed: seq<Input>)
    requires feed != [] && next <= ticks && |next| == |before| + 1 && next[..|before|] == before
    requires next[|before|].t == feed[0].observation.sample.t && TicksOfFeed(ticks, |next|, feed[1..])
    ensures before <= ticks && TicksOfFeed(ticks, |before|, feed)
  {
    forall k | |before| <= k < |ticks|
      ensures ticks[k].t == feed[k - |before|].observation.sample.t
    {
      if k > |before| {
        assert feed[1..][k - |next|] == feed[k - |before|];
      }
    }
  }

  lemma TickTime(c: Config, e: EngineState, o: Observation)
    ensures var next := ProcessTick(c, e, o);
            |next.ticks| == |e.ticks| + 1 && next.ticks[..|e.ticks|] == e.ticks && next.ticks[|e.ticks|].t == o.sample.t
  {
    hide ProcessScheduled, ProcessObservation, JudgeEach, BufferSample;
  }

  lemma RunTicks(c: Config, events: seq<ScenarioEvent>, setup: Setup, feed: seq<Input>, raises: bool)
    ensures TicksOfFeed(Run(c, events, setup, feed, raises).0.ticks, 0, feed)
  {
    hide Loop, FlushEach, ClearEach;
    if setup.Prepared? {
      LoopTicks(c, StartRun(events, setup.states), feed);
    } else {
      NoTicks([], feed);
    }
  }

  // ---- Inside a tick

  /** The engine after its first `k` observations. */
  function After(c: Config, e: EngineState, feed: seq<Input>, k: nat): EngineState
    requires k <= |feed|
    decreases k
  {
    if k == 0 then e else ProcessTick(c, After(c, e, feed, k - 1), feed[k - 1].observation)
  }

  /** The engine in the middle of observation `k`, with `j` of its changes applied. */
  function Within(c: Config, e: EngineState, feed: seq<Input>, k: nat, j: nat): EngineState
    requires k < |feed| && j <= |feed[k].observation.changes|
  {
    var t := feed[k].observation.sample.t;
    ApplyChanges(c, ProcessScheduled(c, After(c, e, feed, k).(lastT := t), t), feed[k].observation.changes[..j], t)
  }

  lemma {:induction false} AfterSettled(c: Config, e: EngineState, feed: seq<Input>, k: nat)
    requires Settled(e) && TimesFrom(feed, e.lastT) && k <= |feed|
    ensures Settled(After(c, e, feed, k))
    ensures After(c, e, feed, k).lastT == if k == 0 then e.lastT else feed[k - 1].observation.sample.t
    decreases k
  {
    hide Settled, ProcessTick;
    if k > 0 {
      AfterSettled(c, e, feed, k - 1);
      TickKeepsAgreement(c, After(c, e, feed, k - 1), feed[k - 1].observation);
      TickClock(c, After(c, e, feed, k - 1), feed[k - 1].observation);
    }
  }

  lemma TickClock(c: Config, e: EngineState, o: Observation)
    ensures ProcessTick(c, e, o).lastT == o.sample.t
  {
  }

  /** Not only between observations: after every single change of every observation the log written so far replays to
      the faults the engine holds open at that moment. */
  lemma RunAgreesWithin(c: Config, events: seq<ScenarioEvent>, states: Health, feed: seq<Input>, k: nat, j: nat)
    requires StartsHealthyOrUnknown(states) && TimesFrom(feed, 0.0)
    requires k < |feed| && j <= |feed[k].observation.changes|
    ensures Agrees(Within(c, StartRun(events, states), feed, k, j))
  {
    hide Agrees, After, StartRun, ApplyChanges, Settled;
    var start := StartRun(events, states);
    var before, o := After(c, start, feed, k), feed[k].observation;
    StartAgrees(events, states);
    AfterSettled(c, start, feed, k);
    NextBegins(before, o.sample.t);
    var late := before.(lastT := o.sample.t);
    SettledAgrees(late);
    var scheduled := ProcessScheduled(c, late, o.sample.t);
    QuietKeepsAgreement(late, scheduled, SCHEDULING, o.sample.t);
    ChangesKeepAgreement(c, scheduled, o.changes[..j]);
  }

  lemma SettledAgrees(e: EngineState)
    requires Settled(e)
    ensures Agrees(e)
  {
  }

  /** These moments lie on the way of the loop: what was logged by then begins its log. */
  lemma {:induction false} WithinIsPrefix(c: Config, e: EngineState, feed: seq<Input>, k: nat, j: nat)
    requires k < |feed| && j <= |feed[k].observation.changes| && |e.ticks| + k < |Loop(c, e, feed).0.ticks|
    ensures Within(c, e, feed, k, j).log <= Loop(c, e, feed).0.log
    decreases |feed|
  {
    hide ProcessTick, ProcessScheduled, ApplyChanges;
    var o := feed[0].observation;
    var next := ProcessTick(c, e, o);
    TickTime(c, e, o);
    LoopExtends(c, e, feed);
    if k == 0 {
      ChangesOfTick(c, e, o, j);
    } else {
      AfterShifts(c, e, feed, k);
      WithinIsPrefix(c, next, feed[1..], k - 1, j);
    }
  }

  lemma {:induction false} AfterShifts(c: Config, e: EngineState, feed: seq<Input>, k: nat)
    requires 0 < k <= |feed|
    ensures After(c, e, feed, k) == After(c, ProcessTick(c, e, feed[0].observation), feed[1..], k - 1)
    decreases k
  {
    hide ProcessTick;
    if k > 1 {
      AfterShifts(c, e, feed, k - 1);
    }
  }

  /** A processed first tick begins the log of the loop. */
  lemma LoopExtends(c: Config, e: EngineState, feed: seq<Input>)
    requires |Loop(c, e, feed).0.ticks| > |e.ticks|
    ensures feed != [] && !feed[0].cancelled
    ensures ProcessTick(c, e, feed[0].observation).log <= Loop(c, e, feed).0.log
  {
    hide ProcessTick;
    LoopGrows(c, ProcessTick(c, e, feed[0].observation), feed[1..]);
  }

  lemma {:induction false} LoopGrows(c: Config, e: EngineState, feed: seq<Input>)
    ensures e.log <= Loop(c, e, feed).0.log
    decreases |feed|
  {
    if feed != [] {
      TickAppends(c, e, feed[0].observation);
      hide ProcessTick;
      LoopGrows(c, ProcessTick(c, e, feed[0].observation), feed[1..]);
    }
  }

  lemma ChangesOfTick(c: Config, e: EngineState, o: Observation, j: nat)
    requires j <= |o.changes|
    ensures ApplyChanges(c, ProcessScheduled(c, e.(lastT := o.sample.t), o.sample.t), o.changes[..j], o.sample.t).log
         <= ProcessTick(c, e, o).log
  {
    hide ProcessScheduled, ApplyChanges, Respond, Progress, JudgeEach, AnyRecovering;
    var t := o.sample.t;
    var scheduled := ProcessScheduled(c, e.(lastT := t), t);
    ApplyInTwo(c, scheduled, o.changes, j, t);
    var changed := ApplyChanges(c, scheduled, o.changes, t);
    var told := Progress(Respond(changed, o.responses, t), o.missionEvents, t);
    var observed := ProcessObservation(c, scheduled, o);
    assert observed.log == told.log;
  }

  lemma {:induction false} ApplyInTwo(c: Config, e: EngineState, changes: seq<StateChange>, j: nat, t: real)
    requires j <= |changes|
    ensures ApplyChanges(c, e, changes, t) == ApplyChanges(c, ApplyChanges(c, e, changes[..j], t), changes[j..], t)
    decreases |changes|
  {
    hide ApplyChange;
    if j == 0 {
      assert changes[0..] == changes;
    } else {
      ApplyInTwo(c, ApplyChange(c, e, changes[0], t), changes[1..], j - 1, t);
      assert changes[..j][1..] == changes[1..][..j - 1] && changes[1..][j - 1..] == changes[j..];
    }
  }

  // ---- The order of the log

  const ALL_KINDS := {InjectionRequested, InjectionApplied, InjectionRejected, InjectionCleared, ObservedEffect, SystemResponded,
                      Recovery, ExpectationResult, MissionProgress, LifecycleEvent, LogEntry}

  lemma TickAppends(c: Config, e: EngineState, o: Observation)
    ensures Appended(e.log, ProcessTick(c, e, o).log, ALL_KINDS, o.sample.t)
  {
    hide ApplyChanges, Respond, Progress, ProcessScheduled, JudgeEach, Appended, AnyRecovering;
    var t := o.sample.t;
    var scheduled := ProcessScheduled(c, e.(lastT := t), t);
    var changed := ApplyChanges(c, scheduled, o.changes, t);
    var responded := Respond(changed, o.responses, t);
    var progressed := Progress(responded, o.missionEvents, t);
    var observed := ProcessObservation(c, scheduled, o);
    AppendedTwice(e.log, scheduled.log, changed.log, SCHEDULING, CHANGES, ALL_KINDS, t);
    AppendedTwice(e.log, changed.log, responded.log, ALL_KINDS, {SystemResponded}, ALL_KINDS, t);
    AppendedTwice(e.log, responded.log, progressed.log, ALL_KINDS, {MissionProgress}, ALL_KINDS, t);
    AppendedTwice(e.log, progressed.log, ProcessExpectations(observed, t).log, ALL_KINDS, {ExpectationResult}, ALL_KINDS, t);
  }

  lemma {:induction false} LoopInOrder(c: Config, e: EngineState, feed: seq<Input>)
    requires InOrder(e.log, e.lastT) && TimesFrom(feed, e.lastT)
    ensures InOrder(Loop(c, e, feed).0.log, Loop(c, e, feed).0.lastT)
    decreases |feed|
  {
    hide ProcessTick, InOrder, Appended;
    if feed != [] {
      TimesAfter(feed, e.lastT);
      var o := feed[0].observation;
      var t := o.sample.t;
      var late, next := e.(lastT := t), ProcessTick(c, e, o);
      TickAppends(c, e, o);
      AppendKeepsOrder(e.log, next.log, ALL_KINDS, e.lastT, t);
      AppendKeepsOrder(next.log, Emit(next, t, MissionProgress, None, None, None, None, NoDetails).log, {MissionProgress}, t, t);
      AppendKeepsOrder(e.log, Emit(late, t, LifecycleEvent, None, None, None, None, NoDetails).log, {LifecycleEvent}, e.lastT, t);
      LoopInOrder(c, next, feed[1..]);
    }
  }

  /** For every feed with non-decreasing times, the log is numbered by position and in time order,
      so sorting it by time and sequence, as the analysis does, changes nothing. */
  lemma RunInOrder(c: Config, events: seq<ScenarioEvent>, setup: Setup, feed: seq<Input>, raises: bool)
    requires TimesFrom(feed, 0.0)
    ensures InOrder(Run(c, events, setup, feed, raises).0.log, Run(c, events, setup, feed, raises).0.lastT)
  {
    hide Loop, Close, StartRun, InOrder;
    if setup.Prepared? {
      var start := StartRun(events, setup.states);
      var (looped, exit) := Loop(c, start, feed);
      StartInOrder(events, setup.states);
      LoopInOrder(c, start, feed);
      CloseInOrder(looped, exit, raises);
    } else {
      AbandonInOrder(events, setup);
    }
  }

  lemma StartInOrder(events: seq<ScenarioEvent>, states: Health)
    ensures StartRun(events, states).lastT == 0.0 && InOrder(StartRun(events, states).log, 0.0)
  {
  }

  lemma AbandonInOrder(events: seq<ScenarioEvent>, setup: Setup)
    requires !setup.Prepared?
    ensures InOrder(Abandon(events, setup).0.log, Abandon(events, setup).0.lastT)
  {
  }

  lemma CloseInOrder(e: EngineState, exit: Exit, raises: bool)
    requires InOrder(e.log, e.lastT)
    ensures InOrder(Close(e, exit, raises).0.log, Close(e, exit, raises).0.lastT)
  {
    hide InOrder, Appended;
    var t := e.lastT;
    var flushed := FlushExpectations(e, t);
    AppendKeepsOrder(e.log, Emit(e, t, LifecycleEvent, None, None, None, None, NoDetails).log, {LifecycleEvent}, t, t);
    AppendKeepsOrder(e.log, flushed.log, {ExpectationResult}, t, t);
    AppendKeepsOrder(flushed.log, ClearAll(flushed, t).log, {InjectionCleared}, t, t);
  }

  /** The duration the analysis derives for a closed fault differs from the stamp by at most one
      millisecond, and equals it exactly when the two rounding shifts agree. */
  lemma RecordMatchesStamp(pair: (RunEvent, RunEvent), start: real, end: real)
    requires Stamped(pair, start, end)
    ensures var derived := Round3(pair.1.time - pair.0.time);
            var stamp := pair.1.details.faultDuration.value;
            (derived == stamp <==> ShiftsAgree(start, end)) && -0.001 <= derived - stamp <= 0.001
  {
    RoundedDifference(start, end);
  }

  // ---- The numbering of the log, whatever the clock does

  lemma {:induction false} LoopNumbers(c: Config, e: EngineState, feed: seq<Input>)
    requires Numbered(e.log)
    ensures Numbered(Loop(c, e, feed).0.log)
    decreases |feed|
  {
    hide ProcessTick, Numbered, Appended;
    if feed != [] {
      var o := feed[0].observation;
      var t := o.sample.t;
      var next := ProcessTick(c, e, o);
      TickAppends(c, e, o);
      AppendNumbers(e.log, next.log, ALL_KINDS, t);
      AppendNumbers(next.log, Emit(next, t, MissionProgress, None, None, None, None, NoDetails).log, {MissionProgress}, t);
      AppendNumbers(e.log, Emit(e.(lastT := t), t, LifecycleEvent, None, None, None, None, NoDetails).log, {LifecycleEvent}, t);
      LoopNumbers(c, next, feed[1..]);
    }
  }

  lemma CloseNumbers(e: EngineState, exit: Exit, raises: bool)
    requires Numbered(e.log)
    ensures Numbered(Close(e, exit, raises).0.log)
  {
    hide Numbered, Appended, FlushEach, ClearEach;
    var t := e.lastT;
    var flushed := FlushExpectations(e, t);
    AppendNumbers(e.log, Emit(e, t, LifecycleEvent, None, None, None, None, NoDetails).log, {LifecycleEvent}, t);
    AppendNumbers(e.log, flushed.log, {ExpectationResult}, t);
    AppendNumbers(flushed.log, ClearAll(flushed, t).log, {InjectionCleared}, t);
  }

  /** For every feed, also one whose clock goes back, the entries are numbered by position. */
  lemma RunNumbers(c: Config, events: seq<ScenarioEvent>, setup: Setup, feed: seq<Input>, raises: bool)
    ensures Numbered(Run(c, events, setup, feed, raises).0.log)
  {
    hide Loop, Close, StartRun;
    if setup.Prepared? {
      var start := StartRun(events, setup.states);
      StartInOrder(events, setup.states);
      LoopNumbers(c, start, feed);
      var (looped, exit) := Loop(c, start, feed);
      CloseNumbers(looped, exit, raises);
    } else {
      AbandonInOrder(events, setup);
    }
  }
}
