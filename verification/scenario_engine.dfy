/** The scenario engine, updating its fields step by step. Every method is proved to perform the
    corresponding step of `EngineModel`. */
module Engine {
  import opened Options
  import opened States
  import opened RunStates
  import opened Rounding
  import opened RunLog
  import opened HeapQueue
  import M = EngineModel

  class ScenarioEngine {
    const config: M.Config

    var states: Health
    var faultOpenSince: map<Id, real>
    var active: seq<InjectionRequest>
    var clears: seq<Entry<InjectionRequest>>
    var pendingEvents: seq<M.ScenarioEvent>
    var expectations: seq<M.Watch>
    var runState: RunState
    var batch: seq<Sample>
    var batchStartedAt: Option<real>
    var lastT: real
    var sequence: nat
    // What left the engine: calls to the adapter, and messages to the sink.
    var calls: seq<M.AdapterCall>
    var lifecycle: seq<RunState>
    var telemetry: seq<seq<Sample>>
    var log: seq<RunEvent>
    var created: seq<M.Watch>
    ghost var ticks: seq<M.Tick>
    ghost var retired: seq<InjectionRequest>

    ghost predicate Valid()
      reads this
    {
      sequence == |log|
    }

    ghost function Model(): M.EngineState
      reads this
    {
      M.EngineState(states, faultOpenSince, active, clears, pendingEvents, calls, expectations, created, runState,
                    lifecycle, batch, batchStartedAt, telemetry, lastT, log, ticks, retired)
    }

    constructor (config: M.Config, events: seq<M.ScenarioEvent>)
      ensures Valid() && this.config == config
      ensures Model() == M.Initial(events)
    {
      this.config := config;
      states, faultOpenSince, active, clears, pendingEvents := map[], map[], [], [], events;
      expectations, runState, batch, batchStartedAt, lastT, sequence := [], Queued, [], None, 0.0, 0;
      calls, lifecycle, telemetry, log, created, ticks, retired := [], [], [], [], [], [], [];
    }

    method Emit(t: real, kind: EventKind, subsystem: Option<Id>, before: Option<ComponentState>, after: Option<ComponentState>,
                eventId: Option<EventId>, details: Details)
      requires Valid()
      modifies this`log, this`sequence
      ensures Valid() && log == old(log) + [M.NewEvent(old(log), t, kind, subsystem, before, after, eventId, details)]
      ensures Model() == M.Emit(old(Model()), t, kind, subsystem, before, after, eventId, details)
    {
      log := log + [RunEvent(sequence, Round3(t), kind, subsystem, before, after, eventId, details)];
      sequence := sequence + 1;
    }

    method SetRunState(state: RunState)
      requires Valid()
      modifies this`runState, this`lifecycle
      ensures Valid() && Model() == M.SetRunState(old(Model()), state)
    {
      if state == runState {
        return;
      }
      runState := state;
      lifecycle := lifecycle + [state];
    }

    // ---- Scheduling

    /** Put the expectations of an applied injection under watch. */
    method AddWatches(event: M.ScenarioEvent, t: real)
      modifies this`expectations, this`created
      ensures expectations == old(expectations) + M.Watches(event, t, |old(created)|)
      ensures created == old(created) + M.Watches(event, t, |old(created)|)
    {
      var watches := [];
      for k := 0 to |event.expectations|
        invariant watches == M.Watches(event, t, |created|)[..k]
      {
        var expectation := event.expectations[k];
        watches := watches + [M.Watch(|created| + k, event.id, expectation, t + expectation.within, t, false)];
      }
      expectations := expectations + watches;
      created := created + watches;
    }

    method Inject(event: M.ScenarioEvent, t: real)
      requires Valid()
      modifies this
      ensures Valid() && Model() == M.Inject(config, old(Model()), event, t)
    {
      hide M.Put, Push, M.Watches, Round3;
      var request := InjectionRequest(event.id, event.subsystem, event.effect, event.duration, event.parameters);
      var applied := config.applies(sequence);
      Emit(t, InjectionRequested, Some(event.subsystem), None, None, Some(event.id), RequestDetails(event.effect));
      calls := calls + [M.InjectCall(request)];
      if applied {
        Accept(event, request, t);
      } else {
        Emit(t, InjectionRejected, Some(event.subsystem), None, None, Some(event.id), NoDetails);
      }
    }

    method Accept(event: M.ScenarioEvent, request: InjectionRequest, t: real)
      requires Valid()
      modifies this`active, this`clears, this`log, this`sequence, this`expectations, this`created
      ensures Valid()
      ensures active == M.Put(old(active), request)
      ensures clears == if request.duration.Some? then Push(old(clears), Entry(t + request.duration.value, request)) else old(clears)
      ensures log == old(log) + [M.NewEvent(old(log), t, InjectionApplied, Some(event.subsystem), None, None, Some(event.id), NoDetails)]
      ensures expectations == old(expectations) + M.Watches(event, t, |old(created)|)
      ensures created == old(created) + M.Watches(event, t, |old(created)|)
    {
      hide M.Put, Push, M.Watches, M.Emit, Model;
      Activate(request, t);
      Emit(t, InjectionApplied, Some(event.subsystem), None, None, Some(event.id), NoDetails);
      AddWatches(event, t);
    }

    /** Keep the applied injection, and schedule its clear when it is bounded. */
    method Activate(request: InjectionRequest, t: real)
      modifies this`active, this`clears
      ensures active == M.Put(old(active), request)
      ensures clears == if request.duration.Some? then Push(old(clears), Entry(t + request.duration.value, request)) else old(clears)
    {
      active := M.Put(active, request);
      if request.duration.Some? {
        clears := Push(clears, Entry(t + request.duration.value, request));
      }
    }

    method Clear(request: InjectionRequest, t: real, reason: ClearReason)
      requires Valid()
      modifies this
      ensures Valid() && Model() == M.Clear(old(Model()), request, t, reason)
    {
      if M.Find(active, request.eventId) == |active| {
        return;
      }
      calls := calls + [M.ClearCall(request.eventId)];
      active := M.Remove(active, request.eventId);
      Emit(t, InjectionCleared, Some(request.subsystem), None, None, Some(request.eventId), ClearDetails(reason));
    }

    method ProcessScheduled(t: real)
      requires Valid()
      modifies this
      ensures Valid() && Model() == M.ProcessScheduled(config, old(Model()), t)
    {
      hide M.Inject, M.Clear, Pop;
      while pendingEvents != [] && pendingEvents[0].at <= t
        invariant Valid() && M.InjectDue(config, Model(), t) == M.InjectDue(config, old(Model()), t)
        decreases |pendingEvents|
      {
        ghost var before := Model();
        var event := pendingEvents[0];
        pendingEvents := pendingEvents[1..];
        Inject(event, t);
        M.InjectLeavesPending(config, before.(pending := before.pending[1..]), event, t);
      }
      while clears != [] && clears[0].at <= t
        invariant Valid() && M.ClearDue(Model(), t) == M.ClearDue(M.InjectDue(config, old(Model()), t), t)
        decreases |clears|
      {
        var scheduled := clears[0];
        clears := Pop(clears);
        Clear(scheduled.item, t, DurationElapsed);
      }
    }

    method ClearAll(t: real, reason: ClearReason)
      requires Valid() && reason == ScenarioEnd
      modifies this
      ensures Valid() && Model() == M.ClearAll(old(Model()), t)
    {
      hide M.Clear, M.Remove;
      var snapshot := active;
      for k := 0 to |snapshot|
        invariant Valid() && M.ClearEach(Model(), snapshot[k..], t) == M.ClearEach(old(Model()), snapshot, t)
      {
        var request := snapshot[k];
        assert snapshot[k..][0] == request && snapshot[k..][1..] == snapshot[k + 1..];
        if request.duration.None? && !request.effect.IsTransient() {
          Clear(request, t, reason);
        } else if request.effect.IsTransient() {
          active := M.Remove(active, request.eventId);
          retired := retired + [request];
        }
      }
      clears := [];
    }

    // ---- Observations

    /** The two loops of the attribution: a direct target first, then an upstream provider. */
    method AttributeCause(subsystem: Id) returns (cause: Option<EventId>)
      ensures cause == M.AttributeCause(config.topology, active, subsystem)
    {
      hide M.FirstOn;
      var held := active;
      assert held[0..] == held && held[|held|..] == [];
      for k := 0 to |held|
        invariant M.FirstOn(held, {subsystem}) == M.FirstOn(held[k..], {subsystem})
      {
        M.FirstFrom(held, k, {subsystem});
        if held[k].subsystem == subsystem {
          return Some(held[k].eventId);
        }
      }
      M.FirstOfNone({subsystem});
      var upstream := set x | x in config.topology.Upstream(subsystem);
      for k := 0 to |held|
        invariant M.FirstOn(held, upstream) == M.FirstOn(held[k..], upstream)
      {
        M.FirstFrom(held, k, upstream);
        if held[k].subsystem in upstream {
          return Some(held[k].eventId);
        }
      }
      M.FirstOfNone(upstream);
      return None;
    }

    /** A component that came back retires the transient injections on it. */
    method RetireTransients(subsystem: Id)
      modifies this`active, this`retired
      ensures active == M.RetireOn(old(active), subsystem)
      ensures retired == old(retired) + M.RetiredOn(old(active), subsystem)
    {
      hide M.RetireOn, M.RetiredOn;
      var held := active;
      var kept := [];
      ghost var gone := [];
      assert held[0..] == held;
      for k := 0 to |held|
        invariant retired == old(retired)
        invariant M.RetireOn(held, subsystem) == kept + M.RetireOn(held[k..], subsystem)
        invariant M.RetiredOn(held, subsystem) == gone + M.RetiredOn(held[k..], subsystem)
      {
        M.RetireFrom(held, k, subsystem);
        if !(held[k].subsystem == subsystem && held[k].effect.IsTransient()) {
          kept := kept + [held[k]];
        } else {
          gone := gone + [held[k]];
        }
      }
      assert held[|held|..] == [];
      M.NothingRetires(subsystem);
      active := kept;
      retired := retired + gone;
    }

    method Recover(s: Id, before: ComponentState, after: ComponentState, cause: Option<EventId>, direct: bool, t: real)
      requires Valid() && after.IsHealthy() && !before.IsHealthy()
      modifies this`faultOpenSince, this`active, this`retired, this`log, this`sequence
      ensures Valid() && active == M.RetireOn(old(active), s) && retired == old(retired) + M.RetiredOn(old(active), s)
      ensures faultOpenSince == M.NextFaults(old(faultOpenSince), s, before, after, t)
      ensures log == old(log) + [M.ChangeEvent(old(log), t, s, before, after, cause, direct, old(faultOpenSince))]
    {
      hide M.RetireOn, M.RetiredOn, M.NextFaults, M.ChangeEvent;
      RetireTransients(s);
      EndFault(s, before, after, cause, direct, t);
    }

    /** The fault is closed and the recovery stamped with its duration. */
    method EndFault(s: Id, before: ComponentState, after: ComponentState, cause: Option<EventId>, direct: bool, t: real)
      requires Valid() && after.IsHealthy() && !before.IsHealthy()
      modifies this`faultOpenSince, this`log, this`sequence
      ensures Valid()
      ensures faultOpenSince == M.NextFaults(old(faultOpenSince), s, before, after, t)
      ensures log == old(log) + [M.ChangeEvent(old(log), t, s, before, after, cause, direct, old(faultOpenSince))]
    {
      hide Round3, M.Emit, Model;
      var recoveryTime := None;
      if s in faultOpenSince {
        recoveryTime := Some(Round3(t - faultOpenSince[s]));
        faultOpenSince := faultOpenSince - {s};
      }
      Emit(t, Recovery, Some(s), Some(before), Some(after), cause, RecoveryDetails(direct, recoveryTime));
    }

    method Impair(s: Id, before: ComponentState, after: ComponentState, cause: Option<EventId>, direct: bool, t: real)
      requires Valid() && !after.IsHealthy()
      modifies this`faultOpenSince, this`log, this`sequence
      ensures Valid()
      ensures faultOpenSince == M.NextFaults(old(faultOpenSince), s, before, after, t)
      ensures log == old(log) + [M.ChangeEvent(old(log), t, s, before, after, cause, direct, old(faultOpenSince))]
    {
      hide Round3, M.Emit, Model;
      if (before.IsHealthy() || before.Unknown?) && s !in faultOpenSince {
        faultOpenSince := faultOpenSince[s := t];
      }
      Emit(t, ObservedEffect, Some(s), Some(before), Some(after), cause, ChangeDetails(direct));
    }

    /** Classify and log one change whose cause is known. */
    method RecordChange(s: Id, before: ComponentState, after: ComponentState, cause: Option<EventId>, direct: bool, t: real)
      requires Valid() && before != after
      modifies this`states, this`faultOpenSince, this`active, this`retired, this`log, this`sequence
      ensures Valid()
      ensures states == old(states)[s := after]
      ensures faultOpenSince == M.NextFaults(old(faultOpenSince), s, before, after, t)
      ensures active == if M.KindOf(before, after) == Recovery then M.RetireOn(old(active), s) else old(active)
      ensures retired == if M.KindOf(before, after) == Recovery then old(retired) + M.RetiredOn(old(active), s) else old(retired)
      ensures log == old(log) + [M.ChangeEvent(old(log), t, s, before, after, cause, direct, old(faultOpenSince))]
    {
      hide M.RetireOn, M.RetiredOn, Round3, M.Emit, Model;
      states := states[s := after];
      if after.IsHealthy() && !before.IsHealthy() {
        Recover(s, before, after, cause, direct, t);
      } else if !after.IsHealthy() {
        Impair(s, before, after, cause, direct, t);
      } else {
        Emit(t, LogEntry, Some(s), Some(before), Some(after), None, ChangeDetails(direct));
      }
    }

    /** The cause the target names, else the one attributed. */
    method FindCause(change: StateChange) returns (cause: Option<EventId>)
      ensures cause == M.CauseOf(config, Model(), change)
    {
      cause := change.causedBy;
      if cause.None? || cause.value == "" {
        cause := AttributeCause(change.subsystem);
      }
    }

    method ProcessChange(change: StateChange, t: real)
      requires Valid()
      modifies this
      ensures Valid() && Model() == M.ApplyChange(config, old(Model()), change, t)
    {
      hide M.IsDirect, M.CauseOf, M.RetireOn, M.RetiredOn, M.NextFaults, M.ChangeEvent, M.KindOf, M.Changed;
      var s := change.subsystem;
      var before := Observed(states, s);
      if before == change.after {
        return;
      }
      var cause := FindCause(change);
      var direct := M.IsDirect(active, cause, s);
      RecordChange(s, before, change.after, cause, direct, t);
      M.IsChanged(old(Model()), Model(), t, s, before, change.after, cause, direct);
    }

    /** The two loops that log responses and mission events. */
    method Narrate(responses: seq<Response>, missionEvents: seq<MissionEvent>, t: real)
      requires Valid()
      modifies this`log, this`sequence
      ensures Valid() && Model() == M.Progress(M.Respond(old(Model()), responses, t), missionEvents, t)
    {
      hide M.Emit;
      for k := 0 to |responses|
        invariant Valid() && M.Respond(Model(), responses[k..], t) == M.Respond(old(Model()), responses, t)
      {
        assert responses[k..][0] == responses[k] && responses[k..][1..] == responses[k + 1..];
        Emit(t, SystemResponded, responses[k].subsystem, None, None, None, ResponseDetails(responses[k].safeState));
      }
      ghost var responded := Model();
      for k := 0 to |missionEvents|
        invariant Valid() && M.Progress(Model(), missionEvents[k..], t) == M.Progress(responded, missionEvents, t)
      {
        assert missionEvents[k..][0] == missionEvents[k] && missionEvents[k..][1..] == missionEvents[k + 1..];
        Emit(t, MissionProgress, None, None, None, None, NoDetails);
      }
    }

    method ProcessObservation(o: Observation)
      requires Valid()
      modifies this
      ensures Valid() && Model() == M.ProcessObservation(config, old(Model()), o)
    {
      hide M.ApplyChange;
      var t := o.sample.t;
      for k := 0 to |o.changes|
        invariant Valid() && M.ApplyChanges(config, Model(), o.changes[k..], t) == M.ApplyChanges(config, old(Model()), o.changes, t)
      {
        assert o.changes[k..][0] == o.changes[k] && o.changes[k..][1..] == o.changes[k + 1..];
        ProcessChange(o.changes[k], t);
      }
      Narrate(o.responses, o.missionEvents, t);
      var recovering := exists s :: s in states && states[s].Recovering?;
      if recovering && runState == Running {
        SetRunState(RecoveringRun);
      } else if !recovering && runState == RecoveringRun {
        SetRunState(Running);
      }
    }

    // ---- Expectations

    method EmitExpectation(p: M.Watch, t: real, passed: bool)
      requires Valid()
      modifies this`log, this`sequence
      ensures Valid() && Model() == M.EmitVerdict(old(Model()), p, t, passed)
    {
      var observed := Observed(states, p.expectation.subsystem);
      Emit(t, ExpectationResult, Some(p.expectation.subsystem), None, Some(observed), Some(p.eventId),
           VerdictDetails(p.serial, passed, Round3(t - p.requestedAt)));
    }

    method ProcessExpectations(t: real)
      requires Valid()
      modifies this
      ensures Valid() && Model() == M.ProcessExpectations(old(Model()), t)
    {
      hide M.EmitVerdict, M.Status;
      var remaining: seq<M.Watch> := [];
      ghost var todo := expectations;
      for k := 0 to |expectations|
        invariant Valid() && expectations == todo
        invariant M.JudgeEach(Model(), todo[k..], remaining, t) == M.JudgeEach(old(Model()), todo, [], t)
      {
        var pending := expectations[k];
        assert todo[k..][0] == pending && todo[k..][1..] == todo[k + 1..];
        if t <= pending.requestedAt {
          remaining := remaining + [pending];
          assert pending.(leftHealthy := pending.leftHealthy) == pending;
        } else {
          var (status, left) := M.Status(pending, Observed(states, pending.expectation.subsystem), t);
          if status.None? {
            remaining := remaining + [pending.(leftHealthy := left)];
          } else {
            EmitExpectation(pending, t, status.value);
          }
        }
      }
      expectations := remaining;
    }

    method FlushExpectationsAtEnd(t: real)
      requires Valid()
      modifies this
      ensures Valid() && Model() == M.FlushExpectations(old(Model()), t)
    {
      hide M.EmitVerdict, M.Status;
      ghost var todo := expectations;
      for k := 0 to |expectations|
        invariant Valid() && expectations == todo
        invariant M.FlushEach(Model(), todo[k..], t) == M.FlushEach(old(Model()), todo, t)
      {
        var pending := expectations[k];
        assert todo[k..][0] == pending && todo[k..][1..] == todo[k + 1..];
        var (status, left) := M.Status(pending, Observed(states, pending.expectation.subsystem), M.FlushTime(pending, t));
        EmitExpectation(pending, t, status == Some(true));
      }
      expectations := [];
    }

    // ---- Telemetry

    method FlushBatch()
      requires Valid()
      modifies this`batch, this`batchStartedAt, this`telemetry
      ensures Valid() && Model() == M.FlushBatch(old(Model()))
    {
      if batch == [] {
        return;
      }
      var samples := batch;
      batch := [];
      batchStartedAt := None;
      telemetry := telemetry + [samples];
    }

    method BufferSample(sample: Sample)
      requires Valid()
      modifies this
      ensures Valid() && Model() == M.BufferSample(config, old(Model()), sample)
    {
      if batchStartedAt.None? {
        batchStartedAt := Some(sample.t);
      }
      batch := batch + [sample];
      if sample.t - batchStartedAt.value >= config.batchSeconds || |batch| >= 200 {
        FlushBatch();
      }
    }

    // ---- The run

    /** One pass of the loop body for an observation that is processed. */
    method ProcessTick(o: Observation)
      requires Valid()
      modifies this
      ensures Valid() && Model() == M.ProcessTick(config, old(Model()), o)
    {
      hide M.ProcessScheduled, M.ProcessObservation, M.JudgeEach, M.BufferSample;
      var t := o.sample.t;
      lastT := t;
      ProcessScheduled(t);
      ProcessObservation(o);
      ghost var seen := states;
      ProcessExpectations(t);
      ghost var logged := |log|;
      BufferSample(o.sample);
      ticks := ticks + [M.Tick(t, seen, logged)];
    }

    /** The loop over observations, left by cancellation, the end of the mission, the timeout or
        the end of the stream. */
    method Observe(feed: seq<M.Input>) returns (exit: M.Exit)
      requires Valid()
      modifies this
      ensures Valid() && (Model(), exit) == M.Loop(config, old(Model()), feed)
    {
      hide M.ProcessTick;
      for k := 0 to |feed|
        invariant Valid() && M.Loop(config, Model(), feed[k..]) == M.Loop(config, old(Model()), feed)
      {
        assert feed[k..][0] == feed[k] && feed[k..][1..] == feed[k + 1..];
        var o := feed[k].observation;
        if feed[k].cancelled {
          lastT := o.sample.t;
          Emit(lastT, LifecycleEvent, None, None, None, None, NoDetails);
          return M.CancelRequested;
        }
        ProcessTick(o);
        if o.finished {
          Emit(o.sample.t, MissionProgress, None, None, None, None, NoDetails);
          return M.Finished;
        }
        if o.sample.t >= config.timeout {
          Emit(o.sample.t, MissionProgress, None, None, None, None, NoDetails);
          return M.TimedOut;
        }
      }
      return M.Exhausted;
    }

    /** Everything after the loop. */
    method Close(exit: M.Exit, raises: bool) returns (finalState: RunState)
      requires Valid()
      modifies this
      ensures Valid() && (Model(), finalState) == M.Close(old(Model()), exit, raises)
    {
      hide M.FlushEach, M.ClearEach, M.Emit;
      finalState := Collecting;
      if exit == M.Exhausted && raises {
        finalState := FailedRun;
        Emit(lastT, LifecycleEvent, None, None, None, None, NoDetails);
      } else {
        if exit == M.CancelRequested {
          finalState := Cancelled;
        }
        FlushExpectationsAtEnd(lastT);
        ClearAll(lastT, ScenarioEnd);
      }
      FlushBatch();
      SetRunState(Collecting);
    }

    /** The target is ready: take over its states and announce the mission. */
    method Begin(health: Health)
      requires Valid() && Model() == M.SetRunState(M.Initial(pendingEvents), Preparing)
      modifies this
      ensures Valid() && Model() == M.StartRun(old(pendingEvents), health)
    {
      states := health;
      SetRunState(Running);
      Emit(0.0, MissionProgress, None, None, None, None, NoDetails);
    }

    method Run(setup: M.Setup, feed: seq<M.Input>, raises: bool) returns (finalState: RunState)
      requires Valid() && Model() == M.Initial(pendingEvents)
      modifies this
      ensures Valid() && (Model(), finalState) == M.Run(config, old(pendingEvents), setup, feed, raises)
    {
      hide M.Loop, M.Close, M.StartRun, M.Emit;
      SetRunState(Preparing);
      match setup {
        case Unsupported =>
          finalState := FailedRun;
          Emit(0.0, InjectionRejected, None, None, None, None, NoDetails);
          SetRunState(Collecting);
        case PrepareCancelled =>
          finalState := Cancelled;
          Emit(0.0, LifecycleEvent, None, None, None, None, NoDetails);
          SetRunState(Collecting);
        case PrepareFailed =>
          finalState := FailedRun;
          Emit(lastT, LifecycleEvent, None, None, None, None, NoDetails);
          SetRunState(Collecting);
        case Prepared(health) =>
          Begin(health);
          var exit := Observe(feed);
          finalState := Close(exit, raises);
      }
    }
  }
}
