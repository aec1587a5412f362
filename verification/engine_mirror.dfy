/** The engine as a mirror of the target: component states, telemetry batches and the run state it
    reports follow the observations it was given. */
module EngineMirror {
  import opened Options
  import opened States
  import opened RunStates
  import opened Rounding
  import opened RunLog
  import opened EngineModel
  import opened EnginePairing

  // ---- Observations that report exactly what changed

  /** Every change names a component with its new state, and every component whose state differs
      from the previous observation is named. */
  ghost predicate Faithful(previous: Health, o: Observation) {
    var health := o.sample.health;
    && health.Keys == previous.Keys
    && (forall k :: 0 <= k < |o.changes| ==> o.changes[k].subsystem in health && o.changes[k].after == health[o.changes[k].subsystem])
    && (forall s :: s in health && health[s] != previous[s] ==> exists k :: 0 <= k < |o.changes| && o.changes[k].subsystem == s)
  }

  ghost predicate FaithfulFeed(previous: Health, feed: seq<Input>)
    decreases |feed|
  {
    feed != [] ==> Faithful(previous, feed[0].observation) && FaithfulFeed(feed[0].observation.sample.health, feed[1..])
  }

  /** The last state the log gives for each component, starting from the initial states. Entries of
      every kind count, log lines and expectation results included. */
  function FoldStates(initial: Health, log: seq<RunEvent>): Health {
    if log == [] then initial
    else
      var before, last := FoldStates(initial, log[..|log| - 1]), log[|log| - 1];
      if last.subsystem.Some? && last.stateAfter.Some? then before[last.subsystem.value := last.stateAfter.value] else before
  }

  lemma FoldAppend(initial: Health, log: seq<RunEvent>, e: RunEvent)
    ensures FoldStates(initial, log + [e])
         == if e.subsystem.Some? && e.stateAfter.Some? then FoldStates(initial, log)[e.subsystem.value := e.stateAfter.value]
            else FoldStates(initial, log)
  {
    assert (log + [e])[..|log|] == log;
  }

  /** The log folds to the engine's own view. */
  ghost predicate Folds(initial: Health, e: EngineState) {
    FoldStates(initial, e.log) == e.states
  }

  lemma InjectFolds(initial: Health, c: Config, e: EngineState, event: ScenarioEvent, t: real)
    requires Folds(initial, e)
    ensures Folds(initial, Inject(c, e, event, t)) && Inject(c, e, event, t).states == e.states
    ensures Inject(c, e, event, t).pending == e.pending
  {
    hide Put, Watches, FoldStates;
    var r := Inject(c, e, event, t);
    var first, second := r.log[|e.log|], r.log[|e.log| + 1];
    assert r.log == e.log + [first] + [second];
    FoldAppend(initial, e.log, first);
    FoldAppend(initial, e.log + [first], second);
  }

  lemma {:induction false} InjectDueFolds(initial: Health, c: Config, e: EngineState, t: real)
    requires Folds(initial, e)
    ensures Folds(initial, InjectDue(c, e, t))
    decreases |e.pending|
  {
    hide Inject, FoldStates;
    if e.pending != [] && e.pending[0].at <= t {
      var taken := e.(pending := e.pending[1..]);
      InjectFolds(initial, c, taken, e.pending[0], t);
      InjectDueFolds(initial, c, Inject(c, taken, e.pending[0], t), t);
    }
  }

  lemma {:induction false} ClearDueFolds(initial: Health, e: EngineState, t: real)
    requires Folds(initial, e)
    ensures Folds(initial, ClearDue(e, t))
    decreases |e.clears|
  {
    hide FoldStates, Remove, Find;
    if e.clears != [] && e.clears[0].at <= t {
      var step := Clear(e.(clears := HeapQueue.Pop(e.clears)), e.clears[0].item, t, DurationElapsed);
      if step.log != e.log {
        assert step.log == e.log + [step.log[|e.log|]];
        FoldAppend(initial, e.log, step.log[|e.log|]);
      }
      ClearDueFolds(initial, step, t);
    }
  }

  lemma {:induction false} ChangesFold(initial: Health, c: Config, e: EngineState, changes: seq<StateChange>, t: real)
    requires Folds(initial, e)
    ensures Folds(initial, ApplyChanges(c, e, changes, t))
    decreases |changes|
  {
    hide FoldStates, CauseOf, RetireOn, NextFaults, IsDirect;
    if changes != [] {
      var step := ApplyChange(c, e, changes[0], t);
      if step.log != e.log {
        assert step.log == e.log + [step.log[|e.log|]];
        FoldAppend(initial, e.log, step.log[|e.log|]);
      }
      ChangesFold(initial, c, step, changes[1..], t);
    }
  }

  lemma {:induction false} NarrationFolds(initial: Health, e: EngineState, responses: seq<Response>, events: seq<MissionEvent>, t: real)
    requires Folds(initial, e)
    ensures Folds(initial, Progress(Respond(e, responses, t), events, t))
    decreases |responses|, |events|
  {
    hide FoldStates;
    if responses != [] {
      var step := Emit(e, t, SystemResponded, responses[0].subsystem, None, None, None, ResponseDetails(responses[0].safeState));
      FoldAppend(initial, e.log, step.log[|e.log|]);
      NarrationFolds(initial, step, responses[1..], events, t);
    } else if events != [] {
      var step := Emit(e, t, MissionProgress, None, None, None, None, NoDetails);
      FoldAppend(initial, e.log, step.log[|e.log|]);
      NarrationFolds(initial, step, [], events[1..], t);
    }
  }

  /** Every expectation watched names a component of the target. */
  ghost predicate Known(todo: seq<Watch>, states: Health) {
    forall i :: 0 <= i < |todo| ==> todo[i].expectation.subsystem in states
  }

  lemma {:induction false} JudgeFolds(initial: Health, e: EngineState, todo: seq<Watch>, kept: seq<Watch>, t: real)
    requires Folds(initial, e) && Known(todo, e.states) && Known(kept, e.states)
    ensures Folds(initial, JudgeEach(e, todo, kept, t)) && Known(JudgeEach(e, todo, kept, t).expectations, e.states)
    decreases |todo|
  {
    hide FoldStates, JudgeNow;
    if todo != [] {
      match JudgeNow(todo[0], e.states, t)
      case Undecided(left) =>
        JudgeFolds(initial, e, todo[1..], kept + [todo[0].(leftHealthy := left)], t);
      case Decided(passed) =>
        var step := EmitVerdict(e, todo[0], t, passed);
        assert step.log == e.log + [step.log[|e.log|]];
        FoldAppend(initial, e.log, step.log[|e.log|]);
        assert e.states[todo[0].expectation.subsystem := e.states[todo[0].expectation.subsystem]] == e.states;
        JudgeFolds(initial, step, todo[1..], kept, t);
    }
  }

  /** The engine's states after a faithful observation are the observed ones. */
  lemma {:induction false} ChangesMirror(c: Config, e: EngineState, changes: seq<StateChange>, t: real, health: Health)
    requires e.states.Keys == health.Keys
    requires forall k :: 0 <= k < |changes| ==> changes[k].subsystem in health && changes[k].after == health[changes[k].subsystem]
    requires forall s :: s in health && health[s] != e.states[s] ==> exists k :: 0 <= k < |changes| && changes[k].subsystem == s
    ensures ApplyChanges(c, e, changes, t).states == health
    decreases |changes|
  {
    hide CauseOf, RetireOn, NextFaults, IsDirect, ChangeEvent;
    if changes != [] {
      var step := ApplyChange(c, e, changes[0], t);
      assert step.states == e.states[changes[0].subsystem := changes[0].after];
      forall s | s in health && health[s] != step.states[s]
        ensures exists k :: 0 <= k < |changes| - 1 && changes[1..][k].subsystem == s
      {
        var k :| 0 <= k < |changes| && changes[k].subsystem == s;
        assert changes[1..][k - 1] == changes[k];
      }
      ChangesMirror(c, step, changes[1..], t, health);
    }
  }

  /** The scenario only expects things of components the target has. */
  ghost predicate KnownEvents(events: seq<ScenarioEvent>, states: Health) {
    forall i, k :: 0 <= i < |events| && 0 <= k < |events[i].expectations| ==> events[i].expectations[k].subsystem in states
  }

  lemma {:induction false} InjectDueKnown(c: Config, e: EngineState, t: real)
    requires Known(e.expectations, e.states) && KnownEvents(e.pending, e.states)
    ensures Known(InjectDue(c, e, t).expectations, e.states) && KnownEvents(InjectDue(c, e, t).pending, e.states)
    decreases |e.pending|
  {
    if e.pending != [] && e.pending[0].at <= t {
      var taken := e.(pending := e.pending[1..]);
      var step := Inject(c, taken, e.pending[0], t);
      assert step.pending == e.pending[1..] && step.states == e.states;
      assert step.expectations == e.expectations || step.expectations == e.expectations + Watches(e.pending[0], t, |e.created|);
      hide Inject;
      InjectDueKnown(c, step, t);
    }
  }

  /** What holds between ticks when the feed is faithful: the engine sees the target, and so does
      anyone who folds the log. */
  ghost predicate Mirrors(initial: Health, e: EngineState, health: Health) {
    && e.states == health
    && Folds(initial, e)
    && Known(e.expectations, e.states) && KnownEvents(e.pending, e.states)
  }

  lemma TickMirrors(initial: Health, c: Config, e: EngineState, o: Observation)
    requires Mirrors(initial, e, e.states) && Faithful(e.states, o)
    ensures Mirrors(initial, ProcessTick(c, e, o), o.sample.health)
    ensures ProcessTick(c, e, o).ticks == e.ticks + [Tick(o.sample.t, o.sample.health, |ProcessTick(c, e, o).log|)]
  {
    hide InjectDue, ClearDue, ApplyChanges, Respond, Progress, JudgeEach, FoldStates, AnyRecovering, KnownEvents, Appended;
    var t := o.sample.t;
    var late := e.(lastT := t);
    InjectDueFolds(initial, c, late, t);
    InjectDueKnown(c, late, t);
    ClearDueFolds(initial, InjectDue(c, late, t), t);
    var scheduled := ProcessScheduled(c, late, t);
    ChangesFold(initial, c, scheduled, o.changes, t);
    ChangesMirror(c, scheduled, o.changes, t, o.sample.health);
    SameKeysKnown(scheduled.pending, e.states, o.sample.health);
    NarrationFolds(initial, ApplyChanges(c, scheduled, o.changes, t), o.responses, o.missionEvents, t);
    var observed := ProcessObservation(c, scheduled, o);
    JudgeFolds(initial, observed, observed.expectations, [], t);
  }

  lemma SameKeysKnown(events: seq<ScenarioEvent>, a: Health, b: Health)
    requires KnownEvents(events, a) && a.Keys == b.Keys
    ensures KnownEvents(events, b)
  {
  }

  /** After every processed tick the engine's states are the sample's health map, and folding the states of the
      log written so far gives the same map. */
  ghost predicate TicksMirror(initial: Health, e: EngineState, feed: seq<Input>, from: nat) {
    && from <= |e.ticks|
    && (forall k :: from <= k < |e.ticks| ==>
          && k - from < |feed|
          && e.ticks[k].t == feed[k - from].observation.sample.t
          && e.ticks[k].states == feed[k - from].observation.sample.health
          && e.ticks[k].logged <= |e.log|
          && FoldStates(initial, e.log[..e.ticks[k].logged]) == e.ticks[k].states)
  }

  lemma {:induction false} LoopMirrors(initial: Health, c: Config, e: EngineState, feed: seq<Input>)
    requires Mirrors(initial, e, e.states) && FaithfulFeed(e.states, feed)
    ensures var r := Loop(c, e, feed).0;
            && Folds(initial, r) && Known(r.expectations, r.states)
            && e.log <= r.log && e.ticks <= r.ticks && TicksMirror(initial, r, feed, |e.ticks|)
    decreases |feed|
  {
    hide ProcessTick, Mirrors, FoldStates, Faithful;
    if feed != [] {
      var o := feed[0].observation;
      var t := o.sample.t;
      if feed[0].cancelled {
        MirrorsFolds(initial, e, e.states);
        FoldAppend(initial, e.log, NewEvent(e.log, t, LifecycleEvent, None, None, None, None, NoDetails));
      } else {
        var next := ProcessTick(c, e, o);
        MirrorsFolds(initial, e, e.states);
        TickMirrors(initial, c, e, o);
        MirrorsFolds(initial, next, o.sample.health);
        TickAppends(c, e, o);
        FoldAppend(initial, next.log, NewEvent(next.log, t, MissionProgress, None, None, None, None, NoDetails));
        LoopMirrors(initial, c, next, feed[1..]);
        var r := Loop(c, e, feed).0;
        TickMirrored(initial, e, next, r, feed);
      }
    } else {
      MirrorsFolds(initial, e, e.states);
    }
  }

  lemma MirrorsFolds(initial: Health, e: EngineState, health: Health)
    requires Mirrors(initial, e, health)
    ensures Folds(initial, e) && e.states == health && Known(e.expectations, e.states)
  {
  }

  /** One tick and the ticks after it make up the whole list. */
  lemma TickMirrored(initial: Health, e: EngineState, next: EngineState, r: EngineState, feed: seq<Input>)
    requires feed != []
    requires var o := feed[0].observation;
             next.ticks == e.ticks + [Tick(o.sample.t, o.sample.health, |next.log|)] && next.states == o.sample.health
    requires Folds(initial, next)
    requires next.log <= r.log && next.ticks <= r.ticks
    requires |r.ticks| == |next.ticks| || TicksMirror(initial, r, feed[1..], |next.ticks|)
    ensures TicksMirror(initial, r, feed, |e.ticks|)
  {
    hide FoldStates;
    assert r.log[..|next.log|] == next.log;
    assert r.ticks[|e.ticks|] == next.ticks[|e.ticks|];
    forall k | |e.ticks| <= k < |r.ticks|
      ensures k - |e.ticks| < |feed|
              && r.ticks[k].t == feed[k - |e.ticks|].observation.sample.t
              && r.ticks[k].states == feed[k - |e.ticks|].observation.sample.health
              && r.ticks[k].logged <= |r.log|
              && FoldStates(initial, r.log[..r.ticks[k].logged]) == r.ticks[k].states
    {
      if k > |e.ticks| {
        assert feed[1..][k - |next.ticks|] == feed[k - |e.ticks|];
      }
    }
  }

  /** Whatever the continuation says about a component is the state it already has. */
  ghost predicate Restates(before: seq<RunEvent>, after: seq<RunEvent>, states: Health) {
    && before <= after
    && forall i :: |before| <= i < |after| && after[i].subsystem.Some? && after[i].stateAfter.Some? ==>
         after[i].subsystem.value in states && after[i].stateAfter.value == states[after[i].subsystem.value]
  }

  lemma RestatesTwice(a: seq<RunEvent>, b: seq<RunEvent>, c: seq<RunEvent>, states: Health)
    requires Restates(a, b, states) && Restates(b, c, states)
    ensures Restates(a, c, states)
  {
    assert forall i :: 0 <= i < |b| ==> c[i] == b[i];
  }

  lemma {:induction false} RestatingFolds(initial: Health, before: seq<RunEvent>, after: seq<RunEvent>, states: Health)
    requires FoldStates(initial, before) == states && Restates(before, after, states)
    ensures FoldStates(initial, after) == states
    decreases |after|
  {
    if |after| > |before| {
      RestatingFolds(initial, before, after[..|after| - 1], states);
    } else {
      assert after == before;
    }
  }

  lemma {:induction false} FlushRestates(e: EngineState, todo: seq<Watch>, t: real)
    requires Known(todo, e.states)
    ensures Restates(e.log, FlushEach(e, todo, t).log, e.states)
    decreases |todo|
  {
    if todo != [] {
      var p := todo[0];
      var (verdict, left) := Status(p, Observed(e.states, p.expectation.subsystem), FlushTime(p, t));
      var step := EmitVerdict(e, p, t, verdict == Some(true));
      hide Status;
      FlushRestates(step, todo[1..], t);
      RestatesTwice(e.log, step.log, FlushEach(step, todo[1..], t).log, e.states);
    }
  }

  lemma {:induction false} ClearEachRestates(e: EngineState, requests: seq<InjectionRequest>, t: real)
    ensures Restates(e.log, ClearEach(e, requests, t).log, e.states)
    decreases |requests|
  {
    if requests != [] {
      hide Remove, Find;
      var step := ClearAtEnd(e, requests[0], t);
      assert Restates(e.log, step.log, e.states);
      ClearEachRestates(step, requests[1..], t);
      RestatesTwice(e.log, step.log, ClearEach(step, requests[1..], t).log, e.states);
    }
  }

  /** The closing entries, the last verdicts included, only repeat what the log said before, at the rounded
      time of the last observation. */
  lemma CloseRestates(e: EngineState, exit: Exit, raises: bool)
    requires Known(e.expectations, e.states)
    ensures var r := Close(e, exit, raises).0;
            && Restates(e.log, r.log, e.states) && r.states == e.states && r.ticks == e.ticks && r.lastT == e.lastT
            && forall i :: |e.log| <= i < |r.log| ==> r.log[i].time == Round3(e.lastT)
  {
    hide FlushEach, ClearEach, Restates;
    if exit == Exhausted && raises {
      EmitRestates(e);
    } else {
      var flushed := FlushExpectations(e, e.lastT);
      var cleared := ClearAll(flushed, e.lastT);
      FlushRestates(e, e.expectations, e.lastT);
      ClearEachRestates(flushed, flushed.active, e.lastT);
      RestatesTwice(e.log, flushed.log, cleared.log, e.states);
      AppendedTwice(e.log, flushed.log, cleared.log, {ExpectationResult}, {InjectionCleared}, ALL_KINDS, e.lastT);
    }
  }

  lemma EmitRestates(e: EngineState)
    ensures Restates(e.log, Emit(e, e.lastT, LifecycleEvent, None, None, None, None, NoDetails).log, e.states)
  {
  }

  /** For every run with a faithful feed, however it ends: after every processed tick the engine's states are the
      sample's health map and folding the states of the log written so far gives the same map; and folding the
      finished log, the verdicts given at the end included, gives the engine's final states. */
  lemma RunMirrors(c: Config, events: seq<ScenarioEvent>, states: Health, feed: seq<Input>, raises: bool)
    requires KnownEvents(events, states) && FaithfulFeed(states, feed)
    ensures var r := Run(c, events, Setup.Prepared(states), feed, raises).0;
            Folds(states, r) && TicksMirror(states, r, feed, 0)
  {
    var start := StartRun(events, states);
    assert start.log == [] + [start.log[0]];
    FoldAppend(states, [], start.log[0]);
    hide Loop, FoldStates, Close, StartRun, Restates;
    LoopMirrors(states, c, start, feed);
    var (looped, exit) := Loop(c, start, feed);
    CloseRestates(looped, exit, raises);
    var r := Close(looped, exit, raises).0;
    RestatingFolds(states, looped.log, r.log, looped.states);
    PrefixMirrors(states, looped, r, feed);
  }

  lemma PrefixMirrors(initial: Health, looped: EngineState, r: EngineState, feed: seq<Input>)
    requires TicksMirror(initial, looped, feed, 0) && Restates(looped.log, r.log, looped.states) && r.ticks == looped.ticks
    ensures TicksMirror(initial, r, feed, 0)
  {
    hide FoldStates;
    assert r.ticks != [] ==> looped.ticks[|r.ticks| - 1].t == feed[|r.ticks| - 1].observation.sample.t;
    forall k | 0 <= k < |r.ticks|
      ensures r.ticks[k].logged <= |looped.log| <= |r.log|
      ensures FoldStates(initial, r.log[..r.ticks[k].logged]) == r.ticks[k].states
    {
      assert looped.ticks[k].logged <= |looped.log|;
      assert r.log[..r.ticks[k].logged] == looped.log[..r.ticks[k].logged];
    }
  }

  // ---- Telemetry: no sample is lost or repeated on the way into batches

  function Flatten(batches: seq<seq<Sample>>): seq<Sample> {
    if batches == [] then [] else Flatten(batches[..|batches| - 1]) + batches[|batches| - 1]
  }

  function HandedOver(e: EngineState): seq<Sample> {
    Flatten(e.telemetry) + e.batch
  }

  /** The samples of the observations the loop processes. */
  function Processed(c: Config, feed: seq<Input>): seq<Sample> {
    if feed == [] || feed[0].cancelled then []
    else
      var o := feed[0].observation;
      [o.sample] + if o.finished || o.sample.t >= c.timeout then [] else Processed(c, feed[1..])
  }

  ghost predicate BatchesBounded(e: EngineState) {
    && |e.batch| < 200
    && forall k :: 0 <= k < |e.telemetry| ==> 1 <= |e.telemetry[k]| <= 200
  }

  lemma FlushKeepsSamples(e: EngineState)
    ensures HandedOver(FlushBatch(e)) == HandedOver(e) && FlushBatch(e).batch == []
  {
    if e.batch != [] {
      assert (e.telemetry + [e.batch])[..|e.telemetry|] == e.telemetry;
    }
  }

  lemma BufferKeepsSamples(c: Config, e: EngineState, sample: Sample)
    requires BatchesBounded(e)
    ensures HandedOver(BufferSample(c, e, sample)) == HandedOver(e) + [sample] && BatchesBounded(BufferSample(c, e, sample))
  {
    var started := if e.batchStartedAt.None? then sample.t else e.batchStartedAt.value;
    var buffered := e.(batchStartedAt := Some(started), batch := e.batch + [sample]);
    FlushKeepsSamples(buffered);
    assert HandedOver(buffered) == HandedOver(e) + [sample];
  }

  lemma TickKeepsSamples(c: Config, e: EngineState, o: Observation)
    requires BatchesBounded(e)
    ensures HandedOver(ProcessTick(c, e, o)) == HandedOver(e) + [o.sample] && BatchesBounded(ProcessTick(c, e, o))
  {
    hide ProcessScheduled, ProcessObservation, JudgeEach, BufferSample, Flatten;
    var t := o.sample.t;
    var judged := ProcessExpectations(ProcessObservation(c, ProcessScheduled(c, e.(lastT := t), t), o), t);
    BufferKeepsSamples(c, judged, o.sample);
  }

  lemma {:induction false} LoopKeepsSamples(c: Config, e: EngineState, feed: seq<Input>)
    requires BatchesBounded(e)
    ensures HandedOver(Loop(c, e, feed).0) == HandedOver(e) + Processed(c, feed) && BatchesBounded(Loop(c, e, feed).0)
    decreases |feed|
  {
    hide ProcessTick, Flatten, BatchesBounded, HandedOver, Emit;
    if feed == [] {
      assert HandedOver(e) + [] == HandedOver(e);
    } else {
      var o := feed[0].observation;
      var t := o.sample.t;
      if feed[0].cancelled {
        EmitKeepsSamples(e.(lastT := t), t, LifecycleEvent);
        LaterKeepsSamples(e, t);
        assert HandedOver(e) + [] == HandedOver(e);
      } else {
        var next := ProcessTick(c, e, o);
        TickKeepsSamples(c, e, o);
        if o.finished || t >= c.timeout {
          EmitKeepsSamples(next, t, MissionProgress);
          assert [o.sample] + [] == [o.sample];
        } else {
          LoopKeepsSamples(c, next, feed[1..]);
          Regroup(HandedOver(e), o.sample, Processed(c, feed[1..]));
        }
      }
    }
  }

  lemma Regroup(before: seq<Sample>, sample: Sample, rest: seq<Sample>)
    ensures before + [sample] + rest == before + ([sample] + rest)
  {
  }

  lemma EmitKeepsSamples(e: EngineState, t: real, kind: EventKind)
    ensures var r := Emit(e, t, kind, None, None, None, None, NoDetails);
            HandedOver(r) == HandedOver(e) && (BatchesBounded(r) <==> BatchesBounded(e))
  {
    hide Flatten;
  }

  lemma LaterKeepsSamples(e: EngineState, t: real)
    ensures HandedOver(e.(lastT := t)) == HandedOver(e) && (BatchesBounded(e.(lastT := t)) <==> BatchesBounded(e))
  {
    hide Flatten;
  }

  lemma CloseHandsOver(e: EngineState, exit: Exit, raises: bool)
    requires BatchesBounded(e)
    ensures var r := Close(e, exit, raises).0;
            Flatten(r.telemetry) == HandedOver(e) && r.batch == [] && BatchesBounded(r)
  {
    hide Flatten, ClearEach, FlushEach, FlushBatch;
    var flushed := if exit == Exhausted && raises then Emit(e, e.lastT, LifecycleEvent, None, None, None, None, NoDetails)
                   else ClearAll(FlushExpectations(e, e.lastT), e.lastT);
    assert flushed.batch == e.batch && flushed.telemetry == e.telemetry;
    FlushKeepsSamples(flushed);
    FlushKeepsBounds(flushed);
  }

  lemma FlushKeepsBounds(e: EngineState)
    requires BatchesBounded(e)
    ensures BatchesBounded(FlushBatch(e))
  {
  }

  /** Every sample of a processed observation is handed over exactly once, in order, in non-empty
      batches of at most 200. */
  lemma RunHandsOverSamples(c: Config, events: seq<ScenarioEvent>, setup: Setup, feed: seq<Input>, raises: bool)
    ensures var r := Run(c, events, setup, feed, raises).0;
            Flatten(r.telemetry) == (if setup.Prepared? then Processed(c, feed) else []) && r.batch == []
            && forall k :: 0 <= k < |r.telemetry| ==> 1 <= |r.telemetry[k]| <= 200
  {
    if setup.Prepared? {
      var start := StartRun(events, setup.states);
      assert HandedOver(start) == [] && BatchesBounded(start);
      hide Loop, Close, StartRun, Flatten;
      var (looped, exit) := Loop(c, start, feed);
      LoopKeepsSamples(c, start, feed);
      CloseHandsOver(looped, exit, raises);
    }
  }

  // ---- The run state reported on the way

  /** The run states since the run was queued. */
  function Reported(e: EngineState): seq<RunState> { [Queued] + e.lifecycle }

  ghost predicate OnPath(e: EngineState) {
    && IsPath(Reported(e))
    && e.runState == Reported(e)[|e.lifecycle|]
    && forall k :: 0 <= k < |e.lifecycle| ==> e.lifecycle[k] in {Preparing, Running, RecoveringRun, Collecting}
  }

  lemma StepOnPath(e: EngineState, state: RunState)
    requires OnPath(e) && CanTransition(e.runState, state) && state in {Preparing, Running, RecoveringRun, Collecting}
    ensures OnPath(SetRunState(e, state)) && SetRunState(e, state).runState == state
  {
    var r := SetRunState(e, state);
    assert Reported(r) == Reported(e) + [state];
    forall i | 0 < i < |Reported(r)|
      ensures CanTransition(Reported(r)[i - 1], Reported(r)[i])
    {
      if i < |Reported(e)| {
        assert Reported(r)[i] == Reported(e)[i] && Reported(r)[i - 1] == Reported(e)[i - 1];
      }
    }
  }

  /** During the loop the reported state is RecoveringRun exactly while some component recovers. */
  ghost predicate TracksRecovery(e: EngineState) {
    && OnPath(e)
    && (e.runState == Running || e.runState == RecoveringRun)
    && (e.ticks != [] ==> (e.runState == RecoveringRun <==> AnyRecovering(e.states)))
  }

  lemma TickTracksRecovery(c: Config, e: EngineState, o: Observation)
    requires TracksRecovery(e)
    ensures TracksRecovery(ProcessTick(c, e, o))
  {
    hide ProcessScheduled, ApplyChanges, Respond, Progress, JudgeEach, BufferSample, AnyRecovering, CanTransition, IsPath;
    var t := o.sample.t;
    var scheduled := ProcessScheduled(c, e.(lastT := t), t);
    var told := Progress(Respond(ApplyChanges(c, scheduled, o.changes, t), o.responses, t), o.missionEvents, t);
    assert told.lifecycle == e.lifecycle && told.runState == e.runState;
    RunningAndRecovering();
    if AnyRecovering(told.states) && told.runState == Running {
      StepOnPath(told, RecoveringRun);
    } else if !AnyRecovering(told.states) && told.runState == RecoveringRun {
      StepOnPath(told, Running);
    }
    var observed := ProcessObservation(c, scheduled, o);
    assert observed == FollowRecovery(told);
    assert ProcessTick(c, e, o).lifecycle == observed.lifecycle;
  }

  lemma RunningAndRecovering()
    ensures CanTransition(Running, RecoveringRun) && CanTransition(RecoveringRun, Running)
    ensures CanTransition(Running, Collecting) && CanTransition(RecoveringRun, Collecting)
    ensures CanTransition(Queued, Preparing) && CanTransition(Preparing, Running) && !CanTransition(Preparing, Collecting)
  {
  }

  lemma {:induction false} LoopTracksRecovery(c: Config, e: EngineState, feed: seq<Input>)
    requires TracksRecovery(e)
    ensures TracksRecovery(Loop(c, e, feed).0)
    decreases |feed|
  {
    hide ProcessTick, AnyRecovering, IsPath;
    if feed != [] && !feed[0].cancelled {
      TickTracksRecovery(c, e, feed[0].observation);
      LoopTracksRecovery(c, ProcessTick(c, e, feed[0].observation), feed[1..]);
    }
  }

  /** The lifecycle messages of a run follow the transition table exactly when the target became
      ready: a failed preparation goes straight from Preparing to Collecting, which the table
      rejects. Only Preparing, Running, RecoveringRun and Collecting are ever reported. */
  lemma RunReportsPath(c: Config, events: seq<ScenarioEvent>, setup: Setup, feed: seq<Input>, raises: bool)
    ensures var r := Run(c, events, setup, feed, raises).0;
            && (IsPath(Reported(r)) <==> setup.Prepared?)
            && (forall k :: 0 <= k < |r.lifecycle| ==> r.lifecycle[k] in {Preparing, Running, RecoveringRun, Collecting})
            && r.runState == Collecting
  {
    RunningAndRecovering();
    var initial := Initial(events);
    StepOnPath(initial, Preparing);
    var preparing := SetRunState(initial, Preparing);
    if setup.Prepared? {
      StepOnPath(preparing.(states := setup.states), Running);
      var start := StartRun(events, setup.states);
      assert TracksRecovery(start);
      hide Loop, Close, StartRun, TracksRecovery, IsPath;
      var (looped, exit) := Loop(c, start, feed);
      LoopTracksRecovery(c, start, feed);
      CloseReports(looped, exit, raises);
    } else {
      AbandonReports(events, setup);
    }
  }

  lemma CloseReports(e: EngineState, exit: Exit, raises: bool)
    requires TracksRecovery(e)
    ensures OnPath(Close(e, exit, raises).0) && Close(e, exit, raises).0.runState == Collecting
  {
    hide ClearEach, FlushEach, IsPath, CanTransition, AnyRecovering;
    RunningAndRecovering();
    StepOnPath(e, Collecting);
  }

  lemma AbandonReports(events: seq<ScenarioEvent>, setup: Setup)
    requires !setup.Prepared?
    ensures Reported(Abandon(events, setup).0) == [Queued, Preparing, Collecting]
    ensures Abandon(events, setup).0.runState == Collecting && !IsPath(Reported(Abandon(events, setup).0))
  {
    RunningAndRecovering();
    var r := Abandon(events, setup).0;
    assert Reported(r) == [Queued, Preparing, Collecting];
    assert !CanTransition(Reported(r)[1], Reported(r)[2]);
  }
}
