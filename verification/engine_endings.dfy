/** How a run ends: where its loop stops and why, the state the engine reports last, how samples are cut into batches, and what a
    verdict says. All of it is stated on the inputs of the run. */
module EngineEndings {
  import opened Options
  import opened States
  import opened Rounding
  import opened RunLog
  import opened RunStates
  import opened EngineModel

  // ---- The loop

  /** Processing this observation ends the loop: the target has finished, or the time is up. */
  predicate IsLast(c: Config, input: Input) {
    input.observation.finished || input.observation.sample.t >= c.timeout
  }

  /** The first `n` observations are processed, and the loop goes on after each of them. */
  ghost predicate GoesOn(c: Config, feed: seq<Input>, n: nat) {
    n <= |feed| && forall k :: 0 <= k < n ==> !feed[k].cancelled && !IsLast(c, feed[k])
  }

  /** Why the loop was left after `n` observations went by. */
  lemma {:induction false} LoopStops(c: Config, e: EngineState, feed: seq<Input>, n: nat)
    requires GoesOn(c, feed, n) && (n < |feed| ==> feed[n].cancelled || IsLast(c, feed[n]))
    ensures var (r, exit) := Loop(c, e, feed);
            && exit == (if n == |feed| then Exhausted else if feed[n].cancelled then CancelRequested
                        else if feed[n].observation.finished then Finished else TimedOut)
            && |r.ticks| == |e.ticks| + n + (if exit == Finished || exit == TimedOut then 1 else 0)
            && (n < |feed| ==> r.lastT == feed[n].observation.sample.t)
    decreases |feed|
  {
    hide ProcessTick, Emit, GoesOn, IsLast;
    if n > 0 {
      GoesOnTail(c, feed, n);
      LoopStops(c, ProcessTick(c, e, feed[0].observation), feed[1..], n - 1);
    } else if feed != [] && !feed[0].cancelled {
      LastMeans(c, feed[0]);
      Noted(ProcessTick(c, e, feed[0].observation), MissionProgress);
    } else if feed != [] {
      Noted(e.(lastT := feed[0].observation.sample.t), LifecycleEvent);
    }
  }

  lemma GoesOnTail(c: Config, feed: seq<Input>, n: nat)
    requires GoesOn(c, feed, n) && n > 0
    ensures n <= |feed| && GoesOn(c, feed[1..], n - 1) && (n < |feed| ==> feed[1..][n - 1] == feed[n])
    ensures !feed[0].cancelled && !feed[0].observation.finished && feed[0].observation.sample.t < c.timeout
  {
    assert forall k :: 0 <= k < n - 1 ==> feed[1..][k] == feed[k + 1];
  }

  lemma LastMeans(c: Config, input: Input)
    ensures IsLast(c, input) <==> input.observation.finished || input.observation.sample.t >= c.timeout
  {
  }

  lemma Noted(e: EngineState, kind: EventKind)
    ensures var r := Emit(e, e.lastT, kind, None, None, None, None, NoDetails); r.ticks == e.ticks && r.lastT == e.lastT
  {
  }

  /** There is always such an `n`. */
  lemma {:induction false} StopsSomewhere(c: Config, feed: seq<Input>)
    ensures exists n: nat :: GoesOn(c, feed, n) && (n < |feed| ==> feed[n].cancelled || IsLast(c, feed[n]))
    decreases |feed|
  {
    if feed == [] || feed[0].cancelled || IsLast(c, feed[0]) {
      assert GoesOn(c, feed, 0);
    } else {
      StopsSomewhere(c, feed[1..]);
      var n: nat :| GoesOn(c, feed[1..], n) && (n < |feed[1..]| ==> feed[1..][n].cancelled || IsLast(c, feed[1..][n]));
      assert forall k :: 0 < k <= n ==> feed[k] == feed[1..][k - 1];
      assert GoesOn(c, feed, n + 1);
    }
  }

  /** A cancel request is noticed: the loop gets there, and finds it before the observation. */
  ghost predicate Noticed(c: Config, feed: seq<Input>) {
    exists n: nat :: GoesOn(c, feed, n) && n < |feed| && feed[n].cancelled
  }

  /** Main result. The state the engine reports last, by what happened: cancelled exactly when a cancel request was noticed, before or
      in the loop; failed exactly when the target never became ready for another reason, or failed once the whole feed was processed;
      collecting otherwise. */
  lemma RunEnds(c: Config, events: seq<ScenarioEvent>, setup: Setup, feed: seq<Input>, raises: bool)
    ensures var last := Run(c, events, setup, feed, raises).1;
            && (last == Cancelled <==> setup == PrepareCancelled || (setup.Prepared? && Noticed(c, feed)))
            && (last == FailedRun <==> setup == Unsupported || setup == PrepareFailed || (setup.Prepared? && raises && GoesOn(c, feed, |feed|)))
            && (last == Collecting || last == Cancelled || last == FailedRun)
  {
    hide Loop, StartRun, Conclude, FlushBatch, SetRunState;
    if setup.Prepared? {
      StopsSomewhere(c, feed);
      var n: nat :| GoesOn(c, feed, n) && (n < |feed| ==> feed[n].cancelled || IsLast(c, feed[n]));
      LoopStops(c, StartRun(events, setup.states), feed, n);
      forall m: nat | GoesOn(c, feed, m) && m < |feed| && feed[m].cancelled
        ensures m == n
      {
      }
    }
  }

  // ---- Batches

  /** A batch that is still being filled: fewer than two hundred samples, all within the time a batch may span. */
  predicate Filling(c: Config, batch: seq<Sample>) {
    |batch| < 200 && forall k :: 0 <= k < |batch| ==> batch[k].t - batch[0].t < c.batchSeconds
  }

  /** A batch is handed over with the first sample that fills it. */
  predicate Filled(c: Config, batch: seq<Sample>) {
    batch != [] && Filling(c, batch[..|batch| - 1]) && !Filling(c, batch)
  }

  ghost predicate Cut(c: Config, e: EngineState) {
    && (forall k :: 0 <= k < |e.telemetry| ==> Filled(c, e.telemetry[k]))
    && Filling(c, e.batch) && e.batchStartedAt == if e.batch == [] then None else Some(e.batch[0].t)
  }

  lemma BufferCuts(c: Config, e: EngineState, sample: Sample)
    requires Cut(c, e)
    ensures Cut(c, BufferSample(c, e, sample))
  {
    hide Filled;
    var batch := e.batch + [sample];
    assert Filled(c, batch) <==> !Filling(c, batch) by { FilledWithLast(c, e.batch, sample); }
    assert batch[..|e.batch|] == e.batch && batch[0] == if e.batch == [] then sample else e.batch[0];
    assert batch[|e.batch|] == sample;
    assert forall k :: 0 <= k < |e.batch| ==> batch[k] == e.batch[k];
  }

  lemma FilledWithLast(c: Config, batch: seq<Sample>, sample: Sample)
    requires Filling(c, batch)
    ensures Filled(c, batch + [sample]) <==> !Filling(c, batch + [sample])
  {
    assert (batch + [sample])[..|batch|] == batch;
  }

  lemma TickCuts(c: Config, e: EngineState, o: Observation)
    requires Cut(c, e)
    ensures Cut(c, ProcessTick(c, e, o))
  {
    hide Cut, ProcessScheduled, ProcessObservation, JudgeEach, BufferSample;
    var t := o.sample.t;
    var judged := ProcessExpectations(ProcessObservation(c, ProcessScheduled(c, e.(lastT := t), t), o), t);
    SameCut(c, e, judged);
    BufferCuts(c, judged, o.sample);
    SameCut(c, BufferSample(c, judged, o.sample), ProcessTick(c, e, o));
  }

  lemma SameCut(c: Config, e: EngineState, r: EngineState)
    requires Cut(c, e) && r.telemetry == e.telemetry && r.batch == e.batch && r.batchStartedAt == e.batchStartedAt
    ensures Cut(c, r)
  {
    hide Filled, Filling;
  }

  lemma {:induction false} LoopCuts(c: Config, e: EngineState, feed: seq<Input>)
    requires Cut(c, e)
    ensures Cut(c, Loop(c, e, feed).0)
    decreases |feed|
  {
    hide Cut, ProcessTick;
    if feed != [] {
      var t := feed[0].observation.sample.t;
      SameCut(c, e, Emit(e.(lastT := t), t, LifecycleEvent, None, None, None, None, NoDetails));
      TickCuts(c, e, feed[0].observation);
      var next := ProcessTick(c, e, feed[0].observation);
      SameCut(c, next, Emit(next, t, MissionProgress, None, None, None, None, NoDetails));
      if !feed[0].cancelled {
        LoopCuts(c, next, feed[1..]);
      }
    }
  }

  /** Main result. Every batch of a run but the last is handed over with the very sample that fills it; the last one may still have been
      filling when the run ended. */
  lemma RunCuts(c: Config, events: seq<ScenarioEvent>, setup: Setup, feed: seq<Input>, raises: bool)
    ensures var batches := Run(c, events, setup, feed, raises).0.telemetry;
            forall k :: 0 <= k < |batches| ==>
                          || Filled(c, batches[k])
                          || (k == |batches| - 1 && batches[k] != [] && Filling(c, batches[k]))
  {
    hide Loop, FlushEach, ClearEach, Filled, Filling, StartRun, Emit;
    if setup.Prepared? {
      var start := StartRun(events, setup.states);
      StartCut(c, events, setup.states);
      LoopCuts(c, start, feed);
      var looped := Loop(c, start, feed).0;
      var failed := Emit(looped, looped.lastT, LifecycleEvent, None, None, None, None, NoDetails);
      SameCut(c, looped, failed);
      var cleared := ClearAll(FlushExpectations(looped, looped.lastT), looped.lastT);
      SameCut(c, looped, cleared);
    } else {
      AbandonCuts(events, setup);
    }
  }

  lemma StartCut(c: Config, events: seq<ScenarioEvent>, states: Health)
    ensures Cut(c, StartRun(events, states))
  {
  }

  lemma AbandonCuts(events: seq<ScenarioEvent>, setup: Setup)
    requires !setup.Prepared?
    ensures Abandon(events, setup).0.telemetry == []
  {
  }

  // ---- Verdicts

  /** The entry is the verdict on `p`, decided at `t`: the component, the event that asked, the state seen, and the time since the
      request. */
  predicate IsVerdictOn(p: Watch, states: Health, t: real, entry: RunEvent) {
    && entry.kind == ExpectationResult && entry.time == Round3(t)
    && entry.subsystem == Some(p.expectation.subsystem) && entry.scenarioEventId == Some(p.eventId)
    && entry.stateAfter == Some(if p.expectation.subsystem in states then states[p.expectation.subsystem] else Unknown)
    && entry.details.VerdictDetails? && entry.details.serial == p.serial && entry.details.elapsed == Round3(t - p.requestedAt)
  }

  ghost predicate VerdictsOn(todo: seq<Watch>, states: Health, t: real, log: seq<RunEvent>, from: nat) {
    forall j :: from <= j < |log| ==> exists k :: 0 <= k < |todo| && IsVerdictOn(todo[k], states, t, log[j])
  }

  /** Each entry of a judgement is a verdict on an expectation under watch. */
  lemma {:induction false} JudgementSays(e: EngineState, todo: seq<Watch>, kept: seq<Watch>, t: real)
    ensures VerdictsOn(todo, e.states, t, JudgeEach(e, todo, kept, t).log, |e.log|)
    decreases |todo|
  {
    hide JudgeNow, IsVerdictOn;
    if todo != [] {
      var p := todo[0];
      match JudgeNow(p, e.states, t)
      case Undecided(left) =>
        JudgementSays(e, todo[1..], kept + [p.(leftHealthy := left)], t);
        MoreTodo(p, todo[1..], e.states, t, JudgeEach(e, todo, kept, t).log, |e.log|, |e.log|);
      case Decided(passed) =>
        var step := EmitVerdict(e, p, t, passed);
        JudgementSays(step, todo[1..], kept, t);
        assert IsVerdictOn(p, e.states, t, step.log[|e.log|]) by { EmittedVerdict(e, p, t, passed); }
        MoreTodo(p, todo[1..], e.states, t, JudgeEach(e, todo, kept, t).log, |e.log|, |e.log| + 1);
    }
  }

  lemma {:induction false} FlushSays(e: EngineState, todo: seq<Watch>, t: real)
    ensures |FlushEach(e, todo, t).log| == |e.log| + |todo|
    ensures forall k :: 0 <= k < |todo| ==> IsVerdictOn(todo[k], e.states, t, FlushEach(e, todo, t).log[|e.log| + k])
    decreases |todo|
  {
    hide Status, FlushTime, IsVerdictOn;
    if todo != [] {
      var p := todo[0];
      var passed := Status(p, Observed(e.states, p.expectation.subsystem), FlushTime(p, t)).0 == Some(true);
      var step := EmitVerdict(e, p, t, passed);
      EmittedVerdict(e, p, t, passed);
      FlushSays(step, todo[1..], t);
      var log := FlushEach(e, todo, t).log;
      assert log[|e.log|] == step.log[|e.log|];
      forall k | 0 < k < |todo|
        ensures IsVerdictOn(todo[k], e.states, t, log[|e.log| + k])
      {
        assert IsVerdictOn(todo[1..][k - 1], step.states, t, log[|step.log| + (k - 1)]);
      }
    }
  }

  lemma EmittedVerdict(e: EngineState, p: Watch, t: real, passed: bool)
    ensures var r := EmitVerdict(e, p, t, passed); |r.log| == |e.log| + 1 && e.log <= r.log && IsVerdictOn(p, e.states, t, r.log[|e.log|])
  {
  }

  lemma MoreTodo(p: Watch, rest: seq<Watch>, states: Health, t: real, log: seq<RunEvent>, from: nat, onward: nat)
    requires VerdictsOn(rest, states, t, log, onward) && from <= onward <= |log|
    requires onward == from || (onward == from + 1 && IsVerdictOn(p, states, t, log[from]))
    ensures VerdictsOn([p] + rest, states, t, log, from)
  {
    hide IsVerdictOn;
    var todo := [p] + rest;
    forall j | from <= j < |log|
      ensures exists k :: 0 <= k < |todo| && IsVerdictOn(todo[k], states, t, log[j])
    {
      if j >= onward {
        var k :| 0 <= k < |rest| && IsVerdictOn(rest[k], states, t, log[j]);
        assert todo[k + 1] == rest[k];
      } else {
        assert todo[0] == p;
      }
    }
  }

  // ---- Responses and mission events

  /** Every response of an observation makes one entry, in order, with its component and whether it is a safe state. */
  lemma {:induction false} ResponsesAreLogged(e: EngineState, responses: seq<Response>, t: real)
    ensures var log := Respond(e, responses, t).log;
            && |log| == |e.log| + |responses|
            && forall k :: 0 <= k < |responses| ==>
                 var entry := log[|e.log| + k];
                 && entry.kind == SystemResponded && entry.subsystem == responses[k].subsystem && entry.time == Round3(t)
                 && entry.details == ResponseDetails(responses[k].safeState) && entry.scenarioEventId == None && entry.stateAfter == None
    decreases |responses|
  {
    if responses != [] {
      var step := Emit(e, t, SystemResponded, responses[0].subsystem, None, None, None, ResponseDetails(responses[0].safeState));
      ResponsesAreLogged(step, responses[1..], t);
      var log := Respond(e, responses, t).log;
      assert log == Respond(step, responses[1..], t).log && log[|e.log|] == step.log[|e.log|];
      forall k | 0 < k < |responses|
        ensures log[|e.log| + k] == log[|step.log| + (k - 1)] && responses[k] == responses[1..][k - 1]
      {
      }
    }
  }

  /** So does every mission event, without a component. */
  lemma {:induction false} MissionIsLogged(e: EngineState, events: seq<MissionEvent>, t: real)
    ensures var log := Progress(e, events, t).log;
            && |log| == |e.log| + |events|
            && forall j :: |e.log| <= j < |log| ==> log[j] == RunEvent(j, Round3(t), MissionProgress, None, None, None, None, NoDetails)
    decreases |events|
  {
    if events != [] {
      var step := Emit(e, t, MissionProgress, None, None, None, None, NoDetails);
      MissionIsLogged(step, events[1..], t);
      var log := Progress(e, events, t).log;
      assert log == Progress(step, events[1..], t).log && log[|e.log|] == step.log[|e.log|];
    }
  }

  /** What an observation logs: its changes, then one entry for each response, then one for each mission event. */
  lemma ObservationIsLogged(c: Config, e: EngineState, o: Observation)
    ensures var changed := ApplyChanges(c, e, o.changes, o.sample.t).log;
            var log := ProcessObservation(c, e, o).log;
            var n := |changed|;
            && |log| == n + |o.responses| + |o.missionEvents| && log[..n] == changed
            && (forall k :: 0 <= k < |o.responses| ==>
                  log[n + k].kind == SystemResponded && log[n + k].subsystem == o.responses[k].subsystem
                  && log[n + k].details == ResponseDetails(o.responses[k].safeState))
            && forall k :: n + |o.responses| <= k < |log| ==> log[k].kind == MissionProgress
  {
    hide ApplyChanges, Respond, Progress, AnyRecovering;
    var t := o.sample.t;
    var changed := ApplyChanges(c, e, o.changes, t);
    ResponsesAreLogged(changed, o.responses, t);
    var responded := Respond(changed, o.responses, t);
    MissionIsLogged(responded, o.missionEvents, t);
    var log := Progress(responded, o.missionEvents, t).log;
    assert log == ProcessObservation(c, e, o).log;
    forall k | 0 <= k < |responded.log|
      ensures log[k] == responded.log[k]
    {
    }
  }
}
