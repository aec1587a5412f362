/** Which observation a log entry belongs to, and when an injection is due. */
module EngineClock {
  import opened Options
  import opened States
  import opened RunLog
  import opened EngineModel

  /** Which observation a log entry belongs to: the ticks done so far, and the time of the one under way. */
  datatype Clock = Clock(ticks: seq<Tick>, now: real) {
    /** The time of the observation during which entry `i` was logged. */
    function At(i: nat): real
      decreases |ticks|
    {
      if ticks == [] then now else if i < ticks[0].logged then ticks[0].t else Clock(ticks[1..], now).At(i)
    }

    /** How far the log had come with the last tick. */
    function Logged(): nat {
      if ticks == [] then 0 else ticks[|ticks| - 1].logged
    }
  }

  function ClockOf(e: EngineState): Clock { Clock(e.ticks, e.lastT) }

  ghost predicate TicksWithin(ticks: seq<Tick>, n: nat) {
    forall k :: 0 <= k < |ticks| ==> ticks[k].logged <= n
  }

  /** An entry behind all ticks belongs to the observation under way. */
  lemma {:induction false} UnderWay(clock: Clock, i: nat)
    requires TicksWithin(clock.ticks, i)
    ensures clock.At(i) == clock.now
    decreases |clock.ticks|
  {
    if clock.ticks != [] {
      assert clock.ticks[0].logged <= i;
      UnderWay(Clock(clock.ticks[1..], clock.now), i);
    }
  }

  /** What was logged by the last tick does not depend on what is under way. */
  lemma {:induction false} SettledAt(clock: Clock, later: real, i: nat)
    requires i < clock.Logged()
    ensures Clock(clock.ticks, later).At(i) == clock.At(i)
    ensures exists k :: 0 <= k < |clock.ticks| && clock.At(i) == clock.ticks[k].t
    decreases |clock.ticks|
  {
    if i >= clock.ticks[0].logged {
      var rest := Clock(clock.ticks[1..], clock.now);
      SettledAt(rest, later, i);
      var k :| 0 <= k < |rest.ticks| && rest.At(i) == rest.ticks[k].t;
      assert clock.ticks[k + 1].t == clock.At(i);
    }
  }

  /** Finishing the observation under way changes no time. */
  lemma {:induction false} TickDone(clock: Clock, tick: Tick, i: nat)
    requires tick.t == clock.now
    ensures Clock(clock.ticks + [tick], clock.now).At(i) == clock.At(i)
    decreases |clock.ticks|
  {
    if clock.ticks == [] {
      assert clock.ticks + [tick] == [tick] && [tick][1..] == [];
    } else {
      assert (clock.ticks + [tick])[1..] == clock.ticks[1..] + [tick];
      TickDone(Clock(clock.ticks[1..], clock.now), tick, i);
    }
  }

  // ---- When an injection was applied

  predicate IsApplication(e: RunEvent, id: EventId) {
    e.kind == InjectionApplied && e.scenarioEventId == Some(id)
  }

  /** The entry that says the injection was applied, or the length of the log when there is none. */
  function AppliedAt(log: seq<RunEvent>, id: EventId): (i: nat)
    ensures i <= |log| && (i < |log| ==> IsApplication(log[i], id))
    ensures forall j :: 0 <= j < i ==> !IsApplication(log[j], id)
  {
    if log == [] then 0
    else
      var shorter := log[..|log| - 1];
      var i := AppliedAt(shorter, id);
      assert forall j :: 0 <= j < i ==> log[j] == shorter[j];
      if i < |shorter| || IsApplication(log[|log| - 1], id) then i else |log|
  }

  lemma AppliedStays(before: seq<RunEvent>, after: seq<RunEvent>, id: EventId)
    requires before <= after && AppliedAt(before, id) < |before|
    ensures AppliedAt(after, id) == AppliedAt(before, id)
  {
    var i, j := AppliedAt(before, id), AppliedAt(after, id);
    assert after[i] == before[i];
    assert j <= i;
    assert after[j] == before[j];
  }

  /** The time of the observation at which the injection was applied. */
  function AppliedTime(log: seq<RunEvent>, clock: Clock, id: EventId): real {
    clock.At(AppliedAt(log, id))
  }

  /** The end of a bounded injection: its duration after its application. */
  function Due(log: seq<RunEvent>, clock: Clock, request: InjectionRequest): real {
    AppliedTime(log, clock, request.eventId) + if request.duration.Some? then request.duration.value else 0.0
  }

  function DueAt(e: EngineState, request: InjectionRequest): real {
    Due(e.log, ClockOf(e), request)
  }
}
