/** A component that goes down at one observation and comes back at the next: concrete runs in which rounding shows. */
module Blinking {
  import opened Options
  import opened States
  import opened Rounding
  import opened RunLog
  import opened EngineModel
  import opened EnginePairing
  import opened EngineMirror
  import opened RecoveryAnalysis
  import opened Timelines
  import Analysis
  import Sorting
  import Timeline = TimelineAgreement
  import Topology

  const BLINKING := NavigationGnss

  function Seen(t: real, state: ComponentState, finished: bool): Observation {
    Observation(Sample(t, map[BLINKING := state], Mission, Enroute, true, true, 0.5),
                [StateChange(BLINKING, state, None)], [], [], finished)
  }

  /** Down at `open`, back at `close`, which ends the run. */
  function Blink(open: real, close: real): seq<Input> {
    [Input(Seen(open, Unavailable, false), false), Input(Seen(close, Nominal, true), false)]
  }

  const HEALTHY: Health := map[BLINKING := Nominal]

  function BlinkRun(c: Config, open: real, close: real): EngineState {
    Run(c, [], Setup.Prepared(HEALTHY), Blink(open, close), false).0
  }

  /** Nothing scheduled, nothing active, nothing expected. */
  predicate Still(e: EngineState) {
    e.pending == [] && e.clears == [] && e.expectations == [] && e.active == []
  }

  /** With nothing scheduled, nothing active and nothing expected, a tick logs its one change. */
  lemma QuietTick(c: Config, e: EngineState, o: Observation)
    requires Still(e) && |o.changes| == 1 && o.responses == [] && o.missionEvents == []
    requires Observed(e.states, o.changes[0].subsystem) != o.changes[0].after && o.changes[0].causedBy.None?
    ensures var s, before, after := o.changes[0].subsystem, Observed(e.states, o.changes[0].subsystem), o.changes[0].after;
            var next := ProcessTick(c, e, o);
            && next.log == e.log + [ChangeEvent(e.log, o.sample.t, s, before, after, None, false, e.faultOpenSince)]
            && next.states == e.states[s := after] && next.faultOpenSince == NextFaults(e.faultOpenSince, s, before, after, o.sample.t)
            && Still(next) && next.ticks == e.ticks + [Tick(o.sample.t, next.states, |next.log|)] && next.lastT == o.sample.t
  {
    hide Round3, AnyRecovering, Observed, KindOf, NextFaults, ChangeEvent;
    var t, change := o.sample.t, o.changes[0];
    var late := e.(lastT := t);
    assert ProcessScheduled(c, late, t) == late;
    OneChange(c, late, change, t);
    var changed := ApplyChange(c, late, change, t);
    assert o.changes == [change];
    assert ApplyChanges(c, late, o.changes, t) == changed;
    assert Progress(Respond(changed, o.responses, t), o.missionEvents, t) == changed;
    var observed := ProcessObservation(c, late, o);
    assert observed == FollowRecovery(changed);
    assert ProcessExpectations(observed, t) == observed;
  }

  lemma OneChange(c: Config, e: EngineState, change: StateChange, t: real)
    requires e.active == [] && change.causedBy.None? && Observed(e.states, change.subsystem) != change.after
    ensures var s, before := change.subsystem, Observed(e.states, change.subsystem);
            ApplyChange(c, e, change, t)
            == e.(states := e.states[s := change.after], faultOpenSince := NextFaults(e.faultOpenSince, s, before, change.after, t),
                  log := e.log + [ChangeEvent(e.log, t, s, before, change.after, None, false, e.faultOpenSince)])
  {
    hide Round3, Observed, KindOf, NextFaults, ChangeEvent;
    assert CauseOf(c, e, change) == None;
    assert RetireOn(e.active, change.subsystem) == [] && RetiredOn(e.active, change.subsystem) == [];
    assert e.retired + [] == e.retired;
  }

  // ---- The run, step by step

  function FaultEvent(open: real): RunEvent {
    RunEvent(1, Round3(open), ObservedEffect, Some(BLINKING), Some(Nominal), Some(Unavailable), None, ChangeDetails(false))
  }

  /** The engine stamps the rounded difference of the two observation times. */
  function RecoveryEvent(open: real, close: real): RunEvent {
    RunEvent(2, Round3(close), Recovery, Some(BLINKING), Some(Unavailable), Some(Nominal), None,
             RecoveryDetails(false, Some(Round3(close - open))))
  }

  lemma StartIsStill()
    ensures var start := StartRun([], HEALTHY);
            Still(start) && |start.log| == 1 && start.log[0].kind == MissionProgress && start.ticks == []
            && start.states == HEALTHY && start.faultOpenSince == map[]
  {
  }

  lemma GoesDown(c: Config, open: real)
    ensures var first := ProcessTick(c, StartRun([], HEALTHY), Seen(open, Unavailable, false));
            && Still(first) && first.log == StartRun([], HEALTHY).log + [FaultEvent(open)]
            && first.ticks == [Tick(open, map[BLINKING := Unavailable], 2)]
            && first.states == map[BLINKING := Unavailable] && first.faultOpenSince == map[BLINKING := open]
  {
    hide ProcessTick, Round3, StartRun;
    StartIsStill();
    QuietTick(c, StartRun([], HEALTHY), Seen(open, Unavailable, false));
    assert HEALTHY[BLINKING := Unavailable] == map[BLINKING := Unavailable];
  }

  lemma ComesBack(c: Config, e: EngineState, open: real, close: real)
    requires Still(e) && |e.log| == 2 && e.states == map[BLINKING := Unavailable] && e.faultOpenSince == map[BLINKING := open]
    ensures var second := ProcessTick(c, e, Seen(close, Nominal, true));
            && Still(second) && second.log == e.log + [RecoveryEvent(open, close)]
            && second.ticks == e.ticks + [Tick(close, HEALTHY, 3)] && second.lastT == close
  {
    hide ProcessTick, Round3;
    QuietTick(c, e, Seen(close, Nominal, true));
    assert e.states[BLINKING := Nominal] == HEALTHY;
  }

  lemma BlinkLog(c: Config, open: real, close: real)
    requires open < c.timeout
    ensures var r := BlinkRun(c, open, close);
            && |r.log| == 4 && r.log[0].kind == MissionProgress && r.log[3].kind == MissionProgress
            && r.log[1] == FaultEvent(open) && r.log[2] == RecoveryEvent(open, close)
            && r.ticks == [Tick(open, map[BLINKING := Unavailable], 2), Tick(close, HEALTHY, 3)]
  {
    hide ProcessTick, Round3, StartRun, FaultEvent, RecoveryEvent, Loop, Close, NewEvent;
    var start, feed := StartRun([], HEALTHY), Blink(open, close);
    var first := ProcessTick(c, start, feed[0].observation);
    var second := ProcessTick(c, first, feed[1].observation);
    StartIsStill();
    GoesDown(c, open);
    ComesBack(c, first, open, close);
    BlinkLoops(c, start, open, close);
    var ended := Emit(second, close, MissionProgress, None, None, None, None, NoDetails);
    StillClose(ended, Finished);
    MissionEnds(second.log, close);
  }

  lemma MissionEnds(log: seq<RunEvent>, t: real)
    ensures NewEvent(log, t, MissionProgress, None, None, None, None, NoDetails).kind == MissionProgress
  {
  }

  lemma BlinkLoops(c: Config, e: EngineState, open: real, close: real)
    requires open < c.timeout
    ensures var feed := Blink(open, close);
            var second := ProcessTick(c, ProcessTick(c, e, feed[0].observation), feed[1].observation);
            Loop(c, e, feed) == (Emit(second, close, MissionProgress, None, None, None, None, NoDetails), Finished)
  {
    hide ProcessTick, Emit;
    var feed := Blink(open, close);
    assert feed[1..] == [feed[1]];
    var first := ProcessTick(c, e, feed[0].observation);
    assert Loop(c, first, feed[1..]).1 == Finished;
  }

  /** Closing adds nothing when nothing is active or expected. */
  lemma StillClose(e: EngineState, exit: Exit)
    requires Still(e)
    ensures Close(e, exit, false).0.log == e.log && Close(e, exit, false).0.ticks == e.ticks
  {
    assert FlushExpectations(e, e.lastT) == e;
    assert ClearAll(e, e.lastT) == e;
  }

  lemma FourReplayed(a: RunEvent, b: RunEvent, d: RunEvent, open: real, close: real)
    requires a.kind == MissionProgress && d.kind == MissionProgress && b == FaultEvent(open)
    ensures Replayed([a] + [b] + [RecoveryEvent(open, close)] + [d]) == Replay(map[], [(FaultEvent(open), RecoveryEvent(open, close))])
  {
    hide Round3, Replayed;
    var r := RecoveryEvent(open, close);
    NothingReplayed();
    assert [] + [a] == [a];
    ReplayAppend([], a);
    ReplayAppend([a], b);
    ReplayAppend([a] + [b], r);
    ReplayAppend([a] + [b] + [r], d);
    assert map[BLINKING := b] - {BLINKING} == map[];
  }

  lemma BlinkReplays(c: Config, open: real, close: real)
    requires open < c.timeout
    ensures Replayed(BlinkRun(c, open, close).log) == Replay(map[], [(FaultEvent(open), RecoveryEvent(open, close))])
  {
    hide BlinkRun, Round3, Replayed, FaultEvent, RecoveryEvent;
    BlinkLog(c, open, close);
    var log := BlinkRun(c, open, close).log;
    FourReplayed(log[0], log[1], log[3], open, close);
    assert log == [log[0]] + [log[1]] + [log[2]] + [log[3]];
  }

  /** The analysis reads the log in the order it was written. */
  lemma BlinkSorted(c: Config, open: real, close: real)
    requires 0.0 <= open <= close
    ensures Sorting.Sort(BlinkRun(c, open, close).log, Analysis.ByTimeAndSequence()) == BlinkRun(c, open, close).log
  {
    hide Run, Round3, InOrder, FaithfulFeed;
    BlinkIsFaithful(open, close);
    RunInOrder(c, [], Setup.Prepared(HEALTHY), Blink(open, close), false);
    var r := BlinkRun(c, open, close);
    Analysis.SortedLogIsLog(r.log, r.lastT);
  }

  lemma NothingReplayed()
    ensures Replayed([]) == Replay(map[], [])
  {
  }

  lemma BlinkIsFaithful(open: real, close: real)
    requires 0.0 <= open <= close
    ensures FaithfulFeed(HEALTHY, Blink(open, close)) && TimesFrom(Blink(open, close), 0.0)
    ensures KnownEvents([], HEALTHY) && StartsHealthyOrUnknown(HEALTHY)
  {
    var feed := Blink(open, close);
    assert feed[1..] == [feed[1]] && feed[1..][1..] == [];
    var down, up := feed[0].observation, feed[1].observation;
    assert down.changes[0].subsystem == BLINKING && up.changes[0].subsystem == BLINKING;
    assert Faithful(HEALTHY, down);
    assert Faithful(down.sample.health, up);
  }

  // ---- What rounding does to it

  /** The first two steps of a mock at three samples per second. */
  lemma ThirdsRounded()
    ensures Round3(0.333333) == 0.333 && Round3(0.666666) == 0.667 && Round3(0.666666 - 0.333333) == 0.333 && Round3(0.667 - 0.333) == 0.334
  {
    assert (333.333 as real).Floor == 333;
    assert (666.666 as real).Floor == 666;
    assert (334.0 as real).Floor == 334;
  }

  /** A run whose record does not carry the stamped duration: down at the first and back at the second of three
      samples per second, the fault lasted 0.333 s for the engine and 0.334 s for the analysis. */
  lemma StampMayDiffer(c: Config, topology: Topology.SystemTopology, records: seq<RecoveryRecord>)
    requires c.timeout >= 1.0
    requires AreRecords(topology, Sorting.Sort(BlinkRun(c, 0.333333, 0.666666).log, Analysis.ByTimeAndSequence()), records)
    ensures |records| == 1 && records[0].faultDuration == Some(0.334)
    ensures var log := BlinkRun(c, 0.333333, 0.666666).log;
            |log| == 4 && log[2].kind == Recovery && log[2].details == RecoveryDetails(false, Some(0.333))
  {
    hide BlinkRun, Sorting.Sort, Round3, AreRecords, Replayed;
    ThirdsRounded();
    var r := BlinkRun(c, 0.333333, 0.666666);
    BlinkLog(c, 0.333333, 0.666666);
    BlinkReplays(c, 0.333333, 0.666666);
    BlinkSorted(c, 0.333333, 0.666666);
    OnePairOneRecord(topology, r.log, records, FaultEvent(0.333333), RecoveryEvent(0.333333, 0.666666));
  }

  lemma OnePairOneRecord(topology: Topology.SystemTopology, log: seq<RunEvent>, records: seq<RecoveryRecord>, fault: RunEvent, recovery: RunEvent)
    requires AreRecords(topology, log, records) && Replayed(log) == Replay(map[], [(fault, recovery)])
    ensures |records| == 1 && records[0].faultDuration == Some(Round3(recovery.time - fault.time))
  {
    hide Replayed, Round3, DisturbanceEnd, Reference;
    assert records[0] == records[..1][0];
  }

  /** A sample drawn late: the step time rounds up, and at the sample that sees the component healthy again the client's
      track still shows it down. */
  lemma TrackMayLag(c: Config, end: real)
    requires c.timeout >= 1.0 && end > 0.666666
    ensures StateAt(EventTrack(Nominal, ChangesOf(BlinkRun(c, 0.333333, 0.666666).log, BLINKING), end), 0.666666) == Some(Unavailable)
    ensures Blink(0.333333, 0.666666)[1].observation.sample.health[BLINKING] == Nominal
  {
    ThirdsRounded();
    BlinkShows(c, 0.333333, 0.666666, 0.666666, end);
  }

  /** A sample drawn early: two observations within the same millisecond, and at the sample that sees the component down
      the client's track already shows it healthy again, although that sample time does not round up. */
  lemma TrackMayLead(c: Config, end: real)
    requires c.timeout >= 1.0 && end > 0.0001
    ensures StateAt(EventTrack(Nominal, ChangesOf(BlinkRun(c, 0.0001, 0.0004).log, BLINKING), end), 0.0001) == Some(Nominal)
    ensures Blink(0.0001, 0.0004)[0].observation.sample.health[BLINKING] == Unavailable && Round3(0.0001) <= 0.0001
  {
    assert (0.1 as real).Floor == 0 && (0.4 as real).Floor == 0;
    assert Round3(0.0001) == 0.0 && Round3(0.0004) == 0.0;
    BlinkShows(c, 0.0001, 0.0004, 0.0001, end);
  }

  /** What the client's track of the blinking component shows. */
  lemma BlinkShows(c: Config, open: real, close: real, t: real, end: real)
    requires 0.0 <= open <= close && open < c.timeout && 0.0 <= t < end
    ensures StateAt(EventTrack(Nominal, ChangesOf(BlinkRun(c, open, close).log, BLINKING), end), t)
         == Some(if Round3(close) <= t || Round3(open) > t then Nominal else Unavailable)
  {
    hide Run, Round3, StateAt, EventTrack, ChangesOf, FaithfulFeed, TimesFrom, KnownEvents;
    BlinkIsFaithful(open, close);
    BlinkLog(c, open, close);
    var feed, r := Blink(open, close), BlinkRun(c, open, close);
    Timeline.ClientFollows(c, [], HEALTHY, feed, false, BLINKING, t, end);
    var ticks := r.ticks;
    assert ticks[..1] == [ticks[0]] && ticks[..1][..0] == [];
  }
}
