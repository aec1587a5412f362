/** The metrics of a run, read back from the log the engine wrote. */
module Analysis {
  import opened Options
  import opened States
  import opened Rounding
  import opened RunLog
  import opened EngineModel
  import opened EngineClock
  import opened EnginePairing
  import opened RecoveryAnalysis
  import Sorting
  import Topology

  /** The order in which the analysis reads events. */
  function ByTimeAndSequence(): RunEvent -> Sorting.Key {
    (e: RunEvent) => (e.time, e.sequence)
  }

  /** Sorting by time and sequence returns the log in the order it was emitted. */
  lemma SortedLogIsLog(log: seq<RunEvent>, t: real)
    requires InOrder(log, t)
    ensures Sorting.Sort(log, ByTimeAndSequence()) == log
  {
    forall i, j | 0 <= i < j < |log|
      ensures Sorting.NoLater(ByTimeAndSequence()(log[i]), ByTimeAndSequence()(log[j]))
    {
      assert log[i].sequence == i && log[j].sequence == j;
    }
    Sorting.SortOfSorted(log, ByTimeAndSequence());
  }

  /** The record of a closed fault against the stamp of its recovery: the duration is the stamped one exactly when
      the rounding shifts of the two observation times agree, and never more than a millisecond off. */
  ghost predicate RecordFitsPair(record: RecoveryRecord, pair: (RunEvent, RunEvent), clock: Clock) {
    var stamp := pair.1;
    && stamp.details.RecoveryDetails? && stamp.details.faultDuration.Some?
    && stamp.subsystem == Some(record.subsystem) && record.recoveredAt == Some(stamp.time) && record.faultStartedAt == pair.0.time
    && record.faultDuration.Some? && record.recoveryTime.Some? && record.recoveryExpected
    && 0.0 <= record.recoveryTime.value <= record.faultDuration.value
    && (record.faultDuration == stamp.details.faultDuration
        <==> ShiftsAgree(clock.At(pair.0.sequence), clock.At(pair.1.sequence)))
    && -0.001 <= record.faultDuration.value - stamp.details.faultDuration.value <= 0.001
  }

  lemma ClosedFaultFits(topology: Topology.SystemTopology, events: seq<RunEvent>, pair: (RunEvent, RunEvent), clock: Clock)
    requires HasStamp(pair, clock) && pair.1.subsystem.Some?
    ensures RecordFitsPair(RecordOf(topology, events, pair.0, pair.1), pair, clock)
  {
    hide DisturbanceEnd, Reference, Round3, ShiftsAgree, Clock.At;
    var start, end := clock.At(pair.0.sequence), clock.At(pair.1.sequence);
    Round3Monotone(start, end);
    RecoveryWithinFault(topology, events, pair.0, pair.1);
    RecordMatchesStamp(pair, start, end);
  }

  /** What the analysis reports about a fault that stayed open. */
  ghost predicate RecordFitsOpen(record: RecoveryRecord, since: map<Id, real>) {
    && record.subsystem in since && record.faultStartedAt == Round3(since[record.subsystem])
    && record.recoveredAt.None? && record.recoveryTime.None?
  }

  /** One record for each closed fault, in order, then one for each fault still open. */
  ghost predicate RecordsFit(records: seq<RecoveryRecord>, closed: seq<(RunEvent, RunEvent)>, since: map<Id, real>, clock: Clock) {
    && |records| == |closed| + |since|
    && (forall k :: 0 <= k < |closed| ==> RecordFitsPair(records[k], closed[k], clock))
    && (forall k :: |closed| <= k < |records| ==> RecordFitsOpen(records[k], since))
    && (forall s :: s in since ==> exists k :: |closed| <= k < |records| && records[k].subsystem == s)
  }

  lemma ClosedPartFits(topology: Topology.SystemTopology, log: seq<RunEvent>, closed: seq<(RunEvent, RunEvent)>, k: nat, clock: Clock)
    requires AllNamed(closed) && k < |closed| && HasStamp(closed[k], clock)
    ensures RecordFitsPair(Records(topology, log, closed)[k], closed[k], clock)
  {
    hide RecordOf, HasStamp, RecordFitsPair;
    ClosedFaultFits(topology, log, closed[k], clock);
  }

  lemma OpenPartFits(log: seq<RunEvent>, unresolved: seq<RecoveryRecord>, r: Replay, since: map<Id, real>, clock: Clock)
    requires AreUnresolved(unresolved, log, r.open) && SameFaults(r, since, clock)
    ensures |unresolved| == |since| && forall k :: 0 <= k < |unresolved| ==> RecordFitsOpen(unresolved[k], since)
    ensures forall s :: s in since ==> exists k :: 0 <= k < |unresolved| && unresolved[k].subsystem == s
  {
    hide Round3, PersistsToEnd, ClearedAt, HasStamp, OpensFault, Clock.At;
    SameSize(r.open, since);
    forall s | s in since
      ensures Recorded(unresolved, s)
    {
      assert s in r.open;
    }
  }

  lemma RecordsFitState(topology: Topology.SystemTopology, e: EngineState, records: seq<RecoveryRecord>)
    requires Agrees(e) && AreRecords(topology, e.log, records)
    ensures RecordsFit(records, Replayed(e.log).closed, e.faultOpenSince, ClockOf(e))
  {
    hide Replayed, StampedRecoveries, Records, RecordFitsPair, RecordFitsOpen, FaultsTracked, AreUnresolved, HasStamp, OpensFault,
         Below, TicksWithin, Clock.At;
    var r, clock := Replayed(e.log), ClockOf(e);
    var n := |r.closed|;
    var unresolved := records[n..];
    OpenPartFits(e.log, unresolved, r, e.faultOpenSince, clock);
    forall k | 0 <= k < n
      ensures RecordFitsPair(records[k], r.closed[k], clock)
    {
      ClosedPartFits(topology, e.log, r.closed, k, clock);
      assert records[k] == records[..n][k];
    }
    hide SameFaults;
    forall k | n <= k < |records|
      ensures RecordFitsOpen(records[k], e.faultOpenSince)
    {
      assert records[k] == unresolved[k - n];
    }
    forall s | s in e.faultOpenSince
      ensures exists k :: n <= k < |records| && records[k].subsystem == s
    {
      var k :| 0 <= k < |unresolved| && unresolved[k].subsystem == s;
      assert records[n + k].subsystem == s;
    }
  }

  /** Main result. For every run whose states start healthy or unknown and whose clock never goes back,
      the analysis of its log yields one record for each stamped recovery, in the same order, with a recovery
      time between zero and the fault duration, and with the stamped duration exactly when the rounding shifts of
      the observations that opened and closed the fault agree; and one record for each fault the engine still
      held open, started when the engine says. */
  lemma RecordsFitRun(c: Config, events: seq<ScenarioEvent>, setup: Setup, feed: seq<Input>, raises: bool,
                      topology: Topology.SystemTopology, records: seq<RecoveryRecord>)
    requires setup.Prepared? ==> StartsHealthyOrUnknown(setup.states)
    requires TimesFrom(feed, 0.0)
    requires AreRecords(topology, Sorting.Sort(Run(c, events, setup, feed, raises).0.log, ByTimeAndSequence()), records)
    ensures var e := Run(c, events, setup, feed, raises).0;
            && RecordsFit(records, Replayed(e.log).closed, e.faultOpenSince, ClockOf(e))
            && StampsMatch(StampedRecoveries(e.log), Replayed(e.log).closed)
  {
    hide Run, AreRecords, RecordsFit, StampedRecoveries, InOrder, Sorting.Sort, Replayed, Clock.At, StampsMatch, SameFaults,
         Below, TicksWithin, FaultsTracked;
    var e := Run(c, events, setup, feed, raises).0;
    RunAgrees(c, events, setup, feed, raises);
    RunInOrder(c, events, setup, feed, raises);
    SortedLogIsLog(e.log, e.lastT);
    RecordsFitState(topology, e, records);
  }

  /** When all observation times are whole milliseconds, every record carries exactly the stamped duration. */
  lemma GridRecordsMatch(c: Config, events: seq<ScenarioEvent>, setup: Setup, feed: seq<Input>, raises: bool,
                         topology: Topology.SystemTopology, records: seq<RecoveryRecord>, k: nat)
    requires setup.Prepared? ==> StartsHealthyOrUnknown(setup.states)
    requires TimesFrom(feed, 0.0) && forall i :: 0 <= i < |feed| ==> OnGrid(feed[i].observation.sample.t)
    requires AreRecords(topology, Sorting.Sort(Run(c, events, setup, feed, raises).0.log, ByTimeAndSequence()), records)
    requires k < |Replayed(Run(c, events, setup, feed, raises).0.log).closed| <= |records|
    ensures var stamp := Replayed(Run(c, events, setup, feed, raises).0.log).closed[k].1;
            stamp.details.RecoveryDetails? && records[k].faultDuration == stamp.details.faultDuration
  {
    hide Run, AreRecords, StampedRecoveries, Sorting.Sort, Replayed, Clock.At, StampsMatch, SameFaults, TicksWithin, FaultsTracked,
         ShiftsAgree, OnGrid, TimesFrom;
    var e := Run(c, events, setup, feed, raises).0;
    RecordsFitRun(c, events, setup, feed, raises, topology, records);
    RunAgrees(c, events, setup, feed, raises);
    RunTicks(c, events, setup, feed, raises);
    var clock, pair := ClockOf(e), Replayed(e.log).closed[k];
    assert RecordFitsPair(records[k], pair, clock);
    hide RecordFitsPair, RecordsFit;
    GridTime(clock, feed, pair.0.sequence);
    GridTime(clock, feed, pair.1.sequence);
    GridShiftsAgree(clock.At(pair.0.sequence), clock.At(pair.1.sequence));
    FitsUnderGuard(records[k], pair, clock);
  }

  lemma FitsUnderGuard(record: RecoveryRecord, pair: (RunEvent, RunEvent), clock: Clock)
    requires RecordFitsPair(record, pair, clock) && ShiftsAgree(clock.At(pair.0.sequence), clock.At(pair.1.sequence))
    ensures pair.1.details.RecoveryDetails? && record.faultDuration == pair.1.details.faultDuration
  {
    hide ShiftsAgree, Clock.At;
  }

  lemma GridTime(clock: Clock, feed: seq<Input>, i: nat)
    requires i < clock.Logged() && TicksOfFeed(clock.ticks, 0, feed)
    requires forall j :: 0 <= j < |feed| ==> OnGrid(feed[j].observation.sample.t)
    ensures OnGrid(clock.At(i))
  {
    SettledAt(clock, clock.now, i);
    hide Clock.At, OnGrid;
    var k :| 0 <= k < |clock.ticks| && clock.At(i) == clock.ticks[k].t;
    assert clock.ticks[k].t == feed[k - 0].observation.sample.t;
  }

  lemma SameSize(a: map<Id, RunEvent>, b: map<Id, real>)
    requires a.Keys == b.Keys
    ensures |a| == |b|
  {
    assert |a| == |a.Keys| && |b| == |b.Keys|;
  }
}
