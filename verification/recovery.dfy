/** Recovery analysis: pairing of observed faults with recoveries by replaying the event log, and
    the recovery record of each pair. */
module RecoveryAnalysis {
  import opened Options
  import opened States
  import opened Rounding
  import opened RunLog
  import Topology

  datatype RecoveryRecord = RecoveryRecord(
    subsystem: Id,
    faultState: ComponentState,
    faultStartedAt: real,
    recoveredAt: Option<real>,
    faultDuration: Option<real>,
    recoveryTime: Option<real>,
    disturbanceClearedAt: Option<real>,
    causedBy: Option<EventId>,
    direct: bool,
    recoveryExpected: bool)

  predicate IsNamed(id: Option<EventId>) { id.Some? && id.value != "" }

  predicate ElapsedClear(e: RunEvent) {
    e.kind == InjectionCleared && IsNamed(e.scenarioEventId) && e.details == ClearDetails(DurationElapsed)
  }

  // ---- Pairing faults with recoveries

  /** Faults still open after a log prefix, by subsystem, and the faults closed so far. */
  datatype Replay = Replay(open: map<Id, RunEvent>, closed: seq<(RunEvent, RunEvent)>)

  predicate OpensFault(e: RunEvent) {
    e.kind == ObservedEffect && e.subsystem.Some? && e.stateAfter.Some? && !e.stateAfter.value.IsHealthy()
  }

  function ReplayStep(r: Replay, e: RunEvent): Replay {
    if e.kind == ObservedEffect then
      if OpensFault(e) && e.subsystem.value !in r.open then r.(open := r.open[e.subsystem.value := e]) else r
    else if e.kind == Recovery && e.subsystem.Some? && e.subsystem.value in r.open then
      Replay(r.open - {e.subsystem.value}, r.closed + [(r.open[e.subsystem.value], e)])
    else r
  }

  function Replayed(events: seq<RunEvent>): Replay {
    if events == [] then Replay(map[], [])
    else ReplayStep(Replayed(events[..|events| - 1]), events[|events| - 1])
  }

  /** Events of other kinds do not disturb the pairing. */
  lemma {:induction false} ReplayIgnores(before: seq<RunEvent>, after: seq<RunEvent>, kinds: set<EventKind>, t: real)
    requires Appended(before, after, kinds, t)
    requires ObservedEffect !in kinds && Recovery !in kinds
    ensures Replayed(after) == Replayed(before)
    decreases |after|
  {
    if |after| > |before| {
      ReplayIgnores(before, after[..|after| - 1], kinds, t);
    } else {
      assert after == before;
    }
  }

  lemma ReplayAppend(events: seq<RunEvent>, e: RunEvent)
    ensures Replayed(events + [e]) == ReplayStep(Replayed(events), e)
  {
    assert (events + [e])[..|events|] == events;
  }

  // ---- The disturbance window

  function Later(a: Option<real>, b: real): Option<real> {
    if a.None? || a.value < b then Some(b) else a
  }

  /** The clear of a bounded injection acting on one of the subsystems, within the fault. */
  predicate ClearsWithin(e: RunEvent, related: set<Id>, from: real, to: real) {
    ElapsedClear(e) && e.subsystem.Some? && e.subsystem.value in related && from <= e.time <= to
  }

  /** `t` is the latest of the candidates for the end of a disturbance. */
  ghost predicate IsLatestClear(t: Option<real>, events: seq<RunEvent>, related: set<Id>, from: real, to: real) {
    && (t.None? ==> forall i :: 0 <= i < |events| ==> !ClearsWithin(events[i], related, from, to))
    && (t.Some? ==> exists i :: 0 <= i < |events| && ClearsWithin(events[i], related, from, to) && events[i].time == t.value)
    && (forall i :: 0 <= i < |events| && ClearsWithin(events[i], related, from, to) ==> t.Some? && events[i].time <= t.value)
  }

  function LatestClear(events: seq<RunEvent>, related: set<Id>, from: real, to: real): (r: Option<real>)
    ensures IsLatestClear(r, events, related, from, to)
  {
    if events == [] then None
    else
      var last := events[|events| - 1];
      var rest := LatestClear(events[..|events| - 1], related, from, to);
      assert rest.Some? ==> exists i :: 0 <= i < |events| - 1 && ClearsWithin(events[i], related, from, to) && events[i].time == rest.value;
      if ClearsWithin(last, related, from, to) then Later(rest, last.time) else rest
  }

  /** When the injection ran out, by the last clear that says so. */
  function ClearedAt(events: seq<RunEvent>, id: EventId): Option<real> {
    if events == [] then None
    else
      var last := events[|events| - 1];
      if ElapsedClear(last) && last.scenarioEventId.value == id then Some(last.time)
      else ClearedAt(events[..|events| - 1], id)
  }

  function Related(topology: Topology.SystemTopology, subsystem: Id): set<Id> {
    {subsystem} + set x | x in topology.Upstream(subsystem)
  }

  function DisturbanceEnd(topology: Topology.SystemTopology, events: seq<RunEvent>, fault: RunEvent, recovery: RunEvent): Option<real>
    requires recovery.subsystem.Some?
  {
    var within := LatestClear(events, Related(topology, recovery.subsystem.value), fault.time, recovery.time);
    var own := if IsNamed(fault.scenarioEventId) then ClearedAt(events, fault.scenarioEventId.value) else None;
    if own.Some? then Later(within, own.value) else within
  }

  /** The instant recovery time is measured from. */
  function Reference(end: Option<real>, fault: RunEvent, recovery: RunEvent): real {
    if end.None? then fault.time
    else
      var bounded := if end.value < recovery.time then end.value else recovery.time;
      if fault.time > bounded then fault.time else bounded
  }

  function RecordOf(topology: Topology.SystemTopology, events: seq<RunEvent>, fault: RunEvent, recovery: RunEvent): RecoveryRecord
    requires recovery.subsystem.Some?
  {
    var end := DisturbanceEnd(topology, events, fault, recovery);
    RecoveryRecord(
      recovery.subsystem.value,
      if fault.stateAfter.Some? then fault.stateAfter.value else Unknown,
      fault.time,
      Some(recovery.time),
      Some(Round3(recovery.time - fault.time)),
      Some(Round3(recovery.time - Reference(end, fault, recovery))),
      end,
      fault.scenarioEventId,
      fault.details.ChangeDetails? && fault.details.direct,
      true)
  }

  /** Recovery never takes longer than the fault lasted, and never a negative time. */
  lemma RecoveryWithinFault(topology: Topology.SystemTopology, events: seq<RunEvent>, fault: RunEvent, recovery: RunEvent)
    requires recovery.subsystem.Some? && fault.time <= recovery.time
    ensures var r := RecordOf(topology, events, fault, recovery);
            0.0 <= r.recoveryTime.value <= r.faultDuration.value
  {
    var reference := Reference(DisturbanceEnd(topology, events, fault, recovery), fault, recovery);
    assert fault.time <= reference <= recovery.time;
    Round3Monotone(0.0, recovery.time - reference);
    Round3Monotone(recovery.time - reference, recovery.time - fault.time);
    assert (0.0 as real).Floor == 0;
    assert Round3(0.0) == 0.0;
  }

  // ---- The records of a log

  ghost predicate AllNamed(closed: seq<(RunEvent, RunEvent)>) {
    forall k :: 0 <= k < |closed| ==> closed[k].1.subsystem.Some?
  }

  lemma {:induction false} ClosedNamed(events: seq<RunEvent>)
    ensures AllNamed(Replayed(events).closed)
  {
    if events != [] {
      ClosedNamed(events[..|events| - 1]);
    }
  }

  function Records(topology: Topology.SystemTopology, events: seq<RunEvent>, closed: seq<(RunEvent, RunEvent)>): seq<RecoveryRecord>
    requires AllNamed(closed)
  {
    seq(|closed|, k requires 0 <= k < |closed| => RecordOf(topology, events, closed[k].0, closed[k].1))
  }

  /** Why an injection was last cleared. */
  function LastReason(events: seq<RunEvent>, id: EventId): Option<ClearReason> {
    if events == [] then None
    else
      var last := events[|events| - 1];
      if last.kind == InjectionCleared && last.scenarioEventId == Some(id) && last.details.ClearDetails? then Some(last.details.reason)
      else LastReason(events[..|events| - 1], id)
  }

  function LastRequested(events: seq<RunEvent>, id: EventId): Option<Effect> {
    if events == [] then None
    else
      var last := events[|events| - 1];
      if last.kind == InjectionRequested && last.scenarioEventId == Some(id) && last.details.RequestDetails? then Some(last.details.effect)
      else LastRequested(events[..|events| - 1], id)
  }

  /** The causing injection lasted to the end of the scenario: it was cleared only there, or never,
      and it does not end on its own. */
  predicate PersistsToEnd(events: seq<RunEvent>, cause: Option<EventId>) {
    && cause.Some?
    && (LastReason(events, cause.value) == Some(ScenarioEnd) || LastReason(events, cause.value).None?)
    && !(LastRequested(events, cause.value).Some? && LastRequested(events, cause.value).value.IsTransient())
  }

  function UnresolvedRecord(events: seq<RunEvent>, subsystem: Id, fault: RunEvent): RecoveryRecord {
    RecoveryRecord(
      subsystem,
      if fault.stateAfter.Some? then fault.stateAfter.value else Unknown,
      fault.time, None, None, None,
      if IsNamed(fault.scenarioEventId) then ClearedAt(events, fault.scenarioEventId.value) else None,
      fault.scenarioEventId,
      fault.details.ChangeDetails? && fault.details.direct,
      !PersistsToEnd(events, fault.scenarioEventId))
  }

  // ---- The loops

  /** The clear times, by event and by subsystem. */
  ghost predicate Indexes(events: seq<RunEvent>, clearedAt: map<EventId, real>, bySubsystem: map<Id, seq<real>>) {
    && (forall id :: ClearedAt(events, id) == if id in clearedAt then Some(clearedAt[id]) else None)
    && (forall s, x :: s in bySubsystem && x in bySubsystem[s] <==> ClearedOn(events, s, x))
  }

  ghost predicate ClearedOn(events: seq<RunEvent>, s: Id, x: real) {
    exists i :: 0 <= i < |events| && ElapsedClear(events[i]) && events[i].subsystem == Some(s) && events[i].time == x
  }

  method IndexClears(events: seq<RunEvent>) returns (clearedAt: map<EventId, real>, bySubsystem: map<Id, seq<real>>)
    ensures Indexes(events, clearedAt, bySubsystem)
  {
    clearedAt, bySubsystem := map[], map[];
    for k := 0 to |events|
      invariant Indexes(events[..k], clearedAt, bySubsystem)
    {
      var e := events[k];
      assert events[..k + 1][..k] == events[..k];
      ClearedOnMore(events[..k], e);
      assert events[..k + 1] == events[..k] + [e];
      if ElapsedClear(e) {
        clearedAt := clearedAt[e.scenarioEventId.value := e.time];
        if e.subsystem.Some? {
          var s := e.subsystem.value;
          bySubsystem := bySubsystem[s := (if s in bySubsystem then bySubsystem[s] else []) + [e.time]];
        }
      }
    }
    assert events[..|events|] == events;
  }

  lemma ClearedOnMore(events: seq<RunEvent>, e: RunEvent)
    ensures forall s, x :: ClearedOn(events + [e], s, x) <==>
                           ClearedOn(events, s, x) || (ElapsedClear(e) && e.subsystem == Some(s) && e.time == x)
  {
    var more := events + [e];
    forall s, x
      ensures ClearedOn(more, s, x) <==> ClearedOn(events, s, x) || (ElapsedClear(e) && e.subsystem == Some(s) && e.time == x)
    {
      if ClearedOn(events, s, x) {
        var i :| 0 <= i < |events| && ElapsedClear(events[i]) && events[i].subsystem == Some(s) && events[i].time == x;
        assert more[i] == events[i];
      }
      if ElapsedClear(e) && e.subsystem == Some(s) && e.time == x {
        assert more[|events|] == e;
      }
    }
  }

  /** A candidate taken from the clears of one of the subsystems. */
  ghost predicate Candidate(events: seq<RunEvent>, subsystems: set<Id>, from: real, to: real, x: real) {
    from <= x <= to && exists s :: s in subsystems && ClearedOn(events, s, x)
  }

  /** `end` is the latest of the candidates and of `own`, if any. */
  ghost predicate IsEnd(end: Option<real>, own: Option<real>, events: seq<RunEvent>, subsystems: set<Id>, from: real, to: real) {
    && (end.Some? ==> own == end || Candidate(events, subsystems, from, to, end.value))
    && (own.Some? ==> end.Some? && own.value <= end.value)
    && (forall x :: Candidate(events, subsystems, from, to, x) ==> end.Some? && x <= end.value)
  }

  lemma IsEndIsUnique(end: Option<real>, own: Option<real>, events: seq<RunEvent>, subsystems: set<Id>, from: real, to: real)
    requires IsEnd(end, own, events, subsystems, from, to)
    ensures var within := LatestClear(events, subsystems, from, to);
            end == if own.Some? then Later(within, own.value) else within
  {
    var within := LatestClear(events, subsystems, from, to);
    if within.Some? {
      var i :| 0 <= i < |events| && ClearsWithin(events[i], subsystems, from, to) && events[i].time == within.value;
      assert ClearedOn(events, events[i].subsystem.value, within.value);
      assert Candidate(events, subsystems, from, to, within.value);
    }
    if end.Some? && Candidate(events, subsystems, from, to, end.value) {
      var s :| s in subsystems && ClearedOn(events, s, end.value);
      var i :| 0 <= i < |events| && ElapsedClear(events[i]) && events[i].subsystem == Some(s) && events[i].time == end.value;
      assert ClearsWithin(events[i], subsystems, from, to);
    }
  }

  /** Collect the candidates, subsystem by subsystem, and keep the latest. */
  method EndOfDisturbance(topology: Topology.SystemTopology, clearedAt: map<EventId, real>, bySubsystem: map<Id, seq<real>>,
                          fault: RunEvent, recovery: RunEvent, ghost events: seq<RunEvent>) returns (end: Option<real>)
    requires recovery.subsystem.Some? && Indexes(events, clearedAt, bySubsystem)
    ensures end == DisturbanceEnd(topology, events, fault, recovery)
  {
    var own := None;
    if IsNamed(fault.scenarioEventId) && fault.scenarioEventId.value in clearedAt {
      own := Some(clearedAt[fault.scenarioEventId.value]);
    }
    assert own == if IsNamed(fault.scenarioEventId) then ClearedAt(events, fault.scenarioEventId.value) else None;
    end := own;
    var related := Related(topology, recovery.subsystem.value);
    var todo := related;
    while todo != {}
      invariant todo <= related
      invariant IsEnd(end, own, events, related - todo, fault.time, recovery.time)
      decreases todo
    {
      var s :| s in todo;
      var times := if s in bySubsystem then bySubsystem[s] else [];
      ghost var seen := related - todo;
      todo := todo - {s};
      ghost var before := end;
      for k := 0 to |times|
        invariant IsLatestOf(end, before, times[..k], fault.time, recovery.time)
      {
        assert times[..k + 1] == times[..k] + [times[k]];
        if fault.time <= times[k] <= recovery.time {
          end := Later(end, times[k]);
        }
      }
      assert times[..|times|] == times;
      WidenCandidates(events, seen, s, times, fault.time, recovery.time);
      WidenEnd(end, before, own, events, seen, s, times, fault.time, recovery.time);
      assert related - todo == seen + {s};
    }
    assert related - todo == related;
    IsEndIsUnique(end, own, events, related, fault.time, recovery.time);
  }

  /** `end` is the latest of `before` and the times within the fault. */
  ghost predicate IsLatestOf(end: Option<real>, before: Option<real>, times: seq<real>, from: real, to: real) {
    && (end == before || (end.Some? && end.value in times && from <= end.value <= to))
    && (before.Some? ==> end.Some? && before.value <= end.value)
    && (forall x :: x in times && from <= x <= to ==> end.Some? && x <= end.value)
  }

  lemma WidenEnd(end: Option<real>, before: Option<real>, own: Option<real>, events: seq<RunEvent>, seen: set<Id>, s: Id,
                 times: seq<real>, from: real, to: real)
    requires IsEnd(before, own, events, seen, from, to) && IsLatestOf(end, before, times, from, to)
    requires forall x :: Candidate(events, seen + {s}, from, to, x) <==> Candidate(events, seen, from, to, x) || (x in times && from <= x <= to)
    ensures IsEnd(end, own, events, seen + {s}, from, to)
  {
    hide Candidate;
  }

  lemma WidenCandidates(events: seq<RunEvent>, seen: set<Id>, s: Id, times: seq<real>, from: real, to: real)
    requires forall x :: x in times <==> ClearedOn(events, s, x)
    ensures forall x :: Candidate(events, seen + {s}, from, to, x) <==>
                        Candidate(events, seen, from, to, x) || (x in times && from <= x <= to)
  {
    forall x
      ensures Candidate(events, seen + {s}, from, to, x) <==> Candidate(events, seen, from, to, x) || (x in times && from <= x <= to)
    {
      if Candidate(events, seen, from, to, x) {
        var r :| r in seen && ClearedOn(events, r, x);
        assert r in seen + {s};
      }
      if x in times {
        assert s in seen + {s} && ClearedOn(events, s, x);
      }
    }
  }

  /** The record of one recovery, from the clear index. */
  method CloseFault(topology: Topology.SystemTopology, clearedAt: map<EventId, real>, bySubsystem: map<Id, seq<real>>,
                    fault: RunEvent, e: RunEvent, ghost events: seq<RunEvent>) returns (record: RecoveryRecord)
    requires e.subsystem.Some? && Indexes(events, clearedAt, bySubsystem)
    ensures record == RecordOf(topology, events, fault, e)
  {
    var end := EndOfDisturbance(topology, clearedAt, bySubsystem, fault, e, events);
    hide DisturbanceEnd, Round3, Indexes;
    var reference := fault.time;
    if end.Some? {
      var bounded := if end.value < e.time then end.value else e.time;
      reference := if reference < bounded then bounded else reference;
    }
    record := RecoveryRecord(
      e.subsystem.value, if fault.stateAfter.Some? then fault.stateAfter.value else Unknown, fault.time, Some(e.time),
      Some(Round3(e.time - fault.time)), Some(Round3(e.time - reference)), end, fault.scenarioEventId,
      fault.details.ChangeDetails? && fault.details.direct, true);
  }

  /** The pairing loop. */
  method PairFaults(topology: Topology.SystemTopology, events: seq<RunEvent>)
    returns (records: seq<RecoveryRecord>, openFaults: map<Id, RunEvent>)
    ensures openFaults == Replayed(events).open
    ensures AllNamed(Replayed(events).closed) && records == Records(topology, events, Replayed(events).closed)
  {
    hide RecordOf, Indexes;
    var clearedAt, bySubsystem := IndexClears(events);
    openFaults, records := map[], [];
    for k := 0 to |events|
      invariant openFaults == Replayed(events[..k]).open
      invariant AllNamed(Replayed(events[..k]).closed) && records == Records(topology, events, Replayed(events[..k]).closed)
    {
      var e := events[k];
      assert events[..k + 1][..k] == events[..k];
      ClosedNamed(events[..k + 1]);
      if e.kind == ObservedEffect {
        if e.subsystem.Some? && e.stateAfter.Some? && !e.stateAfter.value.IsHealthy() && e.subsystem.value !in openFaults {
          openFaults := openFaults[e.subsystem.value := e];
        }
      } else if e.kind == Recovery && e.subsystem.Some? && e.subsystem.value in openFaults {
        var fault := openFaults[e.subsystem.value];
        openFaults := openFaults - {e.subsystem.value};
        var record := CloseFault(topology, clearedAt, bySubsystem, fault, e, events);
        records := records + [record];
      }
    }
    assert events[..|events|] == events;
  }

  /** One record for each fault that stayed open, in the order of the dictionary. */
  ghost predicate AreUnresolved(records: seq<RecoveryRecord>, events: seq<RunEvent>, open: map<Id, RunEvent>) {
    && |records| == |open|
    && (forall s :: s in open ==> Recorded(records, s))
    && (forall k :: 0 <= k < |records| ==>
          records[k].subsystem in open && records[k] == UnresolvedRecord(events, records[k].subsystem, open[records[k].subsystem]))
  }

  ghost predicate Recorded(records: seq<RecoveryRecord>, s: Id) {
    exists k :: 0 <= k < |records| && records[k].subsystem == s
  }

  lemma RecordedMore(records: seq<RecoveryRecord>, record: RecoveryRecord)
    ensures forall s :: Recorded(records + [record], s) <==> Recorded(records, s) || record.subsystem == s
  {
    var more := records + [record];
    assert more[|records|] == record;
    forall s | Recorded(records, s)
      ensures Recorded(more, s)
    {
      var k :| 0 <= k < |records| && records[k].subsystem == s;
      assert more[k] == records[k];
    }
  }

  method RecordUnresolved(events: seq<RunEvent>, openFaults: map<Id, RunEvent>) returns (records: seq<RecoveryRecord>)
    ensures AreUnresolved(records, events, openFaults)
  {
    hide PersistsToEnd, ClearedAt, Recorded;
    records := [];
    var todo := openFaults.Keys;
    while todo != {}
      invariant todo <= openFaults.Keys && |records| == |openFaults.Keys - todo|
      invariant forall s :: s in openFaults && s !in todo ==> Recorded(records, s)
      invariant forall k :: 0 <= k < |records| ==>
                  records[k].subsystem in openFaults && records[k] == UnresolvedRecord(events, records[k].subsystem, openFaults[records[k].subsystem])
      decreases todo
    {
      var s :| s in todo;
      assert openFaults.Keys - (todo - {s}) == (openFaults.Keys - todo) + {s};
      RecordedMore(records, UnresolvedRecord(events, s, openFaults[s]));
      todo := todo - {s};
      records := records + [UnresolvedRecord(events, s, openFaults[s])];
    }
    assert openFaults.Keys - todo == openFaults.Keys;
  }

  /** The records of a log, as the analysis computes them. */
  ghost predicate AreRecords(topology: Topology.SystemTopology, log: seq<RunEvent>, records: seq<RecoveryRecord>) {
    var r := Replayed(log);
    && AllNamed(r.closed) && |r.closed| <= |records|
    && records[..|r.closed|] == Records(topology, log, r.closed)
    && AreUnresolved(records[|r.closed|..], log, r.open)
  }

  /** The recovery part of the metrics: the closed faults first, then the open ones. */
  method ComputeRecovery(topology: Topology.SystemTopology, events: seq<RunEvent>) returns (records: seq<RecoveryRecord>)
    ensures AreRecords(topology, events, records)
  {
    var closed, openFaults := PairFaults(topology, events);
    var unresolved := RecordUnresolved(events, openFaults);
    records := closed + unresolved;
    assert records[..|closed|] == closed && records[|closed|..] == unresolved;
  }

  // ---- Aggregates

  function Required(records: seq<RecoveryRecord>): nat {
    if records == [] then 0 else Required(records[..|records| - 1]) + if records[|records| - 1].recoveryExpected then 1 else 0
  }

  function RecoveredCount(records: seq<RecoveryRecord>): nat {
    if records == [] then 0
    else
      var last := records[|records| - 1];
      RecoveredCount(records[..|records| - 1]) + if last.recoveryExpected && last.recoveryTime.Some? then 1 else 0
  }

  /** Every closed fault counts as required and recovered; the success rate falls short of one only
      through faults left open whose cause did not persist to the end. */
  lemma {:induction false} RecoveredAreClosed(records: seq<RecoveryRecord>, resolved: nat)
    requires resolved <= |records|
    requires forall k :: 0 <= k < resolved ==> records[k].recoveryExpected && records[k].recoveryTime.Some?
    requires forall k :: resolved <= k < |records| ==> records[k].recoveryTime.None?
    ensures RecoveredCount(records) == resolved <= Required(records)
    ensures Required(records) == resolved <==> forall k :: resolved <= k < |records| ==> !records[k].recoveryExpected
    decreases |records|
  {
    if records != [] {
      var n := |records|;
      RecoveredAreClosed(records[..n - 1], if resolved == n then n - 1 else resolved);
    }
  }

  /** For the records of any log: the recovered faults are the closed ones, and all required faults recovered exactly
      when every fault left open has a cause that persists to the end. */
  lemma SuccessMeansClosed(topology: Topology.SystemTopology, log: seq<RunEvent>, records: seq<RecoveryRecord>)
    requires AreRecords(topology, log, records)
    ensures var r := Replayed(log);
            && RecoveredCount(records) == |r.closed| <= Required(records)
            && (Required(records) == |r.closed| <==> forall s :: s in r.open ==> PersistsToEnd(log, r.open[s].scenarioEventId))
  {
    hide Replayed, PersistsToEnd, ClearedAt, DisturbanceEnd, Reference, Round3;
    var r := Replayed(log);
    var n := |r.closed|;
    forall k | 0 <= k < n
      ensures records[k].recoveryExpected && records[k].recoveryTime.Some?
    {
      assert records[k] == records[..n][k];
    }
    hide Records, RecordOf;
    var open := records[n..];
    forall k | n <= k < |records|
      ensures records[k].recoveryTime.None? && records[k].subsystem in r.open
      ensures records[k].recoveryExpected <==> !PersistsToEnd(log, r.open[records[k].subsystem].scenarioEventId)
    {
      assert records[k] == open[k - n];
    }
    RecoveredAreClosed(records, n);
    forall s | s in r.open
      ensures exists k :: n <= k < |records| && records[k].subsystem == s
    {
      assert Recorded(open, s);
      var k :| 0 <= k < |open| && open[k].subsystem == s;
      assert records[n + k].subsystem == s;
    }
  }

  // ---- What a record says, on the entries of the log

  /** Entry `i` says that a bounded injection ran out. */
  predicate RanOut(log: seq<RunEvent>, i: nat)
    requires i < |log|
  {
    log[i].kind == InjectionCleared && log[i].details == ClearDetails(DurationElapsed) && log[i].scenarioEventId.Some?
    && log[i].scenarioEventId.value != ""
  }

  /** Entry `i` is the last one to say that about the injection `id`. */
  ghost predicate LastRanOut(log: seq<RunEvent>, id: Option<EventId>, i: nat)
    requires i < |log|
  {
    && RanOut(log, i) && log[i].scenarioEventId == id
    && forall j :: i < j < |log| ==> !(RanOut(log, j) && log[j].scenarioEventId == id)
  }

  /** Entry `i` may end the disturbance behind a fault: an injection ran out on the component, or on one it relies on, between
      fault and recovery; or the injection blamed for the fault ran out, whenever that was. */
  ghost predicate MayEnd(topology: Topology.SystemTopology, log: seq<RunEvent>, fault: RunEvent, recovery: RunEvent, i: nat)
    requires i < |log| && recovery.subsystem.Some?
  {
    || (&& RanOut(log, i) && log[i].subsystem.Some? && fault.time <= log[i].time <= recovery.time
        && (log[i].subsystem == recovery.subsystem || topology.Edge(log[i].subsystem.value, recovery.subsystem.value)))
    || LastRanOut(log, fault.scenarioEventId, i)
  }

  /** Entry `i` ends it: no candidate is later. */
  ghost predicate Ends(topology: Topology.SystemTopology, log: seq<RunEvent>, fault: RunEvent, recovery: RunEvent, i: nat)
    requires recovery.subsystem.Some?
  {
    && i < |log| && MayEnd(topology, log, fault, recovery, i)
    && forall j :: 0 <= j < |log| && MayEnd(topology, log, fault, recovery, j) ==> log[j].time <= log[i].time
  }

  lemma RanOutIs(log: seq<RunEvent>, i: nat)
    requires i < |log|
    ensures ElapsedClear(log[i]) <==> RanOut(log, i)
  {
  }

  lemma {:induction false} ClearedAtLast(log: seq<RunEvent>, id: EventId)
    requires id != ""
    ensures forall i :: 0 <= i < |log| && LastRanOut(log, Some(id), i) ==> ClearedAt(log, id) == Some(log[i].time)
    ensures ClearedAt(log, id).Some? ==> exists i :: 0 <= i < |log| && LastRanOut(log, Some(id), i) && log[i].time == ClearedAt(log, id).value
    decreases |log|
  {
    if log != [] {
      var shorter, n := log[..|log| - 1], |log| - 1;
      ClearedAtLast(shorter, id);
      RanOutIs(log, n);
      hide ElapsedClear, RanOut;
      assert forall i :: 0 <= i < n ==> shorter[i] == log[i];
      forall i | 0 <= i < n
        ensures RanOut(shorter, i) <==> RanOut(log, i)
      {
        SameEntry(shorter, log, i);
      }
      if RanOut(log, n) && log[n].scenarioEventId == Some(id) {
        assert LastRanOut(log, Some(id), n);
      } else if ClearedAt(shorter, id).Some? {
        var i :| 0 <= i < n && LastRanOut(shorter, Some(id), i) && shorter[i].time == ClearedAt(shorter, id).value;
        assert LastRanOut(log, Some(id), i);
      }
      forall i | 0 <= i < n && LastRanOut(log, Some(id), i)
        ensures LastRanOut(shorter, Some(id), i)
      {
      }
    }
  }

  lemma SameEntry(a: seq<RunEvent>, b: seq<RunEvent>, i: nat)
    requires i < |a| && i < |b| && a[i] == b[i]
    ensures RanOut(a, i) <==> RanOut(b, i)
  {
  }

  lemma RelatedAre(topology: Topology.SystemTopology, s: Id)
    ensures forall x :: x in Related(topology, s) <==> x == s || topology.Edge(x, s)
  {
  }

  lemma ClearsWithinMayEnd(topology: Topology.SystemTopology, log: seq<RunEvent>, fault: RunEvent, recovery: RunEvent, i: nat)
    requires i < |log| && recovery.subsystem.Some?
    ensures MayEnd(topology, log, fault, recovery, i)
            <==> ClearsWithin(log[i], Related(topology, recovery.subsystem.value), fault.time, recovery.time)
                 || LastRanOut(log, fault.scenarioEventId, i)
  {
    hide LastRanOut, Related;
    RelatedAre(topology, recovery.subsystem.value);
  }

  /** The end of a disturbance is the time of the entry that ends it, and there is none exactly when nothing may end it. */
  lemma DisturbanceEndIs(topology: Topology.SystemTopology, log: seq<RunEvent>, fault: RunEvent, recovery: RunEvent)
    requires recovery.subsystem.Some?
    ensures var end := DisturbanceEnd(topology, log, fault, recovery);
            && (forall i: nat :: Ends(topology, log, fault, recovery, i) ==> end == Some(log[i].time))
            && (end.None? <==> forall i :: 0 <= i < |log| ==> !MayEnd(topology, log, fault, recovery, i))
            && (end.Some? ==> exists i: nat :: Ends(topology, log, fault, recovery, i))
  {
    var related := Related(topology, recovery.subsystem.value);
    var within := LatestClear(log, related, fault.time, recovery.time);
    var end := DisturbanceEnd(topology, log, fault, recovery);
    if IsNamed(fault.scenarioEventId) {
      ClearedAtLast(log, fault.scenarioEventId.value);
    }
    var own := if IsNamed(fault.scenarioEventId) then ClearedAt(log, fault.scenarioEventId.value) else None;
    hide Related, LatestClear, ClearedAt, MayEnd, ClearsWithin, LastRanOut;
    forall i | 0 <= i < |log|
      ensures MayEnd(topology, log, fault, recovery, i)
              <==> ClearsWithin(log[i], related, fault.time, recovery.time) || LastRanOut(log, fault.scenarioEventId, i)
      ensures LastRanOut(log, fault.scenarioEventId, i) ==> own == Some(log[i].time)
    {
      ClearsWithinMayEnd(topology, log, fault, recovery, i);
      LastIsNamed(log, fault.scenarioEventId, i);
    }
    forall i | 0 <= i < |log| && MayEnd(topology, log, fault, recovery, i)
      ensures end.Some? && log[i].time <= end.value
    {
    }
    if end.Some? {
      var i: nat :| i < |log| && MayEnd(topology, log, fault, recovery, i) && log[i].time == end.value;
      assert Ends(topology, log, fault, recovery, i);
    }
  }

  lemma LastIsNamed(log: seq<RunEvent>, id: Option<EventId>, i: nat)
    requires i < |log|
    ensures LastRanOut(log, id, i) ==> IsNamed(id)
  {
  }

  /** Main result. Recovery time is measured from the end of the disturbance: from the entry that ends it when that lies
      between fault and recovery; it is zero when the disturbance outlasts the fault; and it is the whole fault duration when
      nothing ended or it ended before the fault. The other fields repeat the two events. */
  lemma RecoveryIsMeasured(topology: Topology.SystemTopology, log: seq<RunEvent>, records: seq<RecoveryRecord>, k: nat)
    requires AreRecords(topology, log, records) && k < |Replayed(log).closed|
    requires Replayed(log).closed[k].0.time <= Replayed(log).closed[k].1.time
    ensures k < |records|
    ensures var (fault, recovery) := Replayed(log).closed[k];
            var record := records[k];
            && recovery.subsystem == Some(record.subsystem) && record.recoveredAt == Some(recovery.time)
            && record.faultStartedAt == fault.time && record.faultDuration == Some(Round3(recovery.time - fault.time))
            && (fault.stateAfter.Some? ==> record.faultState == fault.stateAfter.value)
            && record.causedBy == fault.scenarioEventId && (fault.details.ChangeDetails? ==> record.direct == fault.details.direct)
            && (forall i: nat :: Ends(topology, log, fault, recovery, i) ==>
                  && record.disturbanceClearedAt == Some(log[i].time)
                  && record.recoveryTime == Some(if log[i].time < fault.time then Round3(recovery.time - fault.time)
                                                 else if log[i].time <= recovery.time then Round3(recovery.time - log[i].time)
                                                 else 0.0))
            && ((forall i :: 0 <= i < |log| ==> !MayEnd(topology, log, fault, recovery, i)) ==>
                  record.disturbanceClearedAt.None? && record.recoveryTime == Some(Round3(recovery.time - fault.time)))
  {
    hide Replayed, DisturbanceEnd, Round3, Ends, MayEnd, AreUnresolved;
    var r := Replayed(log);
    var (fault, recovery) := r.closed[k];
    assert records[k] == records[..|r.closed|][k];
    DisturbanceEndIs(topology, log, fault, recovery);
    NothingRounds();
  }

  lemma NothingRounds()
    ensures Round3(0.0) == 0.0
  {
    assert (0.0 as real).Floor == 0;
  }

  // ---- Whether a recovery is expected

  /** Entry `i` is the last clear of the injection. */
  ghost predicate LastClear(log: seq<RunEvent>, id: EventId, i: nat) {
    && i < |log| && log[i].kind == InjectionCleared && log[i].scenarioEventId == Some(id) && log[i].details.ClearDetails?
    && forall j :: i < j < |log| ==> !(log[j].kind == InjectionCleared && log[j].scenarioEventId == Some(id) && log[j].details.ClearDetails?)
  }

  /** Entry `i` is the last request of the injection. */
  ghost predicate LastRequest(log: seq<RunEvent>, id: EventId, i: nat) {
    && i < |log| && log[i].kind == InjectionRequested && log[i].scenarioEventId == Some(id) && log[i].details.RequestDetails?
    && forall j :: i < j < |log| ==> !(log[j].kind == InjectionRequested && log[j].scenarioEventId == Some(id) && log[j].details.RequestDetails?)
  }

  lemma {:induction false} LastReasonIs(log: seq<RunEvent>, id: EventId)
    ensures forall i: nat :: LastClear(log, id, i) ==> LastReason(log, id) == Some(log[i].details.reason)
    ensures LastReason(log, id).Some? ==> exists i: nat :: LastClear(log, id, i)
    decreases |log|
  {
    if log != [] {
      var shorter, n := log[..|log| - 1], |log| - 1;
      LastReasonIs(shorter, id);
      assert forall i :: 0 <= i < n ==> shorter[i] == log[i];
      if log[n].kind == InjectionCleared && log[n].scenarioEventId == Some(id) && log[n].details.ClearDetails? {
        assert LastClear(log, id, n);
      } else {
        forall i: nat
          ensures LastClear(log, id, i) <==> LastClear(shorter, id, i)
        {
        }
      }
    }
  }

  lemma {:induction false} LastRequestedIs(log: seq<RunEvent>, id: EventId)
    ensures forall i: nat :: LastRequest(log, id, i) ==> LastRequested(log, id) == Some(log[i].details.effect)
    ensures LastRequested(log, id).Some? ==> exists i: nat :: LastRequest(log, id, i)
    decreases |log|
  {
    if log != [] {
      var shorter, n := log[..|log| - 1], |log| - 1;
      LastRequestedIs(shorter, id);
      assert forall i :: 0 <= i < n ==> shorter[i] == log[i];
      if log[n].kind == InjectionRequested && log[n].scenarioEventId == Some(id) && log[n].details.RequestDetails? {
        assert LastRequest(log, id, n);
      } else {
        forall i: nat
          ensures LastRequest(log, id, i) <==> LastRequest(shorter, id, i)
        {
        }
      }
    }
  }

  /** The record of a fault that stayed open: what the fault showed, whether it was direct, and when the last bounded clear of its cause
      was, if there was one. */
  lemma UnresolvedSays(log: seq<RunEvent>, unresolved: seq<RecoveryRecord>, open: map<Id, RunEvent>, k: nat)
    requires AreUnresolved(unresolved, log, open) && k < |unresolved|
    ensures var record := unresolved[k];
            record.subsystem in open
            && var fault := open[record.subsystem];
               && record.faultState == (if fault.stateAfter.Some? then fault.stateAfter.value else Unknown)
               && (record.direct <==> fault.details == ChangeDetails(true))
               && (forall i: nat :: i < |log| && LastRanOut(log, fault.scenarioEventId, i) ==> record.disturbanceClearedAt == Some(log[i].time))
               && ((forall i :: 0 <= i < |log| && RanOut(log, i) ==> log[i].scenarioEventId != fault.scenarioEventId) ==>
                     record.disturbanceClearedAt == None)
  {
    hide ClearedAt, Recorded, PersistsToEnd, RanOut;
    var fault := open[unresolved[k].subsystem];
    if IsNamed(fault.scenarioEventId) {
      ClearedAtLast(log, fault.scenarioEventId.value);
    }
    forall i: nat | i < |log| && LastRanOut(log, fault.scenarioEventId, i)
      ensures unresolved[k].disturbanceClearedAt == Some(log[i].time)
    {
      LastIsNamed(log, fault.scenarioEventId, i);
    }
  }

  /** For a fault that stayed open no recovery is expected exactly when an injection is blamed that was never cleared or last
      cleared at the end of the scenario, and that was not last requested as a restart or a crash. */
  lemma ExpectedUnlessLasting(log: seq<RunEvent>, unresolved: seq<RecoveryRecord>, open: map<Id, RunEvent>, k: nat)
    requires AreUnresolved(unresolved, log, open) && k < |unresolved|
    ensures var record := unresolved[k];
            && record.subsystem in open && record.faultStartedAt == open[record.subsystem].time
            && record.causedBy == open[record.subsystem].scenarioEventId
            && record.recoveredAt.None? && record.recoveryTime.None? && record.faultDuration.None?
            && (!record.recoveryExpected <==>
                  && record.causedBy.Some?
                  && (forall i: nat :: LastClear(log, record.causedBy.value, i) ==> log[i].details.reason == ScenarioEnd)
                  && (forall i: nat :: LastRequest(log, record.causedBy.value, i) ==> log[i].details.effect !in {Restart, Crash}))
  {
    hide LastReason, LastRequested, ClearedAt, Recorded;
    var cause := unresolved[k].causedBy;
    if cause.Some? {
      LastReasonIs(log, cause.value);
      LastRequestedIs(log, cause.value);
    }
  }
}
