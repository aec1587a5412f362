/** The classified event log of a run, and the observations an adapter delivers. */
module RunLog {
  import opened Options
  import opened States
  import opened Rounding

  type EventId = string

  datatype Effect =
    | Unavailability
    | Intermittent
    | Degradation
    | Erroneous
    | Stuck
    | Restart
    | Crash
    | Latency
    | PacketLoss
    | ResourcePressure
    | TemporaryDisconnect
  {
    /** The target recovers from these on its own. */
    predicate IsTransient() { Restart? || Crash? }
  }

  datatype EventKind =
    | InjectionRequested
    | InjectionApplied
    | InjectionRejected
    | InjectionCleared
    | ObservedEffect
    | SystemResponded
    | Recovery
    | ExpectationResult
    | MissionProgress
    | LifecycleEvent
    | LogEntry

  datatype ClearReason = DurationElapsed | ScenarioEnd

  /** The metadata the analysis reads back. `serial` is the identity of the expectation object
      a verdict belongs to. */
  datatype Details =
    | NoDetails
    | RequestDetails(effect: Effect)
    | ClearDetails(reason: ClearReason)
    | ChangeDetails(direct: bool)
    | RecoveryDetails(direct: bool, faultDuration: Option<real>)
    | ResponseDetails(safeState: bool)
    | VerdictDetails(serial: nat, passed: bool, elapsed: real)

  datatype RunEvent = RunEvent(
    sequence: nat,
    time: real,
    kind: EventKind,
    subsystem: Option<Id>,
    stateBefore: Option<ComponentState>,
    stateAfter: Option<ComponentState>,
    scenarioEventId: Option<EventId>,
    details: Details)

  datatype Sample = Sample(
    t: real,
    health: Health,
    mode: FlightMode,
    phase: MissionPhase,
    armed: bool,
    controlAuthority: bool,
    progress: real)

  datatype StateChange = StateChange(subsystem: Id, after: ComponentState, causedBy: Option<EventId>)

  datatype Response = Response(responseType: string, subsystem: Option<Id>, safeState: bool)

  datatype MissionEvent = MissionEvent(eventType: string)

  datatype Observation = Observation(
    sample: Sample,
    changes: seq<StateChange>,
    responses: seq<Response>,
    missionEvents: seq<MissionEvent>,
    finished: bool)

  datatype InjectionRequest = InjectionRequest(
    eventId: EventId,
    subsystem: Id,
    effect: Effect,
    duration: Option<real>,
    parameters: map<string, real>)

  /** `after` extends `before` by events of the given kinds, all stamped with the rounded time
      `t` and numbered by their position. */
  ghost predicate Appended(before: seq<RunEvent>, after: seq<RunEvent>, kinds: set<EventKind>, t: real) {
    && before <= after
    && (forall i :: |before| <= i < |after| ==>
          after[i].kind in kinds && after[i].sequence == i && after[i].time == Round3(t))
  }

  lemma AppendedTwice(a: seq<RunEvent>, b: seq<RunEvent>, c: seq<RunEvent>,
                      first: set<EventKind>, second: set<EventKind>, kinds: set<EventKind>, t: real)
    requires Appended(a, b, first, t) && Appended(b, c, second, t)
    requires first <= kinds && second <= kinds
    ensures Appended(a, c, kinds, t)
  {
    forall i | |a| <= i < |c|
      ensures c[i].kind in kinds && c[i].sequence == i && c[i].time == Round3(t)
    {
      if i < |b| {
        assert c[i] == b[i];
      }
    }
  }

  /** Numbered by position. */
  ghost predicate Numbered(log: seq<RunEvent>) {
    forall i :: 0 <= i < |log| ==> log[i].sequence == i
  }

  lemma AppendNumbers(before: seq<RunEvent>, after: seq<RunEvent>, kinds: set<EventKind>, t: real)
    requires Numbered(before) && Appended(before, after, kinds, t)
    ensures Numbered(after)
  {
    assert forall i :: 0 <= i < |before| ==> after[i] == before[i];
  }

  /** Numbered by position, in time order, nothing later than the rounded time `t`. */
  ghost predicate InOrder(log: seq<RunEvent>, t: real) {
    && (forall i :: 0 <= i < |log| ==> log[i].sequence == i && log[i].time <= Round3(t))
    && (forall i, j :: 0 <= i < j < |log| ==> log[i].time <= log[j].time)
  }

  lemma AppendKeepsOrder(before: seq<RunEvent>, after: seq<RunEvent>, kinds: set<EventKind>, earlier: real, t: real)
    requires InOrder(before, earlier) && earlier <= t && Appended(before, after, kinds, t)
    ensures InOrder(after, t)
  {
    Round3Monotone(earlier, t);
    forall i | 0 <= i < |after|
      ensures after[i].sequence == i && after[i].time <= Round3(t)
      ensures i < |before| ==> after[i] == before[i]
    {
      if i < |before| {
        assert after[i] == before[i];
      }
    }
  }
}
