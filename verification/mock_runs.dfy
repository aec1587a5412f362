/** Every run of the mock vehicle: mission state machine, timers, and how far faults spread. */
module MockRuns {
  import opened Options
  import opened States
  import opened RunLog
  import opened MockDerive
  import opened MockVehicle
  import T = Topology

  // ---- Runs

  datatype Op =
    | Begin
    | Inject(request: InjectionRequest, draw: real)
    | Clear(id: EventId)
    | Tick(noise: Noise)

  /** A vehicle with the history of its run: components injected, components ever observed impaired,
      waypoints reported reached, observations delivered. */
  datatype Course = Course(v: Vehicle, targets: set<Id>, impaired: set<Id>, reached: nat, seen: seq<Observation>)

  function Impaired(states: Health): set<Id> {
    set c | c in states && !states[c].IsHealthy()
  }

  function WaypointsIn(events: seq<MissionEvent>): nat {
    if events == [] then 0
    else WaypointsIn(events[..|events| - 1]) + if events[|events| - 1].eventType == "waypoint_reached" then 1 else 0
  }

  function Perform(plan: Plan, c: Course, op: Op): Course {
    match op
    case Begin => c.(v := Start(c.v))
    case Inject(request, draw) =>
      var (v, applied) := InjectInto(c.v, request, draw);
      c.(v := v, targets := if applied then c.targets + {request.subsystem} else c.targets)
    case Clear(id) => c.(v := ClearFrom(c.v, id))
    case Tick(n) =>
      var (v, o) := Step(plan, c.v, n);
      Course(v, c.targets, c.impaired + Impaired(o.sample.health), c.reached + WaypointsIn(o.missionEvents), c.seen + [o])
  }

  /** The adapter contract and the scenario validation: the vehicle starts once, before it flies; only
      catalogue-allowed effects are injected; the clock advances; altitude is never negative. */
  predicate Admissible(c: Course, op: Op) {
    match op
    case Begin => c.v.phase == Pending
    case Inject(request, draw) => request.effect in AllowedEffects(request.subsystem)
    case Clear(_) => true
    case Tick(n) => n.clock > c.v.t && n.z >= 0.0 && 0.0 <= n.partial <= 1.0
  }

  function Fly(plan: Plan, ops: seq<Op>): Course {
    if ops == [] then Course(NewVehicle(), {}, {}, 0, []) else Perform(plan, Fly(plan, ops[..|ops| - 1]), ops[|ops| - 1])
  }

  ghost predicate Legal(plan: Plan, ops: seq<Op>) {
    forall k :: 0 <= k < |ops| ==> Admissible(Fly(plan, ops[..k]), ops[k])
  }

  lemma LegalPrefix(plan: Plan, ops: seq<Op>)
    requires Legal(plan, ops) && ops != []
    ensures Legal(plan, ops[..|ops| - 1]) && Admissible(Fly(plan, ops[..|ops| - 1]), ops[|ops| - 1])
  {
    var shorter := ops[..|ops| - 1];
    forall k | 0 <= k < |shorter|
      ensures Admissible(Fly(plan, shorter[..k]), shorter[k])
    {
      assert shorter[..k] == ops[..k];
    }
  }

  // ---- The mission state machine

  /** What holds between any two operations. `reached` counts the waypoints reported reached. */
  ghost predicate MissionHolds(plan: Plan, v: Vehicle, reached: nat) {
    && (v.finished <==> IsTerminalPhase(v.phase))
    && (IsTerminalPhase(v.phase) ==> v.mode == Landed || v.mode == ModeUnknown)
    && (v.mode == Hold ==> v.phase == Holding && v.holdSince.Some?)
    && (v.mode == Takeoff <==> v.phase == TakingOff)
    && (v.mode == Mission ==> v.phase == Enroute || v.phase == Returning)
    && (v.phase == Pending ==> v.mode == Idle)
    && (v.phase == Pending || v.phase == TakingOff ==> v.waypointIndex == 1)
    && (v.phase == Complete ==> v.waypointIndex >= plan.waypoints && !v.armed)
    && v.waypointIndex == 1 + reached
    && v.z >= 0.0
    && (v.holdSince.Some? ==> v.holdSince.value <= v.t)
    && (v.unaidedSince.Some? ==> v.unaidedSince.value <= v.t)
  }

  lemma DecisionKeepsMission(plan: Plan, v: Vehicle, d: Derived, reached: nat)
    requires MissionHolds(plan, v, reached)
    ensures MissionHolds(plan, DecideMode(plan, v, d).0, reached)
  {
    hide AutonomyOf, HandOver, ModeChange, WantsLand, WantsReturn, UnaidedTooLong;
  }

  lemma CountAppend(events: seq<MissionEvent>, e: MissionEvent)
    ensures WaypointsIn(events + [e]) == WaypointsIn(events) + if e.eventType == "waypoint_reached" then 1 else 0
  {
    assert (events + [e])[..|events|] == events;
  }

  lemma LegCounts()
    ensures WaypointsIn([]) == 0
    ensures WaypointsIn([MissionEvent("takeoff_complete")]) == 0
    ensures WaypointsIn([MissionEvent("waypoint_reached")]) == 1
    ensures WaypointsIn([MissionEvent("waypoint_reached"), MissionEvent("mission_waypoints_complete")]) == 1
  {
    CountAppend([], MissionEvent("takeoff_complete"));
    CountAppend([], MissionEvent("waypoint_reached"));
    CountAppend([MissionEvent("waypoint_reached")], MissionEvent("mission_waypoints_complete"));
    assert "mission_waypoints_complete"[0] != "waypoint_reached"[0] && "takeoff_complete"[0] != "waypoint_reached"[0];
    assert [] + [MissionEvent("takeoff_complete")] == [MissionEvent("takeoff_complete")];
    assert [] + [MissionEvent("waypoint_reached")] == [MissionEvent("waypoint_reached")];
    assert [MissionEvent("waypoint_reached")] + [MissionEvent("mission_waypoints_complete")]
        == [MissionEvent("waypoint_reached"), MissionEvent("mission_waypoints_complete")];
  }

  lemma LegKeepsMission(plan: Plan, v: Vehicle, n: Noise, reached: nat)
    requires MissionHolds(plan, v, reached)
    ensures MissionHolds(plan, AdvanceLeg(plan, v, n).0, reached + WaypointsIn(AdvanceLeg(plan, v, n).1))
  {
    LegCounts();
    hide WaypointsIn;
  }

  lemma AdvanceKeepsMission(plan: Plan, v: Vehicle, n: Noise, reached: nat)
    requires MissionHolds(plan, v, reached)
    ensures MissionHolds(plan, AdvanceMission(plan, v, n).0, reached + WaypointsIn(AdvanceMission(plan, v, n).1))
  {
    hide WaypointsIn, AdvanceLeg;
    var legs := AdvanceLeg(plan, v, n).1;
    LegKeepsMission(plan, v, n, reached);
    CountAppend(legs, MissionEvent("landed"));
    assert "landed"[0] != "waypoint_reached"[0];
  }

  /** One step, taken apart. */
  lemma StepKeepsMission(plan: Plan, v: Vehicle, n: Noise, reached: nat)
    requires MissionHolds(plan, v, reached) && n.clock > v.t && n.z >= 0.0
    ensures var (next, o) := Step(plan, v, n);
            MissionHolds(plan, next, reached + WaypointsIn(o.missionEvents))
            && next.t == n.clock && o.sample.t == n.clock && o.sample.mode == next.mode && o.sample.phase == next.phase
            && o.sample.armed == next.armed && (o.finished <==> next.finished)
  {
    hide DecideMode, AdvanceMission, Derivation, AdvanceTransients, ProgressOf, Diff, InBrownout, BrownoutEnd, WaypointsIn;
    var awake := Wake(v, n);
    var d := Derivation(InputsOf(awake, n));
    var ready := AfterDerivation(awake, n);
    assert MissionHolds(plan, ready, reached);
    DecisionKeepsMission(plan, ready, d, reached);
    var decided := DecideMode(plan, ready, d).0;
    AdvanceKeepsMission(plan, Move(decided, n), n, reached);
    DecisionFrame(plan, ready, d);
    AdvanceFrame(plan, Move(decided, n), n);
  }

  lemma OperationKeepsMission(plan: Plan, c: Course, op: Op)
    requires MissionHolds(plan, c.v, c.reached) && Admissible(c, op)
    ensures MissionHolds(plan, Perform(plan, c, op).v, Perform(plan, c, op).reached)
  {
    hide Step, EffectOf, PutEffect, FindEffect, AllowedEffects, IsTerminalPhase;
    match op
    case Tick(n) =>
      StepKeepsMission(plan, c.v, n, c.reached);
      hide MissionHolds;
    case Begin => PendingIsNotTerminal(c.v);
    case _ =>
  }

  lemma PendingIsNotTerminal(v: Vehicle)
    ensures v.phase == Pending || v.phase == TakingOff ==> !IsTerminalPhase(v.phase)
    ensures !IsTerminalPhase(Start(v).phase)
  {
  }

  /** Main result: the mission invariant holds at every point of every run. */
  lemma {:induction false} RunsKeepMission(plan: Plan, ops: seq<Op>)
    requires Legal(plan, ops)
    ensures MissionHolds(plan, Fly(plan, ops).v, Fly(plan, ops).reached)
    decreases |ops|
  {
    if ops != [] {
      LegalPrefix(plan, ops);
      hide Legal, Admissible, Perform, MissionHolds;
      RunsKeepMission(plan, ops[..|ops| - 1]);
      OperationKeepsMission(plan, Fly(plan, ops[..|ops| - 1]), ops[|ops| - 1]);
    }
  }

  // ---- What can no longer happen

  /** Along one operation the mission only moves forward: a finished mission stays as it is, and
      waypoints are never given back. */
  ghost predicate Onward(a: Vehicle, b: Vehicle) {
    && (IsTerminalPhase(a.phase) ==> b.phase == a.phase && b.mode == a.mode && b.finished && b.waypointIndex == a.waypointIndex)
    && a.waypointIndex <= b.waypointIndex && a.t <= b.t
  }

  lemma DecisionGoesOnward(plan: Plan, v: Vehicle, d: Derived)
    requires IsTerminalPhase(v.phase) ==> v.finished
    ensures Onward(v, DecideMode(plan, v, d).0)
  {
    hide NextMode, AutonomyOf, HandOver, ModeChange, WantsLand, WantsHold, UnaidedTooLong;
  }

  lemma AdvanceGoesOnward(plan: Plan, v: Vehicle, n: Noise, reached: nat)
    requires MissionHolds(plan, v, reached)
    ensures Onward(v, AdvanceMission(plan, v, n).0)
  {
  }

  lemma StepGoesOnward(plan: Plan, v: Vehicle, n: Noise, reached: nat)
    requires MissionHolds(plan, v, reached) && n.clock > v.t && n.z >= 0.0
    ensures Onward(v, Step(plan, v, n).0)
  {
    hide DecideMode, AdvanceMission, Derivation, AdvanceTransients, ProgressOf, Diff, InBrownout, BrownoutEnd, IsTerminalPhase;
    var awake := Wake(v, n);
    var d := Derivation(InputsOf(awake, n));
    var ready := AfterDerivation(awake, n);
    assert MissionHolds(plan, ready, reached);
    DecisionGoesOnward(plan, ready, d);
    DecisionKeepsMission(plan, ready, d, reached);
    var moved := Move(DecideMode(plan, ready, d).0, n);
    assert MissionHolds(plan, moved, reached);
    AdvanceGoesOnward(plan, moved, n, reached);
    hide MissionHolds;
    assert Onward(v, ready) && Onward(ready, moved);
  }

  lemma OperationGoesOnward(plan: Plan, c: Course, op: Op)
    requires MissionHolds(plan, c.v, c.reached) && Admissible(c, op)
    ensures Onward(c.v, Perform(plan, c, op).v)
  {
    match op
    case Tick(n) =>
      hide Step, MissionHolds, Onward;
      StepGoesOnward(plan, c.v, n, c.reached);
    case _ =>
      hide Step, EffectOf, PutEffect, FindEffect, AllowedEffects;
  }

  lemma {:induction false} RunsGoOnward(plan: Plan, ops: seq<Op>, k: nat)
    requires Legal(plan, ops) && k <= |ops|
    ensures Onward(Fly(plan, ops[..k]).v, Fly(plan, ops).v)
    decreases |ops|
  {
    hide Admissible, Perform, MissionHolds, IsTerminalPhase;
    if k == |ops| {
      hide Fly;
      RunsKeepMission(plan, ops);
      KeepsItself(plan, Fly(plan, ops).v, Fly(plan, ops).reached);
      assert ops[..k] == ops;
    } else {
      LegalPrefix(plan, ops);
      hide Legal;
      var shorter := ops[..|ops| - 1];
      assert shorter[..k] == ops[..k];
      RunsGoOnward(plan, shorter, k);
      RunsKeepMission(plan, shorter);
      OperationGoesOnward(plan, Fly(plan, shorter), ops[|ops| - 1]);
    }
  }

  lemma KeepsItself(plan: Plan, v: Vehicle, reached: nat)
    requires MissionHolds(plan, v, reached)
    ensures Onward(v, v)
  {
  }

  /** The reported completion is 1 exactly for a complete mission, at most 0.999 before, never negative. */
  lemma ProgressMeaning(plan: Plan, v: Vehicle, n: Noise)
    requires v.z >= 0.0 && 0.0 <= n.partial <= 1.0
    ensures 0.0 <= ProgressOf(plan, v, n) <= 1.0
    ensures v.phase == Complete <==> ProgressOf(plan, v, n) == 1.0
    ensures v.phase != Complete ==> ProgressOf(plan, v, n) <= 0.999
  {
    if v.phase == Pending || v.phase == TakingOff {
      var low := Max(plan.altitude, 1.0);
      RatioNonNegative(v.z, low);
    }
  }

  lemma RatioNonNegative(a: real, b: real)
    requires a >= 0.0 && b >= 1.0
    ensures a / b >= 0.0
  {
  }

  lemma CompleteMeans(plan: Plan, v: Vehicle, reached: nat)
    requires MissionHolds(plan, v, reached)
    ensures v.phase == Complete ==> v.finished && !v.armed && v.waypointIndex >= plan.waypoints
    ensures v.z >= 0.0
  {
  }

  /** The sample of a step reports that completion for the vehicle it leaves. */
  lemma StepReportsProgress(plan: Plan, v: Vehicle, n: Noise, reached: nat)
    requires MissionHolds(plan, v, reached) && n.clock > v.t && n.z >= 0.0 && 0.0 <= n.partial <= 1.0
    ensures var (next, o) := Step(plan, v, n);
            0.0 <= o.sample.progress <= 1.0 && (o.sample.progress == 1.0 <==> next.phase == Complete)
            && (o.sample.progress == 1.0 ==> o.finished && !o.sample.armed && next.waypointIndex >= plan.waypoints)
  {
    hide DecideMode, AdvanceMission, Derivation, AdvanceTransients, ProgressOf, Diff, InBrownout, BrownoutEnd, WaypointsIn;
    var awake := Wake(v, n);
    var d := Derivation(InputsOf(awake, n));
    var decided := DecideMode(plan, AfterDerivation(awake, n), d).0;
    DecisionKeepsMission(plan, AfterDerivation(awake, n), d, reached);
    var (flown, events) := AdvanceMission(plan, Move(decided, n), n);
    AdvanceKeepsMission(plan, Move(decided, n), n, reached);
    ProgressMeaning(plan, flown, n);
    CompleteMeans(plan, flown, reached + WaypointsIn(events));
    hide MissionHolds, IsTerminalPhase;
  }

  ghost predicate ArmedInFlight(v: Vehicle) {
    v.phase != Pending && (v.armed <==> v.mode != Landed) && (v.mode == Landed ==> v.phase == Complete || v.phase == Aborted)
  }

  /** A run that begins with the start is armed from then on until it has landed. */
  lemma {:induction false} ArmedUntilLanded(plan: Plan, ops: seq<Op>)
    requires Legal(plan, ops) && ops != [] && ops[0] == Begin
    ensures ArmedInFlight(Fly(plan, ops).v)
    decreases |ops|
  {
    LegalPrefix(plan, ops);
    var shorter := ops[..|ops| - 1];
    if |ops| == 1 {
      assert Fly(plan, shorter).v == NewVehicle();
    } else {
      ArmedUntilLanded(plan, shorter);
      RunsKeepMission(plan, shorter);
      hide Legal, Step, MissionHolds, EffectOf, PutEffect, FindEffect, AllowedEffects;
      var c := Fly(plan, shorter);
      if ops[|ops| - 1].Tick? {
        StepKeepsArmed(plan, c.v, ops[|ops| - 1].noise, c.reached);
      }
    }
  }

  lemma StepKeepsArmed(plan: Plan, v: Vehicle, n: Noise, reached: nat)
    requires MissionHolds(plan, v, reached) && n.clock > v.t && n.z >= 0.0 && ArmedInFlight(v)
    ensures var r := Step(plan, v, n).0; ArmedInFlight(r)
  {
    hide DecideMode, AdvanceMission, Derivation, AdvanceTransients, ProgressOf, Diff, InBrownout, BrownoutEnd, WaypointsIn;
    var awake := Wake(v, n);
    var d := Derivation(InputsOf(awake, n));
    var ready := AfterDerivation(awake, n);
    assert MissionHolds(plan, ready, reached);
    DecisionKeepsArmed(plan, ready, d, reached);
    DecisionKeepsMission(plan, ready, d, reached);
    AdvanceKeepsArmed(plan, Move(DecideMode(plan, ready, d).0, n), n, reached);
  }

  lemma DecisionKeepsArmed(plan: Plan, v: Vehicle, d: Derived, reached: nat)
    requires MissionHolds(plan, v, reached) && ArmedInFlight(v)
    ensures var r := DecideMode(plan, v, d).0; ArmedInFlight(r)
  {
    hide AutonomyOf, HandOver, ModeChange, WantsLand, WantsReturn, WantsHold, UnaidedTooLong;
  }

  lemma AdvanceKeepsArmed(plan: Plan, v: Vehicle, n: Noise, reached: nat)
    requires MissionHolds(plan, v, reached) && ArmedInFlight(v)
    ensures var r := AdvanceMission(plan, v, n).0; ArmedInFlight(r)
  {
  }

  /** Any run: finished exactly when complete or aborted, both for good; complete means every waypoint
      reached and motors off; the waypoint index counts the reports and never drops. */
  lemma MissionOutcome(plan: Plan, ops: seq<Op>, k: nat)
    requires Legal(plan, ops) && k <= |ops|
    ensures var then_, now := Fly(plan, ops[..k]), Fly(plan, ops);
            && (now.v.finished <==> now.v.phase == Complete || now.v.phase == Aborted)
            && (then_.v.phase == Complete || then_.v.phase == Aborted ==> now.v.phase == then_.v.phase)
            && (now.v.phase == Complete ==> now.reached + 1 >= plan.waypoints && !now.v.armed)
            && now.v.waypointIndex == now.reached + 1 && then_.v.waypointIndex <= now.v.waypointIndex
  {
    RunsKeepMission(plan, ops);
    RunsGoOnward(plan, ops, k);
  }

  // ---- Timers

  /** What one decision guarantees: the escalations are never overdue. */
  lemma TimersRespected(plan: Plan, v: Vehicle, d: Derived, reached: nat)
    requires MissionHolds(plan, v, reached) && plan.holdTimeout >= 0.0 && plan.maxDeadReckoning >= 0.0
    ensures var r := DecideMode(plan, v, d).0;
            && (r.mode == Hold ==> r.holdSince.Some? && v.t - r.holdSince.value <= plan.holdTimeout
                                   && (v.holdSince.Some? ==> r.holdSince == v.holdSince))
            && (r.mode == Mission && plan.gnssLoss == DeadReckoning && r.unaidedSince.Some? ==>
                  v.t - r.unaidedSince.value <= plan.maxDeadReckoning
                  && (v.unaidedSince.Some? ==> r.unaidedSince == v.unaidedSince))
            && (r.unaidedSince.Some? && !IsTerminalPhase(r.phase) ==> !d.gnssAiding)
  {
    hide AutonomyOf, HandOver, ModeChange, WantsReturn;
  }

  /** The vehicle keeps holding, or keeps flying the mission without aiding under dead reckoning, from
      `a` to `b`. */
  ghost predicate SameStretch(plan: Plan, a: Vehicle, b: Vehicle) {
    || (a.mode == Hold && b.mode == Hold)
    || (a.mode == Mission && b.mode == Mission && plan.gnssLoss == DeadReckoning && a.unaidedSince.Some? && b.unaidedSince.Some?)
  }

  function Limit(plan: Plan, v: Vehicle): real {
    if v.mode == Hold then plan.holdTimeout else plan.maxDeadReckoning
  }

  function Since(v: Vehicle): Option<real> {
    if v.mode == Hold then v.holdSince else v.unaidedSince
  }

  lemma AdvanceKeepsStretch(plan: Plan, v: Vehicle, n: Noise)
    ensures var r := AdvanceMission(plan, v, n).0;
            (r.mode == Hold ==> v.mode == Hold) && (r.mode == Mission ==> v.mode == Mission || v.mode == Takeoff)
  {
  }

  lemma DecisionLeavesMission(plan: Plan, v: Vehicle, d: Derived, reached: nat)
    requires MissionHolds(plan, v, reached) && v.mode == Mission
    ensures DecideMode(plan, v, d).0.mode != Takeoff
  {
    hide AutonomyOf, HandOver, ModeChange, WantsLand, WantsHold, WantsReturn, UnaidedTooLong;
  }

  lemma StepRespectsTimers(plan: Plan, v: Vehicle, n: Noise, reached: nat)
    requires MissionHolds(plan, v, reached) && n.clock > v.t && n.z >= 0.0
    requires plan.holdTimeout >= 0.0 && plan.maxDeadReckoning >= 0.0
    requires SameStretch(plan, v, Step(plan, v, n).0)
    ensures var next := Step(plan, v, n).0;
            Since(v).Some? && Since(next) == Since(v) && next.t - Since(v).value <= Limit(plan, v)
  {
    hide DecideMode, AdvanceMission, Derivation, AdvanceTransients, ProgressOf, Diff, InBrownout, BrownoutEnd, IsTerminalPhase, Move;
    var awake := Wake(v, n);
    var d := Derivation(InputsOf(awake, n));
    var ready := AfterDerivation(awake, n);
    assert MissionHolds(plan, ready, reached);
    FlightRespectsTimers(plan, ready, d, n, reached);
  }

  lemma FlightRespectsTimers(plan: Plan, v: Vehicle, d: Derived, n: Noise, reached: nat)
    requires MissionHolds(plan, v, reached) && plan.holdTimeout >= 0.0 && plan.maxDeadReckoning >= 0.0
    requires SameStretch(plan, v, AdvanceMission(plan, Move(DecideMode(plan, v, d).0, n), n).0)
    ensures var next := AdvanceMission(plan, Move(DecideMode(plan, v, d).0, n), n).0;
            Since(v).Some? && Since(next) == Since(v) && next.t - Since(v).value <= Limit(plan, v) && next.t == v.t
  {
    hide DecideMode, AdvanceMission, IsTerminalPhase;
    TimersRespected(plan, v, d, reached);
    if v.mode == Mission {
      DecisionLeavesMission(plan, v, d, reached);
    }
    var decided := DecideMode(plan, v, d).0;
    AdvanceKeepsStretch(plan, Move(decided, n), n);
    DecisionFrame(plan, v, d);
    AdvanceFrame(plan, Move(decided, n), n);
  }

  lemma FlyNext(plan: Plan, ops: seq<Op>, k: nat)
    requires k < |ops|
    ensures Fly(plan, ops[..k + 1]) == Perform(plan, Fly(plan, ops[..k]), ops[k])
  {
    assert ops[..k + 1][..k] == ops[..k];
    hide Perform;
  }

  /** Main result: in any run, no stretch of HOLD lasts longer than the hold timeout, and no stretch of
      unaided MISSION under dead reckoning lasts longer than the declared maximum. The stretch begins
      after operation `i` and is still going after operation `j`. */
  lemma {:induction false} StretchesEnd(plan: Plan, ops: seq<Op>, i: nat, j: nat)
    requires Legal(plan, ops) && i <= j < |ops| && plan.holdTimeout >= 0.0 && plan.maxDeadReckoning >= 0.0
    requires forall k :: i < k <= j + 1 ==> SameStretch(plan, Fly(plan, ops[..i + 1]).v, Fly(plan, ops[..k]).v)
    ensures var start, now := Fly(plan, ops[..i + 1]).v, Fly(plan, ops[..j + 1]).v;
            now.t - start.t <= Limit(plan, start) && Since(now) == Since(start)
    decreases j
  {
    hide Admissible, Perform, MissionHolds, Fly;
    if i < j {
      StretchesEnd(plan, ops, i, j - 1);
      FlyNext(plan, ops, j);
      LegalFrom(plan, ops, i + 1);
      LegalFrom(plan, ops, j);
      RunsKeepMission(plan, ops[..i + 1]);
      RunsKeepMission(plan, ops[..j]);
      OperationKeepsStretch(plan, Fly(plan, ops[..i + 1]).v, Fly(plan, ops[..i + 1]).reached, Fly(plan, ops[..j]), ops[j]);
    }
  }

  lemma LegalFrom(plan: Plan, ops: seq<Op>, k: nat)
    requires Legal(plan, ops) && k <= |ops|
    ensures Legal(plan, ops[..k])
  {
    forall j | 0 <= j < k
      ensures Admissible(Fly(plan, ops[..k][..j]), ops[..k][j])
    {
      assert ops[..k][..j] == ops[..j];
    }
  }

  lemma OperationKeepsStretch(plan: Plan, start: Vehicle, reached: nat, c: Course, op: Op)
    requires MissionHolds(plan, start, reached) && MissionHolds(plan, c.v, c.reached) && Admissible(c, op)
    requires plan.holdTimeout >= 0.0 && plan.maxDeadReckoning >= 0.0
    requires SameStretch(plan, start, c.v) && SameStretch(plan, start, Perform(plan, c, op).v)
    requires c.v.t - start.t <= Limit(plan, start) && Since(c.v) == Since(start)
    ensures var now := Perform(plan, c, op).v; now.t - start.t <= Limit(plan, start) && Since(now) == Since(start)
  {
    hide Step, EffectOf, PutEffect, FindEffect, AllowedEffects, IsTerminalPhase;
    match op
    case Tick(n) =>
      StepRespectsTimers(plan, c.v, n, c.reached);
    case _ =>
  }
}
