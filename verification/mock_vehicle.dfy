/** The mock vehicle: one simulation step from effects to observation, with random draws and
    kinematics as arbitrary inputs. */
module MockVehicle {
  import opened Options
  import opened States
  import opened RunLog
  import opened MockDerive

  datatype GnssPolicy = DeadReckoning | HoldWithoutGnss | LandWithoutGnss
  datatype DatalinkPolicy = Continue | HoldWithoutC2 | ReturnWithoutC2
  datatype ComputePolicy = HoldWithoutCommands | LandWithoutCommands | ReturnWithoutCommands

  /** The mission and the declared recovery policy. */
  datatype Plan = Plan(
    waypoints: nat,
    altitude: real,
    gnssLoss: GnssPolicy,
    datalinkLoss: DatalinkPolicy,
    computeLoss: ComputePolicy,
    holdTimeout: real,
    maxDeadReckoning: real)

  datatype Autonomy = ByMission | ByLocal | ByFailsafe

  datatype Vehicle = Vehicle(
    t: real,
    armed: bool,
    finished: bool,
    mode: FlightMode,
    phase: MissionPhase,
    waypointIndex: nat,
    effects: seq<ActiveEffect>,
    states: Health,
    marks: set<Id>,
    unaidedSince: Option<real>,
    holdSince: Option<real>,
    landReason: bool,
    autonomy: Autonomy,
    brownoutUntil: Option<real>,
    z: real,
    battery: real)

  /** What chance and kinematics contribute to one step. */
  datatype Noise = Noise(
    clock: real,
    restart: EventId -> real,
    brownout: real,
    z: real,
    battery: real,
    atWaypoint: bool,
    atHome: bool,
    partial: real)

  function NewVehicle(): Vehicle {
    Vehicle(0.0, false, false, Idle, Pending, 1, [], map c | c in COMPONENTS :: HealthyState(c), {}, None, None, false, ByMission, None, 0.0, 1.0)
  }

  function Start(v: Vehicle): Vehicle {
    v.(armed := true, mode := Takeoff, phase := TakingOff)
  }

  // ---- Injection and clearing

  /** Position of the effect with this key, or the length when there is none. */
  function FindEffect(effects: seq<ActiveEffect>, id: EventId): (k: nat)
    ensures k <= |effects| && (k < |effects| ==> effects[k].eventId == id)
  {
    if effects == [] || effects[0].eventId == id then 0 else 1 + FindEffect(effects[1..], id)
  }

  function PutEffect(effects: seq<ActiveEffect>, e: ActiveEffect): seq<ActiveEffect> {
    var k := FindEffect(effects, e.eventId);
    if k < |effects| then effects[k := e] else effects + [e]
  }

  /** A new effect; restarts and crashes begin their own stages. `draw` is the random stage length. */
  function EffectOf(request: InjectionRequest, t: real, draw: real): ActiveEffect {
    var stage := if request.effect == Restart then Restarting else if request.effect == Crash then Crashed else Active;
    var length := Param(request.parameters, if request.effect == Restart then "restart_time" else "watchdog_time", draw);
    ActiveEffect(request.eventId, request.subsystem, request.effect, t, request.parameters, stage,
                 if stage == Active then None else Some(t + length))
  }

  /** An injection into a component the topology does not have is refused. */
  function InjectInto(v: Vehicle, request: InjectionRequest, draw: real): (Vehicle, bool) {
    if request.subsystem in COMPONENTS then (v.(effects := PutEffect(v.effects, EffectOf(request, v.t, draw))), true)
    else (v, false)
  }

  function ClearFrom(v: Vehicle, id: EventId): Vehicle {
    var k := FindEffect(v.effects, id);
    if k < |v.effects| then v.(effects := v.effects[..k] + v.effects[k + 1..]) else v
  }

  // ---- Transients

  /** A crash whose watchdog expired starts its restart. */
  function Progressed(e: ActiveEffect, t: real, restart: EventId -> real): ActiveEffect {
    if e.effect == Crash && e.stage == Crashed && e.stageUntil.Some? && t >= e.stageUntil.value
    then e.(stage := Restarting, stageUntil := Some(t + Param(e.parameters, "restart_time", restart(e.eventId)))) else e
  }

  predicate IsOver(e: ActiveEffect, t: real) {
    e.stage == Restarting && e.stageUntil.Some? && t >= e.stageUntil.value
  }

  /** The effects that remain, and the components whose restart completed. */
  function AdvanceTransients(effects: seq<ActiveEffect>, t: real, restart: EventId -> real): (seq<ActiveEffect>, set<Id>) {
    if effects == [] then ([], {})
    else
      var (rest, marks) := AdvanceTransients(effects[..|effects| - 1], t, restart);
      var last := Progressed(effects[|effects| - 1], t, restart);
      if IsOver(last, t) then (rest, marks + {last.subsystem}) else (rest + [last], marks)
  }

  // ---- Decisions

  predicate IsTerminalPhase(phase: MissionPhase) { phase == Complete || phase == Aborted }

  function UnaidedSince(v: Vehicle, d: Derived): Option<real> {
    if d.gnssAiding then None else if v.unaidedSince.None? then Some(v.t) else v.unaidedSince
  }

  predicate UnaidedTooLong(plan: Plan, v: Vehicle, d: Derived) {
    !d.gnssAiding && v.t - UnaidedSince(v, d).value > plan.maxDeadReckoning
  }

  predicate WantsHold(plan: Plan, v: Vehicle, d: Derived) {
    || (!d.commandsAvailable && plan.computeLoss == HoldWithoutCommands)
    || (!d.gnssAiding && (plan.gnssLoss == HoldWithoutGnss || (plan.gnssLoss == DeadReckoning && UnaidedTooLong(plan, v, d))))
    || (!d.c2Link && plan.datalinkLoss == HoldWithoutC2)
  }

  predicate WantsReturn(plan: Plan, v: Vehicle, d: Derived) {
    || (!d.commandsAvailable && plan.computeLoss == ReturnWithoutCommands)
    || (!d.c2Link && plan.datalinkLoss == ReturnWithoutC2)
    || d.batteryFactor < 0.4 || v.battery < 0.15
  }

  predicate WantsLand(plan: Plan, v: Vehicle, d: Derived) {
    || (!d.commandsAvailable && plan.computeLoss == LandWithoutCommands)
    || (!d.gnssAiding && plan.gnssLoss == LandWithoutGnss)
    || (WantsHold(plan, v, d) && v.holdSince.Some? && v.t - v.holdSince.value > plan.holdTimeout)
  }

  /** Mode and phase by priority: landing, returning, holding, mission. */
  function NextMode(plan: Plan, v: Vehicle, d: Derived): (FlightMode, MissionPhase) {
    if v.phase == TakingOff && !WantsLand(plan, v, d) then (Takeoff, v.phase)
    else if WantsLand(plan, v, d) then (Land, Landing)
    else if WantsReturn(plan, v, d) then (Rtl, Returning)
    else if WantsHold(plan, v, d) then (Hold, Holding)
    else
      var phase := if v.phase == Holding then Enroute else v.phase;
      (if phase == Enroute || phase == Returning then Mission else if phase == Landing then Land else v.mode, phase)
  }

  function AutonomyOf(mode: FlightMode, landReason: bool, c2Link: bool): Autonomy {
    if mode == Hold || mode == Rtl || (mode == Land && landReason) then ByFailsafe
    else if !c2Link then ByLocal else ByMission
  }

  function HandOver(before: Autonomy, after: Autonomy): seq<Response> {
    if after == before then []
    else if after == ByLocal then [Response("local_autonomy_active", Some(MissionCompute), false)]
    else if after == ByMission && before == ByLocal then [Response("c2_authority_restored", Some(CommunicationsC2), false)]
    else []
  }

  function ModeChange(before: FlightMode, after: FlightMode, landReason: bool): seq<Response> {
    if after == before then []
    else if after == Hold then [Response("failsafe_hold", Some(FlightControlCore), true)]
    else if after == Rtl then [Response("failsafe_rtl", Some(FlightControlCore), true)]
    else if after == Land && landReason then [Response("failsafe_land", Some(FlightControlCore), true)]
    else if after == Mission && before == Hold then [Response("mission_resumed", Some(MissionPlanner), false)]
    else []
  }

  function DecideMode(plan: Plan, v: Vehicle, d: Derived): (Vehicle, seq<Response>) {
    if IsTerminalPhase(v.phase) then (v, [])
    else if d.controlLost then
      (v.(phase := Aborted, mode := ModeUnknown, finished := true), [Response("loss_of_control", Some(FlightControlCore), false)])
    else
      var (mode, phase) := NextMode(plan, v, d);
      var landReason := v.landReason || WantsLand(plan, v, d);
      var autonomy := AutonomyOf(mode, landReason, d.c2Link);
      var holdSince := if !WantsHold(plan, v, d) then None else if v.holdSince.None? then Some(v.t) else v.holdSince;
      (v.(mode := mode, phase := phase, unaidedSince := UnaidedSince(v, d), holdSince := holdSince,
          landReason := landReason, autonomy := autonomy),
       HandOver(v.autonomy, autonomy) + ModeChange(v.mode, mode, landReason))
  }

  // ---- Mission progress

  function AdvanceLeg(plan: Plan, v: Vehicle, n: Noise): (Vehicle, seq<MissionEvent>) {
    if v.mode == Takeoff && v.z >= plan.altitude - 0.5 then
      (v.(phase := Enroute, mode := Mission, waypointIndex := 1), [MissionEvent("takeoff_complete")])
    else if v.mode == Mission && v.phase == Enroute then
      if v.waypointIndex < plan.waypoints && n.atWaypoint then
        var next := v.(waypointIndex := v.waypointIndex + 1);
        if next.waypointIndex >= plan.waypoints then
          (next.(phase := Landing, mode := Land), [MissionEvent("waypoint_reached"), MissionEvent("mission_waypoints_complete")])
        else (next, [MissionEvent("waypoint_reached")])
      else (v, [])
    else if v.mode == Rtl && n.atHome then (v.(phase := Landing, mode := Land), [])
    else (v, [])
  }

  function TouchDown(plan: Plan, v: Vehicle): Vehicle {
    v.(mode := Landed, armed := false, finished := true, phase := if v.waypointIndex >= plan.waypoints then Complete else Aborted)
  }

  function AdvanceMission(plan: Plan, v: Vehicle, n: Noise): (Vehicle, seq<MissionEvent>) {
    var (next, events) := AdvanceLeg(plan, v, n);
    if next.mode == Land && next.z <= 0.05 && next.t > 1.0 then
      (TouchDown(plan, next), events + [MissionEvent("landed")])
    else (next, events)
  }

  /** What deciding and advancing leave alone. */
  lemma DecisionFrame(plan: Plan, v: Vehicle, d: Derived)
    ensures var r := DecideMode(plan, v, d).0;
            r.t == v.t && r.effects == v.effects && r.states == v.states && r.brownoutUntil == v.brownoutUntil
  {
    hide NextMode, AutonomyOf, HandOver, ModeChange, WantsLand, WantsHold, UnaidedTooLong, IsTerminalPhase;
  }

  lemma AdvanceFrame(plan: Plan, v: Vehicle, n: Noise)
    ensures var r := AdvanceMission(plan, v, n).0;
            r.t == v.t && r.effects == v.effects && r.states == v.states && r.brownoutUntil == v.brownoutUntil
            && r.holdSince == v.holdSince && r.unaidedSince == v.unaidedSince
  {
  }

  function Min(a: real, b: real): real { if a < b then a else b }

  function Max(a: real, b: real): real { if a > b then a else b }

  /** The completion ratio; `n.partial` is the clamped progress on the current leg. */
  function ProgressOf(plan: Plan, v: Vehicle, n: Noise): real {
    var legs := if plan.waypoints > 2 then plan.waypoints - 1 else 1;
    if v.phase == Complete then 1.0
    else if v.phase == Pending || v.phase == TakingOff then Min(0.05, v.z / Max(plan.altitude, 1.0) * 0.05)
    else
      var completed := if v.waypointIndex - 1 < legs then v.waypointIndex - 1 else legs;
      var partial := if v.waypointIndex < plan.waypoints && v.phase != Landing then n.partial else 0.0;
      var progress := if v.phase == Landing && v.waypointIndex >= plan.waypoints
                      then 0.9 + 0.1 * (1.0 - Min(1.0, v.z / Max(plan.altitude, 1.0)))
                      else 0.9 * (completed as real + partial) / legs as real;
      Max(0.0, Min(0.999, progress))
  }

  // ---- One step

  /** The order in which components are listed. */
  const ORDER: seq<Id> :=
    [ ExternalGcs, CommunicationsC2, CommunicationsTelemetry, MissionCompute, MissionPlanner, MissionServices,
      NetworkCompanionLink, SecurityGateway, NavigationGnss, NavigationEstimator, SensorsBarometer, SensorsMagnetometer,
      SensorsImu, FlightControlCore, ActuationMotors, PowerBattery, PowerBus ]

  /** The changes between two health maps, component by component. */
  function Diff(order: seq<Id>, previous: Health, states: Health): seq<StateChange> {
    if order == [] then []
    else
      var c := order[|order| - 1];
      var rest := Diff(order[..|order| - 1], previous, states);
      if Observed(previous, c) != Observed(states, c) then rest + [StateChange(c, Observed(states, c), None)] else rest
  }

  function InputsOf(v: Vehicle, n: Noise): Inputs {
    Inputs(v.effects, v.marks, v.t, v.brownoutUntil, n.brownout)
  }

  /** Advance the clock and the transients. */
  function Wake(v: Vehicle, n: Noise): Vehicle {
    var (effects, marks) := AdvanceTransients(v.effects, n.clock, n.restart);
    v.(t := n.clock, effects := effects, marks := v.marks + marks)
  }

  /** What the derivation leaves behind: a running brownout is kept, an ended one marks the computer. */
  function AfterDerivation(v: Vehicle, n: Noise): Vehicle {
    var i := InputsOf(v, n);
    if InBrownout(i) then v.(brownoutUntil := BrownoutEnd(i))
    else v.(brownoutUntil := None, marks := if BrownoutEnd(i).Some? then v.marks + {MissionCompute} else v.marks)
  }

  function Move(v: Vehicle, n: Noise): Vehicle {
    if !v.finished || v.phase == Aborted then v.(z := n.z, battery := n.battery) else v
  }

  /** A recovered label is dropped after it has been observed once. */
  function Settle(v: Vehicle, states: Health): Vehicle {
    v.(marks := (set c | c in v.marks && Observed(v.states, c) != Recovered), states := states)
  }

  function Step(plan: Plan, v: Vehicle, n: Noise): (Vehicle, Observation) {
    var awake := Wake(v, n);
    var d := Derivation(InputsOf(awake, n));
    var (decided, responses) := DecideMode(plan, AfterDerivation(awake, n), d);
    var (flown, events) := AdvanceMission(plan, Move(decided, n), n);
    (Settle(flown, d.states),
     Observation(Sample(flown.t, d.states, flown.mode, flown.phase, flown.armed, !d.controlLost, ProgressOf(plan, flown, n)),
                 Diff(ORDER, v.states, d.states), responses, events, flown.finished))
  }
}
