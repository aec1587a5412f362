/** The recovery policy of the mock, stated on the plan, the derived facts, the battery and the timers: which mode a decision
    enters and why, what it announces, and how the mission goes on from there. */
module MockPolicy {
  import opened Options
  import opened States
  import opened RunLog
  import opened MockDerive
  import opened MockVehicle

  // ---- The decision

  /** A reason to land: the command path is lost, or aiding is, and the plan lands for it. */
  predicate LandsForLoss(plan: Plan, d: Derived) {
    || (plan.computeLoss == LandWithoutCommands && !d.commandsAvailable)
    || (plan.gnssLoss == LandWithoutGnss && !d.gnssAiding)
  }

  /** A reason to return: a loss the plan returns for, or a weak battery. */
  predicate Returns(plan: Plan, d: Derived, battery: real) {
    || (plan.computeLoss == ReturnWithoutCommands && !d.commandsAvailable)
    || (plan.datalinkLoss == ReturnWithoutC2 && !d.c2Link)
    || d.batteryFactor < 0.4 || battery < 0.15
  }

  /** A reason to hold: a loss the plan holds for, or dead reckoning for longer than allowed. `unaidedFor` is how long aiding
      has been missing. */
  predicate Holds(plan: Plan, d: Derived, unaidedFor: real) {
    || (plan.computeLoss == HoldWithoutCommands && !d.commandsAvailable)
    || (plan.datalinkLoss == HoldWithoutC2 && !d.c2Link)
    || (!d.gnssAiding && (plan.gnssLoss == HoldWithoutGnss || (plan.gnssLoss == DeadReckoning && unaidedFor > plan.maxDeadReckoning)))
  }

  /** The time since a timer was started; a timer starts at zero. */
  function Elapsed(since: Option<real>, t: real): real {
    if since.Some? then t - since.value else 0.0
  }

  /** While the mission is on and control is kept: landing goes before everything; then a takeoff is completed; then returning,
      holding and the mission come in this order. A hold that lasts longer than allowed becomes a landing. The two timers run
      exactly while there is something to time. */
  lemma PolicyDecides(plan: Plan, v: Vehicle, d: Derived)
    requires v.phase != Complete && v.phase != Aborted && !d.controlLost
    ensures var next := DecideMode(plan, v, d).0;
            var holds := Holds(plan, d, Elapsed(v.unaidedSince, v.t));
            var lands := LandsForLoss(plan, d) || (holds && v.holdSince.Some? && v.t > v.holdSince.value + plan.holdTimeout);
            var goesHome := Returns(plan, d, v.battery);
            && (lands ==> next.mode == Land && next.phase == Landing)
            && (!lands && v.phase == TakingOff ==> next.mode == Takeoff && next.phase == TakingOff)
            && (!lands && v.phase != TakingOff && goesHome ==> next.mode == Rtl && next.phase == Returning)
            && (!lands && v.phase != TakingOff && !goesHome && holds ==> next.mode == Hold && next.phase == Holding)
            && (!lands && v.phase != TakingOff && !goesHome && !holds ==> Continued(v, next))
            && (next.landReason <==> v.landReason || lands)
            && next.holdSince == (if !holds then None else if v.holdSince.Some? then v.holdSince else Some(v.t))
            && next.unaidedSince == (if d.gnssAiding then None else if v.unaidedSince.Some? then v.unaidedSince else Some(v.t))
            && next.finished == v.finished && next.armed == v.armed && next.waypointIndex == v.waypointIndex
  {
    hide AutonomyOf, HandOver, ModeChange;
  }

  /** Nothing asks for anything: the mission goes on from where it was. */
  predicate Continued(before: Vehicle, after: Vehicle) {
    match before.phase
    case Holding => after.phase == Enroute && after.mode == Mission
    case Enroute => after.phase == Enroute && after.mode == Mission
    case Returning => after.phase == Returning && after.mode == Mission
    case Landing => after.phase == Landing && after.mode == Land
    case _ => after.phase == before.phase && after.mode == before.mode
  }

  /** Losing control ends the mission on the spot; a mission that is over is left alone. */
  lemma ControlLossEnds(plan: Plan, v: Vehicle, d: Derived)
    ensures v.phase == Complete || v.phase == Aborted ==> DecideMode(plan, v, d) == (v, [])
    ensures v.phase != Complete && v.phase != Aborted && d.controlLost ==>
              DecideMode(plan, v, d) == (v.(phase := Aborted, mode := ModeUnknown, finished := true),
                                         [Response("loss_of_control", Some(FlightControlCore), false)])
  {
    hide NextMode, AutonomyOf, HandOver, ModeChange;
  }

  // ---- One loss at a time, for every value of every policy

  /** In flight, with control, and not landing yet. */
  predicate InFlight(v: Vehicle, d: Derived) {
    v.phase in {Enroute, Holding, Returning} && !d.controlLost
  }

  /** Nothing is wrong with the battery, and the hold, if any, has not lasted too long. */
  predicate Calm(plan: Plan, v: Vehicle, d: Derived) {
    d.batteryFactor >= 0.4 && v.battery >= 0.15 && (v.holdSince.Some? ==> v.t - v.holdSince.value <= plan.holdTimeout)
  }

  /** Only the command path is lost. */
  lemma CommandsLost(plan: Plan, v: Vehicle, d: Derived)
    requires InFlight(v, d) && Calm(plan, v, d) && !d.commandsAvailable && d.gnssAiding && d.c2Link
    ensures var next := DecideMode(plan, v, d).0;
            match plan.computeLoss
            case HoldWithoutCommands => next.mode == Hold && next.phase == Holding
            case ReturnWithoutCommands => next.mode == Rtl && next.phase == Returning
            case LandWithoutCommands => next.mode == Land && next.phase == Landing
  {
    hide DecideMode;
    PolicyDecides(plan, v, d);
  }

  /** Only aiding is lost; it was lost `unaided` ago. */
  lemma AidingLost(plan: Plan, v: Vehicle, d: Derived)
    requires InFlight(v, d) && Calm(plan, v, d) && d.commandsAvailable && !d.gnssAiding && d.c2Link
    ensures var next := DecideMode(plan, v, d).0;
            match plan.gnssLoss
            case HoldWithoutGnss => next.mode == Hold && next.phase == Holding
            case LandWithoutGnss => next.mode == Land && next.phase == Landing
            case DeadReckoning =>
              if Elapsed(v.unaidedSince, v.t) > plan.maxDeadReckoning then next.mode == Hold && next.phase == Holding
              else next.mode == Mission && next.phase == if v.phase == Returning then Returning else Enroute
  {
    hide DecideMode;
    PolicyDecides(plan, v, d);
  }

  /** Only the C2 link is lost. */
  lemma LinkLost(plan: Plan, v: Vehicle, d: Derived)
    requires InFlight(v, d) && Calm(plan, v, d) && d.commandsAvailable && d.gnssAiding && !d.c2Link
    ensures var next := DecideMode(plan, v, d).0;
            match plan.datalinkLoss
            case HoldWithoutC2 => next.mode == Hold && next.phase == Holding
            case ReturnWithoutC2 => next.mode == Rtl && next.phase == Returning
            case Continue =>
              next.mode == Mission && next.phase == (if v.phase == Returning then Returning else Enroute) && next.autonomy == ByLocal
  {
    PolicyDecides(plan, v, d);
  }

  /** Only the battery is low: by its factor or by its charge. */
  lemma BatteryLow(plan: Plan, v: Vehicle, d: Derived)
    requires InFlight(v, d) && d.commandsAvailable && d.gnssAiding && d.c2Link
    ensures var next := DecideMode(plan, v, d).0;
            if d.batteryFactor < 0.4 || v.battery < 0.15 then next.mode == Rtl && next.phase == Returning
            else next.mode == Mission && next.phase == if v.phase == Returning then Returning else Enroute
  {
    hide DecideMode;
    PolicyDecides(plan, v, d);
  }

  // ---- What a decision announces

  predicate Says(said: seq<Response>, what: string) {
    exists k :: 0 <= k < |said| && said[k].responseType == what
  }

  const FAILSAFES: set<string> := {"failsafe_hold", "failsafe_rtl", "failsafe_land"}

  /** A failsafe has the vehicle while it holds, returns, or lands for a reason; otherwise local autonomy has it exactly without
      a C2 link. The hand-overs to local autonomy and back are announced. */
  lemma HandOverAnnounced(plan: Plan, v: Vehicle, d: Derived)
    requires v.phase != Complete && v.phase != Aborted && !d.controlLost
    ensures var (next, said) := DecideMode(plan, v, d);
            var failsafe := next.mode == Hold || next.mode == Rtl || (next.mode == Land && next.landReason);
            && (next.autonomy == ByFailsafe <==> failsafe) && (next.autonomy == ByLocal <==> !failsafe && !d.c2Link)
            && (Says(said, "local_autonomy_active") <==> v.autonomy != ByLocal && next.autonomy == ByLocal)
            && (Says(said, "c2_authority_restored") <==> v.autonomy == ByLocal && next.autonomy == ByMission)
  {
    hide NextMode, WantsLand, WantsHold, UnaidedTooLong, UnaidedSince, Says, HandOver, ModeChange;
    var next := DecideMode(plan, v, d).0;
    SaysEither(HandOver(v.autonomy, next.autonomy), ModeChange(v.mode, next.mode, next.landReason), "local_autonomy_active");
    SaysEither(HandOver(v.autonomy, next.autonomy), ModeChange(v.mode, next.mode, next.landReason), "c2_authority_restored");
    HandOverSays(v.autonomy, next.autonomy);
    ModeChangeSays(v.mode, next.mode, next.landReason);
  }

  /** Entering a failsafe mode is announced, once, as the last response and the only safe state; so is the resumption after a
      hold. */
  lemma FailsafeAnnounced(plan: Plan, v: Vehicle, d: Derived)
    requires v.phase != Complete && v.phase != Aborted && !d.controlLost
    ensures var (next, said) := DecideMode(plan, v, d);
            && (Says(said, "failsafe_hold") <==> v.mode != Hold && next.mode == Hold)
            && (Says(said, "failsafe_rtl") <==> v.mode != Rtl && next.mode == Rtl)
            && (Says(said, "failsafe_land") <==> v.mode != Land && next.mode == Land && next.landReason)
            && (Says(said, "mission_resumed") <==> v.mode == Hold && next.mode == Mission)
            && forall k :: 0 <= k < |said| ==>
                             && (said[k].safeState <==> said[k].responseType in FAILSAFES)
                             && (said[k].safeState ==> k == |said| - 1)
  {
    hide NextMode, WantsLand, WantsHold, UnaidedTooLong, UnaidedSince, AutonomyOf, Says, HandOver, ModeChange;
    var next := DecideMode(plan, v, d).0;
    forall what
      ensures Says(DecideMode(plan, v, d).1, what)
              <==> Says(HandOver(v.autonomy, next.autonomy), what) || Says(ModeChange(v.mode, next.mode, next.landReason), what)
    {
      SaysEither(HandOver(v.autonomy, next.autonomy), ModeChange(v.mode, next.mode, next.landReason), what);
    }
    HandOverSays(v.autonomy, next.autonomy);
    ModeChangeSays(v.mode, next.mode, next.landReason);
  }

  lemma SaysEither(first: seq<Response>, second: seq<Response>, what: string)
    ensures Says(first + second, what) <==> Says(first, what) || Says(second, what)
  {
    if k :| 0 <= k < |first| && first[k].responseType == what {
      assert (first + second)[k] == first[k];
    }
    if k :| 0 <= k < |second| && second[k].responseType == what {
      assert (first + second)[|first| + k] == second[k];
    }
  }

  lemma KindsDiffer()
    ensures "local_autonomy_active" != "c2_authority_restored" && "failsafe_hold" != "failsafe_land"
    ensures {"local_autonomy_active", "c2_authority_restored"} !! FAILSAFES
    ensures "mission_resumed" !in FAILSAFES + {"local_autonomy_active", "c2_authority_restored"}
  {
    assert "local_autonomy_active"[0] == 'l' && "c2_authority_restored"[0] == 'c';
    assert "failsafe_hold"[9] == 'h' && "failsafe_land"[9] == 'l';
    assert |"failsafe_rtl"| == 12 && |"failsafe_hold"| == 13 && |"failsafe_land"| == 13;
    assert |"local_autonomy_active"| == 21 && |"c2_authority_restored"| == 21 && |"mission_resumed"| == 15;
  }

  lemma SaysOne(said: seq<Response>)
    requires |said| <= 1
    ensures forall what :: Says(said, what) <==> said != [] && said[0].responseType == what
  {
    if said != [] {
      assert said[0] == said[|said| - 1];
    }
  }

  lemma HandOverSays(before: Autonomy, after: Autonomy)
    ensures var said := HandOver(before, after);
            && (forall what :: Says(said, what) <==> (|| (what == "local_autonomy_active" && before != ByLocal && after == ByLocal)
                                                      || (what == "c2_authority_restored" && before == ByLocal && after == ByMission)))
            && |said| <= 1 && forall k :: 0 <= k < |said| ==> !said[k].safeState && said[k].responseType !in FAILSAFES
  {
    KindsDiffer();
    SaysOne(HandOver(before, after));
    hide FAILSAFES, Says;
  }

  lemma ModeChangeSays(before: FlightMode, after: FlightMode, landReason: bool)
    ensures var said := ModeChange(before, after, landReason);
            && (forall what :: Says(said, what) <==> (|| (what == "failsafe_hold" && before != Hold && after == Hold)
                                                      || (what == "failsafe_rtl" && before != Rtl && after == Rtl)
                                                      || (what == "failsafe_land" && before != Land && after == Land && landReason)
                                                      || (what == "mission_resumed" && before == Hold && after == Mission)))
            && |said| <= 1 && forall k :: 0 <= k < |said| ==> (said[k].safeState <==> said[k].responseType in FAILSAFES)
  {
    KindsDiffer();
    SaysOne(ModeChange(before, after, landReason));
    hide Says;
  }

  // ---- The mission

  /** How the mission goes on: the takeoff is over half a metre below the altitude; reaching a waypoint counts it, and the last one
      starts the landing, as does reaching home; the landing is over on the ground, where the mission is complete exactly when all
      waypoints are behind. */
  lemma MissionAdvances(plan: Plan, v: Vehicle, n: Noise)
    ensures var (next, said) := AdvanceMission(plan, v, n);
            var climbed := v.mode == Takeoff && v.z >= plan.altitude - 0.5;
            var arrived := v.mode == Mission && v.phase == Enroute && v.waypointIndex < plan.waypoints && n.atWaypoint;
            var descends := (arrived && v.waypointIndex + 1 >= plan.waypoints) || (v.mode == Rtl && n.atHome);
            var lands := (descends || v.mode == Land) && v.z <= 0.05 && v.t > 1.0;
            && next.waypointIndex == (if climbed then 1 else if arrived then v.waypointIndex + 1 else v.waypointIndex)
            && (lands ==>
                  && next.mode == Landed && !next.armed && next.finished
                  && next.phase == if next.waypointIndex >= plan.waypoints then Complete else Aborted)
            && (!lands ==>
                  && next.armed == v.armed && next.finished == v.finished
                  && next.mode == (if climbed then Mission else if descends then Land else v.mode)
                  && next.phase == (if climbed then Enroute else if descends then Landing else v.phase))
            && said == (if climbed then [MissionEvent("takeoff_complete")] else [])
                       + (if arrived then [MissionEvent("waypoint_reached")] else [])
                       + (if arrived && descends then [MissionEvent("mission_waypoints_complete")] else [])
                       + (if lands then [MissionEvent("landed")] else [])
  {
  }

  /** A vehicle whose mission is complete stands still; any other moves, and its battery drains, also after an abort. */
  lemma StandsWhenComplete(plan: Plan, v: Vehicle, n: Noise)
    ensures var next := Step(plan, v, n).0;
            && (v.phase == Complete && v.finished ==> next.z == v.z && next.battery == v.battery)
            && (!v.finished || v.phase == Aborted ==> next.z == n.z && next.battery == n.battery)
  {
    hide AdvanceTransients, Derivation, ProgressOf, Diff, DecideMode, InBrownout, BrownoutEnd;
    var ready := AfterDerivation(Wake(v, n), n);
    var d := Derivation(InputsOf(Wake(v, n), n));
    ControlLossEnds(plan, ready, d);
    DecisionFinishes(plan, ready, d);
    MissionKeepsPlace(plan, Move(DecideMode(plan, ready, d).0, n), n);
    hide AdvanceMission;
  }

  lemma MissionKeepsPlace(plan: Plan, v: Vehicle, n: Noise)
    ensures var r := AdvanceMission(plan, v, n).0; r.z == v.z && r.battery == v.battery
  {
  }

  /** A decision only finishes what it aborts. */
  lemma DecisionFinishes(plan: Plan, v: Vehicle, d: Derived)
    ensures var r := DecideMode(plan, v, d).0;
            && (r.finished && !v.finished ==> r.phase == Aborted) && (v.phase == Aborted ==> r.phase == Aborted)
            && r.z == v.z && r.battery == v.battery
  {
    hide NextMode, AutonomyOf, HandOver, ModeChange, UnaidedSince, WantsHold, WantsLand;
  }

  // ---- The reported progress

  /** Until the takeoff is over the progress is the height reached, at most a twentieth; on the way it is nine tenths of the legs behind
      and of the share of the present one; the descent after the last waypoint brings the rest, but never all of it. */
  lemma ProgressIs(plan: Plan, v: Vehicle, n: Noise)
    requires plan.waypoints >= 2 && v.z >= 0.0 && 0.0 <= n.partial <= 1.0 && v.waypointIndex >= 1
    ensures var progress := ProgressOf(plan, v, n);
            var legs := (plan.waypoints - 1) as real;
            var height := if plan.altitude > 1.0 then plan.altitude else 1.0;
            && (v.phase == Complete ==> progress == 1.0)
            && (v.phase == Pending || v.phase == TakingOff ==> progress == if v.z >= height then 0.05 else v.z / height * 0.05)
            && (v.phase in {Enroute, Holding, Returning, Aborted} && v.waypointIndex < plan.waypoints ==>
                  progress == 0.9 * ((v.waypointIndex - 1) as real + n.partial) / legs)
            && (v.phase == Landing && v.waypointIndex < plan.waypoints ==> progress == 0.9 * (v.waypointIndex - 1) as real / legs)
            && (v.phase == Landing && v.waypointIndex >= plan.waypoints ==>
                  progress == if v.z >= height then 0.9 else if 1.0 - 0.1 * (v.z / height) > 0.999 then 0.999 else 1.0 - 0.1 * (v.z / height))
  {
    var legs := (plan.waypoints - 1) as real;
    var height := if plan.altitude > 1.0 then plan.altitude else 1.0;
    Ratio(v.z, height);
    if v.waypointIndex < plan.waypoints {
      ShareOfLegs((v.waypointIndex - 1) as real + n.partial, legs);
      ShareOfLegs((v.waypointIndex - 1) as real, legs);
    }
  }

  lemma Ratio(a: real, b: real)
    requires a >= 0.0 && b > 0.0
    ensures a / b >= 0.0 && (a / b >= 1.0 <==> a >= b)
  {
  }

  lemma ShareOfLegs(done: real, legs: real)
    requires 0.0 <= done <= legs && legs > 0.0
    ensures 0.0 <= 0.9 * done / legs <= 0.9
  {
    var share := 0.9 * done / legs;
    assert share * legs == 0.9 * done;
    assert share > 0.9 ==> share * legs > 0.9 * legs;
    assert share < 0.0 ==> share * legs < 0.0;
  }

  // ---- From fault to reaction

  /** The command path of the vehicle is cut by some effect: on the computer, on its planner, on the link or on the gateway. */
  ghost predicate PathCut(effects: seq<ActiveEffect>, t: real) {
    || Hit(effects, t, MissionCompute, 2) || Hit(effects, t, MissionPlanner, 2)
    || Hit(effects, t, NetworkCompanionLink, 2) || Hit(effects, t, SecurityGateway, 2)
  }

  /** Main result: as long as an effect cuts the command path and none takes the flight core or the motors down, a vehicle on its
      mission does not report the mission mode: it is in the mode the plan has chosen for the loss of commands, or in one that goes
      before it. */
  lemma PathCutStopsMission(plan: Plan, v: Vehicle, n: Noise)
    requires v.phase in {Enroute, Holding, Returning} && Allowed(Wake(v, n).effects) && PathCut(Wake(v, n).effects, n.clock)
    requires !Hit(Wake(v, n).effects, n.clock, FlightControlCore, 2) && !Hit(Wake(v, n).effects, n.clock, ActuationMotors, 2)
    ensures var mode := Step(plan, v, n).1.sample.mode;
            match plan.computeLoss
            case HoldWithoutCommands => mode in {Hold, Rtl, Land, Landed}
            case ReturnWithoutCommands => mode in {Rtl, Land, Landed}
            case LandWithoutCommands => mode in {Land, Landed}
  {
    hide Hit, Derivation, DecideMode, AdvanceTransients, Brown, Allowed, Step, CommandsAvailable, ControlLost, C2Link, TelemetryLink;
    var i := InputsOf(Wake(v, n), n);
    FlagsReference(i);
    DerivedFlags(i);
    Reports(plan, v, n);
    hide Severe;
    ReactsWhileFlying(plan, AfterDerivation(Wake(v, n), n), Derivation(i));
  }

  /** The same for the C2 link, cut by an effect on the radio or by any trouble of the ground station: the vehicle holds or returns
      when the plan says so, and is no longer under ground supervision when it says to continue. */
  lemma LinkCutReacts(plan: Plan, v: Vehicle, n: Noise)
    requires v.phase in {Enroute, Holding, Returning} && Allowed(Wake(v, n).effects)
    requires Hit(Wake(v, n).effects, n.clock, CommunicationsC2, 2) || Hit(Wake(v, n).effects, n.clock, ExternalGcs, 1)
    requires !Hit(Wake(v, n).effects, n.clock, FlightControlCore, 2) && !Hit(Wake(v, n).effects, n.clock, ActuationMotors, 2)
    ensures var (next, o) := Step(plan, v, n);
            match plan.datalinkLoss
            case HoldWithoutC2 => o.sample.mode in {Hold, Rtl, Land, Landed}
            case ReturnWithoutC2 => o.sample.mode in {Rtl, Land, Landed}
            case Continue => next.autonomy != ByMission
  {
    hide Hit, Derivation, DecideMode, AdvanceTransients, Brown, Allowed, Step, CommandsAvailable, ControlLost, C2Link, TelemetryLink;
    var i := InputsOf(Wake(v, n), n);
    FlagsReference(i);
    DerivedFlags(i);
    Reports(plan, v, n);
    hide Severe;
    ReactsWhileFlying(plan, AfterDerivation(Wake(v, n), n), Derivation(i));
  }

  /** What a loss asks for outweighs the mission. */
  lemma ReactsWhileFlying(plan: Plan, v: Vehicle, d: Derived)
    requires v.phase in {Enroute, Holding, Returning} && !d.controlLost
    ensures var next := DecideMode(plan, v, d).0;
            && (!d.commandsAvailable ==> match plan.computeLoss
                                         case HoldWithoutCommands => next.mode in {Hold, Rtl, Land}
                                         case ReturnWithoutCommands => next.mode in {Rtl, Land}
                                         case LandWithoutCommands => next.mode == Land)
            && (!d.c2Link ==> match plan.datalinkLoss
                              case HoldWithoutC2 => next.mode in {Hold, Rtl, Land}
                              case ReturnWithoutC2 => next.mode in {Rtl, Land}
                              case Continue => next.autonomy != ByMission)
  {
    hide DecideMode, Says;
    PolicyDecides(plan, v, d);
    HandOverAnnounced(plan, v, d);
  }

  /** What the mission makes of the decided mode within the step. */
  lemma Reports(plan: Plan, v: Vehicle, n: Noise)
    ensures var awake := Wake(v, n);
            var decided := DecideMode(plan, AfterDerivation(awake, n), Derivation(InputsOf(awake, n))).0;
            var (next, o) := Step(plan, v, n);
            && next.autonomy == decided.autonomy
            && (decided.mode == Hold ==> o.sample.mode == Hold)
            && (decided.mode == Rtl ==> o.sample.mode in {Rtl, Land, Landed})
            && (decided.mode == Land ==> o.sample.mode in {Land, Landed})
  {
    hide Wake, AfterDerivation, Derivation, InputsOf, DecideMode, ProgressOf, Diff;
  }

  lemma DerivedFlags(i: Inputs)
    ensures Derivation(i).commandsAvailable == CommandsAvailable(i) && Derivation(i).controlLost == ControlLost(i)
    ensures Derivation(i).c2Link == C2Link(i)
  {
    hide CommandsAvailable, ControlLost, StateOf, GnssAiding, BatteryFactor, C2Link, TelemetryLink;
  }
}
