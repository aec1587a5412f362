/** The mock simulation, updating its fields step by step. Every method is proved to perform the
    corresponding step of `MockVehicle` and `MockDerive`. */
module MockStep {
  import opened Options
  import opened States
  import opened RunLog
  import opened D = MockDerive
  import V = MockVehicle

  // ---- Deriving the states: a map overwritten in place

  /** The nested function that lets a state be replaced only by one at least as severe. */
  function SetState(states: Health, c: Id, state: ComponentState): Health
    requires c in states
  {
    if D.Severity(state) >= D.Severity(states[c]) then states[c := state] else states
  }

  /** The map after the direct effects. */
  ghost predicate ShowsDirect(i: D.Inputs, states: Health) {
    states.Keys == D.COMPONENTS && forall c :: c in D.COMPONENTS ==> states[c] == D.Direct(i, c)
  }

  ghost predicate Known(effects: seq<D.ActiveEffect>) {
    forall k :: 0 <= k < |effects| ==> effects[k].subsystem in D.COMPONENTS
  }

  method HealthyStates(marks: set<Id>) returns (states: Health)
    requires marks <= D.COMPONENTS
    ensures states == map c | c in D.COMPONENTS :: if c in marks then Recovered else D.HealthyState(c)
  {
    states := map c | c in D.COMPONENTS :: D.HealthyState(c);
    var todo := marks;
    while todo != {}
      invariant todo <= marks
      invariant states == map c | c in D.COMPONENTS :: if c in marks - todo then Recovered else D.HealthyState(c)
      decreases todo
    {
      var c :| c in todo;
      todo := todo - {c};
      states := states[c := Recovered];
    }
  }

  /** The map after the first `k` effects. */
  ghost predicate ShowsFirst(i: D.Inputs, k: nat, states: Health) {
    && k <= |i.effects| && states.Keys == D.COMPONENTS
    && forall c :: c in D.COMPONENTS ==> states[c] == D.DirectOf(i.effects[..k], i.t, D.BaseState(i, c), c)
  }

  lemma ShowsNext(i: D.Inputs, k: nat, states: Health)
    requires ShowsFirst(i, k, states) && k < |i.effects| && i.effects[k].subsystem in D.COMPONENTS
    ensures ShowsFirst(i, k + 1, SetState(states, i.effects[k].subsystem, D.EffectState(i.effects[k], i.t)))
  {
    hide D.EffectState, D.BaseState, D.COMPONENTS;
    assert i.effects[..k + 1][..k] == i.effects[..k];
  }

  lemma ShowsBase(i: D.Inputs, states: Health)
    requires states == map c | c in D.COMPONENTS :: if c in i.marks then Recovered else D.HealthyState(c)
    ensures ShowsFirst(i, 0, states)
  {
    hide D.HealthyState, D.COMPONENTS;
  }

  lemma ShowsLast(i: D.Inputs, states: Health)
    requires ShowsFirst(i, |i.effects|, states)
    ensures ShowsDirect(i, states)
  {
    assert i.effects[..|i.effects|] == i.effects;
    hide D.BaseState, D.COMPONENTS, D.DirectOf;
  }

  /** The loop over the active effects. */
  method DirectStates(i: D.Inputs) returns (states: Health)
    requires i.marks <= D.COMPONENTS && Known(i.effects)
    ensures ShowsDirect(i, states)
  {
    hide ShowsDirect, D.EffectState, D.COMPONENTS, D.DirectOf;
    states := HealthyStates(i.marks);
    ShowsBase(i, states);
    for k := 0 to |i.effects|
      invariant ShowsFirst(i, k, states)
    {
      ShowsNext(i, k, states);
      var e := i.effects[k];
      states := SetState(states, e.subsystem, D.EffectState(e, i.t));
    }
    ShowsLast(i, states);
  }

  /** Whether the receiver aids the estimator. */
  method GnssUsable(i: D.Inputs, gnss: ComponentState) returns (usable: bool)
    requires gnss == D.Direct(i, NavigationGnss)
    ensures usable == D.GnssAiding(i)
  {
    hide D.DirectOf;
    usable := gnss.IsHealthy();
    for k := 0 to |i.effects|
      invariant usable == D.Usable(i.effects[..k], i.t, gnss.IsHealthy())
    {
      var e := i.effects[k];
      assert i.effects[..k + 1][..k] == i.effects[..k];
      if e.subsystem == NavigationGnss {
        if (e.effect == Erroneous || e.effect == Stuck) && i.t - e.startedAt > 1.0 {
          usable := false;
        }
        if e.effect == Degradation {
          usable := true;
        }
      }
    }
    assert i.effects[..|i.effects|] == i.effects;
    if gnss == Unavailable || gnss == Failed || gnss == Recovering {
      usable := false;
    }
  }

  method LowestLevel(effects: seq<D.ActiveEffect>, c: Id, default: real) returns (level: real)
    ensures level == D.Level(effects, c, default)
  {
    level := 1.0;
    for k := 0 to |effects|
      invariant level == D.Level(effects[..k], c, default)
    {
      var e := effects[k];
      assert effects[..k + 1][..k] == effects[..k];
      if e.subsystem == c && e.effect == Degradation && D.Param(e.parameters, "level", default) < level {
        level := D.Param(e.parameters, "level", default);
      }
    }
    assert effects[..|effects|] == effects;
  }

  /** Lost aiding, a degraded receiver or a rejected sensor degrades the estimator. */
  method LowerEstimator(direct: Health, aiding: bool) returns (states: Health)
    requires direct.Keys == D.COMPONENTS
    ensures states == if !aiding || direct[NavigationGnss] == Degraded || !direct[SensorsBarometer].IsHealthy()
                         || !direct[SensorsMagnetometer].IsHealthy()
                      then SetState(direct, NavigationEstimator, Degraded) else direct
  {
    states := direct;
    ghost var lowered := SetState(direct, NavigationEstimator, Degraded);
    assert SetState(lowered, NavigationEstimator, Degraded) == lowered;
    assert NavigationGnss in lowered && SensorsBarometer in lowered && SensorsMagnetometer in lowered;
    hide SetState;
    if !aiding {
      states := SetState(states, NavigationEstimator, Degraded);
    } else if states[NavigationGnss] == Degraded {
      states := SetState(states, NavigationEstimator, Degraded);
    }
    if !direct[SensorsBarometer].IsHealthy() {
      states := SetState(states, NavigationEstimator, Degraded);
    }
    if !direct[SensorsMagnetometer].IsHealthy() {
      states := SetState(states, NavigationEstimator, Degraded);
    }
  }

  lemma SetIsRaise(states: Health, c: Id, state: ComponentState)
    requires c in states
    ensures SetState(states, c, state) == states[c := D.Raise(states[c], state)]
  {
  }

  lemma NavigationIsShown(i: D.Inputs, direct: Health)
    requires ShowsDirect(i, direct)
    ensures {NavigationGnss, NavigationEstimator, FlightControlCore, SensorsBarometer, SensorsMagnetometer, SensorsImu} <= direct.Keys
  {
    hide D.Direct;
  }

  /** Sensors pull the estimator and the flight core down. */
  method SpreadNavigation(i: D.Inputs, direct: Health) returns (states: Health, aiding: bool)
    requires ShowsDirect(i, direct)
    ensures aiding == D.GnssAiding(i)
    ensures states == direct[NavigationEstimator := D.StateOf(i, NavigationEstimator)][FlightControlCore := D.StateOf(i, FlightControlCore)]
  {
    hide D.DirectOf, D.Usable, D.GnssAiding, D.Direct, SetState, D.Raise, D.COMPONENTS, D.InBrownout, D.BrownoutEnd;
    NavigationIsShown(i, direct);
    aiding := GnssUsable(i, direct[NavigationGnss]);
    SetIsRaise(direct, NavigationEstimator, Degraded);
    states := LowerEstimator(direct, aiding);
    assert states == direct[NavigationEstimator := D.StateOf(i, NavigationEstimator)];
    SetIsRaise(states, FlightControlCore, Degraded);
    if !states[SensorsImu].IsHealthy() {
      states := SetState(states, FlightControlCore, Degraded);
    } else {
      assert states == states[FlightControlCore := states[FlightControlCore]];
    }
  }

  /** The companion computer pulls the processes it hosts down. */
  method SpreadCompute(i: D.Inputs, known: Health) returns (states: Health)
    requires known.Keys == D.COMPONENTS && known[MissionCompute] == D.StateOf(i, MissionCompute)
    requires known[MissionPlanner] == D.Direct(i, MissionPlanner) && known[MissionServices] == D.Direct(i, MissionServices)
    ensures states == known[MissionPlanner := D.StateOf(i, MissionPlanner)][MissionServices := D.StateOf(i, MissionServices)]
  {
    hide D.Direct, D.InBrownout;
    states := known;
    var compute := states[MissionCompute];
    if compute.IsDown() {
      states := SetState(states, MissionPlanner, Unavailable);
      states := SetState(states, MissionServices, Unavailable);
    } else if compute == Degraded {
      states := SetState(states, MissionPlanner, Degraded);
    }
  }

  /** A weak battery limits the thrust, down to a floor. */
  method Battery(i: D.Inputs, battery: ComponentState) returns (factor: real)
    requires battery == D.Direct(i, PowerBattery)
    ensures factor == D.BatteryFactor(i)
  {
    hide D.Direct, D.Level;
    factor := 1.0;
    if battery == Degraded {
      var level := LowestLevel(i.effects, PowerBattery, 0.7);
      factor := if level > 0.3 then level else 0.3;
    }
  }

  /** Whether the bus is weak enough to brown the companion computer out. */
  method WeakBus(i: D.Inputs, bus: ComponentState) returns (weak: bool)
    requires bus == D.Direct(i, PowerBus)
    ensures weak == D.TriggersBrownout(i)
  {
    hide D.Direct, D.Level;
    weak := false;
    if bus == Degraded || bus == Unavailable {
      var level := 1.0;
      level := LowestLevel(i.effects, PowerBus, 0.6);
      if level < 0.5 || bus == Unavailable {
        weak := true;
      }
    }
  }

  /** The loop over the transients has dealt with the first `done` effects, of which `k` remain. */
  ghost predicate Halfway(all: seq<D.ActiveEffect>, done: nat, t: real, restart: EventId -> real,
                          now: seq<D.ActiveEffect>, k: nat, marked: set<Id>, marks: set<Id>)
  {
    && done <= |all|
    && var (rest, more) := V.AdvanceTransients(all[..done], t, restart);
       now == rest + all[done..] && |rest| == k && marks == marked + more
  }

  lemma HalfwayNext(all: seq<D.ActiveEffect>, done: nat, t: real, restart: EventId -> real,
                    now: seq<D.ActiveEffect>, k: nat, marked: set<Id>, marks: set<Id>)
    requires Halfway(all, done, t, restart, now, k, marked, marks) && k < |now|
    ensures done < |all|
    ensures var e := V.Progressed(now[k], t, restart);
            e.subsystem == now[k].subsystem
            && if V.IsOver(e, t)
               then Halfway(all, done + 1, t, restart, now[..k] + now[k + 1..], k, marked, marks + {e.subsystem})
               else Halfway(all, done + 1, t, restart, now[k := e], k + 1, marked, marks)
  {
    hide V.Progressed, V.IsOver;
    assert all[..done + 1][..done] == all[..done] && all[done..] == [all[done]] + all[done + 1..];
    var rest := V.AdvanceTransients(all[..done], t, restart).0;
    assert now[k] == all[done];
    var e := V.Progressed(now[k], t, restart);
    assert now[..k] + now[k + 1..] == rest + all[done + 1..];
    assert now[k := e] == (rest + [e]) + all[done + 1..];
    assert e.subsystem == now[k].subsystem by { KeepsSubsystem(now[k], t, restart); }
  }

  lemma HalfwayStart(all: seq<D.ActiveEffect>, t: real, restart: EventId -> real, marks: set<Id>)
    ensures Halfway(all, 0, t, restart, all, 0, marks, marks)
  {
    assert V.AdvanceTransients(all[..0], t, restart) == ([], {});
  }

  lemma HalfwayDone(all: seq<D.ActiveEffect>, done: nat, t: real, restart: EventId -> real,
                    now: seq<D.ActiveEffect>, k: nat, marked: set<Id>, marks: set<Id>)
    requires Halfway(all, done, t, restart, now, k, marked, marks) && k >= |now|
    ensures var (rest, more) := V.AdvanceTransients(all, t, restart); now == rest && marks == marked + more
  {
    assert all[..|all|] == all;
    hide V.AdvanceTransients;
  }

  lemma KeepsSubsystem(e: D.ActiveEffect, t: real, restart: EventId -> real)
    ensures V.Progressed(e, t, restart).subsystem == e.subsystem
  {
  }

  lemma KnownStays(effects: seq<D.ActiveEffect>, k: nat, e: D.ActiveEffect)
    requires Known(effects) && k < |effects| && e.subsystem == effects[k].subsystem
    ensures Known(effects[k := e]) && Known(effects[..k] + effects[k + 1..]) && e.subsystem in D.COMPONENTS
  {
  }

  class MockSimulation {
    const plan: V.Plan

    var t: real
    var armed: bool
    var finished: bool
    var mode: FlightMode
    var phase: MissionPhase
    var waypointIndex: nat
    var effects: seq<D.ActiveEffect>
    var previousStates: Health
    var recoveredMarks: set<Id>
    var unaidedSince: Option<real>
    var holdSince: Option<real>
    var landReason: bool
    var autonomy: V.Autonomy
    var brownoutUntil: Option<real>
    var z: real
    var battery: real
    var pendingResponses: seq<Response>
    var pendingMissionEvents: seq<MissionEvent>

    ghost predicate Valid()
      reads this
    {
      Known(effects) && recoveredMarks <= D.COMPONENTS && pendingResponses == [] && pendingMissionEvents == []
    }

    ghost function Model(): V.Vehicle
      reads this
    {
      V.Vehicle(t, armed, finished, mode, phase, waypointIndex, effects, previousStates, recoveredMarks, unaidedSince,
                holdSince, landReason, autonomy, brownoutUntil, z, battery)
    }

    constructor (plan: V.Plan)
      ensures Valid() && this.plan == plan && Model() == V.NewVehicle()
    {
      this.plan := plan;
      t, armed, finished, mode, phase, waypointIndex := 0.0, false, false, Idle, Pending, 1;
      effects, recoveredMarks, unaidedSince, holdSince, landReason := [], {}, None, None, false;
      previousStates := map c | c in D.COMPONENTS :: D.HealthyState(c);
      autonomy, brownoutUntil, z, battery := V.ByMission, None, 0.0, 1.0;
      pendingResponses, pendingMissionEvents := [], [];
    }

    method Start()
      requires Valid()
      modifies this`armed, this`mode, this`phase
      ensures Valid() && Model() == V.Start(old(Model()))
    {
      armed := true;
      mode := Takeoff;
      phase := TakingOff;
    }

    method Inject(request: InjectionRequest, draw: real) returns (applied: bool)
      requires Valid()
      modifies this`effects
      ensures Valid() && (Model(), applied) == V.InjectInto(old(Model()), request, draw)
    {
      hide V.FindEffect;
      if request.subsystem !in D.COMPONENTS {
        return false;
      }
      var effect := D.ActiveEffect(request.eventId, request.subsystem, request.effect, t, request.parameters, D.Active, None);
      if request.effect == Restart {
        var restartTime := D.Param(effect.parameters, "restart_time", draw);
        effect := effect.(stage := D.Restarting, stageUntil := Some(t + restartTime));
      } else if request.effect == Crash {
        var watchdog := D.Param(effect.parameters, "watchdog_time", draw);
        effect := effect.(stage := D.Crashed, stageUntil := Some(t + watchdog));
      }
      effects := V.PutEffect(effects, effect);
      return true;
    }

    method Clear(id: EventId)
      requires Valid()
      modifies this`effects
      ensures Valid() && Model() == V.ClearFrom(old(Model()), id)
    {
      hide V.FindEffect;
      var k := V.FindEffect(effects, id);
      if k < |effects| {
        effects := effects[..k] + effects[k + 1..];
      }
    }

    /** Crashed processes restart, restarted ones come back. */
    method AdvanceTransients(n: V.Noise)
      requires Valid()
      modifies this`effects, this`recoveredMarks
      ensures Valid()
      ensures var (rest, marks) := V.AdvanceTransients(old(effects), t, n.restart);
              effects == rest && recoveredMarks == old(recoveredMarks) + marks
    {
      hide D.COMPONENTS, Known, V.AdvanceTransients;
      ghost var all, marked := effects, recoveredMarks;
      ghost var done := 0;
      var k := 0;
      HalfwayStart(all, t, n.restart, recoveredMarks);
      while k < |effects|
        invariant Known(effects) && recoveredMarks <= D.COMPONENTS
        invariant Halfway(all, done, t, n.restart, effects, k, marked, recoveredMarks)
        decreases |effects| - k
      {
        HalfwayNext(all, done, t, n.restart, effects, k, marked, recoveredMarks);
        KnownStays(effects, k, V.Progressed(effects[k], t, n.restart));
        hide Halfway;
        ghost var next := V.Progressed(effects[k], t, n.restart);
        var e := effects[k];
        if e.effect == Crash && e.stage == D.Crashed {
          if e.stageUntil.Some? && t >= e.stageUntil.value {
            e := e.(stage := D.Restarting, stageUntil := Some(t + D.Param(e.parameters, "restart_time", n.restart(e.eventId))));
            effects := effects[k := e];
          }
        }
        assert e == next;
        done := done + 1;
        if e.stage == D.Restarting && e.stageUntil.Some? && t >= e.stageUntil.value {
          effects := effects[..k] + effects[k + 1..];
          recoveredMarks := recoveredMarks + {e.subsystem};
        } else {
          k := k + 1;
        }
      }
      HalfwayDone(all, done, t, n.restart, effects, k, marked, recoveredMarks);
    }

    /** A running brownout keeps the computer down; an ended one leaves the recovered mark. */
    method SpreadPower(i: D.Inputs, known: Health) returns (states: Health)
      requires i == D.Inputs(effects, recoveredMarks, t, brownoutUntil, i.draw)
      requires known.Keys == D.COMPONENTS
      requires known[PowerBus] == D.Direct(i, PowerBus) && known[MissionCompute] == D.Direct(i, MissionCompute)
      modifies this`brownoutUntil, this`recoveredMarks
      ensures brownoutUntil == if D.InBrownout(i) then D.BrownoutEnd(i) else None
      ensures recoveredMarks == if !D.InBrownout(i) && D.BrownoutEnd(i).Some? then i.marks + {MissionCompute} else i.marks
      ensures states == known[MissionCompute := D.ComputeState(i)]
    {
      hide D.Direct, SetState, D.Raise;
      states := known;
      SetIsRaise(known, MissionCompute, Recovering);
      assert known == known[MissionCompute := known[MissionCompute]];
      var weak := WeakBus(i, states[PowerBus]);
      hide D.TriggersBrownout;
      if weak && brownoutUntil.None? {
        brownoutUntil := Some(t + i.draw);
      }
      if brownoutUntil.Some? {
        if t < brownoutUntil.value {
          states := SetState(states, MissionCompute, Recovering);
        } else {
          brownoutUntil := None;
          recoveredMarks := recoveredMarks + {MissionCompute};
        }
      }
    }

    /** Direct effects first, then along the dependencies: navigation, power, compute, communications. */
    method Spread(i: D.Inputs) returns (d: D.Derived)
      requires i == D.Inputs(effects, recoveredMarks, t, brownoutUntil, i.draw)
      requires Known(i.effects) && i.marks <= D.COMPONENTS
      modifies this`brownoutUntil, this`recoveredMarks
      ensures brownoutUntil == if D.InBrownout(i) then D.BrownoutEnd(i) else None
      ensures recoveredMarks == if !D.InBrownout(i) && D.BrownoutEnd(i).Some? then i.marks + {MissionCompute} else i.marks
      ensures d == D.Derivation(i)
    {
      hide D.Direct, D.ComputeState, D.BatteryFactor, D.GnssAiding, D.InBrownout, D.BrownoutEnd, Known, D.Derivation;
      var direct := DirectStates(i);
      var (states, aiding) := (direct, true);
      states, aiding := SpreadNavigation(i, direct);
      var factor := Battery(i, states[PowerBattery]);
      states := SpreadPower(i, states);
      states := SpreadCompute(i, states);
      if !states[ExternalGcs].IsHealthy() {
        states := SetState(states, CommunicationsC2, Degraded);
      }
      ShowsAll(i, direct, states);
      d := Flags(i, states, aiding, factor);
    }

    method Derive(n: V.Noise) returns (d: D.Derived)
      requires Valid()
      modifies this`brownoutUntil, this`recoveredMarks
      ensures Valid() && Model() == V.AfterDerivation(old(Model()), n)
      ensures d == D.Derivation(old(V.InputsOf(Model(), n)))
    {
      hide D.InBrownout, D.BrownoutEnd, Known, D.Derivation;
      d := Spread(D.Inputs(effects, recoveredMarks, t, brownoutUntil, n.brownout));
    }

    static lemma ShowsAll(i: D.Inputs, direct: Health, states: Health)
      requires ShowsDirect(i, direct)
      requires var c2 := if !direct[ExternalGcs].IsHealthy() then D.Raise(direct[CommunicationsC2], Degraded) else direct[CommunicationsC2];
               states == direct[NavigationEstimator := D.StateOf(i, NavigationEstimator)]
                         [FlightControlCore := D.StateOf(i, FlightControlCore)]
                         [MissionCompute := D.StateOf(i, MissionCompute)]
                         [MissionPlanner := D.StateOf(i, MissionPlanner)][MissionServices := D.StateOf(i, MissionServices)]
                         [CommunicationsC2 := c2]
      ensures states == map c | c in D.COMPONENTS :: D.StateOf(i, c)
    {
      hide D.Direct, D.ComputeState, D.GnssAiding;
    }

    /** The command path, the links and control authority, read from the final states. */
    static method Flags(ghost i: D.Inputs, states: Health, aiding: bool, factor: real) returns (d: D.Derived)
      requires states == map c | c in D.COMPONENTS :: D.StateOf(i, c)
      requires aiding == D.GnssAiding(i) && factor == D.BatteryFactor(i)
      ensures d == D.Derivation(i)
    {
      hide D.StateOf, D.GnssAiding, D.BatteryFactor;
      var commands, lost := true, false;
      if states[MissionPlanner].IsDown() {
        commands := false;
      } else if states[NetworkCompanionLink].IsDown() {
        commands := false;
      } else if states[SecurityGateway].IsDown() {
        commands := false;
      }
      var core := states[FlightControlCore];
      if core == Recovering || core == Failed {
        lost := true;
      }
      if states[ActuationMotors].IsDown() {
        lost := true;
      }
      d := D.Derived(states, commands, aiding, lost,
                     !states[CommunicationsC2].IsDown() && states[ExternalGcs].IsHealthy(),
                     !states[CommunicationsTelemetry].IsDown(), factor);
    }

    // ---- Decisions

    /** What the recovery policy asks for, with the two timers. */
    method Requests(d: D.Derived) returns (hold: bool, rtl: bool, land: bool)
      modifies this`unaidedSince, this`holdSince
      ensures hold == old(V.WantsHold(plan, Model(), d)) && rtl == old(V.WantsReturn(plan, Model(), d))
      ensures land == old(V.WantsLand(plan, Model(), d))
      ensures unaidedSince == old(V.UnaidedSince(Model(), d))
      ensures holdSince == if !hold then None else if old(holdSince).None? then Some(t) else old(holdSince)
    {
      hold, rtl, land := false, false, false;
      if !d.commandsAvailable {
        match plan.computeLoss {
          case HoldWithoutCommands => hold := true;
          case ReturnWithoutCommands => rtl := true;
          case LandWithoutCommands => land := true;
        }
      }
      if !d.gnssAiding {
        if unaidedSince.None? {
          unaidedSince := Some(t);
        }
        var unaidedFor := t - unaidedSince.value;
        if plan.gnssLoss == V.HoldWithoutGnss || (plan.gnssLoss == V.DeadReckoning && unaidedFor > plan.maxDeadReckoning) {
          hold := true;
        } else if plan.gnssLoss == V.LandWithoutGnss {
          land := true;
        }
      } else {
        unaidedSince := None;
      }
      if !d.c2Link {
        if plan.datalinkLoss == V.HoldWithoutC2 {
          hold := true;
        } else if plan.datalinkLoss == V.ReturnWithoutC2 {
          rtl := true;
        }
      }
      if d.batteryFactor < 0.4 || battery < 0.15 {
        rtl := true;
      }
      if hold {
        if holdSince.None? {
          holdSince := Some(t);
        } else if t - holdSince.value > plan.holdTimeout {
          land := true;
        }
      } else {
        holdSince := None;
      }
    }

    method SelectMode(hold: bool, rtl: bool, land: bool, ghost v: V.Vehicle, ghost d: D.Derived)
      requires hold == V.WantsHold(plan, v, d) && rtl == V.WantsReturn(plan, v, d) && land == V.WantsLand(plan, v, d)
      requires v.mode == mode && v.phase == phase
      modifies this`mode, this`phase, this`landReason
      ensures (mode, phase) == V.NextMode(plan, v, d) && landReason == (old(landReason) || land)
    {
      hide V.WantsHold, V.WantsReturn, V.WantsLand;
      if phase == TakingOff && !land {
        mode := Takeoff;
      } else if land {
        mode, phase, landReason := Land, Landing, true;
      } else if rtl {
        mode, phase := Rtl, Returning;
      } else if hold {
        mode, phase := Hold, Holding;
      } else {
        if phase == Holding {
          phase := Enroute;
        }
        if phase == Enroute || phase == Returning {
          mode := Mission;
        }
        if phase == Landing {
          mode := Land;
        }
      }
    }

    /** Who is in charge, and what the operator is told about it. */
    method Attribute(c2Link: bool)
      modifies this`autonomy, this`pendingResponses
      ensures autonomy == V.AutonomyOf(mode, landReason, c2Link)
      ensures pendingResponses == old(pendingResponses) + V.HandOver(old(autonomy), autonomy)
    {
      var next := V.ByMission;
      if mode == Hold || mode == Rtl || (mode == Land && landReason) {
        next := V.ByFailsafe;
      } else if !c2Link {
        next := V.ByLocal;
      }
      if next != autonomy {
        if next == V.ByLocal {
          pendingResponses := pendingResponses + [Response("local_autonomy_active", Some(MissionCompute), false)];
        } else if next == V.ByMission && autonomy == V.ByLocal {
          pendingResponses := pendingResponses + [Response("c2_authority_restored", Some(CommunicationsC2), false)];
        }
        autonomy := next;
      }
    }

    method Announce(previous: FlightMode)
      modifies this`pendingResponses
      ensures pendingResponses == old(pendingResponses) + V.ModeChange(previous, mode, landReason)
    {
      if mode != previous {
        if mode == Hold {
          pendingResponses := pendingResponses + [Response("failsafe_hold", Some(FlightControlCore), true)];
        } else if mode == Rtl {
          pendingResponses := pendingResponses + [Response("failsafe_rtl", Some(FlightControlCore), true)];
        } else if mode == Land && landReason {
          pendingResponses := pendingResponses + [Response("failsafe_land", Some(FlightControlCore), true)];
        } else if mode == Mission && previous == Hold {
          pendingResponses := pendingResponses + [Response("mission_resumed", Some(MissionPlanner), false)];
        }
      }
    }

    /** The priorities of the recovery policy, for a mission that goes on under control. */
    method Choose(d: D.Derived)
      requires pendingResponses == []
      modifies this`mode, this`phase, this`unaidedSince, this`holdSince, this`landReason, this`autonomy, this`pendingResponses
      ensures (mode, phase) == old(V.NextMode(plan, Model(), d))
      ensures unaidedSince == old(V.UnaidedSince(Model(), d)) && landReason == old(landReason || V.WantsLand(plan, Model(), d))
      ensures holdSince == old(if !V.WantsHold(plan, Model(), d) then None else if holdSince.None? then Some(t) else holdSince)
      ensures autonomy == V.AutonomyOf(mode, landReason, d.c2Link)
      ensures pendingResponses == V.HandOver(old(autonomy), autonomy) + V.ModeChange(old(mode), mode, landReason)
    {
      hide V.WantsHold, V.WantsReturn, V.WantsLand, V.NextMode, V.AutonomyOf, V.HandOver, V.ModeChange, V.UnaidedSince;
      ghost var v := Model();
      var hold, rtl, land := Requests(d);
      var previousMode := mode;
      SelectMode(hold, rtl, land, v, d);
      Attribute(d.c2Link);
      Announce(previousMode);
    }

    /** Apply the recovery policy and the failsafes. */
    method DecideMode(d: D.Derived)
      requires pendingResponses == []
      modifies this`mode, this`phase, this`finished, this`unaidedSince, this`holdSince, this`landReason, this`autonomy, this`pendingResponses
      ensures (Model(), pendingResponses) == V.DecideMode(plan, old(Model()), d)
    {
      hide V.WantsHold, V.WantsReturn, V.WantsLand, V.NextMode, V.AutonomyOf, V.HandOver, V.ModeChange, V.UnaidedSince;
      if phase == Complete || phase == Aborted {
      } else if d.controlLost {
        pendingResponses := [Response("loss_of_control", Some(FlightControlCore), false)];
        phase, mode, finished := Aborted, ModeUnknown, true;
      } else {
        Choose(d);
      }
    }

    // ---- Mission progress

    method AdvanceMission(n: V.Noise)
      requires pendingMissionEvents == []
      modifies this`mode, this`phase, this`waypointIndex, this`armed, this`finished, this`pendingMissionEvents
      ensures (Model(), pendingMissionEvents) == V.AdvanceMission(plan, old(Model()), n)
    {
      hide V.AdvanceLeg, V.TouchDown;
      AdvanceLeg(n);
      if mode == Land && z <= 0.05 && t > 1.0 {
        TouchDown();
        pendingMissionEvents := pendingMissionEvents + [MissionEvent("landed")];
      }
    }

    /** On the ground: the mission is complete when every waypoint was reached. */
    method TouchDown()
      modifies this`mode, this`phase, this`armed, this`finished
      ensures Model() == V.TouchDown(plan, old(Model()))
    {
      mode, armed, finished := Landed, false, true;
      var reachedAll := waypointIndex >= plan.waypoints;
      phase := if reachedAll then Complete else Aborted;
    }

    method AdvanceLeg(n: V.Noise)
      requires pendingMissionEvents == []
      modifies this`mode, this`phase, this`waypointIndex, this`pendingMissionEvents
      ensures (Model(), pendingMissionEvents) == V.AdvanceLeg(plan, old(Model()), n)
    {
      if mode == Takeoff && z >= plan.altitude - 0.5 {
        phase, mode, waypointIndex := Enroute, Mission, 1;
        pendingMissionEvents := [MissionEvent("takeoff_complete")];
      } else if mode == Mission && phase == Enroute {
        if waypointIndex < plan.waypoints {
          if n.atWaypoint {
            pendingMissionEvents := [MissionEvent("waypoint_reached")];
            waypointIndex := waypointIndex + 1;
            if waypointIndex >= plan.waypoints {
              phase, mode := Landing, Land;
              pendingMissionEvents := pendingMissionEvents + [MissionEvent("mission_waypoints_complete")];
              assert pendingMissionEvents == [MissionEvent("waypoint_reached"), MissionEvent("mission_waypoints_complete")];
            }
          }
        }
      } else if mode == Rtl {
        if n.atHome {
          phase, mode := Landing, Land;
        }
      }
    }

    // ---- One step

    /** The changes since the previous step, in the order of the components. */
    method Changes(states: Health) returns (changes: seq<StateChange>)
      requires states.Keys == D.COMPONENTS
      ensures changes == V.Diff(V.ORDER, previousStates, states)
    {
      hide V.ORDER, D.COMPONENTS;
      changes := [];
      for k := 0 to |V.ORDER|
        invariant changes == V.Diff(V.ORDER[..k], previousStates, states)
      {
        assert V.ORDER[..k + 1][..k] == V.ORDER[..k];
        var before, state := Observed(previousStates, V.ORDER[k]), Observed(states, V.ORDER[k]);
        if before != state {
          changes := changes + [StateChange(V.ORDER[k], state, None)];
        }
      }
      assert V.ORDER[..|V.ORDER|] == V.ORDER;
    }

    /** A recovered label that was already reported once is dropped. */
    method DropReported()
      modifies this`recoveredMarks
      ensures recoveredMarks == set c | c in old(recoveredMarks) && Observed(previousStates, c) != Recovered
    {
      var todo := recoveredMarks;
      while todo != {}
        invariant todo <= old(recoveredMarks)
        invariant recoveredMarks == set c | c in old(recoveredMarks) && (c in todo || Observed(previousStates, c) != Recovered)
        decreases todo
      {
        var c :| c in todo;
        todo := todo - {c};
        if Observed(previousStates, c) == Recovered {
          recoveredMarks := recoveredMarks - {c};
        }
      }
    }

    method Move(n: V.Noise)
      modifies this`z, this`battery
      ensures Model() == V.Move(old(Model()), n)
    {
      if !finished || phase == Aborted {
        z, battery := n.z, n.battery;
      }
    }

    /** The clock and the transients. */
    method Wake(n: V.Noise)
      requires Valid()
      modifies this`t, this`effects, this`recoveredMarks
      ensures Valid() && Model() == V.Wake(old(Model()), n)
    {
      hide V.AdvanceTransients, Known;
      t := n.clock;
      AdvanceTransients(n);
    }

    /** Report the changes and remember the states. */
    method Settle(states: Health) returns (changes: seq<StateChange>)
      requires states.Keys == D.COMPONENTS
      modifies this`recoveredMarks, this`previousStates
      ensures recoveredMarks <= old(recoveredMarks) && Model() == V.Settle(old(Model()), states)
      ensures changes == V.Diff(V.ORDER, old(previousStates), states)
    {
      hide Known, V.Diff, V.ORDER, D.COMPONENTS;
      changes := Changes(states);
      DropReported();
      previousStates := states;
    }

    /** Everything a step does before it reports. */
    method Act(n: V.Noise) returns (derived: D.Derived)
      requires Valid()
      modifies this
      ensures var awake := V.Wake(old(Model()), n);
              var (decided, responses) := V.DecideMode(plan, V.AfterDerivation(awake, n), D.Derivation(V.InputsOf(awake, n)));
              var (flown, events) := V.AdvanceMission(plan, V.Move(decided, n), n);
              derived == D.Derivation(V.InputsOf(awake, n))
              && Model() == flown && pendingResponses == responses && pendingMissionEvents == events
      ensures Known(effects) && recoveredMarks <= D.COMPONENTS && previousStates == old(previousStates)
    {
      hide V.Wake, V.AfterDerivation, V.DecideMode, V.Move, V.AdvanceMission, D.Derivation, V.InputsOf, Known, D.COMPONENTS;
      Wake(n);
      derived := Derive(n);
      DecideMode(derived);
      Move(n);
      AdvanceMission(n);
    }

    method Step(n: V.Noise) returns (o: Observation)
      requires Valid()
      modifies this
      ensures Valid() && (Model(), o) == V.Step(plan, old(Model()), n)
    {
      hide V.Wake, V.AfterDerivation, V.DecideMode, V.Move, V.AdvanceMission, V.Settle, V.Diff, V.ORDER, V.ProgressOf, D.StateOf, Known, V.InputsOf;
      var derived := Act(n);
      var progress := V.ProgressOf(plan, V.Vehicle(t, armed, finished, mode, phase, waypointIndex, effects, previousStates,
                                                   recoveredMarks, unaidedSince, holdSince, landReason, autonomy,
                                                   brownoutUntil, z, battery), n);
      var changes := Settle(derived.states);
      var sample := Sample(t, derived.states, mode, phase, armed, !derived.controlLost, progress);
      o := Observation(sample, changes, pendingResponses, pendingMissionEvents, finished);
      pendingResponses, pendingMissionEvents := [], [];
    }
  }
}
