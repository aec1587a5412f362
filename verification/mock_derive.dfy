/** The mock vehicle's component states: what each active effect does to its target, how impairments
    spread along dependencies, and what the flight core can still do. */
module MockDerive {
  import opened Options
  import opened States
  import opened RunLog
  import Topology

  // ---- The fault catalogue

  /** Which effects may be injected into which component. */
  function AllowedEffects(c: Id): set<Effect> {
    match c
    case ExternalGcs => {Unavailability, TemporaryDisconnect, Latency}
    case CommunicationsC2 => {Unavailability, Intermittent, Degradation, Latency, PacketLoss, TemporaryDisconnect}
    case CommunicationsTelemetry => {Unavailability, Intermittent, Degradation, Latency, PacketLoss, TemporaryDisconnect, Restart}
    case MissionCompute => {Restart, Crash, ResourcePressure, Degradation, Unavailability}
    case MissionPlanner => {Restart, Crash, Stuck, Degradation}
    case MissionServices => {Unavailability, Degradation, Latency, Restart}
    case NetworkCompanionLink => {Latency, PacketLoss, TemporaryDisconnect, Unavailability, Degradation}
    case SecurityGateway => {Unavailability, Degradation, Restart, Latency}
    case NavigationGnss => {Unavailability, Intermittent, Degradation, Erroneous, Stuck}
    case NavigationEstimator => {Degradation, Erroneous}
    case SensorsBarometer => {Unavailability, Intermittent, Degradation, Erroneous, Stuck}
    case SensorsMagnetometer => {Unavailability, Intermittent, Degradation, Erroneous, Stuck}
    case SensorsImu => {Degradation, Erroneous, Intermittent}
    case FlightControlCore => {Degradation, Restart, ResourcePressure}
    case ActuationMotors => {Degradation, Intermittent}
    case PowerBattery => {Degradation, Erroneous, Intermittent}
    case PowerBus => {Degradation, Intermittent}
    case Other(_) => {}
  }

  const COMPONENTS: set<Id> :=
    { ExternalGcs, CommunicationsC2, CommunicationsTelemetry, MissionCompute, MissionPlanner, MissionServices,
      NetworkCompanionLink, SecurityGateway, NavigationGnss, NavigationEstimator, SensorsBarometer, SensorsMagnetometer,
      SensorsImu, FlightControlCore, ActuationMotors, PowerBattery, PowerBus }

  function HealthyState(c: Id): ComponentState {
    match c
    case MissionCompute => Operational
    case MissionPlanner => Operational
    case SecurityGateway => Operational
    case FlightControlCore => Operational
    case ActuationMotors => Operational
    case _ => Nominal
  }

  lemma TableRows(k: nat)
    requires k < 17
    ensures |Topology.DEFAULT_TOPOLOGY.components| == 17
    ensures var row := Topology.DEFAULT_TOPOLOGY.components[k];
            row.id in COMPONENTS && row.healthyState == HealthyState(row.id)
  {
  }

  /** The row of a component in the topology's table. */
  function RowOf(c: Id): nat {
    match c
    case ExternalGcs => 0
    case CommunicationsC2 => 1
    case CommunicationsTelemetry => 2
    case MissionCompute => 3
    case MissionPlanner => 4
    case MissionServices => 5
    case NetworkCompanionLink => 6
    case SecurityGateway => 7
    case NavigationGnss => 8
    case NavigationEstimator => 9
    case SensorsBarometer => 10
    case SensorsMagnetometer => 11
    case SensorsImu => 12
    case FlightControlCore => 13
    case ActuationMotors => 14
    case PowerBattery => 15
    case PowerBus => 16
    case Other(_) => 17
  }

  lemma HasRow(c: Id)
    requires c in COMPONENTS
    ensures RowOf(c) < 17 == |Topology.DEFAULT_TOPOLOGY.components| && Topology.DEFAULT_TOPOLOGY.components[RowOf(c)].id == c
  {
  }

  /** Every component of the catalogue is in the topology with that healthy state, and nothing else
      may be injected. */
  lemma CatalogueMatchesTopology(c: Id, topology: Topology.SystemTopology)
    requires topology == Topology.DEFAULT_TOPOLOGY
    ensures c in COMPONENTS <==> topology.HasComponent(c)
    ensures topology.HasComponent(c) ==> topology.ComponentOf(c).healthyState == HealthyState(c)
    ensures c !in COMPONENTS ==> AllowedEffects(c) == {}
  {
    if c in COMPONENTS {
      HasRow(c);
    }
    forall k | 0 <= k < |topology.components|
      ensures topology.components[k].id in COMPONENTS && topology.components[k].healthyState == HealthyState(topology.components[k].id)
    {
      TableRows(0);
      TableRows(k);
    }
    hide Topology.FirstWithId, HealthyState, Topology.DEFAULT_TOPOLOGY;
  }

  predicate IsSensor(c: Id) { c == NavigationGnss || c == SensorsBarometer || c == SensorsMagnetometer }

  predicate IsRadio(c: Id) { c == CommunicationsC2 || c == CommunicationsTelemetry }

  /** The same table by effect: where each effect may be injected. */
  lemma AllowedByEffect(effect: Effect, c: Id)
    ensures effect in AllowedEffects(c) <==>
            match effect
            case Unavailability =>
              || IsSensor(c) || IsRadio(c) || c == ExternalGcs || c == MissionCompute || c == MissionServices
              || c == NetworkCompanionLink || c == SecurityGateway
            case Intermittent =>
              IsSensor(c) || IsRadio(c) || c == SensorsImu || c == ActuationMotors || c == PowerBattery || c == PowerBus
            case Degradation => c != ExternalGcs && !c.Other?
            case Erroneous => IsSensor(c) || c == NavigationEstimator || c == SensorsImu || c == PowerBattery
            case Stuck => IsSensor(c) || c == MissionPlanner
            case Restart =>
              || c == CommunicationsTelemetry || c == MissionCompute || c == MissionPlanner || c == MissionServices
              || c == SecurityGateway || c == FlightControlCore
            case Crash => c == MissionCompute || c == MissionPlanner
            case Latency => IsRadio(c) || c == ExternalGcs || c == MissionServices || c == NetworkCompanionLink || c == SecurityGateway
            case PacketLoss => IsRadio(c) || c == NetworkCompanionLink
            case ResourcePressure => c == MissionCompute || c == FlightControlCore
            case TemporaryDisconnect => IsRadio(c) || c == ExternalGcs || c == NetworkCompanionLink
  {
  }

  // ---- Effects

  datatype Stage = Active | Crashed | Restarting

  datatype ActiveEffect = ActiveEffect(
    eventId: EventId,
    subsystem: Id,
    effect: Effect,
    startedAt: real,
    parameters: map<string, real>,
    stage: Stage,
    stageUntil: Option<real>)

  function Param(parameters: map<string, real>, name: string, default: real): real {
    if name in parameters then parameters[name] else default
  }

  /** The share of the current period that has passed lies below the duty cycle. */
  predicate InDuty(e: ActiveEffect, t: real) {
    var period := Param(e.parameters, "period", 2.0);
    period > 0.0
    && var cycles := (t - e.startedAt) / period;
       cycles - cycles.Floor as real < Param(e.parameters, "duty_cycle", 0.4)
  }

  /** The state an effect puts its target into. */
  function EffectState(e: ActiveEffect, t: real): ComponentState {
    match e.effect
    case Unavailability => Unavailable
    case TemporaryDisconnect => Unavailable
    case Intermittent => if InDuty(e, t) then Degraded else Unavailable
    case Restart => Recovering
    case Crash => if e.stage == Crashed then Failed else Recovering
    case _ => Degraded
  }

  function Severity(s: ComponentState): nat {
    match s
    case Degraded => 1
    case Unavailable => 2
    case Recovering => 2
    case Failed => 3
    case _ => 0
  }

  /** A state only gives way to one at least as severe. */
  function Raise(current: ComponentState, state: ComponentState): ComponentState {
    if Severity(state) >= Severity(current) then state else current
  }

  // ---- The derivation, component by component

  /** Everything one derivation depends on. `draw` is the random length of a brownout. */
  datatype Inputs = Inputs(effects: seq<ActiveEffect>, marks: set<Id>, t: real, brownoutUntil: Option<real>, draw: real)

  function BaseState(i: Inputs, c: Id): ComponentState {
    if c in i.marks then Recovered else HealthyState(c)
  }

  /** The direct effects on a component, in the order they were injected. */
  function DirectOf(effects: seq<ActiveEffect>, t: real, base: ComponentState, c: Id): ComponentState {
    if effects == [] then base
    else
      var before, last := DirectOf(effects[..|effects| - 1], t, base, c), effects[|effects| - 1];
      if last.subsystem == c then Raise(before, EffectState(last, t)) else before
  }

  function Direct(i: Inputs, c: Id): ComponentState {
    DirectOf(i.effects, i.t, BaseState(i, c), c)
  }

  /** Whether the receiver still aids the estimator: rejected outputs take it away, a merely degraded
      receiver keeps it, and the later effect decides; a receiver that is down never aids. */
  function Usable(effects: seq<ActiveEffect>, t: real, start: bool): bool {
    if effects == [] then start
    else
      var before, last := Usable(effects[..|effects| - 1], t, start), effects[|effects| - 1];
      if last.subsystem != NavigationGnss then before
      else if (last.effect == Erroneous || last.effect == Stuck) && t - last.startedAt > 1.0 then false
      else if last.effect == Degradation then true
      else before
  }

  function GnssAiding(i: Inputs): bool {
    var gnss := Direct(i, NavigationGnss);
    if gnss.IsDown() then false else Usable(i.effects, i.t, gnss.IsHealthy())
  }

  /** The lowest remaining level among the degradations of a component. */
  function Level(effects: seq<ActiveEffect>, c: Id, default: real): real {
    if effects == [] then 1.0
    else
      var before, last := Level(effects[..|effects| - 1], c, default), effects[|effects| - 1];
      if last.subsystem == c && last.effect == Degradation && Param(last.parameters, "level", default) < before
      then Param(last.parameters, "level", default) else before
  }

  /** A weak or missing power bus browns the companion computer out. */
  function TriggersBrownout(i: Inputs): bool {
    var bus := Direct(i, PowerBus);
    (bus == Degraded && Level(i.effects, PowerBus, 0.6) < 0.5) || bus == Unavailable
  }

  function BrownoutEnd(i: Inputs): Option<real> {
    if i.brownoutUntil.None? && TriggersBrownout(i) then Some(i.t + i.draw) else i.brownoutUntil
  }

  function InBrownout(i: Inputs): bool {
    BrownoutEnd(i).Some? && i.t < BrownoutEnd(i).value
  }

  function ComputeState(i: Inputs): ComponentState {
    if InBrownout(i) then Raise(Direct(i, MissionCompute), Recovering) else Direct(i, MissionCompute)
  }

  /** The derived state of a component. */
  function StateOf(i: Inputs, c: Id): ComponentState {
    var direct := Direct(i, c);
    match c
    case NavigationEstimator =>
      if !GnssAiding(i) || Direct(i, NavigationGnss) == Degraded
         || !Direct(i, SensorsBarometer).IsHealthy() || !Direct(i, SensorsMagnetometer).IsHealthy()
      then Raise(direct, Degraded) else direct
    case FlightControlCore => if !Direct(i, SensorsImu).IsHealthy() then Raise(direct, Degraded) else direct
    case MissionCompute => ComputeState(i)
    case MissionPlanner =>
      if ComputeState(i).IsDown() then Raise(direct, Unavailable)
      else if ComputeState(i) == Degraded then Raise(direct, Degraded) else direct
    case MissionServices => if ComputeState(i).IsDown() then Raise(direct, Unavailable) else direct
    case CommunicationsC2 => if !Direct(i, ExternalGcs).IsHealthy() then Raise(direct, Degraded) else direct
    case _ => direct
  }

  datatype Derived = Derived(
    states: Health,
    commandsAvailable: bool,
    gnssAiding: bool,
    controlLost: bool,
    c2Link: bool,
    telemetryLink: bool,
    batteryFactor: real)

  function BatteryFactor(i: Inputs): real {
    if Direct(i, PowerBattery) == Degraded then
      var level := Level(i.effects, PowerBattery, 0.7);
      if level > 0.3 then level else 0.3
    else 1.0
  }

  /** Commands reach the flight core through planner, companion link and gateway; any of them down
      closes the path. */
  function CommandsAvailable(i: Inputs): bool {
    !(StateOf(i, MissionPlanner).IsDown() || StateOf(i, NetworkCompanionLink).IsDown() || StateOf(i, SecurityGateway).IsDown())
  }

  function ControlLost(i: Inputs): bool {
    StateOf(i, FlightControlCore) == Recovering || StateOf(i, FlightControlCore) == Failed || StateOf(i, ActuationMotors).IsDown()
  }

  function C2Link(i: Inputs): bool {
    !StateOf(i, CommunicationsC2).IsDown() && StateOf(i, ExternalGcs).IsHealthy()
  }

  function TelemetryLink(i: Inputs): bool {
    !StateOf(i, CommunicationsTelemetry).IsDown()
  }

  function Derivation(i: Inputs): Derived {
    Derived(map c | c in COMPONENTS :: StateOf(i, c),
            CommandsAvailable(i), GnssAiding(i), ControlLost(i), C2Link(i), TelemetryLink(i), BatteryFactor(i))
  }

  // ---- Order does not matter, and more effects never help

  ghost predicate Allowed(effects: seq<ActiveEffect>) {
    forall k :: 0 <= k < |effects| ==> effects[k].effect in AllowedEffects(effects[k].subsystem)
  }

  /** The effects that take their target away: outages, the off phase of an intermittent one, and processes that are down or
      starting again. */
  predicate TakesDown(e: ActiveEffect, t: real) {
    e.effect in {Unavailability, TemporaryDisconnect, Restart, Crash} || (e.effect == Intermittent && !InDuty(e, t))
  }

  /** How low an effect puts its target: every effect degrades it at least, some take it away, a crash whose watchdog has not
      yet expired makes it fail. */
  predicate PutsAt(e: ActiveEffect, t: real, r: nat) {
    r <= 1 || (r == 2 && TakesDown(e, t)) || (r == 3 && e.effect == Crash && e.stage == Crashed)
  }

  /** Some effect puts the component at least this low. */
  ghost predicate Hit(effects: seq<ActiveEffect>, t: real, c: Id, r: nat) {
    exists k :: 0 <= k < |effects| && effects[k].subsystem == c && PutsAt(effects[k], t, r)
  }

  /** The state an effect leaves on its target, kind by kind. */
  lemma EffectByKind(e: ActiveEffect, t: real)
    ensures e.effect == Unavailability || e.effect == TemporaryDisconnect ==> EffectState(e, t) == Unavailable
    ensures e.effect == Intermittent ==> EffectState(e, t) == if InDuty(e, t) then Degraded else Unavailable
    ensures e.effect == Restart ==> EffectState(e, t) == Recovering
    ensures e.effect == Crash ==> EffectState(e, t) == if e.stage == Crashed then Failed else Recovering
    ensures e.effect in {Degradation, Erroneous, Stuck, Latency, PacketLoss, ResourcePressure} ==> EffectState(e, t) == Degraded
    ensures forall r: nat :: r >= 1 ==> (Severity(EffectState(e, t)) >= r <==> PutsAt(e, t, r))
  {
    hide InDuty;
  }

  /** The severity from direct effects is the worst of them, whatever their order. */
  lemma {:induction false} DirectSeverity(effects: seq<ActiveEffect>, t: real, base: ComponentState, c: Id, r: nat)
    requires base.IsHealthy() && r >= 1
    ensures Severity(DirectOf(effects, t, base, c)) >= r <==> Hit(effects, t, c, r)
    decreases |effects|
  {
    hide EffectState, PutsAt;
    if effects != [] {
      var shorter, last := effects[..|effects| - 1], effects[|effects| - 1];
      DirectSeverity(shorter, t, base, c, r);
      EffectByKind(last, t);
      if Hit(shorter, t, c, r) {
        var k :| 0 <= k < |shorter| && shorter[k].subsystem == c && PutsAt(shorter[k], t, r);
        assert effects[k] == shorter[k];
      }
      if Hit(effects, t, c, r) && !(last.subsystem == c && PutsAt(last, t, r)) {
        var k :| 0 <= k < |effects| && effects[k].subsystem == c && PutsAt(effects[k], t, r);
        assert shorter[k] == effects[k];
      }
    }
  }

  /** Without the receiver as a target, aiding stays as it started. */
  lemma {:induction false} UntouchedGnss(effects: seq<ActiveEffect>, t: real, start: bool)
    requires forall k :: 0 <= k < |effects| ==> effects[k].subsystem != NavigationGnss
    ensures Usable(effects, t, start) == start
    decreases |effects|
  {
    if effects != [] {
      UntouchedGnss(effects[..|effects| - 1], t, start);
    }
  }

  /** Some degradation of the component leaves less than `below`. */
  ghost predicate WeakerThan(effects: seq<ActiveEffect>, c: Id, default: real, below: real) {
    exists k :: 0 <= k < |effects| && effects[k].subsystem == c && effects[k].effect == Degradation
                && Param(effects[k].parameters, "level", default) < below
  }

  lemma {:induction false} LevelIsLowest(effects: seq<ActiveEffect>, c: Id, default: real, below: real)
    requires below <= 1.0
    ensures Level(effects, c, default) < below <==> WeakerThan(effects, c, default, below)
    decreases |effects|
  {
    if effects != [] {
      var shorter, last := effects[..|effects| - 1], effects[|effects| - 1];
      LevelIsLowest(shorter, c, default, below);
      if WeakerThan(shorter, c, default, below) {
        var k :| 0 <= k < |shorter| && shorter[k].subsystem == c && shorter[k].effect == Degradation
                 && Param(shorter[k].parameters, "level", default) < below;
        assert effects[k] == shorter[k];
      }
      if WeakerThan(effects, c, default, below) && !(last.subsystem == c && last.effect == Degradation && Param(last.parameters, "level", default) < below) {
        var k :| 0 <= k < |effects| && effects[k].subsystem == c && effects[k].effect == Degradation
                 && Param(effects[k].parameters, "level", default) < below;
        assert shorter[k] == effects[k];
      }
    }
  }

  /** The severity reference: which components are at least `r` low, by the effects present and the
      brownout, with no mention of order. */
  ghost predicate Severe(i: Inputs, brown: bool, c: Id, r: nat) {
    var hit := (x: Id) => Hit(i.effects, i.t, x, r);
    match c
    case NavigationEstimator =>
      hit(c) || (r == 1 && (hit(NavigationGnss) || hit(SensorsBarometer) || hit(SensorsMagnetometer)))
    case FlightControlCore => hit(c) || (r == 1 && hit(SensorsImu))
    case MissionCompute => hit(c) || (r <= 2 && brown)
    case MissionPlanner => hit(c) || (r <= 2 && (hit(MissionCompute) || brown))
    case MissionServices => hit(c) || (r <= 2 && (Hit(i.effects, i.t, MissionCompute, 2) || brown))
    case CommunicationsC2 => hit(c) || (r == 1 && hit(ExternalGcs))
    case _ => hit(c)
  }

  /** A brownout is running or starts now. */
  ghost predicate Brown(i: Inputs) {
    if i.brownoutUntil.Some? then i.t < i.brownoutUntil.value
    else i.draw > 0.0 && (Hit(i.effects, i.t, PowerBus, 2) || WeakerThan(i.effects, PowerBus, 0.6, 0.5))
  }

  /** Aiding or degradation: the estimator is touched exactly when the receiver is not healthy. */
  lemma GnssTouchesEstimator(i: Inputs)
    ensures (!GnssAiding(i) || Direct(i, NavigationGnss) == Degraded) <==> Hit(i.effects, i.t, NavigationGnss, 1)
  {
    DirectSeverity(i.effects, i.t, BaseState(i, NavigationGnss), NavigationGnss, 1);
    if !Hit(i.effects, i.t, NavigationGnss, 1) {
      forall k | 0 <= k < |i.effects|
        ensures i.effects[k].subsystem != NavigationGnss
      {
        assert PutsAt(i.effects[k], i.t, 1);
      }
      UntouchedGnss(i.effects, i.t, true);
    }
    hide Hit, Usable, DirectOf;
    KnownStates(i, NavigationGnss);
  }

  /** No effect yields an unknown state. */
  lemma {:induction false} NeverUnknown(effects: seq<ActiveEffect>, t: real, base: ComponentState, c: Id)
    requires !base.Unknown?
    ensures !DirectOf(effects, t, base, c).Unknown?
    decreases |effects|
  {
    if effects != [] {
      NeverUnknown(effects[..|effects| - 1], t, base, c);
    }
  }

  lemma KnownStates(i: Inputs, c: Id)
    ensures !Direct(i, c).Unknown? && BaseState(i, c).IsHealthy()
  {
    NeverUnknown(i.effects, i.t, BaseState(i, c), c);
  }

  /** What the catalogue rules out: only power levels or outages for the bus, only restarts bring the
      flight core down. */
  lemma {:induction false} AllowedStates(effects: seq<ActiveEffect>, t: real, base: ComponentState)
    requires Allowed(effects) && base.IsHealthy()
    ensures DirectOf(effects, t, base, PowerBus) != Recovering && DirectOf(effects, t, base, PowerBus) != Failed
    ensures DirectOf(effects, t, base, FlightControlCore) != Unavailable && DirectOf(effects, t, base, FlightControlCore) != Failed
    decreases |effects|
  {
    if effects != [] {
      var last := effects[|effects| - 1];
      AllowedStates(effects[..|effects| - 1], t, base);
      assert last.effect in AllowedEffects(last.subsystem);
    }
  }

  lemma BrownoutReference(i: Inputs)
    requires Allowed(i.effects)
    ensures InBrownout(i) <==> Brown(i)
  {
    KnownStates(i, PowerBus);
    AllowedStates(i.effects, i.t, BaseState(i, PowerBus));
    DirectSeverity(i.effects, i.t, BaseState(i, PowerBus), PowerBus, 1);
    DirectSeverity(i.effects, i.t, BaseState(i, PowerBus), PowerBus, 2);
    LevelIsLowest(i.effects, PowerBus, 0.6, 0.5);
    if WeakerThan(i.effects, PowerBus, 0.6, 0.5) {
      var k :| 0 <= k < |i.effects| && i.effects[k].subsystem == PowerBus && i.effects[k].effect == Degradation
               && Param(i.effects[k].parameters, "level", 0.6) < 0.5;
      assert PutsAt(i.effects[k], i.t, 1);
    }
  }

  lemma DirectReference(i: Inputs, x: Id, r: nat)
    requires r >= 1
    ensures !Direct(i, x).Unknown?
    ensures Severity(Direct(i, x)) >= r <==> Hit(i.effects, i.t, x, r)
    ensures Direct(i, x).IsHealthy() <==> !Hit(i.effects, i.t, x, 1)
    ensures Direct(i, x).IsDown() <==> Hit(i.effects, i.t, x, 2)
  {
    KnownStates(i, x);
    DirectSeverity(i.effects, i.t, BaseState(i, x), x, r);
    DirectSeverity(i.effects, i.t, BaseState(i, x), x, 1);
    DirectSeverity(i.effects, i.t, BaseState(i, x), x, 2);
  }

  /** The compute chain: the host, and the processes it carries. */
  lemma ComputeReference(i: Inputs, r: nat)
    requires Allowed(i.effects) && r >= 1
    ensures !ComputeState(i).Unknown?
    ensures Severity(ComputeState(i)) >= r <==> Hit(i.effects, i.t, MissionCompute, r) || (r <= 2 && Brown(i))
  {
    BrownoutReference(i);
    DirectReference(i, MissionCompute, r);
    hide Hit, Direct, InBrownout, Brown, Allowed;
  }

  /** The derived severity of every component is the reference severity. */
  lemma SeverityReference(i: Inputs, c: Id, r: nat)
    requires Allowed(i.effects) && r >= 1
    ensures Severity(StateOf(i, c)) >= r <==> Severe(i, Brown(i), c, r)
  {
    DirectReference(i, c, r);
    hide Hit, Direct, GnssAiding, ComputeState, Brown;
    match c {
      case NavigationEstimator =>
        GnssTouchesEstimator(i);
        DirectReference(i, SensorsBarometer, 1);
        DirectReference(i, SensorsMagnetometer, 1);
      case FlightControlCore =>
        DirectReference(i, SensorsImu, 1);
      case MissionCompute =>
        ComputeReference(i, r);
      case MissionPlanner =>
        ComputeReference(i, 1);
        ComputeReference(i, 2);
      case MissionServices =>
        ComputeReference(i, 2);
      case CommunicationsC2 =>
        DirectReference(i, ExternalGcs, 1);
      case _ =>
    }
  }

  lemma StateReference(i: Inputs, c: Id)
    requires Allowed(i.effects)
    ensures StateOf(i, c).IsDown() <==> Severe(i, Brown(i), c, 2)
    ensures StateOf(i, c).IsHealthy() <==> !Severe(i, Brown(i), c, 1)
  {
    SeverityReference(i, c, 1);
    SeverityReference(i, c, 2);
    DerivedIsKnown(i, c);
    hide StateOf, Severe;
  }

  /** The flight core is only ever brought down by a restart, so down means control is lost. */
  lemma CoreDownIsRecovering(i: Inputs)
    requires Allowed(i.effects)
    ensures StateOf(i, FlightControlCore).IsDown() <==> StateOf(i, FlightControlCore) == Recovering || StateOf(i, FlightControlCore) == Failed
  {
    AllowedStates(i.effects, i.t, BaseState(i, FlightControlCore));
    KnownStates(i, FlightControlCore);
    hide DirectOf, Allowed;
  }

  /** The flags, by severity. */
  lemma FlagsReference(i: Inputs)
    requires Allowed(i.effects)
    ensures var low := (c: Id) => Severe(i, Brown(i), c, 2);
            && (CommandsAvailable(i) <==> !low(MissionPlanner) && !low(NetworkCompanionLink) && !low(SecurityGateway))
            && (C2Link(i) <==> !low(CommunicationsC2) && !Severe(i, Brown(i), ExternalGcs, 1))
            && (TelemetryLink(i) <==> !low(CommunicationsTelemetry))
            && (ControlLost(i) <==> low(FlightControlCore) || low(ActuationMotors))
  {
    CoreDownIsRecovering(i);
    hide Severe, StateOf, Allowed;
    StateReference(i, MissionPlanner);
    StateReference(i, NetworkCompanionLink);
    StateReference(i, SecurityGateway);
    StateReference(i, CommunicationsC2);
    StateReference(i, ExternalGcs);
    StateReference(i, CommunicationsTelemetry);
    StateReference(i, FlightControlCore);
    StateReference(i, ActuationMotors);
  }

  lemma DerivedIsKnown(i: Inputs, c: Id)
    ensures !StateOf(i, c).Unknown?
  {
    KnownStates(i, c);
  }

  // ---- The two consequences

  ghost predicate Includes(effects: seq<ActiveEffect>, more: seq<ActiveEffect>) {
    forall e :: e in effects ==> e in more
  }

  lemma HitGrows(effects: seq<ActiveEffect>, more: seq<ActiveEffect>, t: real, c: Id, r: nat)
    requires Includes(effects, more) && Hit(effects, t, c, r)
    ensures Hit(more, t, c, r)
  {
    var k :| 0 <= k < |effects| && effects[k].subsystem == c && PutsAt(effects[k], t, r);
    assert effects[k] in more;
    var j :| 0 <= j < |more| && more[j] == effects[k];
  }

  lemma BrownGrows(i: Inputs, more: seq<ActiveEffect>)
    requires Includes(i.effects, more) && Brown(i)
    ensures Brown(i.(effects := more))
  {
    if i.brownoutUntil.None? {
      if Hit(i.effects, i.t, PowerBus, 2) {
        HitGrows(i.effects, more, i.t, PowerBus, 2);
      } else {
        var k :| 0 <= k < |i.effects| && i.effects[k].subsystem == PowerBus && i.effects[k].effect == Degradation
                 && Param(i.effects[k].parameters, "level", 0.6) < 0.5;
        assert i.effects[k] in more;
        var j :| 0 <= j < |more| && more[j] == i.effects[k];
      }
    }
  }

  lemma SevereGrows(i: Inputs, more: seq<ActiveEffect>, c: Id, r: nat)
    requires Includes(i.effects, more) && r >= 1
    requires Severe(i, Brown(i), c, r)
    ensures Severe(i.(effects := more), Brown(i.(effects := more)), c, r)
  {
    var j := i.(effects := more);
    if Brown(i) {
      BrownGrows(i, more);
    }
    forall x
      ensures Hit(i.effects, i.t, x, r) ==> Hit(more, i.t, x, r)
      ensures Hit(i.effects, i.t, x, 2) ==> Hit(more, i.t, x, 2)
    {
      if Hit(i.effects, i.t, x, r) {
        HitGrows(i.effects, more, i.t, x, r);
      }
      if Hit(i.effects, i.t, x, 2) {
        HitGrows(i.effects, more, i.t, x, 2);
      }
    }
    hide Hit, Brown;
  }

  /** Main result, first half. At a fixed time and brownout state, adding catalogue-allowed effects
      anywhere in the order never lowers the severity of a component, never restores the command path,
      the C2 link or the telemetry link, and never gives control back. */
  lemma MoreEffectsNeverHelp(i: Inputs, more: seq<ActiveEffect>, c: Id)
    requires Allowed(i.effects) && Allowed(more) && Includes(i.effects, more)
    ensures var before, after := Derivation(i), Derivation(i.(effects := more));
            && Severity(StateOf(i, c)) <= Severity(StateOf(i.(effects := more), c))
            && (after.commandsAvailable ==> before.commandsAvailable)
            && (after.c2Link ==> before.c2Link)
            && (after.telemetryLink ==> before.telemetryLink)
            && (before.controlLost ==> after.controlLost)
  {
    var j := i.(effects := more);
    FlagsReference(i);
    FlagsReference(j);
    var r := Severity(StateOf(i, c));
    if r >= 1 {
      SeverityReference(i, c, r);
      SeverityReference(j, c, r);
      SevereGrows(i, more, c, r);
    }
    hide StateOf, GnssAiding, BatteryFactor;
    forall x
      ensures Severe(i, Brown(i), x, 2) ==> Severe(j, Brown(j), x, 2)
      ensures Severe(i, Brown(i), x, 1) ==> Severe(j, Brown(j), x, 1)
    {
      if Severe(i, Brown(i), x, 2) {
        SevereGrows(i, more, x, 2);
      }
      if Severe(i, Brown(i), x, 1) {
        SevereGrows(i, more, x, 1);
      }
    }
  }

  /** Second half. The severities and the four flags do not depend on the order of the effects. */
  lemma OrderDoesNotMatter(i: Inputs, other: seq<ActiveEffect>, c: Id)
    requires Allowed(i.effects) && Allowed(other) && Includes(i.effects, other) && Includes(other, i.effects)
    ensures var a, b := Derivation(i), Derivation(i.(effects := other));
            && Severity(StateOf(i, c)) == Severity(StateOf(i.(effects := other), c))
            && a.commandsAvailable == b.commandsAvailable && a.c2Link == b.c2Link
            && a.telemetryLink == b.telemetryLink && a.controlLost == b.controlLost
  {
    MoreEffectsNeverHelp(i, other, c);
    MoreEffectsNeverHelp(i.(effects := other), i.effects, c);
    assert i.(effects := other).(effects := i.effects) == i;
  }
}
