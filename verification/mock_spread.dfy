/** How far faults spread in the mock vehicle: every impairment is an injected one or lies downstream
    of one, and what is never injected near the flight core never reaches it. */
module MockSpread {
  import opened Options
  import opened States
  import opened RunLog
  import opened MockDerive
  import opened MockVehicle
  import opened MockRuns
  import T = Topology

  // ---- Where an impairment comes from

  /** Injected and seen impaired. */
  ghost predicate Source(targets: set<Id>, impaired: set<Id>, x: Id) {
    x in targets && x in impaired
  }

  /** Why a component may be impaired: it was injected, or something upstream of it was. */
  ghost predicate Explained(targets: set<Id>, impaired: set<Id>, x: Id) {
    || x in targets
    || match x
       case NavigationEstimator =>
         Source(targets, impaired, NavigationGnss) || Source(targets, impaired, SensorsBarometer)
         || Source(targets, impaired, SensorsMagnetometer)
       case FlightControlCore => Source(targets, impaired, SensorsImu)
       case MissionCompute => Source(targets, impaired, PowerBus)
       case MissionPlanner => HostExplained(targets, impaired)
       case MissionServices => HostExplained(targets, impaired)
       case CommunicationsC2 => Source(targets, impaired, ExternalGcs)
       case _ => false
  }

  ghost predicate HostExplained(targets: set<Id>, impaired: set<Id>) {
    Source(targets, impaired, MissionCompute) || (Source(targets, impaired, PowerBus) && MissionCompute in impaired)
  }

  /** Every active effect is one the catalogue allows, on a component that was injected. */
  ghost predicate FromTargets(effects: seq<ActiveEffect>, targets: set<Id>) {
    forall k :: 0 <= k < |effects| ==>
      effects[k].effect in AllowedEffects(effects[k].subsystem) && effects[k].subsystem in targets
  }

  lemma FromTargetsAllowed(effects: seq<ActiveEffect>, targets: set<Id>)
    requires FromTargets(effects, targets)
    ensures Allowed(effects)
  {
  }

  ghost predicate BrownoutExplained(until: Option<real>, targets: set<Id>, impaired: set<Id>) {
    until.Some? ==> Source(targets, impaired, PowerBus)
  }

  /** What holds between any two operations. */
  ghost predicate SpreadHolds(c: Course) {
    && FromTargets(c.v.effects, c.targets)
    && BrownoutExplained(c.v.brownoutUntil, c.targets, c.impaired)
    && (forall x :: x in c.impaired ==> Explained(c.targets, c.impaired, x))
  }

  // ---- One derivation

  lemma HitIsSource(i: Inputs, targets: set<Id>, x: Id, r: nat)
    requires FromTargets(i.effects, targets) && r >= 1 && Hit(i.effects, i.t, x, r)
    ensures x in targets && x in COMPONENTS && Severe(i, Brown(i), x, 1)
  {
    var k :| 0 <= k < |i.effects| && i.effects[k].subsystem == x && PutsAt(i.effects[k], i.t, r);
    assert i.effects[k].effect in AllowedEffects(x);
    assert Hit(i.effects, i.t, x, 1);
  }

  lemma SevereIsImpaired(i: Inputs, x: Id)
    requires Allowed(i.effects) && x in COMPONENTS
    ensures x in Impaired(Derivation(i).states) <==> Severe(i, Brown(i), x, 1)
  {
    StateReference(i, x);
    hide StateOf, Severe, Allowed;
  }

  lemma HitIsImpaired(i: Inputs, targets: set<Id>, impaired: set<Id>, x: Id, r: nat)
    requires FromTargets(i.effects, targets) && r >= 1
    ensures Hit(i.effects, i.t, x, r) ==> Source(targets, impaired + Impaired(Derivation(i).states), x)
  {
    if Hit(i.effects, i.t, x, r) {
      HitIsSource(i, targets, x, r);
      FromTargetsAllowed(i.effects, targets);
      SevereIsImpaired(i, x);
    }
    hide Hit, Severe, Derivation, Allowed, FromTargets;
  }

  lemma BrownIsExplained(i: Inputs, targets: set<Id>, impaired: set<Id>)
    requires FromTargets(i.effects, targets) && BrownoutExplained(i.brownoutUntil, targets, impaired) && Brown(i)
    ensures Source(targets, impaired + Impaired(Derivation(i).states), PowerBus)
    ensures MissionCompute in Impaired(Derivation(i).states)
  {
    FromTargetsAllowed(i.effects, targets);
    SevereIsImpaired(i, MissionCompute);
    if i.brownoutUntil.None? {
      if Hit(i.effects, i.t, PowerBus, 2) {
        HitIsImpaired(i, targets, impaired, PowerBus, 2);
      } else {
        var k :| 0 <= k < |i.effects| && i.effects[k].subsystem == PowerBus && i.effects[k].effect == Degradation
                 && Param(i.effects[k].parameters, "level", 0.6) < 0.5;
        assert Hit(i.effects, i.t, PowerBus, 1);
        HitIsImpaired(i, targets, impaired, PowerBus, 1);
      }
    }
    hide Hit, Derivation, Allowed, WeakerThan;
  }

  /** Every component a derivation leaves impaired is explained. */
  lemma DerivationExplained(i: Inputs, targets: set<Id>, impaired: set<Id>, x: Id)
    requires FromTargets(i.effects, targets) && BrownoutExplained(i.brownoutUntil, targets, impaired)
    requires x in Impaired(Derivation(i).states)
    ensures Explained(targets, impaired + Impaired(Derivation(i).states), x)
  {
    FromTargetsAllowed(i.effects, targets);
    SevereIsImpaired(i, x);
    forall y
      ensures Hit(i.effects, i.t, y, 1) ==> Source(targets, impaired + Impaired(Derivation(i).states), y)
      ensures Hit(i.effects, i.t, y, 2) ==> Source(targets, impaired + Impaired(Derivation(i).states), y)
    {
      HitIsImpaired(i, targets, impaired, y, 1);
      HitIsImpaired(i, targets, impaired, y, 2);
    }
    if Brown(i) {
      BrownIsExplained(i, targets, impaired);
    }
    hide Hit, Derivation, Allowed, FromTargets, Brown;
  }

  lemma ExplainedGrows(targets: set<Id>, impaired: set<Id>, moreTargets: set<Id>, moreImpaired: set<Id>, x: Id)
    requires Explained(targets, impaired, x) && targets <= moreTargets && impaired <= moreImpaired
    ensures Explained(moreTargets, moreImpaired, x)
  {
  }

  // ---- Every operation

  lemma {:induction false} TransientsKeepTargets(effects: seq<ActiveEffect>, t: real, restart: EventId -> real, targets: set<Id>)
    requires FromTargets(effects, targets)
    ensures FromTargets(AdvanceTransients(effects, t, restart).0, targets)
    decreases |effects|
  {
    hide AllowedEffects;
    if effects != [] {
      TransientsKeepTargets(effects[..|effects| - 1], t, restart, targets);
    }
  }

  lemma PutKeepsTargets(effects: seq<ActiveEffect>, e: ActiveEffect, targets: set<Id>)
    requires FromTargets(effects, targets) && e.effect in AllowedEffects(e.subsystem)
    ensures FromTargets(PutEffect(effects, e), targets + {e.subsystem})
  {
    hide AllowedEffects, FindEffect;
  }

  lemma ClearKeepsTargets(effects: seq<ActiveEffect>, k: nat, targets: set<Id>)
    requires FromTargets(effects, targets) && k < |effects|
    ensures FromTargets(effects[..k] + effects[k + 1..], targets)
  {
    hide AllowedEffects;
  }

  /** What a step leaves of effects and brownout, and what it reports. */
  lemma StepParts(plan: Plan, v: Vehicle, n: Noise)
    ensures var awake := Wake(v, n);
            var (next, o) := Step(plan, v, n);
            next.effects == awake.effects && next.brownoutUntil == AfterDerivation(awake, n).brownoutUntil
            && o.sample.health == Derivation(InputsOf(awake, n)).states && next.states == o.sample.health
            && (o.sample.controlAuthority <==> !Derivation(InputsOf(awake, n)).controlLost)
            && o.changes == Diff(ORDER, v.states, o.sample.health)
  {
    hide DecideMode, AdvanceMission, Derivation, AdvanceTransients, ProgressOf, InBrownout, BrownoutEnd, Diff, ORDER;
    var awake := Wake(v, n);
    var d := Derivation(InputsOf(awake, n));
    var decided := DecideMode(plan, AfterDerivation(awake, n), d).0;
    var flown := AdvanceMission(plan, Move(decided, n), n).0;
    DecisionFrame(plan, AfterDerivation(awake, n), d);
    AdvanceFrame(plan, Move(decided, n), n);
  }

  lemma BrownoutStays(v: Vehicle, n: Noise, targets: set<Id>, impaired: set<Id>)
    requires FromTargets(v.effects, targets) && BrownoutExplained(v.brownoutUntil, targets, impaired)
    ensures BrownoutExplained(AfterDerivation(v, n).brownoutUntil, targets, impaired + Impaired(Derivation(InputsOf(v, n)).states))
  {
    var i := InputsOf(v, n);
    FromTargetsAllowed(v.effects, targets);
    BrownoutReference(i);
    if Brown(i) {
      BrownIsExplained(i, targets, impaired);
    }
    hide Brown, InBrownout, BrownoutEnd, Derivation;
  }

  lemma StepKeepsSpread(plan: Plan, c: Course, n: Noise)
    requires SpreadHolds(c)
    ensures SpreadHolds(Perform(plan, c, Tick(n)))
  {
    hide Step, Derivation, AfterDerivation, AllowedEffects, WaypointsIn;
    var awake := Wake(c.v, n);
    TransientsKeepTargets(c.v.effects, n.clock, n.restart, c.targets);
    StepParts(plan, c.v, n);
    BrownoutStays(awake, n, c.targets, c.impaired);
    var states := Derivation(InputsOf(awake, n)).states;
    hide FromTargets;
    forall x | x in c.impaired + Impaired(states)
      ensures Explained(c.targets, c.impaired + Impaired(states), x)
    {
      if x in Impaired(states) {
        DerivationExplained(InputsOf(awake, n), c.targets, c.impaired, x);
      } else {
        ExplainedGrows(c.targets, c.impaired, c.targets, c.impaired + Impaired(states), x);
      }
    }
  }

  lemma OperationKeepsSpread(plan: Plan, c: Course, op: Op)
    requires SpreadHolds(c) && Admissible(c, op)
    ensures SpreadHolds(Perform(plan, c, op))
  {
    hide Step, FromTargets, Explained, AllowedEffects, FindEffect, PutEffect;
    match op
    case Begin =>
    case Inject(request, draw) =>
      var e := EffectOf(request, c.v.t, draw);
      PutKeepsTargets(c.v.effects, e, c.targets);
      forall x | x in c.impaired
        ensures Explained(c.targets + {request.subsystem}, c.impaired, x)
      {
        ExplainedGrows(c.targets, c.impaired, c.targets + {request.subsystem}, c.impaired, x);
      }
    case Clear(id) =>
      var k := FindEffect(c.v.effects, id);
      if k < |c.v.effects| {
        ClearKeepsTargets(c.v.effects, k, c.targets);
      }
    case Tick(n) =>
      StepKeepsSpread(plan, c, n);
  }

  lemma {:induction false} RunsKeepSpread(plan: Plan, ops: seq<Op>)
    requires Legal(plan, ops)
    ensures SpreadHolds(Fly(plan, ops))
    decreases |ops|
  {
    if ops != [] {
      LegalPrefix(plan, ops);
      hide Legal, Admissible, Perform, SpreadHolds;
      RunsKeepSpread(plan, ops[..|ops| - 1]);
      OperationKeepsSpread(plan, Fly(plan, ops[..|ops| - 1]), ops[|ops| - 1]);
    }
  }

  // ---- Depth

  /** An explained impairment has a route of at most two dependencies from an injected component. */
  lemma ShortRoute(targets: set<Id>, impaired: set<Id>, x: Id) returns (path: seq<Id>)
    requires x in impaired && Explained(targets, impaired, x)
    ensures T.RouteFrom(T.DEFAULT_TOPOLOGY, targets, impaired, path, x) && |path| <= 3
  {
    T.DefaultEdges();
    hide T.SystemTopology.Edge, T.DEFAULT_TOPOLOGY;
    if x in targets {
      path := [x];
    } else if (x == MissionPlanner || x == MissionServices) && !Source(targets, impaired, MissionCompute) {
      path := [PowerBus, MissionCompute, x];
    } else {
      match x
      case NavigationEstimator =>
        path := [if Source(targets, impaired, NavigationGnss) then NavigationGnss
                 else if Source(targets, impaired, SensorsBarometer) then SensorsBarometer else SensorsMagnetometer, x];
      case FlightControlCore => path := [SensorsImu, x];
      case MissionCompute => path := [PowerBus, x];
      case MissionPlanner => path := [MissionCompute, x];
      case MissionServices => path := [MissionCompute, x];
      case CommunicationsC2 => path := [ExternalGcs, x];
      case _ =>
    }
  }

  /** Main result: over every run with catalogue-allowed injections, whatever was ever impaired is at
      propagation depth 0, 1 or 2 - never an independent fault, even while a brownout outlives the
      injection that caused it. */
  lemma DepthAtMostTwo(plan: Plan, ops: seq<Op>, depths: map<Id, int>)
    requires Legal(plan, ops)
    requires T.AreDepths(T.DEFAULT_TOPOLOGY, Fly(plan, ops).targets, Fly(plan, ops).impaired, depths)
    ensures forall id :: id in depths ==> 0 <= depths[id] <= 2
  {
    RunsKeepSpread(plan, ops);
    var c := Fly(plan, ops);
    hide T.DEFAULT_TOPOLOGY, Fly, Legal;
    forall id | id in depths
      ensures 0 <= depths[id] <= 2
    {
      var path := ShortRoute(c.targets, c.impaired, id);
    }
  }

  // ---- Containment

  /** The components of the flight control and actuation domains. */
  const CRITICAL: set<Id> := {SecurityGateway, SensorsImu, FlightControlCore, ActuationMotors}

  lemma CriticalRow(k: nat)
    requires k < 17
    ensures |T.DEFAULT_TOPOLOGY.components| == 17
    ensures var row := T.DEFAULT_TOPOLOGY.components[k]; row.id in CRITICAL <==> row.domain in T.CRITICAL_DOMAINS
  {
  }

  lemma CriticalMatchesTopology(id: Id, topology: T.SystemTopology)
    requires topology == T.DEFAULT_TOPOLOGY && topology.HasComponent(id)
    ensures id in CRITICAL <==> topology.ComponentOf(id).domain in T.CRITICAL_DOMAINS
  {
    forall k | 0 <= k < |topology.components|
      ensures topology.components[k].id in CRITICAL <==> topology.components[k].domain in T.CRITICAL_DOMAINS
    {
      CriticalRow(0);
      CriticalRow(k);
    }
    hide T.FirstWithId, T.DEFAULT_TOPOLOGY, CRITICAL;
  }

  /** Only a critical target can make a critical component impaired. */
  lemma CriticalNeedsCritical(targets: set<Id>, impaired: set<Id>, x: Id)
    requires targets !! CRITICAL && Explained(targets, impaired, x)
    ensures x !in CRITICAL
  {
  }

  lemma ControlKept(i: Inputs, targets: set<Id>)
    requires FromTargets(i.effects, targets) && targets !! CRITICAL
    ensures !Derivation(i).controlLost
  {
    FromTargetsAllowed(i.effects, targets);
    FlagsReference(i);
    hide ControlLost, CommandsAvailable, C2Link, TelemetryLink, StateOf;
    NotLow(i, targets);
    hide Severe, Brown, Allowed, FromTargets;
  }

  lemma NotLow(i: Inputs, targets: set<Id>)
    requires FromTargets(i.effects, targets) && targets !! CRITICAL
    ensures !Severe(i, Brown(i), FlightControlCore, 2) && !Severe(i, Brown(i), ActuationMotors, 2)
  {
    NotHit(i, targets, FlightControlCore);
    NotHit(i, targets, ActuationMotors);
    hide Hit, Brown, FromTargets;
  }

  lemma NotHit(i: Inputs, targets: set<Id>, x: Id)
    requires FromTargets(i.effects, targets) && x !in targets
    ensures !Hit(i.effects, i.t, x, 2)
  {
    if Hit(i.effects, i.t, x, 2) {
      HitIsSource(i, targets, x, 2);
    }
  }

  lemma {:induction false} TargetsGrow(plan: Plan, ops: seq<Op>, k: nat)
    requires k <= |ops|
    ensures Fly(plan, ops[..k]).targets <= Fly(plan, ops).targets
    decreases |ops|
  {
    if k == |ops| {
      assert ops[..k] == ops;
    } else {
      var shorter := ops[..|ops| - 1];
      assert shorter[..k] == ops[..k];
      TargetsGrow(plan, shorter, k);
      hide Step, EffectOf, PutEffect, FindEffect;
    }
  }

  /** Main result: a run that never targets the flight control or actuation domains leaves both
      healthy and in control at every step. */
  lemma {:induction false} CriticalStaysHealthy(plan: Plan, ops: seq<Op>)
    requires Legal(plan, ops) && Fly(plan, ops).targets !! CRITICAL
    ensures Fly(plan, ops).impaired !! CRITICAL
    ensures forall k :: 0 <= k < |Fly(plan, ops).seen| ==> Fly(plan, ops).seen[k].sample.controlAuthority
    decreases |ops|
  {
    RunsKeepSpread(plan, ops);
    var c := Fly(plan, ops);
    forall x | x in c.impaired
      ensures x !in CRITICAL
    {
      CriticalNeedsCritical(c.targets, c.impaired, x);
    }
    if ops != [] {
      LegalPrefix(plan, ops);
      var shorter, op := ops[..|ops| - 1], ops[|ops| - 1];
      TargetsGrow(plan, ops, |ops| - 1);
      CriticalStaysHealthy(plan, shorter);
      hide Step, Legal, Explained;
      if op.Tick? {
        RunsKeepSpread(plan, shorter);
        var before := Fly(plan, shorter);
        StepParts(plan, before.v, op.noise);
        TransientsKeepTargets(before.v.effects, op.noise.clock, op.noise.restart, before.targets);
        ControlKept(InputsOf(Wake(before.v, op.noise), op.noise), before.targets);
        hide FromTargets, Derivation;
      }
    }
  }
}
