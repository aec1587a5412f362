/** What each fault does to the mock, fault by fault: the state a single effect leaves on its target, when an intermittent
    fault is off, how long restarts and crashes last, and what becomes of aiding and battery. */
module MockEffects {
  import opened Options
  import opened States
  import opened RunLog
  import opened MockDerive
  import opened MockVehicle

  // ---- A single effect

  /** With nothing else going on the target shows the state of its effect. */
  lemma SingleEffect(e: ActiveEffect, t: real, draw: real)
    requires e.subsystem in COMPONENTS && e.effect in AllowedEffects(e.subsystem)
    ensures var state := Derivation(Inputs([e], {}, t, None, draw)).states[e.subsystem];
            match e.effect
            case Unavailability => state == Unavailable
            case TemporaryDisconnect => state == Unavailable
            case Intermittent => state == if InDuty(e, t) then Degraded else Unavailable
            case Restart => state == Recovering
            case Crash => state == if e.stage == Crashed then Failed else Recovering
            case _ => state == Degraded
  {
    hide InDuty, AllowedEffects, StateOf, EffectState, CommandsAvailable, ControlLost, C2Link, TelemetryLink, GnssAiding, BatteryFactor;
    var i := Inputs([e], {}, t, None, draw);
    EffectByKind(e, t);
    hide PutsAt;
    SingleDirect(e, t, draw);
    assert StateOf(i, e.subsystem) == EffectState(e, t);
  }

  lemma SingleDirect(e: ActiveEffect, t: real, draw: real)
    ensures StateOf(Inputs([e], {}, t, None, draw), e.subsystem) == EffectState(e, t)
  {
    hide EffectState, GnssAiding, DirectOf, HealthyState, StateOf, TriggersBrownout;
    var i := Inputs([e], {}, t, None, draw);
    forall c
      ensures Direct(i, c) == if c == e.subsystem then EffectState(e, t) else HealthyState(c)
      ensures HealthyState(c).IsHealthy()
    {
      HealthyIsHealthy(c);
      OneEffect(e, t, HealthyState(c), c);
    }
    GnssWhenHealthy(i);
    AloneShows(i, e.subsystem);
  }

  lemma HealthyIsHealthy(c: Id)
    ensures HealthyState(c).IsHealthy()
  {
  }

  /** With everything else healthy a component shows its direct state. */
  lemma AloneShows(i: Inputs, c: Id)
    requires i.brownoutUntil.None? && forall x :: x != c ==> Direct(i, x).IsHealthy()
    requires c != NavigationGnss ==> GnssAiding(i)
    ensures StateOf(i, c) == Direct(i, c)
  {
    hide Direct, Level, GnssAiding;
  }

  lemma OneEffect(e: ActiveEffect, t: real, base: ComponentState, c: Id)
    requires base.IsHealthy()
    ensures DirectOf([e], t, base, c) == if c == e.subsystem then EffectState(e, t) else base
  {
    assert [e][..0] == [];
    assert DirectOf([], t, base, c) == base;
  }

  lemma GnssWhenHealthy(i: Inputs)
    ensures (forall k :: 0 <= k < |i.effects| ==> i.effects[k].subsystem != NavigationGnss) ==> GnssAiding(i)
  {
    if forall k :: 0 <= k < |i.effects| ==> i.effects[k].subsystem != NavigationGnss {
      UntouchedGnss(i.effects, i.t, true);
      DirectReference(i, NavigationGnss, 1);
    }
  }

  /** An intermittent fault lets its target work during the first part of every period since it was injected. */
  lemma OnDuringDuty(e: ActiveEffect, t: real)
    requires Param(e.parameters, "period", 2.0) > 0.0
    ensures InDuty(e, t) <==> exists n: int :: OnInPeriod(e, t, n)
  {
    hide Param, Early;
    var period, duty := Param(e.parameters, "period", 2.0), Param(e.parameters, "duty_cycle", 0.4);
    var since, cycles := t - e.startedAt, (t - e.startedAt) / period;
    forall n: int
      ensures OnInPeriod(e, t, n) <==> Early(cycles, 1.0, duty, n)
    {
      assert OnInPeriod(e, t, n) == Early(since, period, duty, n);
      EarlyScaled(since, period, duty, n);
    }
    EarlyOnce(cycles, duty);
    if InDuty(e, t) {
      var n: int :| Early(cycles, 1.0, duty, n);
      assert OnInPeriod(e, t, n);
    }
  }

  /** In period number `n` the time lies before the share `duty` of the period has passed. */
  predicate OnInPeriod(e: ActiveEffect, t: real, n: int) {
    Early(t - e.startedAt, Param(e.parameters, "period", 2.0), Param(e.parameters, "duty_cycle", 0.4), n)
  }

  predicate Early(since: real, period: real, duty: real, n: int) {
    n as real * period <= since < (n as real + 1.0) * period && since < (n as real + duty) * period
  }

  lemma EarlyScaled(since: real, period: real, duty: real, n: int)
    requires period > 0.0
    ensures Early(since, period, duty, n) <==> Early(since / period, 1.0, duty, n)
  {
    var cycles := since / period;
    assert since == cycles * period;
    Scaled(n as real, cycles, period);
    Scaled(n as real + duty, cycles, period);
    Scaled(n as real + 1.0, cycles, period);
  }

  lemma EarlyOnce(cycles: real, duty: real)
    ensures (exists n: int :: Early(cycles, 1.0, duty, n)) <==> cycles - cycles.Floor as real < duty
  {
    hide Early;
    forall n: int
      ensures Early(cycles, 1.0, duty, n) <==> n == cycles.Floor && cycles - cycles.Floor as real < duty
    {
      EarlyIsFloor(cycles, duty, n);
    }
    if cycles - cycles.Floor as real < duty {
      assert Early(cycles, 1.0, duty, cycles.Floor);
    }
  }

  lemma EarlyIsFloor(cycles: real, duty: real, n: int)
    ensures Early(cycles, 1.0, duty, n) <==> n == cycles.Floor && cycles - cycles.Floor as real < duty
  {
  }

  lemma Scaled(a: real, b: real, period: real)
    requires period > 0.0
    ensures a <= b <==> a * period <= b * period
  {
    if a <= b {
      assert (b - a) * period >= 0.0;
    } else {
      assert (a - b) * period > 0.0;
    }
  }

  // ---- Restarts and crashes

  /** How long a stage lasts: as long as the request says, else as chance has it. */
  function Length(parameters: map<string, real>, name: string, draw: real): real {
    if name in parameters then parameters[name] else draw
  }

  /** A restart begins at once and is over once its time has passed; a crash stays failed until its watchdog has expired. Other
      effects have no stages. */
  lemma StagesBegin(request: InjectionRequest, at: real, draw: real, t: real)
    ensures var e := EffectOf(request, at, draw);
            && e.eventId == request.eventId && e.subsystem == request.subsystem && e.effect == request.effect && e.startedAt == at
            && (request.effect == Restart ==> (IsOver(e, t) <==> t >= at + Length(request.parameters, "restart_time", draw)))
            && (request.effect == Crash ==>
                  !IsOver(e, t) && (Expired(e, t) <==> t >= at + Length(request.parameters, "watchdog_time", draw)))
            && (request.effect != Restart && request.effect != Crash ==> !IsOver(e, t) && !Expired(e, t))
  {
  }

  /** The watchdog of a crashed process has expired. */
  predicate Expired(e: ActiveEffect, t: real) {
    e.effect == Crash && e.stage == Crashed && e.stageUntil.Some? && e.stageUntil.value <= t
  }

  /** The restart is over. */
  predicate Restarted(e: ActiveEffect, t: real, restart: EventId -> real) {
    || (e.stage == Restarting && e.stageUntil.Some? && e.stageUntil.value <= t)
    || (Expired(e, t) && Length(e.parameters, "restart_time", restart(e.eventId)) <= 0.0)
  }

  /** What becomes of an effect that goes on. */
  function GoesOn(e: ActiveEffect, t: real, restart: EventId -> real): ActiveEffect {
    if Expired(e, t) then e.(stage := Restarting, stageUntil := Some(t + Length(e.parameters, "restart_time", restart(e.eventId)))) else e
  }

  /** One step keeps exactly the effects whose restart is not over, in order; a crash whose watchdog expired is restarting
      from then on; and exactly the components whose restart is over are marked as recovered. */
  lemma {:induction false} StagesAdvance(effects: seq<ActiveEffect>, t: real, restart: EventId -> real)
    ensures var (rest, marks) := AdvanceTransients(effects, t, restart);
            && (forall x :: x in rest <==> GoesOnAs(effects, t, restart, x)) && (forall c :: c in marks <==> RestartsOn(effects, t, restart, c))
    decreases |effects|
  {
    hide Progressed, IsOver, Restarted, GoesOn;
    if effects != [] {
      var shorter, last := effects[..|effects| - 1], effects[|effects| - 1];
      StagesAdvance(shorter, t, restart);
      OneAdvances(last, t, restart);
      assert effects == shorter + [last];
      var (before, marked) := AdvanceTransients(shorter, t, restart);
      var (rest, marks) := AdvanceTransients(effects, t, restart);
      forall x
        ensures GoesOnAs(effects, t, restart, x)
                <==> GoesOnAs(shorter, t, restart, x) || (!Restarted(last, t, restart) && x == GoesOn(last, t, restart))
      {
        OneMoreGoesOn(shorter, last, t, restart, x);
      }
      forall c
        ensures RestartsOn(effects, t, restart, c) <==> RestartsOn(shorter, t, restart, c) || (Restarted(last, t, restart) && last.subsystem == c)
      {
        OneMoreRestarts(shorter, last, t, restart, c);
      }
      hide GoesOnAs, RestartsOn;
    }
  }

  /** Some effect goes on as `x`. */
  ghost predicate GoesOnAs(effects: seq<ActiveEffect>, t: real, restart: EventId -> real, x: ActiveEffect) {
    exists k :: 0 <= k < |effects| && !Restarted(effects[k], t, restart) && x == GoesOn(effects[k], t, restart)
  }

  /** Some restart on the component is over. */
  ghost predicate RestartsOn(effects: seq<ActiveEffect>, t: real, restart: EventId -> real, c: Id) {
    exists k :: 0 <= k < |effects| && Restarted(effects[k], t, restart) && effects[k].subsystem == c
  }

  lemma OneMoreGoesOn(effects: seq<ActiveEffect>, e: ActiveEffect, t: real, restart: EventId -> real, x: ActiveEffect)
    ensures GoesOnAs(effects + [e], t, restart, x)
            <==> GoesOnAs(effects, t, restart, x) || (!Restarted(e, t, restart) && x == GoesOn(e, t, restart))
  {
    hide Restarted, GoesOn;
    var more := effects + [e];
    assert more[|effects|] == e;
    if GoesOnAs(effects, t, restart, x) {
      var k :| 0 <= k < |effects| && !Restarted(effects[k], t, restart) && x == GoesOn(effects[k], t, restart);
      assert more[k] == effects[k];
    }
  }

  lemma OneMoreRestarts(effects: seq<ActiveEffect>, e: ActiveEffect, t: real, restart: EventId -> real, c: Id)
    ensures RestartsOn(effects + [e], t, restart, c) <==> RestartsOn(effects, t, restart, c) || (Restarted(e, t, restart) && e.subsystem == c)
  {
    hide Restarted;
    var more := effects + [e];
    assert more[|effects|] == e;
    if RestartsOn(effects, t, restart, c) {
      var k :| 0 <= k < |effects| && Restarted(effects[k], t, restart) && effects[k].subsystem == c;
      assert more[k] == effects[k];
    }
  }

  lemma OneAdvances(e: ActiveEffect, t: real, restart: EventId -> real)
    ensures IsOver(Progressed(e, t, restart), t) <==> Restarted(e, t, restart)
    ensures !Restarted(e, t, restart) ==> Progressed(e, t, restart) == GoesOn(e, t, restart)
    ensures Progressed(e, t, restart).subsystem == e.subsystem
  {
  }

  // ---- Aiding and battery

  /** Effects on the receiver that decide whether the estimator still uses it: outputs it has rejected after a second, and
      degradations, which it accepts. */
  predicate Decides(e: ActiveEffect, t: real) {
    e.subsystem == NavigationGnss && (e.effect == Degradation || (e.effect in {Erroneous, Stuck} && t - e.startedAt > 1.0))
  }

  ghost predicate LastDecides(effects: seq<ActiveEffect>, t: real, k: nat) {
    k < |effects| && Decides(effects[k], t) && forall j :: k < j < |effects| ==> !Decides(effects[j], t)
  }

  lemma {:induction false} UsableByLast(effects: seq<ActiveEffect>, t: real, start: bool)
    ensures forall k: nat :: LastDecides(effects, t, k) ==> (Usable(effects, t, start) <==> effects[k].effect == Degradation)
    ensures (forall k :: 0 <= k < |effects| ==> !Decides(effects[k], t)) ==> Usable(effects, t, start) == start
    decreases |effects|
  {
    if effects != [] {
      var shorter, n := effects[..|effects| - 1], |effects| - 1;
      UsableByLast(shorter, t, start);
      assert forall k :: 0 <= k < n ==> shorter[k] == effects[k];
      if !Decides(effects[n], t) {
        forall k: nat
          ensures LastDecides(effects, t, k) <==> LastDecides(shorter, t, k)
        {
        }
      }
    }
  }

  /** The receiver aids the estimator exactly when nothing takes it down, and the last deciding effect on it is a degradation or,
      without one, nothing impairs it. */
  lemma AidingIs(i: Inputs)
    ensures Derivation(i).gnssAiding <==>
            && !Hit(i.effects, i.t, NavigationGnss, 2)
            && (|| (exists k: nat :: LastDecides(i.effects, i.t, k) && i.effects[k].effect == Degradation)
                || ((forall k :: 0 <= k < |i.effects| ==> !Decides(i.effects[k], i.t)) && !Hit(i.effects, i.t, NavigationGnss, 1)))
  {
    hide Hit, Usable, Direct, Decides, StateOf, CommandsAvailable, ControlLost, C2Link, TelemetryLink, BatteryFactor;
    DirectReference(i, NavigationGnss, 1);
    UsableByLast(i.effects, i.t, Direct(i, NavigationGnss).IsHealthy());
    SomeLast(i.effects, i.t);
  }

  lemma {:induction false} SomeLast(effects: seq<ActiveEffect>, t: real)
    ensures (exists k: nat :: LastDecides(effects, t, k)) <==> exists k :: 0 <= k < |effects| && Decides(effects[k], t)
    decreases |effects|
  {
    if effects != [] {
      var shorter, n := effects[..|effects| - 1], |effects| - 1;
      SomeLast(shorter, t);
      assert forall k :: 0 <= k < n ==> shorter[k] == effects[k];
      if Decides(effects[n], t) {
        assert LastDecides(effects, t, n);
      } else if k :| 0 <= k < |effects| && Decides(effects[k], t) {
        assert Decides(shorter[k], t);
        var m: nat :| LastDecides(shorter, t, m);
        assert LastDecides(effects, t, m);
      }
    }
  }

  /** The battery loses power only while it is degraded and not down: then it gives the lowest level any degradation leaves, but
      never less than three tenths. */
  lemma BatteryIs(i: Inputs, x: real)
    requires 0.3 < x <= 1.0
    ensures var factor := Derivation(i).batteryFactor;
            var degraded := Hit(i.effects, i.t, PowerBattery, 1) && !Hit(i.effects, i.t, PowerBattery, 2);
            && 0.3 <= factor <= 1.0 && (!degraded ==> factor == 1.0)
            && (degraded ==> (factor < x <==> exists k :: 0 <= k < |i.effects| && i.effects[k].subsystem == PowerBattery
                                                && i.effects[k].effect == Degradation && Param(i.effects[k].parameters, "level", 0.7) < x))
  {
    hide Hit, Direct, Level, Param, StateOf, CommandsAvailable, ControlLost, C2Link, TelemetryLink, GnssAiding;
    DirectReference(i, PowerBattery, 1);
    LevelIsLowest(i.effects, PowerBattery, 0.7, x);
    LevelAtMostOne(i.effects, PowerBattery, 0.7);
  }

  lemma {:induction false} LevelAtMostOne(effects: seq<ActiveEffect>, c: Id, default: real)
    ensures Level(effects, c, default) <= 1.0
    decreases |effects|
  {
    if effects != [] {
      LevelAtMostOne(effects[..|effects| - 1], c, default);
    }
  }

  // ---- The book of effects

  ghost predicate Keyed(effects: seq<ActiveEffect>) {
    forall j, k :: 0 <= j < k < |effects| ==> effects[j].eventId != effects[k].eventId
  }

  /** An injection into a component of the vehicle puts its effect in: in place of the one with the same id, else behind all others. */
  lemma InjectionTakes(v: Vehicle, request: InjectionRequest, draw: real)
    requires Keyed(v.effects)
    ensures var (next, applied) := InjectInto(v, request, draw);
            var e := EffectOf(request, v.t, draw);
            && applied == (request.subsystem in COMPONENTS) && next == v.(effects := next.effects) && Keyed(next.effects)
            && (!applied ==> next == v)
            && (applied ==>
                  && (forall k :: 0 <= k < |v.effects| ==>
                        next.effects[k] == if v.effects[k].eventId == request.eventId then e else v.effects[k])
                  && (if exists k :: 0 <= k < |v.effects| && v.effects[k].eventId == request.eventId then |next.effects| == |v.effects|
                      else next.effects == v.effects + [e]))
  {
    hide COMPONENTS;
    KeyIsFound(v.effects, request.eventId);
    hide Param;
  }

  lemma {:induction false} KeyIsFound(effects: seq<ActiveEffect>, id: EventId)
    ensures FindEffect(effects, id) < |effects| <==> exists k :: 0 <= k < |effects| && effects[k].eventId == id
    ensures forall j :: 0 <= j < FindEffect(effects, id) ==> effects[j].eventId != id
    decreases |effects|
  {
    if effects != [] && effects[0].eventId != id {
      KeyIsFound(effects[1..], id);
      assert forall k :: 0 < k < |effects| ==> effects[k] == effects[1..][k - 1];
      if k :| 0 <= k < |effects| && effects[k].eventId == id {
        assert effects[1..][k - 1].eventId == id;
      }
    }
  }

  /** Clearing takes out the effect with this id and nothing else. */
  lemma ClearTakesOut(v: Vehicle, id: EventId)
    requires Keyed(v.effects)
    ensures var next := ClearFrom(v, id);
            && next == v.(effects := next.effects) && Keyed(next.effects)
            && (forall x :: x in next.effects <==> x in v.effects && x.eventId != id)
  {
    hide FindEffect, Keyed;
    KeyIsFound(v.effects, id);
    var k := FindEffect(v.effects, id);
    if k < |v.effects| {
      WithoutOne(v.effects, k);
    } else {
      assert forall x :: x in v.effects ==> x.eventId != id;
    }
  }

  lemma WithoutOne(effects: seq<ActiveEffect>, k: nat)
    requires Keyed(effects) && k < |effects|
    ensures var rest := effects[..k] + effects[k + 1..];
            Keyed(rest) && forall x :: x in rest <==> x in effects && x.eventId != effects[k].eventId
  {
    var rest := effects[..k] + effects[k + 1..];
    forall j | 0 <= j < |rest|
      ensures rest[j] == effects[if j < k then j else j + 1]
    {
    }
    forall x | x in effects && x.eventId != effects[k].eventId
      ensures x in rest
    {
      var j :| 0 <= j < |effects| && effects[j] == x;
      assert rest[if j < k then j else j - 1] == x;
    }
  }

  // ---- Several effects, and effects elsewhere

  /** Among the effects on a component the worst counts, and of equally bad ones the last. */
  ghost predicate LastWorst(effects: seq<ActiveEffect>, t: real, c: Id, k: nat) {
    && k < |effects| && effects[k].subsystem == c
    && forall j :: 0 <= j < |effects| && effects[j].subsystem == c ==>
         Severity(EffectState(effects[j], t)) <= Severity(EffectState(effects[k], t))
         && (j > k ==> Severity(EffectState(effects[j], t)) < Severity(EffectState(effects[k], t)))
  }

  ghost predicate Untouched(effects: seq<ActiveEffect>, c: Id) {
    forall k :: 0 <= k < |effects| ==> effects[k].subsystem != c
  }

  lemma DirectIsLastWorst(effects: seq<ActiveEffect>, t: real, base: ComponentState, c: Id)
    requires base.IsHealthy()
    ensures Untouched(effects, c) ==> DirectOf(effects, t, base, c) == base
    ensures forall k: nat :: k < |effects| && LastWorst(effects, t, c, k) ==> DirectOf(effects, t, base, c) == EffectState(effects[k], t)
    ensures !Untouched(effects, c) ==> exists k: nat :: k < |effects| && LastWorst(effects, t, c, k)
  {
    hide LastWorst, DirectOf, EffectState;
    SomeDecides(effects, t, base, c);
    forall k: nat | k < |effects| && LastWorst(effects, t, c, k)
      ensures DirectOf(effects, t, base, c) == EffectState(effects[k], t)
    {
      TouchedBy(effects, t, c, k);
      var m: nat :| m < |effects| && LastWorst(effects, t, c, m) && DirectOf(effects, t, base, c) == EffectState(effects[m], t);
      OnlyOneDecides(effects, t, c, k, m);
    }
  }

  lemma TouchedBy(effects: seq<ActiveEffect>, t: real, c: Id, k: nat)
    requires LastWorst(effects, t, c, k)
    ensures k < |effects| && !Untouched(effects, c)
  {
  }

  lemma OnlyOneDecides(effects: seq<ActiveEffect>, t: real, c: Id, j: nat, k: nat)
    requires LastWorst(effects, t, c, j) && LastWorst(effects, t, c, k)
    ensures j == k
  {
    hide EffectState, Severity;
  }

  lemma {:induction false} SomeDecides(effects: seq<ActiveEffect>, t: real, base: ComponentState, c: Id)
    requires base.IsHealthy()
    ensures Untouched(effects, c) ==> DirectOf(effects, t, base, c) == base
    ensures !Untouched(effects, c) ==>
              exists k: nat :: k < |effects| && LastWorst(effects, t, c, k) && DirectOf(effects, t, base, c) == EffectState(effects[k], t)
    decreases |effects|
  {
    hide EffectState, Untouched, LastWorst, Severity;
    UntouchedShorter(effects, c);
    if effects != [] {
      var shorter, last := effects[..|effects| - 1], effects[|effects| - 1];
      SomeDecides(shorter, t, base, c);
      AtLeastDegraded(last, t);
      HealthyIsZero(base);
      if Untouched(shorter, c) {
        if last.subsystem == c {
          FirstDecides(effects, t, c);
        }
      } else {
        var m: nat :| m < |shorter| && LastWorst(shorter, t, c, m) && DirectOf(shorter, t, base, c) == EffectState(shorter[m], t);
        OneMoreDecides(effects, t, c, m);
      }
    }
  }

  lemma HealthyIsZero(state: ComponentState)
    requires state.IsHealthy()
    ensures Severity(state) == 0
  {
  }

  lemma UntouchedShorter(effects: seq<ActiveEffect>, c: Id)
    ensures effects == [] ==> Untouched(effects, c)
    ensures effects != [] ==> (Untouched(effects, c) <==> Untouched(effects[..|effects| - 1], c) && effects[|effects| - 1].subsystem != c)
  {
    if effects != [] && Untouched(effects[..|effects| - 1], c) {
      assert forall k :: 0 <= k < |effects| - 1 ==> effects[..|effects| - 1][k] == effects[k];
    }
  }

  lemma FirstDecides(effects: seq<ActiveEffect>, t: real, c: Id)
    requires effects != [] && effects[|effects| - 1].subsystem == c && Untouched(effects[..|effects| - 1], c)
    ensures LastWorst(effects, t, c, |effects| - 1)
  {
    hide EffectState, Severity;
    assert forall k :: 0 <= k < |effects| - 1 ==> effects[..|effects| - 1][k] == effects[k];
  }

  /** One more effect decides when it is on the component and at least as bad. */
  lemma OneMoreDecides(effects: seq<ActiveEffect>, t: real, c: Id, m: nat)
    requires effects != [] && LastWorst(effects[..|effects| - 1], t, c, m)
    ensures m < |effects| - 1 && effects[..|effects| - 1][m] == effects[m]
    ensures var last := effects[|effects| - 1];
            LastWorst(effects, t, c, if last.subsystem == c && Severity(EffectState(last, t)) >= Severity(EffectState(effects[m], t))
                                     then |effects| - 1 else m)
  {
    hide EffectState, Severity;
    assert forall k :: 0 <= k < |effects| - 1 ==> effects[..|effects| - 1][k] == effects[k];
  }

  lemma AtLeastDegraded(e: ActiveEffect, t: real)
    ensures Severity(EffectState(e, t)) >= 1
  {
  }

  /** The components whose state depends on others, or that brownouts restart. */
  const DEPENDENTS: set<Id> :=
    {MissionCompute, MissionPlanner, MissionServices, NavigationEstimator, FlightControlCore, CommunicationsC2}

  predicate Troubled(state: ComponentState) { state in {Degraded, Unavailable, Failed, Recovering} }

  /** What becomes of a component that no effect targets: it shows its healthy state, or recovered while it is marked, unless
      something it relies on is in trouble. */
  lemma UntouchedFollows(i: Inputs, c: Id)
    requires Allowed(i.effects) && Untouched(i.effects, c)
    ensures var own := if c in i.marks then Recovered else HealthyState(c);
            var computer := StateOf(i, MissionCompute);
            StateOf(i, c) ==
            match c
            case MissionCompute => (if Brown(i) then Recovering else own)
            case MissionPlanner => (if computer == Degraded then Degraded else if Troubled(computer) then Unavailable else own)
            case MissionServices => (if Troubled(computer) && computer != Degraded then Unavailable else own)
            case NavigationEstimator =>
              (if Troubled(StateOf(i, NavigationGnss)) || Troubled(StateOf(i, SensorsBarometer)) || Troubled(StateOf(i, SensorsMagnetometer))
               then Degraded else own)
            case FlightControlCore => (if Troubled(StateOf(i, SensorsImu)) then Degraded else own)
            case CommunicationsC2 => (if Troubled(StateOf(i, ExternalGcs)) then Degraded else own)
            case _ => own
  {
    hide Brown, Allowed, Hit, InBrownout, GnssAiding, DirectOf, Troubled, StateOf, Direct, HealthyState, BaseState, ComputeState;
    OwnState(i, c);
    DirectIsLastWorst(i.effects, i.t, BaseState(i, c), c);
    hide Untouched;
    match c
    case MissionCompute => ComputerFollows(i);
    case MissionPlanner => ProcessesFollow(i);
    case MissionServices => ProcessesFollow(i);
    case NavigationEstimator => EstimatorFollows(i);
    case FlightControlCore => LeafShows(i, SensorsImu); CoreFollows(i);
    case CommunicationsC2 => LeafShows(i, ExternalGcs); RadioFollows(i);
    case _ => OthersShow(i, c);
  }

  lemma OwnState(i: Inputs, c: Id)
    ensures BaseState(i, c) == (if c in i.marks then Recovered else HealthyState(c)) && BaseState(i, c).IsHealthy()
    ensures Direct(i, c) == DirectOf(i.effects, i.t, BaseState(i, c), c)
  {
  }

  lemma OthersShow(i: Inputs, c: Id)
    requires c !in DEPENDENTS
    ensures StateOf(i, c) == Direct(i, c)
  {
    hide Direct, DirectOf, ComputeState, GnssAiding;
  }

  lemma LeafShows(i: Inputs, c: Id)
    requires c !in DEPENDENTS
    ensures StateOf(i, c) == Direct(i, c) && (Troubled(StateOf(i, c)) <==> !Direct(i, c).IsHealthy())
  {
    hide Direct, DirectOf, ComputeState, GnssAiding, Hit;
    DirectReference(i, c, 1);
  }

  lemma ComputerFollows(i: Inputs)
    requires Allowed(i.effects) && Direct(i, MissionCompute).IsHealthy()
    ensures StateOf(i, MissionCompute) == if Brown(i) then Recovering else Direct(i, MissionCompute)
  {
    hide Direct, DirectOf, GnssAiding, Brown, InBrownout, Allowed;
    BrownoutReference(i);
  }

  lemma ProcessesFollow(i: Inputs)
    requires Direct(i, MissionPlanner).IsHealthy() || Direct(i, MissionServices).IsHealthy()
    ensures var computer := StateOf(i, MissionCompute);
            && (Direct(i, MissionPlanner).IsHealthy() ==>
                  StateOf(i, MissionPlanner) ==
                  if computer == Degraded then Degraded else if Troubled(computer) then Unavailable else Direct(i, MissionPlanner))
            && (Direct(i, MissionServices).IsHealthy() ==>
                  StateOf(i, MissionServices) == if Troubled(computer) && computer != Degraded then Unavailable else Direct(i, MissionServices))
  {
    hide Direct, DirectOf, GnssAiding, ComputeState;
  }

  lemma EstimatorFollows(i: Inputs)
    requires Direct(i, NavigationEstimator).IsHealthy()
    ensures StateOf(i, NavigationEstimator) ==
            if Troubled(StateOf(i, NavigationGnss)) || Troubled(StateOf(i, SensorsBarometer)) || Troubled(StateOf(i, SensorsMagnetometer))
            then Degraded else Direct(i, NavigationEstimator)
  {
    hide Direct, DirectOf, GnssAiding, ComputeState, Troubled, Hit;
    GnssTouchesEstimator(i);
    DirectReference(i, NavigationGnss, 1);
    LeafShows(i, NavigationGnss);
    LeafShows(i, SensorsBarometer);
    LeafShows(i, SensorsMagnetometer);
  }

  lemma CoreFollows(i: Inputs)
    requires Direct(i, FlightControlCore).IsHealthy()
    ensures StateOf(i, FlightControlCore) == if Direct(i, SensorsImu).IsHealthy() then Direct(i, FlightControlCore) else Degraded
  {
    hide Direct, DirectOf, GnssAiding, ComputeState;
  }

  lemma RadioFollows(i: Inputs)
    requires Direct(i, CommunicationsC2).IsHealthy()
    ensures StateOf(i, CommunicationsC2) == if Direct(i, ExternalGcs).IsHealthy() then Direct(i, CommunicationsC2) else Degraded
  {
    hide Direct, DirectOf, GnssAiding, ComputeState;
  }

  // ---- Brownouts and marks

  /** A brownout begins when the bus fails, lasts for the time drawn, and when it is over the computer is marked as recovered. */
  lemma BrownoutLasts(v: Vehicle, n: Noise)
    requires Allowed(v.effects) && n.brownout > 0.0
    ensures var r := AfterDerivation(v, n);
            var fails := Hit(v.effects, v.t, PowerBus, 2) || WeakerThan(v.effects, PowerBus, 0.6, 0.5);
            && r == v.(brownoutUntil := r.brownoutUntil, marks := r.marks)
            && match v.brownoutUntil
               case None => r.brownoutUntil == (if fails then Some(v.t + n.brownout) else None) && r.marks == v.marks
               case Some(end) => if v.t < end then r.brownoutUntil == Some(end) && r.marks == v.marks
                                 else r.brownoutUntil == None && r.marks == v.marks + {MissionCompute}
  {
    hide Hit, WeakerThan, Allowed, TriggersBrownout;
    BrownoutReference(InputsOf(v, n));
  }

  /** After a step exactly those components are marked that were, or whose restart or brownout just ended, and that the step before
      had not shown as recovered yet. */
  lemma MarksAre(plan: Plan, v: Vehicle, n: Noise, c: Id)
    requires Allowed(Wake(v, n).effects) && n.brownout > 0.0
    ensures c in Step(plan, v, n).0.marks <==>
            && Observed(v.states, c) != Recovered
            && (c in v.marks || RestartsOn(v.effects, n.clock, n.restart, c)
                || (c == MissionCompute && v.brownoutUntil.Some? && n.clock >= v.brownoutUntil.value))
  {
    hide AdvanceTransients, Derivation, DecideMode, AdvanceMission, ProgressOf, Diff, RestartsOn, InBrownout, BrownoutEnd, Allowed, Hit, WeakerThan;
    var awake := Wake(v, n);
    StagesAdvance(v.effects, n.clock, n.restart);
    BrownoutLasts(awake, n);
    MarksPass(plan, v, n);
  }

  lemma MarksPass(plan: Plan, v: Vehicle, n: Noise)
    ensures Step(plan, v, n).0.marks == set c | c in AfterDerivation(Wake(v, n), n).marks && Observed(v.states, c) != Recovered
    ensures Step(plan, v, n).0.states == Derivation(InputsOf(Wake(v, n), n)).states
    ensures Step(plan, v, n).1.sample.health == Derivation(InputsOf(Wake(v, n), n)).states
  {
    hide AdvanceTransients, Derivation, InputsOf, ProgressOf, Diff, DecideMode, AdvanceMission, Move, InBrownout, BrownoutEnd;
    FlightKeepsMarks(plan, AfterDerivation(Wake(v, n), n), Derivation(InputsOf(Wake(v, n), n)), n);
  }

  lemma FlightKeepsMarks(plan: Plan, v: Vehicle, d: Derived, n: Noise)
    ensures var r := AdvanceMission(plan, Move(DecideMode(plan, v, d).0, n), n).0; r.marks == v.marks && r.states == v.states
  {
    hide DecideMode, AdvanceMission;
    DecisionKeepsMarks(plan, v, d);
    AdvanceKeepsMarks(plan, Move(DecideMode(plan, v, d).0, n), n);
  }

  lemma DecisionKeepsMarks(plan: Plan, v: Vehicle, d: Derived)
    ensures var r := DecideMode(plan, v, d).0; r.marks == v.marks && r.states == v.states
  {
    hide NextMode, AutonomyOf, HandOver, ModeChange, UnaidedSince, WantsHold, WantsLand, IsTerminalPhase;
  }

  lemma AdvanceKeepsMarks(plan: Plan, v: Vehicle, n: Noise)
    ensures var r := AdvanceMission(plan, v, n).0; r.marks == v.marks && r.states == v.states
  {
  }

  /** No effect targets the component during the step, and no restart on it ends with it. */
  ghost predicate Quiet(v: Vehicle, n: Noise, c: Id) {
    && Allowed(Wake(v, n).effects) && n.brownout > 0.0
    && Untouched(Wake(v, n).effects, c) && !RestartsOn(v.effects, n.clock, n.restart, c)
  }

  /** A restart that ends shows as recovered in exactly two observations, and as healthy after them, when nothing else happens to the
      component. */
  lemma RecoveredTwice(plan: Plan, v: Vehicle, a: Noise, b: Noise, c: Noise, id: Id)
    requires id in COMPONENTS - DEPENDENTS && id !in v.marks && Observed(v.states, id) != Recovered
    requires Allowed(Wake(v, a).effects) && a.brownout > 0.0 && Untouched(Wake(v, a).effects, id)
    requires RestartsOn(v.effects, a.clock, a.restart, id)
    requires Quiet(Step(plan, v, a).0, b, id) && Quiet(Step(plan, Step(plan, v, a).0, b).0, c, id)
    ensures var (first, o) := Step(plan, v, a);
            var (second, p) := Step(plan, first, b);
            var q := Step(plan, second, c).1;
            Observed(o.sample.health, id) == Recovered && Observed(p.sample.health, id) == Recovered
            && Observed(q.sample.health, id) == HealthyState(id)
  {
    hide Step, Wake, Allowed, Untouched, RestartsOn;
    var first := Step(plan, v, a).0;
    var second := Step(plan, first, b).0;
    ShowsMark(plan, v, a, id);
    MarksAre(plan, v, a, id);
    ShowsMark(plan, first, b, id);
    MarksAre(plan, first, b, id);
    ShowsMark(plan, second, c, id);
  }

  lemma ShowsMark(plan: Plan, v: Vehicle, n: Noise, id: Id)
    requires id in COMPONENTS - DEPENDENTS && Allowed(Wake(v, n).effects) && Untouched(Wake(v, n).effects, id)
    ensures var (next, o) := Step(plan, v, n);
            var marked := id in v.marks || RestartsOn(v.effects, n.clock, n.restart, id);
            Observed(o.sample.health, id) == (if marked then Recovered else HealthyState(id)) && next.states == o.sample.health
  {
    hide Step, AdvanceTransients, Allowed, Untouched, RestartsOn, StateOf, CommandsAvailable, ControlLost, C2Link, TelemetryLink, GnssAiding,
      BatteryFactor, AfterDerivation, Brown;
    MarksPass(plan, v, n);
    StagesAdvance(v.effects, n.clock, n.restart);
    UntouchedFollows(InputsOf(Wake(v, n), n), id);
  }
}
