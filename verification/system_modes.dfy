/** The aggregated mode and the mission times without the vocabulary they are computed with: which component states put the system
    into which mode, and which samples count as hold or mission time. */
module SystemModes {
  import opened Options
  import opened States
  import opened RunLog
  import TimeMetrics

  /** One component alone, and so each component for its part: a failure fails the system, wherever it is; anything else that takes a
      component out fails the system only when the component is critical and degrades it otherwise, as does a degradation. */
  lemma ModeByComponent(id: Id, state: ComponentState, critical: set<Id>)
    ensures ModeOf(map[id := state], critical) ==
            match state
            case Failed => ModeFailed
            case Unavailable => (if id in critical then ModeFailed else ModeDegraded)
            case Recovering => (if id in critical then ModeFailed else ModeDegraded)
            case Degraded => ModeDegraded
            case _ => ModeNominal
  {
    var health := map[id := state];
    assert health[id] == state;
  }

  function Worse(a: SystemMode, b: SystemMode): SystemMode {
    if a == ModeFailed || b == ModeFailed then ModeFailed else if a == ModeDegraded || b == ModeDegraded then ModeDegraded else ModeNominal
  }

  /** The mode of a system is the worst mode any of its components causes alone. */
  lemma ModeIsWorst(health: Health, id: Id, state: ComponentState, critical: set<Id>)
    requires id !in health
    ensures ModeOf(health[id := state], critical) == Worse(ModeOf(health, critical), ModeOf(map[id := state], critical))
    ensures ModeOf(map[], critical) == ModeNominal
  {
    var more, one := health[id := state], map[id := state];
    assert more[id] == state && one[id] == state;
    assert forall x :: x in health ==> more[x] == health[x];
    FailsEither(health, id, state, critical);
    ImpairsEither(health, id, state);
  }

  lemma FailsEither(health: Health, id: Id, state: ComponentState, critical: set<Id>)
    requires id !in health
    ensures AnyFailed(health[id := state], critical) <==> AnyFailed(health, critical) || state.Failed? || (state.IsDown() && id in critical)
  {
    var more := health[id := state];
    assert more[id] == state;
    if x :| x in health && (health[x].Failed? || (health[x].IsDown() && x in critical)) {
      assert more[x] == health[x];
    }
  }

  lemma ImpairsEither(health: Health, id: Id, state: ComponentState)
    requires id !in health
    ensures AnyImpaired(health[id := state]) <==> AnyImpaired(health) || state.IsImpaired() || state.IsDown()
  {
    var more := health[id := state];
    assert more[id] == state;
    if x :| x in health && (health[x].IsImpaired() || health[x].IsDown()) {
      assert more[x] == health[x];
    }
  }

  /** Holding is any sample in a failsafe mode or phase; of the others those under way count as mission. */
  lemma TimeShares(s: Sample)
    ensures TimeMetrics.InHold()(s) ==
            (if s.phase == Holding then TimeMetrics.Whole else
             match s.mode case Hold => TimeMetrics.Whole case Rtl => TimeMetrics.Whole case _ => TimeMetrics.Nothing)
    ensures TimeMetrics.InMission()(s) ==
            (if s.phase == Holding then TimeMetrics.Nothing else
             match s.mode case Mission => TimeMetrics.Whole case Takeoff => TimeMetrics.Whole case Land => TimeMetrics.Whole
             case _ => TimeMetrics.Nothing)
  {
  }

  /** Availability counts the time in which nothing that is observed at all is degraded or out; integrity counts degraded time half. */
  lemma HealthShares(s: Sample, components: seq<Id>, id: Id)
    ensures TimeMetrics.Available(components)(s) ==
            (if exists k :: 0 <= k < |components| && components[k] in s.health
                            && s.health[components[k]] in {Degraded, Unavailable, Failed, Recovering}
             then TimeMetrics.Nothing else TimeMetrics.Whole)
    ensures TimeMetrics.Integrity(id)(s) ==
            if id !in s.health then TimeMetrics.Whole else
            match s.health[id] case Degraded => TimeMetrics.Half case Unavailable => TimeMetrics.Nothing case Failed => TimeMetrics.Nothing
            case Recovering => TimeMetrics.Nothing case _ => TimeMetrics.Whole
  {
    var health := s.health;
    forall k | 0 <= k < |components|
      ensures Observed(health, components[k]).Unknown? || Observed(health, components[k]).IsHealthy()
              <==> !(components[k] in health && health[components[k]] in {Degraded, Unavailable, Failed, Recovering})
    {
    }
  }
}
