/** Time-weighted metrics: integration of component states, domain availability, navigation
    integrity and system modes over consecutive samples, before rounding. */
module TimeMetrics {
  import opened Options
  import opened States
  import opened RunLog
  import Sorting

  function Step(current: Sample, next: Sample): real {
    if next.t > current.t then next.t - current.t else 0.0
  }

  /** How much of the time until the next sample counts. */
  datatype Share = Nothing | Half | Whole

  function Part(share: Share, dt: real): real {
    match share
    case Nothing => 0.0
    case Half => 0.5 * dt
    case Whole => dt
  }

  /** The time between consecutive samples, each step weighted by its first sample. */
  function Integral(samples: seq<Sample>, weight: Sample -> Share): real {
    if |samples| < 2 then 0.0
    else
      var n := |samples|;
      Integral(samples[..n - 1], weight) + Part(weight(samples[n - 2]), Step(samples[n - 2], samples[n - 1]))
  }

  ghost predicate InTimeOrder(samples: seq<Sample>) {
    forall i, j :: 0 <= i < j < |samples| ==> samples[i].t <= samples[j].t
  }

  /** Time from the first sample to the last. */
  function Span(samples: seq<Sample>): real {
    if |samples| < 2 then 0.0 else samples[|samples| - 1].t - samples[0].t
  }

  // ---- The weights of the individual metrics

  function InState(id: Id, state: ComponentState): Sample -> Share {
    (s: Sample) => if id in s.health && s.health[id] == state then Whole else Nothing
  }

  /** Every component of the list that is observed at all is healthy. */
  predicate ObservedHealthy(health: Health, components: seq<Id>) {
    forall k :: 0 <= k < |components| ==> Observed(health, components[k]).Unknown? || Observed(health, components[k]).IsHealthy()
  }

  function Available(components: seq<Id>): Sample -> Share {
    (s: Sample) => if ObservedHealthy(s.health, components) then Whole else Nothing
  }

  function Integrity(id: Id): Sample -> Share {
    (s: Sample) =>
      var state := Observed(s.health, id);
      if state.IsHealthy() || state.Unknown? then Whole else if state.IsImpaired() then Half else Nothing
  }

  ghost function InMode(mode: SystemMode, critical: set<Id>): Sample -> Share {
    (s: Sample) => if ModeOf(s.health, critical) == mode then Whole else Nothing
  }

  predicate Holds(s: Sample) {
    s.mode == Hold || s.mode == Rtl || s.phase == Holding
  }

  predicate Flies(s: Sample) {
    !Holds(s) && (s.mode == Mission || s.mode == Takeoff || s.mode == Land)
  }

  function InHold(): Sample -> Share {
    (s: Sample) => if Holds(s) then Whole else Nothing
  }

  function InMission(): Sample -> Share {
    (s: Sample) => if Flies(s) then Whole else Nothing
  }

  // ---- The loops

  /** Time spent in every state by every component: one table, filled step by step. */
  method TimeInState(samples: seq<Sample>) returns (table: map<(Id, ComponentState), real>)
    ensures forall id, state :: (if (id, state) in table then table[(id, state)] else 0.0) == Integral(samples, InState(id, state))
  {
    table := map[];
    if samples == [] {
      return;
    }
    for k := 1 to |samples|
      invariant forall id, state :: (if (id, state) in table then table[(id, state)] else 0.0) == Integral(samples[..k], InState(id, state))
    {
      var current, next := samples[k - 1], samples[k];
      var dt := Step(current, next);
      assert samples[..k + 1][..k] == samples[..k];
      ghost var before := table;
      var todo := current.health.Keys;
      while todo != {}
        invariant todo <= current.health.Keys
        invariant forall id, state :: (if (id, state) in table then table[(id, state)] else 0.0)
                                   == (if (id, state) in before then before[(id, state)] else 0.0)
                                      + (if id in current.health && id !in todo && current.health[id] == state then dt else 0.0)
        decreases todo
      {
        var id :| id in todo;
        todo := todo - {id};
        var key := (id, current.health[id]);
        table := table[key := (if key in table then table[key] else 0.0) + dt];
      }
    }
    assert samples[..|samples|] == samples;
  }

  /** The ratio before rounding; 1.0 when there is nothing to measure. */
  method DomainAvailability(samples: seq<Sample>, components: seq<Id>, total: real) returns (ratio: real)
    ensures ratio == AvailabilityOf(samples, components, total)
  {
    if total <= 0.0 || samples == [] || components == [] {
      return 1.0;
    }
    var healthy := 0.0;
    for k := 1 to |samples|
      invariant healthy == Integral(samples[..k], Available(components))
    {
      var current, next := samples[k - 1], samples[k];
      assert samples[..k + 1][..k] == samples[..k];
      var all := true;
      for j := 0 to |components|
        invariant all <==> forall i :: 0 <= i < j ==> Observed(current.health, components[i]).Unknown? || Observed(current.health, components[i]).IsHealthy()
      {
        var state := Observed(current.health, components[j]);
        if state != Unknown && !state.IsHealthy() {
          all := false;
        }
      }
      if all {
        healthy := healthy + Step(current, next);
      }
    }
    assert samples[..|samples|] == samples;
    ratio := if healthy / total < 1.0 then healthy / total else 1.0;
  }

  function AvailabilityOf(samples: seq<Sample>, components: seq<Id>, total: real): real {
    if total <= 0.0 || samples == [] || components == [] then 1.0
    else
      var ratio := Integral(samples, Available(components)) / total;
      if ratio < 1.0 then ratio else 1.0
  }

  method WeightedIntegrity(samples: seq<Sample>, id: Id, total: real) returns (ratio: real)
    ensures ratio == IntegrityOf(samples, id, total)
  {
    if total <= 0.0 || samples == [] {
      return 1.0;
    }
    var score := 0.0;
    for k := 1 to |samples|
      invariant score == Integral(samples[..k], Integrity(id))
    {
      var dt := Step(samples[k - 1], samples[k]);
      assert samples[..k + 1][..k] == samples[..k];
      var state := Observed(samples[k - 1].health, id);
      if state.IsHealthy() || state == Unknown {
        score := score + dt;
      } else if state.IsImpaired() {
        score := score + 0.5 * dt;
      }
    }
    assert samples[..|samples|] == samples;
    ratio := if score / total < 1.0 then score / total else 1.0;
  }

  function IntegrityOf(samples: seq<Sample>, id: Id, total: real): real {
    if total <= 0.0 || samples == [] then 1.0
    else
      var ratio := Integral(samples, Integrity(id)) / total;
      if ratio < 1.0 then ratio else 1.0
  }

  /** Both ratios lie between nothing and one; with nothing to measure they are one, and otherwise the time as a share of the total,
      cut off at one. */
  lemma RatiosMean(samples: seq<Sample>, components: seq<Id>, id: Id, total: real)
    ensures var nothing := total <= 0.0 || samples == [];
            && (nothing || components == [] ==> AvailabilityOf(samples, components, total) == 1.0)
            && (nothing ==> IntegrityOf(samples, id, total) == 1.0)
            && (!nothing && components != [] ==> IsShare(AvailabilityOf(samples, components, total), Integral(samples, Available(components)), total))
            && (!nothing ==> IsShare(IntegrityOf(samples, id, total), Integral(samples, Integrity(id)), total))
  {
    hide Integral;
    if total > 0.0 {
      ShareOf(Integral(samples, Available(components)), total);
      ShareOf(Integral(samples, Integrity(id)), total);
    }
  }

  /** The share of `part` in `total`, at most one. */
  predicate IsShare(ratio: real, part: real, total: real) {
    if part >= total then ratio == 1.0 else ratio * total == part
  }

  lemma ShareOf(part: real, total: real)
    requires total > 0.0
    ensures part / total * total == part && (part / total < 1.0 <==> part < total)
  {
  }

  method ModeTimes(samples: seq<Sample>, critical: set<Id>) returns (nominal: real, degraded: real, failed: real)
    ensures nominal == Integral(samples, InMode(ModeNominal, critical))
    ensures degraded == Integral(samples, InMode(ModeDegraded, critical))
    ensures failed == Integral(samples, InMode(ModeFailed, critical))
  {
    nominal, degraded, failed := 0.0, 0.0, 0.0;
    if samples == [] {
      return;
    }
    for k := 1 to |samples|
      invariant nominal == Integral(samples[..k], InMode(ModeNominal, critical))
      invariant degraded == Integral(samples[..k], InMode(ModeDegraded, critical))
      invariant failed == Integral(samples[..k], InMode(ModeFailed, critical))
    {
      var dt := Step(samples[k - 1], samples[k]);
      assert samples[..k + 1][..k] == samples[..k];
      var mode := AggregateSystemMode(samples[k - 1].health, critical);
      match mode {
        case ModeNominal => nominal := nominal + dt;
        case ModeDegraded => degraded := degraded + dt;
        case ModeFailed => failed := failed + dt;
      }
    }
    assert samples[..|samples|] == samples;
  }

  method MissionTimes(samples: seq<Sample>) returns (held: real, flown: real)
    ensures held == Integral(samples, InHold()) && flown == Integral(samples, InMission())
  {
    held, flown := 0.0, 0.0;
    if samples == [] {
      return;
    }
    for k := 1 to |samples|
      invariant held == Integral(samples[..k], InHold()) && flown == Integral(samples[..k], InMission())
    {
      var current := samples[k - 1];
      var dt := Step(current, samples[k]);
      assert samples[..k + 1][..k] == samples[..k];
      if current.mode == Hold || current.mode == Rtl || current.phase == Holding {
        held := held + dt;
      } else if current.mode == Mission || current.mode == Takeoff || current.mode == Land {
        flown := flown + dt;
      }
    }
    assert samples[..|samples|] == samples;
  }

  // ---- Conservation

  predicate AtMost(a: Share, b: Share) {
    a == b || a == Nothing || b == Whole
  }

  lemma {:induction false} IntegralMonotone(samples: seq<Sample>, a: Sample -> Share, b: Sample -> Share)
    requires forall s :: AtMost(a(s), b(s))
    ensures 0.0 <= Integral(samples, a) <= Integral(samples, b)
  {
    if |samples| >= 2 {
      IntegralMonotone(samples[..|samples| - 1], a, b);
      assert AtMost(a(samples[|samples| - 2]), b(samples[|samples| - 2]));
    }
  }

  /** Where exactly one of three weights counts in full, the three integrals make up the span. */
  lemma {:induction false} IntegralPartition(samples: seq<Sample>, a: Sample -> Share, b: Sample -> Share, c: Sample -> Share)
    requires InTimeOrder(samples)
    requires forall s :: (a(s), b(s), c(s)) in {(Whole, Nothing, Nothing), (Nothing, Whole, Nothing), (Nothing, Nothing, Whole)}
    ensures Integral(samples, a) + Integral(samples, b) + Integral(samples, c) == Span(samples)
  {
    if |samples| >= 2 {
      var n := |samples|;
      IntegralPartition(samples[..n - 1], a, b, c);
      var s := samples[n - 2];
      assert (a(s), b(s), c(s)) in {(Whole, Nothing, Nothing), (Nothing, Whole, Nothing), (Nothing, Nothing, Whole)};
    }
  }

  lemma IntegralWithinSpan(samples: seq<Sample>, a: Sample -> Share)
    requires InTimeOrder(samples)
    ensures 0.0 <= Integral(samples, a) <= Span(samples)
  {
    var always, never := (s: Sample) => Whole, (s: Sample) => Nothing;
    IntegralPartition(samples, always, never, never);
    IntegralMonotone(samples, a, always);
    IntegralMonotone(samples, never, never);
    IntegralNever(samples, never);
  }

  lemma {:induction false} IntegralNever(samples: seq<Sample>, never: Sample -> Share)
    requires forall s :: never(s) == Nothing
    ensures Integral(samples, never) == 0.0
  {
    if |samples| >= 2 {
      IntegralNever(samples[..|samples| - 1], never);
    }
  }

  /** The length of the run the metrics use: the sampled span, or the last event time when the
      samples span nothing. */
  function RunTotal(samples: seq<Sample>, events: seq<RunEvent>): real {
    if Span(samples) <= 0.0 && events != [] then LastTime(events) else Span(samples)
  }

  function LastTime(events: seq<RunEvent>): (r: real)
    requires events != []
    ensures forall k :: 0 <= k < |events| ==> events[k].time <= r
    ensures exists k :: 0 <= k < |events| && events[k].time == r
  {
    var n := |events|;
    if n == 1 then events[0].time
    else
      var rest := LastTime(events[..n - 1]);
      assert exists k :: 0 <= k < n - 1 && events[k].time == rest;
      if events[n - 1].time > rest then events[n - 1].time else rest
  }

  /** Main result. Nominal, degraded and failed time add up to the sampled span; that sum is the
      reported duration exactly when the samples span some time or no event carries a positive time. */
  lemma ModesFillRun(samples: seq<Sample>, events: seq<RunEvent>, critical: set<Id>)
    requires InTimeOrder(samples) && forall k :: 0 <= k < |events| ==> events[k].time >= 0.0
    ensures var sum := Integral(samples, InMode(ModeNominal, critical)) + Integral(samples, InMode(ModeDegraded, critical))
                       + Integral(samples, InMode(ModeFailed, critical));
            sum == Span(samples)
            && (sum == RunTotal(samples, events) <==> Span(samples) > 0.0 || forall k :: 0 <= k < |events| ==> events[k].time == 0.0)
  {
    IntegralPartition(samples, InMode(ModeNominal, critical), InMode(ModeDegraded, critical), InMode(ModeFailed, critical));
    IntegralWithinSpan(samples, InMode(ModeNominal, critical));
    if events != [] {
      var k :| 0 <= k < |events| && events[k].time == LastTime(events);
    }
  }

  /** In nominal time everything observed is healthy, so no domain was available for less. */
  lemma NominalWithinAvailable(samples: seq<Sample>, components: seq<Id>, critical: set<Id>)
    ensures Integral(samples, InMode(ModeNominal, critical)) <= Integral(samples, Available(components))
  {
    forall s: Sample
      ensures AtMost(InMode(ModeNominal, critical)(s), Available(components)(s))
    {
      NominalMeansObservedHealthy(s.health, critical);
    }
    IntegralMonotone(samples, InMode(ModeNominal, critical), Available(components));
  }

  /** The integrity score is the available time plus half the degraded time of the component. */
  lemma {:induction false} IntegritySplits(samples: seq<Sample>, id: Id)
    ensures Integral(samples, Integrity(id)) == Integral(samples, Available([id])) + 0.5 * Integral(samples, InState(id, Degraded))
  {
    if |samples| >= 2 {
      var n := |samples|;
      IntegritySplits(samples[..n - 1], id);
      var s := samples[n - 2];
      assert ObservedHealthy(s.health, [id]) <==> Observed(s.health, id).Unknown? || Observed(s.health, id).IsHealthy() by {
        assert [id][0] == id;
      }
    }
  }

  /** With time-ordered samples no clamp ever acts: every ratio of a domain is the exact quotient,
      lies in [0, 1], and the three documented relations hold as equalities of times. */
  lemma RatiosAreExact(samples: seq<Sample>, components: seq<Id>, id: Id, critical: set<Id>)
    requires InTimeOrder(samples) && Span(samples) > 0.0 && components != []
    ensures var total := Span(samples);
            && AvailabilityOf(samples, components, total) * total == Integral(samples, Available(components))
            && IntegrityOf(samples, id, total) * total == Integral(samples, Integrity(id))
            && IntegrityOf(samples, id, total) * total
               == AvailabilityOf(samples, [id], total) * total + 0.5 * Integral(samples, InState(id, Degraded))
            && Integral(samples, InMode(ModeNominal, critical)) <= AvailabilityOf(samples, components, total) * total
            && 0.0 <= AvailabilityOf(samples, components, total) <= 1.0
            && 0.0 <= IntegrityOf(samples, id, total) <= 1.0
  {
    hide Integral, Available, Integrity, InMode, InState, InTimeOrder;
    var total := Span(samples);
    IntegralWithinSpan(samples, Available(components));
    IntegralWithinSpan(samples, Available([id]));
    IntegralWithinSpan(samples, Integrity(id));
    ClampIsIdle(Integral(samples, Available(components)), total);
    ClampIsIdle(Integral(samples, Available([id])), total);
    ClampIsIdle(Integral(samples, Integrity(id)), total);
    IntegritySplits(samples, id);
    NominalWithinAvailable(samples, components, critical);
  }

  /** A part of the total is never clamped. */
  lemma ClampIsIdle(part: real, total: real)
    requires 0.0 <= part <= total && total > 0.0
    ensures var ratio := part / total;
            0.0 <= ratio <= 1.0 && (if ratio < 1.0 then ratio else 1.0) == ratio && ratio * total == part
  {
    var ratio := part / total;
    assert ratio * total == part;
  }

  /** Hold time and mission time never overlap, so the continuity 1 - held / total lies in [0, 1]
      without its clamps. */
  lemma {:induction false} HoldAndMissionAreDisjoint(samples: seq<Sample>)
    requires InTimeOrder(samples)
    ensures 0.0 <= Integral(samples, InHold()) && 0.0 <= Integral(samples, InMission())
    ensures Integral(samples, InHold()) + Integral(samples, InMission()) <= Span(samples)
  {
    if |samples| >= 2 {
      HoldAndMissionAreDisjoint(samples[..|samples| - 1]);
    }
  }

  /** The analysis sorts the samples by time first. */
  lemma SortedByTime(samples: seq<Sample>)
    ensures InTimeOrder(Sorting.Sort(samples, (s: Sample) => (s.t, 0)))
    ensures InTimeOrder(samples) ==> Sorting.Sort(samples, (s: Sample) => (s.t, 0)) == samples
  {
    var key := (s: Sample) => (s.t, 0);
    Sorting.SortSorts(samples, key);
    if InTimeOrder(samples) {
      assert Sorting.Sorted(samples, key);
      Sorting.SortOfSorted(samples, key);
    }
  }
}
