/** Propagation, containment and safety metrics read from the event log and the samples. */
module Containment {
  import opened Options
  import opened States
  import opened RunLog
  import T = Topology

  predicate Applies(e: RunEvent) {
    e.kind == InjectionApplied && e.subsystem.Some?
  }

  /** A positively observed impairment; losing sight of a component does not count. */
  predicate Impairs(e: RunEvent) {
    e.kind == ObservedEffect && e.subsystem.Some? && e.stateAfter.Some?
    && !e.stateAfter.value.IsHealthy() && !e.stateAfter.value.Unknown?
  }

  function Injected(events: seq<RunEvent>): set<Id> {
    set k | 0 <= k < |events| && Applies(events[k]) :: events[k].subsystem.value
  }

  function Affected(events: seq<RunEvent>): set<Id> {
    set k | 0 <= k < |events| && Impairs(events[k]) :: events[k].subsystem.value
  }

  /** Injected is what an applied injection names; affected is what was seen degraded or out. */
  lemma SetsOfLog(events: seq<RunEvent>, id: Id)
    ensures id in Injected(events) <==> exists k :: 0 <= k < |events| && events[k].kind == InjectionApplied && events[k].subsystem == Some(id)
    ensures id in Affected(events) <==> exists k :: 0 <= k < |events| && events[k].kind == ObservedEffect && events[k].subsystem == Some(id)
                                                    && events[k].stateAfter in {Some(Degraded), Some(Unavailable), Some(Failed), Some(Recovering)}
  {
    if k :| 0 <= k < |events| && events[k].kind == InjectionApplied && events[k].subsystem == Some(id) {
      assert Applies(events[k]);
    }
    if k :| 0 <= k < |events| && events[k].kind == ObservedEffect && events[k].subsystem == Some(id)
            && events[k].stateAfter in {Some(Degraded), Some(Unavailable), Some(Failed), Some(Recovering)} {
      assert Impairs(events[k]);
    }
  }

  function DomainsOf(topology: T.SystemTopology, ids: set<Id>): set<T.Domain> {
    set id | id in ids && topology.HasComponent(id) :: topology.ComponentOf(id).domain
  }

  /** The domains of a set of components are those of the topology's components with these ids; ids it does not have count for none. */
  lemma DomainsMean(topology: T.SystemTopology, ids: set<Id>, domain: T.Domain)
    requires forall j, k :: 0 <= j < k < |topology.components| ==> topology.components[j].id != topology.components[k].id
    ensures domain in DomainsOf(topology, ids) <==>
            exists k :: 0 <= k < |topology.components| && topology.components[k].id in ids && topology.components[k].domain == domain
  {
    if k :| 0 <= k < |topology.components| && topology.components[k].id in ids && topology.components[k].domain == domain {
      var id := topology.components[k].id;
      assert topology.HasComponent(id) && topology.ComponentOf(id) == topology.components[k];
    }
  }

  datatype Propagation = Propagation(
    injected: set<Id>,
    affected: set<Id>,
    propagated: set<Id>,
    affectedDomains: set<T.Domain>,
    injectedDomains: set<T.Domain>,
    propagatedDomains: set<T.Domain>,
    depths: map<Id, int>,
    maxDepth: int,
    contained: bool,
    boundaryCrossed: bool)

  /** The largest non-negative depth, 0 when nothing has one. */
  ghost predicate IsMaxDepth(depths: map<Id, int>, m: int) {
    && (forall id :: id in depths ==> depths[id] <= m)
    && m >= 0
    && (m > 0 ==> exists id :: id in depths && depths[id] == m)
  }

  method MaxDepth(depths: map<Id, int>) returns (m: int)
    ensures IsMaxDepth(depths, m)
  {
    m := 0;
    var todo := depths.Keys;
    while todo != {}
      invariant todo <= depths.Keys && m >= 0
      invariant forall id :: id in depths && id !in todo ==> depths[id] <= m
      invariant m > 0 ==> exists id :: id in depths && depths[id] == m
      decreases todo
    {
      var id :| id in todo;
      todo := todo - {id};
      if depths[id] > m {
        m := depths[id];
      }
    }
  }

  /** The propagation part of the metrics. */
  method PropagationMetrics(topology: T.SystemTopology, events: seq<RunEvent>) returns (p: Propagation)
    ensures p.injected == Injected(events) && p.affected == Affected(events) && p.propagated == p.affected - p.injected
    ensures p.affectedDomains == DomainsOf(topology, p.affected) && p.injectedDomains == DomainsOf(topology, p.injected)
    ensures p.propagatedDomains == p.affectedDomains - p.injectedDomains
    ensures T.AreDepths(topology, p.injected, p.affected, p.depths) && IsMaxDepth(p.depths, p.maxDepth)
    ensures p.contained <==> forall id :: id in p.affected && topology.HasComponent(id) ==>
                                   topology.ComponentOf(id).domain !in T.CRITICAL_DOMAINS
    ensures p.boundaryCrossed <==> exists k :: 0 <= k < |topology.dependencies| && topology.dependencies[k].crossesTrustBoundary
                                         && topology.dependencies[k].provider in p.affected && topology.dependencies[k].dependent in p.affected
  {
    var injected, affected: set<Id> := {}, {};
    for k := 0 to |events|
      invariant injected == Injected(events[..k]) && affected == Affected(events[..k])
    {
      assert events[..k + 1] == events[..k] + [events[k]];
      if Applies(events[k]) {
        injected := injected + {events[k].subsystem.value};
      }
      if Impairs(events[k]) {
        affected := affected + {events[k].subsystem.value};
      }
      CollectOne(events[..k], events[k]);
    }
    assert events[..|events|] == events;
    var depths := T.PropagationDepths(topology, injected, affected);
    var deepest := MaxDepth(depths);
    var crossed := false;
    for k := 0 to |topology.dependencies|
      invariant crossed <==> exists j :: 0 <= j < k && topology.dependencies[j].crossesTrustBoundary
                                   && topology.dependencies[j].provider in affected && topology.dependencies[j].dependent in affected
    {
      var d := topology.dependencies[k];
      if d.crossesTrustBoundary && d.provider in affected && d.dependent in affected {
        crossed := true;
      }
    }
    var affectedDomains, injectedDomains := DomainsOf(topology, affected), DomainsOf(topology, injected);
    var critical := exists d :: d in affectedDomains && d in T.CRITICAL_DOMAINS;
    p := Propagation(injected, affected, affected - injected, affectedDomains, injectedDomains, affectedDomains - injectedDomains,
                     depths, deepest, !critical, crossed);
    assert forall id :: id in affected && topology.HasComponent(id) ==> topology.ComponentOf(id).domain in affectedDomains;
  }

  lemma CollectOne(events: seq<RunEvent>, e: RunEvent)
    ensures Injected(events + [e]) == Injected(events) + if Applies(e) then {e.subsystem.value} else {}
    ensures Affected(events + [e]) == Affected(events) + if Impairs(e) then {e.subsystem.value} else {}
  {
    var more := events + [e];
    assert more[|events|] == e;
    forall id | id in Injected(events)
      ensures id in Injected(more)
    {
      var k :| 0 <= k < |events| && Applies(events[k]) && events[k].subsystem.value == id;
      assert more[k] == events[k];
    }
    forall id | id in Affected(events)
      ensures id in Affected(more)
    {
      var k :| 0 <= k < |events| && Impairs(events[k]) && events[k].subsystem.value == id;
      assert more[k] == events[k];
    }
  }

  // ---- Safety

  /** The flight core observed failed, or control authority lost while armed in a known mode. */
  predicate LosesControl(s: Sample) {
    || (FlightControlCore in s.health && s.health[FlightControlCore].Failed?)
    || (!s.controlAuthority && s.armed && s.mode != ModeUnknown)
  }

  predicate LossOfControl(samples: seq<Sample>) {
    exists k :: 0 <= k < |samples| && LosesControl(samples[k])
  }

  /** Control is lost exactly when some sample shows the flight core failed, or an armed vehicle in a known mode without authority. */
  lemma LossMeans(samples: seq<Sample>)
    ensures LossOfControl(samples) <==>
            exists k :: 0 <= k < |samples| && (|| (FlightControlCore in samples[k].health && samples[k].health[FlightControlCore] == Failed)
                                               || (samples[k].armed && !samples[k].controlAuthority && samples[k].mode != ModeUnknown))
  {
    if k :| 0 <= k < |samples| && (|| (FlightControlCore in samples[k].health && samples[k].health[FlightControlCore] == Failed)
                                   || (samples[k].armed && !samples[k].controlAuthority && samples[k].mode != ModeUnknown)) {
      assert LosesControl(samples[k]);
    }
  }

  /** Events of other kinds leave both sets alone. */
  lemma {:induction false} CollectIgnores(before: seq<RunEvent>, after: seq<RunEvent>, kinds: set<EventKind>, t: real)
    requires Appended(before, after, kinds, t)
    ensures InjectionApplied !in kinds ==> Injected(after) == Injected(before)
    ensures ObservedEffect !in kinds ==> Affected(after) == Affected(before)
    decreases |after|
  {
    if |after| > |before| {
      var shorter := after[..|after| - 1];
      assert after == shorter + [after[|after| - 1]];
      CollectIgnores(before, shorter, kinds, t);
      CollectOne(shorter, after[|after| - 1]);
    } else {
      assert after == before;
    }
  }
}
