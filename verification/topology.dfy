/** The dependency topology and the breadth-first propagation distances computed on it. */
module Topology {
  import opened States

  datatype Domain =
    | External
    | Communications
    | Navigation
    | MissionCompute
    | FlightControl
    | Actuation
    | Power

  /** Domains whose impairment is loss of the flight-critical function. */
  const CRITICAL_DOMAINS: set<Domain> := {Domain.FlightControl, Domain.Actuation}

  datatype Component = Component(id: Id, domain: Domain, healthyState: ComponentState, critical: bool := false)

  /** `dependent` relies on `provider`: a fault of the provider may reach the dependent. */
  datatype Dependency = Dependency(provider: Id, dependent: Id, crossesTrustBoundary: bool := false)

  datatype SystemTopology = SystemTopology(components: seq<Component>, dependencies: seq<Dependency>) {
    predicate HasComponent(id: Id) {
      exists k :: 0 <= k < |components| && components[k].id == id
    }

    /** The first component carrying the id. */
    function ComponentOf(id: Id): (c: Component)
      requires HasComponent(id)
      ensures c in components && c.id == id
    {
      FirstWithId(components, id)
    }

    ghost predicate Edge(provider: Id, dependent: Id) {
      exists k :: 0 <= k < |dependencies| && dependencies[k].provider == provider && dependencies[k].dependent == dependent
    }

    function Downstream(id: Id): (r: seq<Id>)
      ensures forall x :: x in r <==> Edge(id, x)
    {
      Dependents(dependencies, id)
    }

    function Upstream(id: Id): (r: seq<Id>)
      ensures forall x :: x in r <==> Edge(x, id)
    {
      Providers(dependencies, id)
    }

    function CriticalComponentIds(): (r: set<Id>)
      ensures forall id :: id in r <==> exists k :: 0 <= k < |components| && components[k].critical && components[k].id == id
    {
      set k | 0 <= k < |components| && components[k].critical :: components[k].id
    }
  }

  function FirstWithId(components: seq<Component>, id: Id): (c: Component)
    requires exists k :: 0 <= k < |components| && components[k].id == id
    ensures c in components && c.id == id
  {
    if components[0].id == id then components[0] else FirstWithId(components[1..], id)
  }

  function Dependents(dependencies: seq<Dependency>, id: Id): (r: seq<Id>)
    ensures forall x :: x in r <==>
              exists k :: 0 <= k < |dependencies| && dependencies[k].provider == id && dependencies[k].dependent == x
  {
    if dependencies == [] then []
    else
      var rest := Dependents(dependencies[1..], id);
      assert forall k :: 0 < k < |dependencies| ==> dependencies[k] == dependencies[1..][k - 1];
      if dependencies[0].provider == id then [dependencies[0].dependent] + rest else rest
  }

  function Providers(dependencies: seq<Dependency>, id: Id): (r: seq<Id>)
    ensures forall x :: x in r <==>
              exists k :: 0 <= k < |dependencies| && dependencies[k].dependent == id && dependencies[k].provider == x
  {
    if dependencies == [] then []
    else
      var rest := Providers(dependencies[1..], id);
      assert forall k :: 0 < k < |dependencies| ==> dependencies[k] == dependencies[1..][k - 1];
      if dependencies[0].dependent == id then [dependencies[0].provider] + rest else rest
  }

  // ---- Propagation distance

  /** A route along dependencies on which every component was affected. */
  ghost predicate Route(topology: SystemTopology, affected: set<Id>, path: seq<Id>) {
    && path != []
    && (forall k :: 0 <= k < |path| ==> path[k] in affected)
    && (forall k :: 0 < k < |path| ==> topology.Edge(path[k - 1], path[k]))
  }

  ghost predicate RouteFrom(topology: SystemTopology, origins: set<Id>, affected: set<Id>, path: seq<Id>, to: Id) {
    Route(topology, affected, path) && path[0] in origins && path[|path| - 1] == to
  }

  /** Some affected route of `length` dependencies leads from an origin to `to`. */
  ghost predicate Reached(topology: SystemTopology, origins: set<Id>, affected: set<Id>, to: Id, length: int) {
    exists path :: RouteFrom(topology, origins, affected, path, to) && |path| - 1 == length
  }

  /** The documented meaning of the depth map: exactly the affected components are keys, a
      depth is the length of a shortest affected route from an origin, and -1 says that no such
      route exists. */
  ghost predicate AreDepths(topology: SystemTopology, origins: set<Id>, affected: set<Id>, depths: map<Id, int>) {
    && depths.Keys == affected
    && (forall id :: id in depths ==> depths[id] >= -1)
    && (forall id :: id in depths && depths[id] >= 0 ==> Reached(topology, origins, affected, id, depths[id]))
    && (forall id, path :: id in depths && RouteFrom(topology, origins, affected, path, id) ==>
          0 <= depths[id] <= |path| - 1)
  }

  /** `AreDepths` determines the map. */
  lemma DepthsUnique(topology: SystemTopology, origins: set<Id>, affected: set<Id>, a: map<Id, int>, b: map<Id, int>)
    requires AreDepths(topology, origins, affected, a) && AreDepths(topology, origins, affected, b)
    ensures a == b
  {
    forall id | id in affected
      ensures a[id] == b[id]
    {
      if a[id] >= 0 {
        assert Reached(topology, origins, affected, id, a[id]);
        var path :| RouteFrom(topology, origins, affected, path, id) && |path| - 1 == a[id];
        assert 0 <= b[id] <= |path| - 1;
      }
      if b[id] >= 0 {
        assert Reached(topology, origins, affected, id, b[id]);
        var path :| RouteFrom(topology, origins, affected, path, id) && |path| - 1 == b[id];
        assert 0 <= a[id] <= |path| - 1;
      }
    }
  }

  /** What the search knows between two steps. `queue` holds the discovered components whose
      dependents have not been looked at yet, in order of discovery. */
  ghost predicate Searching(topology: SystemTopology, origins: set<Id>, affected: set<Id>,
                            depths: map<Id, int>, queue: seq<(Id, int)>, floor: int)
  {
    && depths.Keys <= affected
    && (forall id :: id in origins && id in affected ==> id in depths && depths[id] == 0)
    && (forall id :: id in depths ==> depths[id] >= 0)
    && (forall id :: id in depths ==> Reached(topology, origins, affected, id, depths[id]))
    && (forall k :: 0 <= k < |queue| ==> queue[k].0 in depths && queue[k].1 == depths[queue[k].0])
    && (forall i, j :: 0 <= i < j < |queue| ==> queue[i].1 <= queue[j].1)
    && (forall k :: 0 <= k < |queue| ==> floor <= queue[k].1)
    && (forall id :: id in depths ==> depths[id] <= floor + 1)
  }

  /** Every affected dependent of `id` has been discovered, at most one level below it. */
  ghost predicate Expanded(topology: SystemTopology, affected: set<Id>, depths: map<Id, int>, id: Id)
    requires id in depths
  {
    forall x :: topology.Edge(id, x) && x in affected ==> x in depths && depths[x] <= depths[id] + 1
  }

  /** The components whose dependents are known, or still queued to be looked at. */
  ghost predicate Pending(depths: map<Id, int>, queue: seq<(Id, int)>, id: Id)
    requires id in depths
  {
    (id, depths[id]) in queue
  }

  /** Discovering `nxt` from `current` keeps what the search knows. */
  lemma Discover(topology: SystemTopology, origins: set<Id>, affected: set<Id>,
                 depths: map<Id, int>, queue: seq<(Id, int)>, current: Id, nxt: Id)
    requires current in depths && Searching(topology, origins, affected, depths, queue, depths[current])
    requires nxt in affected && nxt !in depths && topology.Edge(current, nxt)
    ensures Searching(topology, origins, affected, depths[nxt := depths[current] + 1],
                      queue + [(nxt, depths[current] + 1)], depths[current])
  {
    ReachNext(topology, origins, affected, current, nxt, depths[current]);
  }

  lemma ReachNext(topology: SystemTopology, origins: set<Id>, affected: set<Id>, current: Id, nxt: Id, length: int)
    requires Reached(topology, origins, affected, current, length)
    requires nxt in affected && topology.Edge(current, nxt)
    ensures Reached(topology, origins, affected, nxt, length + 1)
  {
    var path :| RouteFrom(topology, origins, affected, path, current) && |path| - 1 == length;
    assert RouteFrom(topology, origins, affected, path + [nxt], nxt);
  }

  /** The origins form a set, so they enter the queue in an arbitrary order. */
  method SeedQueue(topology: SystemTopology, origins: set<Id>, affected: set<Id>)
    returns (depths: map<Id, int>, queue: seq<(Id, int)>)
    ensures depths.Keys == origins * affected && forall id :: id in depths ==> depths[id] == 0
    ensures Searching(topology, origins, affected, depths, queue, 0)
    ensures forall id :: id in depths ==> Pending(depths, queue, id)
  {
    depths, queue := map[], [];
    var todo := origins;
    while todo != {}
      invariant todo <= origins
      invariant forall id :: id in depths <==> id in origins && id !in todo && id in affected
      invariant forall id :: id in depths ==> depths[id] == 0 && (id, 0) in queue
      invariant forall k :: 0 <= k < |queue| ==> queue[k].1 == 0 && queue[k].0 in depths
      decreases todo
    {
      var origin :| origin in todo;
      todo := todo - {origin};
      if origin in affected {
        depths := depths[origin := 0];
        queue := queue + [(origin, 0)];
      }
    }
    forall id | id in depths
      ensures Reached(topology, origins, affected, id, depths[id])
    {
      assert RouteFrom(topology, origins, affected, [id], id);
    }
  }

  /** Discovery only adds components, each of which joins the queue. */
  ghost predicate Grown(known: map<Id, int>, waiting: seq<(Id, int)>, depths: map<Id, int>, queue: seq<(Id, int)>) {
    && known.Keys <= depths.Keys
    && (forall id :: id in known ==> depths[id] == known[id])
    && waiting <= queue
    && (forall id :: id in depths && id !in known ==> Pending(depths, queue, id))
    && (depths.Keys == known.Keys ==> queue == waiting)
  }

  lemma Grow(known: map<Id, int>, waiting: seq<(Id, int)>, depths: map<Id, int>, queue: seq<(Id, int)>, nxt: Id, depth: int)
    requires Grown(known, waiting, depths, queue) && nxt !in depths
    ensures Grown(known, waiting, depths[nxt := depth], queue + [(nxt, depth)])
  {
    var deeper, longer := depths[nxt := depth], queue + [(nxt, depth)];
    assert longer[|queue|] == (nxt, depth);
    forall id | id in deeper && id !in known
      ensures Pending(deeper, longer, id)
    {
      if id != nxt {
        assert Pending(depths, queue, id);
      }
    }
    assert nxt in deeper.Keys && nxt !in known.Keys;
  }

  /** The inner loop: look at every dependent of the component just taken from the queue. */
  method Expand(topology: SystemTopology, origins: set<Id>, affected: set<Id>,
                current: Id, known: map<Id, int>, waiting: seq<(Id, int)>)
    returns (depths: map<Id, int>, queue: seq<(Id, int)>)
    requires current in known && Searching(topology, origins, affected, known, waiting, known[current])
    ensures Searching(topology, origins, affected, depths, queue, known[current])
    ensures Grown(known, waiting, depths, queue)
    ensures Expanded(topology, affected, depths, current)
  {
    hide Searching, Grown, SystemTopology.Edge;
    depths, queue := known, waiting;
    NotGrown(known, waiting);
    var next := topology.Downstream(current);
    for k := 0 to |next|
      invariant Grown(known, waiting, depths, queue)
      invariant Searching(topology, origins, affected, depths, queue, known[current])
      invariant forall x :: x in next[..k] && x in affected ==> x in depths
    {
      var nxt := next[k];
      assert next[..k + 1] == next[..k] + [nxt];
      if nxt in affected && nxt !in depths {
        assert nxt in next;
        GrownKeeps(known, waiting, depths, queue);
        Discover(topology, origins, affected, depths, queue, current, nxt);
        Grow(known, waiting, depths, queue, nxt, depths[current] + 1);
        depths, queue := depths[nxt := depths[current] + 1], queue + [(nxt, depths[current] + 1)];
      }
    }
    assert next[..|next|] == next;
    GrownKeeps(known, waiting, depths, queue);
    ExpandedBy(topology, origins, affected, depths, queue, current);
  }

  lemma NotGrown(known: map<Id, int>, waiting: seq<(Id, int)>)
    ensures Grown(known, waiting, known, waiting)
  {
  }

  lemma GrownKeeps(known: map<Id, int>, waiting: seq<(Id, int)>, depths: map<Id, int>, queue: seq<(Id, int)>)
    requires Grown(known, waiting, depths, queue)
    ensures known.Keys <= depths.Keys && forall id :: id in known ==> depths[id] == known[id]
  {
  }

  /** During the expansion of a component nothing lies deeper than one level below it. */
  lemma ExpandedBy(topology: SystemTopology, origins: set<Id>, affected: set<Id>, depths: map<Id, int>, queue: seq<(Id, int)>, current: Id)
    requires current in depths && Searching(topology, origins, affected, depths, queue, depths[current])
    requires forall x :: topology.Edge(current, x) && x in affected ==> x in depths
    ensures Expanded(topology, affected, depths, current)
  {
    hide Reached, SystemTopology.Edge;
  }

  /** Affected components the search never reached are independent faults. */
  method MarkUnreached(affected: set<Id>, found: map<Id, int>) returns (depths: map<Id, int>)
    requires found.Keys <= affected
    ensures depths.Keys == affected
    ensures forall id :: id in depths ==> depths[id] == if id in found then found[id] else -1
  {
    depths := found;
    var todo := affected;
    while todo != {}
      invariant todo <= affected
      invariant depths.Keys == found.Keys + (affected - todo)
      invariant forall id :: id in depths ==> depths[id] == if id in found then found[id] else -1
      decreases todo
    {
      var id :| id in todo;
      todo := todo - {id};
      if id !in depths {
        depths := depths[id := -1];
      }
    }
  }

  /** Every discovered component is still queued or fully expanded. */
  ghost predicate Explored(topology: SystemTopology, affected: set<Id>, depths: map<Id, int>, queue: seq<(Id, int)>) {
    forall id :: id in depths ==> Pending(depths, queue, id) || Expanded(topology, affected, depths, id)
  }

  /** Taking `queue[0]` and expanding it keeps `Explored`. */
  lemma ExploredStep(topology: SystemTopology, affected: set<Id>, known: map<Id, int>, waiting: seq<(Id, int)>,
                     depths: map<Id, int>, queue: seq<(Id, int)>)
    requires waiting != [] && waiting[0].0 in known && waiting[0].1 == known[waiting[0].0]
    requires Explored(topology, affected, known, waiting)
    requires Grown(known, waiting[1..], depths, queue)
    requires Expanded(topology, affected, depths, waiting[0].0)
    ensures Explored(topology, affected, depths, queue)
  {
    forall id | id in known
      ensures Pending(depths, queue, id) || Expanded(topology, affected, depths, id)
    {
      if Expanded(topology, affected, known, id) {
        assert Expanded(topology, affected, depths, id);
      } else if id != waiting[0].0 {
        assert (id, known[id]) in waiting;
        assert (id, known[id]) in waiting[1..];
      }
    }
  }

  /** With an empty queue, no route is shorter than the depth of its end, and no end is missed. */
  lemma ExploredAll(topology: SystemTopology, origins: set<Id>, affected: set<Id>, found: map<Id, int>, floor: int,
                    depths: map<Id, int>)
    requires Searching(topology, origins, affected, found, [], floor)
    requires Explored(topology, affected, found, [])
    requires depths.Keys == affected
    requires forall id :: id in depths ==> depths[id] == if id in found then found[id] else -1
    ensures AreDepths(topology, origins, affected, depths)
  {
    forall id, path | id in depths && RouteFrom(topology, origins, affected, path, id)
      ensures 0 <= depths[id] <= |path| - 1
    {
      ClosedUnderRoutes(topology, origins, affected, found, path);
    }
  }

  lemma TookOne(topology: SystemTopology, origins: set<Id>, affected: set<Id>,
                found: map<Id, int>, queue: seq<(Id, int)>, floor: int)
    requires queue != [] && Searching(topology, origins, affected, found, queue, floor)
    ensures queue[0].0 in found && found[queue[0].0] == queue[0].1
    ensures Searching(topology, origins, affected, found, queue[1..], queue[0].1)
  {
  }

  lemma WithinAffected(topology: SystemTopology, origins: set<Id>, affected: set<Id>,
                       found: map<Id, int>, queue: seq<(Id, int)>, floor: int)
    requires Searching(topology, origins, affected, found, queue, floor)
    ensures found.Keys <= affected
  {
  }

  lemma SeedExplored(topology: SystemTopology, affected: set<Id>, found: map<Id, int>, queue: seq<(Id, int)>)
    requires forall id :: id in found ==> Pending(found, queue, id)
    ensures Explored(topology, affected, found, queue)
  {
  }

  /** Breadth-first search of `propagation_depths`. */
  method PropagationDepths(topology: SystemTopology, origins: set<Id>, affected: set<Id>) returns (depths: map<Id, int>)
    ensures AreDepths(topology, origins, affected, depths)
  {
    hide Searching, Explored, Expanded, AreDepths;
    var found, queue := SeedQueue(topology, origins, affected);
    ghost var floor := 0;
    SeedExplored(topology, affected, found, queue);
    while queue != []
      invariant Searching(topology, origins, affected, found, queue, floor)
      invariant Explored(topology, affected, found, queue)
      decreases affected - found.Keys, |queue|
    {
      ghost var known, waiting := found, queue;
      var current := queue[0].0;
      TookOne(topology, origins, affected, found, queue, floor);
      WithinAffected(topology, origins, affected, found, queue, floor);
      floor := queue[0].1;
      found, queue := Expand(topology, origins, affected, current, found, queue[1..]);
      ExploredStep(topology, affected, known, waiting, found, queue);
      WithinAffected(topology, origins, affected, found, queue, floor);
    }
    WithinAffected(topology, origins, affected, found, queue, floor);
    depths := MarkUnreached(affected, found);
    ExploredAll(topology, origins, affected, found, floor, depths);
  }

  /** Once every discovered component is expanded, no route is shorter than the depth of its end. */
  lemma {:induction false} ClosedUnderRoutes(topology: SystemTopology, origins: set<Id>, affected: set<Id>,
                                             depths: map<Id, int>, path: seq<Id>)
    requires forall id :: id in origins && id in affected ==> id in depths && depths[id] == 0
    requires forall id :: id in depths ==> Expanded(topology, affected, depths, id)
    requires Route(topology, affected, path) && path[0] in origins
    ensures path[|path| - 1] in depths && depths[path[|path| - 1]] <= |path| - 1
    decreases |path|
  {
    if |path| > 1 {
      var shorter := path[..|path| - 1];
      assert topology.Edge(path[|path| - 2], path[|path| - 1]);
      ClosedUnderRoutes(topology, origins, affected, depths, shorter);
    }
  }

  // ---- The default topology

  const DEFAULT_TOPOLOGY := SystemTopology(
    [ Component(ExternalGcs, Domain.External, Nominal),
      Component(CommunicationsC2, Domain.Communications, Nominal),
      Component(CommunicationsTelemetry, Domain.Communications, Nominal),
      Component(Id.MissionCompute, Domain.MissionCompute, Operational),
      Component(MissionPlanner, Domain.MissionCompute, Operational),
      Component(MissionServices, Domain.MissionCompute, Nominal),
      Component(NetworkCompanionLink, Domain.MissionCompute, Nominal),
      Component(SecurityGateway, Domain.FlightControl, Operational),
      Component(NavigationGnss, Domain.Navigation, Nominal),
      Component(NavigationEstimator, Domain.Navigation, Nominal),
      Component(SensorsBarometer, Domain.Navigation, Nominal),
      Component(SensorsMagnetometer, Domain.Navigation, Nominal),
      Component(SensorsImu, Domain.FlightControl, Nominal, true),
      Component(FlightControlCore, Domain.FlightControl, Operational, true),
      Component(ActuationMotors, Domain.Actuation, Operational, true),
      Component(PowerBattery, Domain.Power, Nominal),
      Component(PowerBus, Domain.Power, Nominal)
    ],
    [ Dependency(ExternalGcs, CommunicationsC2),
      Dependency(CommunicationsC2, CommunicationsTelemetry),
      Dependency(CommunicationsTelemetry, Id.MissionCompute),
      Dependency(Id.MissionCompute, MissionPlanner),
      Dependency(Id.MissionCompute, MissionServices),
      Dependency(MissionPlanner, NetworkCompanionLink),
      Dependency(NetworkCompanionLink, SecurityGateway, true),
      Dependency(SecurityGateway, FlightControlCore),
      Dependency(NavigationGnss, NavigationEstimator),
      Dependency(SensorsBarometer, NavigationEstimator),
      Dependency(SensorsMagnetometer, NavigationEstimator),
      Dependency(SensorsImu, NavigationEstimator),
      Dependency(SensorsImu, FlightControlCore),
      Dependency(NavigationEstimator, FlightControlCore),
      Dependency(NavigationEstimator, MissionPlanner),
      Dependency(FlightControlCore, ActuationMotors),
      Dependency(PowerBattery, PowerBus),
      Dependency(PowerBus, ActuationMotors),
      Dependency(PowerBus, FlightControlCore),
      Dependency(PowerBus, Id.MissionCompute)
    ])

  /** The edges along which the mock vehicle lets a fault spread, by their place in the table. */
  lemma DefaultEdges()
    ensures DEFAULT_TOPOLOGY.Edge(NavigationGnss, NavigationEstimator)
    ensures DEFAULT_TOPOLOGY.Edge(SensorsBarometer, NavigationEstimator)
    ensures DEFAULT_TOPOLOGY.Edge(SensorsMagnetometer, NavigationEstimator)
    ensures DEFAULT_TOPOLOGY.Edge(SensorsImu, FlightControlCore)
    ensures DEFAULT_TOPOLOGY.Edge(ExternalGcs, CommunicationsC2)
    ensures DEFAULT_TOPOLOGY.Edge(PowerBus, Id.MissionCompute)
    ensures DEFAULT_TOPOLOGY.Edge(Id.MissionCompute, MissionPlanner)
    ensures DEFAULT_TOPOLOGY.Edge(Id.MissionCompute, MissionServices)
  {
    var d := DEFAULT_TOPOLOGY.dependencies;
    assert d[0] == Dependency(ExternalGcs, CommunicationsC2);
    assert d[3] == Dependency(Id.MissionCompute, MissionPlanner);
    assert d[4] == Dependency(Id.MissionCompute, MissionServices);
    assert d[8] == Dependency(NavigationGnss, NavigationEstimator);
    assert d[9] == Dependency(SensorsBarometer, NavigationEstimator);
    assert d[10] == Dependency(SensorsMagnetometer, NavigationEstimator);
    assert d[12] == Dependency(SensorsImu, FlightControlCore);
    assert d[19] == Dependency(PowerBus, Id.MissionCompute);
  }
}
