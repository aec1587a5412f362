/** State vocabularies of the platform: component states, system modes, run states, and the
    aggregation of a component health map into one system mode. */
module Options {
  datatype Option<+T> = None | Some(value: T)
}

module States {
  /** Subsystem identifiers: the seventeen components of the default multirotor topology, and
      any other name an adapter or a custom topology may report. */
  datatype Id =
    | ExternalGcs
    | CommunicationsC2
    | CommunicationsTelemetry
    | MissionCompute
    | MissionPlanner
    | MissionServices
    | NetworkCompanionLink
    | SecurityGateway
    | NavigationGnss
    | NavigationEstimator
    | SensorsBarometer
    | SensorsMagnetometer
    | SensorsImu
    | FlightControlCore
    | ActuationMotors
    | PowerBattery
    | PowerBus
    | Other(name: string)

  datatype ComponentState =
    | Nominal
    | Operational
    | Degraded
    | Unavailable
    | Failed
    | Recovering
    | Recovered
    | Unknown
  {
    predicate IsHealthy() { Nominal? || Operational? || Recovered? }
    predicate IsImpaired() { Degraded? }
    predicate IsDown() { Unavailable? || Failed? || Recovering? }
  }

  type Health = map<Id, ComponentState>

  /** The state reported for a component, Unknown when it was never observed. */
  function Observed(health: Health, id: Id): ComponentState {
    if id in health then health[id] else Unknown
  }

  datatype SystemMode = ModeNominal | ModeDegraded | ModeFailed

  /** A component has failed, or a flight-critical component is down. */
  ghost predicate AnyFailed(health: Health, critical: set<Id>) {
    exists id :: id in health && (health[id].Failed? || (health[id].IsDown() && id in critical))
  }

  ghost predicate AnyImpaired(health: Health) {
    exists id :: id in health && (health[id].IsImpaired() || health[id].IsDown())
  }

  /** The documented meaning of the aggregated mode, free of any iteration order. */
  ghost function ModeOf(health: Health, critical: set<Id>): SystemMode {
    if AnyFailed(health, critical) then ModeFailed
    else if AnyImpaired(health) then ModeDegraded
    else ModeNominal
  }

  /** The loop with early returns of `aggregate_system_mode`. A dictionary is visited in an
      arbitrary order, so the contract also says that the order does not matter. */
  method AggregateSystemMode(health: Health, critical: set<Id>) returns (mode: SystemMode)
    ensures mode == ModeOf(health, critical)
  {
    mode := ModeNominal;
    var todo := health.Keys;
    while todo != {}
      invariant todo <= health.Keys
      invariant forall id :: id in health && id !in todo ==>
                  !health[id].Failed? && !(health[id].IsDown() && id in critical)
      invariant mode == ModeNominal || mode == ModeDegraded
      invariant mode == ModeDegraded <==>
                exists id :: id in health && id !in todo && (health[id].IsImpaired() || health[id].IsDown())
      decreases todo
    {
      ghost var before := todo;
      var id :| id in todo;
      todo := todo - {id};
      var state := health[id];
      if state.Failed? {
        return ModeFailed;
      }
      if state.IsDown() && id in critical {
        return ModeFailed;
      }
      if state.IsImpaired() || state.IsDown() {
        mode := ModeDegraded;
      }
    }
  }

  /** A nominal mode means that whatever is observed is healthy. */
  lemma NominalMeansObservedHealthy(health: Health, critical: set<Id>)
    ensures ModeOf(health, critical) == ModeNominal <==>
            forall id :: id in health ==> health[id].IsHealthy() || health[id].Unknown?
  {
    if ModeOf(health, critical) == ModeNominal {
      forall id | id in health
        ensures health[id].IsHealthy() || health[id].Unknown?
      {
        assert !(health[id].IsImpaired() || health[id].IsDown());
      }
    }
  }

  datatype FlightMode = Idle | Takeoff | Mission | Hold | Rtl | Land | Landed | ModeUnknown

  datatype MissionPhase =
    | Pending
    | TakingOff
    | Enroute
    | Holding
    | Returning
    | Landing
    | Complete
    | Aborted
}
