/** Which injection the engine blames for a change, and how the change is classified, stated on the active injections and
    the dependencies. */
module EngineAttribution {
  import opened Options
  import opened States
  import opened RunLog
  import opened EngineModel
  import opened EngineClock
  import opened EnginePairing
  import opened EngineLedger
  import opened HeapQueue
  import T = Topology

  // ---- The cause

  /** The first active injection on the component itself. */
  ghost predicate FirstDirect(active: seq<InjectionRequest>, s: Id, k: nat) {
    k < |active| && active[k].subsystem == s && forall j :: 0 <= j < k ==> active[j].subsystem != s
  }

  /** Some dependency makes `s` rely on the component. */
  ghost predicate Provides(topology: T.SystemTopology, provider: Id, s: Id) {
    exists d :: 0 <= d < |topology.dependencies| && topology.dependencies[d].provider == provider && topology.dependencies[d].dependent == s
  }

  /** The first active injection on a component that `s` relies on. */
  ghost predicate FirstOnProvider(topology: T.SystemTopology, active: seq<InjectionRequest>, s: Id, k: nat) {
    && k < |active| && Provides(topology, active[k].subsystem, s)
    && forall j :: 0 <= j < k ==> !Provides(topology, active[j].subsystem, s)
  }

  /** The blame goes to the first active injection on the component itself whenever there is one, else to the first one on a
      component it relies on, and to none exactly when there is neither. */
  lemma CauseIsNearest(topology: T.SystemTopology, active: seq<InjectionRequest>, s: Id)
    ensures var cause := AttributeCause(topology, active, s);
            && (forall k: nat :: FirstDirect(active, s, k) ==> cause == Some(active[k].eventId))
            && ((forall k :: 0 <= k < |active| ==> active[k].subsystem != s) ==>
                  forall k: nat :: FirstOnProvider(topology, active, s, k) ==> cause == Some(active[k].eventId))
            && (cause.None? <==> forall k :: 0 <= k < |active| ==>
                  active[k].subsystem != s && !Provides(topology, active[k].subsystem, s))
  {
    hide FirstOn;
    var upstream := set x | x in topology.Upstream(s);
    forall x
      ensures x in upstream <==> Provides(topology, x, s)
    {
      assert x in topology.Upstream(s) <==> topology.Edge(x, s);
    }
    FirstOnIs(active, {s});
    FirstOnIs(active, upstream);
  }

  lemma FirstOnIs(active: seq<InjectionRequest>, subsystems: set<Id>)
    ensures forall k: nat ::
              (k < |active| && active[k].subsystem in subsystems && forall j :: 0 <= j < k ==> active[j].subsystem !in subsystems)
              ==> FirstOn(active, subsystems) == Some(active[k].eventId)
    ensures FirstOn(active, subsystems).None? <==> forall k :: 0 <= k < |active| ==> active[k].subsystem !in subsystems
  {
    var r := FirstOn(active, subsystems);
    forall k: nat | k < |active| && active[k].subsystem in subsystems && (forall j :: 0 <= j < k ==> active[j].subsystem !in subsystems)
      ensures r == Some(active[k].eventId)
    {
      var m :| 0 <= m < |active| && active[m].eventId == r.value && active[m].subsystem in subsystems
               && forall j :: 0 <= j < m ==> active[j].subsystem !in subsystems;
      assert m == k;
    }
  }

  // ---- The entry

  /** The target did not say what caused the change. */
  predicate Unexplained(change: StateChange) {
    change.causedBy.None? || change.causedBy.value == ""
  }

  /** One change makes one entry: a recovery when an unhealthy (or never observed) component becomes healthy, an effect
      when it is not healthy afterwards, a log line when it only changes between healthy states. The cause is the one the
      target names, else the one attributed; log lines name none. It is direct when the blamed injection is active on the
      component. */
  lemma ChangeIsLogged(c: Config, e: EngineState, change: StateChange, t: real)
    requires Observed(e.states, change.subsystem) != change.after
    ensures var r := ApplyChange(c, e, change, t);
            var before, after, s := Observed(e.states, change.subsystem), change.after, change.subsystem;
            var healthy := {Nominal, Operational, Recovered};
            var cause := if Unexplained(change) then AttributeCause(c.topology, e.active, s) else change.causedBy;
            && |r.log| == |e.log| + 1 && r.log[..|e.log|] == e.log && r.states == e.states[s := after]
            && var entry := r.log[|e.log|];
               && entry.subsystem == Some(s) && entry.stateBefore == Some(before) && entry.stateAfter == Some(after)
               && (entry.kind == Recovery <==> after in healthy && before !in healthy)
               && (entry.kind == ObservedEffect <==> after !in healthy)
               && (entry.kind == LogEntry <==> after in healthy && before in healthy)
               && entry.scenarioEventId == (if entry.kind == LogEntry then None else cause)
               && (Distinct(e.active) && entry.kind != LogEntry ==>
                     (IsMarkedDirect(entry) <==> exists k :: 0 <= k < |e.active| && cause == Some(e.active[k].eventId) && e.active[k].subsystem == s))
  {
    hide AttributeCause, RetireOn, RetiredOn, NextFaults, FaultDuration;
    var s := change.subsystem;
    var cause := CauseOf(c, e, change);
    if Distinct(e.active) {
      DirectIsActive(e.active, cause, s);
    }
    hide Distinct, IsDirect, CauseOf;
    assert ApplyChange(c, e, change, t).log[..|e.log|] == e.log;
    assert cause == if Unexplained(change) then AttributeCause(c.topology, e.active, s) else change.causedBy by { CauseIs(c, e, change); }
  }

  lemma CauseIs(c: Config, e: EngineState, change: StateChange)
    ensures CauseOf(c, e, change) == if Unexplained(change) then AttributeCause(c.topology, e.active, change.subsystem) else change.causedBy
  {
  }

  predicate IsMarkedDirect(entry: RunEvent) {
    match entry.details
    case ChangeDetails(direct) => direct
    case RecoveryDetails(direct, _) => direct
    case _ => false
  }

  lemma DirectIsActive(active: seq<InjectionRequest>, cause: Option<EventId>, s: Id)
    requires Distinct(active)
    ensures IsDirect(active, cause, s) <==> exists k :: 0 <= k < |active| && cause == Some(active[k].eventId) && active[k].subsystem == s
  {
    if k :| 0 <= k < |active| && cause == Some(active[k].eventId) && active[k].subsystem == s {
      assert Find(active, cause.value) == k;
    }
  }

  /** An unexplained change of a component with an active injection on it is blamed on that injection, and direct. */
  lemma DirectIsNamed(c: Config, e: EngineState, change: StateChange, t: real, k: nat)
    requires Distinct(e.active) && Unexplained(change) && Observed(e.states, change.subsystem) != change.after
    requires FirstDirect(e.active, change.subsystem, k)
    ensures var r := ApplyChange(c, e, change, t);
            |r.log| == |e.log| + 1
            && var entry := r.log[|e.log|];
               entry.kind != LogEntry ==> entry.scenarioEventId == Some(e.active[k].eventId) && IsMarkedDirect(entry)
  {
    hide ApplyChange, AttributeCause, Distinct;
    ChangeIsLogged(c, e, change, t);
    CauseIsNearest(c.topology, e.active, change.subsystem);
  }

  /** Without one it is blamed on an injection of a provider, if any, and not direct. */
  lemma PropagatedIsNamed(c: Config, e: EngineState, change: StateChange, t: real)
    requires Distinct(e.active) && Unexplained(change) && Observed(e.states, change.subsystem) != change.after
    requires forall k :: 0 <= k < |e.active| ==> e.active[k].subsystem != change.subsystem
    ensures var r := ApplyChange(c, e, change, t);
            |r.log| == |e.log| + 1
            && var entry := r.log[|e.log|];
               entry.kind != LogEntry ==>
                 && !IsMarkedDirect(entry)
                 && (forall k: nat :: FirstOnProvider(c.topology, e.active, change.subsystem, k) ==>
                       entry.scenarioEventId == Some(e.active[k].eventId))
                 && (entry.scenarioEventId.None? <==>
                       forall k :: 0 <= k < |e.active| ==> !Provides(c.topology, e.active[k].subsystem, change.subsystem))
  {
    hide ApplyChange, AttributeCause, Distinct, Provides;
    ChangeIsLogged(c, e, change, t);
    CauseIsNearest(c.topology, e.active, change.subsystem);
  }

  // ---- On the way of a run

  lemma {:induction false} AfterKeepsLedger(c: Config, e: EngineState, feed: seq<Input>, k: nat)
    requires LedgerSettled(e) && k <= |feed|
    ensures LedgerSettled(After(c, e, feed, k))
    decreases k
  {
    hide LedgerSettled, ProcessTick;
    if k > 0 {
      AfterKeepsLedger(c, e, feed, k - 1);
      TickKeepsLedger(c, After(c, e, feed, k - 1), feed[k - 1].observation);
    }
  }

  /** In the middle of every observation of every run with unique ids the active injections have distinct ids, so the two
      lemmas above speak of every change a run logs. */
  lemma WithinIsDistinct(c: Config, events: seq<ScenarioEvent>, states: Health, feed: seq<Input>, k: nat, j: nat)
    requires UniqueInOrder(events) && k < |feed| && j <= |feed[k].observation.changes|
    ensures Distinct(Within(c, StartRun(events, states), feed, k, j).active)
  {
    hide LedgerSettled, LedgerHolds, StartRun, After, ProcessScheduled, ApplyChanges, InSchedule;
    var start := StartRun(events, states);
    var before, o := After(c, start, feed, k), feed[k].observation;
    StartLedger(events, states);
    AfterKeepsLedger(c, start, feed, k);
    NextKeepsLedger(before, o.sample.t);
    var late := before.(lastT := o.sample.t);
    SettledParts(late);
    NothingDueIsLeft(c, late);
    ChangesKeepLedger(c, ProcessScheduled(c, late, o.sample.t), o.changes[..j]);
    LedgerIsDistinct(Within(c, start, feed, k, j));
  }

  lemma SettledParts(e: EngineState)
    requires LedgerSettled(e)
    ensures LedgerHolds(e) && InSchedule(e.pending)
  {
    hide LedgerHolds, InSchedule;
  }

  lemma LedgerIsDistinct(e: EngineState)
    requires LedgerHolds(e)
    ensures Distinct(e.active)
  {
    hide Fresh, IsHeap, Scheduled, AccountOf, TicksWithin;
  }

  /** Run level: when, in the middle of any observation, the next change is unexplained and an injection is active on its
      component, the entry of that change names that injection and is direct. */
  lemma RunNamesDirect(c: Config, events: seq<ScenarioEvent>, states: Health, feed: seq<Input>, k: nat, j: nat, n: nat)
    requires UniqueInOrder(events) && k < |feed| && j < |feed[k].observation.changes|
    requires var e, change := Within(c, StartRun(events, states), feed, k, j), feed[k].observation.changes[j];
             Unexplained(change) && Observed(e.states, change.subsystem) != change.after && FirstDirect(e.active, change.subsystem, n)
    ensures var e, next := Within(c, StartRun(events, states), feed, k, j), Within(c, StartRun(events, states), feed, k, j + 1);
            && |next.log| == |e.log| + 1
            && var entry := next.log[|e.log|];
               entry.kind != LogEntry ==> entry.scenarioEventId == Some(e.active[n].eventId) && IsMarkedDirect(entry)
  {
    hide StartRun, After, ProcessScheduled, ApplyChange, Distinct, FirstDirect;
    var changes, t := feed[k].observation.changes, feed[k].observation.sample.t;
    WithinIsDistinct(c, events, states, feed, k, j);
    var e := Within(c, StartRun(events, states), feed, k, j);
    DirectIsNamed(c, e, changes[j], t, n);
    var scheduled := ProcessScheduled(c, After(c, StartRun(events, states), feed, k).(lastT := t), t);
    ApplyInTwo(c, scheduled, changes[..j + 1], j, t);
    assert changes[..j + 1][..j] == changes[..j] && changes[..j + 1][j..] == [changes[j]];
    assert ApplyChanges(c, e, [changes[j]], t) == ApplyChange(c, e, changes[j], t) by { OneByOne(c, e, changes[j], t); }
  }

  lemma OneByOne(c: Config, e: EngineState, change: StateChange, t: real)
    ensures ApplyChanges(c, e, [change], t) == ApplyChange(c, e, change, t)
  {
    hide ApplyChange;
    assert [change][1..] == [];
  }
}
