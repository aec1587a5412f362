/** The scenario engine as state transformers: what each step of the engine computes. The class
    `ScenarioEngine` performs these steps in place. */
module EngineModel {
  import opened Options
  import opened States
  import opened Rounding
  import opened RunLog
  import opened HeapQueue
  import opened RunStates
  import Topology

  datatype Expectation = Expectation(subsystem: Id, state: ComponentState, within: real)

  datatype ScenarioEvent = ScenarioEvent(
    id: EventId,
    at: real,
    subsystem: Id,
    effect: Effect,
    duration: Option<real>,
    parameters: map<string, real>,
    expectations: seq<Expectation>)

  /** An expectation under watch; `serial` stands for the identity of the object, and `created`
      below lists every such object in the order and state in which it was made. */
  datatype Watch = Watch(
    serial: nat,
    eventId: EventId,
    expectation: Expectation,
    deadline: real,
    requestedAt: real,
    leftHealthy: bool)

  datatype AdapterCall = InjectCall(request: InjectionRequest) | ClearCall(eventId: EventId)

  /** What the run looked like once a tick was processed: clock, component states, log length. */
  datatype Tick = Tick(t: real, states: Health, logged: nat)

  /** `applies` is the adapter: its answer to the injection requested as log entry number n. */
  datatype Config = Config(
    topology: Topology.SystemTopology,
    timeout: real,
    batchSeconds: real,
    applies: nat -> bool)

  /** `ticks` and `retired` are history: the ticks done, and the transient injections dropped without a clear. */
  datatype EngineState = EngineState(
    states: Health,
    faultOpenSince: map<Id, real>,
    active: seq<InjectionRequest>,
    clears: seq<Entry<InjectionRequest>>,
    pending: seq<ScenarioEvent>,
    calls: seq<AdapterCall>,
    expectations: seq<Watch>,
    created: seq<Watch>,
    runState: RunState,
    lifecycle: seq<RunState>,
    batch: seq<Sample>,
    batchStartedAt: Option<real>,
    telemetry: seq<seq<Sample>>,
    lastT: real,
    log: seq<RunEvent>,
    ticks: seq<Tick>,
    retired: seq<InjectionRequest>)

  /** The engine as constructed, with the scenario's events to come. */
  function Initial(events: seq<ScenarioEvent>): EngineState {
    EngineState(map[], map[], [], [], events, [], [], [], Queued, [], [], None, [], 0.0, [], [], [])
  }

  function NewEvent(log: seq<RunEvent>, t: real, kind: EventKind, subsystem: Option<Id>, before: Option<ComponentState>,
                    after: Option<ComponentState>, eventId: Option<EventId>, details: Details): RunEvent
  {
    RunEvent(|log|, Round3(t), kind, subsystem, before, after, eventId, details)
  }

  function Emit(e: EngineState, t: real, kind: EventKind, subsystem: Option<Id>, before: Option<ComponentState>,
                after: Option<ComponentState>, eventId: Option<EventId>, details: Details): (r: EngineState)
    ensures r == e.(log := r.log)
    ensures Appended(e.log, r.log, {kind}, t)
  {
    e.(log := e.log + [NewEvent(e.log, t, kind, subsystem, before, after, eventId, details)])
  }

  function SetRunState(e: EngineState, state: RunState): EngineState {
    if state == e.runState then e else e.(runState := state, lifecycle := e.lifecycle + [state])
  }

  // ---- The insertion-ordered dictionary of active injections

  /** Position of the entry with this key, or the length when there is none. */
  function Find(active: seq<InjectionRequest>, id: EventId): (k: nat)
    ensures k <= |active| && (k < |active| ==> active[k].eventId == id)
    ensures forall j :: 0 <= j < k ==> active[j].eventId != id
  {
    if active == [] || active[0].eventId == id then 0
    else
      var k := Find(active[1..], id);
      assert forall j :: 0 < j <= k ==> active[j].eventId == if j < |active| then active[1..][j - 1].eventId else id;
      1 + k
  }

  function Put(active: seq<InjectionRequest>, request: InjectionRequest): seq<InjectionRequest> {
    var k := Find(active, request.eventId);
    if k < |active| then active[k := request] else active + [request]
  }

  function Remove(active: seq<InjectionRequest>, id: EventId): seq<InjectionRequest> {
    var k := Find(active, id);
    if k < |active| then active[..k] + active[k + 1..] else active
  }

  /** Drop the transient injections on a subsystem that came back. */
  function RetireOn(active: seq<InjectionRequest>, subsystem: Id): seq<InjectionRequest> {
    if active == [] then []
    else
      var rest := RetireOn(active[1..], subsystem);
      if active[0].subsystem == subsystem && active[0].effect.IsTransient() then rest else [active[0]] + rest
  }

  /** The injections dropped that way. */
  function RetiredOn(active: seq<InjectionRequest>, subsystem: Id): seq<InjectionRequest> {
    if active == [] then []
    else
      var rest := RetiredOn(active[1..], subsystem);
      if active[0].subsystem == subsystem && active[0].effect.IsTransient() then [active[0]] + rest else rest
  }

  /** Both, one entry at a time. */
  lemma RetireFrom(active: seq<InjectionRequest>, k: nat, subsystem: Id)
    requires k < |active|
    ensures var ends := active[k].subsystem == subsystem && active[k].effect.IsTransient();
            && RetireOn(active[k..], subsystem) == (if ends then [] else [active[k]]) + RetireOn(active[k + 1..], subsystem)
            && RetiredOn(active[k..], subsystem) == (if ends then [active[k]] else []) + RetiredOn(active[k + 1..], subsystem)
  {
    assert active[k..][0] == active[k] && active[k..][1..] == active[k + 1..];
  }

  lemma NothingRetires(subsystem: Id)
    ensures RetireOn([], subsystem) == [] && RetiredOn([], subsystem) == []
  {
  }

  // ---- Scheduling

  function RequestOf(event: ScenarioEvent): InjectionRequest {
    InjectionRequest(event.id, event.subsystem, event.effect, event.duration, event.parameters)
  }

  function Watches(event: ScenarioEvent, t: real, serial: nat): seq<Watch> {
    seq(|event.expectations|, k requires 0 <= k < |event.expectations| =>
      Watch(serial + k, event.id, event.expectations[k], t + event.expectations[k].within, t, false))
  }

  const INJECTING := {InjectionRequested, InjectionApplied, InjectionRejected}

  function Inject(c: Config, e: EngineState, event: ScenarioEvent, t: real): (r: EngineState)
    ensures Appended(e.log, r.log, INJECTING, t)
  {
    var request := RequestOf(event);
    var asked := Emit(e, t, InjectionRequested, Some(event.subsystem), None, None, Some(event.id), RequestDetails(event.effect))
                 .(calls := e.calls + [InjectCall(request)]);
    if c.applies(|e.log|) then
      var put := asked.(
        active := Put(e.active, request),
        clears := if request.duration.Some? then Push(e.clears, Entry(t + request.duration.value, request)) else e.clears);
      Emit(put, t, InjectionApplied, Some(event.subsystem), None, None, Some(event.id), NoDetails)
      .(expectations := e.expectations + Watches(event, t, |e.created|), created := e.created + Watches(event, t, |e.created|))
    else
      Emit(asked, t, InjectionRejected, Some(event.subsystem), None, None, Some(event.id), NoDetails)
  }

  lemma InjectLeavesPending(c: Config, e: EngineState, event: ScenarioEvent, t: real)
    ensures Inject(c, e, event, t).pending == e.pending
  {
  }

  function InjectDue(c: Config, e: EngineState, t: real): (r: EngineState)
    ensures r == e.(pending := r.pending, active := r.active, clears := r.clears, calls := r.calls,
                    expectations := r.expectations, created := r.created, log := r.log)
    ensures Appended(e.log, r.log, INJECTING, t)
    decreases |e.pending|
  {
    if e.pending != [] && e.pending[0].at <= t then
      var step := Inject(c, e.(pending := e.pending[1..]), e.pending[0], t);
      var r := InjectDue(c, step, t);
      AppendedTwice(e.log, step.log, r.log, INJECTING, INJECTING, INJECTING, t);
      r
    else e
  }

  function Clear(e: EngineState, request: InjectionRequest, t: real, reason: ClearReason): (r: EngineState)
    ensures r == e.(active := r.active, calls := r.calls, log := r.log)
    ensures Appended(e.log, r.log, {InjectionCleared}, t)
  {
    if Find(e.active, request.eventId) == |e.active| then e
    else
      Emit(e.(active := Remove(e.active, request.eventId), calls := e.calls + [ClearCall(request.eventId)]),
           t, InjectionCleared, Some(request.subsystem), None, None, Some(request.eventId), ClearDetails(reason))
  }

  function ClearDue(e: EngineState, t: real): (r: EngineState)
    ensures r == e.(active := r.active, clears := r.clears, calls := r.calls, log := r.log)
    ensures Appended(e.log, r.log, {InjectionCleared}, t)
    decreases |e.clears|
  {
    if e.clears != [] && e.clears[0].at <= t then
      var step := Clear(e.(clears := Pop(e.clears)), e.clears[0].item, t, DurationElapsed);
      var r := ClearDue(step, t);
      AppendedTwice(e.log, step.log, r.log, {InjectionCleared}, {InjectionCleared}, {InjectionCleared}, t);
      r
    else e
  }

  const SCHEDULING := {InjectionRequested, InjectionApplied, InjectionRejected, InjectionCleared}

  function ProcessScheduled(c: Config, e: EngineState, t: real): (r: EngineState)
    ensures r == e.(pending := r.pending, active := r.active, clears := r.clears, calls := r.calls,
                    expectations := r.expectations, created := r.created, log := r.log)
    ensures Appended(e.log, r.log, SCHEDULING, t)
  {
    var injected := InjectDue(c, e, t);
    var r := ClearDue(injected, t);
    AppendedTwice(e.log, injected.log, r.log, INJECTING, {InjectionCleared}, SCHEDULING, t);
    r
  }

  /** One iteration over the snapshot of active injections at scenario end. */
  function ClearAtEnd(e: EngineState, request: InjectionRequest, t: real): (r: EngineState)
    ensures r == e.(active := r.active, calls := r.calls, log := r.log, retired := r.retired)
    ensures Appended(e.log, r.log, {InjectionCleared}, t)
  {
    if request.duration.None? && !request.effect.IsTransient() then Clear(e, request, t, ScenarioEnd)
    else if request.effect.IsTransient() then e.(active := Remove(e.active, request.eventId), retired := e.retired + [request])
    else e
  }

  function ClearEach(e: EngineState, requests: seq<InjectionRequest>, t: real): (r: EngineState)
    ensures r == e.(active := r.active, calls := r.calls, log := r.log, retired := r.retired)
    ensures Appended(e.log, r.log, {InjectionCleared}, t)
    decreases |requests|
  {
    if requests == [] then e
    else
      var step := ClearAtEnd(e, requests[0], t);
      var r := ClearEach(step, requests[1..], t);
      AppendedTwice(e.log, step.log, r.log, {InjectionCleared}, {InjectionCleared}, {InjectionCleared}, t);
      r
  }

  function ClearAll(e: EngineState, t: real): EngineState {
    ClearEach(e, e.active, t).(clears := [])
  }

  // ---- Observations

  /** The first active injection on the subsystem itself, else the first on one of its providers. */
  function AttributeCause(topology: Topology.SystemTopology, active: seq<InjectionRequest>, subsystem: Id): (r: Option<EventId>)
  {
    match FirstOn(active, {subsystem})
    case Some(id) => Some(id)
    case None => FirstOn(active, set x | x in topology.Upstream(subsystem))
  }

  function FirstOn(active: seq<InjectionRequest>, subsystems: set<Id>): (r: Option<EventId>)
    ensures r.None? <==> forall k :: 0 <= k < |active| ==> active[k].subsystem !in subsystems
    ensures r.Some? ==> exists k :: 0 <= k < |active| && active[k].eventId == r.value && active[k].subsystem in subsystems
                                    && forall j :: 0 <= j < k ==> active[j].subsystem !in subsystems
  {
    if active == [] then None
    else if active[0].subsystem in subsystems then Some(active[0].eventId)
    else
      var r := FirstOn(active[1..], subsystems);
      assert forall k :: 0 < k < |active| ==> active[k] == active[1..][k - 1];
      r
  }

  /** The search, one entry at a time. */
  lemma FirstFrom(active: seq<InjectionRequest>, k: nat, subsystems: set<Id>)
    requires k < |active|
    ensures FirstOn(active[k..], subsystems)
         == if active[k].subsystem in subsystems then Some(active[k].eventId) else FirstOn(active[k + 1..], subsystems)
  {
    assert active[k..][0] == active[k] && active[k..][1..] == active[k + 1..];
  }

  lemma FirstOfNone(subsystems: set<Id>)
    ensures FirstOn([], subsystems) == None
  {
  }

  function CauseOf(c: Config, e: EngineState, change: StateChange): Option<EventId> {
    if change.causedBy.Some? && change.causedBy.value != "" then change.causedBy
    else AttributeCause(c.topology, e.active, change.subsystem)
  }

  predicate IsDirect(active: seq<InjectionRequest>, cause: Option<EventId>, subsystem: Id) {
    && cause.Some?
    && var k := Find(active, cause.value);
       k < |active| && active[k].subsystem == subsystem
  }

  const CHANGES := {ObservedEffect, Recovery, LogEntry}

  function FaultDuration(open: map<Id, real>, subsystem: Id, t: real): Option<real> {
    if subsystem in open then Some(Round3(t - open[subsystem])) else None
  }

  /** How a change is classified: a return to health, an impairment, or a relabelling. */
  function KindOf(before: ComponentState, after: ComponentState): EventKind {
    if after.IsHealthy() && !before.IsHealthy() then Recovery
    else if !after.IsHealthy() then ObservedEffect
    else LogEntry
  }

  /** A fault opens when a healthy or never observed component turns unhealthy, and closes on the
      return to health. */
  function NextFaults(open: map<Id, real>, s: Id, before: ComponentState, after: ComponentState, t: real): map<Id, real> {
    match KindOf(before, after)
    case Recovery => open - {s}
    case ObservedEffect => if (before.IsHealthy() || before.Unknown?) && s !in open then open[s := t] else open
    case _ => open
  }

  function ChangeEvent(log: seq<RunEvent>, t: real, s: Id, before: ComponentState, after: ComponentState,
                       cause: Option<EventId>, direct: bool, open: map<Id, real>): RunEvent
  {
    var kind := KindOf(before, after);
    NewEvent(log, t, kind, Some(s), Some(before), Some(after), if kind == LogEntry then None else cause,
             if kind == Recovery then RecoveryDetails(direct, FaultDuration(open, s, t)) else ChangeDetails(direct))
  }

  /** A change recorded: the state, the fault, the transients it retires, and its entry in the log. */
  function Changed(e: EngineState, t: real, s: Id, before: ComponentState, after: ComponentState, cause: Option<EventId>,
                   direct: bool): EngineState
  {
    e.(states := e.states[s := after],
       faultOpenSince := NextFaults(e.faultOpenSince, s, before, after, t),
       active := if KindOf(before, after) == Recovery then RetireOn(e.active, s) else e.active,
       retired := if KindOf(before, after) == Recovery then e.retired + RetiredOn(e.active, s) else e.retired,
       log := e.log + [ChangeEvent(e.log, t, s, before, after, cause, direct, e.faultOpenSince)])
  }

  /** Recording a change, field by field. */
  lemma IsChanged(e: EngineState, r: EngineState, t: real, s: Id, before: ComponentState, after: ComponentState, cause: Option<EventId>,
                  direct: bool)
    requires r == e.(states := r.states, faultOpenSince := r.faultOpenSince, active := r.active, retired := r.retired, log := r.log)
    requires r.states == e.states[s := after] && r.faultOpenSince == NextFaults(e.faultOpenSince, s, before, after, t)
    requires r.active == if KindOf(before, after) == Recovery then RetireOn(e.active, s) else e.active
    requires r.retired == if KindOf(before, after) == Recovery then e.retired + RetiredOn(e.active, s) else e.retired
    requires r.log == e.log + [ChangeEvent(e.log, t, s, before, after, cause, direct, e.faultOpenSince)]
    ensures r == Changed(e, t, s, before, after, cause, direct)
  {
    hide NextFaults, RetireOn, RetiredOn, ChangeEvent, KindOf;
  }

  function ApplyChange(c: Config, e: EngineState, change: StateChange, t: real): (r: EngineState)
    ensures r == e.(states := r.states, faultOpenSince := r.faultOpenSince, active := r.active, retired := r.retired, log := r.log)
    ensures Appended(e.log, r.log, CHANGES, t)
  {
    var s := change.subsystem;
    var before, after := Observed(e.states, s), change.after;
    if before == after then e
    else
      var cause := CauseOf(c, e, change);
      Changed(e, t, s, before, after, cause, IsDirect(e.active, cause, s))
  }

  function ApplyChanges(c: Config, e: EngineState, changes: seq<StateChange>, t: real): (r: EngineState)
    ensures r == e.(states := r.states, faultOpenSince := r.faultOpenSince, active := r.active, retired := r.retired, log := r.log)
    ensures Appended(e.log, r.log, CHANGES, t)
    decreases |changes|
  {
    if changes == [] then e
    else
      var step := ApplyChange(c, e, changes[0], t);
      var r := ApplyChanges(c, step, changes[1..], t);
      AppendedTwice(e.log, step.log, r.log, CHANGES, CHANGES, CHANGES, t);
      r
  }

  function Respond(e: EngineState, responses: seq<Response>, t: real): (r: EngineState)
    ensures r == e.(log := r.log)
    ensures Appended(e.log, r.log, {SystemResponded}, t)
    decreases |responses|
  {
    if responses == [] then e
    else
      var step := Emit(e, t, SystemResponded, responses[0].subsystem, None, None, None, ResponseDetails(responses[0].safeState));
      var r := Respond(step, responses[1..], t);
      AppendedTwice(e.log, step.log, r.log, {SystemResponded}, {SystemResponded}, {SystemResponded}, t);
      r
  }

  function Progress(e: EngineState, events: seq<MissionEvent>, t: real): (r: EngineState)
    ensures r == e.(log := r.log)
    ensures Appended(e.log, r.log, {MissionProgress}, t)
    decreases |events|
  {
    if events == [] then e
    else
      var step := Emit(e, t, MissionProgress, None, None, None, None, NoDetails);
      var r := Progress(step, events[1..], t);
      AppendedTwice(e.log, step.log, r.log, {MissionProgress}, {MissionProgress}, {MissionProgress}, t);
      r
  }

  predicate AnyRecovering(states: Health) {
    exists id :: id in states && states[id].Recovering?
  }

  function FollowRecovery(e: EngineState): (r: EngineState)
    ensures r == e.(runState := r.runState, lifecycle := r.lifecycle)
  {
    if AnyRecovering(e.states) && e.runState == Running then SetRunState(e, RecoveringRun)
    else if !AnyRecovering(e.states) && e.runState == RecoveringRun then SetRunState(e, Running)
    else e
  }

  function ProcessObservation(c: Config, e: EngineState, o: Observation): (r: EngineState)
    ensures r == e.(states := r.states, faultOpenSince := r.faultOpenSince, active := r.active, retired := r.retired,
                    runState := r.runState, lifecycle := r.lifecycle, log := r.log)
  {
    var t := o.sample.t;
    FollowRecovery(Progress(Respond(ApplyChanges(c, e, o.changes, t), o.responses, t), o.missionEvents, t))
  }

  // ---- Expectations

  /** The verdict when the expectation is decided, and whether the component was seen unhealthy. */
  function Status(p: Watch, observed: ComponentState, t: real): (Option<bool>, bool) {
    var expired := t > p.deadline;
    var wanted := p.expectation.state;
    if wanted.Recovered? then
      if !observed.IsHealthy() then (if expired then Some(false) else None, true)
      else if p.leftHealthy then (Some(true), true)
      else (if expired then Some(false) else None, false)
    else if wanted.IsHealthy() then
      if !observed.IsHealthy() then (Some(false), p.leftHealthy)
      else (if expired then Some(true) else None, p.leftHealthy)
    else if observed == wanted then (Some(true), p.leftHealthy)
    else (if expired then Some(false) else None, p.leftHealthy)
  }

  datatype Verdict = Undecided(leftHealthy: bool) | Decided(passed: bool)

  /** The judgement of an expectation as it stands on the watch list. */
  function JudgeNow(p: Watch, states: Health, t: real): Verdict {
    if t <= p.requestedAt then Undecided(p.leftHealthy)
    else
      var (verdict, left) := Status(p, Observed(states, p.expectation.subsystem), t);
      if verdict.Some? then Decided(verdict.value) else Undecided(left)
  }

  function EmitVerdict(e: EngineState, p: Watch, t: real, passed: bool): EngineState {
    Emit(e, t, ExpectationResult, Some(p.expectation.subsystem), None, Some(Observed(e.states, p.expectation.subsystem)),
         Some(p.eventId), VerdictDetails(p.serial, passed, Round3(t - p.requestedAt)))
  }

  /** Judge `todo` in order; undecided expectations collect in `kept`. */
  function JudgeEach(e: EngineState, todo: seq<Watch>, kept: seq<Watch>, t: real): (r: EngineState)
    ensures r == e.(expectations := r.expectations, log := r.log)
    ensures Appended(e.log, r.log, {ExpectationResult}, t)
    decreases |todo|
  {
    if todo == [] then e.(expectations := kept)
    else
      var p := todo[0];
      match JudgeNow(p, e.states, t)
      case Undecided(left) => JudgeEach(e, todo[1..], kept + [p.(leftHealthy := left)], t)
      case Decided(passed) =>
        var step := EmitVerdict(e, p, t, passed);
        var r := JudgeEach(step, todo[1..], kept, t);
        AppendedTwice(e.log, step.log, r.log, {ExpectationResult}, {ExpectationResult}, {ExpectationResult}, t);
        r
  }

  function ProcessExpectations(e: EngineState, t: real): EngineState {
    JudgeEach(e, e.expectations, [], t)
  }

  /** The instant the flush evaluates at: past the deadline for every non-negative time. */
  function FlushTime(p: Watch, t: real): real {
    t + (if p.deadline > t then p.deadline else t) + 1.0
  }

  function FlushEach(e: EngineState, todo: seq<Watch>, t: real): (r: EngineState)
    ensures r == e.(log := r.log)
    ensures Appended(e.log, r.log, {ExpectationResult}, t)
    decreases |todo|
  {
    if todo == [] then e
    else
      var p := todo[0];
      var (verdict, left) := Status(p, Observed(e.states, p.expectation.subsystem), FlushTime(p, t));
      var step := EmitVerdict(e, p, t, verdict == Some(true));
      var r := FlushEach(step, todo[1..], t);
      AppendedTwice(e.log, step.log, r.log, {ExpectationResult}, {ExpectationResult}, {ExpectationResult}, t);
      r
  }

  function FlushExpectations(e: EngineState, t: real): EngineState {
    FlushEach(e, e.expectations, t).(expectations := [])
  }

  // ---- Telemetry batches

  function FlushBatch(e: EngineState): EngineState {
    if e.batch == [] then e else e.(batch := [], batchStartedAt := None, telemetry := e.telemetry + [e.batch])
  }

  function BufferSample(c: Config, e: EngineState, sample: Sample): (r: EngineState)
    ensures r == e.(batch := r.batch, batchStartedAt := r.batchStartedAt, telemetry := r.telemetry)
  {
    var started := if e.batchStartedAt.None? then sample.t else e.batchStartedAt.value;
    var buffered := e.(batchStartedAt := Some(started), batch := e.batch + [sample]);
    if sample.t - started >= c.batchSeconds || |buffered.batch| >= 200 then FlushBatch(buffered) else buffered
  }

  // ---- The main loop

  /** One observation processed without cancellation. */
  function ProcessTick(c: Config, e: EngineState, o: Observation): (r: EngineState)
    ensures r.pending == ProcessScheduled(c, e.(lastT := o.sample.t), o.sample.t).pending
    ensures |r.ticks| == |e.ticks| + 1 && r.ticks[..|e.ticks|] == e.ticks && r.lastT == o.sample.t
  {
    var t := o.sample.t;
    var scheduled := ProcessScheduled(c, e.(lastT := t), t);
    var observed := ProcessObservation(c, scheduled, o);
    var judged := ProcessExpectations(observed, t);
    BufferSample(c, judged, o.sample).(ticks := e.ticks + [Tick(t, observed.states, |judged.log|)])
  }

  /** What the adapter delivers before an iteration, and whether a cancel request is pending. */
  datatype Input = Input(observation: Observation, cancelled: bool)

  /** How the loop over observations was left. */
  datatype Exit = Exhausted | CancelRequested | Finished | TimedOut

  function Loop(c: Config, e: EngineState, feed: seq<Input>): (r: (EngineState, Exit))
    decreases |feed|
  {
    if feed == [] then (e, Exhausted)
    else
      var o := feed[0].observation;
      var t := o.sample.t;
      if feed[0].cancelled then
        (Emit(e.(lastT := t), t, LifecycleEvent, None, None, None, None, NoDetails), CancelRequested)
      else
        var next := ProcessTick(c, e, o);
        if o.finished then (Emit(next, t, MissionProgress, None, None, None, None, NoDetails), Finished)
        else if t >= c.timeout then (Emit(next, t, MissionProgress, None, None, None, None, NoDetails), TimedOut)
        else Loop(c, next, feed[1..])
  }

  /** After the loop: decide what is left, clear what is still active, hand over the last batch. */
  function Conclude(e: EngineState): EngineState {
    FlushBatch(ClearAll(FlushExpectations(e, e.lastT), e.lastT))
  }

  /** What happened before the first observation. */
  datatype Setup = Unsupported | PrepareCancelled | PrepareFailed | Prepared(states: Health)

  function StartRun(events: seq<ScenarioEvent>, states: Health): EngineState {
    Emit(SetRunState(SetRunState(Initial(events), Preparing).(states := states), Running),
         0.0, MissionProgress, None, None, None, None, NoDetails)
  }

  /** The closing steps. `raises` says that the adapter failed after delivering the whole feed. */
  function Close(looped: EngineState, exit: Exit, raises: bool): (EngineState, RunState) {
    if exit == Exhausted && raises then
      (SetRunState(FlushBatch(Emit(looped, looped.lastT, LifecycleEvent, None, None, None, None, NoDetails)), Collecting), FailedRun)
    else
      (SetRunState(Conclude(looped), Collecting), if exit == CancelRequested then Cancelled else Collecting)
  }

  /** A run whose target never became ready. */
  function Abandon(events: seq<ScenarioEvent>, setup: Setup): (EngineState, RunState)
    requires !setup.Prepared?
  {
    var kind := if setup.Unsupported? then InjectionRejected else LifecycleEvent;
    (SetRunState(Emit(SetRunState(Initial(events), Preparing), 0.0, kind, None, None, None, None, NoDetails), Collecting),
     if setup.PrepareCancelled? then Cancelled else FailedRun)
  }

  /** A whole run: preparation, the loop over `feed`, and the closing steps. */
  function Run(c: Config, events: seq<ScenarioEvent>, setup: Setup, feed: seq<Input>, raises: bool): (EngineState, RunState) {
    if setup.Prepared? then
      var (looped, exit) := Loop(c, StartRun(events, setup.states), feed);
      Close(looped, exit, raises)
    else Abandon(events, setup)
  }

  /** Observation times never decrease and start no earlier than `from`. */
  ghost predicate TimesFrom(feed: seq<Input>, from: real) {
    && (forall k :: 0 <= k < |feed| ==> from <= feed[k].observation.sample.t)
    && (forall j, k :: 0 <= j < k < |feed| ==> feed[j].observation.sample.t <= feed[k].observation.sample.t)
  }

  lemma TimesAfter(feed: seq<Input>, from: real)
    requires feed != [] && TimesFrom(feed, from)
    ensures from <= feed[0].observation.sample.t
    ensures TimesFrom(feed[1..], feed[0].observation.sample.t)
  {
  }
}
