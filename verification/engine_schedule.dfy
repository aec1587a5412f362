/** Why an injection was requested, applied or cleared: what the entries of a log about injections say, and that the calls to the
    adapter are exactly those the log reports. */
module EngineSchedule {
  import opened Options
  import opened States
  import opened Rounding
  import opened RunLog
  import opened HeapQueue
  import opened EngineModel

  // ---- One entry

  /** The scenario asks for this injection. */
  ghost predicate Asked(events: seq<ScenarioEvent>, k: nat, e: RunEvent) {
    k < |events| && e.scenarioEventId == Some(events[k].id) && e.subsystem == Some(events[k].subsystem)
  }

  /** An injection is requested for an event of the scenario that is due, never before. */
  ghost predicate RequestedInTime(events: seq<ScenarioEvent>, log: seq<RunEvent>, j: nat)
    requires j < |log|
  {
    exists k: nat :: Asked(events, k, log[j]) && log[j].details == RequestDetails(events[k].effect) && log[j].time >= Round3(events[k].at)
  }

  /** The entry answers the request just before it. */
  ghost predicate Answers(log: seq<RunEvent>, j: nat)
    requires j < |log|
  {
    && j > 0 && log[j - 1].kind == InjectionRequested && log[j - 1].scenarioEventId == log[j].scenarioEventId
    && log[j - 1].subsystem == log[j].subsystem && log[j - 1].time == log[j].time
  }

  /** Applied in entry `i`, at an observation at `t`. */
  ghost predicate AppliedThen(log: seq<RunEvent>, i: nat, id: EventId, t: real) {
    i < |log| && log[i].kind == InjectionApplied && log[i].scenarioEventId == Some(id) && log[i].time == Round3(t)
  }

  /** The duration had passed since the observation at which the injection was applied. */
  ghost predicate DurationPassed(event: ScenarioEvent, log: seq<RunEvent>, j: nat)
    requires j < |log|
  {
    event.duration.Some? && exists i: nat, t: real :: i < j && AppliedThen(log, i, event.id, t) && log[j].time >= Round3(t + event.duration.value)
  }

  /** A clear has one of two reasons: a duration that has passed, or the end of the run for an injection that neither has a
      duration nor ends on its own. */
  ghost predicate ClearedRightly(events: seq<ScenarioEvent>, log: seq<RunEvent>, j: nat)
    requires j < |log|
  {
    exists k: nat ::
      && Asked(events, k, log[j])
      && (|| (log[j].details == ClearDetails(DurationElapsed) && DurationPassed(events[k], log, j))
          || (log[j].details == ClearDetails(ScenarioEnd) && events[k].duration.None? && events[k].effect !in {Restart, Crash}))
  }

  /** What an entry about an injection says. */
  ghost predicate Justified(c: Config, events: seq<ScenarioEvent>, log: seq<RunEvent>, j: nat)
    requires j < |log|
  {
    match log[j].kind
    case InjectionRequested => RequestedInTime(events, log, j)
    case InjectionApplied => Answers(log, j) && c.applies(j - 1)
    case InjectionRejected => Answers(log, j) && !c.applies(j - 1)
    case InjectionCleared => ClearedRightly(events, log, j)
    case _ => true
  }

  ghost predicate AllJustified(c: Config, events: seq<ScenarioEvent>, log: seq<RunEvent>) {
    forall j :: 0 <= j < |log| ==> Justified(c, events, log, j)
  }

  /** An entry keeps its meaning while the log grows. */
  lemma JustifiedStays(c: Config, events: seq<ScenarioEvent>, log: seq<RunEvent>, more: seq<RunEvent>, j: nat)
    requires log <= more && j < |log| && Justified(c, events, log, j)
    ensures Justified(c, events, more, j)
  {
    assert more[j] == log[j] && (j > 0 ==> more[j - 1] == log[j - 1]);
    if log[j].kind == InjectionCleared {
      var k: nat :| && Asked(events, k, log[j])
                    && (|| (log[j].details == ClearDetails(DurationElapsed) && DurationPassed(events[k], log, j))
                        || (log[j].details == ClearDetails(ScenarioEnd) && events[k].duration.None? && events[k].effect !in {Restart, Crash}));
      if log[j].details == ClearDetails(DurationElapsed) {
        var i: nat, t: real :| i < j && AppliedThen(log, i, events[k].id, t) && log[j].time >= Round3(t + events[k].duration.value);
        assert more[i] == log[i];
        assert AppliedThen(more, i, events[k].id, t);
      }
    }
  }

  // ---- The calls

  /** The log as calls to the adapter: a request injects, a clear clears. */
  function CallsOf(log: seq<RunEvent>): seq<(bool, Option<EventId>)> {
    if log == [] then []
    else
      var last := log[|log| - 1];
      CallsOf(log[..|log| - 1])
      + (if last.kind == InjectionRequested then [(true, last.scenarioEventId)]
         else if last.kind == InjectionCleared then [(false, last.scenarioEventId)] else [])
  }

  /** The calls themselves. */
  function Named(calls: seq<AdapterCall>): seq<(bool, Option<EventId>)> {
    seq(|calls|, k requires 0 <= k < |calls| =>
      match calls[k] case InjectCall(request) => (true, Some(request.eventId)) case ClearCall(id) => (false, Some(id)))
  }

  lemma CallsAppend(log: seq<RunEvent>, e: RunEvent)
    ensures CallsOf(log + [e]) == CallsOf(log) + (if e.kind == InjectionRequested then [(true, e.scenarioEventId)]
                                                  else if e.kind == InjectionCleared then [(false, e.scenarioEventId)] else [])
  {
    assert (log + [e])[..|log|] == log;
  }

  lemma {:induction false} CallsIgnore(log: seq<RunEvent>, more: seq<RunEvent>, kinds: set<EventKind>, t: real)
    requires Appended(log, more, kinds, t) && InjectionRequested !in kinds && InjectionCleared !in kinds
    ensures CallsOf(more) == CallsOf(log)
    decreases |more|
  {
    if |more| > |log| {
      CallsIgnore(log, more[..|more| - 1], kinds, t);
    } else {
      assert more == log;
    }
  }

  // ---- What is asked, and what is answered

  /** The ids requested, in order. */
  function Requests(log: seq<RunEvent>): seq<Option<EventId>> {
    if log == [] then []
    else
      var last := log[|log| - 1];
      Requests(log[..|log| - 1]) + if last.kind == InjectionRequested then [last.scenarioEventId] else []
  }

  lemma RequestsAppend(log: seq<RunEvent>, e: RunEvent)
    ensures Requests(log + [e]) == Requests(log) + if e.kind == InjectionRequested then [e.scenarioEventId] else []
  {
    assert (log + [e])[..|log|] == log;
  }

  lemma {:induction false} RequestsIgnore(log: seq<RunEvent>, more: seq<RunEvent>, kinds: set<EventKind>, t: real)
    requires Appended(log, more, kinds, t) && InjectionRequested !in kinds
    ensures Requests(more) == Requests(log)
    decreases |more|
  {
    if |more| > |log| {
      RequestsIgnore(log, more[..|more| - 1], kinds, t);
    } else {
      assert more == log;
    }
  }

  /** The requests so far are those of the events that are no longer pending, each once and in order. */
  ghost predicate UpTo(events: seq<ScenarioEvent>, pending: seq<ScenarioEvent>, log: seq<RunEvent>) {
    && |pending| <= |events| && pending == events[|events| - |pending|..]
    && Requests(log) == seq(|events| - |pending|, k requires 0 <= k < |events| - |pending| => Some(events[k].id))
  }

  /** Every request is answered in the next entry. */
  ghost predicate Answered(log: seq<RunEvent>) {
    forall j :: 0 <= j < |log| && log[j].kind == InjectionRequested ==> AnsweredNext(log, j)
  }

  ghost predicate AnsweredNext(log: seq<RunEvent>, j: nat) {
    j + 1 < |log| && (log[j + 1].kind == InjectionApplied || log[j + 1].kind == InjectionRejected)
  }

  lemma AnsweredStays(log: seq<RunEvent>, more: seq<RunEvent>)
    requires Answered(log) && log <= more && forall j :: |log| <= j < |more| && more[j].kind == InjectionRequested ==> AnsweredNext(more, j)
    ensures Answered(more)
  {
    forall j | 0 <= j < |log| && log[j].kind == InjectionRequested
      ensures AnsweredNext(more, j)
    {
      assert AnsweredNext(log, j);
    }
  }

  lemma NextRequested(events: seq<ScenarioEvent>, pending: seq<ScenarioEvent>, log: seq<RunEvent>, more: seq<RunEvent>)
    requires UpTo(events, pending, log) && pending != []
    requires Requests(more) == Requests(log) + [Some(pending[0].id)]
    ensures UpTo(events, pending[1..], more) && pending[0] in events
  {
    var n := |events| - |pending|;
    assert pending[0] == events[n];
  }

  // ---- The invariant

  /** A scheduled clear belongs to an event of the scenario and is due its duration after its application. */
  ghost predicate Timely(events: seq<ScenarioEvent>, log: seq<RunEvent>, h: Entry<InjectionRequest>) {
    && h.item.duration.Some? && Stated(events, h.item)
    && AppliedOnce(log, h.item.eventId, h.at - h.item.duration.value)
  }

  ghost predicate AppliedOnce(log: seq<RunEvent>, id: EventId, t: real) {
    exists i: nat :: AppliedThen(log, i, id, t)
  }

  ghost predicate Stated(events: seq<ScenarioEvent>, request: InjectionRequest) {
    exists k :: 0 <= k < |events| && request == RequestOf(events[k])
  }

  ghost predicate Recorded(c: Config, events: seq<ScenarioEvent>, e: EngineState) {
    && AllJustified(c, events, e.log)
    && (forall h :: h in e.clears ==> Timely(events, e.log, h))
    && (forall x :: x in e.active ==> Stated(events, x))
    && CallsOf(e.log) == Named(e.calls)
    && Answered(e.log) && UpTo(events, e.pending, e.log)
  }

  /** Steps that log nothing about injections. */
  lemma QuietIsRecorded(c: Config, events: seq<ScenarioEvent>, e: EngineState, r: EngineState, kinds: set<EventKind>, t: real)
    requires Recorded(c, events, e) && Appended(e.log, r.log, kinds, t) && kinds !! SCHEDULING
    requires r.clears == e.clears && r.pending == e.pending && r.calls == e.calls && forall x :: x in r.active ==> x in e.active
    ensures Recorded(c, events, r)
  {
    hide Justified, Stated, CallsOf, Requests, Named;
    CallsIgnore(e.log, r.log, kinds, t);
    RequestsIgnore(e.log, r.log, kinds, t);
    AnsweredStays(e.log, r.log);
    MoreIsJustified(c, events, e.log, r.log, |e.log|);
    forall j | 0 <= j < |r.log|
      ensures Justified(c, events, r.log, j)
    {
      if j >= |e.log| {
        OtherKind(c, events, r.log, j);
      }
    }
    MoreIsTimely(events, e.log, r.log, e.clears);
  }

  lemma OtherKind(c: Config, events: seq<ScenarioEvent>, log: seq<RunEvent>, j: nat)
    requires j < |log| && log[j].kind !in SCHEDULING
    ensures Justified(c, events, log, j)
  {
  }

  lemma MoreIsJustified(c: Config, events: seq<ScenarioEvent>, log: seq<RunEvent>, more: seq<RunEvent>, n: nat)
    requires AllJustified(c, events, log) && log <= more && n == |log|
    ensures forall j :: 0 <= j < n ==> Justified(c, events, more, j)
  {
    hide Justified;
    forall j | 0 <= j < n
      ensures Justified(c, events, more, j)
    {
      JustifiedStays(c, events, log, more, j);
    }
  }

  lemma MoreIsTimely(events: seq<ScenarioEvent>, log: seq<RunEvent>, more: seq<RunEvent>, clears: seq<Entry<InjectionRequest>>)
    requires log <= more && forall h :: h in clears ==> Timely(events, log, h)
    ensures forall h :: h in clears ==> Timely(events, more, h)
  {
    hide Stated;
    forall h | h in clears
      ensures Timely(events, more, h)
    {
      var i: nat :| AppliedThen(log, i, h.item.eventId, h.at - h.item.duration.value);
      assert more[i] == log[i];
      assert AppliedThen(more, i, h.item.eventId, h.at - h.item.duration.value);
    }
  }

  lemma FewerTimely(events: seq<ScenarioEvent>, log: seq<RunEvent>, clears: seq<Entry<InjectionRequest>>)
    requires clears != [] && forall h :: h in clears ==> Timely(events, log, h)
    ensures forall h :: h in Pop(clears) ==> Timely(events, log, h)
  {
    hide Timely, Pop;
    forall h | h in Pop(clears)
      ensures h in clears
    {
      assert h in multiset(Pop(clears));
      assert h in multiset(clears);
    }
  }

  // ---- Injecting

  lemma InjectIsRecorded(c: Config, events: seq<ScenarioEvent>, e: EngineState, t: real)
    requires Recorded(c, events, e) && e.pending != [] && e.pending[0].at <= t
    ensures Recorded(c, events, Inject(c, e.(pending := e.pending[1..]), e.pending[0], t))
  {
    hide Put, Push, Watches, Justified, CallsOf, Requests, Named, Timely, Stated, Find, Inject, UpTo, Answered;
    var event := e.pending[0];
    var taken, request := e.(pending := e.pending[1..]), RequestOf(event);
    var r := Inject(c, taken, event, t);
    InjectLogs(c, taken, event, t);
    RequestsAppend(e.log, r.log[|e.log|]);
    RequestsAppend(e.log + [r.log[|e.log|]], r.log[|e.log| + 1]);
    NextRequested(events, e.pending, e.log, r.log);
    AnsweredByInjection(e.log, r.log);
    InjectionIsJustified(c, events, e.log, r.log, event, t);
    MoreIsJustified(c, events, e.log, r.log, |e.log|);
    MoreIsTimely(events, e.log, r.log, e.clears);
    InjectCalls(c, taken, event, t);
    if c.applies(|e.log|) {
      PutFrom(events, e.active, event);
      if request.duration.Some? {
        NewIsTimely(events, r.log, event, t);
        PushedTimely(events, r.log, e.clears, Entry(t + request.duration.value, request));
      }
    }
  }

  lemma InjectLogs(c: Config, e: EngineState, event: ScenarioEvent, t: real)
    ensures var r := Inject(c, e, event, t);
            && r.log == e.log + [NewEvent(e.log, t, InjectionRequested, Some(event.subsystem), None, None, Some(event.id), RequestDetails(event.effect))]
                        + [NewEvent(r.log[..|e.log| + 1], t, if c.applies(|e.log|) then InjectionApplied else InjectionRejected,
                                    Some(event.subsystem), None, None, Some(event.id), NoDetails)]
            && r.pending == e.pending && r.calls == e.calls + [InjectCall(RequestOf(event))]
            && r.active == (if c.applies(|e.log|) then Put(e.active, RequestOf(event)) else e.active)
            && r.clears == (if c.applies(|e.log|) && event.duration.Some?
                            then Push(e.clears, Entry(t + event.duration.value, RequestOf(event))) else e.clears)
  {
    hide Put, Push, Watches;
    var r := Inject(c, e, event, t);
    assert r.log[..|e.log| + 1] ==
           e.log + [NewEvent(e.log, t, InjectionRequested, Some(event.subsystem), None, None, Some(event.id), RequestDetails(event.effect))];
  }

  lemma InjectionIsJustified(c: Config, events: seq<ScenarioEvent>, log: seq<RunEvent>, more: seq<RunEvent>, event: ScenarioEvent, t: real)
    requires event in events && event.at <= t && |more| == |log| + 2
    requires more[|log|] == NewEvent(log, t, InjectionRequested, Some(event.subsystem), None, None, Some(event.id), RequestDetails(event.effect))
    requires more[|log| + 1] == NewEvent(more[..|log| + 1], t, if c.applies(|log|) then InjectionApplied else InjectionRejected,
                                         Some(event.subsystem), None, None, Some(event.id), NoDetails)
    ensures Justified(c, events, more, |log|) && Justified(c, events, more, |log| + 1)
  {
    hide Round3;
    var k: nat :| k < |events| && events[k] == event;
    Round3Monotone(event.at, t);
    assert Asked(events, k, more[|log|]);
  }

  lemma AnsweredByInjection(log: seq<RunEvent>, more: seq<RunEvent>)
    requires Answered(log) && log <= more && |more| == |log| + 2
    requires more[|log| + 1].kind == InjectionApplied || more[|log| + 1].kind == InjectionRejected
    ensures Answered(more)
  {
    assert AnsweredNext(more, |log|);
    AnsweredStays(log, more);
  }

  lemma InjectCalls(c: Config, e: EngineState, event: ScenarioEvent, t: real)
    requires CallsOf(e.log) == Named(e.calls)
    ensures var r := Inject(c, e, event, t); CallsOf(r.log) == Named(r.calls)
  {
    hide Inject, CallsOf, Put, Push;
    InjectLogs(c, e, event, t);
    var r := Inject(c, e, event, t);
    CallsAppend(e.log, r.log[|e.log|]);
    CallsAppend(e.log + [r.log[|e.log|]], r.log[|e.log| + 1]);
  }

  lemma PutFrom(events: seq<ScenarioEvent>, active: seq<InjectionRequest>, event: ScenarioEvent)
    requires event in events && forall x :: x in active ==> Stated(events, x)
    ensures forall x :: x in Put(active, RequestOf(event)) ==> Stated(events, x)
  {
    var k: nat :| k < |events| && events[k] == event;
    assert Stated(events, RequestOf(event));
  }

  lemma NewIsTimely(events: seq<ScenarioEvent>, log: seq<RunEvent>, event: ScenarioEvent, t: real)
    requires event in events && event.duration.Some? && |log| > 0
    requires log[|log| - 1].kind == InjectionApplied && log[|log| - 1].scenarioEventId == Some(event.id) && log[|log| - 1].time == Round3(t)
    ensures Timely(events, log, Entry(t + event.duration.value, RequestOf(event)))
  {
    hide Round3;
    var k: nat :| k < |events| && events[k] == event;
    assert t + event.duration.value - event.duration.value == t;
    assert AppliedThen(log, |log| - 1, event.id, t);
    assert AppliedOnce(log, event.id, t);
  }

  lemma PushedTimely(events: seq<ScenarioEvent>, log: seq<RunEvent>, clears: seq<Entry<InjectionRequest>>, entry: Entry<InjectionRequest>)
    requires Timely(events, log, entry) && forall h :: h in clears ==> Timely(events, log, h)
    ensures forall h :: h in Push(clears, entry) ==> Timely(events, log, h)
  {
    hide Timely, Push;
    forall h | h in Push(clears, entry)
      ensures h in clears || h == entry
    {
      assert h in multiset(Push(clears, entry));
      assert h in multiset(clears) || h == entry;
    }
  }

  // ---- Clearing

  lemma ClearIsRecorded(c: Config, events: seq<ScenarioEvent>, e: EngineState, request: InjectionRequest, t: real, reason: ClearReason)
    requires Recorded(c, events, e)
    requires Find(e.active, request.eventId) < |e.active| ==>
               var entry := NewEvent(e.log, t, InjectionCleared, Some(request.subsystem), None, None, Some(request.eventId), ClearDetails(reason));
               ClearedRightly(events, e.log + [entry], |e.log|)
    ensures Recorded(c, events, Clear(e, request, t, reason))
  {
    hide Justified, CallsOf, Requests, Timely, Stated, ClearedRightly, Find, Remove, Named;
    var id := request.eventId;
    if Find(e.active, id) < |e.active| {
      var entry := NewEvent(e.log, t, InjectionCleared, Some(request.subsystem), None, None, Some(id), ClearDetails(reason));
      var r := Clear(e, request, t, reason);
      assert r.log == e.log + [entry];
      MoreIsJustified(c, events, e.log, r.log, |e.log|);
      ClearIsJustified(c, events, r.log, |e.log|);
      MoreIsTimely(events, e.log, r.log, e.clears);
      CallsAppend(e.log, entry);
      RequestsAppend(e.log, entry);
      AnsweredStays(e.log, r.log);
      OneMoreCall(e.calls, ClearCall(id));
      RemovedFrom(e.active, id);
    }
  }

  lemma ClearIsJustified(c: Config, events: seq<ScenarioEvent>, log: seq<RunEvent>, j: nat)
    requires j < |log| && log[j].kind == InjectionCleared && ClearedRightly(events, log, j)
    ensures Justified(c, events, log, j)
  {
    hide ClearedRightly;
  }

  lemma OneMoreCall(calls: seq<AdapterCall>, call: AdapterCall)
    ensures Named(calls + [call]) ==
            Named(calls) + [match call case InjectCall(request) => (true, Some(request.eventId)) case ClearCall(id) => (false, Some(id))]
  {
  }

  lemma RemovedFrom(active: seq<InjectionRequest>, id: EventId)
    ensures forall x :: x in Remove(active, id) ==> x in active
  {
  }

  /** A due clear comes after the duration has passed. */
  lemma DueIsRight(events: seq<ScenarioEvent>, log: seq<RunEvent>, h: Entry<InjectionRequest>, t: real)
    requires Timely(events, log, h) && h.at <= t
    ensures var entry := NewEvent(log, t, InjectionCleared, Some(h.item.subsystem), None, None, Some(h.item.eventId), ClearDetails(DurationElapsed));
            ClearedRightly(events, log + [entry], |log|)
  {
    hide Round3;
    var entry := NewEvent(log, t, InjectionCleared, Some(h.item.subsystem), None, None, Some(h.item.eventId), ClearDetails(DurationElapsed));
    var more, d := log + [entry], h.item.duration.value;
    var i: nat :| AppliedThen(log, i, h.item.eventId, h.at - d);
    var k: nat :| k < |events| && h.item == RequestOf(events[k]);
    assert more[i] == log[i];
    assert AppliedThen(more, i, events[k].id, h.at - d);
    assert h.at - d + d == h.at;
    Round3Monotone(h.at, t);
    assert Asked(events, k, more[|log|]);
    assert DurationPassed(events[k], more, |log|);
  }

  lemma {:induction false} InjectDueIsRecorded(c: Config, events: seq<ScenarioEvent>, e: EngineState, t: real)
    requires Recorded(c, events, e)
    ensures Recorded(c, events, InjectDue(c, e, t))
    decreases |e.pending|
  {
    hide Recorded, Inject;
    if e.pending != [] && e.pending[0].at <= t {
      InjectIsRecorded(c, events, e, t);
      InjectLeavesPending(c, e.(pending := e.pending[1..]), e.pending[0], t);
      InjectDueIsRecorded(c, events, Inject(c, e.(pending := e.pending[1..]), e.pending[0], t), t);
    }
  }

  lemma {:induction false} ClearDueIsRecorded(c: Config, events: seq<ScenarioEvent>, e: EngineState, t: real)
    requires Recorded(c, events, e)
    ensures Recorded(c, events, ClearDue(e, t))
    decreases |e.clears|
  {
    hide Timely, Stated, Justified, CallsOf, Named, ClearedRightly, Clear, Pop, Answered, UpTo;
    if e.clears != [] && e.clears[0].at <= t {
      var popped := e.(clears := Pop(e.clears));
      FewerTimely(events, e.log, e.clears);
      DueIsRight(events, e.log, e.clears[0], t);
      ClearIsRecorded(c, events, popped, e.clears[0].item, t, DurationElapsed);
      ClearDueIsRecorded(c, events, Clear(popped, e.clears[0].item, t, DurationElapsed), t);
    }
  }

  lemma EndIsRight(events: seq<ScenarioEvent>, log: seq<RunEvent>, request: InjectionRequest, t: real)
    requires Stated(events, request) && request.duration.None? && !request.effect.IsTransient()
    ensures var entry := NewEvent(log, t, InjectionCleared, Some(request.subsystem), None, None, Some(request.eventId), ClearDetails(ScenarioEnd));
            ClearedRightly(events, log + [entry], |log|)
  {
    var k: nat :| k < |events| && request == RequestOf(events[k]);
    var entry := NewEvent(log, t, InjectionCleared, Some(request.subsystem), None, None, Some(request.eventId), ClearDetails(ScenarioEnd));
    assert Asked(events, k, entry);
  }

  lemma {:induction false} ClearEachIsRecorded(c: Config, events: seq<ScenarioEvent>, e: EngineState, requests: seq<InjectionRequest>, t: real)
    requires Recorded(c, events, e) && forall x :: x in requests ==> Stated(events, x)
    ensures Recorded(c, events, ClearEach(e, requests, t))
    decreases |requests|
  {
    hide Recorded, Stated, Clear, Find, Remove, ClearedRightly;
    if requests != [] {
      var request := requests[0];
      var step := ClearAtEnd(e, request, t);
      if request.duration.None? && !request.effect.IsTransient() {
        EndIsRight(events, e.log, request, t);
        ClearIsRecorded(c, events, e, request, t, ScenarioEnd);
      } else if request.effect.IsTransient() {
        RemovedFrom(e.active, request.eventId);
        assert Appended(e.log, step.log, {}, t);
        QuietIsRecorded(c, events, e, step, {}, t);
      }
      ClearEachIsRecorded(c, events, step, requests[1..], t);
    }
  }

  /** An applied injection puts each of its expectations under watch: requested now, due its time from now, not yet satisfied; a
      rejected one none. The entry in the set of active injections is that of the same id, if there is one, or a new one behind all others. */
  lemma InjectWatches(c: Config, e: EngineState, event: ScenarioEvent, t: real)
    ensures var r := Inject(c, e, event, t);
            if c.applies(|e.log|) then
              && |r.expectations| == |e.expectations| + |event.expectations| && r.expectations[..|e.expectations|] == e.expectations
              && (forall k :: 0 <= k < |event.expectations| ==>
                    var p := r.expectations[|e.expectations| + k];
                    && p.eventId == event.id && p.expectation == event.expectations[k] && p.requestedAt == t && !p.leftHealthy
                    && p.deadline == t + event.expectations[k].within && p.serial == |e.created| + k)
            else r.expectations == e.expectations && r.active == e.active && r.clears == e.clears
  {
    hide Put, Push;
  }

  lemma PutIs(active: seq<InjectionRequest>, request: InjectionRequest)
    ensures var r := Put(active, request);
            if exists k :: 0 <= k < |active| && active[k].eventId == request.eventId
            then |r| == |active| && exists k :: 0 <= k < |active| && active[k].eventId == request.eventId && r == active[k := request]
                                                && forall j :: 0 <= j < k ==> active[j].eventId != request.eventId
            else r == active + [request]
  {
    var k := Find(active, request.eventId);
    assert k == |active| ==> forall j :: 0 <= j < |active| ==> active[j].eventId != request.eventId;
  }

  // ---- Runs

  lemma TickIsRecorded(c: Config, events: seq<ScenarioEvent>, e: EngineState, o: Observation)
    requires Recorded(c, events, e)
    ensures Recorded(c, events, ProcessTick(c, e, o))
  {
    hide Recorded, InjectDue, ClearDue, ApplyChanges, Respond, Progress, AnyRecovering, JudgeEach;
    var t := o.sample.t;
    LaterIsRecorded(c, events, e, t);
    InjectDueIsRecorded(c, events, e.(lastT := t), t);
    ClearDueIsRecorded(c, events, InjectDue(c, e.(lastT := t), t), t);
    var scheduled := ProcessScheduled(c, e.(lastT := t), t);
    var changed := ApplyChanges(c, scheduled, o.changes, t);
    ChangesKeepActive(c, scheduled, o.changes, t);
    QuietIsRecorded(c, events, scheduled, changed, CHANGES, t);
    var responded := Respond(changed, o.responses, t);
    QuietIsRecorded(c, events, changed, responded, {SystemResponded}, t);
    var progressed := Progress(responded, o.missionEvents, t);
    QuietIsRecorded(c, events, responded, progressed, {MissionProgress}, t);
    var observed := ProcessObservation(c, scheduled, o);
    assert Appended(progressed.log, observed.log, {}, t);
    QuietIsRecorded(c, events, progressed, observed, {}, t);
    var judged := ProcessExpectations(observed, t);
    QuietIsRecorded(c, events, observed, judged, {ExpectationResult}, t);
    assert Appended(judged.log, ProcessTick(c, e, o).log, {}, t);
    QuietIsRecorded(c, events, judged, ProcessTick(c, e, o), {}, t);
  }

  lemma LaterIsRecorded(c: Config, events: seq<ScenarioEvent>, e: EngineState, t: real)
    requires Recorded(c, events, e)
    ensures Recorded(c, events, e.(lastT := t))
  {
    hide AllJustified, Timely, Stated, CallsOf, Named, Answered, UpTo;
  }

  lemma {:induction false} ChangesKeepActive(c: Config, e: EngineState, changes: seq<StateChange>, t: real)
    ensures forall x :: x in ApplyChanges(c, e, changes, t).active ==> x in e.active
    decreases |changes|
  {
    hide ApplyChange;
    if changes != [] {
      ChangeKeepsActive(c, e, changes[0], t);
      ChangesKeepActive(c, ApplyChange(c, e, changes[0], t), changes[1..], t);
    }
  }

  lemma ChangeKeepsActive(c: Config, e: EngineState, change: StateChange, t: real)
    ensures forall x :: x in ApplyChange(c, e, change, t).active ==> x in e.active
  {
    hide RetireOn, RetiredOn, ChangeEvent, NextFaults, CauseOf, IsDirect;
    RetireKeeps(e.active, change.subsystem);
  }

  lemma {:induction false} RetireKeeps(active: seq<InjectionRequest>, subsystem: Id)
    ensures forall x :: x in RetireOn(active, subsystem) ==> x in active
    decreases |active|
  {
    if active != [] {
      RetireKeeps(active[1..], subsystem);
      assert active == [active[0]] + active[1..];
    }
  }

  lemma NoteIsRecorded(c: Config, events: seq<ScenarioEvent>, e: EngineState, kind: EventKind, t: real)
    requires Recorded(c, events, e) && kind !in SCHEDULING
    ensures Recorded(c, events, Emit(e, t, kind, None, None, None, None, NoDetails))
  {
    hide Recorded;
    QuietIsRecorded(c, events, e, Emit(e, t, kind, None, None, None, None, NoDetails), {kind}, t);
  }

  lemma {:induction false} LoopIsRecorded(c: Config, events: seq<ScenarioEvent>, e: EngineState, feed: seq<Input>)
    requires Recorded(c, events, e)
    ensures Recorded(c, events, Loop(c, e, feed).0)
    decreases |feed|
  {
    hide Recorded, ProcessTick, Emit;
    if feed != [] {
      var t := feed[0].observation.sample.t;
      var next := ProcessTick(c, e, feed[0].observation);
      LaterIsRecorded(c, events, e, t);
      NoteIsRecorded(c, events, e.(lastT := t), LifecycleEvent, t);
      TickIsRecorded(c, events, e, feed[0].observation);
      NoteIsRecorded(c, events, next, MissionProgress, t);
      if !feed[0].cancelled {
        LoopIsRecorded(c, events, next, feed[1..]);
      }
    }
  }

  /** Main result. In the log of every run, whatever ends it: the events of the scenario are requested in order, each at most once and
      none before its time; every request is answered by the next entry, as the adapter decided; a clear comes either after the
      duration of the injection has passed since it was applied, or at the end of the run for an injection that would not end
      otherwise; and the adapter was called for exactly what the log reports, in that order. */
  lemma RunIsRecorded(c: Config, events: seq<ScenarioEvent>, states: Health, feed: seq<Input>, raises: bool)
    ensures var r := Run(c, events, Setup.Prepared(states), feed, raises).0;
            AllJustified(c, events, r.log) && Answered(r.log) && UpTo(events, r.pending, r.log) && CallsOf(r.log) == Named(r.calls)
  {
    hide AllJustified, Answered, UpTo, CallsOf, Named, Loop, FlushEach, ClearEach, StartRun, Timely, Stated, Emit;
    var start := StartRun(events, states);
    StartIsRecorded(c, events, states);
    LoopIsRecorded(c, events, start, feed);
    var (looped, exit) := Loop(c, start, feed);
    var t := looped.lastT;
    NoteIsRecorded(c, events, looped, LifecycleEvent, t);
    var flushed := FlushExpectations(looped, t);
    QuietIsRecorded(c, events, looped, flushed, {ExpectationResult}, t);
    ClearEachIsRecorded(c, events, flushed, flushed.active, t);
  }

  lemma StartIsRecorded(c: Config, events: seq<ScenarioEvent>, states: Health)
    ensures Recorded(c, events, StartRun(events, states))
  {
    hide Requests, CallsOf, Round3;
    var r := StartRun(events, states);
    assert r.log == [] + [r.log[0]] && r.log[0].kind == MissionProgress;
    CallsAppend([], r.log[0]);
    RequestsAppend([], r.log[0]);
    NothingYet();
    OtherKind(c, events, r.log, 0);
    hide Justified;
    NothingAsked(events, r.log);
  }

  lemma NothingYet()
    ensures Requests([]) == [] && CallsOf([]) == []
  {
  }

  lemma NothingAsked(events: seq<ScenarioEvent>, log: seq<RunEvent>)
    requires Requests(log) == []
    ensures UpTo(events, events, log)
  {
  }

  /** A run whose target never became ready asks for nothing and calls for nothing. */
  lemma AbandonedAsksNothing(events: seq<ScenarioEvent>, setup: Setup)
    requires !setup.Prepared?
    ensures var r := Abandon(events, setup).0; Requests(r.log) == [] && CallsOf(r.log) == [] && r.calls == []
  {
    var r := Abandon(events, setup).0;
    assert r.log == [] + [r.log[0]];
    CallsAppend([], r.log[0]);
    RequestsAppend([], r.log[0]);
  }
}
