/** Conservation of injections: every applied injection is cleared, retired with its transient, or
    still active; nothing due is left behind. */
module EngineLedger {
  import opened Options
  import opened States
  import opened RunLog
  import opened HeapQueue
  import opened EngineModel
  import opened EngineClock
  import opened EnginePairing

  // ---- What the log says about injections

  datatype Account = Account(
    requested: set<(EventId, Effect)>,
    applied: set<EventId>,
    cleared: set<EventId>,
    appliedEvents: nat,
    clearedEvents: nat)

  function Enter(a: Account, e: RunEvent): Account {
    if e.scenarioEventId.None? then a
    else
      var id := e.scenarioEventId.value;
      match e.kind
      case InjectionRequested => if e.details.RequestDetails? then a.(requested := a.requested + {(id, e.details.effect)}) else a
      case InjectionApplied => a.(applied := a.applied + {id}, appliedEvents := a.appliedEvents + 1)
      case InjectionCleared => a.(cleared := a.cleared + {id}, clearedEvents := a.clearedEvents + 1)
      case _ => a
  }

  function AccountOf(log: seq<RunEvent>): Account {
    if log == [] then Account({}, {}, {}, 0, 0)
    else Enter(AccountOf(log[..|log| - 1]), log[|log| - 1])
  }

  lemma AccountAppend(log: seq<RunEvent>, e: RunEvent)
    ensures AccountOf(log + [e]) == Enter(AccountOf(log), e)
  {
    assert (log + [e])[..|log|] == log;
  }

  lemma {:induction false} AccountIgnores(before: seq<RunEvent>, after: seq<RunEvent>, kinds: set<EventKind>, t: real)
    requires Appended(before, after, kinds, t)
    requires InjectionRequested !in kinds && InjectionApplied !in kinds && InjectionCleared !in kinds
    ensures AccountOf(after) == AccountOf(before)
    decreases |after|
  {
    if |after| > |before| {
      AccountIgnores(before, after[..|after| - 1], kinds, t);
    } else {
      assert after == before;
    }
  }

  predicate Entered(e: RunEvent, kind: EventKind, id: EventId) {
    e.kind == kind && e.scenarioEventId == Some(id)
  }

  /** As many applications (clears) as distinct ids means that no id occurs twice. */
  lemma {:induction false} NoIdTwice(log: seq<RunEvent>, i: nat, j: nat, id: EventId)
    requires i < j < |log|
    requires AccountOf(log).appliedEvents == |AccountOf(log).applied| && AccountOf(log).clearedEvents == |AccountOf(log).cleared|
    ensures !(Entered(log[i], InjectionApplied, id) && Entered(log[j], InjectionApplied, id))
    ensures !(Entered(log[i], InjectionCleared, id) && Entered(log[j], InjectionCleared, id))
    decreases |log|
  {
    var shorter, last := log[..|log| - 1], log[|log| - 1];
    AtLeastAsManyEvents(shorter);
    if j == |log| - 1 {
      EnteredIsMember(shorter, i, id);
    } else {
      NoIdTwice(shorter, i, j, id);
    }
  }

  lemma {:induction false} AtLeastAsManyEvents(log: seq<RunEvent>)
    ensures AccountOf(log).appliedEvents >= |AccountOf(log).applied| && AccountOf(log).clearedEvents >= |AccountOf(log).cleared|
  {
    if log != [] {
      AtLeastAsManyEvents(log[..|log| - 1]);
    }
  }

  lemma {:induction false} EnteredIsMember(log: seq<RunEvent>, i: nat, id: EventId)
    requires i < |log|
    ensures Entered(log[i], InjectionApplied, id) ==> id in AccountOf(log).applied
    ensures Entered(log[i], InjectionCleared, id) ==> id in AccountOf(log).cleared
  {
    if i < |log| - 1 {
      EnteredIsMember(log[..|log| - 1], i, id);
    }
  }

  // ---- The dictionary of active injections

  ghost function ActiveIds(active: seq<InjectionRequest>): set<EventId> {
    set r | r in active :: r.eventId
  }

  ghost predicate Distinct(active: seq<InjectionRequest>) {
    forall i, j :: 0 <= i < j < |active| ==> active[i].eventId != active[j].eventId
  }

  lemma {:induction false} DistinctCount(active: seq<InjectionRequest>)
    requires Distinct(active)
    ensures |ActiveIds(active)| == |active|
  {
    if active != [] {
      var shorter, last := active[..|active| - 1], active[|active| - 1];
      DistinctCount(shorter);
      assert active == shorter + [last];
      assert forall r :: r in active <==> r in shorter || r == last;
      assert ActiveIds(active) == ActiveIds(shorter) + {last.eventId};
    }
  }

  lemma RemoveDrops(active: seq<InjectionRequest>, id: EventId)
    requires Distinct(active)
    ensures Distinct(Remove(active, id))
    ensures forall r :: r in Remove(active, id) <==> r in active && r.eventId != id
    ensures ActiveIds(Remove(active, id)) == ActiveIds(active) - {id}
  {
    var k := Find(active, id);
    var rest := Remove(active, id);
    if k < |active| {
      assert active == active[..k] + [active[k]] + active[k + 1..];
      assert forall r :: r in active <==> r in rest || r == active[k];
      assert forall j :: 0 <= j < |rest| ==> rest[j] == active[if j < k then j else j + 1];
      assert active[k] !in rest;
    }
  }

  lemma {:induction false} RetireDrops(active: seq<InjectionRequest>, subsystem: Id)
    requires Distinct(active)
    ensures Distinct(RetireOn(active, subsystem))
    ensures forall r :: r in RetireOn(active, subsystem) <==> r in active && !(r.subsystem == subsystem && r.effect.IsTransient())
  {
    if active != [] {
      RetireDrops(active[1..], subsystem);
      assert active == [active[0]] + active[1..];
      forall j | 0 <= j < |RetireOn(active[1..], subsystem)|
        ensures RetireOn(active[1..], subsystem)[j].eventId != active[0].eventId
      {
        assert RetireOn(active[1..], subsystem)[j] in active[1..];
      }
    }
  }

  // ---- The balance

  /** Applied, not cleared, not active. */
  ghost function Unaccounted(a: Account, active: seq<InjectionRequest>): set<EventId> {
    a.applied - a.cleared - ActiveIds(active)
  }

  /** What the engine dropped without a clear, when the target came back or at scenario end, is exactly what is neither
      cleared nor active, each id once, and it was requested as a transient. */
  ghost predicate EndedAlone(retired: seq<InjectionRequest>, active: seq<InjectionRequest>, a: Account) {
    && Distinct(retired) && ActiveIds(retired) == Unaccounted(a, active)
    && forall r :: r in retired ==> r.effect.IsTransient() && (r.eventId, r.effect) in a.requested
  }

  /** The scenario's events have distinct ids, none of which was injected before. */
  ghost predicate Fresh(pending: seq<ScenarioEvent>, a: Account) {
    && (forall i, j :: 0 <= i < j < |pending| ==> pending[i].id != pending[j].id)
    && (forall i :: 0 <= i < |pending| ==> pending[i].id !in a.applied)
  }

  /** Whatever is active was applied and not cleared. */
  ghost predicate Outstanding(active: seq<InjectionRequest>, a: Account) {
    forall r :: r in active ==> r.eventId in a.applied && r.eventId !in a.cleared && (r.eventId, r.effect) in a.requested
  }

  ghost predicate Balanced(active: seq<InjectionRequest>, retired: seq<InjectionRequest>, a: Account) {
    && Distinct(active)
    && a.appliedEvents == |a.applied| && a.clearedEvents == |a.cleared|
    && a.cleared <= a.applied
    && Outstanding(active, a)
    && EndedAlone(retired, active, a)
  }

  /** Every active bounded injection has its clear scheduled, at its application time plus its duration. */
  ghost predicate Scheduled(active: seq<InjectionRequest>, clears: seq<Entry<InjectionRequest>>, log: seq<RunEvent>, clock: Clock) {
    forall r :: r in active && r.duration.Some? ==> Entry(Due(log, clock, r), r) in clears
  }

  ghost predicate LedgerHolds(e: EngineState) {
    && Balanced(e.active, e.retired, AccountOf(e.log))
    && Fresh(e.pending, AccountOf(e.log))
    && IsHeap(e.clears)
    && Scheduled(e.active, e.clears, e.log, ClockOf(e))
    && TicksWithin(e.ticks, |e.log|)
  }

  /** The account and the log agree on what was applied. */
  lemma {:induction false} AppliedIsLogged(log: seq<RunEvent>, id: EventId)
    ensures id in AccountOf(log).applied <==> AppliedAt(log, id) < |log|
    decreases |log|
  {
    if log != [] {
      AppliedIsLogged(log[..|log| - 1], id);
    }
  }

  lemma ActiveAreLogged(active: seq<InjectionRequest>, log: seq<RunEvent>)
    requires Outstanding(active, AccountOf(log))
    ensures forall r :: r in active ==> AppliedAt(log, r.eventId) < |log|
  {
    hide AccountOf, AppliedAt;
    forall r | r in active
      ensures AppliedAt(log, r.eventId) < |log|
    {
      AppliedIsLogged(log, r.eventId);
    }
  }

  lemma LedgerIsOutstanding(e: EngineState)
    requires LedgerHolds(e)
    ensures Outstanding(e.active, AccountOf(e.log)) && Scheduled(e.active, e.clears, e.log, ClockOf(e))
    ensures forall r :: r in e.active ==> AppliedAt(e.log, r.eventId) < |e.log|
  {
    hide AccountOf, AppliedAt, Scheduled, Fresh, EndedAlone;
    ActiveAreLogged(e.active, e.log);
  }

  /** A longer log and a later clock that keeps the times of what is active change no due time. */
  lemma ScheduledStays(active: seq<InjectionRequest>, clears: seq<Entry<InjectionRequest>>, before: seq<RunEvent>, early: Clock,
                       fewer: seq<InjectionRequest>, after: seq<RunEvent>, late: Clock)
    requires Scheduled(active, clears, before, early) && before <= after
    requires forall r :: r in fewer ==> r in active
    requires forall r :: r in active ==> AppliedAt(before, r.eventId) < |before|
    requires forall r :: r in active ==> late.At(AppliedAt(before, r.eventId)) == early.At(AppliedAt(before, r.eventId))
    ensures Scheduled(fewer, clears, after, late)
    ensures forall r :: r in fewer ==> AppliedAt(after, r.eventId) == AppliedAt(before, r.eventId)
  {
    hide AppliedAt, Clock.At;
    forall r | r in fewer
      ensures AppliedAt(after, r.eventId) == AppliedAt(before, r.eventId)
    {
      AppliedStays(before, after, r.eventId);
    }
  }

  /** Conservation in numbers, for any balanced state: every applied injection was cleared, was dropped because
      its target ended it, or is active. */
  lemma Conservation(active: seq<InjectionRequest>, retired: seq<InjectionRequest>, a: Account)
    requires Balanced(active, retired, a)
    ensures a.appliedEvents == a.clearedEvents + |retired| + |active|
    ensures forall r :: r in retired ==> r.effect.IsTransient() && r.eventId in a.applied && r.eventId !in a.cleared
  {
    DistinctCount(active);
    DistinctCount(retired);
    forall id | id in ActiveIds(active)
      ensures id in a.applied && id !in a.cleared
    {
      var r :| r in active && r.eventId == id;
    }
    var ended := Unaccounted(a, active);
    assert a.applied == a.cleared + ended + ActiveIds(active);
    assert |a.cleared + ended| == |a.cleared| + |ended|;
    assert |(a.cleared + ended) + ActiveIds(active)| == |a.cleared + ended| + |ActiveIds(active)|;
    forall r | r in retired
      ensures r.eventId in ended
    {
      assert r.eventId in ActiveIds(retired);
    }
  }

  // ---- Steps keep the ledger

  function EnterRequest(a: Account, request: InjectionRequest): Account {
    a.(requested := a.requested + {(request.eventId, request.effect)})
  }

  function EnterApplied(a: Account, id: EventId): Account {
    a.(applied := a.applied + {id}, appliedEvents := a.appliedEvents + 1)
  }

  lemma RequestBalances(active: seq<InjectionRequest>, retired: seq<InjectionRequest>, a: Account, request: InjectionRequest)
    requires Balanced(active, retired, a)
    ensures Balanced(active, retired, EnterRequest(a, request))
  {
    assert Unaccounted(EnterRequest(a, request), active) == Unaccounted(a, active);
  }

  /** A key that is not present is appended at the end of the dictionary. */
  lemma PutAppends(active: seq<InjectionRequest>, retired: seq<InjectionRequest>, a: Account, request: InjectionRequest)
    requires Balanced(active, retired, a) && request.eventId !in a.applied
    ensures Put(active, request) == active + [request]
  {
    forall k | 0 <= k < |active|
      ensures active[k].eventId != request.eventId
    {
      assert active[k] in active;
    }
  }

  lemma ApplyBalances(active: seq<InjectionRequest>, retired: seq<InjectionRequest>, a: Account, request: InjectionRequest)
    requires Balanced(active, retired, a) && request.eventId !in a.applied && (request.eventId, request.effect) in a.requested
    ensures Balanced(active + [request], retired, EnterApplied(a, request.eventId))
  {
    OutstandingIds(active, a, request.eventId);
    AppendDistinct(active, request);
    UnaccountedAfterApply(active, a, request);
    OutstandingMore(active, a, request);
    hide Unaccounted, ActiveIds, Distinct, Outstanding;
  }

  lemma OutstandingIds(active: seq<InjectionRequest>, a: Account, id: EventId)
    requires Outstanding(active, a) && id !in a.applied
    ensures forall r :: r in active ==> r.eventId != id
  {
  }

  lemma OutstandingMore(active: seq<InjectionRequest>, a: Account, request: InjectionRequest)
    requires Outstanding(active, a) && a.cleared <= a.applied
    requires request.eventId !in a.applied && (request.eventId, request.effect) in a.requested
    ensures Outstanding(active + [request], EnterApplied(a, request.eventId))
  {
    assert forall r :: r in active + [request] <==> r in active || r == request;
  }

  lemma UnaccountedAfterApply(active: seq<InjectionRequest>, a: Account, request: InjectionRequest)
    requires request.eventId !in a.applied
    requires ActiveIds(active + [request]) == ActiveIds(active) + {request.eventId}
    ensures Unaccounted(EnterApplied(a, request.eventId), active + [request]) == Unaccounted(a, active)
  {
    hide ActiveIds;
  }

  lemma AppendDistinct(active: seq<InjectionRequest>, request: InjectionRequest)
    requires Distinct(active) && forall r :: r in active ==> r.eventId != request.eventId
    ensures Distinct(active + [request])
    ensures ActiveIds(active + [request]) == ActiveIds(active) + {request.eventId}
  {
    var more := active + [request];
    assert forall r :: r in more <==> r in active || r == request;
    forall x | x in ActiveIds(active) + {request.eventId}
      ensures x in ActiveIds(more)
    {
      if x == request.eventId {
        assert request in more;
      } else {
        var r :| r in active && r.eventId == x;
        assert r in more;
      }
    }
    forall i, j | 0 <= i < j < |more|
      ensures more[i].eventId != more[j].eventId
    {
      assert more[i] in active;
    }
  }

  /** What an injection enters into the account, and what becomes active. */
  lemma InjectEnters(c: Config, e: EngineState, event: ScenarioEvent, t: real)
    ensures var r, request := Inject(c, e, event, t), RequestOf(event);
            var asked := EnterRequest(AccountOf(e.log), request);
            && AccountOf(r.log) == (if c.applies(|e.log|) then EnterApplied(asked, event.id) else asked)
            && r.active == (if c.applies(|e.log|) then Put(e.active, request) else e.active)
            && r.clears == (if c.applies(|e.log|) && request.duration.Some?
                            then Push(e.clears, Entry(t + request.duration.value, request)) else e.clears)
            && r.pending == e.pending && r.retired == e.retired
  {
    hide Put, Push, Watches, AccountOf;
    var r := Inject(c, e, event, t);
    var asked := NewEvent(e.log, t, InjectionRequested, Some(event.subsystem), None, None, Some(event.id), RequestDetails(event.effect));
    var answered := r.log[|r.log| - 1];
    assert r.log == e.log + [asked] + [answered];
    AccountAppend(e.log, asked);
    AccountAppend(e.log + [asked], answered);
  }

  lemma InjectKeepsLedger(c: Config, e: EngineState)
    requires LedgerHolds(e) && e.pending != []
    ensures LedgerHolds(Inject(c, e.(pending := e.pending[1..]), e.pending[0], e.lastT))
  {
    hide Find, Put, Balanced, Fresh, IsHeap, Scheduled, Push, AccountOf, Inject, Outstanding, TicksWithin;
    var event, t := e.pending[0], e.lastT;
    var request := RequestOf(event);
    var account := AccountOf(e.log);
    var r := Inject(c, e.(pending := e.pending[1..]), event, t);
    InjectEnters(c, e.(pending := e.pending[1..]), event, t);
    InjectFrame(c, e.(pending := e.pending[1..]), event, t);
    FreshNext(e.pending, account);
    PutAppends(e.active, e.retired, account, request);
    RequestBalances(e.active, e.retired, account, request);
    ApplyBalances(e.active, e.retired, EnterRequest(account, request), request);
    FreshAfter(e.pending, account, EnterRequest(account, request));
    FreshAfter(e.pending, account, EnterApplied(EnterRequest(account, request), event.id));
    if request.duration.Some? {
      PushKeepsHeap(e.clears, Entry(t + request.duration.value, request));
    }
    InjectSchedules(c, e, event);
    MoreTicksWithin(e.ticks, |e.log|, |r.log|);
  }

  lemma InjectFrame(c: Config, e: EngineState, event: ScenarioEvent, t: real)
    ensures var r := Inject(c, e, event, t);
            r.ticks == e.ticks && r.lastT == e.lastT && |r.log| == |e.log| + 2 && e.log <= r.log
    ensures var r := Inject(c, e, event, t);
            !IsApplication(r.log[|e.log|], event.id) && (c.applies(|e.log|) ==> IsApplication(r.log[|e.log| + 1], event.id))
  {
    hide Put, Push, Watches;
  }

  lemma MoreTicksWithin(ticks: seq<Tick>, n: nat, m: nat)
    requires TicksWithin(ticks, n) && n <= m
    ensures TicksWithin(ticks, m)
  {
  }

  /** An applied injection is due its duration after the observation under way. */
  lemma InjectSchedules(c: Config, e: EngineState, event: ScenarioEvent)
    requires LedgerHolds(e) && e.pending != [] && event.id !in AccountOf(e.log).applied
    ensures var request, r := RequestOf(event), Inject(c, e.(pending := e.pending[1..]), event, e.lastT);
            Scheduled(if c.applies(|e.log|) then e.active + [request] else e.active, r.clears, r.log, ClockOf(r))
  {
    hide LedgerHolds, Scheduled, Push, Put, AccountOf, Inject, Outstanding, TicksWithin, AppliedAt, Clock.At, EnterRequest, EnterApplied;
    var taken, request := e.(pending := e.pending[1..]), RequestOf(event);
    var r := Inject(c, taken, event, e.lastT);
    LedgerIsOutstanding(e);
    InjectEnters(c, taken, event, e.lastT);
    InjectFrame(c, taken, event, e.lastT);
    ScheduledStays(e.active, e.clears, e.log, ClockOf(e), e.active, r.log, ClockOf(r));
    if c.applies(|e.log|) {
      AppliedIsLogged(e.log, event.id);
      JustApplied(e.log, r.log, event.id);
      LedgerTicks(e);
      MoreTicksWithin(e.ticks, |e.log|, |e.log| + 1);
      UnderWay(ClockOf(r), |e.log| + 1);
      ScheduledAfterPut(e.active, e.clears, request, e.lastT, r.log, ClockOf(r));
    }
  }

  lemma LedgerTicks(e: EngineState)
    requires LedgerHolds(e)
    ensures TicksWithin(e.ticks, |e.log|)
  {
    hide TicksWithin;
  }

  lemma JustApplied(before: seq<RunEvent>, after: seq<RunEvent>, id: EventId)
    requires AppliedAt(before, id) == |before| && before <= after && |after| == |before| + 2
    requires !IsApplication(after[|before|], id) && IsApplication(after[|before| + 1], id)
    ensures AppliedAt(after, id) == |before| + 1
  {
    assert forall j :: 0 <= j < |before| ==> after[j] == before[j];
  }

  lemma FreshNext(pending: seq<ScenarioEvent>, a: Account)
    requires Fresh(pending, a) && pending != []
    ensures pending[0].id !in a.applied
  {
  }

  lemma FreshAfter(pending: seq<ScenarioEvent>, a: Account, b: Account)
    requires Fresh(pending, a) && pending != []
    requires b.applied == a.applied || b.applied == a.applied + {pending[0].id}
    ensures Fresh(pending[1..], b)
  {
  }

  lemma ScheduledAfterPut(active: seq<InjectionRequest>, clears: seq<Entry<InjectionRequest>>, request: InjectionRequest, t: real,
                          log: seq<RunEvent>, clock: Clock)
    requires Scheduled(active, clears, log, clock) && AppliedTime(log, clock, request.eventId) == t
    ensures Scheduled(active + [request],
                      if request.duration.Some? then Push(clears, Entry(t + request.duration.value, request)) else clears, log, clock)
  {
    hide AppliedTime;
    if request.duration.Some? {
      var entry := Entry(t + request.duration.value, request);
      var more := Push(clears, entry);
      forall r | r in active + [request] && r.duration.Some?
        ensures Entry(Due(log, clock, r), r) in more
      {
        var wanted := Entry(Due(log, clock, r), r);
        if r in active {
          assert wanted in clears;
          assert wanted in multiset(clears);
        }
        assert wanted in multiset(more);
      }
    }
  }

  /** Taking an injection off the books by a logged clear. */
  lemma ClearBalances(active: seq<InjectionRequest>, retired: seq<InjectionRequest>, a: Account, id: EventId)
    requires Balanced(active, retired, a) && id in ActiveIds(active)
    ensures Balanced(Remove(active, id), retired, a.(cleared := a.cleared + {id}, clearedEvents := a.clearedEvents + 1))
  {
    RemoveDrops(active, id);
    var r :| r in active && r.eventId == id;
    assert Unaccounted(a.(cleared := a.cleared + {id}, clearedEvents := a.clearedEvents + 1), Remove(active, id)) == Unaccounted(a, active);
  }

  lemma ClearKeepsBalance(e: EngineState, request: InjectionRequest, t: real, reason: ClearReason)
    requires Balanced(e.active, e.retired, AccountOf(e.log))
    ensures var r := Clear(e, request, t, reason);
            Balanced(r.active, r.retired, AccountOf(r.log)) && AccountOf(r.log).applied == AccountOf(e.log).applied
            && (forall x :: x in r.active <==> x in e.active && x.eventId != request.eventId)
  {
    hide AccountOf;
    var id := request.eventId;
    var k := Find(e.active, id);
    BalancedIsDistinct(e.active, e.retired, AccountOf(e.log));
    RemoveDrops(e.active, id);
    assert k < |e.active| ==> e.active[k] in e.active && id in ActiveIds(e.active);
    hide Balanced, Distinct, ActiveIds;
    if k < |e.active| {
      ClearBalances(e.active, e.retired, AccountOf(e.log), id);
      AccountAppend(e.log, NewEvent(e.log, t, InjectionCleared, Some(request.subsystem), None, None, Some(id), ClearDetails(reason)));
    }
  }

  /** One due clear: the entry goes, and with it the injection if it is still active. */
  lemma ClearDueStepKeepsLedger(e: EngineState)
    requires LedgerHolds(e) && e.clears != []
    ensures LedgerHolds(Clear(e.(clears := Pop(e.clears)), e.clears[0].item, e.lastT, DurationElapsed))
  {
    hide Pop, AccountOf, Balanced, Clear, Find, Remove, IsHeap, Scheduled, Outstanding, AppliedAt, Clock.At, TicksWithin, Fresh;
    var request := e.clears[0].item;
    var popped := e.(clears := Pop(e.clears));
    var r := Clear(popped, request, e.lastT, DurationElapsed);
    ClearKeepsBalance(popped, request, e.lastT, DurationElapsed);
    PopKeepsHeap(e.clears);
    LedgerIsOutstanding(e);
    ScheduledStays(e.active, e.clears, e.log, ClockOf(e), r.active, r.log, ClockOf(r));
    PoppedSchedule(e.clears, r.active, r.log, ClockOf(r));
    MoreTicksWithin(e.ticks, |e.log|, |r.log|);
    FreshStays(e.pending, AccountOf(e.log), AccountOf(r.log));
  }

  lemma FreshStays(pending: seq<ScenarioEvent>, a: Account, b: Account)
    requires Fresh(pending, a) && b.applied == a.applied
    ensures Fresh(pending, b)
  {
  }

  lemma PoppedSchedule(clears: seq<Entry<InjectionRequest>>, active: seq<InjectionRequest>, log: seq<RunEvent>, clock: Clock)
    requires clears != [] && Scheduled(active, clears, log, clock) && IsHeap(clears)
    requires forall r :: r in active ==> r.eventId != clears[0].item.eventId
    ensures Scheduled(active, Pop(clears), log, clock)
  {
    hide AppliedTime, Pop, IsHeap;
    PopKeepsHeap(clears);
    forall r | r in active && r.duration.Some?
      ensures Entry(Due(log, clock, r), r) in Pop(clears)
    {
      var entry := Entry(Due(log, clock, r), r);
      assert entry in multiset(clears);
      assert entry != clears[0];
      assert entry in multiset(Pop(clears));
    }
  }

  lemma {:induction false} InjectDueKeepsLedger(c: Config, e: EngineState)
    requires LedgerHolds(e)
    ensures LedgerHolds(InjectDue(c, e, e.lastT))
    decreases |e.pending|
  {
    hide LedgerHolds, Inject;
    if e.pending != [] && e.pending[0].at <= e.lastT {
      var taken := e.(pending := e.pending[1..]);
      InjectKeepsLedger(c, e);
      InjectLeavesPending(c, taken, e.pending[0], e.lastT);
      InjectFrame(c, taken, e.pending[0], e.lastT);
      InjectDueKeepsLedger(c, Inject(c, taken, e.pending[0], e.lastT));
    }
  }

  lemma {:induction false} ClearDueKeepsLedger(e: EngineState)
    requires LedgerHolds(e)
    ensures LedgerHolds(ClearDue(e, e.lastT))
    decreases |e.clears|
  {
    hide LedgerHolds, Clear, Pop;
    if e.clears != [] && e.clears[0].at <= e.lastT {
      ClearDueStepKeepsLedger(e);
      ClearDueKeepsLedger(Clear(e.(clears := Pop(e.clears)), e.clears[0].item, e.lastT, DurationElapsed));
    }
  }

  /** The scenario's events come in order of their times. */
  ghost predicate InSchedule(pending: seq<ScenarioEvent>) {
    forall i, j :: 0 <= i < j < |pending| ==> pending[i].at <= pending[j].at
  }

  lemma {:induction false} NothingDuePending(c: Config, e: EngineState, t: real)
    requires InSchedule(e.pending)
    ensures InSchedule(InjectDue(c, e, t).pending)
    ensures forall i :: 0 <= i < |InjectDue(c, e, t).pending| ==> InjectDue(c, e, t).pending[i].at > t
    decreases |e.pending|
  {
    hide Inject;
    if e.pending != [] && e.pending[0].at <= t {
      var step := Inject(c, e.(pending := e.pending[1..]), e.pending[0], t);
      InjectLeavesPending(c, e.(pending := e.pending[1..]), e.pending[0], t);
      NothingDuePending(c, step, t);
    }
  }

  lemma {:induction false} NothingDueScheduled(e: EngineState, t: real)
    requires IsHeap(e.clears)
    ensures forall k :: 0 <= k < |ClearDue(e, t).clears| ==> ClearDue(e, t).clears[k].at > t
    decreases |e.clears|
  {
    hide Clear, Pop;
    if e.clears != [] && e.clears[0].at <= t {
      PopKeepsHeap(e.clears);
      NothingDueScheduled(Clear(e.(clears := Pop(e.clears)), e.clears[0].item, t, DurationElapsed), t);
    } else {
      forall k | 0 <= k < |e.clears|
        ensures e.clears[k].at > t
      {
        RootIsEarliest(e.clears, k);
      }
    }
  }

  ghost predicate AllLater(clears: seq<Entry<InjectionRequest>>, t: real) {
    forall k :: 0 <= k < |clears| ==> clears[k].at > t
  }

  /** After the scheduling step of an observation no event due by then is pending, no clear due by then is scheduled,
      and every active bounded injection ends strictly later. */
  lemma NothingDueIsLeft(c: Config, e: EngineState)
    requires LedgerHolds(e) && InSchedule(e.pending)
    ensures var t := e.lastT;
            var r := ProcessScheduled(c, e, t);
            LedgerHolds(r) && InSchedule(r.pending)
            && (forall i :: 0 <= i < |r.pending| ==> r.pending[i].at > t)
            && AllLater(r.clears, t)
            && (forall x :: x in r.active && x.duration.Some? ==> DueAt(r, x) > t)
  {
    hide InjectDue, ClearDue, Balanced, Fresh, AccountOf, Due;
    var t := e.lastT;
    InjectDueKeepsLedger(c, e);
    NothingDuePending(c, e, t);
    ClearDueKeepsLedger(InjectDue(c, e, t));
    NothingDueScheduled(InjectDue(c, e, t), t);
    var r := ProcessScheduled(c, e, t);
    assert r.lastT == t && AllLater(r.clears, t);
    LaterEnds(r, t);
  }

  /** What has a later clear ends later. */
  lemma LaterEnds(e: EngineState, t: real)
    requires LedgerHolds(e) && AllLater(e.clears, t)
    ensures forall x :: x in e.active && x.duration.Some? ==> DueAt(e, x) > t
  {
    hide Balanced, Fresh, AccountOf, Due, IsHeap, TicksWithin;
    forall x | x in e.active && x.duration.Some?
      ensures DueAt(e, x) > t
    {
      var k :| 0 <= k < |e.clears| && e.clears[k] == Entry(Due(e.log, ClockOf(e), x), x);
    }
  }

  /** A return to health retires the transient injections on that component and nothing else. */
  lemma RetireBalances(active: seq<InjectionRequest>, retired: seq<InjectionRequest>, a: Account, subsystem: Id)
    requires Balanced(active, retired, a)
    ensures Balanced(RetireOn(active, subsystem), retired + RetiredOn(active, subsystem), a)
    ensures forall r :: r in RetireOn(active, subsystem) ==> r in active
  {
    RetireDrops(active, subsystem);
    RetiredAreDropped(active, subsystem);
    var rest, gone := RetireOn(active, subsystem), RetiredOn(active, subsystem);
    forall r | r in gone
      ensures (r.eventId, r.effect) in a.requested && r.eventId in ActiveIds(active)
    {
      assert r in active;
    }
    BothRetire(active, retired, gone, rest, a);
    hide Unaccounted, Distinct, ActiveIds;
    assert forall r :: r in retired + gone <==> r in retired || r in gone;
  }

  /** Moving active injections to the retired ones moves their ids. */
  lemma BothRetire(active: seq<InjectionRequest>, retired: seq<InjectionRequest>, gone: seq<InjectionRequest>, rest: seq<InjectionRequest>, a: Account)
    requires Distinct(retired) && Distinct(gone) && Outstanding(active, a)
    requires ActiveIds(retired) == Unaccounted(a, active) && ActiveIds(gone) <= ActiveIds(active)
    requires ActiveIds(rest) == ActiveIds(active) - ActiveIds(gone)
    ensures Distinct(retired + gone) && ActiveIds(retired + gone) == Unaccounted(a, rest)
  {
    IdsOfBoth(retired, gone);
    forall id | id in ActiveIds(gone)
      ensures id in a.applied - a.cleared && id !in ActiveIds(retired)
    {
      var r :| r in active && r.eventId == id;
    }
    DistinctBoth(retired, gone);
  }

  lemma IdsOfBoth(a: seq<InjectionRequest>, b: seq<InjectionRequest>)
    ensures ActiveIds(a + b) == ActiveIds(a) + ActiveIds(b)
  {
    forall id
      ensures id in ActiveIds(a + b) <==> id in ActiveIds(a) || id in ActiveIds(b)
    {
      if r :| r in a && r.eventId == id {
        assert r in a + b;
      }
      if r :| r in b && r.eventId == id {
        assert r in a + b;
      }
    }
  }

  lemma DistinctBoth(a: seq<InjectionRequest>, b: seq<InjectionRequest>)
    requires Distinct(a) && Distinct(b) && ActiveIds(a) !! ActiveIds(b)
    ensures Distinct(a + b)
  {
    forall i, j | 0 <= i < j < |a + b|
      ensures (a + b)[i].eventId != (a + b)[j].eventId
    {
      if i < |a| <= j {
        assert a[i] in a && b[j - |a|] in b;
        assert a[i].eventId in ActiveIds(a) && b[j - |a|].eventId in ActiveIds(b);
      }
    }
  }

  lemma {:induction false} RetiredAreDropped(active: seq<InjectionRequest>, subsystem: Id)
    requires Distinct(active)
    ensures Distinct(RetiredOn(active, subsystem))
    ensures forall r :: r in RetiredOn(active, subsystem) <==> r in active && r.subsystem == subsystem && r.effect.IsTransient()
    ensures ActiveIds(RetireOn(active, subsystem)) == ActiveIds(active) - ActiveIds(RetiredOn(active, subsystem))
  {
    RetireDrops(active, subsystem);
    if active != [] {
      RetiredAreDropped(active[1..], subsystem);
      assert active == [active[0]] + active[1..];
      forall j | 0 <= j < |RetiredOn(active[1..], subsystem)|
        ensures RetiredOn(active[1..], subsystem)[j].eventId != active[0].eventId
      {
        assert RetiredOn(active[1..], subsystem)[j] in active[1..];
      }
    }
    var gone, rest := RetiredOn(active, subsystem), RetireOn(active, subsystem);
    hide RetiredOn, RetireOn;
    SplitIds(active, rest, gone);
  }

  lemma SplitIds(active: seq<InjectionRequest>, rest: seq<InjectionRequest>, gone: seq<InjectionRequest>)
    requires Distinct(active)
    requires forall r :: r in rest <==> r in active && r !in gone
    requires forall r :: r in gone ==> r in active
    ensures ActiveIds(rest) == ActiveIds(active) - ActiveIds(gone)
  {
    forall id
      ensures id in ActiveIds(rest) <==> id in ActiveIds(active) && id !in ActiveIds(gone)
    {
      if id in ActiveIds(active) {
        var r :| r in active && r.eventId == id;
        assert forall x :: x in active && x.eventId == id ==> x == r;
      }
    }
  }

  lemma ChangeKeepsLedger(c: Config, e: EngineState, change: StateChange)
    requires LedgerHolds(e)
    ensures LedgerHolds(ApplyChange(c, e, change, e.lastT)) && ApplyChange(c, e, change, e.lastT).clears == e.clears
  {
    hide AccountOf, Balanced, Fresh, IsHeap, Scheduled, Appended, CauseOf, ChangeEvent, RetireOn, RetiredOn, NextFaults, Outstanding,
         AppliedAt, Clock.At, TicksWithin;
    var step := ApplyChange(c, e, change, e.lastT);
    AccountIgnores(e.log, step.log, CHANGES, e.lastT);
    RetireBalances(e.active, e.retired, AccountOf(e.log), change.subsystem);
    LedgerIsOutstanding(e);
    LongerLog(e.log, step.log, CHANGES, e.lastT);
    ScheduledStays(e.active, e.clears, e.log, ClockOf(e), step.active, step.log, ClockOf(step));
    MoreTicksWithin(e.ticks, |e.log|, |step.log|);
  }

  lemma LongerLog(before: seq<RunEvent>, after: seq<RunEvent>, kinds: set<EventKind>, t: real)
    requires Appended(before, after, kinds, t)
    ensures before <= after
  {
  }

  lemma {:induction false} ChangesKeepLedger(c: Config, e: EngineState, changes: seq<StateChange>)
    requires LedgerHolds(e)
    ensures LedgerHolds(ApplyChanges(c, e, changes, e.lastT)) && ApplyChanges(c, e, changes, e.lastT).clears == e.clears
    decreases |changes|
  {
    hide LedgerHolds, ApplyChange;
    if changes != [] {
      ChangeKeepsLedger(c, e, changes[0]);
      ChangesKeepLedger(c, ApplyChange(c, e, changes[0], e.lastT), changes[1..]);
    }
  }

  /** A step within an observation that leaves injections alone and logs nothing about them. */
  lemma QuietKeepsLedger(e: EngineState, r: EngineState, kinds: set<EventKind>, t: real)
    requires LedgerHolds(e) && Appended(e.log, r.log, kinds, t) && r.ticks == e.ticks && r.lastT == e.lastT
    requires InjectionRequested !in kinds && InjectionApplied !in kinds && InjectionCleared !in kinds
    requires r.active == e.active && r.retired == e.retired && r.clears == e.clears && r.pending == e.pending
    ensures LedgerHolds(r)
  {
    hide AccountOf, Balanced, Fresh, IsHeap, Scheduled, Outstanding, AppliedAt, Clock.At, TicksWithin;
    AccountIgnores(e.log, r.log, kinds, t);
    LedgerIsOutstanding(e);
    ScheduledStays(e.active, e.clears, e.log, ClockOf(e), r.active, r.log, ClockOf(r));
    MoreTicksWithin(e.ticks, |e.log|, |r.log|);
  }

  lemma ObservationKeepsLedger(c: Config, e: EngineState, o: Observation)
    requires LedgerHolds(e) && e.lastT == o.sample.t
    ensures LedgerHolds(ProcessObservation(c, e, o)) && ProcessObservation(c, e, o).clears == e.clears
  {
    hide ApplyChanges, Respond, Progress, LedgerHolds, Appended, AnyRecovering;
    var t := o.sample.t;
    var changed := ApplyChanges(c, e, o.changes, t);
    ChangesKeepLedger(c, e, o.changes);
    var responded := Respond(changed, o.responses, t);
    QuietKeepsLedger(changed, responded, {SystemResponded}, t);
    var progressed := Progress(responded, o.missionEvents, t);
    QuietKeepsLedger(responded, progressed, {MissionProgress}, t);
    var followed := FollowRecovery(progressed);
    AppendedNothing(progressed.log, t);
    QuietKeepsLedger(progressed, followed, {}, t);
  }

  lemma AppendedNothing(log: seq<RunEvent>, t: real)
    ensures Appended(log, log, {}, t)
  {
  }

  // ---- Between observations

  /** Every active injection was applied by a finished tick, and every clear is due after the last one. */
  ghost predicate LedgerSettled(e: EngineState) {
    && LedgerHolds(e) && InSchedule(e.pending)
    && (forall r :: r in e.active ==> AppliedAt(e.log, r.eventId) < ClockOf(e).Logged())
    && (if e.ticks == [] then e.clears == [] else AllLater(e.clears, e.ticks[|e.ticks| - 1].t))
  }

  /** The next observation begins: no due time moves. */
  lemma NextKeepsLedger(e: EngineState, t: real)
    requires LedgerSettled(e)
    ensures LedgerSettled(e.(lastT := t))
    ensures forall r :: r in e.active ==> DueAt(e.(lastT := t), r) == DueAt(e, r)
  {
    hide AccountOf, Balanced, Fresh, IsHeap, Outstanding, AppliedAt, Clock.At, TicksWithin;
    var late := e.(lastT := t);
    LedgerIsOutstanding(e);
    forall r | r in e.active
      ensures ClockOf(late).At(AppliedAt(e.log, r.eventId)) == ClockOf(e).At(AppliedAt(e.log, r.eventId))
    {
      SettledAt(ClockOf(e), t, AppliedAt(e.log, r.eventId));
    }
    ScheduledStays(e.active, e.clears, e.log, ClockOf(e), e.active, e.log, ClockOf(late));
  }

  /** An observation ends. */
  lemma EndKeepsLedger(e: EngineState, r: EngineState, states: Health)
    requires LedgerHolds(e) && InSchedule(e.pending) && AllLater(e.clears, e.lastT)
    requires r.log == e.log && r.active == e.active && r.retired == e.retired && r.clears == e.clears && r.pending == e.pending
    requires r.lastT == e.lastT && r.ticks == e.ticks + [Tick(e.lastT, states, |e.log|)]
    ensures LedgerSettled(r)
  {
    hide AccountOf, Balanced, Fresh, IsHeap, Outstanding, AppliedAt, Clock.At, AllLater, InSchedule;
    LedgerIsOutstanding(e);
    forall i: nat
      ensures ClockOf(r).At(i) == ClockOf(e).At(i)
    {
      TickDone(ClockOf(e), Tick(e.lastT, states, |e.log|), i);
    }
    ScheduledStays(e.active, e.clears, e.log, ClockOf(e), e.active, e.log, ClockOf(r));
  }

  lemma TickKeepsLedger(c: Config, e: EngineState, o: Observation)
    requires LedgerSettled(e)
    ensures LedgerSettled(ProcessTick(c, e, o))
  {
    hide ProcessScheduled, ProcessObservation, JudgeEach, LedgerHolds, Appended, InSchedule, AllLater;
    var t := o.sample.t;
    var late := e.(lastT := t);
    NextKeepsLedger(e, t);
    NothingDueIsLeft(c, late);
    var scheduled := ProcessScheduled(c, late, t);
    ObservationKeepsLedger(c, scheduled, o);
    var observed := ProcessObservation(c, scheduled, o);
    var judged := ProcessExpectations(observed, t);
    QuietKeepsLedger(observed, judged, {ExpectationResult}, t);
    EndKeepsLedger(judged, ProcessTick(c, e, o), observed.states);
  }

  lemma EmitKeepsLedger(e: EngineState, kind: EventKind)
    requires LedgerSettled(e) && kind !in INJECTING && kind != InjectionCleared
    ensures LedgerSettled(Emit(e, e.lastT, kind, None, None, None, None, NoDetails))
  {
    hide LedgerHolds, Appended, InSchedule, AllLater, AppliedAt;
    var r := Emit(e, e.lastT, kind, None, None, None, None, NoDetails);
    QuietKeepsLedger(e, r, {kind}, e.lastT);
    LedgerIsOutstanding(e);
    LongerLog(e.log, r.log, {kind}, e.lastT);
    forall x | x in e.active
      ensures AppliedAt(r.log, x.eventId) == AppliedAt(e.log, x.eventId)
    {
      AppliedStays(e.log, r.log, x.eventId);
    }
  }

  lemma {:induction false} LoopKeepsLedger(c: Config, e: EngineState, feed: seq<Input>)
    requires LedgerSettled(e)
    ensures LedgerSettled(Loop(c, e, feed).0)
    decreases |feed|
  {
    hide ProcessTick, LedgerSettled;
    if feed != [] {
      var o := feed[0].observation;
      var t := o.sample.t;
      if feed[0].cancelled {
        NextKeepsLedger(e, t);
        EmitKeepsLedger(e.(lastT := t), LifecycleEvent);
      } else {
        TickKeepsLedger(c, e, o);
        EmitKeepsLedger(ProcessTick(c, e, o), MissionProgress);
        LoopKeepsLedger(c, ProcessTick(c, e, o), feed[1..]);
      }
    }
  }

  /** The engine's clock stands at the last processed observation, unless a cancel request was noticed at a later one. */
  ghost predicate AtLastTick(e: EngineState) {
    if e.ticks == [] then e.lastT == 0.0 else e.lastT == e.ticks[|e.ticks| - 1].t
  }

  lemma {:induction false} LoopClock(c: Config, e: EngineState, feed: seq<Input>)
    requires AtLastTick(e)
    ensures Loop(c, e, feed).1 != CancelRequested ==> AtLastTick(Loop(c, e, feed).0)
    decreases |feed|
  {
    hide ProcessTick;
    if feed != [] && !feed[0].cancelled {
      TickTime(c, e, feed[0].observation);
      LoopClock(c, ProcessTick(c, e, feed[0].observation), feed[1..]);
    }
  }

  // ---- Scenario end

  lemma ClearAtEndKeepsBalance(e: EngineState, request: InjectionRequest, t: real)
    requires Balanced(e.active, e.retired, AccountOf(e.log)) && request in e.active
    ensures var r := ClearAtEnd(e, request, t);
            Balanced(r.active, r.retired, AccountOf(r.log))
            && (forall x :: x in r.active <==>
                  x in e.active && (x != request || (request.duration.Some? && !request.effect.IsTransient())))
  {
    hide AccountOf;
    var a := AccountOf(e.log);
    SameIdSameRequest(e.active, e.retired, a, request);
    if request.duration.None? && !request.effect.IsTransient() {
      hide Balanced, Clear;
      ClearKeepsBalance(e, request, t, ScenarioEnd);
    } else if request.effect.IsTransient() {
      EndBalances(e.active, e.retired, a, request);
    }
  }

  /** A transient injection dropped at scenario end. */
  lemma EndBalances(active: seq<InjectionRequest>, retired: seq<InjectionRequest>, a: Account, request: InjectionRequest)
    requires Balanced(active, retired, a) && request in active && request.effect.IsTransient()
    ensures Balanced(Remove(active, request.eventId), retired + [request], a)
    ensures forall x :: x in Remove(active, request.eventId) <==> x in active && x.eventId != request.eventId
  {
    RemoveDrops(active, request.eventId);
    var rest := Remove(active, request.eventId);
    assert ActiveIds([request]) == {request.eventId} by {
      assert request in [request];
    }
    assert request.eventId in ActiveIds(active);
    BothRetire(active, retired, [request], rest, a);
    hide Unaccounted, Distinct, ActiveIds;
    assert forall r :: r in retired + [request] <==> r in retired || r == request;
  }

  lemma SameIdSameRequest(active: seq<InjectionRequest>, retired: seq<InjectionRequest>, a: Account, request: InjectionRequest)
    requires Balanced(active, retired, a) && request in active
    ensures forall x :: x in active && x.eventId == request.eventId ==> x == request
  {
  }

  lemma {:induction false} ClearEachKeepsBalance(e: EngineState, requests: seq<InjectionRequest>, t: real)
    requires Balanced(e.active, e.retired, AccountOf(e.log)) && Distinct(requests)
    requires forall x :: x in requests ==> x in e.active
    ensures var r := ClearEach(e, requests, t);
            Balanced(r.active, r.retired, AccountOf(r.log))
            && (forall x :: x in r.active <==>
                  x in e.active && (x !in requests || (x.duration.Some? && !x.effect.IsTransient())))
    decreases |requests|
  {
    hide AccountOf, Balanced, ClearAtEnd;
    if requests != [] {
      assert requests == [requests[0]] + requests[1..];
      ClearAtEndKeepsBalance(e, requests[0], t);
      ClearEachKeepsBalance(ClearAtEnd(e, requests[0], t), requests[1..], t);
    }
  }

  ghost predicate UniqueInOrder(events: seq<ScenarioEvent>) {
    InSchedule(events) && forall i, j :: 0 <= i < j < |events| ==> events[i].id != events[j].id
  }

  /** Which of the active injections the closing steps leave active: those with a duration that do not end on their own,
      and all of them when the target failed. */
  predicate Stays(request: InjectionRequest, exit: Exit, raises: bool) {
    (exit == Exhausted && raises) || (request.duration.Some? && !request.effect.IsTransient())
  }

  lemma CloseKeepsBalance(e: EngineState, exit: Exit, raises: bool)
    requires LedgerHolds(e)
    ensures var r := Close(e, exit, raises).0;
            && Balanced(r.active, r.retired, AccountOf(r.log)) && e.log <= r.log
            && (forall x :: x in r.active <==> x in e.active && Stays(x, exit, raises))
            && r.ticks == e.ticks && r.lastT == e.lastT
  {
    hide AccountOf, Balanced, Fresh, Scheduled, IsHeap, JudgeEach, ClearEach, FlushEach, Appended;
    var t := e.lastT;
    if exit == Exhausted && raises {
      QuietKeepsLedger(e, Emit(e, t, LifecycleEvent, None, None, None, None, NoDetails), {LifecycleEvent}, t);
    } else {
      var flushed := FlushExpectations(e, t);
      QuietKeepsLedger(e, flushed, {ExpectationResult}, t);
      BalancedIsDistinct(flushed.active, flushed.retired, AccountOf(flushed.log));
      ClearEachKeepsBalance(flushed, flushed.active, t);
      LongerLog(e.log, flushed.log, {ExpectationResult}, t);
      LongerLog(flushed.log, ClearAll(flushed, t).log, {InjectionCleared}, t);
    }
  }

  /** Main result. For every scenario with distinct event ids in schedule order, every adapter, every feed and every way
      a run can end, its log is balanced: each applied injection was cleared once, was dropped once as a transient, or is
      still active. */
  lemma RunIsBalanced(c: Config, events: seq<ScenarioEvent>, setup: Setup, feed: seq<Input>, raises: bool)
    requires UniqueInOrder(events)
    ensures var r := Run(c, events, setup, feed, raises).0;
            var a := AccountOf(r.log);
            && Balanced(r.active, r.retired, a)
            && a.appliedEvents == a.clearedEvents + |r.retired| + |r.active|
            && (forall x :: x in r.retired ==> x.effect.IsTransient() && x.eventId in a.applied && x.eventId !in a.cleared)
  {
    hide Loop, Balanced, Close, LedgerSettled, AccountOf, Abandon, StartRun;
    var r := Run(c, events, setup, feed, raises).0;
    if setup.Prepared? {
      var start := StartRun(events, setup.states);
      StartLedger(events, setup.states);
      LoopKeepsLedger(c, start, feed);
      var (looped, exit) := Loop(c, start, feed);
      SettledHolds(looped);
      CloseKeepsBalance(looped, exit, raises);
    } else {
      AbandonBalances(events, setup);
    }
    Conservation(r.active, r.retired, AccountOf(r.log));
  }

  lemma SettledHolds(e: EngineState)
    requires LedgerSettled(e)
    ensures LedgerHolds(e)
  {
    hide LedgerHolds;
  }

  lemma AbandonBalances(events: seq<ScenarioEvent>, setup: Setup)
    requires !setup.Prepared?
    ensures var r := Abandon(events, setup).0; Balanced(r.active, r.retired, AccountOf(r.log))
  {
    var r := Abandon(events, setup).0;
    assert r.log == [] + [r.log[0]];
    AccountAppend([], r.log[0]);
  }

  /** Main result. What stays active when a run ends: exactly what `Stays` says of the injections active when the loop was
      left, none of them cleared in the log; and each of them that has a duration was not yet due at the last processed
      observation. */
  lemma RunLeavesActive(c: Config, events: seq<ScenarioEvent>, states: Health, feed: seq<Input>, raises: bool)
    requires UniqueInOrder(events)
    ensures var (looped, exit) := Loop(c, StartRun(events, states), feed);
            var r := Run(c, events, Setup.Prepared(states), feed, raises).0;
            && r.ticks == looped.ticks && r.lastT == looped.lastT
            && (forall x :: x in r.active <==> x in looped.active && Stays(x, exit, raises))
            && (forall x :: x in r.active ==> x.eventId !in AccountOf(r.log).cleared && DueAt(r, x) == DueAt(looped, x))
            && (forall x :: x in looped.active && x.duration.Some? ==>
                  r.ticks != [] && DueAt(looped, x) > r.ticks[|r.ticks| - 1].t)
  {
    hide Loop, Balanced, Close, LedgerSettled, AccountOf, StartRun, Due, Stays;
    var start := StartRun(events, states);
    var (looped, exit) := Loop(c, start, feed);
    var r := Close(looped, exit, raises).0;
    StartLedger(events, states);
    LoopKeepsLedger(c, start, feed);
    SettledHolds(looped);
    CloseKeepsBalance(looped, exit, raises);
    SettledEnds(looped);
    BalancedIsOutstanding(r.active, r.retired, AccountOf(r.log));
    forall x | x in r.active
      ensures DueAt(r, x) == DueAt(looped, x)
    {
      LedgerIsOutstanding(looped);
      DueStays(looped, r, x);
    }
  }

  lemma DueStays(e: EngineState, r: EngineState, x: InjectionRequest)
    requires e.log <= r.log && r.ticks == e.ticks && r.lastT == e.lastT && AppliedAt(e.log, x.eventId) < |e.log|
    ensures DueAt(r, x) == DueAt(e, x)
  {
    hide AppliedAt, Clock.At;
    AppliedStays(e.log, r.log, x.eventId);
  }

  /** Between observations, what is active and bounded ends after the last tick. */
  lemma SettledEnds(e: EngineState)
    requires LedgerSettled(e)
    ensures forall x :: x in e.active && x.duration.Some? ==> e.ticks != [] && DueAt(e, x) > e.ticks[|e.ticks| - 1].t
  {
    hide Balanced, Fresh, IsHeap, AccountOf, AppliedAt, Due, AllLater;
    if e.ticks != [] {
      LaterEnds(e, e.ticks[|e.ticks| - 1].t);
    }
  }

  lemma BalancedIsOutstanding(active: seq<InjectionRequest>, retired: seq<InjectionRequest>, a: Account)
    requires Balanced(active, retired, a)
    ensures forall r :: r in active ==> r.eventId !in a.cleared
  {
  }

  /** Main result, the exact condition for an overdue injection to stay active: the loop was left because a cancel request
      was noticed, and then it is any persistent one due between the last processed observation and the one at which
      the request was noticed. In every other run whatever stays active with a duration is not yet due. */
  lemma OverdueOnlyWhenCancelled(c: Config, events: seq<ScenarioEvent>, states: Health, feed: seq<Input>, raises: bool, x: InjectionRequest)
    requires UniqueInOrder(events)
    ensures var (looped, exit) := Loop(c, StartRun(events, states), feed);
            var r := Run(c, events, Setup.Prepared(states), feed, raises).0;
            x in r.active && x.duration.Some? && DueAt(r, x) <= r.lastT
            <==> && exit == CancelRequested
                 && x in looped.active && x.duration.Some? && !x.effect.IsTransient()
                 && r.ticks != [] && r.ticks[|r.ticks| - 1].t < DueAt(looped, x) <= r.lastT
  {
    hide Loop, Run, StartRun, Due, AccountOf;
    StartAtTick(events, states);
    LoopClock(c, StartRun(events, states), feed);
    RunLeavesActive(c, events, states, feed, raises);
  }

  lemma StartAtTick(events: seq<ScenarioEvent>, states: Health)
    ensures AtLastTick(StartRun(events, states))
  {
  }

  lemma BalancedIsDistinct(active: seq<InjectionRequest>, retired: seq<InjectionRequest>, a: Account)
    requires Balanced(active, retired, a)
    ensures Distinct(active)
  {
  }

  lemma StartLedger(events: seq<ScenarioEvent>, states: Health)
    requires UniqueInOrder(events)
    ensures LedgerSettled(StartRun(events, states))
  {
    var start := StartRun(events, states);
    var first := start.log[0];
    assert start.log == [] + [first];
    AccountAppend([], first);
  }
}
