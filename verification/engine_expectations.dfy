/** Expectations: each one made is decided exactly once, by the documented reading of its window. */
module EngineExpectations {
  import opened Options
  import opened States
  import opened RunLog
  import opened EngineModel
  import opened EngineClock
  import opened EngineLedger
  import EnginePairing
  import HeapQueue

  // ---- What the engine does with one expectation, tick by tick

  function Judge(p: Watch, v: Verdict, t: real, observed: ComponentState): Verdict {
    if v.Decided? || t <= p.requestedAt then v
    else
      var (verdict, left) := Status(p.(leftHealthy := v.leftHealthy), observed, t);
      if verdict.Some? then Decided(verdict.value) else Undecided(left)
  }

  function Scan(p: Watch, ticks: seq<Tick>): Verdict {
    if ticks == [] then Undecided(false)
    else
      var last := ticks[|ticks| - 1];
      Judge(p, Scan(p, ticks[..|ticks| - 1]), last.t, Observed(last.states, p.expectation.subsystem))
  }

  lemma ScanAppend(p: Watch, ticks: seq<Tick>, tick: Tick)
    ensures Scan(p, ticks + [tick]) == Judge(p, Scan(p, ticks), tick.t, Observed(tick.states, p.expectation.subsystem))
  {
    assert (ticks + [tick])[..|ticks|] == ticks;
  }

  // ---- The documented meaning

  /** The tick comes after the request and no such tick before it was past the deadline: the first
      tick past the deadline still counts. */
  ghost predicate InWindow(p: Watch, ticks: seq<Tick>, i: nat)
    requires i < |ticks|
  {
    ticks[i].t > p.requestedAt && !PastDeadline(p, ticks[..i])
  }

  ghost predicate PastDeadline(p: Watch, ticks: seq<Tick>) {
    exists j :: 0 <= j < |ticks| && ticks[j].t > p.requestedAt && ticks[j].t > p.deadline
  }

  function SeenAt(p: Watch, ticks: seq<Tick>, i: nat): ComponentState
    requires i < |ticks|
  {
    Observed(ticks[i].states, p.expectation.subsystem)
  }

  ghost predicate LeftHealthy(p: Watch, ticks: seq<Tick>) {
    exists i :: 0 <= i < |ticks| && InWindow(p, ticks, i) && !SeenAt(p, ticks, i).IsHealthy()
  }

  ghost predicate LeftAndReturned(p: Watch, ticks: seq<Tick>) {
    exists i, j :: 0 <= i < j < |ticks| && InWindow(p, ticks, i) && InWindow(p, ticks, j)
                   && !SeenAt(p, ticks, i).IsHealthy() && SeenAt(p, ticks, j).IsHealthy()
  }

  ghost predicate Reached(p: Watch, ticks: seq<Tick>) {
    exists i :: 0 <= i < |ticks| && InWindow(p, ticks, i) && SeenAt(p, ticks, i) == p.expectation.state
  }

  /** Recovered: the component left the healthy states and came back. Another healthy state: it
      stayed healthy throughout. Any other state: that exact state was seen. */
  ghost predicate Holds(p: Watch, ticks: seq<Tick>) {
    if p.expectation.state.Recovered? then LeftAndReturned(p, ticks)
    else if p.expectation.state.IsHealthy() then !LeftHealthy(p, ticks)
    else Reached(p, ticks)
  }

  /** One more tick adds its own observation to the window, when the window is still open. */
  lemma WindowGrows(p: Watch, ticks: seq<Tick>, tick: Tick)
    ensures var more := ticks + [tick];
            var n := |ticks|;
            (forall i :: 0 <= i < n ==> (InWindow(p, more, i) <==> InWindow(p, ticks, i)) && SeenAt(p, more, i) == SeenAt(p, ticks, i))
            && (InWindow(p, more, n) <==> tick.t > p.requestedAt && !PastDeadline(p, ticks))
            && (PastDeadline(p, more) <==> PastDeadline(p, ticks) || (tick.t > p.requestedAt && tick.t > p.deadline))
  {
    var more := ticks + [tick];
    assert more[..|ticks|] == ticks;
    forall i | 0 <= i < |ticks|
      ensures more[..i] == ticks[..i]
    {
    }
    if PastDeadline(p, ticks) {
      var j :| 0 <= j < |ticks| && ticks[j].t > p.requestedAt && ticks[j].t > p.deadline;
      assert more[j] == ticks[j];
    }
    if tick.t > p.requestedAt && tick.t > p.deadline {
      assert more[|ticks|] == tick;
    }
    if PastDeadline(p, more) && !(tick.t > p.requestedAt && tick.t > p.deadline) {
      var j :| 0 <= j < |more| && more[j].t > p.requestedAt && more[j].t > p.deadline;
      assert j < |ticks| && ticks[j] == more[j];
    }
  }

  /** How the three readings change with one more tick. */
  lemma ReadingsGrow(p: Watch, ticks: seq<Tick>, tick: Tick)
    ensures var more := ticks + [tick];
            var counts := tick.t > p.requestedAt && !PastDeadline(p, ticks);
            var seen := Observed(tick.states, p.expectation.subsystem);
            (LeftHealthy(p, more) <==> LeftHealthy(p, ticks) || (counts && !seen.IsHealthy()))
            && (Reached(p, more) <==> Reached(p, ticks) || (counts && seen == p.expectation.state))
            && (LeftAndReturned(p, more) <==> LeftAndReturned(p, ticks) || (counts && seen.IsHealthy() && LeftHealthy(p, ticks)))
  {
    WindowGrows(p, ticks, tick);
    hide InWindow, PastDeadline;
    var more := ticks + [tick];
    var n := |ticks|;
    assert SeenAt(p, more, n) == Observed(tick.states, p.expectation.subsystem);
    if LeftHealthy(p, ticks) {
      var i :| 0 <= i < n && InWindow(p, ticks, i) && !SeenAt(p, ticks, i).IsHealthy();
      assert InWindow(p, more, i) && !SeenAt(p, more, i).IsHealthy();
    }
    if LeftAndReturned(p, ticks) {
      var i, j :| 0 <= i < j < n && InWindow(p, ticks, i) && InWindow(p, ticks, j)
                  && !SeenAt(p, ticks, i).IsHealthy() && SeenAt(p, ticks, j).IsHealthy();
      assert InWindow(p, more, i) && InWindow(p, more, j);
    }
    if Reached(p, ticks) {
      var i :| 0 <= i < n && InWindow(p, ticks, i) && SeenAt(p, ticks, i) == p.expectation.state;
      assert InWindow(p, more, i) && SeenAt(p, more, i) == p.expectation.state;
    }
  }

  /** The engine's step-by-step scan computes the documented reading, whatever the ticks. */
  lemma {:induction false} ScanMeansHolds(p: Watch, ticks: seq<Tick>)
    ensures var v := Scan(p, ticks);
            && (v.Decided? ==> v.passed == Holds(p, ticks))
            && (v.Decided? && !PastDeadline(p, ticks) ==>
                  v.passed == (p.expectation.state.Recovered? || !p.expectation.state.IsHealthy()))
            && (v.Undecided? ==> !PastDeadline(p, ticks))
            && (v.Undecided? && p.expectation.state.Recovered? ==> !LeftAndReturned(p, ticks))
            && (v.Undecided? && !p.expectation.state.IsHealthy() ==> !Reached(p, ticks))
            && (v.Undecided? && p.expectation.state.Recovered? ==> v.leftHealthy == LeftHealthy(p, ticks))
            && (v.Undecided? && !p.expectation.state.Recovered? && p.expectation.state.IsHealthy() ==> !LeftHealthy(p, ticks))
    decreases |ticks|
  {
    if ticks != [] {
      var before, last := ticks[..|ticks| - 1], ticks[|ticks| - 1];
      assert ticks == before + [last];
      ScanMeansHolds(p, before);
      ScanAppend(p, before, last);
      WindowGrows(p, before, last);
      ReadingsGrow(p, before, last);
      hide LeftHealthy, LeftAndReturned, Reached, InWindow, PastDeadline, Scan;
    }
  }

  // ---- Against the strict reading

  /** The strict window: after the request and up to the deadline. */
  ghost predicate InTime(p: Watch, ticks: seq<Tick>, i: nat)
    requires i < |ticks|
  {
    p.requestedAt < ticks[i].t <= p.deadline
  }

  ghost predicate LeftHealthyInTime(p: Watch, ticks: seq<Tick>) {
    exists i :: 0 <= i < |ticks| && InTime(p, ticks, i) && !SeenAt(p, ticks, i).IsHealthy()
  }

  ghost predicate LeftAndReturnedInTime(p: Watch, ticks: seq<Tick>) {
    exists i, j :: 0 <= i < j < |ticks| && InTime(p, ticks, i) && InTime(p, ticks, j)
                   && !SeenAt(p, ticks, i).IsHealthy() && SeenAt(p, ticks, j).IsHealthy()
  }

  ghost predicate ReachedInTime(p: Watch, ticks: seq<Tick>) {
    exists i :: 0 <= i < |ticks| && InTime(p, ticks, i) && SeenAt(p, ticks, i) == p.expectation.state
  }

  /** The three readings over the strict window. */
  ghost predicate HoldsInTime(p: Watch, ticks: seq<Tick>) {
    if p.expectation.state.Recovered? then LeftAndReturnedInTime(p, ticks)
    else if p.expectation.state.IsHealthy() then !LeftHealthyInTime(p, ticks)
    else ReachedInTime(p, ticks)
  }

  /** The first tick past the deadline shows what was still missing: the return, the first departure, or the state. */
  ghost predicate LateTickDecides(p: Watch, ticks: seq<Tick>) {
    exists i :: 0 <= i < |ticks| && InWindow(p, ticks, i) && ticks[i].t > p.deadline && ShowsMissing(p, ticks, SeenAt(p, ticks, i))
  }

  ghost predicate ShowsMissing(p: Watch, ticks: seq<Tick>, seen: ComponentState) {
    if p.expectation.state.Recovered? then LeftHealthyInTime(p, ticks) && !LeftAndReturnedInTime(p, ticks) && seen.IsHealthy()
    else if p.expectation.state.IsHealthy() then !LeftHealthyInTime(p, ticks) && !seen.IsHealthy()
    else !ReachedInTime(p, ticks) && seen == p.expectation.state
  }

  ghost predicate InTimeOrder(ticks: seq<Tick>) {
    forall i, j :: 0 <= i < j < |ticks| ==> ticks[i].t <= ticks[j].t
  }

  /** For ordered ticks the window is the strict window and the first tick past the deadline, which ends it. */
  lemma WindowIsStrictAndLate(p: Watch, ticks: seq<Tick>, i: nat)
    requires InTimeOrder(ticks) && i < |ticks|
    ensures InTime(p, ticks, i) <==> InWindow(p, ticks, i) && ticks[i].t <= p.deadline
    ensures InWindow(p, ticks, i) && ticks[i].t > p.deadline ==> forall j :: i < j < |ticks| ==> !InWindow(p, ticks, j)
  {
    assert forall j :: 0 <= j < i ==> ticks[..i][j] == ticks[j] && ticks[j].t <= ticks[i].t;
    if InWindow(p, ticks, i) && ticks[i].t > p.deadline {
      forall j | i < j < |ticks|
        ensures !InWindow(p, ticks, j)
      {
        assert ticks[..j][i] == ticks[i];
      }
    }
  }

  ghost predicate WindowSplits(p: Watch, ticks: seq<Tick>) {
    forall i :: 0 <= i < |ticks| ==>
      && (InTime(p, ticks, i) <==> InWindow(p, ticks, i) && ticks[i].t <= p.deadline)
      && (InWindow(p, ticks, i) && ticks[i].t > p.deadline ==> forall j :: i < j < |ticks| ==> !InWindow(p, ticks, j))
  }

  /** An entry of the window is in time or late. */
  lemma StateUnlessLate(p: Watch, ticks: seq<Tick>)
    requires WindowSplits(p, ticks) && !p.expectation.state.Recovered? && !p.expectation.state.IsHealthy()
    ensures (Reached(p, ticks) <==> ReachedInTime(p, ticks)) <==> !LateTickDecides(p, ticks)
  {
    hide InWindow, InTime;
    if Reached(p, ticks) && !ReachedInTime(p, ticks) {
      var i :| 0 <= i < |ticks| && InWindow(p, ticks, i) && SeenAt(p, ticks, i) == p.expectation.state;
      assert ShowsMissing(p, ticks, SeenAt(p, ticks, i));
    }
    if ReachedInTime(p, ticks) {
      var i :| 0 <= i < |ticks| && InTime(p, ticks, i) && SeenAt(p, ticks, i) == p.expectation.state;
      assert InWindow(p, ticks, i);
    }
  }

  lemma HealthUnlessLate(p: Watch, ticks: seq<Tick>)
    requires WindowSplits(p, ticks) && !p.expectation.state.Recovered? && p.expectation.state.IsHealthy()
    ensures (LeftHealthy(p, ticks) <==> LeftHealthyInTime(p, ticks)) <==> !LateTickDecides(p, ticks)
  {
    hide InWindow, InTime;
    if LeftHealthy(p, ticks) && !LeftHealthyInTime(p, ticks) {
      var i :| 0 <= i < |ticks| && InWindow(p, ticks, i) && !SeenAt(p, ticks, i).IsHealthy();
      assert ShowsMissing(p, ticks, SeenAt(p, ticks, i));
    }
    if LeftHealthyInTime(p, ticks) {
      var i :| 0 <= i < |ticks| && InTime(p, ticks, i) && !SeenAt(p, ticks, i).IsHealthy();
      assert InWindow(p, ticks, i);
    }
  }

  lemma ReturnUnlessLate(p: Watch, ticks: seq<Tick>)
    requires WindowSplits(p, ticks) && p.expectation.state.Recovered?
    ensures (LeftAndReturned(p, ticks) <==> LeftAndReturnedInTime(p, ticks)) <==> !LateTickDecides(p, ticks)
  {
    hide InWindow, InTime;
    if LeftAndReturned(p, ticks) && !LeftAndReturnedInTime(p, ticks) {
      var i, j :| 0 <= i < j < |ticks| && InWindow(p, ticks, i) && InWindow(p, ticks, j)
                  && !SeenAt(p, ticks, i).IsHealthy() && SeenAt(p, ticks, j).IsHealthy();
      assert InTime(p, ticks, i);
      assert ShowsMissing(p, ticks, SeenAt(p, ticks, j));
    }
    if LeftAndReturnedInTime(p, ticks) {
      var i, j :| 0 <= i < j < |ticks| && InTime(p, ticks, i) && InTime(p, ticks, j)
                  && !SeenAt(p, ticks, i).IsHealthy() && SeenAt(p, ticks, j).IsHealthy();
      assert InWindow(p, ticks, i) && InWindow(p, ticks, j);
    }
    if LateTickDecides(p, ticks) {
      var j :| 0 <= j < |ticks| && InWindow(p, ticks, j) && ticks[j].t > p.deadline && ShowsMissing(p, ticks, SeenAt(p, ticks, j));
      var i :| 0 <= i < |ticks| && InTime(p, ticks, i) && !SeenAt(p, ticks, i).IsHealthy();
      assert InWindow(p, ticks, i) && i != j;
    }
  }

  /** The exact condition: the verdict is the strict reading if and only if the first tick past the deadline does not
      show what was still missing. */
  lemma StrictUnlessLateTick(p: Watch, ticks: seq<Tick>)
    requires InTimeOrder(ticks)
    ensures (Holds(p, ticks) <==> HoldsInTime(p, ticks)) <==> !LateTickDecides(p, ticks)
  {
    hide InWindow, InTime, InTimeOrder, LeftHealthy, LeftAndReturned, Reached, LeftHealthyInTime, LeftAndReturnedInTime, ReachedInTime,
         LateTickDecides;
    forall i | 0 <= i < |ticks|
      ensures InTime(p, ticks, i) <==> InWindow(p, ticks, i) && ticks[i].t <= p.deadline
      ensures InWindow(p, ticks, i) && ticks[i].t > p.deadline ==> forall j :: i < j < |ticks| ==> !InWindow(p, ticks, j)
    {
      WindowIsStrictAndLate(p, ticks, i);
    }
    if p.expectation.state.Recovered? {
      ReturnUnlessLate(p, ticks);
    } else if p.expectation.state.IsHealthy() {
      HealthUnlessLate(p, ticks);
    } else {
      StateUnlessLate(p, ticks);
    }
  }

  // ---- One verdict per expectation in the log

  predicate IsVerdict(e: RunEvent, serial: nat) {
    e.kind == ExpectationResult && e.details.VerdictDetails? && e.details.serial == serial
  }

  /** The verdicts logged for one expectation object. */
  function Verdicts(log: seq<RunEvent>, serial: nat): seq<bool> {
    if log == [] then []
    else
      var last := log[|log| - 1];
      var rest := Verdicts(log[..|log| - 1], serial);
      if IsVerdict(last, serial) then rest + [last.details.passed] else rest
  }

  lemma VerdictsAppend(log: seq<RunEvent>, e: RunEvent, serial: nat)
    ensures Verdicts(log + [e], serial)
         == if IsVerdict(e, serial) then Verdicts(log, serial) + [e.details.passed]
            else Verdicts(log, serial)
  {
    assert (log + [e])[..|log|] == log;
  }

  /** No event after the first `from` ones carries a verdict. */
  ghost predicate NoVerdicts(log: seq<RunEvent>, from: nat) {
    forall i :: from <= i < |log| ==> log[i].kind != ExpectationResult
  }

  lemma {:induction false} VerdictsIgnore(before: seq<RunEvent>, after: seq<RunEvent>, serial: nat)
    requires before <= after && NoVerdicts(after, |before|)
    ensures Verdicts(after, serial) == Verdicts(before, serial)
    decreases |after|
  {
    if |after| > |before| {
      VerdictsIgnore(before, after[..|after| - 1], serial);
    } else {
      assert after == before;
    }
  }

  /** What one tick leaves under watch. */
  function StillWatched(todo: seq<Watch>, states: Health, t: real): seq<Watch> {
    if todo == [] then []
    else
      var p := todo[0];
      var v := JudgeNow(p, states, t);
      (if v.Undecided? then [p.(leftHealthy := v.leftHealthy)] else []) + StillWatched(todo[1..], states, t)
  }

  /** What one tick decides about one expectation object. */
  function DecidedNow(todo: seq<Watch>, states: Health, t: real, serial: nat): seq<bool> {
    if todo == [] then []
    else
      var p := todo[0];
      var v := JudgeNow(p, states, t);
      (if v.Decided? && p.serial == serial then [v.passed] else []) + DecidedNow(todo[1..], states, t, serial)
  }

  lemma EmittedVerdict(e: EngineState, p: Watch, t: real, passed: bool, serial: nat)
    ensures Verdicts(EmitVerdict(e, p, t, passed).log, serial)
         == if p.serial == serial then Verdicts(e.log, serial) + [passed] else Verdicts(e.log, serial)
    ensures EmitVerdict(e, p, t, passed) == e.(log := EmitVerdict(e, p, t, passed).log)
  {
    VerdictsAppend(e.log, EmitVerdict(e, p, t, passed).log[|e.log|], serial);
  }

  lemma {:induction false} JudgeEachKeeps(e: EngineState, todo: seq<Watch>, kept: seq<Watch>, t: real)
    ensures JudgeEach(e, todo, kept, t).expectations == kept + StillWatched(todo, e.states, t)
    decreases |todo|
  {
    hide EmitVerdict, JudgeNow, Verdicts, Appended;
    if todo != [] {
      var p := todo[0];
      var v := JudgeNow(p, e.states, t);
      if v.Undecided? {
        var keep := p.(leftHealthy := v.leftHealthy);
        JudgeEachKeeps(e, todo[1..], kept + [keep], t);
        assert kept + [keep] + StillWatched(todo[1..], e.states, t) == kept + StillWatched(todo, e.states, t);
      } else {
        EmittedVerdict(e, p, t, v.passed, 0);
        JudgeEachKeeps(EmitVerdict(e, p, t, v.passed), todo[1..], kept, t);
      }
    }
  }

  lemma {:induction false} JudgeEachDecides(e: EngineState, todo: seq<Watch>, kept: seq<Watch>, t: real, serial: nat)
    ensures Verdicts(JudgeEach(e, todo, kept, t).log, serial) == Verdicts(e.log, serial) + DecidedNow(todo, e.states, t, serial)
    decreases |todo|
  {
    hide Verdicts, EmitVerdict, JudgeNow;
    if todo != [] {
      var p := todo[0];
      var v := JudgeNow(p, e.states, t);
      if v.Undecided? {
        JudgeEachDecides(e, todo[1..], kept + [p.(leftHealthy := v.leftHealthy)], t, serial);
      } else {
        EmittedVerdict(e, p, t, v.passed, serial);
        JudgeEachDecides(EmitVerdict(e, p, t, v.passed), todo[1..], kept, t, serial);
      }
    }
  }

  lemma {:induction false} FlushEachDecides(e: EngineState, todo: seq<Watch>, t: real, serial: nat)
    requires forall i :: 0 <= i < |todo| ==> todo[i].requestedAt <= t && t >= 0.0
    ensures Verdicts(FlushEach(e, todo, t).log, serial) == Verdicts(e.log, serial) + FlushedNow(todo, e.states, t, serial)
    decreases |todo|
  {
    hide Verdicts, EmitVerdict, Status;
    if todo != [] {
      var p := todo[0];
      var (verdict, left) := Status(p, Observed(e.states, p.expectation.subsystem), FlushTime(p, t));
      var step := EmitVerdict(e, p, t, verdict == Some(true));
      EmittedVerdict(e, p, t, verdict == Some(true), serial);
      FlushEachDecides(step, todo[1..], t, serial);
    }
  }

  /** The verdicts of the flush: a tick past every deadline with the final states. */
  function FlushedNow(todo: seq<Watch>, states: Health, t: real, serial: nat): seq<bool> {
    if todo == [] then []
    else
      var p := todo[0];
      var v := JudgeNow(p, states, FlushTime(p, t));
      (if p.serial == serial then [v == Decided(true)] else []) + FlushedNow(todo[1..], states, t, serial)
  }

  // ---- The invariant

  ghost predicate Rising(todo: seq<Watch>) {
    forall i, j :: 0 <= i < j < |todo| ==> todo[i].serial < todo[j].serial
  }

  /** The watch list holds exactly the undecided expectations, in the state their scan is in. */
  ghost predicate ListMatches(todo: seq<Watch>, created: seq<Watch>, ticks: seq<Tick>) {
    forall i :: 0 <= i < |todo| ==>
      && todo[i].serial < |created|
      && Scan(created[todo[i].serial], ticks) == Undecided(todo[i].leftHealthy)
      && todo[i] == created[todo[i].serial].(leftHealthy := todo[i].leftHealthy)
  }

  ghost predicate Listed(todo: seq<Watch>, serial: nat) {
    exists i :: 0 <= i < |todo| && todo[i].serial == serial
  }

  /** One verdict for each decided expectation and none for the others. */
  ghost predicate LogMatches(todo: seq<Watch>, created: seq<Watch>, ticks: seq<Tick>, log: seq<RunEvent>) {
    && (forall k :: 0 <= k < |created| ==>
          if Listed(todo, k) then Verdicts(log, k) == []
          else Scan(created[k], ticks).Decided? && Verdicts(log, k) == [Scan(created[k], ticks).passed])
    && (forall k :: k >= |created| ==> Verdicts(log, k) == [])
  }

  ghost predicate Numbered(created: seq<Watch>, t: real) {
    forall k :: 0 <= k < |created| ==>
      created[k].serial == k && !created[k].leftHealthy && created[k].requestedAt <= t
  }

  ghost predicate TicksUntil(ticks: seq<Tick>, t: real) {
    forall i :: 0 <= i < |ticks| ==> ticks[i].t <= t
  }

  ghost predicate ExpectationsHold(e: EngineState) {
    && Numbered(e.created, e.lastT)
    && TicksUntil(e.ticks, e.lastT)
    && Rising(e.expectations)
    && ListMatches(e.expectations, e.created, e.ticks)
    && LogMatches(e.expectations, e.created, e.ticks, e.log)
  }

  lemma {:induction false} NotYetScanned(p: Watch, ticks: seq<Tick>)
    requires TicksUntil(ticks, p.requestedAt)
    ensures Scan(p, ticks) == Undecided(false)
    decreases |ticks|
  {
    if ticks != [] {
      NotYetScanned(p, ticks[..|ticks| - 1]);
    }
  }

  // ---- Steps keep it

  /** New expectations join the list undecided. */
  lemma ListGrows(todo: seq<Watch>, created: seq<Watch>, ticks: seq<Tick>, event: ScenarioEvent, t: real)
    requires Rising(todo) && ListMatches(todo, created, ticks) && TicksUntil(ticks, t)
    ensures var added := Watches(event, t, |created|);
            Rising(todo + added) && ListMatches(todo + added, created + added, ticks)
            && (forall k: nat :: Listed(todo + added, k) <==> Listed(todo, k) || |created| <= k < |created| + |added|)
  {
    var added := Watches(event, t, |created|);
    forall i | 0 <= i < |added|
      ensures Scan(added[i], ticks) == Undecided(false)
    {
      NotYetScanned(added[i], ticks);
    }
    assert forall i :: 0 <= i < |added| ==> added[i].serial == |created| + i;
    hide Scan;
    forall k: nat
      ensures Listed(todo + added, k) <==> Listed(todo, k) || |created| <= k < |created| + |added|
    {
      if Listed(todo, k) {
        var i :| 0 <= i < |todo| && todo[i].serial == k;
        assert (todo + added)[i].serial == k;
      }
      if |created| <= k < |created| + |added| {
        assert (todo + added)[|todo| + k - |created|].serial == k;
      }
    }
  }

  /** New expectations start undecided and without a verdict. */
  lemma WatchesKeep(e: EngineState, r: EngineState, event: ScenarioEvent)
    requires ExpectationsHold(e)
    requires r.expectations == e.expectations + Watches(event, e.lastT, |e.created|)
    requires r.created == e.created + Watches(event, e.lastT, |e.created|)
    requires r.ticks == e.ticks && r.lastT == e.lastT
    requires e.log <= r.log && NoVerdicts(r.log, |e.log|)
    ensures ExpectationsHold(r)
  {
    ListGrows(e.expectations, e.created, e.ticks, event, e.lastT);
    hide Scan, Verdicts, ListMatches, Rising, Listed;
    forall k: nat
      ensures Verdicts(r.log, k) == Verdicts(e.log, k)
    {
      VerdictsIgnore(e.log, r.log, k);
    }
  }

  lemma QuietKeepsExpectations(e: EngineState, r: EngineState)
    requires ExpectationsHold(e)
    requires r.expectations == e.expectations && r.created == e.created && r.ticks == e.ticks && e.lastT <= r.lastT
    requires e.log <= r.log && NoVerdicts(r.log, |e.log|)
    ensures ExpectationsHold(r)
  {
    forall k: nat
      ensures Verdicts(r.log, k) == Verdicts(e.log, k)
    {
      VerdictsIgnore(e.log, r.log, k);
    }
  }

  /** Nothing is decided or listed under a serial that was not under watch. */
  lemma {:induction false} UnlistedStays(todo: seq<Watch>, states: Health, t: real, serial: nat)
    requires forall i :: 0 <= i < |todo| ==> todo[i].serial != serial
    ensures DecidedNow(todo, states, t, serial) == []
    ensures forall i :: 0 <= i < |StillWatched(todo, states, t)| ==> StillWatched(todo, states, t)[i].serial != serial
    decreases |todo|
  {
    if todo != [] {
      UnlistedStays(todo[1..], states, t, serial);
    }
  }

  /** `q` is `p` after a judgement that left it undecided. */
  ghost predicate KeptAs(p: Watch, q: Watch, states: Health, t: real) {
    JudgeNow(p, states, t).Undecided? && q == p.(leftHealthy := JudgeNow(p, states, t).leftHealthy)
  }

  /** What stays under watch keeps its order. */
  lemma {:induction false} StillRising(todo: seq<Watch>, states: Health, t: real)
    requires Rising(todo)
    ensures Rising(StillWatched(todo, states, t))
    ensures forall i :: 0 <= i < |StillWatched(todo, states, t)| ==> todo != [] && StillWatched(todo, states, t)[i].serial >= todo[0].serial
    decreases |todo|
  {
    if todo != [] {
      hide JudgeNow;
      StillRising(todo[1..], states, t);
    }
  }

  /** Every expectation still watched is one of those watched before. */
  lemma {:induction false} StillFrom(todo: seq<Watch>, states: Health, t: real, j: nat) returns (i: nat)
    requires j < |StillWatched(todo, states, t)|
    ensures i < |todo| && KeptAs(todo[i], StillWatched(todo, states, t)[j], states, t)
    decreases |todo|
  {
    hide JudgeNow;
    var kept := JudgeNow(todo[0], states, t).Undecided?;
    if kept && j == 0 {
      i := 0;
    } else {
      var k := StillFrom(todo[1..], states, t, if kept then j - 1 else j);
      i := k + 1;
    }
  }

  /** Each watched expectation is either decided once now or stays listed. */
  lemma {:induction false} DecidedOrListed(todo: seq<Watch>, states: Health, t: real, j: nat)
    requires Rising(todo) && j < |todo|
    ensures var v := JudgeNow(todo[j], states, t);
            if v.Undecided? then Listed(StillWatched(todo, states, t), todo[j].serial) && DecidedNow(todo, states, t, todo[j].serial) == []
            else !Listed(StillWatched(todo, states, t), todo[j].serial) && DecidedNow(todo, states, t, todo[j].serial) == [v.passed]
    decreases |todo|
  {
    var r, rest := StillWatched(todo, states, t), StillWatched(todo[1..], states, t);
    if j == 0 {
      UnlistedStays(todo[1..], states, t, todo[0].serial);
      if JudgeNow(todo[0], states, t).Undecided? {
        assert r[0].serial == todo[0].serial;
      }
    } else {
      DecidedOrListed(todo[1..], states, t, j - 1);
      if JudgeNow(todo[j], states, t).Undecided? {
        var i :| 0 <= i < |rest| && rest[i].serial == todo[j].serial;
        assert r[i + |r| - |rest|] == rest[i];
      }
    }
  }

  /** One tick's verdicts are the ones the scans reach at that tick. */
  lemma LogAfterTick(todo: seq<Watch>, created: seq<Watch>, ticks: seq<Tick>, log: seq<RunEvent>, tick: Tick, longer: seq<RunEvent>)
    requires Rising(todo) && ListMatches(todo, created, ticks) && LogMatches(todo, created, ticks, log)
    requires forall k :: 0 <= k < |created| ==> !created[k].leftHealthy
    requires forall k: nat :: Verdicts(longer, k) == Verdicts(log, k) + DecidedNow(todo, tick.states, tick.t, k)
    ensures LogMatches(StillWatched(todo, tick.states, tick.t), created, ticks + [tick], longer)
  {
    var still := StillWatched(todo, tick.states, tick.t);
    hide StillWatched, DecidedNow, Verdicts, JudgeNow, Scan, ListMatches;
    forall k | 0 <= k < |created|
      ensures if Listed(still, k) then Verdicts(longer, k) == []
              else Scan(created[k], ticks + [tick]).Decided? && Verdicts(longer, k) == [Scan(created[k], ticks + [tick]).passed]
    {
      ScanAppend(created[k], ticks, tick);
      if Listed(todo, k) {
        var j :| 0 <= j < |todo| && todo[j].serial == k;
        DecidedOrListed(todo, tick.states, tick.t, j);
        JudgeIsScan(todo, created, ticks, tick, j);
      } else {
        UnlistedStays(todo, tick.states, tick.t, k);
      }
    }
    forall k: nat | k >= |created|
      ensures Verdicts(longer, k) == []
    {
      if Listed(todo, k) {
        var j :| 0 <= j < |todo| && todo[j].serial == k;
        ListedIsCreated(todo, created, ticks, j);
      }
      UnlistedStays(todo, tick.states, tick.t, k);
    }
  }

  lemma ListedIsCreated(todo: seq<Watch>, created: seq<Watch>, ticks: seq<Tick>, j: nat)
    requires ListMatches(todo, created, ticks) && j < |todo|
    ensures todo[j].serial < |created|
  {
  }

  /** Processing the expectations at one tick. */
  lemma JudgeKeepsExpectations(e: EngineState, r: EngineState, tick: Tick)
    requires ExpectationsHold(e) && e.lastT <= tick.t && tick.states == e.states
    requires var judged := ProcessExpectations(e, tick.t);
             r.expectations == judged.expectations && r.log == judged.log && r.created == e.created
             && r.ticks == e.ticks + [tick] && r.lastT == tick.t
    ensures ExpectationsHold(r)
  {
    var todo, states, t := e.expectations, e.states, tick.t;
    forall k: nat
      ensures Verdicts(r.log, k) == Verdicts(e.log, k) + DecidedNow(todo, states, t, k)
    {
      JudgeEachDecides(e, todo, [], t, k);
    }
    JudgeEachKeeps(e, todo, [], t);
    assert r.expectations == StillWatched(todo, states, t);
    hide JudgeEach, StillWatched, DecidedNow, Verdicts, ListMatches, LogMatches, Rising, Scan;
    TickMatchesList(todo, e.created, e.ticks, tick);
    LogAfterTick(todo, e.created, e.ticks, e.log, tick, r.log);
  }

  /** For a listed expectation the step is the next step of its scan. */
  lemma JudgeIsScan(todo: seq<Watch>, created: seq<Watch>, ticks: seq<Tick>, tick: Tick, j: nat)
    requires ListMatches(todo, created, ticks) && j < |todo|
    requires forall k :: 0 <= k < |created| ==> !created[k].leftHealthy
    ensures JudgeNow(todo[j], tick.states, tick.t) == Scan(created[todo[j].serial], ticks + [tick])
  {
    ScanAppend(created[todo[j].serial], ticks, tick);
  }

  lemma TickMatchesList(todo: seq<Watch>, created: seq<Watch>, ticks: seq<Tick>, tick: Tick)
    requires Rising(todo) && ListMatches(todo, created, ticks)
    requires forall k :: 0 <= k < |created| ==> !created[k].leftHealthy
    ensures Rising(StillWatched(todo, tick.states, tick.t))
    ensures ListMatches(StillWatched(todo, tick.states, tick.t), created, ticks + [tick])
  {
    var r := StillWatched(todo, tick.states, tick.t);
    StillRising(todo, tick.states, tick.t);
    hide StillWatched, Scan, JudgeNow;
    forall i | 0 <= i < |r|
      ensures r[i].serial < |created| && Scan(created[r[i].serial], ticks + [tick]) == Undecided(r[i].leftHealthy)
              && r[i] == created[r[i].serial].(leftHealthy := r[i].leftHealthy)
    {
      var k := StillFrom(todo, tick.states, tick.t, i);
      JudgeIsScan(todo, created, ticks, tick, k);
    }
  }

  // ---- The whole run

  lemma InjectKeepsExpectations(c: Config, e: EngineState, event: ScenarioEvent)
    requires ExpectationsHold(e)
    ensures ExpectationsHold(Inject(c, e, event, e.lastT)) && Inject(c, e, event, e.lastT).lastT == e.lastT
  {
    hide ExpectationsHold, Put, Watches;
    var r := Inject(c, e, event, e.lastT);
    if c.applies(|e.log|) {
      WatchesKeep(e, r, event);
    } else {
      QuietKeepsExpectations(e, r);
    }
  }

  lemma {:induction false} InjectDueKeepsExpectations(c: Config, e: EngineState)
    requires ExpectationsHold(e)
    ensures ExpectationsHold(InjectDue(c, e, e.lastT))
    decreases |e.pending|
  {
    hide ExpectationsHold;
    if e.pending != [] && e.pending[0].at <= e.lastT {
      var taken := e.(pending := e.pending[1..]);
      var step := Inject(c, taken, e.pending[0], e.lastT);
      SamePending(e, taken);
      InjectKeepsExpectations(c, taken, e.pending[0]);
      hide Inject;
      InjectLeavesPending(c, taken, e.pending[0], e.lastT);
      InjectDueKeepsExpectations(c, step);
    }
  }

  lemma SamePending(e: EngineState, r: EngineState)
    requires ExpectationsHold(e) && r == e.(pending := r.pending)
    ensures ExpectationsHold(r)
  {
  }

  lemma ObservationIsQuiet(c: Config, e: EngineState, o: Observation)
    requires ExpectationsHold(e)
    ensures ExpectationsHold(ProcessObservation(c, e, o))
  {
    hide ApplyChanges, Respond, Progress, ExpectationsHold, AnyRecovering;
    var t := o.sample.t;
    var changed := ApplyChanges(c, e, o.changes, t);
    var responded := Respond(changed, o.responses, t);
    var progressed := Progress(responded, o.missionEvents, t);
    QuietKeepsExpectations(e, changed);
    QuietKeepsExpectations(changed, responded);
    QuietKeepsExpectations(responded, progressed);
    QuietKeepsExpectations(progressed, FollowRecovery(progressed));
  }

  lemma TickKeepsExpectations(c: Config, e: EngineState, o: Observation)
    requires ExpectationsHold(e) && e.lastT <= o.sample.t
    ensures ExpectationsHold(ProcessTick(c, e, o))
  {
    hide ExpectationsHold, InjectDue, ClearDue, ProcessObservation, JudgeEach;
    var t := o.sample.t;
    var late := e.(lastT := t);
    QuietKeepsExpectations(e, late);
    InjectDueKeepsExpectations(c, late);
    var injected := InjectDue(c, late, t);
    var scheduled := ProcessScheduled(c, late, t);
    QuietKeepsExpectations(injected, scheduled);
    ObservationIsQuiet(c, scheduled, o);
    var observed := ProcessObservation(c, scheduled, o);
    var r := ProcessTick(c, e, o);
    JudgeKeepsExpectations(observed, r, r.ticks[|e.ticks|]);
  }

  lemma {:induction false} LoopKeepsExpectations(c: Config, e: EngineState, feed: seq<Input>)
    requires ExpectationsHold(e) && TimesFrom(feed, e.lastT)
    ensures ExpectationsHold(Loop(c, e, feed).0) && Loop(c, e, feed).0.lastT >= e.lastT
    decreases |feed|
  {
    hide ExpectationsHold, ProcessTick;
    if feed != [] {
      TimesAfter(feed, e.lastT);
      var o := feed[0].observation;
      if feed[0].cancelled {
        QuietKeepsExpectations(e, Loop(c, e, feed).0);
      } else {
        var next := ProcessTick(c, e, o);
        TickKeepsExpectations(c, e, o);
        QuietKeepsExpectations(next, Emit(next, o.sample.t, MissionProgress, None, None, None, None, NoDetails));
        LoopKeepsExpectations(c, next, feed[1..]);
      }
    }
  }

  /** The run's ticks, closed by the final states at an instant past the deadline. */
  function Closed(p: Watch, e: EngineState): seq<Tick> {
    e.ticks + [Tick(FlushTime(p, e.lastT), e.states, |e.log|)]
  }

  /** A watched expectation is decided by the closing observation. */
  lemma FlushDecides(p: Watch, e: EngineState)
    requires !p.leftHealthy && p.requestedAt <= e.lastT && e.lastT >= 0.0
    ensures Scan(p, Closed(p, e)).Decided?
    ensures Scan(p, e.ticks).Decided? ==> Scan(p, Closed(p, e)) == Scan(p, e.ticks)
    ensures Scan(p, e.ticks).Undecided? ==>
              JudgeNow(p.(leftHealthy := Scan(p, e.ticks).leftHealthy), e.states, FlushTime(p, e.lastT)) == Scan(p, Closed(p, e))
  {
    ScanAppend(p, e.ticks, Tick(FlushTime(p, e.lastT), e.states, |e.log|));
  }

  lemma {:induction false} FlushUnlisted(todo: seq<Watch>, states: Health, t: real, serial: nat)
    requires forall i :: 0 <= i < |todo| ==> todo[i].serial != serial
    ensures FlushedNow(todo, states, t, serial) == []
    decreases |todo|
  {
    if todo != [] {
      FlushUnlisted(todo[1..], states, t, serial);
    }
  }

  lemma {:induction false} FlushListed(todo: seq<Watch>, states: Health, t: real, j: nat)
    requires Rising(todo) && j < |todo|
    ensures FlushedNow(todo, states, t, todo[j].serial) == [JudgeNow(todo[j], states, FlushTime(todo[j], t)) == Decided(true)]
    decreases |todo|
  {
    if j == 0 {
      FlushUnlisted(todo[1..], states, t, todo[0].serial);
    } else {
      FlushListed(todo[1..], states, t, j - 1);
    }
  }

  /** The flush gives every expectation still under watch its one verdict. */
  lemma FlushSettles(e: EngineState, k: nat)
    requires ExpectationsHold(e) && e.lastT >= 0.0 && k < |e.created|
    ensures Verdicts(FlushExpectations(e, e.lastT).log, k) == [Holds(e.created[k], Closed(e.created[k], e))]
  {
    hide Verdicts, Scan, FlushedNow, FlushEach, JudgeNow, Holds, PastDeadline, LeftHealthy, LeftAndReturned, Reached;
    var p := e.created[k];
    ScanMeansHolds(p, Closed(p, e));
    FlushDecides(p, e);
    FlushEachDecides(e, e.expectations, e.lastT, k);
    if Listed(e.expectations, k) {
      var j :| 0 <= j < |e.expectations| && e.expectations[j].serial == k;
      FlushListed(e.expectations, e.states, e.lastT, j);
    } else {
      FlushUnlisted(e.expectations, e.states, e.lastT, k);
    }
  }

  lemma StartExpectations(events: seq<ScenarioEvent>, states: Health)
    ensures ExpectationsHold(StartRun(events, states)) && StartRun(events, states).lastT == 0.0 && StartRun(events, states).ticks == []
  {
    var start := StartRun(events, states);
    forall k: nat
      ensures Verdicts(start.log, k) == []
    {
      VerdictsIgnore([], start.log, k);
    }
  }

  /** Main result. For every scenario, adapter and feed with non-decreasing times, once the loop is
      left and the run concludes normally, the log holds exactly one verdict for every expectation
      ever made, none is left under watch, and the verdict is the documented reading of the
      observations from the request up to the first tick past the deadline or the end of the run. */
  lemma RunDecidesEachOnce(c: Config, events: seq<ScenarioEvent>, states: Health, feed: seq<Input>, k: nat)
    requires TimesFrom(feed, 0.0)
    requires k < |Loop(c, StartRun(events, states), feed).0.created|
    ensures var looped := Loop(c, StartRun(events, states), feed).0;
            var p := looped.created[k];
            Verdicts(Conclude(looped).log, k) == [Holds(p, Closed(p, looped))] && Conclude(looped).expectations == []
  {
    var start := StartRun(events, states);
    var looped := Loop(c, start, feed).0;
    hide Loop, StartRun, ExpectationsHold, Verdicts, Holds, ClearEach, FlushEach;
    StartExpectations(events, states);
    LoopKeepsExpectations(c, start, feed);
    FlushSettles(looped, k);
    VerdictsIgnore(FlushExpectations(looped, looped.lastT).log, Conclude(looped).log, k);
  }

  /** At run level: the logged verdict is the strict reading of the processed observations and the closing one if and only
      if the first of them past the deadline does not show what was still missing. */
  lemma RunDecidesInTime(c: Config, events: seq<ScenarioEvent>, states: Health, feed: seq<Input>, k: nat)
    requires TimesFrom(feed, 0.0)
    requires k < |Loop(c, StartRun(events, states), feed).0.created|
    ensures var looped := Loop(c, StartRun(events, states), feed).0;
            var p := looped.created[k];
            Verdicts(Conclude(looped).log, k) == [HoldsInTime(p, Closed(p, looped))] <==> !LateTickDecides(p, Closed(p, looped))
  {
    hide Loop, StartRun, ExpectationsHold, Verdicts, Holds, HoldsInTime, LateTickDecides, Conclude, Closed;
    var start := StartRun(events, states);
    var looped := Loop(c, start, feed).0;
    var p := looped.created[k];
    RunDecidesEachOnce(c, events, states, feed, k);
    StartExpectations(events, states);
    LoopKeepsExpectations(c, start, feed);
    EnginePairing.LoopTicks(c, start, feed);
    ClosedInOrder(p, looped, feed);
    StrictUnlessLateTick(p, Closed(p, looped));
  }

  lemma ClosedInOrder(p: Watch, e: EngineState, feed: seq<Input>)
    requires ExpectationsHold(e) && e.lastT >= 0.0 && EnginePairing.TicksOfFeed(e.ticks, 0, feed) && TimesFrom(feed, 0.0)
    ensures InTimeOrder(Closed(p, e))
  {
    hide Verdicts, Scan, ListMatches, LogMatches;
    var ticks := Closed(p, e);
    forall i, j | 0 <= i < j < |ticks|
      ensures ticks[i].t <= ticks[j].t
    {
      assert e.ticks[i].t == feed[i - 0].observation.sample.t;
      if j < |e.ticks| {
        assert e.ticks[j].t == feed[j - 0].observation.sample.t;
      }
    }
  }

  // ---- Every applied injection has its expectations made

  /** The expectations of the event were made together, in order, requested at this time. */
  ghost predicate Made(event: ScenarioEvent, created: seq<Watch>, t: real) {
    exists base: nat :: MadeAt(event, created, base, t)
  }

  ghost predicate MadeAt(event: ScenarioEvent, created: seq<Watch>, base: nat, t: real) {
    base + |event.expectations| <= |created| && created[base..base + |event.expectations|] == Watches(event, t, base)
  }

  /** Every event the log calls applied had its expectations made at the observation that applied it. */
  ghost predicate AllMade(events: seq<ScenarioEvent>, e: EngineState) {
    forall k :: 0 <= k < |events| && AppliedAt(e.log, events[k].id) < |e.log| ==>
      Made(events[k], e.created, AppliedTime(e.log, ClockOf(e), events[k].id))
  }

  ghost predicate OnceEach(events: seq<ScenarioEvent>) {
    forall i, j :: 0 <= i < j < |events| ==> events[i].id != events[j].id
  }

  lemma MadeStays(event: ScenarioEvent, created: seq<Watch>, more: seq<Watch>, t: real)
    requires Made(event, created, t) && created <= more
    ensures Made(event, more, t)
  {
    var base: nat :| MadeAt(event, created, base, t);
    assert more[base..base + |event.expectations|] == created[base..base + |event.expectations|];
    assert MadeAt(event, more, base, t);
  }

  lemma JustMade(event: ScenarioEvent, created: seq<Watch>, t: real)
    ensures Made(event, created + Watches(event, t, |created|), t)
  {
    var more := created + Watches(event, t, |created|);
    assert more[|created|..|created| + |event.expectations|] == Watches(event, t, |created|);
    assert MadeAt(event, more, |created|, t);
  }

  /** Nothing was applied between the two logs. */
  ghost predicate NoneApplied(before: seq<RunEvent>, after: seq<RunEvent>) {
    before <= after && forall i :: |before| <= i < |after| ==> after[i].kind != InjectionApplied
  }

  lemma NoneAppliedHere(before: seq<RunEvent>, after: seq<RunEvent>, kinds: set<EventKind>, t: real)
    requires Appended(before, after, kinds, t) && InjectionApplied !in kinds
    ensures NoneApplied(before, after)
  {
  }

  lemma AppliedBefore(before: seq<RunEvent>, after: seq<RunEvent>, id: EventId)
    requires NoneApplied(before, after) && AppliedAt(after, id) < |after|
    ensures AppliedAt(before, id) == AppliedAt(after, id) < |before|
  {
    var i := AppliedAt(after, id);
    assert before[i] == after[i];
    assert AppliedAt(before, id) <= i;
    AppliedStays(before, after, id);
  }

  /** Steps that apply nothing and make nothing, while the clock keeps the times of what was applied. */
  lemma MadeKept(events: seq<ScenarioEvent>, e: EngineState, r: EngineState)
    requires AllMade(events, e) && NoneApplied(e.log, r.log) && r.created == e.created
    requires forall i :: 0 <= i < |e.log| && e.log[i].kind == InjectionApplied ==> ClockOf(r).At(i) == ClockOf(e).At(i)
    ensures AllMade(events, r)
  {
    hide AppliedAt, Made, Clock.At;
    forall k | 0 <= k < |events| && AppliedAt(r.log, events[k].id) < |r.log|
      ensures Made(events[k], r.created, AppliedTime(r.log, ClockOf(r), events[k].id))
    {
      AppliedBefore(e.log, r.log, events[k].id);
    }
  }

  /** The same within an observation. */
  lemma MadeQuietly(events: seq<ScenarioEvent>, e: EngineState, r: EngineState, kinds: set<EventKind>, t: real)
    requires AllMade(events, e) && Appended(e.log, r.log, kinds, t) && InjectionApplied !in kinds
    requires r.created == e.created && r.ticks == e.ticks && r.lastT == e.lastT
    ensures AllMade(events, r)
  {
    hide AllMade, Clock.At;
    NoneAppliedHere(e.log, r.log, kinds, t);
    MadeKept(events, e, r);
  }

  lemma InjectMakes(c: Config, e: EngineState, event: ScenarioEvent, t: real)
    ensures var r := Inject(c, e, event, t);
            && r.created == (if c.applies(|e.log|) then e.created + Watches(event, t, |e.created|) else e.created)
            && (forall i :: |e.log| <= i < |r.log| ==> !IsApplication(r.log[i], event.id) || (c.applies(|e.log|) && i == |e.log| + 1))
            && (forall i, id :: |e.log| <= i < |r.log| && IsApplication(r.log[i], id) ==> id == event.id)
  {
    hide Put, HeapQueue.Push, Watches;
  }

  /** An injection makes its expectations at the observation under way, and leaves the others. */
  lemma InjectKeepsMade(c: Config, e: EngineState, event: ScenarioEvent, events: seq<ScenarioEvent>, n: nat)
    requires OnceEach(events) && n < |events| && event == events[n]
    requires AllMade(events, e) && TicksWithin(e.ticks, |e.log|)
    ensures AllMade(events, Inject(c, e, event, e.lastT))
  {
    hide AppliedAt, Made, Clock.At, Inject, Watches, TicksWithin;
    var r := Inject(c, e, event, e.lastT);
    InjectMakes(c, e, event, e.lastT);
    InjectFrame(c, e, event, e.lastT);
    forall k | 0 <= k < |events| && AppliedAt(r.log, events[k].id) < |r.log|
      ensures Made(events[k], r.created, AppliedTime(r.log, ClockOf(r), events[k].id))
    {
      if AppliedAt(e.log, events[k].id) < |e.log| {
        AppliedStays(e.log, r.log, events[k].id);
        MadeStays(events[k], e.created, r.created, AppliedTime(e.log, ClockOf(e), events[k].id));
      } else {
        NewlyApplied(e.log, r.log, events[k].id);
        assert k == n && c.applies(|e.log|);
        JustApplied(e.log, r.log, event.id);
        MoreTicksWithin(e.ticks, |e.log|, |e.log| + 1);
        UnderWay(ClockOf(r), |e.log| + 1);
        JustMade(event, e.created, e.lastT);
      }
    }
  }

  lemma NewlyApplied(before: seq<RunEvent>, after: seq<RunEvent>, id: EventId)
    requires before <= after && AppliedAt(before, id) == |before| && AppliedAt(after, id) < |after|
    ensures |before| <= AppliedAt(after, id) && IsApplication(after[AppliedAt(after, id)], id)
  {
    assert forall j :: 0 <= j < |before| ==> after[j] == before[j];
  }

  lemma {:induction false} InjectDueMakes(c: Config, e: EngineState, events: seq<ScenarioEvent>, n: nat) returns (m: nat)
    requires OnceEach(events) && n <= |events| && e.pending == events[n..]
    requires AllMade(events, e) && TicksWithin(e.ticks, |e.log|)
    ensures var r := InjectDue(c, e, e.lastT);
            AllMade(events, r) && TicksWithin(r.ticks, |r.log|) && m <= |events| && r.pending == events[m..]
    decreases |e.pending|
  {
    hide Inject, AllMade, TicksWithin;
    m := n;
    if e.pending != [] && e.pending[0].at <= e.lastT {
      var event := e.pending[0];
      assert event == events[n];
      var taken := e.(pending := e.pending[1..]);
      var step := Inject(c, taken, event, e.lastT);
      SameButPending(events, e, taken);
      InjectKeepsMade(c, taken, event, events, n);
      InjectLeavesPending(c, taken, event, e.lastT);
      InjectFrame(c, taken, event, e.lastT);
      MoreTicksWithin(e.ticks, |e.log|, |step.log|);
      m := InjectDueMakes(c, step, events, n + 1);
    }
  }

  lemma SameButPending(events: seq<ScenarioEvent>, e: EngineState, r: EngineState)
    requires AllMade(events, e) && r == e.(pending := r.pending)
    ensures AllMade(events, r)
  {
  }

  /** Between observations: everything applied was applied by a finished tick. */
  ghost predicate MadeSettled(events: seq<ScenarioEvent>, e: EngineState) {
    && AllMade(events, e) && TicksWithin(e.ticks, |e.log|)
    && forall i :: 0 <= i < |e.log| && e.log[i].kind == InjectionApplied ==> i < ClockOf(e).Logged()
  }

  lemma NextKeepsMade(events: seq<ScenarioEvent>, e: EngineState, t: real)
    requires MadeSettled(events, e)
    ensures MadeSettled(events, e.(lastT := t))
  {
    hide AllMade, Clock.At;
    var late := e.(lastT := t);
    forall i | 0 <= i < |e.log| && e.log[i].kind == InjectionApplied
      ensures ClockOf(late).At(i) == ClockOf(e).At(i)
    {
      SettledAt(ClockOf(e), t, i);
    }
    MadeKept(events, e, late);
  }

  lemma EndKeepsMade(events: seq<ScenarioEvent>, e: EngineState, r: EngineState, states: Health)
    requires AllMade(events, e) && TicksWithin(e.ticks, |e.log|)
    requires r.log == e.log && r.created == e.created && r.lastT == e.lastT && r.ticks == e.ticks + [Tick(e.lastT, states, |e.log|)]
    ensures MadeSettled(events, r)
  {
    hide AllMade, Clock.At;
    forall i: nat
      ensures ClockOf(r).At(i) == ClockOf(e).At(i)
    {
      TickDone(ClockOf(e), Tick(e.lastT, states, |e.log|), i);
    }
    MadeKept(events, e, r);
  }

  lemma TickMakes(c: Config, e: EngineState, o: Observation, events: seq<ScenarioEvent>, n: nat) returns (m: nat)
    requires OnceEach(events) && n <= |events| && e.pending == events[n..] && MadeSettled(events, e)
    ensures var r := ProcessTick(c, e, o);
            MadeSettled(events, r) && m <= |events| && r.pending == events[m..]
  {
    hide InjectDue, ClearDue, ApplyChanges, Respond, Progress, JudgeEach, AllMade, AnyRecovering;
    var t := o.sample.t;
    var late := e.(lastT := t);
    NextKeepsMade(events, e, t);
    m := InjectDueMakes(c, late, events, n);
    var injected := InjectDue(c, late, t);
    var scheduled := ProcessScheduled(c, late, t);
    MadeQuietly(events, injected, scheduled, {InjectionCleared}, t);
    var changed := ApplyChanges(c, scheduled, o.changes, t);
    MadeQuietly(events, scheduled, changed, CHANGES, t);
    var responded := Respond(changed, o.responses, t);
    MadeQuietly(events, changed, responded, {SystemResponded}, t);
    var progressed := Progress(responded, o.missionEvents, t);
    MadeQuietly(events, responded, progressed, {MissionProgress}, t);
    var observed := ProcessObservation(c, scheduled, o);
    var judged := ProcessExpectations(observed, t);
    MadeQuietly(events, progressed, judged, {ExpectationResult}, t);
    EndKeepsMade(events, judged, ProcessTick(c, e, o), observed.states);
  }

  lemma EmitKeepsMade(events: seq<ScenarioEvent>, e: EngineState, kind: EventKind)
    requires MadeSettled(events, e) && kind != InjectionApplied
    ensures MadeSettled(events, Emit(e, e.lastT, kind, None, None, None, None, NoDetails))
  {
    hide AllMade;
    MadeQuietly(events, e, Emit(e, e.lastT, kind, None, None, None, None, NoDetails), {kind}, e.lastT);
  }

  lemma {:induction false} LoopMakes(c: Config, e: EngineState, feed: seq<Input>, events: seq<ScenarioEvent>, n: nat)
    requires OnceEach(events) && n <= |events| && e.pending == events[n..] && MadeSettled(events, e)
    ensures MadeSettled(events, Loop(c, e, feed).0)
    decreases |feed|
  {
    hide ProcessTick, MadeSettled;
    if feed != [] {
      var o := feed[0].observation;
      var t := o.sample.t;
      if feed[0].cancelled {
        NextKeepsMade(events, e, t);
        EmitKeepsMade(events, e.(lastT := t), LifecycleEvent);
      } else {
        var next := ProcessTick(c, e, o);
        var m := TickMakes(c, e, o, events, n);
        EmitKeepsMade(events, next, MissionProgress);
        LoopMakes(c, next, feed[1..], events, m);
      }
    }
  }

  /** Every scenario event that the log calls applied had each of its expectations made at the observation that applied
      it: their request time is the time of that observation, their deadline lies `within` behind it. */
  lemma AppliedAreWatched(c: Config, events: seq<ScenarioEvent>, states: Health, feed: seq<Input>)
    requires OnceEach(events)
    ensures AllMade(events, Loop(c, StartRun(events, states), feed).0)
  {
    var start := StartRun(events, states);
    assert start.pending == events[0..];
    assert start.log[0].kind == MissionProgress;
    hide Loop, StartRun;
    LoopMakes(c, start, feed, events, 0);
  }
}
