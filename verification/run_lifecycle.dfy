/** The persisted run row and the handlers that move it through its lifecycle. A handler runs in one
    database session: an exception rolls everything back. */
module RunLifecycle {
  import opened Options
  import opened RunStates

  type RunId = string
  type RunnerId = string

  /** The columns that take part in the lifecycle. `history` lists every state the row was given, in
      order, intermediate ones within a session included. */
  datatype Row = Row(
    state: RunState,
    runnerId: Option<RunnerId>,
    createdAt: real,
    updatedAt: real,
    startedAt: Option<real>,
    endedAt: Option<real>,
    history: seq<RunState>)

  /** The result of a step that may raise on an illegal transition. */
  datatype Attempt = Done(row: Row) | Refused

  function Transition(row: Row, target: RunState, now: real): Attempt {
    if row.state == target then Done(row)
    else if !CanTransition(row.state, target) then Refused
    else Done(row.(state := target,
                   startedAt := if target == Running && row.startedAt.None? then Some(now) else row.startedAt,
                   endedAt := if target.IsTerminal() then Some(now) else row.endedAt,
                   updatedAt := now,
                   history := row.history + [target]))
  }

  /** Several transitions in one session. */
  function Walk(row: Row, targets: seq<RunState>, now: real): Attempt
    decreases |targets|
  {
    if targets == [] then Done(row)
    else
      match Transition(row, targets[0], now)
      case Refused => Refused
      case Done(next) => Walk(next, targets[1..], now)
  }

  /** Each step is legal and leads to another state. */
  predicate Onward(from: RunState, targets: seq<RunState>)
    decreases |targets|
  {
    targets == [] || (from != targets[0] && CanTransition(from, targets[0]) && Onward(targets[0], targets[1..]))
  }

  /** Such a walk is recorded step by step. */
  lemma {:induction false} WalkOnward(row: Row, targets: seq<RunState>, now: real)
    requires Onward(row.state, targets)
    ensures var a := Walk(row, targets, now);
            && a.Done? && a.row.history == row.history + targets
            && a.row.startedAt == if row.startedAt.None? && Running in targets then Some(now) else row.startedAt
    decreases |targets|
  {
    hide CanTransition;
    if targets == [] {
      assert row.history + targets == row.history;
    } else {
      var next := Transition(row, targets[0], now).row;
      WalkOnward(next, targets[1..], now);
      assert targets == [targets[0]] + targets[1..];
      assert next.history + targets[1..] == row.history + targets;
    }
  }

  lemma WalkFirst(row: Row, target: RunState, rest: seq<RunState>, now: real)
    ensures Walk(row, [target] + rest, now) ==
            match Transition(row, target, now) case Refused => Refused case Done(next) => Walk(next, rest, now)
  {
    hide Transition;
    assert ([target] + rest)[1..] == rest;
  }

  datatype Outcome = RunCompleted | RunCancelled | RunFailed

  /** The states a run is led through before its outcome is recorded. */
  function ToCollecting(state: RunState): seq<RunState> {
    match state
    case Queued => [Preparing, Running, Collecting]
    case Preparing => [Running, Collecting]
    case Running => [Collecting]
    case RecoveringRun => [Collecting]
    case _ => []
  }

  /** `analysed` says whether the analysis of a completed run succeeded. */
  function Closing(outcome: Outcome, analysed: bool): seq<RunState> {
    match outcome
    case RunCompleted => [Analyzing, if analysed then Completed else FailedRun]
    case RunCancelled => [Cancelled]
    case RunFailed => [FailedRun]
  }

  function Finalize(row: Row, outcome: Outcome, analysed: bool, now: real): Attempt {
    if row.state.IsTerminal() then Done(row)
    else Walk(row, ToCollecting(row.state) + Closing(outcome, analysed), now)
  }

  /** What a runner reports; `news` says that some other column changes with the message. */
  datatype LifecycleMessage = LifecycleMessage(state: RunState, runnerId: RunnerId, news: bool)

  /** A message that does not fit is logged and dropped. */
  function OnLifecycle(row: Row, m: LifecycleMessage, now: real): Row {
    if row.state.IsTerminal() then row
    else
      match Transition(row, m.state, now)
      case Refused => row
      case Done(next) =>
        next.(runnerId := Some(m.runnerId),
              updatedAt := if next.state != row.state || m.news || row.runnerId != Some(m.runnerId) then now else row.updatedAt)
  }

  // ---- What every committed row satisfies

  /** Created, then along the transition table to the current state; never left in a state that only
      exists inside a session; stamped exactly when it started and ended. */
  ghost predicate RowHolds(row: Row) {
    && row.history != [] && row.history[0] == Created && row.history[|row.history| - 1] == row.state
    && IsPath(row.history)
    && row.state !in {Created, Validating, Analyzing}
    && (row.endedAt.Some? <==> row.state.IsTerminal())
    && (row.startedAt.Some? <==> Running in row.history)
  }

  /** The same within a session. */
  ghost predicate InSession(row: Row) {
    && row.history != [] && row.history[0] == Created && row.history[|row.history| - 1] == row.state
    && IsPath(row.history)
    && (row.endedAt.Some? <==> row.state.IsTerminal())
    && (row.startedAt.Some? <==> Running in row.history)
  }

  lemma TransitionInSession(row: Row, target: RunState, now: real)
    requires InSession(row)
    ensures var a := Transition(row, target, now);
            a.Done? ==> InSession(a.row) && row.history <= a.row.history && a.row.state == target
  {
    if row.state != target && CanTransition(row.state, target) {
      TransitionAdvances(row.state, target);
      var longer := row.history + [target];
      assert Running in longer <==> (Running in row.history || target == Running);
      forall i | 0 < i < |longer|
        ensures CanTransition(longer[i - 1], longer[i])
      {
        if i < |row.history| {
          assert longer[i] == row.history[i] && longer[i - 1] == row.history[i - 1];
        }
      }
    }
  }

  lemma {:induction false} WalkInSession(row: Row, targets: seq<RunState>, now: real)
    requires InSession(row)
    ensures var a := Walk(row, targets, now);
            a.Done? ==> InSession(a.row) && row.history <= a.row.history
                        && a.row.state == if targets == [] then row.state else targets[|targets| - 1]
    decreases |targets|
  {
    if targets != [] {
      hide InSession, Transition;
      TransitionInSession(row, targets[0], now);
      match Transition(row, targets[0], now)
      case Refused =>
      case Done(next) => WalkInSession(next, targets[1..], now);
    }
  }

  /** A walk is refused exactly when some step of it is neither legal nor a repetition. */
  ghost predicate Walkable(from: RunState, targets: seq<RunState>)
    decreases |targets|
  {
    targets == [] || ((from == targets[0] || CanTransition(from, targets[0])) && Walkable(targets[0], targets[1..]))
  }

  lemma {:induction false} WalkRefused(row: Row, targets: seq<RunState>, now: real)
    ensures Walk(row, targets, now).Done? <==> Walkable(row.state, targets)
    decreases |targets|
  {
    if targets != [] && Transition(row, targets[0], now).Done? {
      WalkRefused(Transition(row, targets[0], now).row, targets[1..], now);
    }
  }

  lemma {:induction false} WalkableAppend(from: RunState, first: seq<RunState>, second: seq<RunState>)
    ensures Walkable(from, first + second) <==>
            Walkable(from, first) && Walkable(if first == [] then from else first[|first| - 1], second)
    decreases |first|
  {
    if first == [] {
      assert first + second == second;
    } else {
      assert (first + second)[1..] == first[1..] + second;
      WalkableAppend(first[0], first[1..], second);
    }
  }

  /** Every way to collecting is open. */
  lemma CollectingReachable(state: RunState)
    ensures Walkable(state, ToCollecting(state))
    ensures var to := ToCollecting(state); to != [] ==> to[|to| - 1] == Collecting
  {
    assert [Preparing, Running, Collecting][1..] == [Running, Collecting];
    assert [Running, Collecting][1..] == [Collecting] && [Collecting][1..] == [];
    assert Walkable(Running, [Collecting]) && Walkable(Preparing, [Running, Collecting]);
    hide RUN_TRANSITIONS;
  }

  lemma ClosingWalkable(state: RunState, outcome: Outcome, analysed: bool)
    ensures Walkable(state, Closing(outcome, analysed)) <==>
            if outcome == RunCompleted then state == Collecting || state == Analyzing
            else state == FinalState(outcome, analysed) || CanTransition(state, FinalState(outcome, analysed))
  {
    var last := FinalState(outcome, analysed);
    assert [Analyzing, last][1..] == [last] && [last][1..] == [];
    assert Walkable(last, []);
  }

  /** When finalization raises, for every state and outcome: a run that was never queued cannot
      complete, one that was only created cannot fail, and one under analysis cannot be cancelled. */
  predicate Unfinishable(state: RunState, outcome: Outcome) {
    || (state == Created && outcome != RunCancelled)
    || (state == Validating && outcome == RunCompleted)
    || (state == Analyzing && outcome == RunCancelled)
  }

  lemma FinalizeRefuses(row: Row, outcome: Outcome, analysed: bool, now: real)
    ensures Finalize(row, outcome, analysed, now).Refused? <==> Unfinishable(row.state, outcome)
  {
    if !row.state.IsTerminal() {
      var to, closing := ToCollecting(row.state), Closing(outcome, analysed);
      WalkRefused(row, to + closing, now);
      WalkableAppend(row.state, to, closing);
      CollectingReachable(row.state);
      ClosingWalkable(if to == [] then row.state else Collecting, outcome, analysed);
      hide Walkable, Walk, Closing;
    }
  }

  /** The state a finalized run ends in. */
  function FinalState(outcome: Outcome, analysed: bool): RunState {
    match outcome
    case RunCompleted => if analysed then Completed else FailedRun
    case RunCancelled => Cancelled
    case RunFailed => FailedRun
  }

  /** Finalization of any committed row never raises; it ends in the terminal state of its outcome along a
      legal path, or leaves a terminal row alone. */
  lemma FinalizeEnds(row: Row, outcome: Outcome, analysed: bool, now: real)
    requires RowHolds(row)
    ensures var a := Finalize(row, outcome, analysed, now);
            && a.Done? && RowHolds(a.row) && row.history <= a.row.history
            && (row.state.IsTerminal() ==> a.row == row)
            && (!row.state.IsTerminal() ==> a.row.state == FinalState(outcome, analysed) && a.row.state.IsTerminal())
  {
    FinalizeRefuses(row, outcome, analysed, now);
    if !row.state.IsTerminal() {
      var targets := ToCollecting(row.state) + Closing(outcome, analysed);
      WalkInSession(row, targets, now);
      assert targets[|targets| - 1] == FinalState(outcome, analysed);
      hide Walk;
    }
  }

  /** The states a runner reports, as the engine emits them. */
  const REPORTED := {Preparing, Running, RecoveringRun, Collecting}

  lemma LifecycleHolds(row: Row, m: LifecycleMessage, now: real)
    requires RowHolds(row) && m.state in REPORTED
    ensures RowHolds(OnLifecycle(row, m, now)) && row.history <= OnLifecycle(row, m, now).history
    ensures row.state.IsTerminal() ==> OnLifecycle(row, m, now) == row
    ensures OnLifecycle(row, m, now).history == row.history || OnLifecycle(row, m, now).history == row.history + [m.state]
  {
    TransitionInSession(row, m.state, now);
  }

  /** Repeating a message changes nothing but the time stamp. */
  lemma LifecycleRepeats(row: Row, m: LifecycleMessage, now: real, later: real)
    ensures var once := OnLifecycle(row, m, now);
            OnLifecycle(once, m, later) == once.(updatedAt := OnLifecycle(once, m, later).updatedAt)
  {
  }

  // ---- A whole run delivered in order

  function DeliverAll(row: Row, states: seq<RunState>, runner: RunnerId, now: real): Row
    decreases |states|
  {
    if states == [] then row else DeliverAll(OnLifecycle(row, LifecycleMessage(states[0], runner, true), now), states[1..], runner, now)
  }

  /** Messages that follow the table are all accepted and become the history. */
  lemma {:induction false} InOrderIsAccepted(row: Row, states: seq<RunState>, runner: RunnerId, now: real)
    requires RowHolds(row) && IsPath([row.state] + states) && forall k :: 0 <= k < |states| ==> states[k] in REPORTED
    ensures var r := DeliverAll(row, states, runner, now);
            RowHolds(r) && r.history == row.history + states && r.state == ([row.state] + states)[|states|]
    decreases |states|
  {
    if states != [] {
      var path := [row.state] + states;
      var m := LifecycleMessage(states[0], runner, true);
      PathTail(row.state, states);
      Accepted(row, m, now);
      LifecycleHolds(row, m, now);
      hide RowHolds, OnLifecycle, IsPath, CanTransition;
      var next := OnLifecycle(row, m, now);
      InOrderIsAccepted(next, states[1..], runner, now);
      assert ([next.state] + states[1..])[|states| - 1] == path[|states|];
    }
  }

  lemma PathTail(first: RunState, states: seq<RunState>)
    requires IsPath([first] + states) && states != []
    ensures CanTransition(first, states[0]) && IsPath([states[0]] + states[1..])
  {
    var path, rest := [first] + states, [states[0]] + states[1..];
    assert CanTransition(path[0], path[1]);
    forall i | 0 < i < |rest|
      ensures CanTransition(rest[i - 1], rest[i])
    {
      assert rest[i - 1] == path[i] && rest[i] == path[i + 1];
    }
  }

  lemma Accepted(row: Row, m: LifecycleMessage, now: real)
    requires CanTransition(row.state, m.state)
    ensures OnLifecycle(row, m, now).history == row.history + [m.state] && OnLifecycle(row, m, now).state == m.state
  {
    TransitionAdvances(row.state, m.state);
  }

  /** A preparation that failed: the runner reports Collecting straight after Preparing. The message is
      dropped, and the final message then leads the row through Running, so that a run that never ran
      carries a start time. */
  lemma FailedPreparation(row: Row, runner: RunnerId, outcome: Outcome, now: real)
    requires RowHolds(row) && row.state == Queued && row.startedAt.None? && outcome != RunCompleted
    ensures var told := DeliverAll(row, [Preparing, Collecting], runner, now);
            var closed := Finalize(told, outcome, false, now);
            && told.state == Preparing && told.history == row.history + [Preparing]
            && closed.Done? && closed.row.startedAt == Some(now)
            && closed.row.history == row.history + [Preparing, Running, Collecting, FinalState(outcome, false)]
  {
    hide IsPath, Walk;
    var first := OnLifecycle(row, LifecycleMessage(Preparing, runner, true), now);
    var second := OnLifecycle(first, LifecycleMessage(Collecting, runner, true), now);
    assert [Preparing, Collecting][1..] == [Collecting] && [Collecting][1..] == [];
    assert DeliverAll(second, [], runner, now) == second;
    assert DeliverAll(first, [Collecting], runner, now) == second;
    assert second == first;
    var last := FinalState(outcome, false);
    OnwardToEnd(last);
    assert ToCollecting(Preparing) + Closing(outcome, false) == [Running, Collecting, last];
    WalkOnward(first, [Running, Collecting, last], now);
    assert row.history + [Preparing] + [Running, Collecting, last] == row.history + [Preparing, Running, Collecting, last];
  }

  lemma OnwardToEnd(last: RunState)
    requires last == Cancelled || last == FailedRun
    ensures Onward(Preparing, [Running, Collecting, last])
  {
    assert [Running, Collecting, last][1..] == [Collecting, last] && [Collecting, last][1..] == [last] && [last][1..] == [];
    assert Onward(last, []);
    assert Onward(Collecting, [last]);
    assert Onward(Running, [Collecting, last]);
  }
}
