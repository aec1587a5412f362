/** All runs together: the handlers of the orchestrator, the watchdog, and the API calls that create and
    cancel runs, in any order. */
module Orchestration {
  import opened Options
  import opened RunStates
  import opened RunLifecycle

  datatype Settings = Settings(staleAfter: real, queuedTimeout: real, preparingTimeout: real, startedAt: real)

  /** The run rows, the last heartbeat of each runner, and the runs it then reported as executing. */
  datatype System = System(rows: map<RunId, Row>, heartbeats: map<RunnerId, real>, active: map<RunnerId, set<RunId>>)

  // ---- Creating and cancelling

  /** How the creation of a run ends, once its row exists. */
  datatype Creation = RejectedScenario | Unpublished | Published

  function Fresh(now: real): Row {
    Row(Created, None, now, now, None, None, [Created])
  }

  function CreationPath(creation: Creation): seq<RunState> {
    match creation
    case RejectedScenario => [Validating, FailedRun]
    case Unpublished => [Validating, Queued, FailedRun]
    case Published => [Validating, Queued]
  }

  /** A user cancels: runs that no runner has picked up are closed at once, others are only told. */
  function Cancel(row: Row, now: real): Attempt {
    if row.state == Created || row.state == Validating || row.state == Queued then Transition(row, Cancelled, now) else Done(row)
  }

  // ---- The watchdog

  datatype Action = Leave | Expire | Close

  function LastProgress(row: Row): real {
    var latest := if row.startedAt.Some? && row.startedAt.value > row.updatedAt then row.startedAt.value else row.updatedAt;
    if row.createdAt > latest then row.createdAt else latest
  }

  function RunnerOf(row: Row): RunnerId {
    if row.runnerId.Some? then row.runnerId.value else ""
  }

  /** The runner of the run is unknown, silent, or alive without the run. */
  predicate Abandoned(settings: Settings, sys: System, id: RunId, row: Row, now: real) {
    var runner := RunnerOf(row);
    || runner !in sys.heartbeats
    || now - sys.heartbeats[runner] > settings.staleAfter
    || (runner in sys.active && id !in sys.active[runner])
  }

  function ActionFor(settings: Settings, sys: System, id: RunId, row: Row, now: real): Action {
    match row.state
    case Queued => if now - row.createdAt > settings.queuedTimeout then Expire else Leave
    case Created => Leave
    case Validating => Leave
    case Analyzing => Leave
    case Completed => Leave
    case FailedRun => Leave
    case Cancelled => Leave
    case _ =>
      var idle := now - LastProgress(row);
      if row.state == Preparing && idle > settings.preparingTimeout then Close
      else if idle <= settings.staleAfter || now - settings.startedAt <= settings.staleAfter then Leave
      else if Abandoned(settings, sys, id, row, now) then Close
      else Leave
  }

  function Watched(settings: Settings, sys: System, id: RunId, row: Row, now: real): Attempt {
    match ActionFor(settings, sys, id, row, now)
    case Leave => Done(row)
    case Expire => Transition(row, FailedRun, now)
    case Close => Finalize(row, RunFailed, false, now)
  }

  /** One session for all runs: a single refusal undoes the whole tick. */
  ghost function Tick(settings: Settings, sys: System, now: real): System {
    if forall id :: id in sys.rows ==> Watched(settings, sys, id, sys.rows[id], now).Done?
    then sys.(rows := map id | id in sys.rows :: Watched(settings, sys, id, sys.rows[id], now).row)
    else sys
  }

  // ---- Any interleaving

  datatype Op =
    | CreateRun(id: RunId, creation: Creation, now: real)
    | CancelRun(id: RunId, now: real)
    | Lifecycle(id: RunId, message: LifecycleMessage, now: real)
    | Finished(id: RunId, outcome: Outcome, analysed: bool, now: real)
    | Data(id: RunId, now: real)
    | Heartbeat(runner: RunnerId, runs: set<RunId>, now: real)
    | Watch(now: real)

  function Commit(sys: System, id: RunId, a: Attempt): System {
    match a
    case Done(row) => sys.(rows := sys.rows[id := row])
    case Refused => sys
  }

  /** Each operation is one atomic step; messages may be lost (no step), repeated or reordered. */
  ghost function Apply(settings: Settings, sys: System, op: Op): System {
    match op
    case CreateRun(id, creation, now) =>
      if id in sys.rows then sys else Commit(sys, id, Walk(Fresh(now), CreationPath(creation), now))
    case CancelRun(id, now) => if id in sys.rows then Commit(sys, id, Cancel(sys.rows[id], now)) else sys
    case Lifecycle(id, message, now) =>
      if id in sys.rows then sys.(rows := sys.rows[id := OnLifecycle(sys.rows[id], message, now)]) else sys
    case Finished(id, outcome, analysed, now) =>
      if id in sys.rows then Commit(sys, id, Finalize(sys.rows[id], outcome, analysed, now)) else sys
    case Data(id, now) => if id in sys.rows then sys.(rows := sys.rows[id := sys.rows[id].(updatedAt := now)]) else sys
    case Heartbeat(runner, runs, now) => sys.(heartbeats := sys.heartbeats[runner := now], active := sys.active[runner := runs])
    case Watch(now) => Tick(settings, sys, now)
  }

  ghost function Serve(settings: Settings, ops: seq<Op>): System {
    if ops == [] then System(map[], map[], map[]) else Apply(settings, Serve(settings, ops[..|ops| - 1]), ops[|ops| - 1])
  }

  /** Runners only report what the engine emits. */
  ghost predicate FromEngine(ops: seq<Op>) {
    forall k :: 0 <= k < |ops| && ops[k].Lifecycle? ==> ops[k].message.state in REPORTED
  }

  ghost predicate SystemHolds(sys: System) {
    forall id :: id in sys.rows ==> RowHolds(sys.rows[id])
  }

  // ---- Every step keeps every row legal

  lemma CreationHolds(creation: Creation, now: real)
    ensures var a := Walk(Fresh(now), CreationPath(creation), now); a.Done? && RowHolds(a.row)
  {
    hide Walk, Walkable, IsPath;
    var row := Fresh(now);
    assert InSession(row) by { FreshInSession(now); }
    WalkInSession(row, CreationPath(creation), now);
    WalkRefused(row, CreationPath(creation), now);
    CreationWalkable(creation);
  }

  lemma FreshInSession(now: real)
    ensures InSession(Fresh(now))
  {
  }

  lemma CreationWalkable(creation: Creation)
    ensures Walkable(Created, CreationPath(creation))
  {
    assert Walkable(Validating, [FailedRun]) && Walkable(Queued, [FailedRun]) && Walkable(Queued, []);
    assert [Validating, Queued, FailedRun][1..] == [Queued, FailedRun] && [Queued, FailedRun][1..] == [FailedRun];
    assert [Validating, Queued][1..] == [Queued] && [Queued][1..] == [] && [Validating, FailedRun][1..] == [FailedRun];
    assert Walkable(Validating, [Queued, FailedRun]) && Walkable(Validating, [Queued]);
  }

  /** A row after one operation on it. */
  ghost predicate Advanced(before: Row, after: Row) {
    && RowHolds(after) && before.history <= after.history
    && (before.state.IsTerminal() ==> after == before.(updatedAt := after.updatedAt))
  }

  lemma CancelHolds(row: Row, now: real)
    requires RowHolds(row)
    ensures Cancel(row, now).Done? && Advanced(row, Cancel(row, now).row)
  {
    TransitionInSession(row, Cancelled, now);
  }

  lemma WatchedHolds(settings: Settings, sys: System, id: RunId, row: Row, now: real)
    requires RowHolds(row)
    ensures Watched(settings, sys, id, row, now).Done? && Advanced(row, Watched(settings, sys, id, row, now).row)
  {
    TransitionInSession(row, FailedRun, now);
    FinalizeEnds(row, RunFailed, false, now);
    hide Abandoned, LastProgress, Finalize, IsPath;
  }

  lemma ApplyAdvances(settings: Settings, sys: System, op: Op)
    requires SystemHolds(sys) && (op.Lifecycle? ==> op.message.state in REPORTED)
    ensures SystemHolds(Apply(settings, sys, op))
    ensures forall id :: id in sys.rows ==> id in Apply(settings, sys, op).rows && Advanced(sys.rows[id], Apply(settings, sys, op).rows[id])
  {
    hide Walk, Transition, Finalize, RowHolds, Cancel, Watched, OnLifecycle, IsPath, REPORTED;
    forall id | id in sys.rows
      ensures Advanced(sys.rows[id], sys.rows[id])
    {
    }
    match op
    case CreateRun(id, creation, now) => CreationHolds(creation, now);
    case CancelRun(id, now) => if id in sys.rows { CancelHolds(sys.rows[id], now); }
    case Lifecycle(id, message, now) => if id in sys.rows { LifecycleHolds(sys.rows[id], message, now); }
    case Finished(id, outcome, analysed, now) => if id in sys.rows { FinalizeEnds(sys.rows[id], outcome, analysed, now); }
    case Data(id, now) => if id in sys.rows { TouchHolds(sys.rows[id], now); }
    case Heartbeat(_, _, _) =>
    case Watch(now) =>
      forall id | id in sys.rows
        ensures Watched(settings, sys, id, sys.rows[id], now).Done?
        ensures Advanced(sys.rows[id], Watched(settings, sys, id, sys.rows[id], now).row)
      {
        WatchedHolds(settings, sys, id, sys.rows[id], now);
      }
  }

  lemma TouchHolds(row: Row, now: real)
    requires RowHolds(row)
    ensures RowHolds(row.(updatedAt := now))
  {
  }

  /** Main result: whatever the interleaving, every row is the end of a legal path from Created, is never
      left in a state that only exists inside a session, and carries an end time exactly when terminal. */
  lemma {:induction false} RowsStayLegal(settings: Settings, ops: seq<Op>)
    requires FromEngine(ops)
    ensures SystemHolds(Serve(settings, ops))
    decreases |ops|
  {
    if ops != [] {
      hide Apply, SystemHolds, REPORTED;
      RowsStayLegal(settings, ops[..|ops| - 1]);
      ApplyAdvances(settings, Serve(settings, ops[..|ops| - 1]), ops[|ops| - 1]);
    }
  }

  /** Main result: from any point of any interleaving on, the history of a run is only extended, and a run that
      was terminal keeps its state, its history and its end time. */
  lemma {:induction false} HistoryIsKept(settings: Settings, ops: seq<Op>, k: nat, id: RunId)
    requires FromEngine(ops) && k <= |ops| && id in Serve(settings, ops[..k]).rows
    ensures id in Serve(settings, ops).rows
    ensures var then_, now := Serve(settings, ops[..k]).rows[id], Serve(settings, ops).rows[id];
            && then_.history <= now.history
            && (then_.state.IsTerminal() ==> now == then_.(updatedAt := now.updatedAt))
    decreases |ops|
  {
    if k == |ops| {
      assert ops[..k] == ops;
    } else {
      var shorter := ops[..|ops| - 1];
      assert shorter[..k] == ops[..k];
      HistoryIsKept(settings, shorter, k, id);
      RowsStayLegal(settings, shorter);
      ApplyAdvances(settings, Serve(settings, shorter), ops[|ops| - 1]);
      hide Apply, REPORTED, RowHolds;
    }
  }

  /** Along the history of any run only Running and RecoveringRun come twice, nothing follows a terminal
      state, and progress never drops. */
  lemma HistoriesAreOrdered(settings: Settings, ops: seq<Op>, id: RunId, i: nat, j: nat)
    requires FromEngine(ops) && id in Serve(settings, ops).rows
    requires i < j < |Serve(settings, ops).rows[id].history|
    ensures var h := Serve(settings, ops).rows[id].history;
            && (h[i] == h[j] ==> h[i] == Running || h[i] == RecoveringRun)
            && !h[i].IsTerminal() && Rank(h[i]) <= Rank(h[j])
  {
    RowsStayLegal(settings, ops);
    hide Serve, IsPath;
    OnlyRecoveryRepeats(Serve(settings, ops).rows[id].history, i, j);
    RankNeverDrops(Serve(settings, ops).rows[id].history, i, j);
  }

  /** Whenever a run exists, the message that it finished closes it, whatever was lost before. */
  lemma FinishedCloses(settings: Settings, ops: seq<Op>, id: RunId, outcome: Outcome, analysed: bool, now: real)
    requires FromEngine(ops) && id in Serve(settings, ops).rows
    ensures var row := Serve(settings, ops).rows[id];
            var closed := Apply(settings, Serve(settings, ops), Finished(id, outcome, analysed, now)).rows[id];
            && closed.state.IsTerminal() && closed.endedAt.Some?
            && (!row.state.IsTerminal() ==> closed.state == FinalState(outcome, analysed))
  {
    RowsStayLegal(settings, ops);
    FinalizeEnds(Serve(settings, ops).rows[id], outcome, analysed, now);
    hide Serve, Finalize, IsPath;
  }

  // ---- The code, in place

  /** The row object of a session. */
  class RunRow {
    var state: RunState
    var runnerId: Option<RunnerId>
    var createdAt: real
    var updatedAt: real
    var startedAt: Option<real>
    var endedAt: Option<real>
    var history: seq<RunState>

    constructor (row: Row)
      ensures Value() == row
    {
      state, runnerId, createdAt, updatedAt := row.state, row.runnerId, row.createdAt, row.updatedAt;
      startedAt, endedAt, history := row.startedAt, row.endedAt, row.history;
    }

    function Value(): Row
      reads this
    {
      Row(state, runnerId, createdAt, updatedAt, startedAt, endedAt, history)
    }

    /** A validated transition; `ok` is false when the source raises. */
    method Transition(target: RunState, now: real) returns (ok: bool)
      modifies this
      ensures var a := RunLifecycle.Transition(old(Value()), target, now);
              ok == a.Done? && Value() == if ok then a.row else old(Value())
    {
      if state == target {
        return true;
      }
      if !CanTransition(state, target) {
        return false;
      }
      state := target;
      if target == Running && startedAt.None? {
        startedAt := Some(now);
      }
      if target.IsTerminal() {
        endedAt := Some(now);
      }
      updatedAt := now;
      history := history + [target];
      return true;
    }
  }

  /** Lead the run to Collecting when messages were lost, then record the outcome. On a refusal the
      session is rolled back, so the object is of no further use. */
  method FinalizeRow(run: RunRow, outcome: Outcome, analysed: bool, now: real) returns (ok: bool)
    modifies run
    ensures var a := Finalize(old(run.Value()), outcome, analysed, now);
            ok == a.Done? && (ok ==> run.Value() == a.row)
  {
    hide RunLifecycle.Transition;
    if run.state.IsTerminal() {
      return true;
    }
    ghost var start := run.Value();
    ghost var goal := Walk(start, ToCollecting(start.state) + Closing(outcome, analysed), now);
    ok := LeadToCollecting(run, now, Closing(outcome, analysed));
    if !ok {
      return;
    }
    ghost var closing := Closing(outcome, analysed);
    ghost var reached := run.Value();
    assert Walk(reached, closing, now) == goal;
    assert closing[1..] == if outcome == RunCompleted then [closing[1]] else [];
    assert forall s: RunState, r: Row :: [s][1..] == [] && Walk(r, [], now) == Done(r);
    match outcome {
      case RunCompleted =>
        ok := run.Transition(Analyzing, now);
        if ok {
          ok := run.Transition(if analysed then Completed else FailedRun, now);
        }
      case RunCancelled =>
        ok := run.Transition(Cancelled, now);
      case RunFailed =>
        ok := run.Transition(FailedRun, now);
    }
  }

  method LeadToCollecting(run: RunRow, now: real, ghost closing: seq<RunState>) returns (ok: bool)
    modifies run
    ensures var goal := Walk(old(run.Value()), old(ToCollecting(run.state)) + closing, now);
            if ok then Walk(run.Value(), closing, now) == goal else goal.Refused?
  {
    hide RunLifecycle.Transition, Walk;
    ghost var to := ToCollecting(run.state);
    assert [] + closing == closing && [Collecting] + closing == [Collecting] + closing;
    assert [Preparing, Running, Collecting] + closing == [Preparing] + ([Running] + ([Collecting] + closing));
    assert [Running, Collecting] + closing == [Running] + ([Collecting] + closing);
    ok := true;
    if run.state == Preparing || run.state == Running || run.state == RecoveringRun || run.state == Queued {
      if run.state == Queued {
        WalkFirst(run.Value(), Preparing, [Running] + ([Collecting] + closing), now);
        ok := run.Transition(Preparing, now);
        if ok {
          WalkFirst(run.Value(), Running, [Collecting] + closing, now);
          ok := run.Transition(Running, now);
        }
      } else if run.state == Preparing {
        WalkFirst(run.Value(), Running, [Collecting] + closing, now);
        ok := run.Transition(Running, now);
      }
      if ok {
        WalkFirst(run.Value(), Collecting, closing, now);
        ok := run.Transition(Collecting, now);
      }
    }
  }

  lemma WalkNowhere(row: Row, now: real)
    ensures Walk(row, [], now) == Done(row)
  {
  }

  class Orchestrator {
    const settings: Settings
    var rows: map<RunId, Row>
    var heartbeats: map<RunnerId, real>
    var runnerActive: map<RunnerId, set<RunId>>

    ghost function Model(): System
      reads this
    {
      System(rows, heartbeats, runnerActive)
    }

    constructor (settings: Settings)
      ensures this.settings == settings && Model() == System(map[], map[], map[])
    {
      this.settings := settings;
      rows, heartbeats, runnerActive := map[], map[], map[];
    }

    method OnLifecycle(id: RunId, message: LifecycleMessage, now: real)
      modifies this`rows
      ensures Model() == Apply(settings, old(Model()), Lifecycle(id, message, now))
    {
      if id !in rows {
        return;
      }
      var run := new RunRow(rows[id]);
      if run.state.IsTerminal() {
        assert rows[id := rows[id]] == rows;
        return;
      }
      var before := run.state;
      var ok := run.Transition(message.state, now);
      if ok {
        if run.state != before || message.news || run.runnerId != Some(message.runnerId) {
          run.updatedAt := now;
        }
        run.runnerId := Some(message.runnerId);
        rows := rows[id := run.Value()];
      } else {
        assert rows[id := rows[id]] == rows;
      }
    }

    method OnFinished(id: RunId, outcome: Outcome, analysed: bool, now: real)
      modifies this`rows
      ensures Model() == Apply(settings, old(Model()), Finished(id, outcome, analysed, now))
    {
      hide Finalize;
      if id !in rows {
        return;
      }
      var run := new RunRow(rows[id]);
      var ok := FinalizeRow(run, outcome, analysed, now);
      if ok {
        rows := rows[id := run.Value()];
      }
    }

    method OnHeartbeat(runner: RunnerId, runs: set<RunId>, now: real)
      modifies this`heartbeats, this`runnerActive
      ensures Model() == Apply(settings, old(Model()), Heartbeat(runner, runs, now))
    {
      runnerActive := runnerActive[runner := runs];
      heartbeats := heartbeats[runner := now];
    }

    method CancelRun(id: RunId, now: real)
      modifies this`rows
      ensures Model() == Apply(settings, old(Model()), Op.CancelRun(id, now))
    {
      hide RunLifecycle.Transition;
      if id !in rows {
        return;
      }
      var run := new RunRow(rows[id]);
      if run.state == Created || run.state == Validating || run.state == Queued {
        var ok := run.Transition(Cancelled, now);
        if ok {
          rows := rows[id := run.Value()];
        }
      } else {
        assert rows[id := rows[id]] == rows;
      }
    }

    method CreateRun(id: RunId, creation: Creation, now: real)
      requires id !in rows
      modifies this`rows
      ensures Model() == Apply(settings, old(Model()), Op.CreateRun(id, creation, now))
    {
      hide RunLifecycle.Transition, Walk;
      assert [Validating, FailedRun] == [Validating] + ([FailedRun] + []);
      assert [Validating, Queued] == [Validating] + ([Queued] + []);
      assert [Validating, Queued, FailedRun] == [Validating] + ([Queued] + ([FailedRun] + []));
      var run := new RunRow(Fresh(now));
      WalkFirst(run.Value(), Validating, if creation == RejectedScenario then [FailedRun] + [] else [Queued] + if creation == Unpublished then [FailedRun] + [] else [], now);
      var ok := run.Transition(Validating, now);
      if ok {
        if creation == RejectedScenario {
          WalkFirst(run.Value(), FailedRun, [], now);
          ok := run.Transition(FailedRun, now);
        } else {
          WalkFirst(run.Value(), Queued, if creation == Unpublished then [FailedRun] + [] else [], now);
          ok := run.Transition(Queued, now);
          if ok && creation == Unpublished {
            WalkFirst(run.Value(), FailedRun, [], now);
            ok := run.Transition(FailedRun, now);
          }
        }
      }
      WalkNowhere(run.Value(), now);
      if ok {
        rows := rows[id := run.Value()];
      }
    }

    /** The decision for one run, with the nested exits of the source. */
    method Inspect(id: RunId, run: RunRow, now: real) returns (ok: bool)
      modifies run
      ensures var a := old(Watched(settings, Model(), id, run.Value(), now));
              ok == a.Done? && (ok ==> run.Value() == a.row)
    {
      hide RunLifecycle.Transition, Finalize;
      if run.state == Created || run.state == Validating || run.state.IsTerminal() {
        return true;
      }
      if run.state == Queued {
        if now - run.createdAt > settings.queuedTimeout {
          ok := run.Transition(FailedRun, now);
          return;
        }
        return true;
      }
      if run.state == Analyzing {
        return true;
      }
      var lastProgress := LastProgress(run.Value());
      if run.state == Preparing && now - lastProgress > settings.preparingTimeout {
        ok := FinalizeRow(run, RunFailed, false, now);
        return;
      }
      if now - lastProgress <= settings.staleAfter || !(now - settings.startedAt > settings.staleAfter) {
        return true;
      }
      var runner := if run.runnerId.Some? then run.runnerId.value else "";
      if runner !in heartbeats {
        ok := FinalizeRow(run, RunFailed, false, now);
        return;
      }
      if now - heartbeats[runner] > settings.staleAfter {
        ok := FinalizeRow(run, RunFailed, false, now);
        return;
      }
      if runner in runnerActive && id !in runnerActive[runner] {
        ok := FinalizeRow(run, RunFailed, false, now);
        return;
      }
      return true;
    }

    /** The loop over the runs, in one session: a refusal aborts and undoes everything. */
    method WatchdogTick(now: real)
      modifies this`rows
      ensures Model() == Apply(settings, old(Model()), Watch(now))
    {
      hide ActionFor, RunLifecycle.Transition, Finalize;
      ghost var sys := Model();
      var session := rows;
      var todo := rows.Keys;
      while todo != {}
        invariant rows == sys.rows && todo <= rows.Keys && session.Keys == rows.Keys && Model() == sys
        invariant forall id :: id in todo ==> session[id] == rows[id]
        invariant forall id :: id in rows && id !in todo ==>
                    Watched(settings, sys, id, rows[id], now).Done? && session[id] == Watched(settings, sys, id, rows[id], now).row
        decreases todo
      {
        var id :| id in todo;
        todo := todo - {id};
        var run := new RunRow(session[id]);
        var ok := Inspect(id, run, now);
        if !ok {
          assert !Watched(settings, sys, id, sys.rows[id], now).Done?;
          return;
        }
        session := session[id := run.Value()];
      }
      rows := session;
    }
  }
}
