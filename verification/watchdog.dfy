/** When the watchdog gives a run up, stated on the rows, the heartbeats and what the runners report. */
module Watchdog {
  import opened Options
  import opened RunStates
  import opened RunLifecycle
  import opened RunMessages
  import opened Orchestration

  /** None of the three stamps of the run lies within `limit`. */
  predicate Silent(row: Row, limit: real, now: real) {
    && now - row.updatedAt > limit && now - row.createdAt > limit
    && (row.startedAt.Some? ==> now - row.startedAt.value > limit)
  }

  /** The runner that has the run; a run that nobody has taken names the empty runner. */
  predicate HeldBy(row: Row, runner: RunnerId) {
    row.runnerId == Some(runner) || (row.runnerId.None? && runner == "")
  }

  /** The runner was heard within the limit and has not reported a set of runs without this one. */
  predicate Attended(settings: Settings, sys: System, id: RunId, runner: RunnerId, now: real) {
    && runner in sys.heartbeats && now <= sys.heartbeats[runner] + settings.staleAfter
    && (runner in sys.active ==> id in sys.active[runner])
  }

  /** The state is one in which a runner executes the run. */
  predicate Executing(state: RunState) {
    state == Preparing || state == Running || state == RecoveringRun || state == Collecting
  }

  /** Main result: a tick fails a run exactly when it has waited in the queue for too long, or preparing has been silent for too long,
      or an executing run is stale and its runner is unknown, unheard or without the run. Runs that were stale before the
      orchestrator itself has listened long enough are spared. Every other run keeps its row. */
  lemma WatchdogCloses(settings: Settings, sys: System, id: RunId, runner: RunnerId, now: real)
    requires SystemHolds(sys) && id in sys.rows && HeldBy(sys.rows[id], runner)
    ensures var row := sys.rows[id];
            var fails := (|| (row.state == Queued && now > row.createdAt + settings.queuedTimeout)
                          || (row.state == Preparing && Silent(row, settings.preparingTimeout, now))
                          || (Executing(row.state) && Silent(row, settings.staleAfter, now) && now > settings.startedAt + settings.staleAfter
                              && !Attended(settings, sys, id, runner, now)));
            && id in Tick(settings, sys, now).rows
            && var after := Tick(settings, sys, now).rows[id];
               && (fails ==> after.state == FailedRun && after.endedAt == Some(now) && after.runnerId == row.runnerId
                             && after.createdAt == row.createdAt)
               && (!fails ==> after == row)
  {
    hide Finalize, IsPath, Transition;
    TickIsEach(settings, sys, id, now);
    var row := sys.rows[id];
    if !row.state.IsTerminal() {
      FailureStamps(row, now);
    }
  }

  lemma TickIsEach(settings: Settings, sys: System, id: RunId, now: real)
    requires SystemHolds(sys) && id in sys.rows
    ensures id in Tick(settings, sys, now).rows
    ensures Watched(settings, sys, id, sys.rows[id], now) == Done(Tick(settings, sys, now).rows[id])
  {
    hide Watched, RowHolds;
    forall x | x in sys.rows
      ensures Watched(settings, sys, x, sys.rows[x], now).Done?
    {
      WatchedHolds(settings, sys, x, sys.rows[x], now);
    }
  }

  /** Failing a run from the queue and after leading it to collecting leave the same stamps. */
  lemma FailureStamps(row: Row, now: real)
    requires RowHolds(row) && !row.state.IsTerminal()
    ensures var a := Finalize(row, RunFailed, false, now);
            a.Done? && a.row.state == FailedRun && a.row.endedAt == Some(now) && a.row.runnerId == row.runnerId && a.row.createdAt == row.createdAt
    ensures var b := Transition(row, FailedRun, now);
            row.state == Queued ==> b.Done? && b.row.state == FailedRun && b.row.endedAt == Some(now) && b.row.runnerId == row.runnerId
                                    && b.row.createdAt == row.createdAt
  {
    hide IsPath, Finalize;
    FinishedFillsIn(row, RunFailed, false, now);
  }

  /** A run whose runner is attending to it is left, a preparation that takes too long aside. */
  lemma AttendedIsLeft(settings: Settings, sys: System, id: RunId, runner: RunnerId, now: real)
    requires SystemHolds(sys) && id in sys.rows && sys.rows[id].runnerId == Some(runner)
    requires Executing(sys.rows[id].state) && runner in sys.heartbeats && runner in sys.active && id in sys.active[runner]
    requires now - sys.heartbeats[runner] <= settings.staleAfter
    requires sys.rows[id].state == Preparing ==> now - sys.rows[id].updatedAt <= settings.preparingTimeout
    ensures id in Tick(settings, sys, now).rows && Tick(settings, sys, now).rows[id] == sys.rows[id]
  {
    hide Tick, RowHolds;
    WatchdogCloses(settings, sys, id, runner, now);
  }

  /** So is a run with any of its stamps within the limit, whatever has become of its runner. */
  lemma RecentIsLeft(settings: Settings, sys: System, id: RunId, now: real)
    requires SystemHolds(sys) && id in sys.rows && Executing(sys.rows[id].state)
    requires var row := sys.rows[id];
             || now - row.updatedAt <= settings.staleAfter || now - row.createdAt <= settings.staleAfter
             || (row.startedAt.Some? && now - row.startedAt.value <= settings.staleAfter)
    requires sys.rows[id].state == Preparing ==> settings.staleAfter <= settings.preparingTimeout
    ensures id in Tick(settings, sys, now).rows && Tick(settings, sys, now).rows[id] == sys.rows[id]
  {
    hide Tick, RowHolds;
    WatchdogCloses(settings, sys, id, if sys.rows[id].runnerId.Some? then sys.rows[id].runnerId.value else "", now);
  }

  /** A stale run whose runner is silent, or reports its runs without it, is failed. */
  lemma DroppedIsFailed(settings: Settings, sys: System, id: RunId, runner: RunnerId, now: real)
    requires SystemHolds(sys) && id in sys.rows && sys.rows[id].runnerId == Some(runner) && Executing(sys.rows[id].state)
    requires Silent(sys.rows[id], settings.staleAfter, now) && now - settings.startedAt > settings.staleAfter
    requires || runner !in sys.heartbeats
             || now - sys.heartbeats[runner] > settings.staleAfter
             || (runner in sys.active && id !in sys.active[runner])
    ensures id in Tick(settings, sys, now).rows && Tick(settings, sys, now).rows[id].state == FailedRun
  {
    hide Tick, RowHolds, Silent;
    WatchdogCloses(settings, sys, id, runner, now);
  }

  // ---- What the watchdog goes by

  /** The last heartbeat of a runner. */
  ghost predicate LastHeartbeat(ops: seq<Op>, runner: RunnerId, k: nat) {
    && k < |ops| && ops[k].Heartbeat? && ops[k].runner == runner
    && forall j :: k < j < |ops| && ops[j].Heartbeat? ==> ops[j].runner != runner
  }

  /** The runner was last heard at `now`, with these runs. */
  predicate HeardWith(sys: System, runner: RunnerId, now: real, runs: set<RunId>) {
    runner in sys.heartbeats && sys.heartbeats[runner] == now && runner in sys.active && sys.active[runner] == runs
  }

  predicate Unheard(sys: System, runner: RunnerId) {
    runner !in sys.heartbeats && runner !in sys.active
  }

  /** A runner was heard at its last heartbeat and has the runs it reported then, whatever else happened; one that never sent a
      heartbeat is unknown. */
  lemma {:induction false} LastHeartbeatCounts(settings: Settings, ops: seq<Op>, runner: RunnerId)
    ensures forall k: nat :: k < |ops| && ops[k].Heartbeat? && LastHeartbeat(ops, runner, k) ==>
                               HeardWith(Serve(settings, ops), runner, ops[k].now, ops[k].runs)
    ensures (forall k: nat :: k < |ops| ==> !LastHeartbeat(ops, runner, k)) ==> Unheard(Serve(settings, ops), runner)
    decreases |ops|
  {
    hide Apply, LastHeartbeat, HeardWith, Unheard;
    if ops == [] {
      NobodyHeard(runner);
    } else {
      var shorter, n := ops[..|ops| - 1], |ops| - 1;
      LastHeartbeatCounts(settings, shorter, runner);
      LastOneMore(shorter, ops[n], runner);
      assert shorter + [ops[n]] == ops;
      HeardNow(settings, Serve(settings, shorter), ops[n], runner);
      assert forall k :: 0 <= k < n ==> ops[k] == shorter[k];
      if ops[n].Heartbeat? && ops[n].runner == runner {
        assert LastHeartbeat(ops, runner, n);
      } else {
        forall k: nat | k < |ops| && ops[k].Heartbeat? && LastHeartbeat(ops, runner, k)
          ensures HeardWith(Serve(settings, ops), runner, ops[k].now, ops[k].runs)
        {
          assert LastHeartbeat(shorter, runner, k) && HeardWith(Serve(settings, shorter), runner, shorter[k].now, shorter[k].runs);
        }
        assert forall k: nat :: k < n && LastHeartbeat(shorter, runner, k) ==> LastHeartbeat(ops, runner, k);
      }
    }
  }

  lemma NobodyHeard(runner: RunnerId)
    ensures Unheard(System(map[], map[], map[]), runner)
  {
  }

  lemma LastOneMore(ops: seq<Op>, op: Op, runner: RunnerId)
    ensures var more := ops + [op];
            forall k: nat :: LastHeartbeat(more, runner, k)
                             <==> if op.Heartbeat? && op.runner == runner then k == |ops| else k < |ops| && LastHeartbeat(ops, runner, k)
  {
    var more := ops + [op];
    assert more[|ops|] == op && forall k :: 0 <= k < |ops| ==> more[k] == ops[k];
  }

  /** A heartbeat is heard, and nothing else changes what was. */
  lemma HeardNow(settings: Settings, sys: System, op: Op, runner: RunnerId)
    ensures var r := Apply(settings, sys, op);
            if op.Heartbeat? && op.runner == runner then HeardWith(r, runner, op.now, op.runs)
            else (forall now, runs :: HeardWith(sys, runner, now, runs) ==> HeardWith(r, runner, now, runs))
                 && (Unheard(sys, runner) ==> Unheard(r, runner))
  {
    hide Watched, OnLifecycle, Finalize, Cancel, Walk;
  }

  /** Data that arrives keeps its run alive: a tick within the limit leaves it, and the data itself only moves its stamp. */
  lemma DataKeepsAlive(settings: Settings, sys: System, id: RunId, at: real, now: real)
    requires SystemHolds(sys) && id in sys.rows && Executing(sys.rows[id].state)
    requires now - at <= settings.staleAfter && settings.staleAfter <= settings.preparingTimeout
    ensures var told := Apply(settings, sys, Data(id, at));
            && told == sys.(rows := sys.rows[id := sys.rows[id].(updatedAt := at)])
            && id in Tick(settings, told, now).rows && Tick(settings, told, now).rows[id] == told.rows[id]
  {
    hide Tick, RowHolds;
    var told := Apply(settings, sys, Data(id, at));
    TouchHolds(sys.rows[id], at);
    RecentIsLeft(settings, told, id, now);
  }
}
