/** From the engine to the database: what a run leaves behind once its messages were handled. */
module Delivery {
  import opened Options
  import States
  import opened RunStates
  import opened RunLog
  import opened RunLifecycle
  import E = EngineModel
  import Mirror = EngineMirror
  import Pairing = EnginePairing
  import Endings = EngineEndings
  import Messages = RunMessages
  import Storage

  /** Main result. Whatever the order and the repetitions in which the messages of a run are handled, and
      whatever the target's clock does, the stored run is the one the engine emitted: the query returns the log
      in emission order, the chunks hold the samples of the processed observations, and the counters count both. */
  lemma RunIsStored(c: E.Config, events: seq<E.ScenarioEvent>, setup: E.Setup, feed: seq<E.Input>, raises: bool,
                    ms: seq<Storage.Message>, limit: nat)
    requires var e := E.Run(c, events, setup, feed, raises).0;
             (forall k :: 0 <= k < |ms| ==> Storage.Emitted(ms[k], e.log, e.telemetry)) && Storage.Covers(ms, e.log, e.telemetry)
             && limit >= |e.log|
    ensures var e := E.Run(c, events, setup, feed, raises).0;
            var s := Storage.HandleAll(ms);
            var samples := if setup.Prepared? then Mirror.Processed(c, feed) else [];
            && Storage.ListEvents(s, -1, limit, None) == e.log && s.eventCount == |e.log|
            && s.chunks == (map i: nat | 0 <= i < |e.telemetry| :: e.telemetry[i])
            && Mirror.Flatten(e.telemetry) == samples && s.sampleCount == |samples|
  {
    hide E.Run, Storage.HandleAll, Storage.Emitted, Storage.Covers, Mirror.Flatten, Mirror.Processed;
    var e := E.Run(c, events, setup, feed, raises).0;
    Pairing.RunNumbers(c, events, setup, feed, raises);
    Mirror.RunHandsOverSamples(c, events, setup, feed, raises);
    Storage.StoreIsDetermined(ms, e.log, e.telemetry);
    Storage.PageOfRun(Storage.HandleAll(ms), e.log, e.telemetry, -1, limit, None);
  }

  /** Main result. Whatever the schedule, every telemetry query on the stored run - window, stride, limit -
      is answered from the samples of the processed observations: leaving out chunks loses none of them. */
  lemma TelemetryIsRead(c: E.Config, events: seq<E.ScenarioEvent>, setup: E.Setup, feed: seq<E.Input>, raises: bool,
                        ms: seq<Storage.Message>, from: Option<real>, to: Option<real>, stride: int, limit: Option<int>)
    requires E.TimesFrom(feed, 0.0)
    requires var e := E.Run(c, events, setup, feed, raises).0;
             (forall k :: 0 <= k < |ms| ==> Storage.Emitted(ms[k], e.log, e.telemetry)) && Storage.Covers(ms, e.log, e.telemetry)
    ensures var stored := Storage.StoredChunks(Storage.HandleAll(ms));
            Storage.Queried(Mirror.Flatten(Storage.SelectChunks(stored, from, to)), from, to, stride, limit)
            == Storage.Queried(if setup.Prepared? then Mirror.Processed(c, feed) else [], from, to, stride, limit)
  {
    hide E.Run, Storage.HandleAll, Storage.Emitted, Storage.Covers, Mirror.Flatten, Mirror.Processed, Storage.Queried;
    var e := E.Run(c, events, setup, feed, raises).0;
    Pairing.RunInOrder(c, events, setup, feed, raises);
    Mirror.RunHandsOverSamples(c, events, setup, feed, raises);
    Storage.StoreIsDetermined(ms, e.log, e.telemetry);
    ProcessedInOrder(c, feed, 0.0);
    Storage.QueryOfRun(Storage.HandleAll(ms), e.log, e.telemetry, from, to, stride, limit);
  }

  lemma {:induction false} ProcessedInOrder(c: E.Config, feed: seq<E.Input>, from: real)
    requires E.TimesFrom(feed, from)
    ensures Storage.Ordered(Mirror.Processed(c, feed))
    ensures forall i :: 0 <= i < |Mirror.Processed(c, feed)| ==> from <= Mirror.Processed(c, feed)[i].t
    decreases |feed|
  {
    if feed != [] {
      E.TimesAfter(feed, from);
      ProcessedInOrder(c, feed[1..], feed[0].observation.sample.t);
    }
  }

  /** How the runner names the end of a run. */
  function OutcomeOf(state: RunState): Outcome {
    if state == Collecting then RunCompleted else if state == Cancelled then RunCancelled else RunFailed
  }

  /** The final message after an in-order delivery closes the row from Collecting. */
  lemma CloseFromCollecting(row: Row, outcome: Outcome, analysed: bool, now: real)
    requires RowHolds(row) && row.state == Collecting
    ensures var closed := Finalize(row, outcome, analysed, now);
            closed.Done? && closed.row.history == row.history + Closing(outcome, analysed)
  {
    hide RowHolds, IsPath, Walk;
    var closing := Closing(outcome, analysed);
    assert ToCollecting(Collecting) + closing == closing;
    assert closing[1..] == if outcome == RunCompleted then [closing[1]] else [];
    if outcome == RunCompleted {
      assert closing[1..][1..] == [];
      assert Onward(closing[1], []);
      assert Onward(Analyzing, closing[1..]);
    } else {
      assert Onward(closing[0], []);
    }
    WalkOnward(row, closing, now);
  }

  /** Main result. When the messages of a run arrive in order, and its target became ready, the row records
      exactly the states the engine went through, then the closing states of its outcome. */
  lemma RunIsRecorded(c: E.Config, events: seq<E.ScenarioEvent>, setup: E.Setup, feed: seq<E.Input>, raises: bool,
                      row: Row, runner: RunnerId, analysed: bool, now: real)
    requires setup.Prepared? && RowHolds(row) && row.state == Queued
    ensures var (e, last) := E.Run(c, events, setup, feed, raises);
            var told := DeliverAll(row, e.lifecycle, runner, now);
            var closed := Finalize(told, OutcomeOf(last), analysed, now);
            closed.Done? && closed.row.history == row.history + e.lifecycle + Closing(OutcomeOf(last), analysed)
  {
    hide E.Run, DeliverAll, IsPath, RowHolds, Closing, Finalize;
    var (e, last) := E.Run(c, events, setup, feed, raises);
    Mirror.RunReportsPath(c, events, setup, feed, raises);
    EndsCollecting(c, events, setup, feed, raises);
    InOrderIsAccepted(row, e.lifecycle, runner, now);
    CloseFromCollecting(DeliverAll(row, e.lifecycle, runner, now), OutcomeOf(last), analysed, now);
  }

  /** The state the row of such a run ends in, by what happened: cancelled exactly when a cancel request was noticed; completed exactly
      when the target did not fail after the whole feed either, and the analysis succeeded; failed otherwise. */
  lemma RunEndsInRow(c: E.Config, events: seq<E.ScenarioEvent>, setup: E.Setup, feed: seq<E.Input>, raises: bool,
                     row: Row, runner: RunnerId, analysed: bool, now: real)
    requires setup.Prepared? && RowHolds(row) && row.state == Queued
    ensures var (e, last) := E.Run(c, events, setup, feed, raises);
            var told := DeliverAll(row, e.lifecycle, runner, now);
            var closed := Finalize(told, OutcomeOf(last), analysed, now);
            var fails := raises && Endings.GoesOn(c, feed, |feed|);
            && closed.Done? && (closed.row.state == Cancelled <==> Endings.Noticed(c, feed))
            && (closed.row.state == Completed <==> !Endings.Noticed(c, feed) && !fails && analysed)
            && closed.row.state.IsTerminal() && closed.row.endedAt == Some(now)
  {
    hide E.Run, DeliverAll, IsPath, Finalize, Endings.Noticed, Endings.GoesOn;
    var (e, last) := E.Run(c, events, setup, feed, raises);
    Mirror.RunReportsPath(c, events, setup, feed, raises);
    EndsCollecting(c, events, setup, feed, raises);
    InOrderIsAccepted(row, e.lifecycle, runner, now);
    Endings.RunEnds(c, events, setup, feed, raises);
    Messages.FinishedFillsIn(DeliverAll(row, e.lifecycle, runner, now), OutcomeOf(last), analysed, now);
  }

  lemma EndsCollecting(c: E.Config, events: seq<E.ScenarioEvent>, setup: E.Setup, feed: seq<E.Input>, raises: bool)
    requires setup.Prepared?
    ensures var e := E.Run(c, events, setup, feed, raises).0;
            ([Queued] + e.lifecycle)[|e.lifecycle|] == Collecting
  {
    hide E.Loop, E.StartRun, E.ClearEach, E.FlushEach;
    var start := E.StartRun(events, setup.states);
    StartOnPath(events, setup.states);
    Mirror.LoopTracksRecovery(c, start, feed);
    var (looped, exit) := E.Loop(c, start, feed);
    Mirror.CloseReports(looped, exit, raises);
  }

  lemma StartOnPath(events: seq<E.ScenarioEvent>, states: map<States.Id, States.ComponentState>)
    ensures Mirror.TracksRecovery(E.StartRun(events, states))
  {
    Mirror.RunningAndRecovering();
    var initial := E.Initial(events);
    Mirror.StepOnPath(initial, Preparing);
    Mirror.StepOnPath(E.SetRunState(initial, Preparing).(states := states), Running);
  }
}
