/** What each message and each API call makes of a run, state by state. */
module RunMessages {
  import opened Options
  import opened RunStates
  import opened RunLifecycle
  import opened Orchestration

  /** The steps a runner may report: from which state to which. */
  const STEPS: set<(RunState, RunState)> :=
    { (Queued, Preparing), (Preparing, Running), (Running, RecoveringRun), (RecoveringRun, Running),
      (Running, Collecting), (RecoveringRun, Collecting) }

  /** A reported state is taken exactly when it is the present one or the next step from it; then the run names its runner, and it is
      stamped as started when it first runs. Any other report leaves the row as it is. */
  lemma LifecycleTakes(row: Row, m: LifecycleMessage, now: real)
    requires m.state in {Preparing, Running, RecoveringRun, Collecting}
    ensures var r := OnLifecycle(row, m, now);
            && ((row.state, m.state) in STEPS ==>
                  r == Row(m.state, Some(m.runnerId), row.createdAt, now,
                           if m.state == Running && row.startedAt.None? then Some(now) else row.startedAt, row.endedAt, row.history + [m.state]))
            && (row.state == m.state ==>
                  r == row.(runnerId := Some(m.runnerId),
                            updatedAt := if m.news || row.runnerId != Some(m.runnerId) then now else row.updatedAt))
            && ((row.state, m.state) !in STEPS && row.state != m.state ==> r == row)
  {
    TransitionRules(row.state, m.state);
    hide CanTransition;
  }

  /** A message that the run finished closes a run that is queued or with a runner: the states it missed are filled in, the start
      included, and the outcome decides the last one. */
  lemma FinishedFillsIn(row: Row, outcome: Outcome, analysed: bool, now: real)
    requires RowHolds(row) && !row.state.IsTerminal()
    ensures var a := Finalize(row, outcome, analysed, now);
            var missed := match row.state case Queued => [Preparing, Running, Collecting] case Preparing => [Running, Collecting]
                          case Running => [Collecting] case RecoveringRun => [Collecting] case _ => [];
            var last := match outcome case RunCompleted => [Analyzing, if analysed then Completed else FailedRun]
                        case RunFailed => [FailedRun] case RunCancelled => [Cancelled];
            && a.Done? && a.row.history == row.history + missed + last && a.row.state == last[|last| - 1]
            && a.row.startedAt == (if row.startedAt.None? && (row.state == Queued || row.state == Preparing) then Some(now) else row.startedAt)
            && a.row.endedAt == Some(now) && a.row.runnerId == row.runnerId && a.row.createdAt == row.createdAt
  {
    hide IsPath;
    FinalizeEnds(row, outcome, analysed, now);
    hide RowHolds;
    OnwardAll(row.state, outcome, analysed);
    var targets := ToCollecting(row.state) + Closing(outcome, analysed);
    WalkOnward(row, targets, now);
    EndsNow(row, targets, now);
    assert row.history + ToCollecting(row.state) + Closing(outcome, analysed) == row.history + targets;
    hide Walk;
    RunningOnce(row.state, outcome, analysed);
  }

  lemma RunningOnce(state: RunState, outcome: Outcome, analysed: bool)
    ensures Running in ToCollecting(state) + Closing(outcome, analysed) <==> state == Queued || state == Preparing
  {
    var to, closing := ToCollecting(state), Closing(outcome, analysed);
    assert Running !in closing;
    assert Running in to <==> state == Queued || state == Preparing by {
      assert [Running, Collecting][0] == Running && [Preparing, Running, Collecting][1] == Running;
    }
    hide ToCollecting, Closing;
    assert Running in to + closing <==> Running in to || Running in closing;
  }

  /** All these steps lead to another state. */
  lemma OnwardAll(state: RunState, outcome: Outcome, analysed: bool)
    requires state in {Queued, Preparing, Running, RecoveringRun, Collecting}
    ensures Onward(state, ToCollecting(state) + Closing(outcome, analysed))
  {
    hide Onward, Closing;
    var closing := Closing(outcome, analysed);
    OnwardCloses(outcome, analysed);
    OneMoreStep(Running, Collecting, closing);
    OneMoreStep(RecoveringRun, Collecting, closing);
    OneMoreStep(Preparing, Running, [Collecting] + closing);
    OneMoreStep(Queued, Preparing, [Running] + ([Collecting] + closing));
    assert [Running] + ([Collecting] + closing) == [Running, Collecting] + closing;
    assert [Preparing] + ([Running] + ([Collecting] + closing)) == [Preparing, Running, Collecting] + closing;
    assert [] + closing == closing;
  }

  lemma OneMoreStep(from: RunState, first: RunState, rest: seq<RunState>)
    requires from != first && CanTransition(from, first) && Onward(first, rest)
    ensures Onward(from, [first] + rest)
  {
    assert ([first] + rest)[1..] == rest;
  }

  lemma OnwardCloses(outcome: Outcome, analysed: bool)
    ensures Onward(Collecting, Closing(outcome, analysed))
  {
    var last := if analysed then Completed else FailedRun;
    OneMoreStep(Analyzing, last, []);
    OneMoreStep(Collecting, Analyzing, [last]);
    OneMoreStep(Collecting, Cancelled, []);
    OneMoreStep(Collecting, FailedRun, []);
    assert [Analyzing] + [last] == [Analyzing, last] && [last] + [] == [last];
    assert [Cancelled] + [] == [Cancelled] && [FailedRun] + [] == [FailedRun];
    hide Onward;
  }

  /** A walk ends the run now, and leaves its runner and its creation alone. */
  lemma {:induction false} EndsNow(row: Row, targets: seq<RunState>, now: real)
    requires Walk(row, targets, now).Done?
    ensures var last := Walk(row, targets, now).row;
            && last.runnerId == row.runnerId && last.createdAt == row.createdAt
            && (row.state.IsTerminal() ==> last == row)
            && (last.state.IsTerminal() && !row.state.IsTerminal() ==> last.endedAt == Some(now))
    decreases |targets|
  {
    if targets != [] {
      EndsNow(Transition(row, targets[0], now).row, targets[1..], now);
    }
  }

  /** A created run is queued, or has failed: at once when the scenario is rejected, after queueing when its job cannot be published. */
  lemma CreationEnds(creation: Creation, now: real)
    ensures var a := Walk(Fresh(now), CreationPath(creation), now);
            var ended := creation != Published;
            && a.Done? && a.row.state == (if ended then FailedRun else Queued)
            && a.row.history == (match creation case RejectedScenario => [Created, Validating, FailedRun]
                                 case Unpublished => [Created, Validating, Queued, FailedRun] case Published => [Created, Validating, Queued])
            && a.row.endedAt == (if ended then Some(now) else None) && a.row.startedAt == None && a.row.createdAt == now
  {
    var row := Fresh(now);
    OneMoreStep(Validating, FailedRun, []);
    OneMoreStep(Queued, FailedRun, []);
    OneMoreStep(Validating, Queued, []);
    OneMoreStep(Validating, Queued, [FailedRun]);
    OneMoreStep(Created, Validating, [FailedRun]);
    OneMoreStep(Created, Validating, [Queued]);
    OneMoreStep(Created, Validating, [Queued, FailedRun]);
    assert [FailedRun] + [] == [FailedRun] && [Queued] + [] == [Queued] && [Queued] + [FailedRun] == [Queued, FailedRun];
    assert [Validating] + [FailedRun] == [Validating, FailedRun] && [Validating] + [Queued] == [Validating, Queued];
    assert [Validating] + [Queued, FailedRun] == [Validating, Queued, FailedRun];
    hide Onward;
    WalkOnward(row, CreationPath(creation), now);
    CreationHolds(creation, now);
    EndsNow(row, CreationPath(creation), now);
    hide Walk, IsPath;
  }

  /** Cancelling closes a run that no runner has picked up, and only such a run. */
  lemma CancelCloses(row: Row, now: real)
    requires RowHolds(row)
    ensures var a := Cancel(row, now);
            a == Done(if row.state == Queued
                      then row.(state := Cancelled, endedAt := Some(now), updatedAt := now, history := row.history + [Cancelled]) else row)
  {
    hide IsPath;
  }
}
