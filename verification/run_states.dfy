/** The run state machine and its transition table. */
module RunStates {
  datatype RunState =
    | Created
    | Validating
    | Queued
    | Preparing
    | Running
    | RecoveringRun
    | Collecting
    | Analyzing
    | Completed
    | FailedRun
    | Cancelled
  {
    predicate IsTerminal() { Completed? || FailedRun? || Cancelled? }
  }

  const RUN_TRANSITIONS: map<RunState, set<RunState>> := map[
    Created := {Validating, Cancelled},
    Validating := {Queued, FailedRun, Cancelled},
    Queued := {Preparing, FailedRun, Cancelled},
    Preparing := {Running, FailedRun, Cancelled},
    Running := {RecoveringRun, Collecting, FailedRun, Cancelled},
    RecoveringRun := {Running, Collecting, FailedRun, Cancelled},
    Collecting := {Analyzing, FailedRun, Cancelled},
    Analyzing := {Completed, FailedRun},
    Completed := {},
    FailedRun := {},
    Cancelled := {}
  ]

  predicate CanTransition(current: RunState, target: RunState) {
    current in RUN_TRANSITIONS && target in RUN_TRANSITIONS[current]
  }

  /** Progress of a run. Every transition advances it except the two between Running and
      RecoveringRun. */
  function Rank(state: RunState): nat {
    match state
    case Created => 0
    case Validating => 1
    case Queued => 2
    case Preparing => 3
    case Running => 4
    case RecoveringRun => 4
    case Collecting => 5
    case Analyzing => 6
    case Completed => 7
    case FailedRun => 7
    case Cancelled => 7
  }

  predicate MayReenter(state: RunState) { state == Running || state == RecoveringRun }

  /** A sequence of states each of which the table allows after its predecessor. */
  ghost predicate IsPath(path: seq<RunState>) {
    forall i :: 0 < i < |path| ==> CanTransition(path[i - 1], path[i])
  }

  /** The table, by its rules: a run advances one rank at a time, a preparation only into Running; Running and RecoveringRun alternate;
      everything before the analysis can be cancelled; everything past creation can fail; and only an analysed run completes. */
  lemma TransitionRules(current: RunState, target: RunState)
    ensures CanTransition(current, target) <==>
            || (target == Cancelled && current in {Created, Validating, Queued, Preparing, Running, RecoveringRun, Collecting})
            || (target == FailedRun && current in {Validating, Queued, Preparing, Running, RecoveringRun, Collecting, Analyzing})
            || (target == Completed && current == Analyzing)
            || (!target.IsTerminal() && Rank(target) == Rank(current) + 1 && (current == Preparing ==> target == Running))
            || (current == Running && target == RecoveringRun) || (current == RecoveringRun && target == Running)
  {
  }

  /** The transition table is total, and ranks it. */
  lemma TransitionAdvances(current: RunState, target: RunState)
    requires CanTransition(current, target)
    ensures !current.IsTerminal() && target != current
    ensures Rank(current) < Rank(target) || (MayReenter(current) && MayReenter(target))
  {
  }

  lemma {:induction false} RankNeverDrops(path: seq<RunState>, i: nat, j: nat)
    requires IsPath(path) && i <= j < |path|
    ensures Rank(path[i]) <= Rank(path[j])
    decreases j - i
  {
    if i < j {
      TransitionAdvances(path[j - 1], path[j]);
      RankNeverDrops(path, i, j - 1);
    }
  }

  /** Along any legal history only Running and RecoveringRun occur twice, and a terminal state
      is the last one. */
  lemma OnlyRecoveryRepeats(path: seq<RunState>, i: nat, j: nat)
    requires IsPath(path) && i < j < |path|
    ensures path[i] == path[j] ==> MayReenter(path[i])
    ensures !path[i].IsTerminal()
  {
    TransitionAdvances(path[i], path[i + 1]);
    RankNeverDrops(path, i + 1, j);
  }
}
