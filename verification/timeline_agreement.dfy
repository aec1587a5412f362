/** The client's tracks, drawn from events, against the report's intervals, compressed from samples:
    when the two show the same state at a sample time. */
module TimelineAgreement {
  import opened Options
  import opened States
  import opened Rounding
  import opened RunLog
  import opened EngineModel
  import opened EnginePairing
  import opened EngineMirror
  import opened Timelines

  /** Where the log stood before tick `k`. */
  ghost function Mark(ticks: seq<Tick>, from: nat, base: nat, k: nat): nat
    requires from <= k <= |ticks|
  {
    if k == from then base else ticks[k - 1].logged
  }

  /** Everything logged during a tick carries its rounded time; nothing after the last tick reports
      a state. */
  ghost predicate StampedByTick(log: seq<RunEvent>, ticks: seq<Tick>, from: nat, base: nat) {
    && from <= |ticks| && base <= |log|
    && (forall k :: from <= k < |ticks| ==> Mark(ticks, from, base, k) <= ticks[k].logged <= |log|)
    && (forall k, i :: from <= k < |ticks| && Mark(ticks, from, base, k) <= i < ticks[k].logged ==> log[i].time == Round3(ticks[k].t))
    && (forall i :: Mark(ticks, from, base, |ticks|) <= i < |log| ==> log[i].stateAfter.None?)
  }

  lemma {:induction false} LoopStamps(c: Config, e: EngineState, feed: seq<Input>)
    ensures var r := Loop(c, e, feed).0;
            e.log <= r.log && e.ticks <= r.ticks && StampedByTick(r.log, r.ticks, |e.ticks|, |e.log|)
    decreases |feed|
  {
    if feed == [] {
      NothingStamped(e, e);
    } else {
      hide ProcessTick, StampedByTick;
      var o := feed[0].observation;
      var next, r := ProcessTick(c, e, o), Loop(c, e, feed).0;
      if feed[0].cancelled {
        NothingStamped(e, r);
      } else {
        TickAppends(c, e, o);
        TickMarks(c, e, o);
        if o.finished || o.sample.t >= c.timeout {
          NothingStamped(next, r);
        } else {
          LoopStamps(c, next, feed[1..]);
        }
        ExtendStamps(e, next, r);
      }
    }
  }

  /** Between ticks, nothing that reports a state is logged. */
  lemma NothingStamped(e: EngineState, r: EngineState)
    requires r.ticks == e.ticks && e.log <= r.log && forall i :: |e.log| <= i < |r.log| ==> r.log[i].stateAfter.None?
    ensures StampedByTick(r.log, r.ticks, |e.ticks|, |e.log|)
  {
  }

  lemma TickMarks(c: Config, e: EngineState, o: Observation)
    ensures var next := ProcessTick(c, e, o);
            next.ticks[|e.ticks|].t == o.sample.t && next.ticks[|e.ticks|].logged == |next.log|
  {
    hide ProcessScheduled, ProcessObservation, JudgeEach, BufferSample;
  }

  lemma ExtendStamps(e: EngineState, next: EngineState, r: EngineState)
    requires |next.ticks| == |e.ticks| + 1 && next.ticks[..|e.ticks|] == e.ticks
    requires next.ticks[|e.ticks|].logged == |next.log|
    requires Appended(e.log, next.log, ALL_KINDS, next.ticks[|e.ticks|].t)
    requires next.log <= r.log && next.ticks <= r.ticks && StampedByTick(r.log, r.ticks, |next.ticks|, |next.log|)
    ensures StampedByTick(r.log, r.ticks, |e.ticks|, |e.log|)
  {
    hide Round3;
    var n := |e.ticks|;
    assert r.ticks[n] == next.ticks[n];
    forall k | n <= k <= |r.ticks|
      ensures k > n ==> Mark(r.ticks, n, |e.log|, k) == Mark(r.ticks, n + 1, |next.log|, k)
    {
    }
    forall k, i | n <= k < |r.ticks| && Mark(r.ticks, n, |e.log|, k) <= i < r.ticks[k].logged
      ensures r.log[i].time == Round3(r.ticks[k].t)
    {
      if k == n {
        assert r.log[i] == next.log[i];
      } else {
        assert Mark(r.ticks, n + 1, |next.log|, k) <= i;
      }
    }
  }

  // ---- What the track shows

  /** When everything reported in the first `n` events is past and everything reported later is
      still to come, the last state is the final one of the prefix. */
  lemma {:induction false} ShownIsPrefix(initial: ComponentState, log: seq<RunEvent>, s: Id, n: nat, t: real)
    requires n <= |log|
    requires forall i :: 0 <= i < n ==> log[i].time <= t
    requires forall i :: n <= i < |log| && log[i].stateAfter.Some? ==> log[i].time > t
    ensures LastState(initial, ChangesOf(log, s), t) == FinalState(initial, ChangesOf(log[..n], s))
    decreases |log|
  {
    if n == |log| {
      assert log[..n] == log;
      ChangesInPast(log, s, t);
      EverythingPast(initial, ChangesOf(log, s), t);
    } else {
      var shorter, last := log[..|log| - 1], log[|log| - 1];
      assert shorter[..n] == log[..n];
      ShownIsPrefix(initial, shorter, s, n, t);
      var rest := ChangesOf(shorter, s);
      if last.subsystem == Some(s) && last.stateAfter.Some? {
        assert (rest + [(last.time, last.stateAfter.value)])[..|rest|] == rest;
      }
    }
  }

  lemma {:induction false} ChangesInPast(log: seq<RunEvent>, s: Id, t: real)
    requires forall i :: 0 <= i < |log| ==> log[i].time <= t
    ensures forall i :: 0 <= i < |ChangesOf(log, s)| ==> ChangesOf(log, s)[i].0 <= t
    decreases |log|
  {
    if log != [] {
      ChangesInPast(log[..|log| - 1], s, t);
    }
  }

  lemma {:induction false} FoldIsFinal(initial: Health, log: seq<RunEvent>, s: Id)
    requires s in initial
    ensures s in FoldStates(initial, log) && FoldStates(initial, log)[s] == FinalState(initial[s], ChangesOf(log, s))
    decreases |log|
  {
    if log != [] {
      FoldIsFinal(initial, log[..|log| - 1], s);
    }
  }

  lemma {:induction false} ChangesInOrder(log: seq<RunEvent>, s: Id, t: real)
    requires InOrder(log, t) && forall i :: 0 <= i < |log| ==> 0.0 <= log[i].time
    ensures NonDecreasing(ChangesOf(log, s)) && forall i :: 0 <= i < |ChangesOf(log, s)| ==> 0.0 <= ChangesOf(log, s)[i].0
    ensures log != [] ==> forall i :: 0 <= i < |ChangesOf(log, s)| ==> ChangesOf(log, s)[i].0 <= log[|log| - 1].time
    decreases |log|
  {
    if log != [] {
      var shorter := log[..|log| - 1];
      ChangesInOrder(shorter, s, t);
      if shorter != [] {
        assert shorter[|shorter| - 1].time <= log[|log| - 1].time;
      }
    }
  }

  // ---- What the client has been told by a time

  function StatesBefore(initial: Health, feed: seq<Input>, k: nat): Health
    requires k <= |feed|
  {
    if k == 0 then initial else feed[k - 1].observation.sample.health
  }

  /** The samples of the first `n` observations. */
  function SamplesOf(feed: seq<Input>, n: nat): seq<Sample>
    requires n <= |feed|
  {
    seq(n, k requires 0 <= k < n => feed[k].observation.sample)
  }

  /** The observations drawn at a time: up to the last one whose rounded time is not later. */
  function Reached(ticks: seq<Tick>, t: real): (m: nat)
    ensures m <= |ticks| && (m > 0 ==> Round3(ticks[m - 1].t) <= t)
    ensures forall j :: m <= j < |ticks| ==> Round3(ticks[j].t) > t
  {
    if ticks == [] then 0
    else if Round3(ticks[|ticks| - 1].t) <= t then |ticks|
    else
      var m := Reached(ticks[..|ticks| - 1], t);
      assert forall j :: 0 <= j < |ticks| - 1 ==> ticks[j] == ticks[..|ticks| - 1][j];
      m
  }

  ghost predicate TicksInOrder(ticks: seq<Tick>) {
    forall j, k :: 0 <= j < k < |ticks| ==> ticks[j].t <= ticks[k].t
  }

  /** The marks rise with the ticks. */
  lemma {:induction false} MarksRise(log: seq<RunEvent>, ticks: seq<Tick>, base: nat, j: nat, k: nat)
    requires StampedByTick(log, ticks, 0, base) && j <= k <= |ticks|
    ensures Mark(ticks, 0, base, j) <= Mark(ticks, 0, base, k)
    decreases k - j
  {
    if j < k {
      MarksRise(log, ticks, base, j, k - 1);
      assert Mark(ticks, 0, base, k - 1) <= ticks[k - 1].logged;
    }
  }

  /** The tick during which an event was logged. */
  lemma {:induction false} TickOf(ticks: seq<Tick>, base: nat, i: nat, m: nat, log: seq<RunEvent>) returns (j: nat)
    requires StampedByTick(log, ticks, 0, base) && m <= |ticks|
    requires base <= i < |log| && (i < Mark(ticks, 0, base, m) || (m == |ticks| && log[i].stateAfter.Some?))
    ensures j < m && Mark(ticks, 0, base, j) <= i < ticks[j].logged
    decreases m
  {
    if Mark(ticks, 0, base, m - 1) <= i {
      j := m - 1;
    } else {
      j := TickOf(ticks, base, i, m - 1, log);
    }
  }

  lemma {:induction false} StatelessFold(initial: Health, log: seq<RunEvent>)
    requires forall i :: 0 <= i < |log| ==> log[i].stateAfter.None?
    ensures FoldStates(initial, log) == initial
    decreases |log|
  {
    if log != [] {
      StatelessFold(initial, log[..|log| - 1]);
    }
  }

  /** What was logged up to the last drawn observation is past, what was logged after it is to come. */
  lemma DrawnSplits(log: seq<RunEvent>, ticks: seq<Tick>, base: nat, i: nat, t: real)
    requires StampedByTick(log, ticks, 0, base) && TicksInOrder(ticks) && 0.0 <= t && i < |log|
    requires forall x :: 0 <= x < base ==> log[x].time == 0.0
    ensures i < Mark(ticks, 0, base, Reached(ticks, t)) ==> log[i].time <= t
    ensures i >= Mark(ticks, 0, base, Reached(ticks, t)) && log[i].stateAfter.Some? ==> log[i].time > t
  {
    hide Round3, TicksInOrder;
    var m := Reached(ticks, t);
    MarksRise(log, ticks, base, 0, m);
    if base <= i < Mark(ticks, 0, base, m) {
      var j := TickOf(ticks, base, i, m, log);
      EarlierTick(ticks, j, m - 1);
    } else if i >= Mark(ticks, 0, base, m) && log[i].stateAfter.Some? {
      var j := TickOf(ticks, base, i, |ticks|, log);
      if j < m {
        MarksRise(log, ticks, base, j + 1, m);
      }
    }
  }

  lemma EarlierTick(ticks: seq<Tick>, j: nat, k: nat)
    requires TicksInOrder(ticks) && j <= k < |ticks|
    ensures Round3(ticks[j].t) <= Round3(ticks[k].t)
  {
    Round3Monotone(ticks[j].t, ticks[k].t);
  }

  /** At any time the log of the loop shows the health of the last drawn observation. */
  lemma ShownInLoop(initial: Health, log: seq<RunEvent>, ticks: seq<Tick>, feed: seq<Input>, base: nat, s: Id, t: real)
    requires StampedByTick(log, ticks, 0, base) && |ticks| <= |feed| && s in initial
    requires TicksInOrder(ticks) && 0.0 <= t
    requires forall i :: 0 <= i < base ==> log[i].time == 0.0 && log[i].stateAfter.None?
    requires forall j :: 0 <= j < |ticks| ==> FoldStates(initial, log[..ticks[j].logged]) == feed[j].observation.sample.health
    requires s in StatesBefore(initial, feed, Reached(ticks, t))
    ensures LastState(initial[s], ChangesOf(log, s), t) == StatesBefore(initial, feed, Reached(ticks, t))[s]
  {
    var m := Reached(ticks, t);
    var n := Mark(ticks, 0, base, m);
    MarksRise(log, ticks, base, 0, m);
    forall i | 0 <= i < |log|
      ensures i < n ==> log[i].time <= t
      ensures i >= n && log[i].stateAfter.Some? ==> log[i].time > t
    {
      DrawnSplits(log, ticks, base, i, t);
    }
    hide Round3, StampedByTick, TicksInOrder, Reached;
    ShownIsPrefix(initial[s], log, s, n, t);
    FoldIsFinal(initial, log[..n], s);
    if m == 0 {
      StatelessFold(initial, log[..base]);
    }
  }

  /** Entries that repeat the last state at a time no earlier than everything before change nothing. */
  lemma {:induction false} RepeatingShowsNothing(initial: ComponentState, before: seq<RunEvent>, after: seq<RunEvent>, states: Health,
                                                 s: Id, at: real, t: real)
    requires Restates(before, after, states) && s in states && FinalState(initial, ChangesOf(before, s)) == states[s]
    requires forall i :: 0 <= i < |before| ==> before[i].time <= at
    requires forall i :: |before| <= i < |after| ==> after[i].time == at
    ensures LastState(initial, ChangesOf(after, s), t) == LastState(initial, ChangesOf(before, s), t)
    ensures FinalState(initial, ChangesOf(after, s)) == states[s]
    decreases |after|
  {
    if |after| == |before| {
      assert after == before;
    } else {
      var shorter, last := after[..|after| - 1], after[|after| - 1];
      RepeatingShowsNothing(initial, before, shorter, states, s, at, t);
      assert forall i :: 0 <= i < |shorter| ==> shorter[i].time <= at by {
        assert forall i :: 0 <= i < |before| ==> shorter[i] == before[i];
      }
      ChangesInPast(shorter, s, at);
      var rest := ChangesOf(shorter, s);
      if last.subsystem == Some(s) && last.stateAfter.Some? {
        assert (rest + [(last.time, last.stateAfter.value)])[..|rest|] == rest;
        if at <= t {
          EverythingPast(initial, rest, t);
        }
      }
    }
  }

  lemma {:induction false} FaithfulKeys(initial: Health, feed: seq<Input>, k: nat)
    requires FaithfulFeed(initial, feed) && k < |feed|
    ensures feed[k].observation.sample.health.Keys == initial.Keys && StatesBefore(initial, feed, k).Keys == initial.Keys
    decreases k
  {
    if k > 0 {
      var next := feed[0].observation.sample.health;
      FaithfulKeys(next, feed[1..], k - 1);
      assert feed[1..][k - 1] == feed[k];
      assert k > 1 ==> feed[1..][k - 2] == feed[k - 1];
    }
  }

  lemma StartLog(events: seq<ScenarioEvent>, initial: Health)
    ensures var start := StartRun(events, initial);
            |start.log| == 1 && start.log[0].time == 0.0 && start.log[0].stateAfter.None? && start.ticks == [] && start.lastT == 0.0
            && InOrder(start.log, 0.0)
  {
    assert (0.0 as real).Floor == 0;
  }

  lemma MirroredTicks(initial: Health, e: EngineState, feed: seq<Input>)
    requires TicksMirror(initial, e, feed, 0) && TimesFrom(feed, 0.0)
    ensures |e.ticks| <= |feed| && TicksInOrder(e.ticks)
    ensures forall j :: 0 <= j < |e.ticks| ==>
              && e.ticks[j].t == feed[j].observation.sample.t && e.ticks[j].t >= 0.0
              && e.ticks[j].logged <= |e.log| && FoldStates(initial, e.log[..e.ticks[j].logged]) == feed[j].observation.sample.health
  {
    hide FoldStates;
    if |e.ticks| > 0 {
      assert e.ticks[|e.ticks| - 1].t == feed[|e.ticks| - 1].observation.sample.t;
    }
  }

  /** A finished log starts at zero. */
  lemma LogFromZero(c: Config, events: seq<ScenarioEvent>, initial: Health, feed: seq<Input>, raises: bool)
    requires TimesFrom(feed, 0.0)
    ensures var r := Run(c, events, Setup.Prepared(initial), feed, raises).0;
            InOrder(r.log, r.lastT) && forall i :: 0 <= i < |r.log| ==> 0.0 <= r.log[i].time
  {
    var start := StartRun(events, initial);
    StartLog(events, initial);
    RunInOrder(c, events, Setup.Prepared(initial), feed, raises);
    hide Loop, StartRun, Close, StampedByTick;
    var (looped, exit) := Loop(c, start, feed);
    LoopStamps(c, start, feed);
    CloseAppends(looped, exit, raises);
    assert Close(looped, exit, raises).0.log[0] == start.log[0];
  }

  lemma CloseAppends(e: EngineState, exit: Exit, raises: bool)
    ensures e.log <= Close(e, exit, raises).0.log
  {
    hide FlushEach, ClearEach;
  }

  /** What the client's track of a component shows at a time: the health of the last drawn observation. `initial` holds
      the healthy states with which both the target and the client's tracks start. */
  ghost predicate ClientShows(initial: Health, r: EngineState, feed: seq<Input>, s: Id, t: real, end: real) {
    && |r.ticks| <= |feed| && s in initial
    && var drawn := StatesBefore(initial, feed, Reached(r.ticks, t));
       s in drawn && StateAt(EventTrack(initial[s], ChangesOf(r.log, s), end), t) == Some(drawn[s])
  }

  /** Main result. For every run with a faithful feed whose clock never goes back, however it ends: at every time of the
      drawn range the client's track, drawn from the finished log, shows the health of the last observation whose
      rounded time is not later. */
  lemma ClientFollows(c: Config, events: seq<ScenarioEvent>, initial: Health, feed: seq<Input>, raises: bool, s: Id, t: real, end: real)
    requires KnownEvents(events, initial) && FaithfulFeed(initial, feed) && TimesFrom(feed, 0.0)
    requires s in initial && 0.0 <= t < end
    ensures ClientShows(initial, Run(c, events, Setup.Prepared(initial), feed, raises).0, feed, s, t, end)
  {
    var start := StartRun(events, initial);
    var (looped, exit) := Loop(c, start, feed);
    var r := Close(looped, exit, raises).0;
    StartLog(events, initial);
    LoopFollows(c, events, initial, feed, s, t);
    LogFromZero(c, events, initial, feed, raises);
    StartMirrors(events, initial);
    LoopMirrors(initial, c, start, feed);
    LoopInOrder(c, start, feed);
    CloseRestates(looped, exit, raises);
    hide Loop, StartRun, Close, Round3, FoldStates, ChangesOf, EventTrack, LastState, StateAt, Restates, Reached, StatesBefore,
         KnownEvents, TimesFrom, TicksMirror, FaithfulFeed, Known;
    FoldIsFinal(initial, looped.log, s);
    RepeatingShowsNothing(initial[s], looped.log, r.log, looped.states, s, Round3(looped.lastT), t);
    hide InOrder;
    ChangesInOrder(r.log, s, r.lastT);
    EventTrackShowsLast(initial[s], ChangesOf(r.log, s), end, t);
  }

  lemma StartMirrors(events: seq<ScenarioEvent>, initial: Health)
    requires KnownEvents(events, initial)
    ensures Mirrors(initial, StartRun(events, initial), StartRun(events, initial).states) && StartRun(events, initial).states == initial
  {
    var start := StartRun(events, initial);
    assert start.log == [] + [start.log[0]];
    FoldAppend(initial, [], start.log[0]);
  }

  /** The same for the log of the loop alone. */
  lemma LoopFollows(c: Config, events: seq<ScenarioEvent>, initial: Health, feed: seq<Input>, s: Id, t: real)
    requires KnownEvents(events, initial) && FaithfulFeed(initial, feed) && TimesFrom(feed, 0.0) && s in initial && 0.0 <= t
    ensures var e := Loop(c, StartRun(events, initial), feed).0;
            && |e.ticks| <= |feed| && s in StatesBefore(initial, feed, Reached(e.ticks, t))
            && LastState(initial[s], ChangesOf(e.log, s), t) == StatesBefore(initial, feed, Reached(e.ticks, t))[s]
  {
    var start := StartRun(events, initial);
    var e := Loop(c, start, feed).0;
    StartLog(events, initial);
    StartMirrors(events, initial);
    hide Loop, StartRun, Round3, FoldStates, ChangesOf, LastState, StampedByTick, KnownEvents, TimesFrom, TicksMirror, TicksInOrder, Reached;
    LoopMirrors(initial, c, start, feed);
    LoopStamps(c, start, feed);
    MirroredTicks(initial, e, feed);
    var m := Reached(e.ticks, t);
    if m > 0 {
      FaithfulKeys(initial, feed, m - 1);
    }
    hide FaithfulFeed;
    assert e.log[0] == start.log[0];
    ShownInLoop(initial, e.log, e.ticks, feed, 1, s, t);
  }

  // ---- The comparison

  /** The observation times strictly increase. */
  ghost predicate Rising(feed: seq<Input>) {
    forall j, k :: 0 <= j < k < |feed| ==> feed[j].observation.sample.t < feed[k].observation.sample.t
  }

  /** The report's interval at a sample time shows the sample. */
  lemma ReportShowsSample(initial: Health, feed: seq<Input>, n: nat, k: nat, s: Id)
    requires k < n <= |feed| && Rising(feed) && FaithfulFeed(initial, feed) && s in initial
    ensures s in feed[k].observation.sample.health
    ensures StateAt(Track(History(SamplesOf(feed, n), s), feed[n - 1].observation.sample.t), feed[k].observation.sample.t)
         == Some(feed[k].observation.sample.health[s])
  {
    var samples := SamplesOf(feed, n);
    forall j | 0 <= j < n
      ensures s in samples[j].health
    {
      FaithfulKeys(initial, feed, j);
    }
    HistoryPoints(samples, s);
    var h := History(samples, s);
    hide History;
    forall i, j | 0 <= i < j < n
      ensures h[i].0 < h[j].0
    {
      assert feed[i].observation.sample.t < feed[j].observation.sample.t;
    }
    TrackExpands(h, feed[n - 1].observation.sample.t, k);
  }

  /** What the two timelines of a component show at the time of tick `k`: the report the sampled state, the client the
      state at the last drawn observation. */
  ghost predicate AgreeAt(initial: Health, r: EngineState, feed: seq<Input>, k: nat, s: Id, end: real) {
    var n := |r.ticks|;
    && k < n <= |feed| && s in initial
    && var t, sample := r.ticks[k].t, feed[k].observation.sample;
       && t == sample.t && s in sample.health
       && StateAt(Track(History(SamplesOf(feed, n), s), feed[n - 1].observation.sample.t), t) == Some(sample.health[s])
       && var drawn := StatesBefore(initial, feed, Reached(r.ticks, t));
          s in drawn
          && (StateAt(EventTrack(initial[s], ChangesOf(r.log, s), end), t) == Some(sample.health[s]) <==> drawn[s] == sample.health[s])
  }

  /** Main result. For every run with a faithful feed of strictly increasing times: the report's interval at a sample
      time shows the sampled state; the client's track shows it exactly when the component was in that state at the last
      observation whose rounded time is not later. */
  lemma TimelinesAgree(c: Config, events: seq<ScenarioEvent>, initial: Health, feed: seq<Input>, raises: bool, k: nat, s: Id, end: real)
    requires KnownEvents(events, initial) && FaithfulFeed(initial, feed) && TimesFrom(feed, 0.0) && Rising(feed)
    requires var r := Run(c, events, Setup.Prepared(initial), feed, raises).0;
             k < |r.ticks| && r.ticks[k].t < end
    requires s in initial
    ensures AgreeAt(initial, Run(c, events, Setup.Prepared(initial), feed, raises).0, feed, k, s, end)
  {
    hide Run, Round3, FoldStates, ChangesOf, EventTrack, StateAt, Track, History, Rising, TicksMirror, Reached, StatesBefore,
         KnownEvents, FaithfulFeed, TimesFrom, Folds;
    var r := Run(c, events, Setup.Prepared(initial), feed, raises).0;
    RunMirrors(c, events, initial, feed, raises);
    MirroredTicks(initial, r, feed);
    ClientFollows(c, events, initial, feed, raises, s, r.ticks[k].t, end);
    ReportShowsSample(initial, feed, |r.ticks|, k, s);
  }

  // ---- Observations a millisecond apart

  /** Consecutive observations lie at least a millisecond apart. */
  ghost predicate Spaced(feed: seq<Input>) {
    forall j, k :: 0 <= j < k < |feed| ==> feed[k].observation.sample.t - feed[j].observation.sample.t >= 0.001
  }

  /** A millisecond apart, the last drawn observation at a sample time is that sample, unless its time rounds up. */
  lemma SpacedReach(ticks: seq<Tick>, k: nat)
    requires forall i, j :: 0 <= i < j < |ticks| ==> ticks[j].t - ticks[i].t >= 0.001
    requires k < |ticks|
    ensures Reached(ticks, ticks[k].t) == if Round3(ticks[k].t) <= ticks[k].t then k + 1 else k
  {
    hide Round3;
    var t := ticks[k].t;
    forall j | 0 <= j < |ticks|
      ensures j < k ==> Round3(ticks[j].t) <= t
      ensures j > k ==> Round3(ticks[j].t) > t
    {
      Round3Near(ticks[j].t);
    }
  }

  /** For observations at least a millisecond apart the client's track shows the sampled state exactly when the sample
      time does not round up to a later millisecond, or the component did not change at that sample. */
  lemma SpacedTimelinesAgree(c: Config, events: seq<ScenarioEvent>, initial: Health, feed: seq<Input>, raises: bool, k: nat, s: Id, end: real)
    requires KnownEvents(events, initial) && FaithfulFeed(initial, feed) && TimesFrom(feed, 0.0) && Spaced(feed)
    requires var r := Run(c, events, Setup.Prepared(initial), feed, raises).0;
             k < |r.ticks| && r.ticks[k].t < end
    requires s in initial
    ensures var r := Run(c, events, Setup.Prepared(initial), feed, raises).0;
            && AgreeAt(initial, r, feed, k, s, end) && s in StatesBefore(initial, feed, k)
            && (StateAt(EventTrack(initial[s], ChangesOf(r.log, s), end), r.ticks[k].t) == Some(feed[k].observation.sample.health[s])
                <==> Round3(r.ticks[k].t) <= r.ticks[k].t
                     || feed[k].observation.sample.health[s] == StatesBefore(initial, feed, k)[s])
  {
    hide Run, Round3, FoldStates, ChangesOf, EventTrack, StateAt, Track, History, Rising, Reached, Spaced, FaithfulFeed, KnownEvents,
         TimesFrom, TicksMirror;
    var r := Run(c, events, Setup.Prepared(initial), feed, raises).0;
    SpacedRises(feed);
    TimelinesAgree(c, events, initial, feed, raises, k, s, end);
    RunMirrors(c, events, initial, feed, raises);
    SpacedTicks(initial, r, feed);
    SpacedReach(r.ticks, k);
    FaithfulKeys(initial, feed, k);
  }

  lemma SpacedRises(feed: seq<Input>)
    requires Spaced(feed)
    ensures Rising(feed)
  {
  }

  lemma SpacedTicks(initial: Health, r: EngineState, feed: seq<Input>)
    requires TicksMirror(initial, r, feed, 0) && TimesFrom(feed, 0.0) && Spaced(feed)
    ensures forall i, j :: 0 <= i < j < |r.ticks| ==> r.ticks[j].t - r.ticks[i].t >= 0.001
  {
    MirroredTicks(initial, r, feed);
    hide FoldStates, TicksMirror;
    forall i, j | 0 <= i < j < |r.ticks|
      ensures r.ticks[j].t - r.ticks[i].t >= 0.001
    {
      assert feed[j].observation.sample.t - feed[i].observation.sample.t >= 0.001;
    }
  }
}
