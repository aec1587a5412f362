/** State timelines: the report's intervals compressed from samples, the client's tracks built from
    events, and the client's search for the samples up to a time. */
module Timelines {
  import opened Options
  import opened States
  import opened RunLog
  import Sorting
  import TimeMetrics

  /** A stretch of time in one state. */
  datatype Piece = Piece(state: ComponentState, start: real, end: real)

  datatype Interval = Interval(subsystem: Id, piece: Piece)

  /** One observation of one component. */
  type Point = (real, ComponentState)

  /** The state of the last piece that has begun at time `t`. */
  function StateAt(pieces: seq<Piece>, t: real): Option<ComponentState> {
    if pieces == [] then None
    else if pieces[|pieces| - 1].start <= t then Some(pieces[|pieces| - 1].state)
    else StateAt(pieces[..|pieces| - 1], t)
  }

  // ---- Compressing samples

  /** What the samples say about one component. */
  function History(samples: seq<Sample>, s: Id): seq<Point> {
    if samples == [] then []
    else
      var last := samples[|samples| - 1];
      var rest := History(samples[..|samples| - 1], s);
      if s in last.health then rest + [(last.t, last.health[s])] else rest
  }

  /** The finished pieces of a history, and the piece still open, which has no end yet. */
  function Compress(h: seq<Point>): (r: (seq<Piece>, Point))
    requires h != []
  {
    var n := |h|;
    if n == 1 then ([], h[0])
    else
      var (done, current) := Compress(h[..n - 1]);
      var last := h[n - 1];
      if current.1 != last.1 then (done + [Piece(current.1, current.0, last.0)], last) else (done, current)
  }

  /** The whole track of a component, closed at `end`. */
  function Track(h: seq<Point>, end: real): seq<Piece> {
    if h == [] then []
    else
      var (done, current) := Compress(h);
      done + [Piece(current.1, current.0, end)]
  }

  /** The pieces of one component, in order. */
  function Of(intervals: seq<Interval>, s: Id): seq<Piece> {
    if intervals == [] then []
    else
      var rest := Of(intervals[..|intervals| - 1], s);
      if intervals[|intervals| - 1].subsystem == s then rest + [intervals[|intervals| - 1].piece] else rest
  }

  lemma OfAppend(intervals: seq<Interval>, i: Interval, s: Id)
    ensures Of(intervals + [i], s) == if i.subsystem == s then Of(intervals, s) + [i.piece] else Of(intervals, s)
  {
    assert (intervals + [i])[..|intervals|] == intervals;
  }

  /** The bookkeeping of the compression after some samples, for one component. */
  ghost predicate Compressed(h: seq<Point>, pieces: seq<Piece>, open: map<Id, Point>, s: Id) {
    if h == [] then s !in open && pieces == []
    else s in open && (pieces, open[s]) == Compress(h)
  }

  /** One component of one sample. */
  lemma CompressStep(h: seq<Point>, p: Point)
    requires h != []
    ensures Compress(h + [p]) == if Compress(h).1.1 != p.1 then (Compress(h).0 + [Piece(Compress(h).1.1, Compress(h).1.0, p.0)], p)
                                 else Compress(h)
  {
    assert (h + [p])[..|h|] == h;
  }

  /** One component of one sample. */
  method CompressOne(id: Id, p: Point, known: seq<Interval>, before: map<Id, Point>, ghost h: seq<Point>)
    returns (intervals: seq<Interval>, open: map<Id, Point>)
    requires Compressed(h, Of(known, id), before, id)
    ensures Compressed(h + [p], Of(intervals, id), open, id)
    ensures forall s :: s != id ==> Of(intervals, s) == Of(known, s) && (s in open <==> s in before) && (s in open ==> open[s] == before[s])
  {
    intervals, open := known, before;
    if id !in open {
      open := open[id := p];
    } else {
      CompressStep(h, p);
      if open[id].1 != p.1 {
        var closed := Interval(id, Piece(open[id].1, open[id].0, p.0));
        forall s
          ensures Of(known + [closed], s) == if s == id then Of(known, s) + [closed.piece] else Of(known, s)
        {
          OfAppend(known, closed, s);
        }
        intervals := intervals + [closed];
        open := open[id := p];
      }
    }
  }

  /** The body of the loop over samples: the components of one sample, in arbitrary order. */
  method CompressSample(sample: Sample, known: seq<Interval>, before: map<Id, Point>, ghost samples: seq<Sample>)
    returns (intervals: seq<Interval>, open: map<Id, Point>)
    requires forall s :: Compressed(History(samples, s), Of(known, s), before, s)
    ensures forall s :: Compressed(History(samples + [sample], s), Of(intervals, s), open, s)
  {
    hide Of, Compress;
    intervals, open := known, before;
    var todo := sample.health.Keys;
    while todo != {}
      invariant todo <= sample.health.Keys
      invariant forall s :: s in sample.health && s !in todo ==> Compressed(History(samples, s) + [(sample.t, sample.health[s])], Of(intervals, s), open, s)
      invariant forall s :: s !in sample.health || s in todo ==> Compressed(History(samples, s), Of(intervals, s), open, s)
      decreases todo
    {
      hide History;
      var id :| id in todo;
      todo := todo - {id};
      intervals, open := CompressOne(id, (sample.t, sample.health[id]), intervals, open, History(samples, id));
    }
    forall s
      ensures History(samples + [sample], s) == if s in sample.health then History(samples, s) + [(sample.t, sample.health[s])] else History(samples, s)
    {
      assert (samples + [sample])[..|samples|] == samples;
    }
  }

  /** The samples in the order of their times. */
  function ByTime(samples: seq<Sample>): seq<Sample> {
    Sorting.Sort(samples, (s: Sample) => (s.t, 0))
  }

  /** The loop over what is still open at the end. */
  method CloseOpen(done: seq<Interval>, open: map<Id, Point>, lastT: real) returns (intervals: seq<Interval>)
    ensures forall s :: Of(intervals, s) == if s in open then Of(done, s) + [Piece(open[s].1, open[s].0, lastT)] else Of(done, s)
  {
    hide Of;
    intervals := done;
    var todo := open.Keys;
    while todo != {}
      invariant todo <= open.Keys
      invariant forall s :: Of(intervals, s) == if s in open && s !in todo then Of(done, s) + [Piece(open[s].1, open[s].0, lastT)] else Of(done, s)
      decreases todo
    {
      var id :| id in todo;
      todo := todo - {id};
      var last := Interval(id, Piece(open[id].1, open[id].0, lastT));
      forall s
        ensures Of(intervals + [last], s) == if id == s then Of(intervals, s) + [last.piece] else Of(intervals, s)
      {
        OfAppend(intervals, last, s);
      }
      intervals := intervals + [last];
    }
  }

  /** `subsystem_timeline`, up to the final sort, which only groups the components. */
  method SubsystemTimeline(unsorted: seq<Sample>) returns (intervals: seq<Interval>)
    ensures var samples := ByTime(unsorted);
            forall s :: Of(intervals, s) == Track(History(samples, s), if samples == [] then 0.0 else samples[|samples| - 1].t)
  {
    hide ByTime;
    var samples := ByTime(unsorted);
    intervals := [];
    var open: map<Id, Point> := map[];
    var lastT := 0.0;
    for k := 0 to |samples|
      invariant lastT == if k == 0 then 0.0 else samples[k - 1].t
      invariant forall s :: Compressed(History(samples[..k], s), Of(intervals, s), open, s)
    {
      lastT := samples[k].t;
      intervals, open := CompressSample(samples[k], intervals, open, samples[..k]);
      assert samples[..k + 1] == samples[..k] + [samples[k]];
    }
    assert samples[..|samples|] == samples;
    intervals := CloseOpen(intervals, open, lastT);
  }

  /** Some sample reports the component, as number `n` of those that do. */
  ghost predicate ReportedAs(samples: seq<Sample>, s: Id, n: nat) {
    exists k :: 0 <= k < |samples| && s in samples[k].health && |History(samples[..k], s)| == n
  }

  /** The history of a component holds one point for each sample that reports it, with that time and state, in the order of the samples:
      the point of sample `k` comes behind those of the samples before it. */
  lemma {:induction false} HistoryIs(samples: seq<Sample>, s: Id)
    ensures forall k :: 0 <= k < |samples| && s in samples[k].health ==>
                          var n := |History(samples[..k], s)|;
                          n < |History(samples, s)| && History(samples, s)[n] == (samples[k].t, samples[k].health[s])
    ensures forall n: nat :: n < |History(samples, s)| ==> ReportedAs(samples, s, n)
    decreases |samples|
  {
    if samples != [] {
      var shorter, last := samples[..|samples| - 1], |samples| - 1;
      HistoryIs(shorter, s);
      forall k | 0 <= k < last
        ensures samples[..k] == shorter[..k] && samples[k] == shorter[k]
      {
      }
      assert samples[..last] == shorter;
      forall n: nat | n < |History(samples, s)|
        ensures ReportedAs(samples, s, n)
      {
        if n < |History(shorter, s)| {
          assert ReportedAs(shorter, s, n);
        }
      }
    }
  }

  ghost predicate StrictTimes(h: seq<Point>) {
    forall i, j :: 0 <= i < j < |h| ==> h[i].0 < h[j].0
  }

  /** Pieces without gaps or overlaps from `from` to `to`, neighbours in different states. */
  ghost predicate Tiles(pieces: seq<Piece>, from: real, to: real) {
    && pieces != [] && pieces[0].start == from && pieces[|pieces| - 1].end == to
    && (forall i :: 0 < i < |pieces| ==> pieces[i - 1].end == pieces[i].start && pieces[i - 1].state != pieces[i].state)
    && (forall i :: 0 <= i < |pieces| - 1 ==> pieces[i].start < pieces[i].end)
    && pieces[|pieces| - 1].start <= to
  }

  /** Time spent in one state by consecutive points. */
  function TimeIn(h: seq<Point>, state: ComponentState): real {
    if |h| < 2 then 0.0
    else
      var n := |h|;
      TimeIn(h[..n - 1], state) + if h[n - 2].1 == state then h[n - 1].0 - h[n - 2].0 else 0.0
  }

  function Duration(pieces: seq<Piece>, state: ComponentState): real {
    if pieces == [] then 0.0
    else
      var last := pieces[|pieces| - 1];
      Duration(pieces[..|pieces| - 1], state) + if last.state == state then last.end - last.start else 0.0
  }

  lemma DurationAppend(pieces: seq<Piece>, p: Piece, state: ComponentState)
    ensures Duration(pieces + [p], state) == Duration(pieces, state) + if p.state == state then p.end - p.start else 0.0
  {
    assert (pieces + [p])[..|pieces|] == pieces;
  }

  /** The open piece of a history began at one of its points and carries the last state. */
  lemma {:induction false} OpenPiece(h: seq<Point>)
    requires h != []
    ensures Compress(h).1.1 == h[|h| - 1].1
    ensures exists k :: 0 <= k < |h| && h[k] == Compress(h).1
    decreases |h|
  {
    if |h| > 1 {
      var shorter := h[..|h| - 1];
      OpenPiece(shorter);
      var k :| 0 <= k < |shorter| && shorter[k] == Compress(shorter).1;
      assert h[k] == shorter[k];
      assert h[|h| - 1] == h[|h| - 1];
    }
  }

  /** One more point either starts a new piece or stretches the last one. */
  lemma TrackStep(h: seq<Point>, end: real)
    requires |h| > 1 && StrictTimes(h)
    ensures var last := h[|h| - 1];
            var before := Track(h[..|h| - 1], last.0);
            && before != [] && before[|before| - 1].start < last.0
            && Track(h, end) == if before[|before| - 1].state != last.1 then before + [Piece(last.1, last.0, end)]
                                else before[..|before| - 1] + [before[|before| - 1].(end := end)]
  {
    var shorter, last := h[..|h| - 1], h[|h| - 1];
    OpenPiece(shorter);
    CompressStep(shorter, last);
    assert shorter + [last] == h;
    hide Compress;
    var before := Track(shorter, last.0);
    var (done, current) := Compress(shorter);
    assert before[..|before| - 1] == done;
  }

  lemma TilesStep(before: seq<Piece>, from: real, last: Point, end: real)
    requires before != [] && Tiles(before, from, last.0) && before[|before| - 1].start < last.0 <= end
    ensures Tiles(if before[|before| - 1].state != last.1 then before + [Piece(last.1, last.0, end)]
                  else before[..|before| - 1] + [before[|before| - 1].(end := end)], from, end)
  {
  }

  /** Main result, first part: a track tiles the time from the first point to `end`. */
  lemma {:induction false} TrackTiles(h: seq<Point>, end: real)
    requires h != [] && StrictTimes(h) && h[|h| - 1].0 <= end
    ensures Tiles(Track(h, end), h[0].0, end)
    decreases |h|
  {
    if |h| > 1 {
      var n := |h|;
      var shorter := h[..n - 1];
      TrackTiles(shorter, h[n - 1].0);
      hide Track;
      TrackStep(h, end);
      TilesStep(Track(shorter, h[n - 1].0), h[0].0, h[n - 1], end);
    }
  }

  lemma StateAtAppend(pieces: seq<Piece>, p: Piece, t: real)
    ensures StateAt(pieces + [p], t) == if p.start <= t then Some(p.state) else StateAt(pieces, t)
  {
    assert (pieces + [p])[..|pieces|] == pieces;
  }

  /** Second part: the track gives back the observed state at every point. */
  lemma {:induction false} TrackExpands(h: seq<Point>, end: real, k: nat)
    requires k < |h| && StrictTimes(h)
    ensures StateAt(Track(h, end), h[k].0) == Some(h[k].1)
    decreases |h|
  {
    var n := |h|;
    var (done, current) := Compress(h);
    StateAtAppend(done, Piece(current.1, current.0, end), h[k].0);
    if n > 1 {
      var shorter := h[..n - 1];
      var (done', current') := Compress(shorter);
      CompressStep(shorter, h[n - 1]);
      assert shorter + [h[n - 1]] == h;
      OpenPiece(shorter);
      if k < n - 1 {
        TrackExpands(shorter, h[n - 1].0, k);
        StateAtAppend(done', Piece(current'.1, current'.0, h[n - 1].0), h[k].0);
        assert shorter[k] == h[k];
      } else {
        var j :| 0 <= j < |shorter| && shorter[j] == current';
        assert h[j] == current';
      }
    }
  }

  /** Third part: the summed durations per state are the time in state, when the track is closed
      at the last point. */
  lemma {:induction false} TrackDurations(h: seq<Point>, end: real, state: ComponentState)
    requires h != []
    ensures Duration(Track(h, end), state) == TimeIn(h, state) + if h[|h| - 1].1 == state then end - h[|h| - 1].0 else 0.0
    decreases |h|
  {
    var n := |h|;
    var (done, current) := Compress(h);
    DurationAppend(done, Piece(current.1, current.0, end), state);
    if n > 1 {
      var shorter := h[..n - 1];
      var (done', current') := Compress(shorter);
      CompressStep(shorter, h[n - 1]);
      assert shorter + [h[n - 1]] == h;
      OpenPiece(shorter);
      TrackDurations(shorter, h[n - 1].0, state);
      DurationAppend(done', Piece(current'.1, current'.0, h[n - 1].0), state);
    } else {
      assert done == [];
    }
  }

  ghost predicate StrictlyTimed(samples: seq<Sample>) {
    forall i, j :: 0 <= i < j < |samples| ==> samples[i].t < samples[j].t
  }

  lemma StrictlyTimedPrefix(samples: seq<Sample>)
    requires StrictlyTimed(samples)
    ensures |samples| >= 2 ==> samples[|samples| - 2].t < samples[|samples| - 1].t && StrictlyTimed(samples[..|samples| - 1])
  {
  }

  lemma {:induction false} HistoryPoints(samples: seq<Sample>, s: Id)
    requires forall k :: 0 <= k < |samples| ==> s in samples[k].health
    ensures |History(samples, s)| == |samples|
    ensures forall k :: 0 <= k < |samples| ==> History(samples, s)[k] == (samples[k].t, samples[k].health[s])
    decreases |samples|
  {
    if samples != [] {
      HistoryPoints(samples[..|samples| - 1], s);
    }
  }

  /** For a component that every sample reports, the compressed durations are the table that the
      metrics integrate from the same samples. */
  lemma {:induction false} HistoryTime(samples: seq<Sample>, s: Id, state: ComponentState)
    requires forall k :: 0 <= k < |samples| ==> s in samples[k].health
    requires StrictlyTimed(samples)
    ensures TimeIn(History(samples, s), state) == TimeMetrics.Integral(samples, TimeMetrics.InState(s, state))
    decreases |samples|
  {
    HistoryPoints(samples, s);
    StrictlyTimedPrefix(samples);
    if |samples| >= 2 {
      var n := |samples|;
      HistoryTime(samples[..n - 1], s, state);
      var h := History(samples, s);
      assert h[..n - 1] == History(samples[..n - 1], s);
      assert h[n - 2] == (samples[n - 2].t, samples[n - 2].health[s]) && h[n - 1].0 == samples[n - 1].t;
      hide History, StrictlyTimed;
      StepTime(samples, s, state);
    }
  }

  /** The last step of the integral. */
  lemma StepTime(samples: seq<Sample>, s: Id, state: ComponentState)
    requires |samples| >= 2 && s in samples[|samples| - 2].health && StrictlyTimed(samples)
    ensures var n, weight := |samples|, TimeMetrics.InState(s, state);
            TimeMetrics.Integral(samples, weight) == TimeMetrics.Integral(samples[..n - 1], weight)
              + if samples[n - 2].health[s] == state then samples[n - 1].t - samples[n - 2].t else 0.0
  {
    var n := |samples|;
    assert samples[n - 2].t < samples[n - 1].t;
  }

  // ---- Tracks from events

  /** What the events say about one component. */
  function ChangesOf(events: seq<RunEvent>, s: Id): seq<Point> {
    if events == [] then []
    else
      var last := events[|events| - 1];
      var rest := ChangesOf(events[..|events| - 1], s);
      if last.subsystem == Some(s) && last.stateAfter.Some? then rest + [(last.time, last.stateAfter.value)] else rest
  }

  function Clamp(t: real, end: real): real {
    var low := if t > 0.0 then t else 0.0;
    if low < end then low else end
  }

  /** The finished segments and the running one, after some changes. */
  function Segments(initial: ComponentState, changes: seq<Point>, end: real): (seq<Piece>, Point) {
    if changes == [] then ([], (0.0, initial))
    else
      var (done, current) := Segments(initial, changes[..|changes| - 1], end);
      var change := changes[|changes| - 1];
      var at := Clamp(change.0, end);
      if change.1 == current.1 then (done, current)
      else (if at > current.0 then done + [Piece(current.1, current.0, at)] else done, (at, change.1))
  }

  function EventTrack(initial: ComponentState, changes: seq<Point>, end: real): seq<Piece> {
    var (done, current) := Segments(initial, changes, end);
    done + [Piece(current.1, current.0, end)]
  }

  /** Group the transitions by component. */
  method GroupTransitions(events: seq<RunEvent>) returns (transitions: map<Id, seq<Point>>)
    ensures forall s :: if s in transitions then transitions[s] == ChangesOf(events, s) != [] else ChangesOf(events, s) == []
  {
    transitions := map[];
    for k := 0 to |events|
      invariant forall s :: if s in transitions then transitions[s] == ChangesOf(events[..k], s) != [] else ChangesOf(events[..k], s) == []
    {
      var e := events[k];
      assert events[..k + 1][..k] == events[..k];
      if e.subsystem.Some? && e.stateAfter.Some? {
        var s := e.subsystem.value;
        transitions := transitions[s := (if s in transitions then transitions[s] else []) + [(e.time, e.stateAfter.value)]];
      }
    }
    assert events[..|events|] == events;
  }

  function InitialState(healthyStates: map<Id, ComponentState>, s: Id): ComponentState {
    if s in healthyStates then healthyStates[s] else Nominal
  }

  /** The end of the drawn time, never zero. */
  function DrawnEnd(endTime: real): real {
    if endTime > 0.001 then endTime else 0.001
  }

  /** `buildTimeline`: one track per component. A component gets a track when some event names a
      state of it, or when it is always included. */
  method BuildTimeline(events: seq<RunEvent>, healthyStates: map<Id, ComponentState>, endTime: real, always: seq<Id>)
    returns (tracks: map<Id, seq<Piece>>)
    ensures forall s :: s in tracks <==> ChangesOf(events, s) != [] || (s in always && s in healthyStates)
    ensures forall s :: s in tracks ==>
                          tracks[s] == EventTrack(InitialState(healthyStates, s), ChangesOf(events, s), DrawnEnd(endTime))
  {
    var transitions := GroupTransitions(events);
    hide ChangesOf, EventTrack;
    for k := 0 to |always|
      invariant forall s :: s in transitions ==> transitions[s] == ChangesOf(events, s)
      invariant forall s :: s in transitions <==> ChangesOf(events, s) != [] || (s in always[..k] && s in healthyStates)
    {
      assert always[..k + 1] == always[..k] + [always[k]];
      if always[k] !in transitions && always[k] in healthyStates {
        transitions := transitions[always[k] := []];
      }
    }
    assert always[..|always|] == always;
    tracks := map[];
    var todo := transitions.Keys;
    while todo != {}
      invariant todo <= transitions.Keys && tracks.Keys == transitions.Keys - todo
      invariant forall s :: s in tracks ==> tracks[s] == EventTrack(InitialState(healthyStates, s), transitions[s], DrawnEnd(endTime))
      decreases todo
    {
      var s :| s in todo;
      todo := todo - {s};
      var track := BuildTrack(InitialState(healthyStates, s), transitions[s], DrawnEnd(endTime));
      tracks := tracks[s := track];
    }
  }

  method BuildTrack(initial: ComponentState, changes: seq<Point>, end: real) returns (segments: seq<Piece>)
    ensures segments == EventTrack(initial, changes, end)
  {
    segments := [];
    var current, from := initial, 0.0;
    for k := 0 to |changes|
      invariant (segments, (from, current)) == Segments(initial, changes[..k], end)
    {
      assert changes[..k + 1][..k] == changes[..k];
      var at := Clamp(changes[k].0, end);
      if changes[k].1 != current {
        if at > from {
          segments := segments + [Piece(current, from, at)];
        }
        current, from := changes[k].1, at;
      }
    }
    assert changes[..|changes|] == changes;
    segments := segments + [Piece(current, from, end)];
  }

  /** The last change at or before `t`. */
  function LastState(initial: ComponentState, changes: seq<Point>, t: real): ComponentState {
    if changes == [] then initial
    else if changes[|changes| - 1].0 <= t then changes[|changes| - 1].1
    else LastState(initial, changes[..|changes| - 1], t)
  }

  ghost predicate NonDecreasing(changes: seq<Point>) {
    forall i, j :: 0 <= i < j < |changes| ==> changes[i].0 <= changes[j].0
  }

  /** The last change of all. */
  function FinalState(initial: ComponentState, changes: seq<Point>): ComponentState {
    if changes == [] then initial else changes[|changes| - 1].1
  }

  /** The running segment carries the final state and began at the clamped time of some change. */
  lemma {:induction false} RunningSegment(initial: ComponentState, changes: seq<Point>, end: real)
    requires NonDecreasing(changes) && end > 0.0
    ensures var (done, current) := Segments(initial, changes, end);
            && current.1 == FinalState(initial, changes)
            && 0.0 <= current.0 <= (if changes == [] then 0.0 else Clamp(changes[|changes| - 1].0, end))
            && (forall i :: 0 <= i < |done| ==> done[i].start < done[i].end <= current.0)
    decreases |changes|
  {
    if changes != [] {
      RunningSegment(initial, changes[..|changes| - 1], end);
    }
  }

  /** A track built from time-ordered events shows, at every time of the run before its end, the last
      reported state. */
  lemma {:induction false} EventTrackShowsLast(initial: ComponentState, changes: seq<Point>, end: real, t: real)
    requires NonDecreasing(changes) && 0.0 <= t < end && forall i :: 0 <= i < |changes| ==> 0.0 <= changes[i].0
    ensures StateAt(EventTrack(initial, changes, end), t) == Some(LastState(initial, changes, t))
    decreases |changes|
  {
    var (done, current) := Segments(initial, changes, end);
    StateAtAppend(done, Piece(current.1, current.0, end), t);
    if changes != [] {
      var n := |changes|;
      var (done', current') := Segments(initial, changes[..n - 1], end);
      EventTrackShowsLast(initial, changes[..n - 1], end, t);
      StateAtAppend(done', Piece(current'.1, current'.0, end), t);
      RunningSegment(initial, changes[..n - 1], end);
      var at := Clamp(changes[n - 1].0, end);
      if changes[n - 1].1 != current'.1 {
        StateAtAppend(done', Piece(current'.1, current'.0, at), t);
        if changes[n - 1].0 > t {
          assert at > t;
        }
      } else if changes[n - 1].0 <= t {
        EverythingPast(initial, changes[..n - 1], t);
      }
    }
  }

  /** Once every change is past, the last reported state is the final one. */
  lemma EverythingPast(initial: ComponentState, changes: seq<Point>, t: real)
    requires forall i :: 0 <= i < |changes| ==> changes[i].0 <= t
    ensures LastState(initial, changes, t) == FinalState(initial, changes)
  {
  }

  // ---- Samples up to a time

  /** Binary search for the samples up to `time`, the prefix the replay shows. */
  method SamplesUpTo(samples: seq<Sample>, time: real) returns (prefix: seq<Sample>)
    requires forall i, j :: 0 <= i < j < |samples| ==> samples[i].t <= samples[j].t
    ensures prefix <= samples
    ensures forall k :: 0 <= k < |prefix| ==> samples[k].t <= time
    ensures forall k :: |prefix| <= k < |samples| ==> samples[k].t > time
  {
    var low, high := 0, |samples|;
    while low < high
      invariant 0 <= low <= high <= |samples|
      invariant forall k :: 0 <= k < low ==> samples[k].t <= time
      invariant forall k :: high <= k < |samples| ==> samples[k].t > time
    {
      var mid := (low + high) / 2;
      if samples[mid].t <= time {
        low := mid + 1;
      } else {
        high := mid;
      }
    }
    prefix := samples[..low];
  }
}
