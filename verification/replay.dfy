/** The replay adapter: re-emits a recording sample by sample, with the health differences and the recorded
    responses and mission events. */
module Replay {
  import opened Options
  import opened States
  import opened RunLog
  import opened EngineModel
  import opened EngineMirror

  /** The recorded events the replay looks at; all others are skipped. */
  datatype Recorded = RecordedResponse(time: real, response: Response) | RecordedMission(time: real, event: MissionEvent) | Skipped(time: real)

  datatype Recording = Recording(samples: seq<Sample>, events: seq<Recorded>)

  predicate IsReplayed(e: Recorded) {
    || e.RecordedResponse?
    || (e.RecordedMission? && (e.event.eventType == "waypoint_reached" || e.event.eventType == "takeoff_complete" || e.event.eventType == "landed"))
  }

  // ---- Events by time

  /** Something recorded, with its time. */
  datatype Timed<T> = Timed(time: real, item: T)

  function RecordedResponses(events: seq<Recorded>): seq<Timed<Response>> {
    if events == [] then []
    else
      var before, last := RecordedResponses(events[..|events| - 1]), events[|events| - 1];
      if last.RecordedResponse? then before + [Timed(last.time, last.response)] else before
  }

  function RecordedMissions(events: seq<Recorded>): seq<Timed<MissionEvent>> {
    if events == [] then []
    else
      var before, last := RecordedMissions(events[..|events| - 1]), events[|events| - 1];
      if IsReplayed(last) && last.RecordedMission? then before + [Timed(last.time, last.event)] else before
  }

  /** What was recorded at one time, in recorded order. */
  function At<T>(items: seq<Timed<T>>, t: real): seq<T> {
    if items == [] then []
    else
      var before, last := At(items[..|items| - 1], t), items[|items| - 1];
      if last.time == t then before + [last.item] else before
  }

  /** What was recorded at several times, one time after the other. */
  function Grouped<T>(items: seq<Timed<T>>, times: seq<real>): seq<T> {
    if times == [] then [] else Grouped(items, times[..|times| - 1]) + At(items, times[|times| - 1])
  }

  lemma {:induction false} GroupedAppend<T>(items: seq<Timed<T>>, a: seq<real>, b: seq<real>)
    ensures Grouped(items, a + b) == Grouped(items, a) + Grouped(items, b)
    decreases |b|
  {
    hide At;
    if b == [] {
      assert a + b == a;
    } else {
      assert (a + b)[..|a + b| - 1] == a + b[..|b| - 1];
      GroupedAppend(items, a, b[..|b| - 1]);
    }
  }

  function Responses(events: seq<Recorded>, times: seq<real>): seq<Response> {
    Grouped(RecordedResponses(events), times)
  }

  function MissionEvents(events: seq<Recorded>, times: seq<real>): seq<MissionEvent> {
    Grouped(RecordedMissions(events), times)
  }

  ghost predicate StrictlyRising(times: seq<real>) {
    forall i, j :: 0 <= i < j < |times| ==> times[i] < times[j]
  }

  ghost predicate SomethingAt(events: seq<Recorded>, t: real) {
    exists k :: 0 <= k < |events| && IsReplayed(events[k]) && events[k].time == t
  }

  /** Exactly the times at which something is replayed, in order. */
  ghost predicate AreTimes(times: seq<real>, events: seq<Recorded>) {
    && StrictlyRising(times)
    && (forall k :: 0 <= k < |events| && IsReplayed(events[k]) ==> events[k].time in times)
    && (forall i :: 0 <= i < |times| ==> SomethingAt(events, times[i]))
  }

  // ---- What the sample loop should emit

  /** How many of the leading times have come. */
  function Due(times: seq<real>, t: real): (n: nat)
    ensures n <= |times|
  {
    if times == [] || times[0] > t then 0 else 1 + Due(times[1..], t)
  }

  /** How many times have been dealt with after the first `i` samples. */
  function Cut(times: seq<real>, samples: seq<Sample>, i: nat): (n: nat)
    requires i <= |samples|
    ensures n <= |times|
  {
    if i == 0 then 0
    else
      var before, due := Cut(times, samples, i - 1), Due(times, samples[i - 1].t);
      if due > before then due else before
  }

  /** The states known before sample `i`. */
  function StatesBefore(initial: Health, samples: seq<Sample>, i: nat): Health
    requires i <= |samples|
  {
    if i == 0 then initial else StatesBefore(initial, samples, i - 1) + samples[i - 1].health
  }

  /** Exactly the components whose state differs are named, each once, with the new state. */
  ghost predicate AreDifferences(known: Health, health: Health, changes: seq<StateChange>) {
    && (forall k :: 0 <= k < |changes| ==>
          changes[k].subsystem in health && changes[k].after == health[changes[k].subsystem]
          && Observed(known, changes[k].subsystem) != health[changes[k].subsystem] && changes[k].causedBy.None?)
    && (forall s :: s in health && Observed(known, s) != health[s] ==> exists k :: 0 <= k < |changes| && changes[k].subsystem == s)
    && (forall j, k :: 0 <= j < k < |changes| ==> changes[j].subsystem != changes[k].subsystem)
  }

  predicate EndsReplay(samples: seq<Sample>, i: nat)
    requires i < |samples|
  {
    i == |samples| - 1 || samples[i].phase == Complete || samples[i].phase == Aborted
  }

  /** Observation `i` of the replay. */
  ghost predicate Fits(rec: Recording, times: seq<real>, initial: Health, i: nat, o: Observation)
    requires i < |rec.samples|
  {
    var from, to := Cut(times, rec.samples, i), Cut(times, rec.samples, i + 1);
    && o.sample == rec.samples[i]
    && AreDifferences(StatesBefore(initial, rec.samples, i), rec.samples[i].health, o.changes)
    && from <= to
    && o.responses == Responses(rec.events, times[from..to])
    && o.missionEvents == MissionEvents(rec.events, times[from..to])
    && (o.finished <==> EndsReplay(rec.samples, i))
  }

  /** Everything a replay emits: a run of observations up to the first that ends it, or to the stop. */
  ghost predicate IsReplay(rec: Recording, times: seq<real>, initial: Health, stopAt: nat, out: seq<Observation>) {
    && |out| <= |rec.samples| && |out| <= stopAt
    && (forall i :: 0 <= i < |out| ==> Fits(rec, times, initial, i, out[i]))
    && (forall i :: 0 <= i < |out| - 1 ==> !out[i].finished)
    && (|out| == stopAt || |out| == |rec.samples| || (out != [] && out[|out| - 1].finished))
  }

  // ---- The adapter

  /** Reaching a time with the cursor: nothing due is left, nothing else is gone. */
  lemma {:induction false} DueSplits(times: seq<real>, t: real, n: nat)
    requires StrictlyRising(times) && n <= |times|
    ensures n == Due(times, t) <==> (n > 0 ==> times[n - 1] <= t) && (n < |times| ==> times[n] > t)
    decreases |times|
  {
    if times != [] {
      var tail := times[1..];
      if n > 0 {
        DueSplits(tail, t, n - 1);
        assert n > 1 ==> tail[n - 2] == times[n - 1];
        assert n < |times| ==> tail[n - 1] == times[n];
        assert times[0] <= times[n - 1];
      } else {
        assert times[0] > t <==> Due(times, t) == 0;
      }
    }
  }

  function InsertTime(times: seq<real>, t: real): seq<real> {
    if times == [] || times[|times| - 1] < t then times + [t]
    else if times[|times| - 1] == t then times
    else InsertTime(times[..|times| - 1], t) + [times[|times| - 1]]
  }

  lemma {:induction false} InsertTimeRises(times: seq<real>, t: real)
    requires StrictlyRising(times)
    ensures StrictlyRising(InsertTime(times, t)) && forall x :: x in InsertTime(times, t) <==> x == t || x in times
    decreases |times|
  {
    if times != [] && times[|times| - 1] > t {
      var shorter, last := times[..|times| - 1], times[|times| - 1];
      InsertTimeRises(shorter, t);
      assert times == shorter + [last];
      var inner := InsertTime(shorter, t);
      forall i | 0 <= i < |inner|
        ensures inner[i] < last
      {
        assert inner[i] in inner;
      }
    }
  }

  /** The sorted set of the times at which something is replayed. */
  method PendingTimes(events: seq<Recorded>) returns (times: seq<real>)
    ensures AreTimes(times, events)
  {
    hide InsertTime;
    times := [];
    for k := 0 to |events|
      invariant StrictlyRising(times)
      invariant forall j :: 0 <= j < k && IsReplayed(events[j]) ==> events[j].time in times
      invariant forall x :: x in times ==> SomethingAt(events, x)
    {
      if IsReplayed(events[k]) {
        assert SomethingAt(events, events[k].time);
        InsertTimeRises(times, events[k].time);
        times := InsertTime(times, events[k].time);
      }
    }
    hide SomethingAt, IsReplayed;
    assert forall i :: 0 <= i < |times| ==> times[i] in times;
  }

  class ReplayAdapter {
    var t: real
    var states: Health

    constructor ()
      ensures t == 0.0 && states == map[]
    {
      t, states := 0.0, map[];
    }

    /** The healthy states of the topology, then what the first sample says. */
    method Prepare(healthy: Health, rec: Recording)
      requires rec.samples != []
      modifies this`states
      ensures states == healthy + rec.samples[0].health
    {
      states := healthy + rec.samples[0].health;
    }

    /** The diffing loop over the health of one sample; a dictionary is visited in any order. */
    method DiffStates(health: Health) returns (changes: seq<StateChange>)
      modifies this`states
      ensures SameView(states, old(states) + health) && AreDifferences(old(states), health, changes)
    {
      changes := [];
      var todo := health.Keys;
      while todo != {}
        invariant todo <= health.Keys
        invariant forall s :: Observed(states, s) == if s in health && s !in todo then health[s] else Observed(old(states), s)
        invariant forall k :: 0 <= k < |changes| ==>
                    changes[k].subsystem in health && changes[k].subsystem !in todo && changes[k].after == health[changes[k].subsystem]
                    && Observed(old(states), changes[k].subsystem) != health[changes[k].subsystem] && changes[k].causedBy.None?
        invariant forall s :: s in health && s !in todo && Observed(old(states), s) != health[s] ==>
                    exists k :: 0 <= k < |changes| && changes[k].subsystem == s
        invariant forall j, k :: 0 <= j < k < |changes| ==> changes[j].subsystem != changes[k].subsystem
        decreases todo
      {
        var s :| s in todo;
        todo := todo - {s};
        if Observed(states, s) != health[s] {
          ghost var before := changes;
          changes := changes + [StateChange(s, health[s], None)];
          assert changes[|before|].subsystem == s;
          assert forall k :: 0 <= k < |before| ==> changes[k] == before[k];
          states := states[s := health[s]];
        }
      }
    }

    /** The inner loop: take the due events off the cursor. The guard of the source has a second part, that the
        event lies after the previous sample; it never holds the cursor back. */
    method TakeDue(events: seq<Recorded>, times: seq<real>, samples: seq<Sample>, index: nat, previous: real, cut: nat)
      returns (next: nat, responses: seq<Response>, mission: seq<MissionEvent>)
      requires StrictlyRising(times) && index < |samples| && cut == Cut(times, samples, index)
      requires index > 0 ==> previous == samples[index - 1].t
      ensures next == Cut(times, samples, index + 1) && cut <= next
      ensures responses == Responses(events, times[cut..next]) && mission == MissionEvents(events, times[cut..next])
    {
      next, responses, mission := cut, [], [];
      RemainingLater(times, samples, index);
      while next < |times| && times[next] <= samples[index].t && (times[next] > previous || index == 0)
        invariant cut <= next <= |times|
        invariant next > cut ==> times[next - 1] <= samples[index].t
        invariant responses == Responses(events, times[cut..next]) && mission == MissionEvents(events, times[cut..next])
      {
        var at := times[next];
        assert times[cut..next + 1][..next - cut] == times[cut..next];
        responses := responses + At(RecordedResponses(events), at);
        mission := mission + At(RecordedMissions(events), at);
        next := next + 1;
      }
      CutAdvances(times, samples, index, next);
    }

    /** The loop over the samples. `stopAt` is the number of samples emitted before a stop is noticed. */
    method Observe(rec: Recording, stopAt: nat) returns (out: seq<Observation>, ghost times: seq<real>)
      requires rec.samples != []
      modifies this
      ensures AreTimes(times, rec.events) && IsReplay(rec, times, old(states), stopAt, out)
    {
      hide Cut, Fits, At;
      out := [];
      var pending := PendingTimes(rec.events);
      times := pending;
      var cut := 0;
      assert Cut(times, rec.samples, 0) == 0 by { NothingCut(times, rec.samples); }
      for index := 0 to |rec.samples|
        invariant |out| == index && index <= stopAt
        invariant cut == Cut(pending, rec.samples, index) && cut <= |pending|
        invariant index > 0 ==> t == rec.samples[index - 1].t
        invariant SameView(states, StatesBefore(old(states), rec.samples, index))
        invariant forall i :: 0 <= i < |out| ==> Fits(rec, times, old(states), i, out[i]) && !out[i].finished
      {
        if index == stopAt {
          return;
        }
        var sample := rec.samples[index];
        var previous := t;
        t := sample.t;
        ghost var known := states;
        var changes := DiffStates(sample.health);
        SameDifferences(known, StatesBefore(old(states), rec.samples, index), sample.health, changes);
        var next, responses, mission := TakeDue(rec.events, pending, rec.samples, index, previous, cut);
        var finished := EndsReplay(rec.samples, index);
        var o := Observation(sample, changes, responses, mission, finished);
        FitsNow(rec, times, old(states), index, o);
        out := out + [o];
        cut := next;
        if finished {
          return;
        }
      }
    }
  }

  // ---- Steps of the proof

  /** Both maps report the same state for every component. */
  ghost predicate SameView(a: Health, b: Health) {
    forall s :: Observed(a, s) == Observed(b, s)
  }

  lemma SameDifferences(a: Health, b: Health, health: Health, changes: seq<StateChange>)
    requires SameView(a, b) && AreDifferences(a, health, changes)
    ensures AreDifferences(b, health, changes) && SameView(a + health, b + health)
  {
    forall s
      ensures Observed(a + health, s) == Observed(b + health, s)
    {
      assert Observed(a, s) == Observed(b, s);
    }
    forall k | 0 <= k < |changes|
      ensures Observed(b, changes[k].subsystem) != health[changes[k].subsystem]
    {
      assert Observed(a, changes[k].subsystem) == Observed(b, changes[k].subsystem);
    }
  }

  lemma NothingCut(times: seq<real>, samples: seq<Sample>)
    ensures Cut(times, samples, 0) == 0
  {
  }

  /** Whatever the cursor has not passed lies after every sample emitted so far. */
  lemma {:induction false} RemainingLater(times: seq<real>, samples: seq<Sample>, i: nat)
    requires StrictlyRising(times) && i <= |samples|
    ensures var cut := Cut(times, samples, i);
            && (forall j, k :: 0 <= j < i && cut <= k < |times| ==> times[k] > samples[j].t)
            && (cut > 0 ==> exists j :: 0 <= j < i && times[cut - 1] <= samples[j].t)
    decreases i
  {
    if i > 0 {
      RemainingLater(times, samples, i - 1);
      DueSplits(times, samples[i - 1].t, Due(times, samples[i - 1].t));
    }
  }

  /** The loop stops exactly where the next cut is. */
  lemma CutAdvances(times: seq<real>, samples: seq<Sample>, index: nat, next: nat)
    requires StrictlyRising(times) && index < |samples| && Cut(times, samples, index) <= next <= |times|
    requires next > Cut(times, samples, index) ==> times[next - 1] <= samples[index].t
    requires next < |times| ==> times[next] > samples[index].t
    ensures next == Cut(times, samples, index + 1)
  {
    var cut, due := Cut(times, samples, index), Due(times, samples[index].t);
    if next > cut {
      DueSplits(times, samples[index].t, next);
    } else {
      DueSplits(times, samples[index].t, due);
    }
  }

  lemma FitsNow(rec: Recording, times: seq<real>, initial: Health, i: nat, o: Observation)
    requires i < |rec.samples| && o.sample == rec.samples[i] && Cut(times, rec.samples, i) <= Cut(times, rec.samples, i + 1)
    requires AreDifferences(StatesBefore(initial, rec.samples, i), rec.samples[i].health, o.changes)
    requires var due := times[Cut(times, rec.samples, i)..Cut(times, rec.samples, i + 1)];
             o.responses == Responses(rec.events, due) && o.missionEvents == MissionEvents(rec.events, due)
    requires o.finished <==> EndsReplay(rec.samples, i)
    ensures Fits(rec, times, initial, i, o)
  {
  }

  // ---- What a replay amounts to

  function AllResponses(out: seq<Observation>): seq<Response> {
    if out == [] then [] else AllResponses(out[..|out| - 1]) + out[|out| - 1].responses
  }

  function AllMissionEvents(out: seq<Observation>): seq<MissionEvent> {
    if out == [] then [] else AllMissionEvents(out[..|out| - 1]) + out[|out| - 1].missionEvents
  }

  /** What was emitted in all is what was recorded at the times reached, in time order. */
  lemma {:induction false} EmittedInOrder(rec: Recording, times: seq<real>, initial: Health, out: seq<Observation>)
    requires |out| <= |rec.samples| && forall i :: 0 <= i < |out| ==> Fits(rec, times, initial, i, out[i])
    ensures var reached := times[..Cut(times, rec.samples, |out|)];
            AllResponses(out) == Responses(rec.events, reached) && AllMissionEvents(out) == MissionEvents(rec.events, reached)
    decreases |out|
  {
    if out != [] {
      var n := |out| - 1;
      EmittedInOrder(rec, times, initial, out[..n]);
      var from, to := Cut(times, rec.samples, n), Cut(times, rec.samples, n + 1);
      assert Fits(rec, times, initial, n, out[n]);
      assert times[..to] == times[..from] + times[from..to];
      GroupedAppend(RecordedResponses(rec.events), times[..from], times[from..to]);
      GroupedAppend(RecordedMissions(rec.events), times[..from], times[from..to]);
    }
  }

  /** What was recorded at any of these times, in recorded order. */
  function RecordedAt<T>(items: seq<Timed<T>>, times: seq<real>): seq<T> {
    if items == [] then []
    else
      var before, last := RecordedAt(items[..|items| - 1], times), items[|items| - 1];
      if last.time in times then before + [last.item] else before
  }

  lemma {:induction false} OneMore<T>(items: seq<Timed<T>>, e: Timed<T>, times: seq<real>)
    requires StrictlyRising(times)
    ensures multiset(Grouped(items + [e], times)) == multiset(Grouped(items, times)) + if e.time in times then multiset{e.item} else multiset{}
    decreases |times|
  {
    if times != [] {
      var shorter, last := times[..|times| - 1], times[|times| - 1];
      assert times == shorter + [last];
      LastIsNew(shorter, last);
      assert e.time in times <==> e.time in shorter || e.time == last;
      OneMoreAt(items, e, last);
      OneMore(items, e, shorter);
      hide At, StrictlyRising;
      AddUp(Grouped(items, shorter), Grouped(items + [e], shorter), At(items, last), At(items + [e], last),
            e.item, e.time in shorter, e.time == last);
    }
  }

  lemma AddUp<T>(before: seq<T>, now: seq<T>, at: seq<T>, atNow: seq<T>, item: T, early: bool, late: bool)
    requires !(early && late)
    requires multiset(now) == multiset(before) + if early then multiset{item} else multiset{}
    requires atNow == at + if late then [item] else []
    ensures multiset(now + atNow) == multiset(before + at) + if early || late then multiset{item} else multiset{}
  {
  }

  lemma LastIsNew(shorter: seq<real>, last: real)
    requires StrictlyRising(shorter + [last])
    ensures last !in shorter && StrictlyRising(shorter)
  {
    var all := shorter + [last];
    assert forall i :: 0 <= i < |shorter| ==> all[i] == shorter[i] && all[i] < all[|shorter|];
  }

  lemma OneMoreAt<T>(items: seq<Timed<T>>, e: Timed<T>, t: real)
    ensures At(items + [e], t) == At(items, t) + if e.time == t then [e.item] else []
  {
    assert (items + [e])[..|items|] == items;
  }

  lemma {:induction false} NothingGrouped<T>(times: seq<real>)
    ensures Grouped<T>([], times) == []
    decreases |times|
  {
    if times != [] {
      NothingGrouped<T>(times[..|times| - 1]);
    }
  }

  /** Grouping by time keeps everything recorded at those times exactly once. */
  lemma {:induction false} GroupedOnce<T>(items: seq<Timed<T>>, times: seq<real>)
    requires StrictlyRising(times)
    ensures multiset(Grouped(items, times)) == multiset(RecordedAt(items, times))
    decreases |items|
  {
    if items == [] {
      NothingGrouped<T>(times);
    } else {
      var shorter, last := items[..|items| - 1], items[|items| - 1];
      GroupedOnce(shorter, times);
      OneMore(shorter, last, times);
      assert items == shorter + [last];
    }
  }

  /** A time is reached exactly when some emitted sample lies at or after it. */
  lemma ReachedTimes(times: seq<real>, samples: seq<Sample>, n: nat, u: real)
    requires StrictlyRising(times) && n <= |samples| && u in times
    ensures u in times[..Cut(times, samples, n)] <==> exists j :: 0 <= j < n && u <= samples[j].t
  {
    var cut := Cut(times, samples, n);
    RemainingLater(times, samples, n);
    assert forall k :: 0 <= k < cut ==> times[..cut][k] == times[k];
    if u in times[..cut] {
      var k :| 0 <= k < cut && times[k] == u;
      var j :| 0 <= j < n && times[cut - 1] <= samples[j].t;
      assert k < cut - 1 ==> times[k] < times[cut - 1];
      assert u <= samples[j].t;
    } else {
      var k :| 0 <= k < |times| && times[k] == u;
      assert k >= cut;
    }
  }

  /** Main result. A replay emits each recorded response and each recorded mission event of the replayed
      types exactly once, provided some emitted sample lies at or after it, and no others, in time order -
      for every recording, whatever the order of its sample times. */
  lemma ReplayEmitsOnce(rec: Recording, times: seq<real>, initial: Health, stopAt: nat, out: seq<Observation>)
    requires AreTimes(times, rec.events) && IsReplay(rec, times, initial, stopAt, out)
    ensures var reached := times[..Cut(times, rec.samples, |out|)];
            && AllResponses(out) == Responses(rec.events, reached)
            && AllMissionEvents(out) == MissionEvents(rec.events, reached)
            && multiset(AllResponses(out)) == multiset(RecordedAt(RecordedResponses(rec.events), reached))
            && multiset(AllMissionEvents(out)) == multiset(RecordedAt(RecordedMissions(rec.events), reached))
            && forall k :: 0 <= k < |rec.events| && IsReplayed(rec.events[k]) ==>
                 (rec.events[k].time in reached <==> exists j :: 0 <= j < |out| && rec.events[k].time <= rec.samples[j].t)
  {
    EmittedInOrder(rec, times, initial, out);
    hide Fits, AllResponses, AllMissionEvents, Grouped, RecordedAt, Cut, IsReplayed, RecordedResponses, RecordedMissions;
    var reached := times[..Cut(times, rec.samples, |out|)];
    GroupedOnce(RecordedResponses(rec.events), reached);
    GroupedOnce(RecordedMissions(rec.events), reached);
    forall k | 0 <= k < |rec.events| && IsReplayed(rec.events[k])
      ensures rec.events[k].time in reached <==> exists j :: 0 <= j < |out| && rec.events[k].time <= rec.samples[j].t
    {
      ReachedTimes(times, rec.samples, |out|, rec.events[k].time);
    }
  }

  /** An event comes with the first sample at or after it. */
  lemma FirstSampleAfter(times: seq<real>, samples: seq<Sample>, i: nat, k: nat)
    requires StrictlyRising(times) && i < |samples| && Cut(times, samples, i) <= k < Cut(times, samples, i + 1)
    ensures times[k] <= samples[i].t && forall j :: 0 <= j < i ==> samples[j].t < times[k]
  {
    RemainingLater(times, samples, i);
    DueSplits(times, samples[i].t, Due(times, samples[i].t));
    var last := Cut(times, samples, i + 1) - 1;
    assert k < last ==> times[k] < times[last];
  }

  /** With one set of components throughout, the changes are exactly the differences to the previous sample, and
      the first observation has none. */
  lemma {:induction false} PairwiseDifferences(healthy: Health, rec: Recording, times: seq<real>, i: nat, o: Observation)
    requires i < |rec.samples| && healthy.Keys == rec.samples[0].health.Keys
    requires forall j :: 0 <= j < |rec.samples| ==> rec.samples[j].health.Keys == healthy.Keys
    requires Fits(rec, times, healthy + rec.samples[0].health, i, o)
    ensures AreDifferences(rec.samples[if i == 0 then 0 else i - 1].health, rec.samples[i].health, o.changes)
    ensures i == 0 ==> o.changes == []
  {
    var initial := healthy + rec.samples[0].health;
    assert initial == rec.samples[0].health;
    LatestHealth(initial, rec.samples, i);
    if i == 0 {
      NothingDiffers(rec.samples[0].health, o.changes);
    }
  }

  lemma NothingDiffers(health: Health, changes: seq<StateChange>)
    ensures AreDifferences(health, health, changes) ==> changes == []
  {
    if changes != [] {
      var first := changes[0];
      assert first.subsystem in health ==> Observed(health, first.subsystem) == health[first.subsystem];
    }
  }

  lemma LatestHealth(initial: Health, samples: seq<Sample>, i: nat)
    requires i <= |samples| && forall j :: 0 <= j < |samples| ==> samples[j].health.Keys == initial.Keys
    ensures StatesBefore(initial, samples, i) == if i == 0 then initial else samples[i - 1].health
  {
    if i > 0 {
      LatestHealth(initial, samples, i - 1);
    }
  }

  /** Sample `j` is the last one before sample `i` that reports the component. */
  ghost predicate LastReport(samples: seq<Sample>, s: Id, i: nat, j: nat) {
    j < i <= |samples| && s in samples[j].health && forall k :: j < k < i ==> s !in samples[k].health
  }

  /** What the adapter knows of a component before a sample: the state in the last earlier sample that reports it, else the initial one. */
  lemma {:induction false} KnownBefore(initial: Health, samples: seq<Sample>, i: nat, s: Id)
    requires i <= |samples|
    ensures forall j: nat :: LastReport(samples, s, i, j) ==> Observed(StatesBefore(initial, samples, i), s) == samples[j].health[s]
    ensures (forall k :: 0 <= k < i ==> s !in samples[k].health) ==> Observed(StatesBefore(initial, samples, i), s) == Observed(initial, s)
    decreases i
  {
    if i > 0 {
      KnownBefore(initial, samples, i - 1, s);
      ObservedInUnion(StatesBefore(initial, samples, i - 1), samples[i - 1].health, s);
      forall j: nat | LastReport(samples, s, i, j)
        ensures if s in samples[i - 1].health then j == i - 1 else LastReport(samples, s, i - 1, j)
      {
      }
      hide Observed;
    }
  }

  lemma ObservedInUnion(a: Health, b: Health, s: Id)
    ensures Observed(a + b, s) == if s in b then b[s] else Observed(a, s)
  {
  }

  /** Of the recorded mission events exactly the takeoff, the waypoints and the landing are replayed, of the responses all. */
  lemma ReplayedTypes(e: Recorded)
    ensures IsReplayed(e) <==> match e
                               case RecordedResponse(_, _) => true
                               case RecordedMission(_, event) => event.eventType in {"takeoff_complete", "waypoint_reached", "landed"}
                               case Skipped(_) => false
  {
  }

  /** A replay is finished by the last sample, or before it by the first one of a mission that is complete or aborted. */
  lemma FinishesOnce(rec: Recording, times: seq<real>, initial: Health, stopAt: nat, out: seq<Observation>, i: nat)
    requires IsReplay(rec, times, initial, stopAt, out) && i < |out|
    ensures out[i].sample == rec.samples[i]
    ensures out[i].finished <==> i == |rec.samples| - 1 || rec.samples[i].phase in {Complete, Aborted}
    ensures i < |out| - 1 ==> rec.samples[i].phase !in {Complete, Aborted}
    ensures i == |out| - 1 ==> out[i].finished || |out| == stopAt
  {
    hide Cut, Grouped, AreDifferences, StatesBefore;
    assert Fits(rec, times, initial, i, out[i]);
  }

  /** For the engine such a replay is a faithful target: what it learns is what was recorded. */
  lemma ReplayIsFaithful(healthy: Health, rec: Recording, times: seq<real>, i: nat, o: Observation)
    requires i < |rec.samples| && healthy.Keys == rec.samples[0].health.Keys
    requires forall j :: 0 <= j < |rec.samples| ==> rec.samples[j].health.Keys == healthy.Keys
    requires Fits(rec, times, healthy + rec.samples[0].health, i, o)
    ensures Faithful(rec.samples[if i == 0 then 0 else i - 1].health, o)
  {
    PairwiseDifferences(healthy, rec, times, i, o);
  }

  // ---- A whole replay as a target of the engine

  /** The feed delivers the observations of the replay, with cancel requests wherever they come. */
  ghost predicate Delivers(feed: seq<Input>, out: seq<Observation>) {
    |feed| == |out| && forall i :: 0 <= i < |out| ==> feed[i].observation == out[i]
  }

  ghost predicate SameComponents(healthy: Health, rec: Recording) {
    rec.samples != [] && forall j :: 0 <= j < |rec.samples| ==> rec.samples[j].health.Keys == healthy.Keys
  }

  lemma {:induction false} ReplayFeedFrom(healthy: Health, rec: Recording, times: seq<real>, out: seq<Observation>, feed: seq<Input>, i: nat)
    requires SameComponents(healthy, rec) && Delivers(feed, out) && i <= |out| <= |rec.samples|
    requires forall k :: 0 <= k < |out| ==> Fits(rec, times, healthy + rec.samples[0].health, k, out[k])
    ensures FaithfulFeed(rec.samples[if i == 0 then 0 else i - 1].health, feed[i..])
    decreases |out| - i
  {
    hide Fits, Faithful;
    if i < |out| {
      ReplayIsFaithful(healthy, rec, times, i, out[i]);
      ReplayFeedFrom(healthy, rec, times, out, feed, i + 1);
      assert feed[i..][1..] == feed[i + 1..];
      FitsSample(rec, times, healthy + rec.samples[0].health, i, out[i]);
    }
  }

  lemma FitsSample(rec: Recording, times: seq<real>, initial: Health, i: nat, o: Observation)
    requires i < |rec.samples| && Fits(rec, times, initial, i, o)
    ensures o.sample == rec.samples[i]
  {
    hide Cut, Grouped, AreDifferences, EndsReplay;
  }

  /** Main result, joining the replay and the engine: a run on a replay of a recording with one set of components, with
      any scenario on them and any cancel requests, mirrors the recording. After every processed observation the engine's
      states are the recorded ones, and folding the log written so far gives them back. */
  lemma ReplayedRunMirrors(c: Config, events: seq<ScenarioEvent>, healthy: Health, rec: Recording, times: seq<real>, stopAt: nat,
                           out: seq<Observation>, feed: seq<Input>, raises: bool)
    requires SameComponents(healthy, rec) && KnownEvents(events, healthy)
    requires IsReplay(rec, times, healthy + rec.samples[0].health, stopAt, out) && Delivers(feed, out)
    ensures var initial := healthy + rec.samples[0].health;
            var r := Run(c, events, Setup.Prepared(initial), feed, raises).0;
            && FaithfulFeed(initial, feed) && Folds(initial, r) && |r.ticks| <= |out|
            && forall k :: 0 <= k < |r.ticks| ==>
                 && r.ticks[k].states == rec.samples[k].health && r.ticks[k].logged <= |r.log|
                 && FoldStates(initial, r.log[..r.ticks[k].logged]) == rec.samples[k].health
  {
    hide Run, Fits, FoldStates, KnownEvents, FaithfulFeed;
    var initial := healthy + rec.samples[0].health;
    assert initial == rec.samples[0].health;
    assert KnownEvents(events, initial) by { SameKeysKnown(events, healthy, initial); }
    ReplayFeedFrom(healthy, rec, times, out, feed, 0);
    assert feed[0..] == feed;
    RunMirrors(c, events, initial, feed, raises);
    var r := Run(c, events, Setup.Prepared(initial), feed, raises).0;
    if r.ticks != [] {
      assert r.ticks[|r.ticks| - 1].t == feed[|r.ticks| - 1 - 0].observation.sample.t;
    }
    forall k | 0 <= k < |r.ticks|
      ensures r.ticks[k].states == rec.samples[k].health
    {
      assert r.ticks[k].states == feed[k - 0].observation.sample.health;
      FitsSample(rec, times, initial, k, out[k]);
    }
  }
}
