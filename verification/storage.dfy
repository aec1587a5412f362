/** What the orchestrator stores of a run: event rows and telemetry chunks under a uniqueness constraint,
    their counters, and the queries that read them back. */
module Storage {
  import opened Options
  import opened States
  import opened RunLog
  import opened EngineMirror

  datatype Message = EventMessage(event: RunEvent) | TelemetryMessage(sequence: nat, samples: seq<Sample>)

  /** The rows of one run: at most one event and one chunk per sequence number. */
  datatype Store = Store(
    events: map<nat, RunEvent>,
    chunks: map<nat, seq<Sample>>,
    eventCount: nat,
    sampleCount: nat,
    lastSimulationTime: real)

  const EMPTY := Store(map[], map[], 0, 0, 0.0)

  /** Insert, or leave the row that is there; the number of rows inserted. */
  function Inserted(events: map<nat, RunEvent>, more: seq<RunEvent>): (map<nat, RunEvent>, nat) {
    if more == [] then (events, 0)
    else
      var (before, n) := Inserted(events, more[..|more| - 1]);
      var e := more[|more| - 1];
      if e.sequence in before then (before, n) else (before[e.sequence := e], n + 1)
  }

  function Handle(s: Store, m: Message): Store {
    match m
    case EventMessage(e) =>
      if e.sequence in s.events then s
      else s.(events := s.events[e.sequence := e], eventCount := s.eventCount + 1, lastSimulationTime := e.time)
    case TelemetryMessage(sequence, samples) =>
      if samples == [] || sequence in s.chunks then s
      else s.(chunks := s.chunks[sequence := samples], sampleCount := s.sampleCount + |samples|,
              lastSimulationTime := samples[|samples| - 1].t)
  }

  function HandleAll(ms: seq<Message>): Store {
    if ms == [] then EMPTY else Handle(HandleAll(ms[..|ms| - 1]), ms[|ms| - 1])
  }

  // ---- Any order, any repetition

  /** The samples stored in the chunks below `n`. */
  function SamplesBelow(chunks: map<nat, seq<Sample>>, n: nat): nat {
    if n == 0 then 0 else SamplesBelow(chunks, n - 1) + if n - 1 in chunks then |chunks[n - 1]| else 0
  }

  lemma {:induction false} AddChunk(chunks: map<nat, seq<Sample>>, sequence: nat, samples: seq<Sample>, n: nat)
    requires sequence !in chunks
    ensures SamplesBelow(chunks[sequence := samples], n) == SamplesBelow(chunks, n) + if sequence < n then |samples| else 0
    decreases n
  {
    if n > 0 {
      AddChunk(chunks, sequence, samples, n - 1);
    }
  }

  /** The message carries entry number `sequence` of what the runner emitted. */
  ghost predicate Emitted(m: Message, log: seq<RunEvent>, batches: seq<seq<Sample>>) {
    match m
    case EventMessage(e) => e.sequence < |log| && log[e.sequence] == e
    case TelemetryMessage(sequence, samples) => sequence < |batches| && batches[sequence] == samples
  }

  ghost predicate EventReceived(ms: seq<Message>, i: nat) {
    exists k :: 0 <= k < |ms| && ms[k].EventMessage? && ms[k].event.sequence == i
  }

  ghost predicate ChunkReceived(ms: seq<Message>, i: nat) {
    exists k :: 0 <= k < |ms| && ms[k].TelemetryMessage? && ms[k].sequence == i && ms[k].samples != []
  }

  lemma ReceivedMore(ms: seq<Message>, m: Message, i: nat)
    ensures EventReceived(ms + [m], i) <==> EventReceived(ms, i) || (m.EventMessage? && m.event.sequence == i)
    ensures ChunkReceived(ms + [m], i) <==>
            ChunkReceived(ms, i) || (m.TelemetryMessage? && m.sequence == i && m.samples != [])
  {
    var more := ms + [m];
    assert more[|ms|] == m;
    if EventReceived(ms, i) {
      var k :| 0 <= k < |ms| && ms[k].EventMessage? && ms[k].event.sequence == i;
      assert more[k] == ms[k];
    }
    if ChunkReceived(ms, i) {
      var k :| 0 <= k < |ms| && ms[k].TelemetryMessage? && ms[k].sequence == i && ms[k].samples != [];
      assert more[k] == ms[k];
    }
  }

  /** The event rows after any selection of emitted messages, in any order and number. */
  ghost predicate EventsConsistent(s: Store, ms: seq<Message>, log: seq<RunEvent>) {
    && (forall i :: i in s.events <==> EventReceived(ms, i))
    && (forall i :: i in s.events ==> i < |log| && s.events[i] == log[i])
    && s.eventCount == |s.events|
  }

  /** The same for the telemetry chunks. */
  ghost predicate ChunksConsistent(s: Store, ms: seq<Message>, batches: seq<seq<Sample>>) {
    && (forall i :: i in s.chunks <==> ChunkReceived(ms, i))
    && (forall i :: i in s.chunks ==> i < |batches| && s.chunks[i] == batches[i])
    && s.sampleCount == SamplesBelow(s.chunks, |batches|)
  }

  ghost predicate Consistent(s: Store, ms: seq<Message>, log: seq<RunEvent>, batches: seq<seq<Sample>>) {
    EventsConsistent(s, ms, log) && ChunksConsistent(s, ms, batches)
  }

  lemma HandleKeepsConsistent(s: Store, ms: seq<Message>, m: Message, log: seq<RunEvent>, batches: seq<seq<Sample>>)
    requires Consistent(s, ms, log, batches) && Emitted(m, log, batches)
    ensures Consistent(Handle(s, m), ms + [m], log, batches)
  {
    hide EventReceived, ChunkReceived;
    forall i: nat
      ensures EventReceived(ms + [m], i) <==> EventReceived(ms, i) || (m.EventMessage? && m.event.sequence == i)
      ensures ChunkReceived(ms + [m], i) <==>
              ChunkReceived(ms, i) || (m.TelemetryMessage? && m.sequence == i && m.samples != [])
    {
      ReceivedMore(ms, m, i);
    }
    if m.TelemetryMessage? && m.samples != [] && m.sequence !in s.chunks {
      AddChunk(s.chunks, m.sequence, m.samples, |batches|);
    }
  }

  lemma {:induction false} AlwaysConsistent(ms: seq<Message>, log: seq<RunEvent>, batches: seq<seq<Sample>>)
    requires forall k :: 0 <= k < |ms| ==> Emitted(ms[k], log, batches)
    ensures Consistent(HandleAll(ms), ms, log, batches)
    decreases |ms|
  {
    if ms == [] {
      NoSamples(|batches|);
    } else {
      var shorter, m := ms[..|ms| - 1], ms[|ms| - 1];
      AlwaysConsistent(shorter, log, batches);
      HandleKeepsConsistent(HandleAll(shorter), shorter, m, log, batches);
      assert ms == shorter + [m];
    }
  }

  lemma {:induction false} NoSamples(n: nat)
    ensures SamplesBelow(map[], n) == 0
    decreases n
  {
    if n > 0 {
      NoSamples(n - 1);
    }
  }

  /** Everything emitted was handled at least once. */
  ghost predicate Covers(ms: seq<Message>, log: seq<RunEvent>, batches: seq<seq<Sample>>) {
    && (forall i :: 0 <= i < |log| ==> exists k :: 0 <= k < |ms| && ms[k] == EventMessage(log[i]))
    && (forall i :: 0 <= i < |batches| ==> exists k :: 0 <= k < |ms| && ms[k] == TelemetryMessage(i, batches[i]))
  }

  /** What a run leaves in the store. */
  ghost predicate Holds(s: Store, log: seq<RunEvent>, batches: seq<seq<Sample>>) {
    && s.events == (map i: nat | 0 <= i < |log| :: log[i])
    && s.chunks == (map i: nat | 0 <= i < |batches| :: batches[i])
    && s.eventCount == |log| && s.sampleCount == |Flatten(batches)|
  }

  lemma {:induction false} AllSamples(chunks: map<nat, seq<Sample>>, batches: seq<seq<Sample>>, n: nat)
    requires n <= |batches| && forall i :: 0 <= i < |batches| ==> i in chunks && chunks[i] == batches[i]
    ensures SamplesBelow(chunks, n) == |Flatten(batches[..n])|
    decreases n
  {
    if n > 0 {
      AllSamples(chunks, batches, n - 1);
      assert batches[..n][..n - 1] == batches[..n - 1];
    }
  }

  lemma {:induction false} CountPrefix(events: map<nat, RunEvent>, n: nat)
    requires forall i :: i in events <==> 0 <= i < n
    ensures |events| == n
    decreases n
  {
    if n == 0 {
      assert events == map[];
    } else {
      var fewer := events - {n - 1};
      CountPrefix(fewer, n - 1);
      assert events == fewer[n - 1 := events[n - 1]];
    }
  }

  /** Main result: whatever the order and the repetitions, once every emitted message was handled the rows
      are the emitted ones and the counters count them. */
  lemma StoreIsDetermined(ms: seq<Message>, log: seq<RunEvent>, batches: seq<seq<Sample>>)
    requires Numbered(log) && (forall i :: 0 <= i < |batches| ==> batches[i] != [])
    requires (forall k :: 0 <= k < |ms| ==> Emitted(ms[k], log, batches)) && Covers(ms, log, batches)
    ensures Holds(HandleAll(ms), log, batches)
  {
    AlwaysConsistent(ms, log, batches);
    var s := HandleAll(ms);
    hide HandleAll, Emitted;
    EventsDetermined(s, ms, log, batches);
    ChunksDetermined(s, ms, log, batches);
  }

  lemma EventsDetermined(s: Store, ms: seq<Message>, log: seq<RunEvent>, batches: seq<seq<Sample>>)
    requires EventsConsistent(s, ms, log) && Covers(ms, log, batches) && Numbered(log)
    ensures s.events == (map i: nat | 0 <= i < |log| :: log[i]) && s.eventCount == |log|
  {
    forall i | 0 <= i < |log|
      ensures i in s.events
    {
      var k :| 0 <= k < |ms| && ms[k] == EventMessage(log[i]);
      assert EventReceived(ms, i);
    }
    hide EventReceived, Covers;
    CountPrefix(s.events, |log|);
  }

  lemma ChunksDetermined(s: Store, ms: seq<Message>, log: seq<RunEvent>, batches: seq<seq<Sample>>)
    requires ChunksConsistent(s, ms, batches) && Covers(ms, log, batches) && forall i :: 0 <= i < |batches| ==> batches[i] != []
    ensures s.chunks == (map i: nat | 0 <= i < |batches| :: batches[i]) && s.sampleCount == |Flatten(batches)|
  {
    forall i | 0 <= i < |batches|
      ensures i in s.chunks
    {
      var k :| 0 <= k < |ms| && ms[k] == TelemetryMessage(i, batches[i]);
      assert ChunkReceived(ms, i);
    }
    hide ChunkReceived, Covers;
    AllSamples(s.chunks, batches, |batches|);
    assert batches[..|batches|] == batches;
  }

  // ---- Reading back

  /** An empty list of kinds does not filter either. */
  /** The message brings something new: its number was not received before, and a chunk holds samples. */
  ghost predicate IsNew(ms: seq<Message>, k: nat)
    requires k < |ms|
  {
    match ms[k]
    case EventMessage(e) => !EventReceived(ms[..k], e.sequence)
    case TelemetryMessage(sequence, samples) => samples != [] && !ChunkReceived(ms[..k], sequence)
  }

  function TimeOf(m: Message): real {
    match m
    case EventMessage(e) => e.time
    case TelemetryMessage(_, samples) => if samples == [] then 0.0 else samples[|samples| - 1].t
  }

  /** The last simulation time of a run is that of the last message that brought something new: of its event, or of the last sample of
      its chunk. Repeated messages leave it alone. */
  lemma {:induction false} LastTimeIs(ms: seq<Message>)
    ensures (forall k :: 0 <= k < |ms| ==> !IsNew(ms, k)) ==> HandleAll(ms).lastSimulationTime == 0.0
    ensures forall k :: 0 <= k < |ms| && IsNew(ms, k) && (forall j :: k < j < |ms| ==> !IsNew(ms, j)) ==>
                          HandleAll(ms).lastSimulationTime == TimeOf(ms[k])
    decreases |ms|
  {
    if ms != [] {
      var shorter, n := ms[..|ms| - 1], |ms| - 1;
      LastTimeIs(shorter);
      KnownNumbers(shorter);
      forall k | 0 <= k < n
        ensures IsNew(ms, k) <==> IsNew(shorter, k)
        ensures ms[k] == shorter[k]
      {
        assert ms[..k] == shorter[..k];
      }
      assert ms[..n] == shorter;
      hide IsNew;
      LastMessage(ms);
    }
  }

  lemma LastMessage(ms: seq<Message>)
    requires ms != []
    ensures var before, n := HandleAll(ms[..|ms| - 1]), |ms| - 1;
            HandleAll(ms).lastSimulationTime == if IsNew(ms, n) then TimeOf(ms[n]) else before.lastSimulationTime
  {
    KnownNumbers(ms[..|ms| - 1]);
  }

  /** The rows there are those of the numbers received. */
  lemma {:induction false} KnownNumbers(ms: seq<Message>)
    ensures forall i :: i in HandleAll(ms).events <==> EventReceived(ms, i)
    ensures forall i :: i in HandleAll(ms).chunks <==> ChunkReceived(ms, i)
    decreases |ms|
  {
    if ms != [] {
      var shorter, n := ms[..|ms| - 1], |ms| - 1;
      KnownNumbers(shorter);
      assert forall k :: 0 <= k < n ==> ms[k] == shorter[k];
      forall i: nat
        ensures EventReceived(ms, i) <==> EventReceived(shorter, i) || (ms[n].EventMessage? && ms[n].event.sequence == i)
        ensures ChunkReceived(ms, i) <==> ChunkReceived(shorter, i) || (ms[n].TelemetryMessage? && ms[n].sequence == i && ms[n].samples != [])
      {
      }
      hide EventReceived, ChunkReceived;
    }
  }

  predicate Wanted(kinds: Option<set<EventKind>>, kind: EventKind) {
    kinds.None? || kinds.value == {} || kind in kinds.value
  }

  /** The rows with sequence numbers from `from` up to `n`, in order, of the wanted kinds. */
  function Rows(events: map<nat, RunEvent>, from: nat, n: nat, kinds: Option<set<EventKind>>): seq<RunEvent> {
    if n <= from then []
    else
      var before := Rows(events, from, n - 1, kinds);
      if n - 1 in events && Wanted(kinds, events[n - 1].kind) then before + [events[n - 1]] else before
  }

  function Take<T>(xs: seq<T>, limit: nat): seq<T> { if |xs| <= limit then xs else xs[..limit] }

  /** One past the largest sequence number. */
  ghost function Bound<T>(rows: map<nat, T>): nat
    ensures forall i :: i in rows ==> i < Bound(rows)
  {
    if rows == map[] then 0
    else
      var i :| i in rows;
      var rest := Bound(rows - {i});
      assert forall j :: j in rows && j != i ==> j in rows - {i};
      if i < rest then rest else i + 1
  }

  /** The query for events after a sequence number (-1 for all). */
  ghost function ListEvents(s: Store, after: int, limit: nat, kinds: Option<set<EventKind>>): seq<RunEvent> {
    Take(Rows(s.events, if after < 0 then 0 else after + 1, Bound(s.events), kinds), limit)
  }

  /** The entries of the wanted kinds, in the order of the log. */
  function OfKinds(log: seq<RunEvent>, kinds: Option<set<EventKind>>): seq<RunEvent> {
    if log == [] then []
    else if Wanted(kinds, log[0].kind) then [log[0]] + OfKinds(log[1..], kinds)
    else OfKinds(log[1..], kinds)
  }

  lemma {:induction false} OfKindsAppend(log: seq<RunEvent>, e: RunEvent, kinds: Option<set<EventKind>>)
    ensures OfKinds(log + [e], kinds) == OfKinds(log, kinds) + if Wanted(kinds, e.kind) then [e] else []
    decreases |log|
  {
    if log == [] {
      assert (log + [e])[1..] == [];
    } else {
      assert (log + [e])[1..] == log[1..] + [e];
      OfKindsAppend(log[1..], e, kinds);
    }
  }

  lemma {:induction false} AllKinds(log: seq<RunEvent>)
    ensures OfKinds(log, None) == log && OfKinds(log, Some({})) == log
    decreases |log|
  {
    if log != [] {
      AllKinds(log[1..]);
    }
  }

  function Least(a: nat, b: nat): nat { if a < b then a else b }

  /** The entries from position `from` up to `n`, as far as the log goes. */
  function Stretch(log: seq<RunEvent>, from: nat, n: nat): seq<RunEvent> {
    if Least(n, |log|) <= from then [] else log[from..Least(n, |log|)]
  }

  lemma StretchGrows(log: seq<RunEvent>, from: nat, n: nat)
    requires from <= n
    ensures Stretch(log, from, n + 1) == Stretch(log, from, n) + if n < |log| then [log[n]] else []
  {
  }

  lemma {:induction false} RowsOfLog(events: map<nat, RunEvent>, log: seq<RunEvent>, from: nat, n: nat, kinds: Option<set<EventKind>>)
    requires events == map i: nat | 0 <= i < |log| :: log[i]
    ensures Rows(events, from, n, kinds) == OfKinds(Stretch(log, from, n), kinds)
    decreases n
  {
    hide Wanted, Stretch;
    if n > from {
      RowsOfLog(events, log, from, n - 1, kinds);
      StretchGrows(log, from, n - 1);
      hide OfKinds;
      var before := Stretch(log, from, n - 1);
      if n <= |log| {
        OfKindsAppend(before, log[n - 1], kinds);
      } else {
        assert before + [] == before;
      }
    } else {
      NothingStretched(log, from, n);
    }
  }

  lemma NothingStretched(log: seq<RunEvent>, from: nat, n: nat)
    requires n <= from
    ensures Stretch(log, from, n) == []
  {
  }

  lemma BoundOfList<T>(rows: map<nat, T>, list: seq<T>)
    requires rows == map i: nat | 0 <= i < |list| :: list[i]
    ensures Bound(rows) >= |list|
  {
    if list != [] {
      assert |list| - 1 in rows;
    }
  }

  /** What lies behind a sequence number, wherever it points. */
  function Behind(log: seq<RunEvent>, after: int): seq<RunEvent> {
    if after < 0 then log else if after < |log| then log[after + 1..] else []
  }

  /** A page of a stored run holds the first entries of the wanted kinds behind the cursor, in emission order,
      for every cursor and every choice of kinds; unfiltered and with a sufficient limit it is the whole log. */
  lemma PageOfRun(s: Store, log: seq<RunEvent>, batches: seq<seq<Sample>>, after: int, limit: nat, kinds: Option<set<EventKind>>)
    requires Holds(s, log, batches)
    ensures ListEvents(s, after, limit, kinds) == Take(OfKinds(Behind(log, after), kinds), limit)
    ensures after < 0 && limit >= |log| && kinds.None? ==> ListEvents(s, after, limit, kinds) == log
  {
    BoundOfList(s.events, log);
    var from := if after < 0 then 0 else after + 1;
    RowsOfLog(s.events, log, from, Bound(s.events), kinds);
    assert Stretch(log, from, Bound(s.events)) == Behind(log, after);
    AllKinds(log);
  }

  // ---- Reading telemetry

  predicate Within(s: Sample, from: Option<real>, to: Option<real>) {
    (from.None? || s.t >= from.value) && (to.None? || s.t <= to.value)
  }

  function Filtered(samples: seq<Sample>, from: Option<real>, to: Option<real>): seq<Sample> {
    if samples == [] then []
    else
      var before, last := Filtered(samples[..|samples| - 1], from, to), samples[|samples| - 1];
      if Within(last, from, to) then before + [last] else before
  }

  /** Every `stride`-th element, the first one included. */
  function Thinned(samples: seq<Sample>, stride: nat): seq<Sample>
    requires stride > 0
  {
    if samples == [] then []
    else
      var before := Thinned(samples[..|samples| - 1], stride);
      if (|samples| - 1) % stride == 0 then before + [samples[|samples| - 1]] else before
  }

  /** A limit below one still returns one sample: the test comes after the append. */
  function Limited(samples: seq<Sample>, limit: Option<int>): seq<Sample> {
    if limit.None? then samples else Take(samples, if limit.value < 1 then 1 else limit.value)
  }

  /** The query drops chunks that end before or start after the window. */
  predicate Selected(chunk: seq<Sample>, from: Option<real>, to: Option<real>) {
    chunk != [] && (from.None? || chunk[|chunk| - 1].t >= from.value) && (to.None? || chunk[0].t <= to.value)
  }

  function SelectChunks(chunks: seq<seq<Sample>>, from: Option<real>, to: Option<real>): seq<seq<Sample>> {
    if chunks == [] then []
    else
      var before, last := SelectChunks(chunks[..|chunks| - 1], from, to), chunks[|chunks| - 1];
      if Selected(last, from, to) then before + [last] else before
  }

  function Positive(stride: int): nat { if stride < 1 then 1 else stride }

  lemma {:induction false} FilteredAppend(a: seq<Sample>, b: seq<Sample>, from: Option<real>, to: Option<real>)
    ensures Filtered(a + b, from, to) == Filtered(a, from, to) + Filtered(b, from, to)
    decreases |b|
  {
    if b == [] {
      assert a + b == a;
    } else {
      assert (a + b)[..|a + b| - 1] == a + b[..|b| - 1];
      FilteredAppend(a, b[..|b| - 1], from, to);
    }
  }

  lemma {:induction false} ThinnedPrefix(a: seq<Sample>, b: seq<Sample>, stride: nat)
    requires stride > 0
    ensures Thinned(a, stride) <= Thinned(a + b, stride)
    decreases |b|
  {
    if b == [] {
      assert a + b == a;
    } else {
      assert (a + b)[..|a + b| - 1] == a + b[..|b| - 1];
      ThinnedPrefix(a, b[..|b| - 1], stride);
    }
  }

  /** Thinning keeps the samples at the multiples of the stride, in order. */
  lemma {:induction false} ThinnedAt(samples: seq<Sample>, stride: nat, j: nat)
    requires stride > 0
    ensures j < |Thinned(samples, stride)| <==> j * stride < |samples|
    ensures j < |Thinned(samples, stride)| ==> Thinned(samples, stride)[j] == samples[j * stride]
    decreases |samples|
  {
    if samples == [] {
      assert j * stride >= 0;
    } else {
      var shorter, n := samples[..|samples| - 1], |samples| - 1;
      var q, r := n / stride, n % stride;
      assert n == q * stride + r;
      ThinnedAt(shorter, stride, j);
      InStretch(j, q, r, stride);
      if r == 0 {
        ThinnedAt(shorter, stride, q);
        if q > 0 {
          ThinnedAt(shorter, stride, q - 1);
          InStretch(q - 1, q, r, stride);
        }
        assert |Thinned(shorter, stride)| == q;
      }
    }
  }

  /** Which multiples of the stride lie before a number, and which number they meet. */
  lemma InStretch(j: nat, q: nat, r: nat, stride: nat)
    requires r < stride
    ensures j * stride < q * stride + r <==> j < q || (j == q && r > 0)
    ensures j * stride == q * stride + r <==> j == q && r == 0
  {
    if j < q {
      NextMultiple(j, q, stride);
    } else if q < j {
      NextMultiple(q, j, stride);
    }
  }

  lemma {:induction false} NextMultiple(a: nat, b: nat, stride: nat)
    requires a < b
    ensures a * stride + stride <= b * stride
    decreases b
  {
    if a + 1 < b {
      NextMultiple(a, b - 1, stride);
    }
    assert b * stride == (b - 1) * stride + stride;
  }

  /** A query without a limit, by the position of its samples: those at the multiples of the stride among the samples of the window; a
      stride below one counts as one. */
  lemma QueryAt(samples: seq<Sample>, from: Option<real>, to: Option<real>, stride: int, j: nat)
    ensures var window := Filtered(samples, from, to);
            var r := Queried(samples, from, to, stride, None);
            var every := if stride > 1 then stride else 1;
            && (j < |r| <==> j * every < |window|) && (j < |r| ==> r[j] == window[j * every])
            && (stride <= 1 ==> r == window)
  {
    hide Filtered, Thinned;
    var window, every := Filtered(samples, from, to), if stride > 1 then stride else 1;
    ThinnedAt(window, every, j);
    if stride <= 1 {
      forall k: nat
        ensures k < |window| <==> k < |Thinned(window, 1)|
        ensures k < |window| ==> Thinned(window, 1)[k] == window[k]
      {
        ThinnedAt(window, 1, k);
      }
      assert |Thinned(window, 1)| == |window| by {
        ThinnedAt(window, 1, |window|);
        ThinnedAt(window, 1, |Thinned(window, 1)|);
      }
      assert Thinned(window, 1) == window;
    }
  }

  /** The nested loops of the telemetry query over the selected chunks. */
  method ReadChunks(chunks: seq<seq<Sample>>, from: Option<real>, to: Option<real>, stride: int, limit: Option<int>)
    returns (samples: seq<Sample>)
    ensures samples == Queried(Flatten(chunks), from, to, stride, limit)
  {
    hide Filtered, Thinned, Flatten, Within, Limited;
    samples := [];
    var index := 0;
    ghost var passed := [];
    ghost var all := Filtered(Flatten(chunks), from, to);
    assert Thinned(passed, Positive(stride)) == [] by { EmptyThinned(Positive(stride)); }
    EmptyFiltered(from, to);
    for k := 0 to |chunks|
      invariant index == |passed| && passed == Filtered(Flatten(chunks[..k]), from, to)
      invariant samples == Thinned(passed, Positive(stride))
      invariant limit.Some? && samples != [] ==> |samples| < limit.value
    {
      var chunk := chunks[k];
      FlattenOne(chunks, k);
      ghost var earlier := Flatten(chunks[..k]);
      assert earlier + chunk[..0] == earlier;
      for j := 0 to |chunk|
        invariant index == |passed| && passed == Filtered(earlier + chunk[..j], from, to)
        invariant samples == Thinned(passed, Positive(stride))
        invariant limit.Some? && samples != [] ==> |samples| < limit.value
      {
        var sample := chunk[j];
        FilterOne(earlier + chunk[..j], sample, from, to);
        assert earlier + chunk[..j] + [sample] == earlier + chunk[..j + 1];
        if !Within(sample, from, to) {
          continue;
        }
        ThinOne(passed, sample, Positive(stride));
        passed := passed + [sample];
        if index % Positive(stride) == 0 {
          samples := samples + [sample];
          if limit.Some? && |samples| >= limit.value {
            RestOfFlatten(chunks, k, j + 1, from, to);
            LimitReached(passed, all, Positive(stride), limit);
            return;
          }
        }
        index := index + 1;
      }
      assert chunk[..|chunk|] == chunk;
    }
    assert chunks[..|chunks|] == chunks;
    LimitNotReached(samples, limit);
  }

  lemma FlattenOne(chunks: seq<seq<Sample>>, k: nat)
    requires k < |chunks|
    ensures Flatten(chunks[..k + 1]) == Flatten(chunks[..k]) + chunks[k]
  {
    assert chunks[..k + 1][..k] == chunks[..k];
  }

  /** The first samples, once there are enough of them, are the limited result. */
  lemma LimitReached(passed: seq<Sample>, all: seq<Sample>, stride: nat, limit: Option<int>)
    requires passed <= all && stride > 0 && limit.Some?
    requires var n := |Thinned(passed, stride)|; n > 0 && (n == limit.value || (n == 1 && limit.value < 1))
    ensures Limited(Thinned(all, stride), limit) == Thinned(passed, stride)
  {
    assert all == passed + all[|passed|..];
    ThinnedPrefix(passed, all[|passed|..], stride);
    hide Thinned;
    var some := Thinned(passed, stride);
    assert Thinned(all, stride)[..|some|] == some;
  }

  lemma LimitNotReached(samples: seq<Sample>, limit: Option<int>)
    requires limit.Some? && samples != [] ==> |samples| < limit.value
    ensures Limited(samples, limit) == samples
  {
  }

  lemma EmptyThinned(stride: nat)
    requires stride > 0
    ensures Thinned([], stride) == []
  {
  }

  lemma EmptyFiltered(from: Option<real>, to: Option<real>)
    ensures Filtered([], from, to) == [] && Flatten([]) == []
  {
  }

  lemma FilterOne(before: seq<Sample>, sample: Sample, from: Option<real>, to: Option<real>)
    ensures Filtered(before + [sample], from, to)
         == if Within(sample, from, to) then Filtered(before, from, to) + [sample] else Filtered(before, from, to)
  {
    assert (before + [sample])[..|before|] == before;
  }

  lemma ThinOne(before: seq<Sample>, sample: Sample, stride: nat)
    requires stride > 0
    ensures Thinned(before + [sample], stride)
         == if |before| % stride == 0 then Thinned(before, stride) + [sample] else Thinned(before, stride)
  {
    assert (before + [sample])[..|before|] == before;
  }

  /** What was read up to element `j` of chunk `k` is a beginning of everything. */
  lemma RestOfFlatten(chunks: seq<seq<Sample>>, k: nat, j: nat, from: Option<real>, to: Option<real>)
    requires k < |chunks| && j <= |chunks[k]|
    ensures Filtered(Flatten(chunks[..k]) + chunks[k][..j], from, to) <= Filtered(Flatten(chunks), from, to)
  {
    hide Filtered;
    FlattenSplit(chunks, k);
    var read := Flatten(chunks[..k]) + chunks[k][..j];
    var tail := chunks[k][j..] + Flatten(chunks[k + 1..]);
    assert Flatten(chunks) == read + tail;
    FilteredAppend(read, tail, from, to);
  }

  lemma {:induction false} FlattenSplit(chunks: seq<seq<Sample>>, k: nat)
    requires k < |chunks|
    ensures Flatten(chunks) == Flatten(chunks[..k]) + chunks[k] + Flatten(chunks[k + 1..])
    decreases |chunks|
  {
    var n := |chunks| - 1;
    if k == n {
      assert chunks[k + 1..] == [];
    } else {
      FlattenSplit(chunks[..n], k);
      assert chunks[..n][..k] == chunks[..k] && chunks[..n][k + 1..] == chunks[k + 1..][..n - k - 1];
    }
  }

  lemma {:induction false} NoneWithin(samples: seq<Sample>, from: Option<real>, to: Option<real>)
    ensures Filtered(samples, from, to) == [] <==> forall k :: 0 <= k < |samples| ==> !Within(samples[k], from, to)
    decreases |samples|
  {
    if samples != [] {
      var shorter := samples[..|samples| - 1];
      NoneWithin(shorter, from, to);
      assert samples == shorter + [samples[|samples| - 1]];
      assert forall k :: 0 <= k < |shorter| ==> samples[k] == shorter[k];
    }
  }

  /** The window loses nothing of this chunk. */
  predicate KeepsWindow(chunk: seq<Sample>, from: Option<real>, to: Option<real>) {
    Selected(chunk, from, to) || Filtered(chunk, from, to) == []
  }

  /** The first sample is the earliest of the chunk and the last one the latest. */
  ghost predicate EndsBound(chunk: seq<Sample>) {
    forall i :: 0 <= i < |chunk| ==> chunk[0].t <= chunk[i].t <= chunk[|chunk| - 1].t
  }

  lemma BoundedKeepsWindow(chunk: seq<Sample>, from: Option<real>, to: Option<real>)
    requires EndsBound(chunk)
    ensures KeepsWindow(chunk, from, to)
  {
    NoneWithin(chunk, from, to);
  }

  /** A sample outside the ends of its chunk is lost to the window that holds just its time. */
  lemma UnboundedLosesWindow(chunk: seq<Sample>, i: nat)
    requires i < |chunk| && !(chunk[0].t <= chunk[i].t <= chunk[|chunk| - 1].t)
    ensures !KeepsWindow(chunk, Some(chunk[i].t), Some(chunk[i].t))
  {
    NoneWithin(chunk, Some(chunk[i].t), Some(chunk[i].t));
    assert Within(chunk[i], Some(chunk[i].t), Some(chunk[i].t));
  }

  /** One window loses samples exactly when it drops a chunk that holds some of it. */
  lemma {:induction false} SelectionIsLossless(chunks: seq<seq<Sample>>, from: Option<real>, to: Option<real>)
    ensures |Filtered(Flatten(SelectChunks(chunks, from, to)), from, to)| <= |Filtered(Flatten(chunks), from, to)|
    ensures Filtered(Flatten(SelectChunks(chunks, from, to)), from, to) == Filtered(Flatten(chunks), from, to)
            <==> forall k :: 0 <= k < |chunks| ==> KeepsWindow(chunks[k], from, to)
    decreases |chunks|
  {
    hide Filtered, Within, Selected;
    if chunks != [] {
      var shorter, last := chunks[..|chunks| - 1], chunks[|chunks| - 1];
      SelectionIsLossless(shorter, from, to);
      FilteredAppend(Flatten(shorter), last, from, to);
      assert chunks == shorter + [last];
      assert forall k :: 0 <= k < |shorter| ==> chunks[k] == shorter[k];
      var kept := SelectChunks(shorter, from, to);
      if Selected(last, from, to) {
        assert (kept + [last])[..|kept|] == kept;
        FilteredAppend(Flatten(kept), last, from, to);
        SameTail(Filtered(Flatten(kept), from, to), Filtered(Flatten(shorter), from, to), Filtered(last, from, to));
      } else if Filtered(last, from, to) == [] {
        assert Filtered(Flatten(shorter), from, to) + [] == Filtered(Flatten(shorter), from, to);
      }
    }
  }

  lemma SameTail(a: seq<Sample>, b: seq<Sample>, tail: seq<Sample>)
    ensures a + tail == b + tail <==> a == b
  {
    if a + tail == b + tail {
      assert a == (a + tail)[..|a|] && b == (b + tail)[..|b|];
    }
  }

  /** The exact condition: selecting chunks by their ends loses nothing for any window if and only if in every
      chunk the first sample is the earliest and the last one the latest. */
  lemma SelectionIsHarmless(chunks: seq<seq<Sample>>)
    ensures (forall from, to :: Filtered(Flatten(SelectChunks(chunks, from, to)), from, to) == Filtered(Flatten(chunks), from, to))
            <==> forall k :: 0 <= k < |chunks| ==> EndsBound(chunks[k])
  {
    hide Filtered, Within, Selected, SelectChunks, Flatten, KeepsWindow;
    if forall k :: 0 <= k < |chunks| ==> EndsBound(chunks[k]) {
      forall from, to
        ensures Filtered(Flatten(SelectChunks(chunks, from, to)), from, to) == Filtered(Flatten(chunks), from, to)
      {
        forall k | 0 <= k < |chunks|
          ensures KeepsWindow(chunks[k], from, to)
        {
          BoundedKeepsWindow(chunks[k], from, to);
        }
        SelectionIsLossless(chunks, from, to);
      }
    } else {
      var k :| 0 <= k < |chunks| && !EndsBound(chunks[k]);
      var i :| 0 <= i < |chunks[k]| && !(chunks[k][0].t <= chunks[k][i].t <= chunks[k][|chunks[k]| - 1].t);
      var at := Some(chunks[k][i].t);
      UnboundedLosesWindow(chunks[k], i);
      SelectionIsLossless(chunks, at, at);
      assert Filtered(Flatten(SelectChunks(chunks, at, at)), at, at) != Filtered(Flatten(chunks), at, at);
    }
  }

  /** The dropped chunk may hold a sample of the window. */
  lemma SelectionMayLose(a: Sample, b: Sample)
    requires a.t == 5.0 && b.t == 1.0
    ensures SelectChunks([[a, b]], Some(4.0), None) == [] && Filtered(Flatten([[a, b]]), Some(4.0), None) == [a]
  {
    assert [[a, b]][..0] == [];
    assert Flatten([[a, b]]) == [a, b];
    assert [a, b][..1] == [a] && [a][..0] == [];
    assert Filtered([a], Some(4.0), None) == [a];
  }

  /** Every `stride`-th sample of the window, up to the limit. */
  function Queried(samples: seq<Sample>, from: Option<real>, to: Option<real>, stride: int, limit: Option<int>): seq<Sample> {
    Limited(Thinned(Filtered(samples, from, to), Positive(stride)), limit)
  }

  /** The whole query, over the chunks that are selected; when every chunk is bounded by its ends, over all. */
  method ListTelemetry(chunks: seq<seq<Sample>>, from: Option<real>, to: Option<real>, stride: int, limit: Option<int>)
    returns (samples: seq<Sample>)
    ensures samples == Queried(Flatten(SelectChunks(chunks, from, to)), from, to, stride, limit)
    ensures (forall k :: 0 <= k < |chunks| ==> EndsBound(chunks[k])) ==> samples == Queried(Flatten(chunks), from, to, stride, limit)
  {
    hide Filtered, Thinned, Flatten, SelectChunks;
    SelectionIsHarmless(chunks);
    samples := ReadChunks(SelectChunks(chunks, from, to), from, to, stride, limit);
  }

  /** The chunks with sequence numbers below `n`, in order. */
  function ChunksBelow(chunks: map<nat, seq<Sample>>, n: nat): seq<seq<Sample>> {
    if n == 0 then [] else ChunksBelow(chunks, n - 1) + if n - 1 in chunks then [chunks[n - 1]] else []
  }

  ghost function StoredChunks(s: Store): seq<seq<Sample>> {
    ChunksBelow(s.chunks, Bound(s.chunks))
  }

  lemma {:induction false} ChunksOfRun(chunks: map<nat, seq<Sample>>, batches: seq<seq<Sample>>, n: nat)
    requires chunks == map i: nat | 0 <= i < |batches| :: batches[i]
    ensures ChunksBelow(chunks, n) == batches[..Least(n, |batches|)]
    decreases n
  {
    if n > 0 {
      ChunksOfRun(chunks, batches, n - 1);
    }
  }

  /** Samples in time order. */
  ghost predicate Ordered(samples: seq<Sample>) {
    forall i, j :: 0 <= i < j < |samples| ==> samples[i].t <= samples[j].t
  }

  lemma OrderedPiece(before: seq<Sample>, chunk: seq<Sample>, behind: seq<Sample>)
    requires Ordered(before + chunk + behind)
    ensures EndsBound(chunk)
  {
    var all, offset := before + chunk + behind, |before|;
    forall i | 0 <= i < |chunk|
      ensures chunk[0].t <= chunk[i].t <= chunk[|chunk| - 1].t
    {
      assert all[offset + i] == chunk[i] && all[offset] == chunk[0] && all[offset + |chunk| - 1] == chunk[|chunk| - 1];
    }
  }

  /** Of samples in time order, every chunk is bounded by its ends. */
  lemma ChunkOfOrdered(batches: seq<seq<Sample>>, k: nat)
    requires Ordered(Flatten(batches)) && k < |batches|
    ensures EndsBound(batches[k])
  {
    hide Flatten, Ordered, EndsBound;
    FlattenSplit(batches, k);
    OrderedPiece(Flatten(batches[..k]), batches[k], Flatten(batches[k + 1..]));
  }

  /** A stored run whose samples are in time order is read back from those samples, for every query. */
  lemma QueryOfRun(s: Store, log: seq<RunEvent>, batches: seq<seq<Sample>>,
                   from: Option<real>, to: Option<real>, stride: int, limit: Option<int>)
    requires Holds(s, log, batches) && Ordered(Flatten(batches))
    ensures Queried(Flatten(SelectChunks(StoredChunks(s), from, to)), from, to, stride, limit)
         == Queried(Flatten(batches), from, to, stride, limit)
  {
    BoundOfList(s.chunks, batches);
    ChunksOfRun(s.chunks, batches, Bound(s.chunks));
    assert StoredChunks(s) == batches;
    hide Flatten, SelectChunks, Filtered;
    forall k | 0 <= k < |batches|
      ensures EndsBound(batches[k])
    {
      ChunkOfOrdered(batches, k);
    }
    SelectionIsHarmless(batches);
  }

  // ---- The handlers, in place

  class RunTables {
    var events: map<nat, RunEvent>
    var chunks: map<nat, seq<Sample>>
    var eventCount: nat
    var sampleCount: nat
    var lastSimulationTime: real

    function Value(): Store
      reads this
    {
      Store(events, chunks, eventCount, sampleCount, lastSimulationTime)
    }

    constructor ()
      ensures Value() == EMPTY
    {
      events, chunks, eventCount, sampleCount, lastSimulationTime := map[], map[], 0, 0, 0.0;
    }

    method InsertEvents(more: seq<RunEvent>) returns (inserted: nat)
      modifies this`events
      ensures (events, inserted) == Inserted(old(events), more)
    {
      inserted := 0;
      for k := 0 to |more|
        invariant (events, inserted) == Inserted(old(events), more[..k])
      {
        assert more[..k + 1][..k] == more[..k];
        if more[k].sequence !in events {
          events := events[more[k].sequence := more[k]];
          inserted := inserted + 1;
        }
      }
      assert more[..|more|] == more;
    }

    method InsertTelemetryChunk(sequence: nat, samples: seq<Sample>) returns (inserted: bool)
      modifies this`chunks
      ensures inserted <==> samples != [] && sequence !in old(chunks)
      ensures chunks == if inserted then old(chunks)[sequence := samples] else old(chunks)
    {
      if samples == [] {
        return false;
      }
      if sequence in chunks {
        return false;
      }
      chunks := chunks[sequence := samples];
      return true;
    }

    method OnEvent(event: RunEvent)
      modifies this
      ensures Value() == Handle(old(Value()), EventMessage(event))
    {
      assert [event][..0] == [] && Inserted(events, []) == (events, 0);
      var inserted := InsertEvents([event]);
      if inserted > 0 {
        eventCount := eventCount + 1;
        lastSimulationTime := event.time;
      }
    }

    method OnTelemetry(sequence: nat, samples: seq<Sample>)
      modifies this
      ensures Value() == Handle(old(Value()), TelemetryMessage(sequence, samples))
    {
      var inserted := InsertTelemetryChunk(sequence, samples);
      if inserted {
        sampleCount := sampleCount + |samples|;
        lastSimulationTime := samples[|samples| - 1].t;
      }
    }
  }
}
