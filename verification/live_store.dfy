/** The client's live view of a run: capped, deduplicating merges of events and samples, and the store
    actions built on them. */
module LiveStore {
  import opened Options

  /** An event with its sequence number, or a sample with its time. */
  datatype Keyed<T> = Keyed(key: real, value: T)

  ghost predicate Ascending<T>(xs: seq<Keyed<T>>) {
    forall i, j :: 0 <= i < j < |xs| ==> xs[i].key < xs[j].key
  }

  /** The map filled by the loops: of several entries with a key, the last one stays. */
  function AsMap<T>(xs: seq<Keyed<T>>): map<real, Keyed<T>> {
    if xs == [] then map[] else AsMap(xs[..|xs| - 1])[xs[|xs| - 1].key := xs[|xs| - 1]]
  }

  /** A map whose entries sit at their own keys. */
  ghost predicate SelfKeyed<T(!new)>(m: map<real, Keyed<T>>) {
    forall k :: k in m ==> m[k].key == k
  }

  lemma {:induction false} AsMapSelfKeyed<T(!new)>(xs: seq<Keyed<T>>)
    ensures SelfKeyed(AsMap(xs))
    ensures forall k :: k in AsMap(xs) ==> AsMap(xs)[k] in xs
    ensures forall i :: 0 <= i < |xs| ==> xs[i].key in AsMap(xs)
    decreases |xs|
  {
    if xs != [] {
      AsMapSelfKeyed(xs[..|xs| - 1]);
      forall i | 0 <= i < |xs|
        ensures xs[i].key in AsMap(xs)
      {
        assert i < |xs| - 1 ==> xs[..|xs| - 1][i] == xs[i];
      }
    }
  }

  lemma {:induction false} AsMapAppend<T(!new)>(a: seq<Keyed<T>>, b: seq<Keyed<T>>)
    ensures AsMap(a + b) == AsMap(a) + AsMap(b)
    decreases |b|
  {
    if b == [] {
      assert a + b == a;
    } else {
      assert (a + b)[..|a + b| - 1] == a + b[..|b| - 1];
      AsMapAppend(a, b[..|b| - 1]);
    }
  }

  /** `xs` lists the entries of the map in ascending order of keys. */
  ghost predicate Lists<T(!new)>(xs: seq<Keyed<T>>, m: map<real, Keyed<T>>) {
    && Ascending(xs) && SelfKeyed(m)
    && forall x :: x in xs <==> x.key in m && m[x.key] == x
  }

  /** An ascending list lists its own map. */
  lemma {:induction false} AscendingLists<T(!new)>(xs: seq<Keyed<T>>)
    requires Ascending(xs)
    ensures Lists(xs, AsMap(xs))
    decreases |xs|
  {
    AsMapSelfKeyed(xs);
    if xs != [] {
      var shorter, last := xs[..|xs| - 1], xs[|xs| - 1];
      AscendingLists(shorter);
      assert xs == shorter + [last];
      forall x | x in xs
        ensures x.key in AsMap(xs) && AsMap(xs)[x.key] == x
      {
        if x != last {
          assert x in shorter;
          var i :| 0 <= i < |shorter| && shorter[i] == x;
          assert xs[i].key < last.key;
        }
      }
    }
  }

  lemma ListsAsMap<T(!new)>(xs: seq<Keyed<T>>, m: map<real, Keyed<T>>)
    requires Lists(xs, m)
    ensures AsMap(xs) == m
  {
    AscendingLists(xs);
    hide AsMap, Ascending;
    forall k | k in m
      ensures k in AsMap(xs) && AsMap(xs)[k] == m[k]
    {
      assert m[k] in xs;
    }
    forall k | k in AsMap(xs)
      ensures k in m
    {
      assert AsMap(xs)[k] in xs;
    }
  }

  /** Ascending lists with the same entries are the same. */
  lemma {:induction false} SameEntries<T(!new)>(a: seq<Keyed<T>>, b: seq<Keyed<T>>)
    requires Ascending(a) && Ascending(b) && forall x :: x in a <==> x in b
    ensures a == b
    decreases |a|
  {
    hide Ascending;
    assert (b != [] ==> b[0] in b) && (a != [] ==> a[0] in a);
    if a != [] {
      var lastA, lastB := a[|a| - 1], b[|b| - 1];
      assert lastA in b && lastB in a;
      LastIsGreatest(a, lastB);
      LastIsGreatest(b, lastA);
      ButLast(a);
      ButLast(b);
      var shortA, shortB := a[..|a| - 1], b[..|b| - 1];
      forall x
        ensures x in shortA <==> x in shortB
      {
        assert x in shortA <==> x in a && x != lastA;
        assert x in shortB <==> x in b && x != lastB;
      }
      SameEntries(shortA, shortB);
      assert a == a[..|a| - 1] + [lastA] && b == b[..|b| - 1] + [lastB];
    }
  }

  lemma LastIsGreatest<T(!new)>(a: seq<Keyed<T>>, x: Keyed<T>)
    requires Ascending(a) && x in a
    ensures x.key <= a[|a| - 1].key && (x.key == a[|a| - 1].key ==> x == a[|a| - 1])
  {
    var i :| 0 <= i < |a| && a[i] == x;
  }

  lemma ButLast<T(!new)>(a: seq<Keyed<T>>)
    requires Ascending(a) && a != []
    ensures Ascending(a[..|a| - 1])
    ensures forall x :: x in a[..|a| - 1] <==> x in a && x != a[|a| - 1]
  {
    assert a == a[..|a| - 1] + [a[|a| - 1]];
    var shorter := a[..|a| - 1];
    forall x | x in shorter
      ensures x != a[|a| - 1]
    {
      var i :| 0 <= i < |shorter| && shorter[i] == x;
      assert a[i].key < a[|a| - 1].key;
    }
  }

  /** A map has one ascending list. */
  lemma ListIsUnique<T(!new)>(a: seq<Keyed<T>>, b: seq<Keyed<T>>, m: map<real, Keyed<T>>)
    requires Lists(a, m) && Lists(b, m)
    ensures a == b
  {
    hide Ascending;
    SameEntries(a, b);
  }

  // ---- Sorting the values of a map

  function InsertKeyed<T>(xs: seq<Keyed<T>>, x: Keyed<T>): seq<Keyed<T>> {
    if xs == [] || xs[|xs| - 1].key < x.key then xs + [x]
    else InsertKeyed(xs[..|xs| - 1], x) + [xs[|xs| - 1]]
  }

  lemma {:induction false} InsertAscends<T(!new)>(xs: seq<Keyed<T>>, x: Keyed<T>)
    requires Ascending(xs) && forall i :: 0 <= i < |xs| ==> xs[i].key != x.key
    ensures Ascending(InsertKeyed(xs, x)) && forall y :: y in InsertKeyed(xs, x) <==> y == x || y in xs
    decreases |xs|
  {
    if xs != [] && xs[|xs| - 1].key > x.key {
      var shorter, last := xs[..|xs| - 1], xs[|xs| - 1];
      InsertAscends(shorter, x);
      assert xs == shorter + [last];
      var inner := InsertKeyed(shorter, x);
      forall i | 0 <= i < |inner|
        ensures inner[i].key < last.key
      {
        assert inner[i] in inner;
      }
    }
  }

  lemma InsertLists<T(!new)>(xs: seq<Keyed<T>>, x: Keyed<T>, m: map<real, Keyed<T>>)
    requires Lists(xs, m) && x.key !in m
    ensures Lists(InsertKeyed(xs, x), m[x.key := x])
  {
    forall i | 0 <= i < |xs|
      ensures xs[i].key != x.key
    {
      assert xs[i] in xs;
    }
    InsertAscends(xs, x);
    hide Ascending;
  }

  /** The values of a map in ascending order, whatever the order they are visited in. */
  method SortedValues<T(!new)>(m: map<real, Keyed<T>>) returns (xs: seq<Keyed<T>>)
    requires SelfKeyed(m)
    ensures Lists(xs, m)
  {
    hide InsertKeyed, Ascending;
    xs := [];
    var todo := m.Keys;
    assert Ascending(xs) by { NothingAscends<T>(); }
    while todo != {}
      invariant todo <= m.Keys && Lists(xs, m - todo)
      decreases todo
    {
      SomeKey(todo);
      var k :| k in todo;
      InsertLists(xs, m[k], m - todo);
      xs := InsertKeyed(xs, m[k]);
      assert m - (todo - {k}) == (m - todo)[k := m[k]];
      todo := todo - {k};
    }
    assert m - todo == m;
  }

  lemma SomeKey(s: set<real>)
    requires s != {}
    ensures exists k :: k in s
  {
    if !exists k :: k in s {
      NoKey(s);
    }
  }

  lemma NoKey(s: set<real>)
    requires forall k: real :: k !in s
    ensures s == {}
  {
    var none: set<real> := {};
    assert forall k: real :: k in s <==> k in none;
    assert s == none;
  }

  lemma NothingAscends<T>()
    ensures Ascending<T>([])
  {
  }

  // ---- Merging

  const MAX_EVENTS: nat := 2000
  const MAX_SAMPLES: nat := 6000

  /** The newest `cap` entries. */
  function Newest<T>(xs: seq<Keyed<T>>, cap: nat): seq<Keyed<T>> {
    if |xs| > cap then xs[|xs| - cap..] else xs
  }

  /** What a merge must return: with nothing incoming the list as it is; otherwise the newest `cap` entries
      of both lists in ascending order, the incoming ones winning. */
  ghost predicate IsMerge<T(!new)>(r: seq<Keyed<T>>, current: seq<Keyed<T>>, incoming: seq<Keyed<T>>, cap: nat) {
    if incoming == [] then r == current
    else exists all :: Lists(all, AsMap(current) + AsMap(incoming)) && r == Newest(all, cap)
  }

  lemma MergeIsUnique<T(!new)>(a: seq<Keyed<T>>, b: seq<Keyed<T>>, current: seq<Keyed<T>>, incoming: seq<Keyed<T>>, cap: nat)
    requires IsMerge(a, current, incoming, cap) && IsMerge(b, current, incoming, cap)
    ensures a == b
  {
    if incoming != [] {
      var x :| Lists(x, AsMap(current) + AsMap(incoming)) && a == Newest(x, cap);
      var y :| Lists(y, AsMap(current) + AsMap(incoming)) && b == Newest(y, cap);
      ListIsUnique(x, y, AsMap(current) + AsMap(incoming));
    }
  }

  /** A merge with something incoming is ascending and within the cap. */
  lemma MergeIsAscending<T(!new)>(r: seq<Keyed<T>>, current: seq<Keyed<T>>, incoming: seq<Keyed<T>>, cap: nat)
    requires IsMerge(r, current, incoming, cap) && (incoming == [] ==> Ascending(current) && |current| <= cap)
    ensures Ascending(r) && |r| <= cap
  {
  }

  method MergeEvents<T(!new)>(current: seq<Keyed<T>>, incoming: seq<Keyed<T>>, cap: nat) returns (r: seq<Keyed<T>>)
    ensures IsMerge(r, current, incoming, cap)
  {
    if incoming == [] {
      return current;
    }
    var merged := MergeThroughMap(current, incoming);
    r := if |merged| > cap then merged[|merged| - cap..] else merged;
  }

  /** The two loops that fill the map, and the sort. */
  method MergeThroughMap<T(!new)>(current: seq<Keyed<T>>, incoming: seq<Keyed<T>>) returns (merged: seq<Keyed<T>>)
    ensures Lists(merged, AsMap(current) + AsMap(incoming))
  {
    var byKey: map<real, Keyed<T>> := map[];
    for k := 0 to |current|
      invariant byKey == AsMap(current[..k])
    {
      assert current[..k + 1][..k] == current[..k];
      byKey := byKey[current[k].key := current[k]];
    }
    assert current[..|current|] == current;
    for k := 0 to |incoming|
      invariant byKey == AsMap(current) + AsMap(incoming[..k])
    {
      assert incoming[..k + 1][..k] == incoming[..k];
      byKey := byKey[incoming[k].key := incoming[k]];
    }
    assert incoming[..|incoming|] == incoming;
    AsMapAppend(current, incoming);
    AsMapSelfKeyed(current + incoming);
    assert byKey == AsMap(current + incoming);
    merged := SortedValues(byKey);
  }

  /** The merge of samples, with its shortcut for batches newer than everything held. */
  predicate AppendsOnly<T>(current: seq<Keyed<T>>, incoming: seq<Keyed<T>>) {
    current != [] && forall k :: 0 <= k < |incoming| ==> incoming[k].key > current[|current| - 1].key
  }

  /** What merging samples returns: the shortcut appends the batch as it came. */
  ghost predicate IsSampleMerge<T(!new)>(r: seq<Keyed<T>>, current: seq<Keyed<T>>, incoming: seq<Keyed<T>>, cap: nat) {
    if incoming != [] && AppendsOnly(current, incoming) then r == Newest(current + incoming, cap) else IsMerge(r, current, incoming, cap)
  }

  method MergeSamples<T(!new)>(current: seq<Keyed<T>>, incoming: seq<Keyed<T>>, cap: nat) returns (r: seq<Keyed<T>>)
    ensures IsSampleMerge(r, current, incoming, cap)
    ensures Ascending(current) && Ascending(incoming) ==> IsMerge(r, current, incoming, cap)
  {
    if incoming == [] {
      return current;
    }
    var merged;
    hide Lists, AsMap;
    if AppendsOnly(current, incoming) {
      merged := current + incoming;
      if Ascending(current) && Ascending(incoming) {
        AppendLists(current, incoming);
      }
    } else {
      merged := MergeThroughMap(current, incoming);
    }
    hide Ascending;
    r := if |merged| > cap then merged[|merged| - cap..] else merged;
  }

  lemma AppendLists<T(!new)>(current: seq<Keyed<T>>, incoming: seq<Keyed<T>>)
    requires Ascending(current) && Ascending(incoming) && AppendsOnly(current, incoming)
    ensures Lists(current + incoming, AsMap(current) + AsMap(incoming))
  {
    AsMapAppend(current, incoming);
    AscendingLists(current + incoming);
  }

  // ---- The shortcut

  ghost predicate HasKey<T>(xs: seq<Keyed<T>>, k: real) {
    exists j :: 0 <= j < |xs| && xs[j].key == k
  }

  lemma PlaceOf<T(!new)>(xs: seq<Keyed<T>>, m: map<real, Keyed<T>>, k: real) returns (p: nat)
    requires Lists(xs, m) && k in m
    ensures p < |xs| && xs[p] == m[k] && xs[p].key == k
  {
    assert m[k] in xs;
    p :| 0 <= p < |xs| && xs[p] == m[k];
  }

  lemma {:induction false} ListExists<T(!new)>(m: map<real, Keyed<T>>) returns (xs: seq<Keyed<T>>)
    requires SelfKeyed(m)
    ensures Lists(xs, m)
    decreases |m|
  {
    if m == map[] {
      xs := [];
    } else {
      SomeKey(m.Keys);
      var k :| k in m.Keys;
      var rest := ListExists(m - {k});
      InsertLists(rest, m[k], m - {k});
      xs := InsertKeyed(rest, m[k]);
      assert m == (m - {k})[k := m[k]];
    }
  }

  /** The end of a list that stays under a cap is ascending, and every entry cut off is older than it or
      repeated in it. */
  ghost predicate KeepsNewest<T(!new)>(xs: seq<Keyed<T>>, cap: nat) {
    var kept := Newest(xs, cap);
    && Ascending(kept)
    && forall i :: 0 <= i < |xs| - |kept| ==> kept == [] || xs[i].key < kept[0].key || HasKey(kept, xs[i].key)
  }

  /** Cutting an appended list off gives the newest entries of its map exactly under that condition. */
  lemma CutIsMerge<T(!new)>(xs: seq<Keyed<T>>, cap: nat)
    ensures (exists all :: Lists(all, AsMap(xs)) && Newest(xs, cap) == Newest(all, cap)) <==> KeepsNewest(xs, cap)
  {
    AsMapSelfKeyed(xs);
    if KeepsNewest(xs, cap) {
      var all := ListExists(AsMap(xs));
      ListsAscend(all, AsMap(xs));
      hide AsMap, Lists;
      KeptIsNewest(xs, cap, all);
    }
    if all :| Lists(all, AsMap(xs)) && Newest(xs, cap) == Newest(all, cap) {
      hide AsMap;
      NewestIsKept(xs, cap, all);
    }
  }

  lemma KeptIsNewest<T(!new)>(xs: seq<Keyed<T>>, cap: nat, all: seq<Keyed<T>>)
    requires KeepsNewest(xs, cap) && Lists(all, AsMap(xs)) && Ascending(all)
    ensures Newest(xs, cap) == Newest(all, cap)
  {
    var kept := Newest(xs, cap);
    hide AsMap, Lists;
    if |xs| <= cap {
      AscendingLists(xs);
      ListIsUnique(xs, all, AsMap(xs));
    } else if cap > 0 {
      var cut := xs[..|xs| - cap];
      assert xs == cut + kept;
      AscendingLists(kept);
      AsMapAppend(cut, kept);
      KeptIsSuffix(cut, kept, all);
    }
  }

  lemma KeptIsSuffix<T(!new)>(cut: seq<Keyed<T>>, kept: seq<Keyed<T>>, all: seq<Keyed<T>>)
    requires kept != [] && Lists(kept, AsMap(kept)) && Lists(all, AsMap(cut) + AsMap(kept)) && Ascending(all) && Ascending(kept)
    requires forall i :: 0 <= i < |cut| ==> cut[i].key < kept[0].key || HasKey(kept, cut[i].key)
    ensures Newest(all, |kept|) == kept
  {
    hide AsMap, Ascending;
    var m := AsMap(cut) + AsMap(kept);
    AsMapSelfKeyed(cut);
    AsMapSelfKeyed(kept);
    assert kept[0] in kept;
    var p := PlaceOf(all, m, kept[0].key);
    var suffix := all[p..];
    SuffixAscends(all, p);
    forall x: Keyed<T>
      ensures x in suffix <==> x in all && x.key >= kept[0].key
    {
      InSuffix(all, p, x);
    }
    forall x: Keyed<T>
      ensures x in all && x.key >= kept[0].key <==> x in kept
    {
      if x in kept {
        LeastIsFirst(kept, x);
      } else if x in all && x.key >= kept[0].key {
        NotOlder(cut, kept, x.key);
      }
    }
    SameEntries(suffix, kept);
  }

  lemma NotOlder<T(!new)>(cut: seq<Keyed<T>>, kept: seq<Keyed<T>>, k: real)
    requires kept != [] && k >= kept[0].key && (k in AsMap(cut) || k in AsMap(kept))
    requires forall i :: 0 <= i < |cut| ==> cut[i].key < kept[0].key || HasKey(kept, cut[i].key)
    ensures k in AsMap(kept)
  {
    AsMapSelfKeyed(cut);
    AsMapSelfKeyed(kept);
    hide AsMap;
    if k in AsMap(cut) {
      assert AsMap(cut)[k] in cut;
      var i :| 0 <= i < |cut| && cut[i] == AsMap(cut)[k];
      assert HasKey(kept, k);
    }
  }

  lemma SuffixAscends<T(!new)>(all: seq<Keyed<T>>, p: nat)
    requires Ascending(all) && p <= |all|
    ensures Ascending(all[p..])
  {
  }

  lemma LeastIsFirst<T(!new)>(all: seq<Keyed<T>>, x: Keyed<T>)
    requires Ascending(all) && x in all
    ensures x.key >= all[0].key
  {
  }

  lemma InSuffix<T(!new)>(all: seq<Keyed<T>>, p: nat, x: Keyed<T>)
    requires Ascending(all) && p < |all|
    ensures x in all[p..] <==> x in all && x.key >= all[p].key
  {
    if x in all && x.key >= all[p].key {
      var i :| 0 <= i < |all| && all[i] == x;
      assert i >= p;
      assert all[p..][i - p] == x;
    }
  }

  lemma NewestIsKept<T(!new)>(xs: seq<Keyed<T>>, cap: nat, all: seq<Keyed<T>>)
    requires Lists(all, AsMap(xs)) && Newest(xs, cap) == Newest(all, cap)
    ensures KeepsNewest(xs, cap)
  {
    hide AsMap;
    AsMapSelfKeyed(xs);
    var kept := Newest(xs, cap);
    var q := |all| - |kept|;
    assert kept == all[q..];
    forall i | 0 <= i < |xs| - |kept| && kept != []
      ensures xs[i].key < kept[0].key || HasKey(kept, xs[i].key)
    {
      var j := PlaceOf(all, AsMap(xs), xs[i].key);
      if j < q {
        assert all[j].key < all[q].key;
      } else {
        assert kept[j - q].key == xs[i].key;
      }
    }
  }

  /** For every list held, every cap and every batch the shortcut takes, appending is the merge exactly when
      nothing newer than the kept end is cut off and that end is ascending; for a batch that fits under the
      cap, exactly when the batch itself is ascending. */
  lemma ShortcutIsMerge<T(!new)>(current: seq<Keyed<T>>, incoming: seq<Keyed<T>>, cap: nat)
    requires incoming != [] && AppendsOnly(current, incoming)
    ensures IsMerge(Newest(current + incoming, cap), current, incoming, cap) <==> KeepsNewest(current + incoming, cap)
    ensures Ascending(current) && |incoming| <= cap ==> (KeepsNewest(current + incoming, cap) <==> Ascending(incoming))
  {
    AsMapAppend(current, incoming);
    CutIsMerge(current + incoming, cap);
    if Ascending(current) && |incoming| <= cap {
      hide AsMap;
      FittingBatch(current, incoming, cap);
    }
  }

  lemma FittingBatch<T(!new)>(current: seq<Keyed<T>>, incoming: seq<Keyed<T>>, cap: nat)
    requires incoming != [] && AppendsOnly(current, incoming) && Ascending(current) && |incoming| <= cap
    ensures KeepsNewest(current + incoming, cap) <==> Ascending(incoming)
  {
    AppendedAscends(current, incoming, cap);
    if Ascending(incoming) {
      JoinAscends(current, incoming);
      AscendingKeeps(current + incoming, cap);
    }
  }

  lemma JoinAscends<T(!new)>(a: seq<Keyed<T>>, b: seq<Keyed<T>>)
    requires Ascending(a) && Ascending(b) && AppendsOnly(a, b)
    ensures Ascending(a + b)
  {
  }

  lemma AscendingKeeps<T(!new)>(xs: seq<Keyed<T>>, cap: nat)
    requires Ascending(xs)
    ensures KeepsNewest(xs, cap)
  {
    SuffixAscends(xs, |xs| - |Newest(xs, cap)|);
  }

  /** The kept end of an appended list is ascending exactly when the kept end of the batch is. */
  lemma AppendedAscends<T(!new)>(current: seq<Keyed<T>>, incoming: seq<Keyed<T>>, cap: nat)
    requires Ascending(current) && incoming != [] && AppendsOnly(current, incoming)
    ensures |Newest(current + incoming, cap)| <= cap
    ensures Ascending(Newest(current + incoming, cap)) <==> Ascending(Newest(incoming, cap))
  {
    var r, tail := Newest(current + incoming, cap), Newest(incoming, cap);
    if |incoming| >= cap {
      assert r == tail;
    } else {
      var p := |current| + |incoming| - |r|;
      assert r == current[p..] + incoming && tail == incoming;
      hide Newest;
      if Ascending(r) {
        SuffixAscends(r, |r| - |incoming|);
        assert r[|r| - |incoming|..] == incoming;
      }
      if Ascending(incoming) {
        SuffixAscends(current, p);
        if p < |current| {
          JoinAscends(current[p..], incoming);
        } else {
          assert r == incoming;
        }
      }
    }
  }

  /** A batch that is newer than everything held but not ascending: the shortcut leaves it as it came. */
  lemma ShortcutMayDiffer<T(!new)>(a: Keyed<T>, b: Keyed<T>, c: Keyed<T>, r: seq<Keyed<T>>)
    requires a.key == 1.0 && b.key == 3.0 && c.key == 2.0
    requires IsMerge(r, [a], [b, c], MAX_SAMPLES)
    ensures AppendsOnly([a], [b, c]) && Newest([a] + [b, c], MAX_SAMPLES) == [a, b, c] && r != [a, b, c]
  {
    assert [b, c][1].key < [b, c][0].key;
    assert [a] + [b, c] == [a, b, c];
    ShortcutIsMerge([a], [b, c], MAX_SAMPLES);
  }

  // ---- Flush timing does not matter

  /** Without one entry, an ascending list lists the map without its key. */
  lemma Without<T(!new)>(xs: seq<Keyed<T>>, p: nat, m: map<real, Keyed<T>>)
    requires Lists(xs, m) && p < |xs|
    ensures Lists(xs[..p] + xs[p + 1..], m - {xs[p].key})
  {
    var rest := xs[..p] + xs[p + 1..];
    StillAscending(xs, p);
    hide Ascending;
    forall x: Keyed<T>
      ensures x in rest <==> x.key in m - {xs[p].key} && (m - {xs[p].key})[x.key] == x
    {
      assert xs[p] in xs;
      assert x in rest <==> x in xs && x.key != xs[p].key;
    }
  }

  lemma StillAscending<T(!new)>(xs: seq<Keyed<T>>, p: nat)
    requires Ascending(xs) && p < |xs|
    ensures Ascending(xs[..p] + xs[p + 1..])
    ensures forall x :: x in xs[..p] + xs[p + 1..] <==> x in xs && x.key != xs[p].key
  {
    var rest := xs[..p] + xs[p + 1..];
    assert forall i :: 0 <= i < |rest| ==> rest[i] == xs[if i < p then i else i + 1];
    forall x | x in xs && x.key != xs[p].key
      ensures x in rest
    {
      var i :| 0 <= i < |xs| && xs[i] == x;
      assert rest[if i < p then i else i - 1] == x;
    }
    forall x | x in rest
      ensures x in xs && x.key != xs[p].key
    {
      var i :| 0 <= i < |rest| && rest[i] == x;
    }
  }

  /** An ascending selection of later entries is no longer than what lies behind position `p`. */
  lemma {:induction false} ManyAfter<T(!new)>(xs: seq<Keyed<T>>, p: nat, newer: seq<real>)
    requires Ascending(xs) && p < |xs|
    requires forall i, j :: 0 <= i < j < |newer| ==> newer[i] < newer[j]
    requires forall i :: 0 <= i < |newer| ==> newer[i] > xs[p].key && HasKey(xs, newer[i])
    ensures |newer| <= |xs| - 1 - p
    decreases |xs|
  {
    if newer != [] {
      var n := |newer| - 1;
      assert HasKey(xs, newer[n]);
      var top :| 0 <= top < |xs| && xs[top].key == newer[n];
      var shorter, fewer := newer[..n], xs[..|xs| - 1];
      forall i | 0 <= i < n
        ensures shorter[i] > fewer[p].key && HasKey(fewer, shorter[i])
      {
        assert HasKey(xs, newer[i]);
        var j :| 0 <= j < |xs| && xs[j].key == newer[i];
        assert xs[j].key < xs[top].key;
        assert j < top;
        assert fewer[j].key == shorter[i];
      }
      ManyAfter(fewer, p, shorter);
    }
  }

  /** Dropping an entry that has at least `cap` newer ones changes nothing that is kept. */
  lemma DropOld<T(!new)>(xs: seq<Keyed<T>>, fewer: seq<Keyed<T>>, m: map<real, Keyed<T>>, gone: real, newer: seq<real>, cap: nat)
    requires Lists(xs, m) && Lists(fewer, m - {gone}) && gone in m && |newer| >= cap
    requires forall i, j :: 0 <= i < j < |newer| ==> newer[i] < newer[j]
    requires forall i :: 0 <= i < |newer| ==> newer[i] in m && newer[i] > gone
    ensures Newest(xs, cap) == Newest(fewer, cap)
  {
    var p := PlaceOf(xs, m, gone);
    Without(xs, p, m);
    ListIsUnique(fewer, xs[..p] + xs[p + 1..], m - {gone});
    ListedKeys(xs, m, newer);
    ListsAscend(xs, m);
    ManyAfter(xs, p, newer);
    hide Lists, Ascending;
    if |xs| > cap {
      assert xs[|xs| - cap..] == fewer[|fewer| - cap..];
    }
  }

  lemma ListedKeys<T(!new)>(xs: seq<Keyed<T>>, m: map<real, Keyed<T>>, keys: seq<real>)
    requires Lists(xs, m) && forall i :: 0 <= i < |keys| ==> keys[i] in m
    ensures forall i :: 0 <= i < |keys| ==> HasKey(xs, keys[i])
  {
    forall i | 0 <= i < |keys|
      ensures HasKey(xs, keys[i])
    {
      var j := PlaceOf(xs, m, keys[i]);
    }
  }

  lemma SelfKeyedSum<T(!new)>(a: seq<Keyed<T>>, b: seq<Keyed<T>>)
    ensures SelfKeyed(AsMap(a) + AsMap(b))
  {
    AsMapSelfKeyed(a);
    AsMapSelfKeyed(b);
  }

  /** Forgetting the oldest entry of a list, as long as `cap` newer ones remain, leaves the newest entries
      of any later merge the same. */
  lemma ForgetOne<T(!new)>(xs: seq<Keyed<T>>, incoming: seq<Keyed<T>>, cap: nat, all: seq<Keyed<T>>, fewer: seq<Keyed<T>>)
    requires xs != [] && Ascending(xs) && |xs| - 1 >= cap
    requires Lists(all, AsMap(xs) + AsMap(incoming)) && Lists(fewer, AsMap(xs[1..]) + AsMap(incoming))
    ensures Newest(all, cap) == Newest(fewer, cap)
  {
    var tail, k := xs[1..], xs[0].key;
    DropFirst(xs);
    var newer := seq(|tail|, i requires 0 <= i < |tail| => tail[i].key);
    TailKeys(xs, newer);
    ForgetKey(AsMap(xs), AsMap(tail), AsMap(incoming), k, newer, cap, all, fewer);
  }

  lemma DropFirst<T(!new)>(xs: seq<Keyed<T>>)
    requires xs != [] && Ascending(xs)
    ensures AsMap(xs[1..]) == AsMap(xs) - {xs[0].key}
  {
    AscendingLists(xs);
    Without(xs, 0, AsMap(xs));
    hide AsMap, Lists;
    assert xs[..0] + xs[0 + 1..] == xs[1..];
    ListsAsMap(xs[1..], AsMap(xs) - {xs[0].key});
  }

  lemma ForgetKey<T(!new)>(held: map<real, Keyed<T>>, kept: map<real, Keyed<T>>, incoming: map<real, Keyed<T>>, k: real,
                           newer: seq<real>, cap: nat, all: seq<Keyed<T>>, fewer: seq<Keyed<T>>)
    requires k in held && kept == held - {k} && |newer| >= cap
    requires forall i, j :: 0 <= i < j < |newer| ==> newer[i] < newer[j]
    requires forall i :: 0 <= i < |newer| ==> newer[i] in held && newer[i] > k
    requires Lists(all, held + incoming) && Lists(fewer, kept + incoming)
    ensures Newest(all, cap) == Newest(fewer, cap)
  {
    hide Lists, Newest;
    if k in incoming {
      assert kept + incoming == held + incoming;
      ListIsUnique(all, fewer, held + incoming);
    } else {
      assert kept + incoming == (held + incoming) - {k};
      DropOld(all, fewer, held + incoming, k, newer, cap);
    }
  }

  lemma TailKeys<T(!new)>(xs: seq<Keyed<T>>, newer: seq<real>)
    requires xs != [] && Ascending(xs) && |newer| == |xs| - 1 && forall i :: 0 <= i < |newer| ==> newer[i] == xs[i + 1].key
    ensures forall i :: 0 <= i < |newer| ==> newer[i] in AsMap(xs) && newer[i] > xs[0].key
    ensures forall i, j :: 0 <= i < j < |newer| ==> newer[i] < newer[j]
    ensures xs[0].key in AsMap(xs)
  {
    AsMapSelfKeyed(xs);
  }

  lemma {:induction false} ForgetOldest<T(!new)>(xs: seq<Keyed<T>>, i: nat, incoming: seq<Keyed<T>>, cap: nat,
                                                 all: seq<Keyed<T>>, fewer: seq<Keyed<T>>)
    requires Ascending(xs) && i <= |xs| && (i == 0 || |xs| - i >= cap)
    requires Lists(all, AsMap(xs) + AsMap(incoming)) && Lists(fewer, AsMap(xs[i..]) + AsMap(incoming))
    ensures Newest(all, cap) == Newest(fewer, cap)
    decreases |xs|
  {
    hide Lists, AsMap, Newest;
    if i == 0 {
      assert xs[0..] == xs;
      ListIsUnique(all, fewer, AsMap(xs) + AsMap(incoming));
    } else {
      var tail := xs[1..];
      assert tail[i - 1..] == xs[i..];
      SelfKeyedSum(tail, incoming);
      var between := ListExists(AsMap(tail) + AsMap(incoming));
      ForgetOne(xs, incoming, cap, all, between);
      ForgetOldest(tail, i - 1, incoming, cap, between, fewer);
    }
  }

  /** Main result: merging two batches one after the other gives what merging them at once gives, for every
      list held and every cap. The moment at which buffered events are flushed does not matter. */
  lemma FlushTimingIsIrrelevant<T(!new)>(current: seq<Keyed<T>>, a: seq<Keyed<T>>, b: seq<Keyed<T>>, cap: nat,
                                         first: seq<Keyed<T>>, second: seq<Keyed<T>>, once: seq<Keyed<T>>)
    requires IsMerge(first, current, a, cap) && IsMerge(second, first, b, cap) && IsMerge(once, current, a + b, cap)
    ensures second == once
  {
    if a == [] {
      assert a + b == b;
      MergeIsUnique(second, once, current, b, cap);
    } else if b == [] {
      assert a + b == a;
      MergeIsUnique(first, once, current, a, cap);
    } else {
      var xs := MergeList(first, current, a, cap);
      var fewer := MergeList(second, first, b, cap);
      var all := MergeList(once, current, a + b, cap);
      hide IsMerge, Newest;
      InTwo(current, a, b, cap, xs, fewer, all);
    }
  }

  lemma InTwo<T(!new)>(current: seq<Keyed<T>>, a: seq<Keyed<T>>, b: seq<Keyed<T>>, cap: nat,
                       xs: seq<Keyed<T>>, fewer: seq<Keyed<T>>, all: seq<Keyed<T>>)
    requires Lists(xs, AsMap(current) + AsMap(a)) && Lists(fewer, AsMap(Newest(xs, cap)) + AsMap(b))
    requires Lists(all, AsMap(current) + AsMap(a + b))
    ensures Newest(all, cap) == Newest(fewer, cap)
  {
    AsMapAppend(a, b);
    ListsAsMap(xs, AsMap(current) + AsMap(a));
    ListsAscend(xs, AsMap(current) + AsMap(a));
    hide Lists, AsMap, Ascending;
    SumAssociates(AsMap(current), AsMap(a), AsMap(b));
    var i := if |xs| > cap then |xs| - cap else 0;
    assert Newest(xs, cap) == xs[i..];
    hide Newest;
    ForgetOldest(xs, i, b, cap, all, fewer);
  }

  lemma SumAssociates<T>(a: map<real, T>, b: map<real, T>, c: map<real, T>)
    ensures a + (b + c) == (a + b) + c
  {
  }

  lemma ListsAscend<T(!new)>(xs: seq<Keyed<T>>, m: map<real, Keyed<T>>)
    requires Lists(xs, m)
    ensures Ascending(xs)
  {
  }

  /** The uncapped list behind a merge. */
  lemma MergeList<T(!new)>(r: seq<Keyed<T>>, current: seq<Keyed<T>>, incoming: seq<Keyed<T>>, cap: nat) returns (all: seq<Keyed<T>>)
    requires IsMerge(r, current, incoming, cap) && incoming != []
    ensures Lists(all, AsMap(current) + AsMap(incoming)) && r == Newest(all, cap)
  {
    hide Lists, AsMap;
    all :| Lists(all, AsMap(current) + AsMap(incoming)) && r == Newest(all, cap);
  }

  /** A reconnect snapshot of entries already held changes nothing. */
  lemma SnapshotIsAbsorbed<T(!new)>(current: seq<Keyed<T>>, snapshot: seq<Keyed<T>>, cap: nat, r: seq<Keyed<T>>)
    requires Ascending(current) && |current| <= cap && (forall k :: 0 <= k < |snapshot| ==> snapshot[k] in current)
    requires IsMerge(r, current, snapshot, cap)
    ensures r == current
  {
    if snapshot != [] {
      AsMapSelfKeyed(snapshot);
      AscendingLists(current);
      forall k | k in AsMap(snapshot)
        ensures k in AsMap(current) && AsMap(current)[k] == AsMap(snapshot)[k]
      {
        assert AsMap(snapshot)[k] in snapshot;
        assert AsMap(snapshot)[k] in current;
      }
      assert AsMap(current) + AsMap(snapshot) == AsMap(current);
      var all :| Lists(all, AsMap(current) + AsMap(snapshot)) && r == Newest(all, cap);
      ListIsUnique(all, current, AsMap(current));
    }
  }

  /** Two batches that agree where they overlap may arrive in either order. */
  lemma ArrivalOrderIsIrrelevant<T(!new)>(current: seq<Keyed<T>>, a: seq<Keyed<T>>, b: seq<Keyed<T>>, cap: nat,
                                          ab: seq<Keyed<T>>, ba: seq<Keyed<T>>)
    requires IsMerge(ab, current, a + b, cap) && IsMerge(ba, current, b + a, cap)
    requires forall i, j :: 0 <= i < |a| && 0 <= j < |b| && a[i].key == b[j].key ==> a[i] == b[j]
    ensures ab == ba
  {
    AsMapAppend(a, b);
    AsMapAppend(b, a);
    AsMapSelfKeyed(a);
    AsMapSelfKeyed(b);
    forall k | k in AsMap(a) && k in AsMap(b)
      ensures AsMap(a)[k] == AsMap(b)[k]
    {
      assert AsMap(a)[k] in a && AsMap(b)[k] in b;
    }
    assert AsMap(a + b) == AsMap(b + a);
    if a + b != [] {
      var x :| Lists(x, AsMap(current) + AsMap(a + b)) && ab == Newest(x, cap);
      var y :| Lists(y, AsMap(current) + AsMap(b + a)) && ba == Newest(y, cap);
      ListIsUnique(x, y, AsMap(current) + AsMap(a + b));
    } else {
      assert a == [] && b == [];
    }
  }

  /** When merging samples leaves an ascending list. */
  lemma SampleMergeAscends<T(!new)>(r: seq<Keyed<T>>, current: seq<Keyed<T>>, incoming: seq<Keyed<T>>, cap: nat)
    requires Ascending(current) && |current| <= cap && IsSampleMerge(r, current, incoming, cap)
    ensures |r| <= cap && (Ascending(r) <==> AppendsOnly(current, incoming) ==> Ascending(Newest(incoming, cap)))
  {
    if incoming != [] && AppendsOnly(current, incoming) {
      AppendedAscends(current, incoming, cap);
    } else {
      MergeIsAscending(r, current, incoming, cap);
      assert incoming == [] ==> Newest(incoming, cap) == [];
    }
  }

  /** The store keeps the newest two thousand events and six thousand samples, and all of them while there are no more. */
  lemma StoreKeeps<T(!new)>(events: seq<Keyed<T>>, samples: seq<Keyed<T>>, moreEvents: seq<Keyed<T>>, moreSamples: seq<Keyed<T>>,
                            allEvents: seq<Keyed<T>>, allSamples: seq<Keyed<T>>, e: seq<Keyed<T>>, s: seq<Keyed<T>>)
    requires moreEvents != [] && Lists(allEvents, AsMap(events) + AsMap(moreEvents)) && IsMerge(e, events, moreEvents, MAX_EVENTS)
    requires moreSamples != [] && Lists(allSamples, AsMap(samples) + AsMap(moreSamples)) && IsMerge(s, samples, moreSamples, MAX_SAMPLES)
    ensures if |allEvents| <= 2000 then e == allEvents else |e| == 2000 && e == allEvents[|allEvents| - 2000..]
    ensures if |allSamples| <= 6000 then s == allSamples else |s| == 6000 && s == allSamples[|allSamples| - 6000..]
  {
    hide Lists, AsMap;
    var x :| Lists(x, AsMap(events) + AsMap(moreEvents)) && e == Newest(x, MAX_EVENTS);
    ListIsUnique(x, allEvents, AsMap(events) + AsMap(moreEvents));
    var y :| Lists(y, AsMap(samples) + AsMap(moreSamples)) && s == Newest(y, MAX_SAMPLES);
    ListIsUnique(y, allSamples, AsMap(samples) + AsMap(moreSamples));
  }

  // ---- The store

  /** The part of the store the merges feed. `E` and `S` are the payloads of events and samples. */
  class LiveRun<E(!new), S(!new)> {
    var generation: nat
    var events: seq<Keyed<E>>
    var samples: seq<Keyed<S>>
    var latest: Option<Keyed<S>>
    var simulationTime: real

    /** Both lists ascending and within their caps, the newest sample remembered. */
    ghost predicate Valid()
      reads this
    {
      && Ascending(events) && |events| <= MAX_EVENTS
      && Ascending(samples) && |samples| <= MAX_SAMPLES
      && (samples != [] ==> latest == Some(samples[|samples| - 1]))
    }

    constructor ()
      ensures Valid() && events == [] && samples == [] && latest.None? && simulationTime == 0.0
    {
      generation, events, samples, latest, simulationTime := 0, [], [], None, 0.0;
    }

    /** The time of the last event; zero when there is none. `time` reads the simulation time of an event. */
    static function EventTime(list: seq<Keyed<E>>, time: E -> real): real {
      if list == [] then 0.0 else time(list[|list| - 1].value)
    }

    static function Later(a: real, b: real): real { if a > b then a else b }

    static function KeyOr0(x: Option<Keyed<S>>): real { if x.Some? then x.value.key else 0.0 }

    /** One flush of buffered frames. The store stays in order unless the shortcut takes a batch whose end
        under the cap is not ascending. */
    method Ingest(moreEvents: seq<Keyed<E>>, moreSamples: seq<Keyed<S>>, time: E -> real)
      modifies this`events, this`samples, this`latest, this`simulationTime
      ensures IsMerge(events, old(events), moreEvents, MAX_EVENTS) && IsSampleMerge(samples, old(samples), moreSamples, MAX_SAMPLES)
      ensures latest == if samples != [] then Some(samples[|samples| - 1]) else old(latest)
      ensures simulationTime == Later(Later(old(simulationTime), KeyOr0(latest)), EventTime(events, time))
      ensures simulationTime >= old(simulationTime)
      ensures old(Valid()) ==> (Valid() <==> AppendsOnly(old(samples), moreSamples) ==> Ascending(Newest(moreSamples, MAX_SAMPLES)))
      ensures old(Valid()) && Ascending(moreSamples) ==> IsMerge(samples, old(samples), moreSamples, MAX_SAMPLES)
    {
      var nextSamples := MergeSamples(samples, moreSamples, MAX_SAMPLES);
      var nextLatest := if nextSamples != [] then Some(nextSamples[|nextSamples| - 1]) else latest;
      var nextEvents := MergeEvents(events, moreEvents, MAX_EVENTS);
      if Valid() {
        MergeIsAscending(nextEvents, events, moreEvents, MAX_EVENTS);
        SampleMergeAscends(nextSamples, samples, moreSamples, MAX_SAMPLES);
      }
      hide IsMerge, IsSampleMerge, Ascending, AppendsOnly, Newest;
      events, samples, latest := nextEvents, nextSamples, nextLatest;
      simulationTime := Later(Later(simulationTime, KeyOr0(nextLatest)), EventTime(nextEvents, time));
    }

    /** A snapshot replaces both lists. `latest` is the last sample as sent, which need not be the newest. */
    method ApplySnapshot(snapshotEvents: seq<Keyed<E>>, snapshotSamples: seq<Keyed<S>>, lastSimulationTime: real)
      modifies this`generation, this`events, this`samples, this`latest, this`simulationTime
      ensures IsMerge(events, [], snapshotEvents, MAX_EVENTS) && IsMerge(samples, [], snapshotSamples, MAX_SAMPLES)
      ensures latest == if snapshotSamples != [] then Some(snapshotSamples[|snapshotSamples| - 1]) else None
      ensures simulationTime == Later(KeyOr0(latest), lastSimulationTime)
      ensures generation == old(generation) + 1
      ensures Ascending(snapshotSamples) ==> Valid()
    {
      latest := if snapshotSamples != [] then Some(snapshotSamples[|snapshotSamples| - 1]) else None;
      events := MergeEvents([], snapshotEvents, MAX_EVENTS);
      samples := MergeSamples([], snapshotSamples, MAX_SAMPLES);
      MergeIsAscending(events, [], snapshotEvents, MAX_EVENTS);
      MergeIsAscending(samples, [], snapshotSamples, MAX_SAMPLES);
      simulationTime := Later(KeyOr0(latest), lastSimulationTime);
      generation := generation + 1;
      if Ascending(snapshotSamples) {
        SnapshotEnds(samples, snapshotSamples, MAX_SAMPLES);
      }
    }

    /** Whole histories fetched afterwards replace what was streamed. */
    method ReplaceHistory(newEvents: Option<seq<Keyed<E>>>, newSamples: Option<seq<Keyed<S>>>, time: E -> real)
      modifies this`generation, this`events, this`samples, this`latest, this`simulationTime
      ensures generation == old(generation) + 1 && (old(Valid()) ==> Valid())
      ensures if newEvents.Some? then IsMerge(events, [], newEvents.value, MAX_EVENTS) else events == old(events)
      ensures if newSamples.Some? then IsMerge(samples, [], newSamples.value, MAX_SAMPLES) else samples == old(samples)
      ensures latest == if samples != [] then Some(samples[|samples| - 1]) else old(latest)
      ensures simulationTime == Later(Later(old(simulationTime), KeyOr0(latest)), EventTime(events, time))
    {
      if newSamples.Some? {
        samples := MergeSamples([], newSamples.value, MAX_SAMPLES);
        MergeIsAscending(samples, [], newSamples.value, MAX_SAMPLES);
      }
      if newEvents.Some? {
        events := MergeEvents([], newEvents.value, MAX_EVENTS);
        MergeIsAscending(events, [], newEvents.value, MAX_EVENTS);
      }
      latest := if samples != [] then Some(samples[|samples| - 1]) else latest;
      simulationTime := Later(Later(simulationTime, KeyOr0(latest)), EventTime(events, time));
      generation := generation + 1;
    }

    static lemma SnapshotEnds(r: seq<Keyed<S>>, snapshot: seq<Keyed<S>>, cap: nat)
      requires Ascending(snapshot) && IsMerge(r, [], snapshot, cap) && cap > 0
      ensures r == Newest(snapshot, cap)
      ensures r != [] ==> snapshot != [] && r[|r| - 1] == snapshot[|snapshot| - 1]
    {
      if snapshot != [] {
        var all :| Lists(all, AsMap<S>([]) + AsMap(snapshot)) && r == Newest(all, cap);
        AscendingLists(snapshot);
        assert AsMap<S>([]) + AsMap(snapshot) == AsMap(snapshot);
        ListIsUnique(all, snapshot, AsMap(snapshot));
      }
    }
  }
}
