/** The binary heap of pending clears. Entries are compared by their due time only; the list is
    manipulated exactly as `heappush` and `heappop` do (sift toward the root, and sink the hole to
    a leaf before sifting back), so ties come out in the order the real heap gives. */
module HeapQueue {

  datatype Entry<+T> = Entry(at: real, item: T)

  function Parent(i: int): int { (i - 1) / 2 }

  ghost predicate IsHeap<T>(h: seq<Entry<T>>) {
    forall i {:trigger Parent(i)} :: 0 < i < |h| ==> h[Parent(i)].at <= h[i].at
  }

  /** A heap except that the entry at `pos` may be earlier than its parent. */
  ghost predicate HeapBut<T>(h: seq<Entry<T>>, pos: nat) {
    && (forall i {:trigger Parent(i)} :: 0 < i < |h| && i != pos ==> h[Parent(i)].at <= h[i].at)
    && (forall i {:trigger Parent(i)} :: 0 < i < |h| && Parent(i) == pos && pos > 0 ==> h[Parent(pos)].at <= h[i].at)
  }

  /** A heap except around `pos`, whose entry may be later than its children. */
  ghost predicate HeapAround<T>(h: seq<Entry<T>>, pos: nat) {
    && (forall i {:trigger Parent(i)} :: 0 < i < |h| && i != pos && Parent(i) != pos ==> h[Parent(i)].at <= h[i].at)
    && (forall i {:trigger Parent(i)} :: 0 < i < |h| && Parent(i) == pos && pos > 0 ==> h[Parent(pos)].at <= h[i].at)
  }

  function Swap<T>(h: seq<Entry<T>>, i: nat, j: nat): (r: seq<Entry<T>>)
    requires i < |h| && j < |h|
    ensures |r| == |h| && multiset(r) == multiset(h)
  {
    SwapKeepsEntries(h, i, j);
    h[i := h[j]][j := h[i]]
  }

  lemma SwapKeepsEntries<T>(h: seq<Entry<T>>, i: nat, j: nat)
    requires i < |h| && j < |h|
    ensures multiset(h[i := h[j]][j := h[i]]) == multiset(h)
  {
  }

  /** Move the entry at `pos` toward the root while it is earlier than its parent. */
  function SiftDown<T>(h: seq<Entry<T>>, pos: nat): (r: seq<Entry<T>>)
    requires pos < |h|
    ensures |r| == |h| && multiset(r) == multiset(h)
    decreases pos
  {
    if pos > 0 && h[pos].at < h[Parent(pos)].at
    then SiftDown(Swap(h, pos, Parent(pos)), Parent(pos))
    else h
  }

  /** The child that is due earlier, the right one on a tie. */
  function EarlierChild<T>(h: seq<Entry<T>>, pos: nat): (child: nat)
    requires 2 * pos + 1 < |h|
    ensures pos < child < |h| && Parent(child) == pos
    ensures forall i {:trigger Parent(i)} :: 0 < i < |h| && Parent(i) == pos ==> h[child].at <= h[i].at
  {
    var left := 2 * pos + 1;
    assert forall i {:trigger Parent(i)} :: 0 < i && Parent(i) == pos ==> i == left || i == left + 1;
    if left + 1 < |h| && !(h[left].at < h[left + 1].at) then left + 1 else left
  }

  /** Sink the entry at `pos` to a leaf, always below the earlier child (the right one on a tie),
      then sift it back toward the root. */
  function SiftUp<T>(h: seq<Entry<T>>, pos: nat): (r: seq<Entry<T>>)
    requires pos < |h|
    ensures |r| == |h| && multiset(r) == multiset(h)
    decreases |h| - pos
  {
    if 2 * pos + 1 >= |h| then SiftDown(h, pos)
    else
      var child := EarlierChild(h, pos);
      SiftUp(Swap(h, pos, child), child)
  }

  function Push<T>(h: seq<Entry<T>>, entry: Entry<T>): (r: seq<Entry<T>>)
    ensures |r| == |h| + 1 && multiset(r) == multiset(h) + multiset{entry}
  {
    SiftDown(h + [entry], |h|)
  }

  /** Remove the root: the last entry takes its place and is sunk. */
  function Pop<T>(h: seq<Entry<T>>): (r: seq<Entry<T>>)
    requires h != []
    ensures |r| == |h| - 1 && multiset(r) + multiset{h[0]} == multiset(h)
  {
    var last := h[|h| - 1];
    var rest := h[..|h| - 1];
    assert h == rest + [last];
    if rest == [] then []
    else
      assert rest == [rest[0]] + rest[1..];
      assert rest[0 := last] == [last] + rest[1..];
      SiftUp(rest[0 := last], 0)
  }

  lemma {:induction false} SiftDownRestores<T>(h: seq<Entry<T>>, pos: nat)
    requires pos < |h| && HeapBut(h, pos)
    ensures IsHeap(SiftDown(h, pos))
    decreases pos
  {
    if pos > 0 && h[pos].at < h[Parent(pos)].at {
      var up := Swap(h, pos, Parent(pos));
      assert HeapBut(up, Parent(pos)) by {
        forall i | 0 < i < |up| && i != Parent(pos)
          ensures up[Parent(i)].at <= up[i].at
        {
          if Parent(i) == Parent(pos) && i != pos {
            assert h[Parent(i)].at <= h[i].at;
          } else if Parent(i) == pos {
            assert h[Parent(pos)].at <= h[i].at;
          }
        }
      }
      SiftDownRestores(up, Parent(pos));
    }
  }

  /** Sinking one level moves the disturbance from `pos` to the chosen child. */
  lemma SinkOnce<T>(h: seq<Entry<T>>, pos: nat, child: nat)
    requires pos < |h| && child < |h| && HeapAround(h, pos)
    requires Parent(child) == pos && child > 0
    requires forall i {:trigger Parent(i)} :: 0 < i < |h| && Parent(i) == pos ==> h[child].at <= h[i].at
    ensures HeapAround(Swap(h, pos, child), child)
  {
    var sunk := Swap(h, pos, child);
    forall i | 0 < i < |sunk| && i != child && Parent(i) != child
      ensures sunk[Parent(i)].at <= sunk[i].at
    {
      if i == pos {
        assert h[Parent(pos)].at <= h[child].at;
      } else if Parent(i) == pos {
        assert sunk[pos] == h[child];
      } else {
        assert h[Parent(i)].at <= h[i].at;
      }
    }
    forall i | 0 < i < |sunk| && Parent(i) == child
      ensures sunk[Parent(child)].at <= sunk[i].at
    {
      assert h[Parent(i)].at <= h[i].at;
    }
  }

  lemma {:induction false} SiftUpRestores<T>(h: seq<Entry<T>>, pos: nat)
    requires pos < |h| && HeapAround(h, pos)
    ensures IsHeap(SiftUp(h, pos))
    decreases |h| - pos
  {
    if 2 * pos + 1 >= |h| {
      SiftDownRestores(h, pos);
    } else {
      var child := EarlierChild(h, pos);
      SinkOnce(h, pos, child);
      SiftUpRestores(Swap(h, pos, child), child);
    }
  }

  lemma PushKeepsHeap<T>(h: seq<Entry<T>>, entry: Entry<T>)
    requires IsHeap(h)
    ensures IsHeap(Push(h, entry))
  {
    SiftDownRestores(h + [entry], |h|);
  }

  lemma PopKeepsHeap<T>(h: seq<Entry<T>>)
    requires h != [] && IsHeap(h)
    ensures IsHeap(Pop(h))
  {
    var rest := h[..|h| - 1];
    if rest != [] {
      SiftUpRestores(rest[0 := h[|h| - 1]], 0);
    }
  }

  /** The root is due no later than any entry. */
  lemma {:induction false} RootIsEarliest<T>(h: seq<Entry<T>>, i: nat)
    requires i < |h| && IsHeap(h)
    ensures h[0].at <= h[i].at
    decreases i
  {
    if i > 0 {
      RootIsEarliest(h, Parent(i));
    }
  }

  /** Ties need not come out in the order they went in: of two entries due together the later one is next here. */
  lemma TiesMaySwap(first: string, a: string, b: string, last: string)
    ensures var h := [Entry(1.0, first), Entry(2.0, a), Entry(2.0, b), Entry(3.0, last)];
            IsHeap(h) && Pop(h) == [Entry(2.0, b), Entry(2.0, a), Entry(3.0, last)]
  {
    hide SiftUp, SiftDown, Swap, EarlierChild;
    var h := [Entry(1.0, first), Entry(2.0, a), Entry(2.0, b), Entry(3.0, last)];
    var hole := [Entry(3.0, last), Entry(2.0, a), Entry(2.0, b)];
    assert h[..3][0 := h[3]] == hole;
    SinksToTheRight(Entry(3.0, last), Entry(2.0, a), Entry(2.0, b));
  }

  lemma SinksToTheRight(x: Entry<string>, a: Entry<string>, b: Entry<string>)
    requires a.at == b.at < x.at
    ensures SiftUp([x, a, b], 0) == [b, a, x]
  {
    var hole, sunk := [x, a, b], [b, a, x];
    assert EarlierChild(hole, 0) == 2;
    assert Swap(hole, 0, 2) == sunk;
    assert SiftUp(sunk, 2) == SiftDown(sunk, 2);
    assert SiftDown(sunk, 2) == sunk;
  }
}
