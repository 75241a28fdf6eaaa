/** K-way merge over container/heap. */
module Merger {
  import opened Format
  import opened RowOrder

  datatype HeapItem = HeapItem(event: Event, slice: nat, pos: nat)

  predicate ItemLess(a: HeapItem, b: HeapItem) {
    RowLess(a.event, b.event)
  }

  predicate ItemLeq(a: HeapItem, b: HeapItem) {
    RowLeq(a.event, b.event)
  }

  // ----- heap order -----

  function Parent(k: nat): nat {
    if k == 0 then 0 else (k - 1) / 2
  }

  /** Item k is not below its parent. */
  predicate Edge(s: seq<HeapItem>, k: nat)
    requires k < |s|
  {
    ItemLeq(s[Parent(k)], s[k])
  }

  predicate Heap(s: seq<HeapItem>, n: nat)
    requires n <= |s|
  {
    forall k: nat :: k < n ==> Edge(s, k)
  }

  /** The children of i, as far as they exist, are not below p. */
  predicate ChildrenAbove(s: seq<HeapItem>, n: nat, i: nat, p: HeapItem)
    requires n <= |s|
  {
    (2 * i + 1 < n ==> ItemLeq(p, s[2 * i + 1])) && (2 * i + 2 < n ==> ItemLeq(p, s[2 * i + 2]))
  }

  /** Heap order everywhere but on the edge above j; j's children still respect j's parent. */
  predicate HeapButUp(s: seq<HeapItem>, j: nat)
    requires j < |s|
  {
    && (forall k: nat :: k < |s| && k != j ==> Edge(s, k))
    && ChildrenAbove(s, |s|, j, s[Parent(j)])
  }

  /** Heap order everywhere but on the edges below i; i's children still respect i's parent. */
  predicate HeapButDown(s: seq<HeapItem>, n: nat, i: nat)
    requires i < n <= |s|
  {
    && (forall k: nat :: k < n && (k == 0 || Parent(k) != i) ==> Edge(s, k))
    && (i > 0 ==> ChildrenAbove(s, n, i, s[Parent(i)]))
  }

  lemma {:induction false} RootLeast(s: seq<HeapItem>, n: nat, k: nat)
    requires n <= |s| && k < n && Heap(s, n)
    ensures ItemLeq(s[0], s[k])
  {
    if k > 0 {
      RootLeast(s, n, Parent(k));
      assert Edge(s, k);
    }
  }

  function Swapped(s: seq<HeapItem>, i: nat, j: nat): seq<HeapItem>
    requires i < |s| && j < |s|
  {
    s[i := s[j]][j := s[i]]
  }

  lemma SwapMultiset(s: seq<HeapItem>, i: nat, j: nat)
    requires i < |s| && j < |s|
    ensures multiset(Swapped(s, i, j)) == multiset(s)
  {}

  lemma SwapUp(s: seq<HeapItem>, j: nat)
    requires 0 < j < |s| && HeapButUp(s, j) && ItemLess(s[j], s[Parent(j)])
    ensures HeapButUp(Swapped(s, Parent(j), j), Parent(j))
  {
    var i := Parent(j);
    var t := Swapped(s, i, j);
    assert Edge(s, i);
    forall k: nat | k < |t| && k != i ensures Edge(t, k) {
      if k != j {
        assert Edge(s, k);
        if Parent(k) == j && k > 0 { assert k == 2 * j + 1 || k == 2 * j + 2; }
      }
    }
    forall k | k == 2 * i + 1 || k == 2 * i + 2 ensures k < |t| ==> ItemLeq(t[Parent(i)], t[k]) {
      assert Parent(k) == i;
      if k < |t| && k != j { assert Edge(s, k); }
    }
  }

  lemma SwapDown(s: seq<HeapItem>, n: nat, i: nat, j: nat)
    requires i < n <= |s| && j < n && (j == 2 * i + 1 || j == 2 * i + 2)
    requires HeapButDown(s, n, i) && ItemLess(s[j], s[i]) && ChildrenAbove(s, n, i, s[j])
    ensures HeapButDown(Swapped(s, i, j), n, j)
  {
    var t := Swapped(s, i, j);
    assert Parent(j) == i;
    forall k: nat | k < n && (k == 0 || Parent(k) != j) ensures Edge(t, k) {
      if k > 0 && Parent(k) == i {
        assert k == 2 * i + 1 || k == 2 * i + 2;
      } else {
        assert Edge(s, k);
      }
    }
    forall k | k == 2 * j + 1 || k == 2 * j + 2 ensures k < n ==> ItemLeq(t[i], t[k]) {
      assert Parent(k) == j;
      if k < n { assert Edge(s, k); }
    }
  }

  lemma LeastChild(s: seq<HeapItem>, n: nat, i: nat, j: nat)
    requires 2 * i + 1 < n <= |s|
    requires j == if 2 * i + 2 < n && ItemLess(s[2 * i + 2], s[2 * i + 1]) then 2 * i + 2 else 2 * i + 1
    ensures ChildrenAbove(s, n, i, s[j])
    ensures !ItemLess(s[j], s[i]) ==> ChildrenAbove(s, n, i, s[i])
  {}

  lemma NoChildren(s: seq<HeapItem>, n: nat, i: nat)
    requires i < n <= |s| && 2 * i + 1 >= n
    ensures ChildrenAbove(s, n, i, s[i])
  {}

  lemma Pushed(s: seq<HeapItem>, x: HeapItem)
    requires Heap(s, |s|)
    ensures HeapButUp(s + [x], |s|)
  {
    var t := s + [x];
    forall k: nat | k < |s| ensures Edge(t, k) {
      assert Edge(s, k);
      assert Parent(k) <= k;
    }
  }

  lemma Shrunk(s: seq<HeapItem>, n: nat)
    requires n <= |s| && Heap(s, n)
    ensures Heap(s[..n], n)
  {
    var t := s[..n];
    forall k: nat | k < n ensures Edge(t, k) {
      assert Edge(s, k);
      assert Parent(k) <= k;
    }
  }

  /** Once i's children are not below i either, the heap is whole. */
  lemma Settled(s: seq<HeapItem>, n: nat, i: nat)
    requires i < n <= |s| && HeapButDown(s, n, i) && ChildrenAbove(s, n, i, s[i])
    ensures Heap(s, n)
  {
    forall k: nat | k < n ensures Edge(s, k) {
      if k > 0 && Parent(k) == i { assert k == 2 * i + 1 || k == 2 * i + 2; }
    }
  }

  class EventHeap {
    var items: seq<HeapItem>

    constructor ()
      ensures items == []
    {
      items := [];
    }

    /** container/heap's up */
    method Up(start: nat)
      requires start < |items| && HeapButUp(items, start)
      modifies this
      ensures |items| == old(|items|) && multiset(items) == old(multiset(items)) && Heap(items, |items|)
    {
      var j: nat := start;
      while true
        invariant j < |items| && |items| == old(|items|)
        invariant HeapButUp(items, j) && multiset(items) == old(multiset(items))
        decreases j
      {
        var i := Parent(j);
        if i == j || !ItemLess(items[j], items[i]) { break; }
        SwapUp(items, j);
        SwapMultiset(items, i, j);
        items := Swapped(items, i, j);
        j := i;
      }
      assert Edge(items, j);
    }

    /** container/heap's down on the first n items, from the root */
    method Down(n: nat)
      requires 0 < n <= |items| && HeapButDown(items, n, 0)
      modifies this
      ensures |items| == old(|items|) && multiset(items) == old(multiset(items)) && Heap(items, n)
      ensures items[n..] == old(items[n..])
    {
      hide HeapButDown, Heap, ChildrenAbove;
      var i: nat := 0;
      while true
        invariant |items| == old(|items|) && i < n
        invariant HeapButDown(items, n, i) && multiset(items) == old(multiset(items))
        invariant items[n..] == old(items[n..])
        decreases n - i
      {
        var j1 := 2 * i + 1;
        if j1 >= n {
          NoChildren(items, n, i);
          break;
        }
        var j := j1;
        var j2 := j1 + 1;
        if j2 < n && ItemLess(items[j2], items[j1]) { j := j2; }
        LeastChild(items, n, i, j);
        if !ItemLess(items[j], items[i]) { break; }
        SwapDown(items, n, i, j);
        SwapMultiset(items, i, j);
        items := Swapped(items, i, j);
        i := j;
      }
      Settled(items, n, i);
    }

    method Push(x: HeapItem)
      requires Heap(items, |items|)
      modifies this
      ensures Heap(items, |items|) && |items| == old(|items|) + 1
      ensures multiset(items) == old(multiset(items)) + multiset{x}
    {
      Pushed(items, x);
      items := items + [x];
      Up(|items| - 1);
    }

    /** Removes an item that is below no other. */
    method Pop() returns (x: HeapItem)
      requires items != [] && Heap(items, |items|)
      modifies this
      ensures Heap(items, |items|) && |items| == old(|items|) - 1
      ensures x in old(multiset(items)) && multiset(items) == old(multiset(items)) - multiset{x}
      ensures forall y :: y in old(multiset(items)) ==> ItemLeq(x, y)
    {
      hide Heap, HeapButDown, ItemLeq, Swapped;
      var n := |items| - 1;
      ghost var before := items;
      PopStart(before);
      items := Swapped(items, 0, n);
      if n > 0 { Down(n); }
      PopEnd(before, items);
      x := items[n];
      items := items[..n];
    }
  }

  lemma PopStart(s: seq<HeapItem>)
    requires s != [] && Heap(s, |s|)
    ensures var t := Swapped(s, 0, |s| - 1);
      && |t| == |s| && multiset(t) == multiset(s) && t[|s| - 1..] == [s[0]]
      && (|s| > 1 ==> HeapButDown(t, |s| - 1, 0)) && (|s| == 1 ==> Heap(t, 0))
  {
    SwapMultiset(s, 0, |s| - 1);
    RootSwapped(s);
  }

  lemma PopEnd(s: seq<HeapItem>, t: seq<HeapItem>)
    requires s != [] && Heap(s, |s|)
    requires |t| == |s| && multiset(t) == multiset(s) && t[|s| - 1..] == [s[0]] && Heap(t, |s| - 1)
    ensures var n := |s| - 1;
      && t[n] in multiset(s) && Heap(t[..n], n) && multiset(t[..n]) == multiset(s) - multiset{t[n]}
      && forall y :: y in multiset(s) ==> ItemLeq(t[n], y)
  {
    assert t[|s| - 1] == t[|s| - 1..][0];
    LastAsMultiset(t);
    Shrunk(t, |s| - 1);
    RootLeastOfAll(s);
  }

  lemma RootLeastOfAll(s: seq<HeapItem>)
    requires s != [] && Heap(s, |s|)
    ensures forall y :: y in multiset(s) ==> ItemLeq(s[0], y)
  {
    forall y | y in multiset(s) ensures ItemLeq(s[0], y) {
      var k: nat :| k < |s| && s[k] == y;
      RootLeast(s, |s|, k);
    }
  }

  lemma RootSwapped(s: seq<HeapItem>)
    requires s != [] && Heap(s, |s|)
    ensures |s| > 1 ==> HeapButDown(Swapped(s, 0, |s| - 1), |s| - 1, 0)
    ensures |s| == 1 ==> Heap(Swapped(s, 0, 0), 0)
  {
    var n := |s| - 1;
    var t := Swapped(s, 0, n);
    forall k: nat | k < n && (k == 0 || Parent(k) != 0) ensures Edge(t, k) { assert Edge(s, k); }
  }

  // ----- cursors over the sources -----

  predicate Cursors(slices: seq<seq<Event>>, cur: seq<nat>) {
    |cur| == |slices| && forall s :: 0 <= s < |slices| ==> cur[s] <= |slices[s]|
  }

  /** The next row of every source below n that has one left. */
  ghost function Heads(slices: seq<seq<Event>>, cur: seq<nat>, n: nat): set<HeapItem>
    requires Cursors(slices, cur) && n <= |slices|
  {
    set s: nat | s < n && cur[s] < |slices[s]| :: HeapItem(slices[s][cur[s]], s, cur[s])
  }

  /** The rows already taken from the sources below n. */
  ghost function Consumed(slices: seq<seq<Event>>, cur: seq<nat>, n: nat): multiset<Event>
    requires Cursors(slices, cur) && n <= |slices|
  {
    if n == 0 then multiset{} else Consumed(slices, cur, n - 1) + multiset(slices[n - 1][..cur[n - 1]])
  }

  function Remaining(slices: seq<seq<Event>>, cur: seq<nat>, n: nat): nat
    requires Cursors(slices, cur) && n <= |slices|
  {
    if n == 0 then 0 else Remaining(slices, cur, n - 1) + (|slices[n - 1]| - cur[n - 1])
  }

  function Flatten(slices: seq<seq<Event>>): seq<Event> {
    if slices == [] then [] else Flatten(slices[..|slices| - 1]) + slices[|slices| - 1]
  }

  lemma {:induction false} ConsumedFrame(slices: seq<seq<Event>>, cur: seq<nat>, cur': seq<nat>, n: nat)
    requires Cursors(slices, cur) && Cursors(slices, cur') && n <= |slices| && cur[..n] == cur'[..n]
    ensures Consumed(slices, cur, n) == Consumed(slices, cur', n)
  {
    if n > 0 {
      assert cur[..n - 1] == cur[..n][..n - 1] && cur'[..n - 1] == cur'[..n][..n - 1];
      assert cur[n - 1] == cur[..n][n - 1] == cur'[n - 1];
      ConsumedFrame(slices, cur, cur', n - 1);
    }
  }

  lemma {:induction false} AdvanceConsumed(slices: seq<seq<Event>>, cur: seq<nat>, s: nat, n: nat)
    requires Cursors(slices, cur) && s < n <= |slices| && cur[s] < |slices[s]|
    ensures Cursors(slices, cur[s := cur[s] + 1])
    ensures Consumed(slices, cur[s := cur[s] + 1], n) == Consumed(slices, cur, n) + multiset{slices[s][cur[s]]}
  {
    var cur' := cur[s := cur[s] + 1];
    if s == n - 1 {
      ConsumedFrame(slices, cur, cur', s);
      assert slices[s][..cur'[s]] == slices[s][..cur[s]] + [slices[s][cur[s]]];
    } else {
      AdvanceConsumed(slices, cur, s, n - 1);
    }
  }

  lemma {:induction false} AdvanceRemaining(slices: seq<seq<Event>>, cur: seq<nat>, s: nat, n: nat)
    requires Cursors(slices, cur) && n <= |slices| && s < |slices| && cur[s] < |slices[s]|
    ensures Cursors(slices, cur[s := cur[s] + 1])
    ensures Remaining(slices, cur[s := cur[s] + 1], n) == Remaining(slices, cur, n) - (if s < n then 1 else 0)
  {
    if n > 0 { AdvanceRemaining(slices, cur, s, n - 1); }
  }

  ghost function Head(slices: seq<seq<Event>>, s: nat, p: nat): set<HeapItem>
    requires s < |slices|
  {
    if p < |slices[s]| then {HeapItem(slices[s][p], s, p)} else {}
  }

  lemma AdvanceHeads(slices: seq<seq<Event>>, cur: seq<nat>, s: nat)
    requires Cursors(slices, cur) && s < |slices| && cur[s] < |slices[s]|
    ensures Heads(slices, cur[s := cur[s] + 1], |slices|) ==
      (Heads(slices, cur, |slices|) - Head(slices, s, cur[s])) + Head(slices, s, cur[s] + 1)
    ensures Head(slices, s, cur[s]) <= Heads(slices, cur, |slices|)
    ensures Head(slices, s, cur[s] + 1) !! Heads(slices, cur, |slices|)
  {}

  lemma {:induction false} ConsumedAll(slices: seq<seq<Event>>, cur: seq<nat>, n: nat)
    requires Cursors(slices, cur) && n <= |slices| && forall s :: 0 <= s < n ==> cur[s] == |slices[s]|
    ensures Consumed(slices, cur, n) == multiset(Flatten(slices[..n]))
  {
    if n > 0 {
      ConsumedAll(slices, cur, n - 1);
      assert slices[..n][..n - 1] == slices[..n - 1];
      assert slices[n - 1][..cur[n - 1]] == slices[n - 1];
    }
  }

  lemma {:induction false} ConsumedNone(slices: seq<seq<Event>>, cur: seq<nat>, n: nat)
    requires Cursors(slices, cur) && n <= |slices| && forall s :: 0 <= s < |slices| ==> cur[s] == 0
    ensures Consumed(slices, cur, n) == multiset{}
  {
    if n > 0 { ConsumedNone(slices, cur, n - 1); }
  }

  // ----- which source each output row came from -----

  datatype Origin = Origin(slice: nat, pos: nat)

  function CountFrom(tags: seq<Origin>, s: nat): nat {
    if tags == [] then 0 else CountFrom(tags[..|tags| - 1], s) + (if tags[|tags| - 1].slice == s then 1 else 0)
  }

  /** result interleaves the sources, taking each source's rows in that source's own order. */
  ghost predicate Interleaves(slices: seq<seq<Event>>, result: seq<Event>, tags: seq<Origin>) {
    && |tags| == |result|
    && (forall i :: 0 <= i < |tags| ==>
          && tags[i].slice < |slices| && tags[i].pos == CountFrom(tags[..i], tags[i].slice)
          && tags[i].pos < |slices[tags[i].slice]| && result[i] == slices[tags[i].slice][tags[i].pos])
  }

  ghost predicate Complete(slices: seq<seq<Event>>, tags: seq<Origin>) {
    forall s :: 0 <= s < |slices| ==> CountFrom(tags, s) == |slices[s]|
  }

  ghost predicate AllSorted(slices: seq<seq<Event>>) {
    forall s :: 0 <= s < |slices| ==> Sorted(slices[s])
  }

  /** No head of a source is below the last row written. */
  ghost predicate Frontier(slices: seq<seq<Event>>, cur: seq<nat>, result: seq<Event>)
    requires Cursors(slices, cur)
  {
    result != [] ==> forall s :: 0 <= s < |slices| && cur[s] < |slices[s]| ==>
        RowLeq(result[|result| - 1], slices[s][cur[s]])
  }

  lemma ExtendSorted(result: seq<Event>, e: Event)
    requires Sorted(result) && (result != [] ==> RowLeq(result[|result| - 1], e))
    ensures Sorted(result + [e])
  {
    forall i | 0 <= i < |result| ensures RowLeq(result[i], e) {
      if i < |result| - 1 { assert RowLeq(result[i], result[|result| - 1]); }
    }
  }

  lemma ExtendInterleaving(slices: seq<seq<Event>>, result: seq<Event>, tags: seq<Origin>, t: Origin)
    requires Interleaves(slices, result, tags)
    requires t.slice < |slices| && t.pos == CountFrom(tags, t.slice) && t.pos < |slices[t.slice]|
    ensures Interleaves(slices, result + [slices[t.slice][t.pos]], tags + [t])
    ensures forall s: nat :: CountFrom(tags + [t], s) == CountFrom(tags, s) + (if t.slice == s then 1 else 0)
  {
    var tags' := tags + [t];
    assert tags'[..|tags|] == tags;
    forall i | 0 <= i < |tags| ensures tags'[..i] == tags[..i] {}
  }

  function FirstSource(n: nat): (tags: seq<Origin>)
    ensures |tags| == n && forall i :: 0 <= i < n ==> tags[i] == Origin(0, i)
  {
    seq(n, i requires 0 <= i < n => Origin(0, i))
  }

  lemma {:induction false} CountUpto(n: nat)
    ensures CountFrom(FirstSource(n), 0) == n
  {
    if n > 0 {
      CountUpto(n - 1);
      assert FirstSource(n)[..n - 1] == FirstSource(n - 1);
    }
  }

  lemma NoSource(slices: seq<seq<Event>>)
    requires slices == []
    ensures Interleaves(slices, [], []) && Complete(slices, []) && Sorted([])
  {}

  lemma {:induction false} FlattenLonger(slices: seq<seq<Event>>, s: nat)
    requires s < |slices|
    ensures |slices[s]| <= |Flatten(slices)|
  {
    var n := |slices| - 1;
    if s < n { FlattenLonger(slices[..n], s); }
  }

  lemma AllEmpty(slices: seq<seq<Event>>)
    requires |Flatten(slices)| == 0
    ensures Interleaves(slices, [], []) && Complete(slices, []) && Sorted([])
  {
    forall s | 0 <= s < |slices| ensures |slices[s]| == 0 { FlattenLonger(slices, s); }
  }

  lemma OneSource(slices: seq<seq<Event>>)
    requires |slices| == 1
    ensures Interleaves(slices, slices[0], FirstSource(|slices[0]|)) && Complete(slices, FirstSource(|slices[0]|))
    ensures Flatten(slices) == slices[0]
  {
    var tags := FirstSource(|slices[0]|);
    forall i | 0 <= i < |tags| ensures CountFrom(tags[..i], 0) == i {
      CountUpto(i);
      assert tags[..i] == FirstSource(i);
    }
    CountUpto(|slices[0]|);
    assert slices[..0] == [] && Flatten(slices) == [] + slices[0];
  }

  method FillHeap(slices: seq<seq<Event>>, ghost cur: seq<nat>) returns (h: EventHeap)
    requires Cursors(slices, cur) && forall s :: 0 <= s < |slices| ==> cur[s] == 0
    ensures fresh(h) && Heap(h.items, |h.items|) && multiset(h.items) == multiset(Heads(slices, cur, |slices|))
  {
    h := new EventHeap();
    for i := 0 to |slices|
      invariant fresh(h) && Heap(h.items, |h.items|) && multiset(h.items) == multiset(Heads(slices, cur, i))
    {
      if |slices[i]| > 0 {
        ghost var x := HeapItem(slices[i][0], i, 0);
        assert Heads(slices, cur, i + 1) == Heads(slices, cur, i) + {x};
        assert x !in Heads(slices, cur, i);
        h.Push(HeapItem(slices[i][0], i, 0));
      } else {
        assert Heads(slices, cur, i + 1) == Heads(slices, cur, i);
      }
    }
  }

  /** What is true between two turns of the merge loop. */
  ghost predicate LoopInv(slices: seq<seq<Event>>, cur: seq<nat>, result: seq<Event>, tags: seq<Origin>) {
    && Cursors(slices, cur)
    && multiset(result) == Consumed(slices, cur, |slices|)
    && Interleaves(slices, result, tags)
    && (forall s :: 0 <= s < |slices| ==> CountFrom(tags, s) == cur[s])
    && (AllSorted(slices) ==> Sorted(result) && Frontier(slices, cur, result))
  }

  lemma LoopStep(slices: seq<seq<Event>>, cur: seq<nat>, result: seq<Event>, tags: seq<Origin>, x: HeapItem)
    requires LoopInv(slices, cur, result, tags) && x in Heads(slices, cur, |slices|)
    requires forall y :: y in Heads(slices, cur, |slices|) ==> ItemLeq(x, y)
    ensures LoopInv(slices, cur[x.slice := x.pos + 1], result + [x.event], tags + [Origin(x.slice, x.pos)])
    ensures Remaining(slices, cur[x.slice := x.pos + 1], |slices|) < Remaining(slices, cur, |slices|)
  {
    hide Consumed, Remaining, CountFrom, Heads, Frontier, Interleaves, Sorted;
    HeadIsNext(slices, cur, x);
    var s := x.slice;
    AdvanceConsumed(slices, cur, s, |slices|);
    AdvanceRemaining(slices, cur, s, |slices|);
    ExtendInterleaving(slices, result, tags, Origin(s, x.pos));
    if AllSorted(slices) { FrontierStep(slices, cur, result, x); }
  }

  lemma HeadIsNext(slices: seq<seq<Event>>, cur: seq<nat>, x: HeapItem)
    requires Cursors(slices, cur) && x in Heads(slices, cur, |slices|)
    ensures x.slice < |slices| && x.pos == cur[x.slice] < |slices[x.slice]| && x.event == slices[x.slice][x.pos]
  {}

  lemma HeapFollows(slices: seq<seq<Event>>, cur: seq<nat>, x: HeapItem)
    requires Cursors(slices, cur) && x in Heads(slices, cur, |slices|)
    ensures x.slice < |slices| && Cursors(slices, cur[x.slice := x.pos + 1])
    ensures multiset(Heads(slices, cur[x.slice := x.pos + 1], |slices|)) ==
      multiset(Heads(slices, cur, |slices|)) - multiset{x} + multiset(Head(slices, x.slice, x.pos + 1))
  {
    HeadIsNext(slices, cur, x);
    AdvanceHeads(slices, cur, x.slice);
    assert Head(slices, x.slice, x.pos) == {x};
  }

  lemma FrontierStep(slices: seq<seq<Event>>, cur: seq<nat>, result: seq<Event>, x: HeapItem)
    requires Cursors(slices, cur) && AllSorted(slices) && Sorted(result) && Frontier(slices, cur, result)
    requires x in Heads(slices, cur, |slices|) && forall y :: y in Heads(slices, cur, |slices|) ==> ItemLeq(x, y)
    ensures Cursors(slices, cur[x.slice := x.pos + 1])
    ensures Sorted(result + [x.event]) && Frontier(slices, cur[x.slice := x.pos + 1], result + [x.event])
  {
    HeadIsNext(slices, cur, x);
    var s := x.slice;
    var cur' := cur[s := x.pos + 1];
    ExtendSorted(result, x.event);
    forall t | 0 <= t < |slices| && cur'[t] < |slices[t]| ensures RowLeq(x.event, slices[t][cur'[t]]) {
      if t == s {
        assert Sorted(slices[s]);
      } else {
        assert HeapItem(slices[t][cur[t]], t, cur[t]) in Heads(slices, cur, |slices|);
      }
    }
  }

  /**
   * MergeEvents interleaves any sources, keeping each source's own order and every row exactly once;
   * the result is ordered by (KeyHash, Timestamp) when the sources are.
   */
  method MergeEvents(slices: seq<seq<Event>>) returns (result: seq<Event>, ghost tags: seq<Origin>)
    ensures multiset(result) == multiset(Flatten(slices))
    ensures Interleaves(slices, result, tags) && Complete(slices, tags)
    ensures AllSorted(slices) ==> Sorted(result)
  {
    hide Heads, Heap, LoopInv, Remaining, Interleaves, Consumed, Sorted;
    tags := [];
    if |slices| == 0 {
      NoSource(slices);
      return [], [];
    }
    if |slices| == 1 {
      OneSource(slices);
      return slices[0], FirstSource(|slices[0]|);
    }
    var total := 0;
    for i := 0 to |slices|
      invariant total == |Flatten(slices[..i])|
    {
      assert slices[..i + 1][..i] == slices[..i];
      total := total + |slices[i]|;
    }
    assert slices[..|slices|] == slices;
    if total == 0 {
      AllEmpty(slices);
      return [], [];
    }
    ghost var cur: seq<nat> := seq(|slices|, i => 0);
    LoopStart(slices, cur);
    var h := FillHeap(slices, cur);
    result := [];
    while |h.items| > 0
      invariant fresh(h) && Heap(h.items, |h.items|)
      invariant Cursors(slices, cur) && LoopInv(slices, cur, result, tags)
      invariant multiset(h.items) == multiset(Heads(slices, cur, |slices|))
      decreases Remaining(slices, cur, |slices|)
    {
      var item := h.Pop();
      HeadIsNext(slices, cur, item);
      LoopStep(slices, cur, result, tags, item);
      HeapFollows(slices, cur, item);
      result := result + [item.event];
      tags := tags + [Origin(item.slice, item.pos)];
      cur := cur[item.slice := item.pos + 1];
      var next := item.pos + 1;
      if next < |slices[item.slice]| {
        h.Push(HeapItem(slices[item.slice][next], item.slice, next));
      }
    }
    LoopEnd(slices, cur, result, tags);
  }

  lemma LoopStart(slices: seq<seq<Event>>, cur: seq<nat>)
    requires |cur| == |slices| && forall s :: 0 <= s < |slices| ==> cur[s] == 0
    ensures LoopInv(slices, cur, [], [])
  {
    ConsumedNone(slices, cur, |slices|);
  }

  lemma LoopEnd(slices: seq<seq<Event>>, cur: seq<nat>, result: seq<Event>, tags: seq<Origin>)
    requires LoopInv(slices, cur, result, tags) && multiset(Heads(slices, cur, |slices|)) == multiset{}
    ensures multiset(result) == multiset(Flatten(slices))
    ensures Interleaves(slices, result, tags) && Complete(slices, tags)
    ensures AllSorted(slices) ==> Sorted(result)
  {
    Exhausted(slices, cur);
    ConsumedAll(slices, cur, |slices|);
    assert slices[..|slices|] == slices;
  }

  lemma HeadIn(slices: seq<seq<Event>>, cur: seq<nat>, s: nat)
    requires Cursors(slices, cur) && s < |slices|
    ensures cur[s] < |slices[s]| ==> Heads(slices, cur, |slices|) != {}
  {
    if cur[s] < |slices[s]| { assert HeapItem(slices[s][cur[s]], s, cur[s]) in Heads(slices, cur, |slices|); }
  }

  lemma Exhausted(slices: seq<seq<Event>>, cur: seq<nat>)
    requires Cursors(slices, cur) && multiset(Heads(slices, cur, |slices|)) == multiset{}
    ensures forall s :: 0 <= s < |slices| ==> cur[s] == |slices[s]|
  {
    assert forall x :: x in Heads(slices, cur, |slices|) ==> x in multiset(Heads(slices, cur, |slices|));
    forall s | 0 <= s < |slices| ensures cur[s] == |slices[s]| { HeadIn(slices, cur, s); }
  }
}
