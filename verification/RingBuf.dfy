/** The single-producer single-consumer ring: its code run by one thread, and its steps interleaved by several. */
module RingBufs {
  import opened Bytes
  import opened Format
  import opened Arithmetic

  // ----- capacity -----

  /** Doubling p in Go's 64-bit int, k times from 1. */
  function Doubled(k: nat): int64 {
    if k == 0 then 1 else ToInt64((2 * Doubled(k - 1)) % TWO64)
  }

  lemma {:induction false} DoubledValue(k: nat)
    ensures k <= 62 ==> Doubled(k) == Pow2(k) && Pow2(k) <= 0x4000_0000_0000_0000
    ensures k == 63 ==> Doubled(k) == -0x8000_0000_0000_0000
    ensures k > 63 ==> Doubled(k) == 0
  {
    if k == 0 {
      SmallPow2(k);
    } else {
      DoubledValue(k - 1);
      DoubleOnce(Doubled(k - 1));
      if k <= 62 {
        SmallPow2(k - 1);
        SmallPow2(k);
      } else if k == 63 {
        SmallPow2(k - 1);
      }
    }
  }

  lemma DoubleOnce(x: int64)
    ensures 0 < x <= 0x2000_0000_0000_0000 ==> ToInt64((2 * x) % TWO64) == 2 * x
    ensures x == 0x4000_0000_0000_0000 ==> ToInt64((2 * x) % TWO64) == -0x8000_0000_0000_0000
    ensures x == 0 || x == -0x8000_0000_0000_0000 ==> ToInt64((2 * x) % TWO64) == 0
  {}

  lemma SmallPow2(k: nat)
    requires k <= 62
    ensures Pow2(k) <= 0x4000_0000_0000_0000 && (k == 62 ==> Pow2(k) == 0x4000_0000_0000_0000)
    ensures k < 62 ==> Pow2(k) <= 0x2000_0000_0000_0000
  {
    Pow2At62();
    Pow2Monotone(k, 62);
    assert Pow2(62) == 2 * Pow2(61);
    if k < 62 { Pow2Monotone(k, 61); }
  }

  lemma Pow2At62()
    ensures Pow2(62) == 0x4000_0000_0000_0000
  {
    assert Pow2(16) == 0x1_0000;
    Pow2Add(16, 16);
    Pow2Add(32, 16);
    assert Pow2(14) == 0x4000;
    Pow2Add(48, 14);
  }

  /** The loop of nextPow2 reaches its exit for some number of doublings exactly when n is at most 2^62. */
  lemma NextPow2Terminates(n: int64)
    requires n > 1
    ensures (exists k :: Doubled(k) >= n) <==> n <= 0x4000_0000_0000_0000
  {
    var top: nat := 62;
    DoubledValue(top);
    SmallPow2(top);
    forall k: nat ensures Doubled(k) <= 0x4000_0000_0000_0000 { DoubledValue(k); }
  }

  ghost predicate IsPow2(p: int) {
    exists k: nat :: k <= 62 && p == Pow2(k)
  }

  /** The least power of two not below n. */
  method NextPow2(n: int64) returns (p: int64)
    requires n <= 0x4000_0000_0000_0000
    ensures IsPow2(p) && n <= p && (p == 1 || p / 2 < n)
  {
    if n <= 1 {
      assert Pow2(0) == 1;
      return 1;
    }
    p := 1;
    ghost var k: nat := 0;
    while p < n
      invariant k <= 62 && p == Pow2(k) && (p == 1 || p / 2 < n)
      decreases n - p
    {
      SmallPow2(k);
      p, k := p * 2, k + 1;
    }
  }

  // ----- the code run by one thread -----

  /** The slots hold these contents, the oldest being the first-th event ever pushed. */
  ghost predicate Holds(slots: seq<Event>, first: nat, contents: seq<Event>)
  {
    && 0 < |slots| && |contents| <= |slots|
    && forall k :: 0 <= k < |contents| ==> slots[Wrap(first + k, |slots|)] == contents[k]
  }

  /** The slot of the n-th event ever pushed. */
  function Wrap(n: nat, cap: nat): (i: nat)
    requires cap > 0
    ensures i < cap
  {
    n % cap
  }

  lemma CapacityBound(cap: int)
    requires IsPow2(cap)
    ensures 0 < cap <= 0x4000_0000_0000_0000
  {
    var k: nat :| k <= 62 && cap == Pow2(k);
    SmallPow2(k);
  }

  class RingBuf {
    const buf: array<Event>
    var head: uint64
    var tail: uint64
    ghost var first: nat         // events ever popped
    ghost var contents: seq<Event>

    ghost predicate Valid()
      reads this, buf
    {
      && IsPow2(buf.Length)
      && tail == first % TWO64 && head == (first + |contents|) % TWO64
      && Holds(buf[..], first, contents)
    }

    constructor (capacity: int64)
      requires capacity <= 0x4000_0000_0000_0000
      ensures Valid() && contents == [] && fresh(buf) && buf.Length >= capacity
    {
      var size := NextPow2(capacity);
      buf := new Event[size](_ => Event(0, 0, []));
      head, tail, first, contents := 0, 0, 0, [];
    }

    /** Push by the only thread: it succeeds unless the ring is full, and then only cancellation ends it. */
    method Push(e: Event) returns (ok: bool)
      requires Valid()
      modifies this, buf
      ensures Valid() && ok == (|old(contents)| < buf.Length)
      ensures contents == if ok then old(contents) + [e] else old(contents)
    {
      hide Holds, IsPow2, Wrap, And;
      var h, t := head, tail;
      RingBounds(buf[..], first, contents);
      if (h - t) % TWO64 < buf.Length {
        SlotIndex(first + |contents|, buf.Length);
        var i := And(h, buf.Length - 1);
        HoldsPush(buf[..], first, contents, e);
        ghost var before := buf[..];
        buf[i] := e;
        assert buf[..] == before[i := e];
        Successor(first + |contents|);
        contents := contents + [e];
        head := (h + 1) % TWO64;
        return true;
      }
      return false;
    }

    method Pop() returns (e: Event, ok: bool)
      requires Valid()
      modifies this
      ensures Valid() && ok == (old(contents) != [])
      ensures ok ==> [e] + contents == old(contents)
      ensures !ok ==> contents == []
    {
      hide Holds, IsPow2, Wrap, And;
      var h, t := head, tail;
      RingBounds(buf[..], first, contents);
      if t == h { return Event(0, 0, []), false; }
      SlotIndex(first, buf.Length);
      e := buf[And(t, buf.Length - 1)];
      HoldsPop(buf[..], first, contents);
      Successor(first);
      first, contents := first + 1, contents[1..];
      tail := (t + 1) % TWO64;
      ok := true;
    }

    /** All events, oldest first. */
    method DrainAll() returns (out: seq<Event>)
      requires Valid()
      modifies this
      ensures Valid() && contents == [] && out == old(contents)
    {
      out := [];
      while true
        invariant Valid() && out + contents == old(contents)
        decreases |contents|
      {
        ghost var before := contents;
        var e, ok := Pop();
        if !ok { break; }
        assert out + before == out + [e] + contents;
        out := out + [e];
      }
    }

    method Len() returns (n: int)
      requires Valid()
      ensures n == |contents|
    {
      RingBounds(buf[..], first, contents);
      n := (head - tail) % TWO64;
    }
  }

  /** head - tail in uint64 arithmetic is the true distance, also after the counters wrapped. */
  lemma GapExact(h: nat, gap: nat)
    requires gap <= h && gap < TWO64
    ensures (h % TWO64 - (h - gap) % TWO64) % TWO64 == gap
    ensures h % TWO64 == (h - gap) % TWO64 <==> gap == 0
  {}

  lemma RingBounds(slots: seq<Event>, first: nat, contents: seq<Event>)
    requires IsPow2(|slots|) && Holds(slots, first, contents)
    ensures 0 < |slots| <= 0x4000_0000_0000_0000 && |contents| <= |slots|
    ensures ((first + |contents|) % TWO64 - first % TWO64) % TWO64 == |contents|
    ensures (first + |contents|) % TWO64 == first % TWO64 <==> contents == []
  {
    CapacityBound(|slots|);
    GapExact(first + |contents|, |contents|);
  }

  /** Masking the wrapped counter gives the slot of the unbounded one. */
  lemma SlotIndex(n: nat, cap: int)
    requires IsPow2(cap)
    ensures cap > 0 && And(n % TWO64, cap - 1) == Wrap(n, cap)
  {
    var k: nat :| k <= 62 && cap == Pow2(k);
    AndMask(n % TWO64, k);
    Pow2Add(k, 64 - k);
    Pow2At62();
    Pow2Add(62, 2);
    assert Pow2(2) == 4;
    ModMod(n, cap, Pow2(64 - k));
  }

  lemma HoldsPush(slots: seq<Event>, first: nat, contents: seq<Event>, e: Event)
    requires Holds(slots, first, contents) && |contents| < |slots|
    ensures Holds(slots[Wrap(first + |contents|, |slots|) := e], first, contents + [e])
  {
    var n := |contents|;
    var slots' := slots[Wrap(first + n, |slots|) := e];
    forall k | 0 <= k < n
      ensures slots'[Wrap(first + k, |slots|)] == contents[k]
    {
      ModDistinct(first + k, first + n, |slots|);
    }
    assert slots'[Wrap(first + n, |slots|)] == e;
  }

  lemma HoldsPop(slots: seq<Event>, first: nat, contents: seq<Event>)
    requires Holds(slots, first, contents) && contents != []
    ensures Holds(slots, first + 1, contents[1..]) && slots[Wrap(first, |slots|)] == contents[0]
  {
    forall k | 0 <= k < |contents| - 1 ensures slots[Wrap(first + 1 + k, |slots|)] == contents[1..][k] {
      assert first + 1 + k == first + (k + 1);
    }
    assert first + 0 == first;
  }

  // ----- interleaved atomic steps -----

  datatype Producer =
    | Idle
    | Ready(e: Event)
    | GotHead(e: Event, h: uint64)
    | GotBoth(e: Event, h: uint64, t: uint64)
    | Wrote(e: Event, h: uint64)

  datatype Consumer =
    | Waiting
    | SawHead(h: uint64)
    | SawBoth(h: uint64, t: uint64)
    | Read(t: uint64, e: Event)

  /** pushed and popped record the completed operations, in the order of their final stores. */
  datatype State = State(slots: seq<Event>, head: uint64, tail: uint64, prods: map<nat, Producer>, cons: Consumer,
                         pushed: seq<Event>, popped: seq<Event>)

  datatype Step =
    | Call(p: nat, e: Event)
    | LoadHead(p: nat)
    | LoadTail(p: nat)
    | WriteSlot(p: nat)
    | Retry(p: nat)
    | Cancel(p: nat)
    | StoreHead(p: nat)
    | PopLoadHead
    | PopLoadTail
    | PopEmpty
    | PopReadSlot
    | PopStoreTail

  function Slot(st: State, x: uint64): nat
    requires st.slots != []
  {
    And(x, |st.slots| - 1)
  }

  predicate HasRoom(st: State, h: uint64, t: uint64) {
    (h - t) % TWO64 < |st.slots|
  }

  ghost predicate Enabled(st: State, step: Step) {
    match step
    case Call(p, _) => p in st.prods && st.prods[p].Idle?
    case LoadHead(p) => p in st.prods && st.prods[p].Ready?
    case LoadTail(p) => p in st.prods && st.prods[p].GotHead?
    case WriteSlot(p) =>
      p in st.prods && st.prods[p].GotBoth? && HasRoom(st, st.prods[p].h, st.prods[p].t)
      && st.slots != [] && Slot(st, st.prods[p].h) < |st.slots|
    case Retry(p) => p in st.prods && st.prods[p].GotBoth? && !HasRoom(st, st.prods[p].h, st.prods[p].t)
    case Cancel(p) => p in st.prods && st.prods[p].GotBoth? && !HasRoom(st, st.prods[p].h, st.prods[p].t)
    case StoreHead(p) => p in st.prods && st.prods[p].Wrote?
    case PopLoadHead => st.cons.Waiting?
    case PopLoadTail => st.cons.SawHead?
    case PopEmpty => st.cons.SawBoth? && st.cons.h == st.cons.t
    case PopReadSlot => st.cons.SawBoth? && st.cons.h != st.cons.t && st.slots != [] && Slot(st, st.cons.t) < |st.slots|
    case PopStoreTail => st.cons.Read?
  }

  function Moved(st: State, p: nat, to: Producer): State {
    st.(prods := st.prods[p := to])
  }

  ghost function Next(st: State, step: Step): State
    requires Enabled(st, step)
  {
    match step
    case Call(p, e) => Moved(st, p, Ready(e))
    case LoadHead(p) => Moved(st, p, GotHead(st.prods[p].e, st.head))
    case LoadTail(p) => Moved(st, p, GotBoth(st.prods[p].e, st.prods[p].h, st.tail))
    case WriteSlot(p) =>
      var q := st.prods[p];
      Moved(st, p, Wrote(q.e, q.h)).(slots := st.slots[Slot(st, q.h) := q.e])
    case Retry(p) => Moved(st, p, Ready(st.prods[p].e))
    case Cancel(p) => Moved(st, p, Idle)
    case StoreHead(p) =>
      Moved(st, p, Idle).(head := (st.prods[p].h + 1) % TWO64, pushed := st.pushed + [st.prods[p].e])
    case PopLoadHead => st.(cons := SawHead(st.head))
    case PopLoadTail => st.(cons := SawBoth(st.cons.h, st.tail))
    case PopEmpty => st.(cons := Waiting)
    case PopReadSlot => st.(cons := Read(st.cons.t, st.slots[Slot(st, st.cons.t)]))
    case PopStoreTail => st.(cons := Waiting, tail := (st.cons.t + 1) % TWO64, popped := st.popped + [st.cons.e])
  }

  ghost predicate Init(st: State, producers: set<nat>) {
    && IsPow2(|st.slots|) && st.head == 0 && st.tail == 0
    && st.prods.Keys == producers && (forall p :: p in producers ==> st.prods[p] == Idle)
    && st.cons == Waiting && st.pushed == [] && st.popped == []
  }

  ghost predicate IsRun(states: seq<State>, steps: seq<Step>, producers: set<nat>) {
    && |states| == |steps| + 1
    && Init(states[0], producers)
    && (forall i :: 0 <= i < |steps| ==> Enabled(states[i], steps[i]) && states[i + 1] == Next(states[i], steps[i]))
  }

  /** What the ring promises: FIFO, nothing lost, duplicated or overwritten, and Len is right. */
  ghost predicate Lossless(st: State) {
    && st.popped <= st.pushed
    && |st.pushed| - |st.popped| <= |st.slots|
    && Holds(st.slots, |st.popped|, st.pushed[|st.popped|..])
    && (st.head - st.tail) % TWO64 == |st.pushed| - |st.popped|
  }

  /** Never are a slot write and a slot read of the same slot both about to happen. */
  ghost predicate RaceFree(st: State) {
    forall p :: Enabled(st, WriteSlot(p)) && Enabled(st, PopReadSlot) ==> Slot(st, st.prods[p].h) != Slot(st, st.cons.t)
  }

  /** The inductive invariant: the counters, the live slots, and what each thread may rely on. */
  ghost predicate Inv(st: State) {
    var H, T := |st.pushed|, |st.popped|;
    && IsPow2(|st.slots|)
    && T <= H <= T + |st.slots|
    && st.popped == st.pushed[..T]
    && Holds(st.slots, T, st.pushed[T..])
    && st.head == H % TWO64 && st.tail == T % TWO64
    && (forall p, q :: p in st.prods && q in st.prods ==> p == q)
    && (forall p :: p in st.prods ==> ProducerInv(st, st.prods[p]))
    && ConsumerInv(st)
  }

  ghost predicate ProducerInv(st: State, q: Producer) {
    var H, T := |st.pushed|, |st.popped|;
    match q
    case Idle => true
    case Ready(_) => true
    case GotHead(_, h) => h == H % TWO64
    case GotBoth(_, h, t) => h == H % TWO64 && GapOK(H, (h - t) % TWO64, T, |st.slots|)
    case Wrote(e, h) => h == H % TWO64 && H - T < |st.slots| && 0 < |st.slots| && st.slots[Wrap(H, |st.slots|)] == e
  }

  /** The distance computed from a stale tail is at least the true one and at most the capacity. */
  ghost predicate GapOK(H: nat, gap: int, T: nat, cap: nat) {
    0 <= gap <= H && H - gap <= T && gap <= cap
  }

  /** The consumer's view of head is between its tail and the true head. */
  ghost predicate SeenOK(st: State, h: uint64) {
    T(st) + (h - T(st)) % TWO64 <= |st.pushed|
  }

  ghost function T(st: State): nat {
    |st.popped|
  }

  ghost predicate ConsumerInv(st: State) {
    match st.cons
    case Waiting => true
    case SawHead(h) => SeenOK(st, h)
    case SawBoth(h, t) => SeenOK(st, h) && t == T(st) % TWO64
    case Read(t, e) => t == T(st) % TWO64 && T(st) < |st.pushed| && e == st.pushed[T(st)]
  }

  // ----- every step keeps the invariant -----

  lemma LoadTailKeeps(st: State, p: nat)
    requires Inv(st) && Enabled(st, LoadTail(p))
    ensures Inv(Next(st, LoadTail(p)))
  {
    hide Holds, IsPow2, And;
    CapacityBound(|st.slots|);
    GapExact(|st.pushed|, |st.pushed| - |st.popped|);
  }

  lemma WriteSlotKeeps(st: State, p: nat)
    requires Inv(st) && Enabled(st, WriteSlot(p))
    ensures Inv(Next(st, WriteSlot(p)))
  {
    hide IsPow2, And, Wrap;
    var H, T, q := |st.pushed|, |st.popped|, st.prods[p];
    CapacityBound(|st.slots|);
    SlotIndex(H, |st.slots|);
    HoldsUnder(st.slots, T, st.pushed[T..], q.e);
    assert T + |st.pushed[T..]| == H;
  }

  /** Writing the next free slot disturbs no live one. */
  lemma HoldsUnder(slots: seq<Event>, first: nat, contents: seq<Event>, e: Event)
    requires Holds(slots, first, contents) && |contents| < |slots|
    ensures Holds(slots[Wrap(first + |contents|, |slots|) := e], first, contents)
  {
    HoldsPush(slots, first, contents, e);
    var slots' := slots[Wrap(first + |contents|, |slots|) := e];
    forall k | 0 <= k < |contents|
      ensures slots'[Wrap(first + k, |slots|)] == contents[k]
    {
      assert contents[k] == (contents + [e])[k];
    }
  }

  lemma StoreHeadKeeps(st: State, p: nat)
    requires Inv(st) && Enabled(st, StoreHead(p))
    ensures Inv(Next(st, StoreHead(p)))
  {
    hide IsPow2, And, Wrap;
    var st' := Next(st, StoreHead(p));
    var H, T, e := |st.pushed|, |st.popped|, st.prods[p].e;
    Successor(H);
    assert st'.pushed[T..] == st.pushed[T..] + [e];
    assert st'.pushed[..T] == st.pushed[..T];
    var contents := st'.pushed[T..];
    forall k | 0 <= k < |contents| ensures st.slots[Wrap(T + k, |st.slots|)] == contents[k] {
      if k < H - T { assert contents[k] == st.pushed[T..][k]; }
    }
  }

  lemma PopLoadHeadKeeps(st: State)
    requires Inv(st) && Enabled(st, PopLoadHead)
    ensures Inv(Next(st, PopLoadHead))
  {
    hide Holds, IsPow2, And;
    CapacityBound(|st.slots|);
    SeenExact(|st.pushed|, |st.popped|);
  }

  lemma SeenExact(H: nat, T: nat)
    requires T <= H < T + TWO64
    ensures (H % TWO64 - T) % TWO64 == H - T
  {}

  lemma SeenGap(h: uint64, T: nat)
    ensures (h - T) % TWO64 == 0 <==> h == T % TWO64
  {}

  lemma PopReadSlotKeeps(st: State)
    requires Inv(st) && Enabled(st, PopReadSlot)
    ensures Inv(Next(st, PopReadSlot))
  {
    hide IsPow2, And, Wrap, Holds;
    var T := |st.popped|;
    SeenGap(st.cons.h, T);
    SlotIndex(T, |st.slots|);
    HoldsPop(st.slots, T, st.pushed[T..]);
  }

  lemma PopStoreTailKeeps(st: State)
    requires Inv(st) && Enabled(st, PopStoreTail)
    ensures Inv(Next(st, PopStoreTail))
  {
    hide IsPow2, And, Wrap, Holds;
    var T := |st.popped|;
    HoldsPop(st.slots, T, st.pushed[T..]);
    assert st.pushed[T..][1..] == st.pushed[T + 1..];
    Successor(T);
    assert st.pushed[..T] + [st.pushed[T]] == st.pushed[..T + 1];
  }

  lemma StepKeeps(st: State, step: Step)
    requires Inv(st) && Enabled(st, step)
    ensures Inv(Next(st, step))
  {
    hide IsPow2, And, Wrap, Holds;
    match step
    case LoadTail(p) => LoadTailKeeps(st, p);
    case WriteSlot(p) => WriteSlotKeeps(st, p);
    case StoreHead(p) => StoreHeadKeeps(st, p);
    case PopLoadHead => PopLoadHeadKeeps(st);
    case PopReadSlot => PopReadSlotKeeps(st);
    case PopStoreTail => PopStoreTailKeeps(st);
    case Call(p, _) =>
    case LoadHead(p) =>
    case Retry(p) =>
    case Cancel(p) =>
    case PopLoadTail =>
    case PopEmpty =>
  }

  lemma AtMostOne(s: set<nat>, p: nat, q: nat)
    requires |s| <= 1 && p in s && q in s
    ensures p == q
  {
    assert |s - {p}| == 0;
  }

  lemma InitInv(st: State, producers: set<nat>)
    requires Init(st, producers) && |producers| <= 1
    ensures Inv(st)
  {
    CapacityBound(|st.slots|);
    forall p, q | p in st.prods && q in st.prods ensures p == q { AtMostOne(producers, p, q); }
  }

  lemma {:induction false} InvReachable(states: seq<State>, steps: seq<Step>, producers: set<nat>, n: nat)
    requires IsRun(states, steps, producers) && |producers| <= 1 && n <= |steps|
    ensures Inv(states[n])
  {
    if n == 0 {
      InitInv(states[0], producers);
    } else {
      InvReachable(states, steps, producers, n - 1);
      StepKeeps(states[n - 1], steps[n - 1]);
    }
  }

  lemma InvLossless(st: State)
    requires Inv(st)
    ensures Lossless(st) && RaceFree(st)
  {
    var H, T := |st.pushed|, |st.popped|;
    CapacityBound(|st.slots|);
    GapExact(H, H - T);
    forall p | Enabled(st, WriteSlot(p)) && Enabled(st, PopReadSlot)
      ensures Slot(st, st.prods[p].h) != Slot(st, st.cons.t)
    {
      NoRace(st, p);
    }
  }

  lemma NoRace(st: State, p: nat)
    requires Inv(st) && Enabled(st, WriteSlot(p)) && Enabled(st, PopReadSlot)
    ensures Slot(st, st.prods[p].h) != Slot(st, st.cons.t)
  {
    hide IsPow2, And, Holds;
    var H, T := |st.pushed|, |st.popped|;
    SeenGap(st.cons.h, T);
    SlotIndex(H, |st.slots|);
    SlotIndex(T, |st.slots|);
    ModDistinct(T, H, |st.slots|);
  }

  /**
   * In every interleaving of one producer and one consumer, however often the counters wrap, every
   * state is lossless and free of slot races.
   */
  lemma SingleProducerLossless(states: seq<State>, steps: seq<Step>, producers: set<nat>, n: nat)
    requires IsRun(states, steps, producers) && |producers| <= 1 && n <= |steps|
    ensures Lossless(states[n]) && RaceFree(states[n])
  {
    InvReachable(states, steps, producers, n);
    InvLossless(states[n]);
  }

  // ----- two producers lose an event -----

  lemma Extend(states: seq<State>, steps: seq<Step>, producers: set<nat>, step: Step)
    requires IsRun(states, steps, producers) && Enabled(states[|steps|], step)
    ensures IsRun(states + [Next(states[|steps|], step)], steps + [step], producers)
  {}

  /** An idle producer takes up an event and loads both counters. */
  lemma LoadBoth(states: seq<State>, steps: seq<Step>, producers: set<nat>, p: nat, e: Event)
      returns (states': seq<State>, steps': seq<Step>)
    requires IsRun(states, steps, producers) && Enabled(states[|steps|], Call(p, e))
    ensures IsRun(states', steps', producers) && states'[0] == states[0]
    ensures var st := states[|steps|]; states'[|steps'|] == Moved(st, p, GotBoth(e, st.head, st.tail))
  {
    var st := states[|steps|];
    Extend(states, steps, producers, Call(p, e));
    states', steps' := states + [Next(st, Call(p, e))], steps + [Call(p, e)];
    var st1 := states'[|steps'|];
    Extend(states', steps', producers, LoadHead(p));
    states', steps' := states' + [Next(st1, LoadHead(p))], steps' + [LoadHead(p)];
    var st2 := states'[|steps'|];
    Extend(states', steps', producers, LoadTail(p));
    states', steps' := states' + [Next(st2, LoadTail(p))], steps' + [LoadTail(p)];
    assert states'[|steps'|].prods == st.prods[p := GotBoth(e, st.head, st.tail)];
  }

  lemma TwoSteps(states: seq<State>, steps: seq<Step>, producers: set<nat>, x: Step, y: Step)
      returns (states': seq<State>, steps': seq<Step>)
    requires IsRun(states, steps, producers) && Enabled(states[|steps|], x) && Enabled(Next(states[|steps|], x), y)
    ensures IsRun(states', steps', producers) && states'[0] == states[0]
    ensures states'[|steps'|] == Next(Next(states[|steps|], x), y)
  {
    Extend(states, steps, producers, x);
    states', steps' := states + [Next(states[|steps|], x)], steps + [x];
    Extend(states', steps', producers, y);
    states', steps' := states' + [Next(states'[|steps'|], y)], steps' + [y];
  }

  /** Two producers that both load the counters before either stores write the same slot, in a ring of any size. */
  lemma TwoProducersLose(cap: nat, producers: set<nat>, p: nat, q: nat) returns (states: seq<State>, steps: seq<Step>)
    requires IsPow2(cap) && p in producers && q in producers && p != q
    ensures IsRun(states, steps, producers) && |states[0].slots| == cap && !Lossless(states[|steps|])
  {
    hide And, IsPow2;
    var a, b := Event(1, 0, []), Event(2, 0, []);
    var s0 := State(seq(cap, _ => Event(0, 0, [])), 0, 0, map x | x in producers :: Idle, Waiting, [], []);
    SlotIndex(0, cap);
    assert IsRun([s0], [], producers);
    states, steps := LoadBoth([s0], [], producers, p, a);
    states, steps := LoadBoth(states, steps, producers, q, b);
    states, steps := TwoSteps(states, steps, producers, WriteSlot(p), WriteSlot(q));
    states, steps := TwoSteps(states, steps, producers, StoreHead(p), StoreHead(q));
    assert states[|steps|].head == 1 && |states[|steps|].pushed| == 2;
  }

  /** The ring of this capacity keeps its promise in every run. */
  ghost predicate AlwaysLossless(cap: nat, producers: set<nat>) {
    forall states: seq<State>, steps: seq<Step> ::
      IsRun(states, steps, producers) && |states[0].slots| == cap ==> Lossless(states[|steps|])
  }

  /** For each capacity, the ring keeps its promise in every run exactly when at most one goroutine pushes. */
  lemma LosslessIffSingleProducer(cap: nat, producers: set<nat>)
    requires IsPow2(cap)
    ensures AlwaysLossless(cap, producers) <==> |producers| <= 1
  {
    if |producers| <= 1 {
      forall states, steps | IsRun(states, steps, producers) ensures Lossless(states[|steps|]) {
        SingleProducerLossless(states, steps, producers, |steps|);
      }
    } else {
      var p :| p in producers;
      assert |producers - {p}| == |producers| - 1;
      var q :| q in producers - {p};
      var states, steps := TwoProducersLose(cap, producers, p, q);
    }
  }
}
