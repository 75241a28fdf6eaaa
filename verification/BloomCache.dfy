/** The LRU cache of bloom filters, bounded by the bytes of the filters it holds. */
module BloomCaches {
  import opened Bytes
  import opened Results
  import opened Keys
  import opened Storage

  /**
   * The bloom filter library, which this model leaves abstract. A filter is identified with its
   * serialised bytes: build stands for BuildBloom and Serialize, readable for DeserializeBloom
   * succeeding, test for TestHash on the deserialised filter.
   */
  datatype BloomLib = BloomLib(build: seq<uint64> -> Bytes, readable: Bytes -> bool, test: (Bytes, uint64) -> bool)
  {
    /** The one law assumed of the library: no false negatives, kept through serialisation. */
    ghost predicate Sound() {
      forall hs :: readable(build(hs)) && forall h :: h in hs ==> test(build(hs), h)
    }
  }

  datatype Entry = Entry(id: BlockID, filter: Bytes)

  function Total(order: seq<Entry>): nat {
    if order == [] then 0 else Total(order[..|order| - 1]) + |order[|order| - 1].filter|
  }

  predicate Cached(order: seq<Entry>, id: BlockID) {
    exists i :: 0 <= i < |order| && order[i].id == id
  }

  predicate DistinctIds(order: seq<Entry>) {
    forall i, j :: 0 <= i < j < |order| ==> order[i].id != order[j].id
  }

  // ----- what the operations do to the recency order, most recent first -----

  function Without(order: seq<Entry>, id: BlockID): seq<Entry> {
    if order == [] then []
    else if order[0].id == id then order[1..]
    else [order[0]] + Without(order[1..], id)
  }

  function Find(order: seq<Entry>, id: BlockID): (e: Entry)
    requires Cached(order, id)
    ensures e in order && e.id == id
  {
    if order[0].id == id then order[0]
    else
      assert exists i :: 0 <= i < |order[1..]| && order[1..][i].id == id by {
        var i :| 0 <= i < |order| && order[i].id == id;
        assert order[1..][i - 1].id == id;
      }
      Find(order[1..], id)
  }

  /** Evicting from the back until at most room bytes are left. */
  function Shrink(order: seq<Entry>, room: int): seq<Entry> {
    if order == [] || Total(order) <= room then order else Shrink(order[..|order| - 1], room)
  }

  /** Shrink keeps the longest most-recent prefix that fits. */
  lemma {:induction false} ShrinkLongest(order: seq<Entry>, room: int)
    ensures var kept := Shrink(order, room);
      && kept <= order
      && (kept != [] ==> Total(kept) <= room)
      && (forall n :: |kept| < n <= |order| ==> Total(order[..n]) > room)
  {
    if order != [] && Total(order) > room {
      var n := |order| - 1;
      ShrinkLongest(order[..n], room);
      forall m | |Shrink(order, room)| < m <= |order| ensures Total(order[..m]) > room {
        if m == |order| { assert order[..m] == order; } else { assert order[..m] == order[..n][..m]; }
      }
    }
  }

  function Loaded(order: seq<Entry>, maxMem: int, e: Entry): seq<Entry> {
    [e] + if maxMem > 0 then Shrink(order, maxMem - |e.filter|) else order
  }

  function BloomFile(files: Files, tier: Tier, id: BlockID): Option<Bytes> {
    if BloomPath(tier, id) in files then Some(files[BloomPath(tier, id)].data) else None
  }

  /** The order after Test(id) when no read fails. */
  function Tested(lib: BloomLib, order: seq<Entry>, maxMem: int, id: BlockID, file: Option<Bytes>): seq<Entry> {
    if Cached(order, id) then [Find(order, id)] + Without(order, id)
    else if file.Some? && lib.readable(file.value) then Loaded(order, maxMem, Entry(id, file.value))
    else order
  }

  /** Test's answer; None is an error. */
  function Answer(lib: BloomLib, order: seq<Entry>, id: BlockID, file: Option<Bytes>, h: uint64): Option<bool> {
    if Cached(order, id) then Some(lib.test(Find(order, id).filter, h)) else ReadAnswer(lib, file, h)
  }

  /** The answer of reading the file: absent files hold no key, unreadable ones are an error. */
  function ReadAnswer(lib: BloomLib, file: Option<Bytes>, h: uint64): Option<bool> {
    if file.None? then Some(false)
    else if lib.readable(file.value) then Some(lib.test(file.value, h))
    else None
  }

  // ----- facts about the order -----

  lemma {:induction false} TotalCons(e: Entry, order: seq<Entry>)
    ensures Total([e] + order) == |e.filter| + Total(order)
  {
    var all := [e] + order;
    if order == [] {
      assert all[..0] == [];
    } else {
      TotalCons(e, order[..|order| - 1]);
      assert all[..|all| - 1] == [e] + order[..|order| - 1];
    }
  }

  lemma TailIds(order: seq<Entry>)
    requires DistinctIds(order) && order != []
    ensures DistinctIds(order[1..]) && forall x :: x in order[1..] ==> x.id != order[0].id
    ensures forall x :: x in order <==> x == order[0] || x in order[1..]
  {
    var rest := order[1..];
    assert order == [order[0]] + rest;
    forall x | x in rest
      ensures x.id != order[0].id
    {
      var i :| 0 <= i < |rest| && rest[i] == x;
      assert order[i + 1] == x;
    }
  }

  lemma {:induction false} WithoutFacts(order: seq<Entry>, id: BlockID)
    requires DistinctIds(order)
    ensures forall e :: e in Without(order, id) <==> e in order && e.id != id
    ensures DistinctIds(Without(order, id))
  {
    if order != [] {
      TailIds(order);
      if order[0].id != id {
        WithoutFacts(order[1..], id);
        ConsDistinct(order[0], Without(order[1..], id));
      }
    }
  }

  lemma ConsDistinct(e: Entry, order: seq<Entry>)
    requires DistinctIds(order) && forall x :: x in order ==> x.id != e.id
    ensures DistinctIds([e] + order) && forall x :: x in [e] + order <==> x == e || x in order
  {}

  lemma {:induction false} WithoutTotal(order: seq<Entry>, id: BlockID)
    requires Cached(order, id)
    ensures Total(order) == Total(Without(order, id)) + |Find(order, id).filter|
  {
    var e, rest := order[0], order[1..];
    assert order == [e] + rest;
    TotalCons(e, rest);
    if e.id != id {
      CachedTail(order, id);
      WithoutTotal(rest, id);
      TotalCons(e, Without(rest, id));
    }
  }

  lemma CachedTail(order: seq<Entry>, id: BlockID)
    requires order != [] && order[0].id != id
    ensures Cached(order, id) <==> Cached(order[1..], id)
  {
    if Cached(order, id) {
      var i :| 0 <= i < |order| && order[i].id == id;
      assert order[1..][i - 1].id == id;
    }
    if Cached(order[1..], id) {
      var i :| 0 <= i < |order[1..]| && order[1..][i].id == id;
      assert order[i + 1].id == id;
    }
  }

  /** Every cached filter is the contents of its file. */
  ghost predicate Coherent(order: seq<Entry>, files: Files, tier: Tier) {
    forall e :: e in order ==> BloomFile(files, tier, e.id) == Some(e.filter)
  }

  /** Every cached filter whose file still exists is the contents of that file. */
  ghost predicate CoherentWherePresent(order: seq<Entry>, files: Files, tier: Tier) {
    forall e :: e in order && BloomFile(files, tier, e.id).Some? ==> BloomFile(files, tier, e.id) == Some(e.filter)
  }

  /** A positive memory cap is exceeded by nothing but a single filter larger than the cap. */
  predicate Bounded(order: seq<Entry>, maxMem: int) {
    maxMem > 0 ==> Total(order) <= maxMem || |order| == 1
  }

  lemma TouchedFacts(order: seq<Entry>, maxMem: int, id: BlockID)
    requires DistinctIds(order) && Bounded(order, maxMem) && Cached(order, id)
    ensures var order' := [Find(order, id)] + Without(order, id);
      && DistinctIds(order') && Bounded(order', maxMem) && Total(order') == Total(order)
      && (forall e :: e in order' <==> e in order)
  {
    WithoutFacts(order, id);
    WithoutTotal(order, id);
    WithoutLength(order, id);
    TotalCons(Find(order, id), Without(order, id));
    ConsDistinct(Find(order, id), Without(order, id));
    forall e | e in order && e.id == id ensures e == Find(order, id) {}
  }

  lemma LoadedFacts(order: seq<Entry>, maxMem: int, e: Entry)
    requires DistinctIds(order) && !Cached(order, e.id)
    ensures var order' := Loaded(order, maxMem, e);
      DistinctIds(order') && Bounded(order', maxMem) && forall x :: x in order' ==> x in order || x == e
  {
    var room := maxMem - |e.filter|;
    ShrinkLongest(order, room);
    var kept := if maxMem > 0 then Shrink(order, room) else order;
    TotalCons(e, kept);
    assert forall i :: 0 <= i < |kept| ==> kept[i] == order[i];
    ConsDistinct(e, kept);
  }

  lemma TestedFacts(lib: BloomLib, order: seq<Entry>, maxMem: int, id: BlockID, file: Option<Bytes>)
    requires DistinctIds(order) && Bounded(order, maxMem)
    ensures var order' := Tested(lib, order, maxMem, id, file);
      && DistinctIds(order') && Bounded(order', maxMem)
      && (forall e :: e in order' ==> e in order || (file == Some(e.filter) && e.id == id && lib.readable(e.filter)))
  {
    if Cached(order, id) {
      TouchedFacts(order, maxMem, id);
    } else if file.Some? && lib.readable(file.value) {
      LoadedFacts(order, maxMem, Entry(id, file.value));
    }
  }

  /** The filter a file yields. */
  function Usable(lib: BloomLib, file: Option<Bytes>): Option<Bytes> {
    if file.Some? && lib.readable(file.value) then file else None
  }

  /** What a lookup does to the recency order, said of the positions. */
  ghost predicate Recency(order: seq<Entry>, order': seq<Entry>, maxMem: int, id: BlockID, filter: Option<Bytes>) {
    if Cached(order, id) then
      exists k :: 0 <= k < |order| && order[k].id == id && order' == [order[k]] + order[..k] + order[k + 1..]
    else if filter.Some? then
      && order' != [] && order'[0] == Entry(id, filter.value) && order'[1..] <= order
      && (order'[1..] != order ==> maxMem > 0 && Total([order'[0]] + order[..|order'|]) > maxMem)
    else order' == order
  }

  /**
   * A hit moves to the front, and all others keep their places behind it. A loaded filter goes to the front, and as
   * few entries as make room for it go from the back. Nothing else changes the order.
   */
  lemma TestedRecency(lib: BloomLib, order: seq<Entry>, maxMem: int, id: BlockID, file: Option<Bytes>)
    requires DistinctIds(order)
    ensures Recency(order, Tested(lib, order, maxMem, id, file), maxMem, id, Usable(lib, file))
    ensures Cached(order, id) || Usable(lib, file).Some? ==>
      Tested(lib, order, maxMem, id, file) != [] && Tested(lib, order, maxMem, id, file)[0].id == id
  {
    hide Total, Shrink;
    if Cached(order, id) {
      var k :| 0 <= k < |order| && order[k].id == id;
      WithoutAt(order, id, k);
      assert [Find(order, id)] + Without(order, id) == [order[k]] + order[..k] + order[k + 1..];
    } else if file.Some? && lib.readable(file.value) {
      ShrinkLongest(order, maxMem - |file.value|);
      var order' := Tested(lib, order, maxMem, id, file);
      if order'[1..] != order { TotalCons(order'[0], order[..|order'|]); }
    }
  }

  lemma {:induction false} WithoutAt(order: seq<Entry>, id: BlockID, k: nat)
    requires DistinctIds(order) && k < |order| && order[k].id == id
    ensures Without(order, id) == order[..k] + order[k + 1..]
    ensures Cached(order, id) && Find(order, id) == order[k]
  {
    assert Cached(order, id);
    if k > 0 {
      assert order[0].id != id;
      CachedTail(order, id);
      WithoutAt(order[1..], id, k - 1);
      assert order[..k] == [order[0]] + order[1..][..k - 1] && order[1..][k..] == order[k + 1..];
    }
  }

  lemma {:induction false} WithoutLength(order: seq<Entry>, id: BlockID)
    ensures |Without(order, id)| == |order| - (if Cached(order, id) then 1 else 0)
  {
    if order != [] && order[0].id != id {
      WithoutLength(order[1..], id);
      CachedTail(order, id);
    }
  }

  // ----- the cache -----

  class BloomCache {
    const lib: BloomLib
    const tier: Tier
    const maxMem: int
    var usedMem: int
    var items: map<BlockID, Entry>
    var order: seq<Entry>

    /** The map and the recency list agree, and usedMem is the sum of the entry sizes. */
    ghost predicate Agree()
      reads this
    {
      && DistinctIds(order)
      && (forall id :: id in items <==> Cached(order, id))
      && (forall e :: e in order ==> e.id in items && items[e.id] == e)
      && usedMem == Total(order)
    }

    ghost predicate Valid()
      reads this
    {
      Agree() && Bounded(order, maxMem)
    }

    constructor (lib: BloomLib, tier: Tier, maxMem: int)
      ensures Valid() && order == [] && this.lib == lib && this.tier == tier && this.maxMem == maxMem
    {
      this.lib, this.tier, this.maxMem := lib, tier, maxMem;
      usedMem, items, order := 0, map[], [];
    }

    /** removeElem */
    method RemoveElem(e: Entry)
      requires Agree() && e in order
      modifies this
      ensures Agree() && order == Without(old(order), e.id)
    {
      ghost var before := order;
      WithoutFacts(order, e.id);
      assert Cached(order, e.id) && Find(order, e.id) == e;
      WithoutTotal(order, e.id);
      order := Without(order, e.id);
      items := items - {e.id};
      usedMem := usedMem - |e.filter|;
      forall id ensures id in items <==> Cached(order, id) { CachedWithout(before, e.id, id); }
    }

    /** MoveToFront */
    method Touch(id: BlockID) returns (e: Entry)
      requires Valid() && id in items
      modifies this
      ensures Valid() && e == Find(old(order), id) && order == [e] + Without(old(order), id)
    {
      e := items[id];
      assert Find(order, id) == e;
      TouchedFacts(order, maxMem, id);
      MoveToFrontCached(order, id);
      order := [e] + Without(order, id);
    }

    /** The eviction loop: drop the least recent entries until size more bytes fit. */
    method MakeRoom(size: nat)
      requires Agree()
      modifies this
      ensures Agree() && order == if maxMem > 0 then Shrink(old(order), maxMem - size) else old(order)
    {
      while maxMem > 0 && usedMem + size > maxMem && |order| > 0
        invariant Agree()
        invariant maxMem > 0 ==> Shrink(order, maxMem - size) == Shrink(old(order), maxMem - size)
        invariant maxMem <= 0 ==> order == old(order)
        decreases |order|
      {
        WithoutLast(order);
        RemoveElem(order[|order| - 1]);
      }
    }

    /** PushFront of a freshly loaded filter */
    method Add(e: Entry)
      requires Agree() && !Cached(order, e.id)
      modifies this
      ensures Agree() && order == [e] + old(order)
    {
      hide Total, DistinctIds, Cached;
      TotalCons(e, order);
      CachedCons(e, order);
      NotCached(order, e.id);
      ConsDistinct(e, order);
      order := [e] + order;
      items := items[e.id := e];
      usedMem := usedMem + |e.filter|;
    }

    /**
     * Answers as reading the file would whenever the entry is coherent. A hit or a loaded filter is the most recent
     * entry afterwards; the others keep their order, and the least recent go, one by one, until there is room.
     */
    method Test(disk: Disk, id: BlockID, keyHash: uint64) returns (r: Result<bool>)
      requires Valid() && disk.Valid()
      modifies this, disk`faults
      ensures Valid() && disk.Valid() && old(disk.faults) <= disk.faults <= old(disk.faults) + 1
      ensures disk.faults > old(disk.faults) ==> r.Err?
      ensures r.Err? && disk.faults == old(disk.faults) ==>
        Answer(lib, old(order), id, BloomFile(disk.d.files, tier, id), keyHash) == None
      ensures r.Ok? ==> var file := BloomFile(disk.d.files, tier, id);
        && Answer(lib, old(order), id, file, keyHash) == Some(r.value)
        && order == Tested(lib, old(order), maxMem, id, file)
        && Recency(old(order), order, maxMem, id, Usable(lib, file))
      ensures r.Ok? && (Cached(old(order), id) || BloomFile(disk.d.files, tier, id).Some?) ==>
        order != [] && order[0].id == id
      ensures r.Err? ==> order == old(order)
    {
      hide Agree, Bounded, Cached, Find, Without, Shrink, DistinctIds, Recency;
      AgreeDistinct();
      TestedRecency(lib, order, maxMem, id, BloomFile(disk.d.files, tier, id));
      var hit := Has(id);
      if hit {
        var e := Touch(id);
        return Ok(lib.test(e.filter, keyHash));
      }
      var data := disk.ReadFile(BloomPath(tier, id));
      if data.Err? { return Err(data.reason); }
      if data.value.None? { return Ok(false); }
      var bf := data.value.value;
      if !lib.readable(bf) { return Err("unreadable bloom filter"); }
      var e := Entry(id, bf);
      Loadable(e);
      MakeRoom(|bf|);
      Add(e);
      r := Ok(lib.test(bf, keyHash));
    }

    lemma AgreeDistinct()
      requires Agree()
      ensures DistinctIds(order)
    {}

    method Has(id: BlockID) returns (b: bool)
      requires Agree()
      ensures b == (id in items) == Cached(order, id)
    {
      b := id in items;
    }

    lemma Loadable(e: Entry)
      requires Agree() && !Cached(order, e.id)
      ensures Bounded(Loaded(order, maxMem, e), maxMem)
      ensures !Cached(if maxMem > 0 then Shrink(order, maxMem - |e.filter|) else order, e.id)
    {
      LoadedFacts(order, maxMem, e);
      ShrinkLongest(order, maxMem - |e.filter|);
    }

    method Evict(id: BlockID)
      requires Valid()
      modifies this
      ensures Valid() && order == Without(old(order), id)
    {
      WithoutLength(order, id);
      if id in items {
        assert items[id] in order by { assert Find(order, id) in order; }
        WithoutTotal(order, id);
        RemoveElem(items[id]);
      } else {
        WithoutAbsent(order, id);
      }
    }
  }

  lemma CachedWithout(order: seq<Entry>, id: BlockID, x: BlockID)
    requires DistinctIds(order)
    ensures Cached(Without(order, id), x) <==> Cached(order, x) && x != id
  {
    WithoutFacts(order, id);
    if Cached(Without(order, id), x) {
      var i :| 0 <= i < |Without(order, id)| && Without(order, id)[i].id == x;
      assert Without(order, id)[i] in order;
    }
    if Cached(order, x) && x != id { assert Find(order, x) in Without(order, id); }
  }

  lemma NotCached(order: seq<Entry>, id: BlockID)
    requires !Cached(order, id)
    ensures forall x :: x in order ==> x.id != id
  {}

  lemma MoveToFrontCached(order: seq<Entry>, id: BlockID)
    requires DistinctIds(order) && Cached(order, id)
    ensures forall x :: Cached([Find(order, id)] + Without(order, id), x) <==> Cached(order, x)
  {
    CachedCons(Find(order, id), Without(order, id));
    forall x
      ensures Cached([Find(order, id)] + Without(order, id), x) <==> Cached(order, x)
    {
      CachedWithout(order, id, x);
    }
  }

  lemma CachedCons(e: Entry, order: seq<Entry>)
    ensures forall x :: Cached([e] + order, x) <==> x == e.id || Cached(order, x)
  {
    var all := [e] + order;
    assert all[0] == e;
    forall x ensures Cached(all, x) <==> x == e.id || Cached(order, x) {
      if Cached(order, x) { var i :| 0 <= i < |order| && order[i].id == x; assert all[i + 1].id == x; }
      if x != e.id { assert all[1..] == order; CachedTail(all, x); }
    }
  }

  lemma {:induction false} WithoutLast(order: seq<Entry>)
    requires DistinctIds(order) && order != []
    ensures Without(order, order[|order| - 1].id) == order[..|order| - 1]
  {
    if |order| > 1 {
      var id := order[|order| - 1].id;
      assert order[0].id != id;
      WithoutLast(order[1..]);
      assert order[..|order| - 1] == [order[0]] + order[1..][..|order| - 2];
    }
  }

  lemma {:induction false} WithoutAbsent(order: seq<Entry>, id: BlockID)
    requires !Cached(order, id)
    ensures Without(order, id) == order
  {
    if order != [] {
      assert order[0].id != id;
      CachedTail(order, id);
      WithoutAbsent(order[1..], id);
      assert order == [order[0]] + order[1..];
    }
  }

  // ----- runs -----

  /** A lookup, or a change of one bloom file, with or without the eviction that should go with it. */
  datatype Op =
    | Lookup(id: BlockID, keyHash: uint64)
    | Change(id: BlockID, file: Option<Bytes>, evict: bool)

  datatype State = State(order: seq<Entry>, files: Files)

  function Next(lib: BloomLib, tier: Tier, maxMem: int, st: State, op: Op): State {
    match op
    case Lookup(id, _) => st.(order := Tested(lib, st.order, maxMem, id, BloomFile(st.files, tier, id)))
    case Change(id, file, evict) =>
      State(if evict then Without(st.order, id) else st.order,
            match file case None => st.files - {BloomPath(tier, id)}
                case Some(data) => st.files[BloomPath(tier, id) := File(data, true)])
  }

  ghost predicate IsRun(lib: BloomLib, tier: Tier, maxMem: int, states: seq<State>, ops: seq<Op>) {
    && |states| == |ops| + 1 && states[0].order == []
    && (forall i :: 0 <= i < |ops| ==> states[i + 1] == Next(lib, tier, maxMem, states[i], ops[i]))
  }

  lemma ShapeStep(lib: BloomLib, tier: Tier, maxMem: int, st: State, op: Op)
    requires DistinctIds(st.order) && Bounded(st.order, maxMem)
    ensures var st' := Next(lib, tier, maxMem, st, op); DistinctIds(st'.order) && Bounded(st'.order, maxMem)
  {
    match op
    case Lookup(id, _) => TestedFacts(lib, st.order, maxMem, id, BloomFile(st.files, tier, id));
    case Change(id, _, _) =>
      WithoutFacts(st.order, id);
      WithoutLength(st.order, id);
      if Cached(st.order, id) { WithoutTotal(st.order, id); } else { WithoutAbsent(st.order, id); }
  }

  lemma LookupCoherent(lib: BloomLib, tier: Tier, maxMem: int, st: State, id: BlockID, h: uint64)
    requires DistinctIds(st.order) && Bounded(st.order, maxMem)
    ensures var st' := Next(lib, tier, maxMem, st, Lookup(id, h));
      && (Coherent(st.order, st.files, tier) ==> Coherent(st'.order, st'.files, tier))
      && (CoherentWherePresent(st.order, st.files, tier) ==> CoherentWherePresent(st'.order, st'.files, tier))
  {
    TestedFacts(lib, st.order, maxMem, id, BloomFile(st.files, tier, id));
  }

  lemma ChangeCoherent(lib: BloomLib, tier: Tier, maxMem: int, st: State, id: BlockID, file: Option<Bytes>, evict: bool)
    requires DistinctIds(st.order)
    ensures var st' := Next(lib, tier, maxMem, st, Change(id, file, evict));
      && (Coherent(st.order, st.files, tier) && evict ==> Coherent(st'.order, st'.files, tier))
      && (CoherentWherePresent(st.order, st.files, tier) && (file.None? || evict) ==>
            CoherentWherePresent(st'.order, st'.files, tier))
  {
    WithoutFacts(st.order, id);
    var st' := Next(lib, tier, maxMem, st, Change(id, file, evict));
    assert forall x :: x != id ==> BloomFile(st'.files, tier, x) == BloomFile(st.files, tier, x);
    assert BloomFile(st'.files, tier, id) == file;
  }

  lemma AnswerCoherent(lib: BloomLib, order: seq<Entry>, files: Files, tier: Tier, id: BlockID, h: uint64)
    requires forall e :: e in order ==> lib.readable(e.filter)
    requires Coherent(order, files, tier) ||
        (CoherentWherePresent(order, files, tier) && BloomFile(files, tier, id).Some?)
    ensures Answer(lib, order, id, BloomFile(files, tier, id), h) == ReadAnswer(lib, BloomFile(files, tier, id), h)
  {
    if Cached(order, id) { assert Find(order, id) in order; }
  }

  lemma {:induction false} RunFacts(lib: BloomLib, tier: Tier, maxMem: int, states: seq<State>, ops: seq<Op>, n: nat)
    requires IsRun(lib, tier, maxMem, states, ops) && n <= |ops|
    ensures DistinctIds(states[n].order) && Bounded(states[n].order, maxMem)
    ensures forall e :: e in states[n].order ==> lib.readable(e.filter)
    ensures (forall i :: 0 <= i < n && ops[i].Change? ==> ops[i].evict) ==>
      Coherent(states[n].order, states[n].files, tier)
    ensures (forall i :: 0 <= i < n && ops[i].Change? && ops[i].file.Some? ==> ops[i].evict) ==>
              CoherentWherePresent(states[n].order, states[n].files, tier)
  {
    if n > 0 {
      RunFacts(lib, tier, maxMem, states, ops, n - 1);
      ShapeStep(lib, tier, maxMem, states[n - 1], ops[n - 1]);
      match ops[n - 1] {
        case Lookup(id, h) => LookupCoherent(lib, tier, maxMem, states[n - 1], id, h);
        case Change(id, file, evict) => ChangeCoherent(lib, tier, maxMem, states[n - 1], id, file, evict);
      }
      ReadableStep(lib, tier, maxMem, states[n - 1], ops[n - 1]);
    }
  }

  lemma ReadableStep(lib: BloomLib, tier: Tier, maxMem: int, st: State, op: Op)
    requires DistinctIds(st.order) && Bounded(st.order, maxMem) && forall e :: e in st.order ==> lib.readable(e.filter)
    ensures forall e :: e in Next(lib, tier, maxMem, st, op).order ==> lib.readable(e.filter)
  {
    match op
    case Lookup(id, _) => TestedFacts(lib, st.order, maxMem, id, BloomFile(st.files, tier, id));
    case Change(id, _, _) => WithoutFacts(st.order, id);
  }

  /** The last of the first n operations that looked the block up, or -1. */
  function LastLookup(ops: seq<Op>, n: nat, id: BlockID): int
    requires n <= |ops|
  {
    if n == 0 then -1
    else if ops[n - 1].Lookup? && ops[n - 1].id == id then n - 1
    else LastLookup(ops, n - 1, id)
  }

  ghost predicate ByLastLookup(order: seq<Entry>, ops: seq<Op>, n: nat)
    requires n <= |ops|
  {
    && (forall i :: 0 <= i < |order| ==> 0 <= LastLookup(ops, n, order[i].id) < n)
    && (forall i, j :: 0 <= i < j < |order| ==> LastLookup(ops, n, order[i].id) > LastLookup(ops, n, order[j].id))
  }

  /** In every run the entries are ordered by their last lookup, the latest first. */
  lemma {:induction false} OrderedByLastLookup(lib: BloomLib, tier: Tier, maxMem: int, states: seq<State>,
                                               ops: seq<Op>, n: nat)
    requires IsRun(lib, tier, maxMem, states, ops) && n <= |ops|
    ensures ByLastLookup(states[n].order, ops, n)
  {
    hide Tested, DistinctIds, Bounded, Coherent, CoherentWherePresent, Without;
    if n > 0 {
      OrderedByLastLookup(lib, tier, maxMem, states, ops, n - 1);
      RunFacts(lib, tier, maxMem, states, ops, n - 1);
      var order, op := states[n - 1].order, ops[n - 1];
      match op
      case Lookup(id, _) =>
        TestedRecency(lib, order, maxMem, id, BloomFile(states[n - 1].files, tier, id));
        LookupOrdered(order, states[n].order, maxMem, ops, n, Usable(lib, BloomFile(states[n - 1].files, tier, id)));
      case Change(id, _, evict) =>
        if evict { EvictOrdered(order, ops, n, id); }
    }
  }

  lemma CutOrdered(order: seq<Entry>, ops: seq<Op>, n: nat, k: nat)
    requires n <= |ops| && k < |order| && ByLastLookup(order, ops, n)
    ensures ByLastLookup(order[..k] + order[k + 1..], ops, n)
  {
    hide LastLookup;
    var cut := order[..k] + order[k + 1..];
    assert forall i :: 0 <= i < |cut| ==> cut[i] == if i < k then order[i] else order[i + 1];
  }

  lemma PrefixOrdered(order: seq<Entry>, order': seq<Entry>, ops: seq<Op>, n: nat)
    requires n <= |ops| && order' <= order && ByLastLookup(order, ops, n)
    ensures ByLastLookup(order', ops, n)
  {
    hide LastLookup;
    assert forall i :: 0 <= i < |order'| ==> order'[i] == order[i];
  }

  /** The next operation looks none of the entries up. */
  lemma StillOrdered(order: seq<Entry>, ops: seq<Op>, n: nat)
    requires 0 < n <= |ops| && ByLastLookup(order, ops, n - 1)
    requires ops[n - 1].Lookup? ==> forall i :: 0 <= i < |order| ==> order[i].id != ops[n - 1].id
    ensures ByLastLookup(order, ops, n)
    ensures forall i :: 0 <= i < |order| ==> LastLookup(ops, n, order[i].id) < n - 1
  {
    forall i | 0 <= i < |order| ensures LastLookup(ops, n, order[i].id) == LastLookup(ops, n - 1, order[i].id) {}
    hide LastLookup;
  }

  lemma FrontOrdered(e: Entry, order: seq<Entry>, ops: seq<Op>, n: nat)
    requires 0 < n <= |ops| && ops[n - 1].Lookup? && ops[n - 1].id == e.id && ByLastLookup(order, ops, n - 1)
    requires forall i :: 0 <= i < |order| ==> order[i].id != e.id
    ensures ByLastLookup([e] + order, ops, n)
  {
    StillOrdered(order, ops, n);
    assert LastLookup(ops, n, e.id) == n - 1;
    hide LastLookup;
  }

  lemma LookupOrdered(order: seq<Entry>, order': seq<Entry>, maxMem: int, ops: seq<Op>, n: nat, filter: Option<Bytes>)
    requires 0 < n <= |ops| && ops[n - 1].Lookup? && ByLastLookup(order, ops, n - 1) && DistinctIds(order)
    requires Recency(order, order', maxMem, ops[n - 1].id, filter)
    ensures ByLastLookup(order', ops, n)
  {
    hide Total, ByLastLookup, LastLookup;
    var id := ops[n - 1].id;
    if Cached(order, id) {
      var k :| 0 <= k < |order| && order[k].id == id && order' == [order[k]] + order[..k] + order[k + 1..];
      CutOrdered(order, ops, n - 1, k);
      FrontOrdered(order[k], order[..k] + order[k + 1..], ops, n);
      assert [order[k]] + order[..k] + order[k + 1..] == [order[k]] + (order[..k] + order[k + 1..]);
    } else if filter.Some? {
      PrefixOrdered(order, order'[1..], ops, n - 1);
      assert forall i :: 0 <= i < |order'| - 1 ==> order'[1..][i] == order[i];
      FrontOrdered(order'[0], order'[1..], ops, n);
      assert [order'[0]] + order'[1..] == order';
    } else {
      StillOrdered(order, ops, n);
    }
  }

  lemma EvictOrdered(order: seq<Entry>, ops: seq<Op>, n: nat, id: BlockID)
    requires 0 < n <= |ops| && ops[n - 1].Change? && ByLastLookup(order, ops, n - 1) && DistinctIds(order)
    ensures ByLastLookup(Without(order, id), ops, n)
  {
    hide ByLastLookup, LastLookup, Without;
    if k :| 0 <= k < |order| && order[k].id == id {
      WithoutAt(order, id, k);
      CutOrdered(order, ops, n - 1, k);
    } else {
      WithoutAbsent(order, id);
    }
    StillOrdered(Without(order, id), ops, n);
  }

  /**
   * Least recently used, over every run: an entry that a lookup pushes out was last looked up before every entry that
   * stays, and the latest of those pushed out would not have fit beside the entries that are there now.
   */
  lemma EvictsLeastRecent(lib: BloomLib, tier: Tier, maxMem: int, states: seq<State>, ops: seq<Op>, n: nat, gone: Entry,
                          kept: Entry)
    requires IsRun(lib, tier, maxMem, states, ops) && n < |ops| && ops[n].Lookup?
    requires gone in states[n].order && gone !in states[n + 1].order
    requires kept in states[n].order && kept in states[n + 1].order
    ensures LastLookup(ops, n, gone.id) < LastLookup(ops, n, kept.id)
    ensures var next := |states[n + 1].order|;
      next <= |states[n].order| && maxMem > 0 && Total(states[n + 1].order + [states[n].order[next - 1]]) > maxMem
  {
    hide Tested, ByLastLookup, LastLookup, Total, Recency, DistinctIds, Bounded, Coherent, CoherentWherePresent,
         Without;
    RunFacts(lib, tier, maxMem, states, ops, n);
    OrderedByLastLookup(lib, tier, maxMem, states, ops, n);
    var order, file := states[n].order, BloomFile(states[n].files, tier, ops[n].id);
    TestedRecency(lib, order, maxMem, ops[n].id, file);
    var i, j := PushedOut(order, states[n + 1].order, maxMem, ops[n].id, Usable(lib, file), gone, kept);
    assert LastLookup(ops, n, order[j].id) > LastLookup(ops, n, order[i].id) by {
      LaterInOrder(order, ops, n, j, i);
    }
  }

  lemma LaterInOrder(order: seq<Entry>, ops: seq<Op>, n: nat, i: nat, j: nat)
    requires n <= |ops| && ByLastLookup(order, ops, n) && i < j < |order|
    ensures LastLookup(ops, n, order[i].id) > LastLookup(ops, n, order[j].id)
  {}

  /** Only loading pushes an entry out, from behind all that stay. */
  lemma PushedOut(order: seq<Entry>, order': seq<Entry>, maxMem: int, id: BlockID, filter: Option<Bytes>, gone: Entry,
                  kept: Entry) returns (i: nat, j: nat)
    requires Recency(order, order', maxMem, id, filter)
    requires gone in order && gone !in order' && kept in order && kept in order'
    ensures j < i < |order| && order[i] == gone && order[j] == kept
    ensures |order'| <= |order| && maxMem > 0 && Total(order' + [order[|order'| - 1]]) > maxMem
  {
    hide Total;
    i :| i < |order| && order[i] == gone;
    assert !Cached(order, id) by {
      if Cached(order, id) { HitKeeps(order, order', maxMem, id, filter, gone); }
    }
    assert order' == [order'[0]] + order'[1..];
    assert kept in order'[1..] by { NotLoaded(order, id, kept); }
    j :| j < |order'[1..]| && order'[1..][j] == kept;
    assert gone !in order'[1..] && order'[1..] == order[..|order'| - 1];
    NotInPrefix(order, |order'| - 1, i);
    assert [order'[0]] + order[..|order'|] == order' + [order[|order'| - 1]];
  }

  lemma HitKeeps(order: seq<Entry>, order': seq<Entry>, maxMem: int, id: BlockID, filter: Option<Bytes>, e: Entry)
    requires Recency(order, order', maxMem, id, filter) && Cached(order, id) && e in order
    ensures e in order'
  {
    var k :| 0 <= k < |order| && order[k].id == id && order' == [order[k]] + order[..k] + order[k + 1..];
    assert order == order[..k] + [order[k]] + order[k + 1..];
  }

  lemma NotInPrefix(order: seq<Entry>, n: nat, i: nat)
    requires n <= |order| && i < |order| && order[i] !in order[..n]
    ensures i >= n
  {}

  lemma NotLoaded(order: seq<Entry>, id: BlockID, e: Entry)
    requires !Cached(order, id) && e in order
    ensures e.id != id
  {
    NotCached(order, id);
  }

  /**
   * In every run, if each file change comes with an Evict, every lookup answers exactly as reading the
   * file would; if only rewrites do and removals do not, this still holds for every file that exists.
   */
  lemma LookupReadsFile(lib: BloomLib, tier: Tier, maxMem: int, states: seq<State>, ops: seq<Op>, n: nat)
    requires IsRun(lib, tier, maxMem, states, ops) && n < |ops| && ops[n].Lookup?
    requires forall i :: 0 <= i < n && ops[i].Change? && ops[i].file.Some? ==> ops[i].evict
    requires (forall i :: 0 <= i < n && ops[i].Change? ==> ops[i].evict) ||
        BloomFile(states[n].files, tier, ops[n].id).Some?
    ensures var file := BloomFile(states[n].files, tier, ops[n].id);
      Answer(lib, states[n].order, ops[n].id, file, ops[n].keyHash) == ReadAnswer(lib, file, ops[n].keyHash)
  {
    RunFacts(lib, tier, maxMem, states, ops, n);
    AnswerCoherent(lib, states[n].order, states[n].files, tier, ops[n].id, ops[n].keyHash);
  }
}
