/** The read path: index lookup, bloom and metadata filter, parallel block reads, merge. */
module Query {
  import opened Bytes
  import opened Results
  import opened Keys
  import opened Storage
  import opened Meta
  import opened BlockIds
  import opened Format
  import opened BlockFile
  import opened RowOrder
  import opened Merger
  import opened BloomCaches
  import ParallelReads

  // ----- index lookup -----

  /** The block's hour [start, start + 1h) meets [from, to). */
  predicate Overlaps(id: BlockID, from: int64, to: int64) {
    match ParseBlockHour(id)
    case Err(_) => false
    case Ok(hour) => hour * NANOS_PER_HOUR < to && hour * NANOS_PER_HOUR + NANOS_PER_HOUR > from
  }

  /** SparseIndex.Lookup: exactly the indexed blocks whose hour meets the range, each once. */
  method Lookup(disk: Disk, eventType: byte, keyHash: uint64, from: int64, to: int64) returns (r: Result<seq<BlockID>>)
    requires disk.Valid()
    modifies disk`faults
    ensures disk.Valid() && disk.faults == old(disk.faults) + Fault(r.Ok?)
    ensures r.Ok? ==> Ascending(r.value)
    ensures r.Ok? ==> forall id :: id in r.value <==>
      IdxKey(eventType, keyHash, id) in disk.d.Current() && Overlaps(id, from, to)
  {
    hide IdxKey, ParseBlockHour, Less;
    var found := IdxLookupBlocks(disk, eventType, keyHash);
    if found.Err? { return Err(found.reason); }
    var all := found.value;
    var result: seq<BlockID> := [];
    for i := 0 to |all|
      invariant Ascending(result)
      invariant forall id :: id in result <==> id in all[..i] && Overlaps(id, from, to)
    {
      assert all[..i + 1] == all[..i] + [all[i]];
      var hour := ParseBlockHour(all[i]);
      if hour.Err? { continue; }
      if hour.value * NANOS_PER_HOUR < to && hour.value * NANOS_PER_HOUR + NANOS_PER_HOUR > from {
        forall j | 0 <= j < |result| ensures Less(result[j], all[i]) {
          assert result[j] in all[..i];
          var k :| 0 <= k < i && all[k] == result[j];
        }
        result := result + [all[i]];
      }
    }
    assert all[..|all|] == all;
    r := Ok(result);
  }

  // ----- requests -----

  datatype QueryRequest = QueryRequest(partitionKey: Bytes, eventType: Option<byte>, from: int64, to: int64)

  predicate Wanted(eventType: Option<byte>, e: byte) {
    eventType.None? || eventType.value == e
  }

  /** An index entry under a wanted event type, of a block whose hour meets the range. */
  ghost predicate Listed(m: Store, req: QueryRequest, h: uint64, id: BlockID) {
    Overlaps(id, req.from, req.to) && exists e: byte :: Wanted(req.eventType, e) && IdxKey(e, h, id) in m
  }

  predicate NoRepeats(ids: seq<BlockID>) {
    forall i, j :: 0 <= i < j < |ids| ==> ids[i] != ids[j]
  }

  /** No block is indexed for a key hash under two event types. */
  ghost predicate OneType(m: Store, h: uint64) {
    forall e: byte, e': byte, id :: IdxKey(e, h, id) in m && IdxKey(e', h, id) in m ==> e == e'
  }

  lemma AscendingNoRepeats(ids: seq<BlockID>)
    requires Ascending(ids)
    ensures NoRepeats(ids)
  {
    forall i, j | 0 <= i < j < |ids| ensures ids[i] != ids[j] { LessIrreflexive(ids[i]); }
  }

  ghost predicate ListedBelow(m: Store, req: QueryRequest, h: uint64, n: int, id: BlockID) {
    Overlaps(id, req.from, req.to) && exists e: byte :: e < n && IdxKey(e, h, id) in m
  }

  lemma AppendDistinct(m: Store, req: QueryRequest, h: uint64, n: byte, ids: seq<BlockID>, more: seq<BlockID>)
    requires OneType(m, h) && NoRepeats(ids) && Ascending(more)
    requires forall id :: id in ids <==> ListedBelow(m, req, h, n, id)
    requires forall id :: id in more <==> IdxKey(n, h, id) in m && Overlaps(id, req.from, req.to)
    ensures NoRepeats(ids + more)
  {
    hide IdxKey, Overlaps, Less;
    AscendingNoRepeats(more);
    forall i, j | 0 <= i < |ids| && 0 <= j < |more| ensures ids[i] != more[j] {
      assert ids[i] in ids && more[j] in more;
    }
  }

  /** The scan over all 256 event types, or of the one asked for. */
  method Candidates(disk: Disk, req: QueryRequest, h: uint64) returns (r: Result<seq<BlockID>>)
    requires disk.Valid()
    modifies disk`faults
    ensures disk.Valid() && disk.faults == old(disk.faults) + Fault(r.Ok?)
    ensures r.Ok? ==> forall id :: id in r.value <==> Listed(disk.d.Current(), req, h, id)
    ensures r.Ok? && OneType(disk.d.Current(), h) ==> NoRepeats(r.value)
  {
    hide IdxKey, Overlaps, Less, OneType;
    if req.eventType.Some? {
      r := Lookup(disk, req.eventType.value, h, req.from, req.to);
      if r.Ok? { AscendingNoRepeats(r.value); }
      return;
    }
    ghost var m := disk.d.Current();
    var ids: seq<BlockID> := [];
    for et := 0 to 256
      invariant forall id :: id in ids <==> ListedBelow(m, req, h, et, id)
      invariant OneType(m, h) ==> NoRepeats(ids)
      invariant disk.Valid() && disk.faults == old(disk.faults)
    {
      var found := Lookup(disk, et, h, req.from, req.to);
      if found.Err? { return Err(found.reason); }
      if OneType(m, h) { AppendDistinct(m, req, h, et, ids, found.value); }
      forall id ensures id in ids + found.value <==> ListedBelow(m, req, h, et + 1, id) {
        assert ListedBelow(m, req, h, et + 1, id) <==>
          ListedBelow(m, req, h, et, id) || (Overlaps(id, req.from, req.to) && IdxKey(et, h, id) in m);
      }
      ids := ids + found.value;
    }
    r := Ok(ids);
  }

  // ----- bloom and metadata filter -----

  datatype Task = Task(id: BlockID, tier: Tier)

  predicate ReadableMeta(m: Store, tiers: set<Tier>, id: BlockID) {
    match GetBlockMeta(m, id)
    case Some(Ok(bm)) => bm.tier in tiers
    case _ => false
  }

  function TaskFor(m: Store, tiers: set<Tier>, id: BlockID): Task
    requires ReadableMeta(m, tiers, id)
  {
    Task(id, GetBlockMeta(m, id).value.value.tier)
  }

  /** The bloom file exists, is readable and may hold the key. */
  predicate BloomPasses(lib: BloomLib, files: Files, tier: Tier, id: BlockID, h: uint64) {
    var file := BloomFile(files, tier, id);
    file.Some? && lib.readable(file.value) && lib.test(file.value, h)
  }

  ghost predicate CacheFits(cache: BloomCache, files: Files)
    reads cache
  {
    CoherentWherePresent(cache.order, files, cache.tier) && forall e :: e in cache.order ==>
        cache.lib.readable(e.filter)
  }

  ghost predicate Filtered(m: Store, files: Files, tiers: set<Tier>, lib: BloomLib, tier: Tier, h: uint64,
                           ids: seq<BlockID>, tasks: seq<Task>) {
    && (forall t :: t in tasks ==> t.id in ids && ReadableMeta(m, tiers, t.id) && t == TaskFor(m, tiers, t.id))
    && (forall id :: id in ids && ReadableMeta(m, tiers, id) && BloomPasses(lib, files, tier, id, h) ==>
          TaskFor(m, tiers, id) in tasks)
    && (NoRepeats(ids) ==> NoRepeats(TaskIds(tasks)))
  }

  /** The block's bloom filter, from its file or, once that is gone, from the cache, may hold the key. */
  predicate MayPass(lib: BloomLib, files: Files, tier: Tier, order: seq<Entry>, id: BlockID, h: uint64) {
    BloomPasses(lib, files, tier, id, h)
    || (BloomFile(files, tier, id).None? && Cached(order, id) && lib.test(Find(order, id).filter, h))
  }

  predicate BadMeta(m: Store, id: BlockID) {
    GetBlockMeta(m, id).Some? && GetBlockMeta(m, id).value.Err?
  }

  predicate BadBloom(lib: BloomLib, files: Files, tier: Tier, id: BlockID) {
    BloomFile(files, tier, id).Some? && !lib.readable(BloomFile(files, tier, id).value)
  }

  /** A listed block that stops a query: its bloom file, or the record it has, cannot be decoded. */
  predicate Stops(m: Store, files: Files, lib: BloomLib, tier: Tier, id: BlockID, h: uint64) {
    BadBloom(lib, files, tier, id) || (BloomPasses(lib, files, tier, id, h) && BadMeta(m, id))
  }

  /** The same for a cache that may still hold the filter of a deleted file. */
  predicate MayStop(m: Store, files: Files, lib: BloomLib, tier: Tier, order: seq<Entry>, id: BlockID, h: uint64) {
    BadBloom(lib, files, tier, id) || (MayPass(lib, files, tier, order, id, h) && BadMeta(m, id))
  }

  /** Every cached filter was cached before or is the contents of its file. */
  ghost predicate CachedFrom(order: seq<Entry>, order': seq<Entry>, files: Files, tier: Tier) {
    forall e :: e in order' ==> e in order || BloomFile(files, tier, e.id) == Some(e.filter)
  }

  /** What the answer of the cache means for the block. */
  lemma AnswerMeans(lib: BloomLib, order: seq<Entry>, order': seq<Entry>, files: Files, tier: Tier, id: BlockID,
                    h: uint64)
    requires CachedFrom(order, order', files, tier) && DistinctIds(order)
    requires CoherentWherePresent(order', files, tier) && forall e :: e in order' ==> lib.readable(e.filter)
    ensures var answer := Answer(lib, order', id, BloomFile(files, tier, id), h);
      && (answer.None? <==> BadBloom(lib, files, tier, id))
      && (answer == Some(true) ==> MayPass(lib, files, tier, order, id, h))
      && (BloomPasses(lib, files, tier, id, h) ==> answer == Some(true))
    ensures forall m :: Stops(m, files, lib, tier, id, h) <==>
        BadBloom(lib, files, tier, id) || (BloomPasses(lib, files, tier, id, h) && BadMeta(m, id))
    ensures forall m :: MayStop(m, files, lib, tier, order, id, h) <==>
        BadBloom(lib, files, tier, id) || (MayPass(lib, files, tier, order, id, h) && BadMeta(m, id))
  {
    hide DistinctIds;
    if Cached(order', id) {
      var e := Find(order', id);
      if e in order { FoundIs(order, e); }
    }
  }

  lemma FoundIs(order: seq<Entry>, e: Entry)
    requires DistinctIds(order) && e in order
    ensures Cached(order, e.id) && Find(order, e.id) == e
  {
    var i :| 0 <= i < |order| && order[i] == e;
    assert Cached(order, e.id);
    var j :| 0 <= j < |order| && order[j] == Find(order, e.id);
  }

  lemma CachedFromStep(lib: BloomLib, order: seq<Entry>, order': seq<Entry>, maxMem: int, files: Files, tier: Tier,
                       id: BlockID)
    requires CachedFrom(order, order', files, tier) && DistinctIds(order') && Bounded(order', maxMem)
    ensures CachedFrom(order, Tested(lib, order', maxMem, id, BloomFile(files, tier, id)), files, tier)
  {
    TestedFacts(lib, order', maxMem, id, BloomFile(files, tier, id));
  }

  function TaskIds(tasks: seq<Task>): (ids: seq<BlockID>)
    ensures |ids| == |tasks| && forall i :: 0 <= i < |ids| ==> ids[i] == tasks[i].id
  {
    seq(|tasks|, i requires 0 <= i < |tasks| => tasks[i].id)
  }

  lemma CacheStep(lib: BloomLib, order: seq<Entry>, files: Files, tier: Tier, maxMem: int, id: BlockID, h: uint64)
    requires DistinctIds(order) && Bounded(order, maxMem)
    requires CoherentWherePresent(order, files, tier) && forall e :: e in order ==> lib.readable(e.filter)
    ensures var order' := Tested(lib, order, maxMem, id, BloomFile(files, tier, id));
      CoherentWherePresent(order', files, tier) && forall e :: e in order' ==> lib.readable(e.filter)
    ensures BloomPasses(lib, files, tier, id, h) ==> Answer(lib, order, id, BloomFile(files, tier, id), h) == Some(true)
  {
    TestedFacts(lib, order, maxMem, id, BloomFile(files, tier, id));
    if BloomFile(files, tier, id).Some? { AnswerCoherent(lib, order, files, tier, id, h); }
  }

  lemma FilterSkip(m: Store, files: Files, tiers: set<Tier>, lib: BloomLib, tier: Tier, h: uint64, ids: seq<BlockID>,
                   tasks: seq<Task>, i: nat)
    requires i < |ids| && Filtered(m, files, tiers, lib, tier, h, ids[..i], tasks)
    requires !ReadableMeta(m, tiers, ids[i]) || !BloomPasses(lib, files, tier, ids[i], h)
    ensures Filtered(m, files, tiers, lib, tier, h, ids[..i + 1], tasks)
  {
    hide ReadableMeta, BloomPasses, TaskFor;
    var upto := ids[..i + 1];
    assert upto == ids[..i] + [ids[i]];
    if NoRepeats(upto) { assert forall a, b :: 0 <= a < b < i ==> upto[a] != upto[b]; }
  }

  lemma FilterTake(m: Store, files: Files, tiers: set<Tier>, lib: BloomLib, tier: Tier, h: uint64, ids: seq<BlockID>,
                   tasks: seq<Task>, i: nat)
    requires i < |ids| && Filtered(m, files, tiers, lib, tier, h, ids[..i], tasks) && ReadableMeta(m, tiers, ids[i])
    ensures Filtered(m, files, tiers, lib, tier, h, ids[..i + 1], tasks + [TaskFor(m, tiers, ids[i])])
  {
    hide ReadableMeta, BloomPasses;
    var upto := ids[..i + 1];
    assert upto == ids[..i] + [ids[i]];
    if NoRepeats(upto) {
      assert forall a, b :: 0 <= a < b < i ==> upto[a] != upto[b];
      forall j | 0 <= j < |tasks| ensures tasks[j].id != ids[i] {
        assert tasks[j] in tasks && tasks[j].id in ids[..i];
        var k :| 0 <= k < i && ids[k] == tasks[j].id;
        assert upto[k] != upto[i];
      }
    }
  }

  ghost predicate AllPass(lib: BloomLib, files: Files, tier: Tier, order: seq<Entry>, tasks: seq<Task>, h: uint64) {
    forall t :: t in tasks ==> MayPass(lib, files, tier, order, t.id, h)
  }

  /**
   * The filter loop. It fails if an operation failed or the bloom file, or behind a passing filter the metadata
   * record, of a listed block cannot be decoded, and then only. A block without metadata, without a filter, or in
   * another tier is skipped, and so is one whose filter excludes the key.
   */
  method FilterTasks(disk: Disk, cache: BloomCache, tiers: set<Tier>, ids: seq<BlockID>, h: uint64)
    returns (r: Result<seq<Task>>)
    requires disk.Valid() && cache.Valid() && CacheFits(cache, disk.d.files)
    modifies cache, disk`faults
    ensures cache.Valid() && CacheFits(cache, disk.d.files) && disk.Valid() && old(disk.faults) <= disk.faults
    ensures r.Ok? ==> Filtered(disk.d.Current(), disk.d.files, tiers, cache.lib, cache.tier, h, ids, r.value)
    ensures r.Ok? ==> AllPass(cache.lib, disk.d.files, cache.tier, old(cache.order), r.value, h)
    ensures r.Ok? ==>
      && disk.faults == old(disk.faults)
      && forall id :: id in ids ==> !Stops(disk.d.Current(), disk.d.files, cache.lib, cache.tier, id, h)
    ensures r.Err? && disk.faults == old(disk.faults) ==>
      exists id :: id in ids && MayStop(disk.d.Current(), disk.d.files, cache.lib, cache.tier, old(cache.order), id, h)
  {
    hide ReadableMeta, BloomPasses, Filtered, NoRepeats, Tested, CoherentWherePresent, DistinctIds, Bounded, Cached,
         MayPass, BadBloom, CachedFrom, Stops, MayStop, GetBlockMeta, Answer, Recency;
    ghost var m, files, order := disk.d.Current(), disk.d.files, cache.order;
    var tasks: seq<Task> := [];
    assert CachedFrom(order, order, files, cache.tier) by { CachedFromSame(order, files, cache.tier); }
    FilterNone(m, files, tiers, cache.lib, cache.tier, h, ids);
    for i := 0 to |ids|
      invariant disk.d == old(disk.d) && disk.Valid() && cache.Valid() && CacheFits(cache, files)
      invariant Filtered(m, files, tiers, cache.lib, cache.tier, h, ids[..i], tasks)
      invariant disk.faults == old(disk.faults) && CachedFrom(order, cache.order, files, cache.tier)
      invariant AllPass(cache.lib, files, cache.tier, order, tasks, h)
      invariant forall j :: 0 <= j < i ==> !Stops(m, files, cache.lib, cache.tier, ids[j], h)
    {
      CacheStep(cache.lib, cache.order, files, cache.tier, cache.maxMem, ids[i], h);
      AnswerMeans(cache.lib, order, cache.order, files, cache.tier, ids[i], h);
      CachedFromStep(cache.lib, order, cache.order, cache.maxMem, files, cache.tier, ids[i]);
      var present := cache.Test(disk, ids[i], h);
      if present.Err? {
        assert BadBloom(cache.lib, files, cache.tier, ids[i]) ==>
            MayStop(m, files, cache.lib, cache.tier, order, ids[i], h);
        return Err(present.reason);
      }
      MetaCase(m, tiers, ids[i]);
      if !present.value {
        FilterSkip(m, files, tiers, cache.lib, cache.tier, h, ids, tasks, i);
        continue;
      }
      var bmeta, misread := ReadBlockMeta(disk, ids[i]);
      assert !misread ==> (BadMeta(m, ids[i]) <==> bmeta.Some? && bmeta.value.Err?);
      if bmeta.None? {
        FilterSkip(m, files, tiers, cache.lib, cache.tier, h, ids, tasks, i);
        continue;
      }
      if bmeta.value.Err? { return Err(bmeta.value.reason); }
      if bmeta.value.value.tier !in tiers {
        FilterSkip(m, files, tiers, cache.lib, cache.tier, h, ids, tasks, i);
        continue;
      }
      FilterTake(m, files, tiers, cache.lib, cache.tier, h, ids, tasks, i);
      tasks := tasks + [Task(ids[i], bmeta.value.value.tier)];
    }
    assert ids[..|ids|] == ids;
    r := Ok(tasks);
  }

  lemma CachedFromSame(order: seq<Entry>, files: Files, tier: Tier)
    ensures CachedFrom(order, order, files, tier)
  {}

  lemma FilterNone(m: Store, files: Files, tiers: set<Tier>, lib: BloomLib, tier: Tier, h: uint64, ids: seq<BlockID>)
    ensures Filtered(m, files, tiers, lib, tier, h, ids[..0], [])
  {}

  lemma MetaCase(m: Store, tiers: set<Tier>, id: BlockID)
    ensures ReadableMeta(m, tiers, id) <==>
      GetBlockMeta(m, id).Some? && GetBlockMeta(m, id).value.Ok? && GetBlockMeta(m, id).value.value.tier in tiers
    ensures ReadableMeta(m, tiers, id) ==> TaskFor(m, tiers, id) == Task(id, GetBlockMeta(m, id).value.value.tier)
  {}

  // ----- reading and merging -----

  /** ReadBlock on a task's file. */
  function ReadTask(c: Codec, files: Files, t: Task, h: uint64, from: int64, to: int64): Result<seq<Event>> {
    if BlockPath(t.tier, t.id) in files then ReadRows(c, files[BlockPath(t.tier, t.id)].data, h, from, to)
        else Err("open block")
  }

  function SumRows(slices: seq<Result<seq<Event>>>): multiset<Event> {
    if slices == [] then multiset{}
    else
      SumRows(slices[..|slices| - 1]) +
          (match slices[|slices| - 1] case Ok(rows) => multiset(rows) case Err(_) => multiset{})
  }

  function Answers(c: Codec, files: Files, tasks: seq<Task>, h: uint64, from: int64,
                   to: int64): (r: seq<Result<seq<Event>>>)
    ensures |r| == |tasks| && forall i :: 0 <= i < |r| ==> r[i] == ReadTask(c, files, tasks[i], h, from, to)
  {
    seq(|tasks|, i requires 0 <= i < |tasks| => ReadTask(c, files, tasks[i], h, from, to))
  }

  predicate AllOk(answers: seq<Result<seq<Event>>>) {
    forall i :: 0 <= i < |answers| ==> answers[i].Ok?
  }

  predicate EachSorted(answers: seq<Result<seq<Event>>>) {
    forall i :: 0 <= i < |answers| && answers[i].Ok? ==> Sorted(answers[i].value)
  }

  /** The reads of all tasks, in any schedule; some fail exactly if a file operation failed. */
  method ReadAll(disk: Disk, c: Codec, tasks: seq<Task>, maxParallel: int, h: uint64, from: int64, to: int64)
    returns (results: seq<Result<seq<Event>>>)
    requires tasks != [] && disk.Valid()
    modifies disk`faults
    ensures disk.Valid() && |results| == |tasks| && old(disk.faults) <= disk.faults
    ensures disk.faults == old(disk.faults) ==> results == Answers(c, disk.d.files, tasks, h, from, to)
    ensures disk.faults > old(disk.faults) ==> !AllOk(results)
  {
    var maxP := maxParallel;
    if maxP <= 0 { maxP := 1; }
    if |tasks| < maxP { maxP := |tasks|; }
    var files := disk.d.files;
    var failing := FailingReads(disk, |tasks|);
    var read := (i: nat) => if i < |tasks| && i !in failing then ReadTask(c, files, tasks[i], h, from, to)
        else Err("i/o");
    results := ParallelReads.RunSchedule(|tasks|, maxP, read);
    if failing == {} {
      forall i | 0 <= i < |tasks|
        ensures results[i] == Answers(c, files, tasks, h, from, to)[i]
      {
        assert results[i] == read(i);
      }
      assert results == Answers(c, files, tasks, h, from, to);
    } else {
      ghost var i :| i in failing;
      assert results[i] == read(i);
    }
  }

  /** Which of n reads hit a failing file operation. */
  method FailingReads(disk: Disk, n: nat) returns (failing: set<nat>)
    requires disk.Valid()
    modifies disk`faults
    ensures disk.Valid() && disk.faults == old(disk.faults) + |failing| && forall i :: i in failing ==> i < n
  {
    failing := {};
    for i := 0 to n
      invariant disk.Valid() && disk.faults == old(disk.faults) + |failing| && forall j :: j in failing ==> j < i
    {
      var ok := disk.Attempt();
      if !ok { failing := failing + {i}; }
    }
  }

  /** The loop that stops at the first error and keeps the non-empty answers. */
  method NonEmpty(results: seq<Result<seq<Event>>>) returns (r: Result<seq<seq<Event>>>)
    ensures r.Ok? <==> AllOk(results)
    ensures r.Ok? ==> multiset(Flatten(r.value)) == SumRows(results) && (EachSorted(results) ==> AllSorted(r.value))
  {
    hide Sorted, SumRows, Flatten, EachSorted;
    var slices: seq<seq<Event>> := [];
    SumNone(results);
    for i := 0 to |results|
      invariant forall j :: 0 <= j < i ==> results[j].Ok?
      invariant multiset(Flatten(slices)) == SumRows(results[..i])
      invariant EachSorted(results) ==> AllSorted(slices)
    {
      SumNext(results, i);
      if results[i].Err? { return Err(results[i].reason); }
      if |results[i].value| > 0 {
        FlattenAppend(slices, results[i].value);
        slices := slices + [results[i].value];
      }
    }
    assert results[..|results|] == results;
    r := Ok(slices);
  }

  lemma SumNone(results: seq<Result<seq<Event>>>)
    ensures SumRows(results[..0]) == multiset{} && multiset(Flatten([])) == multiset{}
  {}

  lemma SumNext(results: seq<Result<seq<Event>>>, i: nat)
    requires i < |results|
    ensures results[i].Ok? ==> SumRows(results[..i + 1]) == SumRows(results[..i]) + multiset(results[i].value)
    ensures EachSorted(results) && results[i].Ok? ==> Sorted(results[i].value)
  {
    assert results[..i + 1][..i] == results[..i];
  }

  lemma FlattenAppend(slices: seq<seq<Event>>, rows: seq<Event>)
    ensures Flatten(slices + [rows]) == Flatten(slices) + rows
  {
    assert (slices + [rows])[..|slices|] == slices;
  }

  /** What a successful query did: which blocks it read and what came of it. */
  ghost predicate QueryDone(c: Codec, m: Store, files: Files, tiers: set<Tier>, lib: BloomLib, tier: Tier,
                            req: QueryRequest, h: uint64,
                            ids: seq<BlockID>, tasks: seq<Task>, result: seq<Event>) {
    && (forall id :: id in ids <==> Listed(m, req, h, id)) && (OneType(m, h) ==> NoRepeats(ids))
    && Filtered(m, files, tiers, lib, tier, h, ids, tasks)
    && AllOk(Answers(c, files, tasks, h, req.from, req.to))
    && multiset(result) == SumRows(Answers(c, files, tasks, h, req.from, req.to))
    && (EachSorted(Answers(c, files, tasks, h, req.from, req.to)) ==> Sorted(result))
  }

  /** Why a query fails when no operation does: a listed block cannot be decoded, or a block's read is an error. */
  ghost predicate QueryStuck(c: Codec, m: Store, files: Files, tiers: set<Tier>, lib: BloomLib, tier: Tier,
                             order: seq<Entry>, req: QueryRequest, h: uint64, ids: seq<BlockID>, tasks: seq<Task>) {
    && (forall id :: id in ids <==> Listed(m, req, h, id))
    && ((exists id :: id in ids && MayStop(m, files, lib, tier, order, id, h))
        || (&& Filtered(m, files, tiers, lib, tier, h, ids, tasks) && AllPass(lib, files, tier, order, tasks, h)
            && !AllOk(Answers(c, files, tasks, h, req.from, req.to))))
  }

  /** Engine.Query: what it did if it succeeded, and why it failed otherwise. */
  method Run(disk: Disk, cache: BloomCache, c: Codec, hash: Bytes -> uint64, tiers: set<Tier>, maxParallel: int,
             req: QueryRequest)
    returns (r: Result<seq<Event>>, ghost ids: seq<BlockID>, ghost tasks: seq<Task>)
    requires disk.Valid() && cache.Valid() && CacheFits(cache, disk.d.files)
    modifies cache, disk`faults
    ensures cache.Valid() && CacheFits(cache, disk.d.files) && disk.Valid() && old(disk.faults) <= disk.faults
    ensures req.partitionKey == [] || req.from >= req.to ==> r.Err?
    ensures r.Ok? ==>
      QueryDone(c, disk.d.Current(), disk.d.files, tiers, cache.lib, cache.tier, req, hash(req.partitionKey), ids,
          tasks, r.value)
    ensures r.Ok? ==>
      && disk.faults == old(disk.faults)
      && AllPass(cache.lib, disk.d.files, cache.tier, old(cache.order), tasks, hash(req.partitionKey))
      && forall id :: id in ids ==>
          !Stops(disk.d.Current(), disk.d.files, cache.lib, cache.tier, id, hash(req.partitionKey))
    ensures r.Err? ==>
      || req.partitionKey == [] || req.from >= req.to || disk.faults > old(disk.faults)
      || QueryStuck(c, disk.d.Current(), disk.d.files, tiers, cache.lib, cache.tier, old(cache.order), req,
           hash(req.partitionKey), ids, tasks)
  {
    hide Filtered, Listed, OneType, NoRepeats, Sorted, CacheFits, Stops, MayStop, AllPass, SumRows, EachSorted;
    ids, tasks := [], [];
    if |req.partitionKey| == 0 { return Err("PartitionKey must not be empty"), ids, tasks; }
    if !(req.from < req.to) { return Err("From must be before To"), ids, tasks; }
    var h := hash(req.partitionKey);
    var found := Candidates(disk, req, h);
    if found.Err? { return Err(found.reason), ids, tasks; }
    ids := found.value;
    if |found.value| == 0 {
      FilterEmpty(disk.d.Current(), disk.d.files, tiers, cache.lib, cache.tier, h, found.value);
      NothingAnswered();
      assert AllPass(cache.lib, disk.d.files, cache.tier, old(cache.order), [], h) by {
        NothingPasses(cache.lib, disk.d.files, cache.tier, cache.order, h);
      }
      return Ok([]), ids, tasks;
    }
    var filtered := FilterTasks(disk, cache, tiers, found.value, h);
    if filtered.Err? { return Err(filtered.reason), ids, tasks; }
    tasks := filtered.value;
    if |filtered.value| == 0 {
      EmptySorted();
      NothingAnswered();
      return Ok([]), ids, tasks;
    }
    var results := ReadAll(disk, c, filtered.value, maxParallel, h, req.from, req.to);
    var slices := NonEmpty(results);
    if slices.Err? { return Err(slices.reason), ids, tasks; }
    var merged, _ := MergeEvents(slices.value);
    r := Ok(merged);
  }

  lemma EmptySorted()
    ensures Sorted([])
  {}

  lemma NothingAnswered()
    ensures SumRows([]) == multiset{}
  {}

  lemma NothingPasses(lib: BloomLib, files: Files, tier: Tier, order: seq<Entry>, h: uint64)
    ensures AllPass(lib, files, tier, order, [], h)
  {}

  lemma FilterEmpty(m: Store, files: Files, tiers: set<Tier>, lib: BloomLib, tier: Tier, h: uint64, ids: seq<BlockID>)
    requires ids == []
    ensures Filtered(m, files, tiers, lib, tier, h, ids, []) && Sorted([])
  {}
}
