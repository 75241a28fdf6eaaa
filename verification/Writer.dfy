/** The shard writer's own code: each call is one step of the writer machine, and the disk follows that machine. */
module Ingestion {
  import opened Bytes
  import opened Keys
  import opened Storage
  import opened Meta
  import opened Wal
  import opened BlockIds
  import opened Format
  import opened BlockFile
  import opened RowOrder
  import opened Memtables
  import opened RingBufs
  import BloomCaches
  import opened Sealer
  import opened SealCrash
  import opened SealRecords
  import L = Lifecycle
  import WR = WriterRuns

  /** sealing stands for a configured tier store; retention and chunk size as in SealRequest. */
  datatype WriterConfig = WriterConfig(sealing: bool, maxBlockBytes: int, retention: nat, idxChunkSize: int)

  // ----- when to seal -----

  /** The start of the instant's hour is a representable instant: all of int64 but its first partial hour. */
  predicate HasBoundary(t: int64) {
    HourOf(t) * NANOS_PER_HOUR >= -0x8000_0000_0000_0000
  }

  /** Hour, day, month and year compared one by one. */
  predicate HourChanged(now: int64, openedAt: int64) {
    var d, e := DateOf(DayOf(now)), DateOf(DayOf(openedAt));
    HourOf(now) % 24 != HourOf(openedAt) % 24 || d.day != e.day || d.month != e.month || d.year != e.year
  }

  /** The four comparisons detect every change of the UTC hour, and nothing else. */
  lemma HourChangedExact(now: int64, openedAt: int64)
    ensures HourChanged(now, openedAt) <==> HourOf(now) != HourOf(openedAt)
  {
    hide DateOf, DayNumber;
    DateRoundTrip(DayOf(now));
    DateRoundTrip(DayOf(openedAt));
    if !HourChanged(now, openedAt) {
      assert DateOf(DayOf(now)) == DateOf(DayOf(openedAt));
      assert DayOf(now) == DayOf(openedAt);
    }
  }

  /** There are rows, and the seal is forced, the hour has changed, or rows and payloads have reached the size. */
  predicate SealDue(cfg: WriterConfig, rows: seq<Event>, openHour: int, now: int64, force: bool) {
    && cfg.sealing && rows != []
    && (force || HourOf(now) != openHour || 16 * |rows| + PayloadBytes(rows) >= cfg.maxBlockBytes)
  }

  // ----- the shard's WAL -----

  function MarshalAll(marshal: Event -> Bytes, events: seq<Event>): seq<Bytes> {
    seq(|events|, i requires 0 <= i < |events| => marshal(events[i]))
  }

  ghost predicate LogOf(m: Store, s: ShardID, log: seq<Entry>, data: seq<Bytes>) {
    Stored(m, s, log) && NothingElse(m, s, log) && Below(log, NextSeq(m, s)) && Data(log) == data
  }

  /** The shard's WAL holds exactly these values, in this order, all numbered below the counter. */
  ghost predicate WalHolds(m: Store, s: ShardID, data: seq<Bytes>) {
    WellFormed(m) && exists log :: LogOf(m, s, log, data)
  }

  /** Scanning such a WAL returns the values. */
  lemma WalHoldsScan(m: Store, s: ShardID, data: seq<Bytes>)
    requires WalHolds(m, s, data) && s < 0xFFFF
    ensures ScanValues(m, s) == data
  {
    var log :| LogOf(m, s, log, data);
    WellFormedRange(m, s);
    ScanIsLog(m, s, log);
  }

  lemma TakeNext(m: Store, s: ShardID)
    requires NextSeq(m, s) < TWO64 - 1
    ensures NextSeq(TakeSeq(m, s), s) == NextSeq(m, s) + 1
  {
    hide BE, Get64;
    var q := NextSeq(m, s);
    Order64(q, q);
    assert TakeSeq(m, s)[WALSeqKey(s)] == BE(q, 8);
  }

  /** One append adds one value and moves the counter by one. */
  lemma WalAppended(m: Store, s: ShardID, data: seq<Bytes>, x: Bytes)
    requires WalHolds(m, s, data) && NextSeq(m, s) < TWO64 - 1
    ensures var m' := TakeSeq(m, s)[WALKey(s, NextSeq(m, s)) := x];
      WalHolds(m', s, data + [x]) && NextSeq(m', s) == NextSeq(m, s) + 1
  {
    hide BE, Get64, Stored, NothingElse, SameEntries, WellFormed;
    var q := NextSeq(m, s);
    var log :| LogOf(m, s, log, data);
    var taken := TakeSeq(m, s);
    SetFrame(m, Seq(s), BE(q, 8), s);
    EntriesFrame(m, taken, s, log);
    TakeNext(m, s);
    var m' := taken[WALKey(s, q) := x];
    PutOwn(taken, s, log, Entry(q, x));
    EncodeInjective(Seq(s), Wal(s, q));
    SetWellFormed(m, Seq(s), BE(q, 8));
    SetWellFormed(taken, Wal(s, q), x);
    SameCounter(taken, m', s);
    DataAppend(log, Entry(q, x));
    assert LogOf(m', s, log + [Entry(q, x)], data + [x]) by { BelowAppend(log, Entry(q, x)); }
  }

  lemma BelowAppend(log: seq<Entry>, e: Entry)
    requires Below(log, e.sn)
    ensures Below(log + [e], e.sn + 1)
  {}

  lemma DataAppend(log: seq<Entry>, e: Entry)
    ensures Data(log + [e]) == Data(log) + [e.data]
  {}

  lemma SameCounter(m: Store, m': Store, s: ShardID)
    requires SameAt(m, m', WALSeqKey(s))
    ensures NextSeq(m', s) == NextSeq(m, s)
  {}

  /** A store with the same entries and the same counter holds the same log; one without entries holds none. */
  lemma WalFrame(m: Store, m': Store, s: ShardID, data: seq<Bytes>)
    requires WalHolds(m, s, data) && WellFormed(m') && SameAt(m, m', WALSeqKey(s))
    ensures SameEntries(m, m', s) ==> WalHolds(m', s, data)
    ensures !HasEntry(m', s) ==> WalHolds(m', s, [])
  {
    hide NextSeq, WellFormed;
    SameCounter(m, m', s);
    if SameEntries(m, m', s) {
      var log :| LogOf(m, s, log, data);
      EntriesFrame(m, m', s, log);
      assert LogOf(m', s, log, data);
    }
    if !HasEntry(m', s) { assert LogOf(m', s, [], []); }
  }

  // ----- the shard's blocks -----

  ghost predicate FileOf(c: Codec, data: Bytes, rows: seq<Event>, h: BlockHeader, sorted: seq<Event>) {
    data == FileBytes(c, h, sorted) && Sorted(sorted) && multiset(sorted) == multiset(rows)
  }

  /** The path holds a complete block file of these rows, in sorted order. */
  ghost predicate HoldsRows(c: Codec, files: Files, p: Path, rows: seq<Event>) {
    p in files && exists h, sorted :: FileOf(c, files[p].data, rows, h, sorted)
  }

  /** The shard has a live block for the instant's hour exactly when the writer recorded one, with those rows. */
  ghost predicate BlockAt(c: Codec, s: ShardID, d: Durable, blocks: map<int, seq<Event>>, t: int64)
    requires d.Valid()
  {
    var id, hour := BlockIDForShard(s, t), HourOf(t);
    && (BlockKey(id) in d.Current() <==> hour in blocks)
    && (hour in blocks ==> HoldsRows(c, d.files, BlockPath(TIER_HOT, id), blocks[hour]))
  }

  ghost predicate BlocksOnDisk(c: Codec, s: ShardID, d: Durable, blocks: map<int, seq<Event>>)
    requires d.Valid()
  {
    forall t: int64 :: BlockAt(c, s, d, blocks, t)
  }

  /** A key that belongs to another shard, or to no shard. */
  ghost predicate Foreign(s: ShardID, k: Key) {
    match k
    case Wal(t, _) => t != s
    case Seq(t) => t != s
    case Idx(_, _, id) => forall t: int64 :: id != BlockIDForShard(s, t)
    case Block(id) => forall t: int64 :: id != BlockIDForShard(s, t)
    case Expiry(_, id) => forall t: int64 :: id != BlockIDForShard(s, t)
    case Migration(_) => true
  }

  ghost predicate ForeignKept(m: Store, m': Store, s: ShardID) {
    forall k: Key :: Foreign(s, k) ==> SameAt(m, m', Encode(k))
  }

  lemma AppendKeepsBlocks(c: Codec, s: ShardID, d: Durable, d': Durable, blocks: map<int, seq<Event>>)
    requires d.Valid() && d'.Valid() && d'.files == d.files && OtherKeysKept(d.Current(), d'.Current(), s)
    ensures BlocksOnDisk(c, s, d, blocks) ==> BlocksOnDisk(c, s, d', blocks)
    ensures ForeignKept(d.Current(), d'.Current(), s)
  {
    hide HoldsRows, BlockIDForShard;
    if BlocksOnDisk(c, s, d, blocks) {
      forall t: int64 ensures BlockAt(c, s, d', blocks, t) {
        assert BlockAt(c, s, d, blocks, t);
        assert Encode(Block(BlockIDForShard(s, t))) == BlockKey(BlockIDForShard(s, t));
      }
    }
  }

  // ----- what a seal does to both -----

  /** How a seal that got through k batches ended, for the writer. */
  ghost function OutcomeOf(d0: Durable, d: Durable, plan: Plan, k: nat): WR.Outcome {
    var p := BlockPath(TIER_HOT, plan.Id());
    if k == |plan.Batches()| then WR.Committed
    else if (p in d0.files <==> p in d.files) && (p in d0.files ==> d0.files[p] == d.files[p]) then WR.FailedEarly
    else WR.FailedLate
  }

  lemma {:induction false} StageWellFormed(m: Store, plan: Plan, k: nat)
    requires WellFormed(m) && k <= |plan.Batches()|
    ensures WellFormed(Stage(m, plan.Batches(), k))
  {
    hide WellFormed, Apply, Chunks, Plan.Id, Plan.Expiry;
    if k > 0 {
      StageWellFormed(m, plan, k - 1);
      var before := Stage(m, plan.Batches(), k - 1);
      if k == |plan.Batches()| {
        SealBatchEffect(before, plan.req.shard, plan.Id(), plan.meta, plan.Expiry());
        SealWellFormed(before, plan);
      } else {
        var chunk := Chunks(plan.hashes, plan.ChunkSize())[k - 1];
        assert plan.Batches()[k - 1] == IdxBatch(plan.req.eventType, chunk, plan.Id());
        IdxWellFormed(before, plan.req.eventType, chunk, plan.Id());
      }
    }
  }

  lemma IdxWellFormed(m: Store, et: byte, chunk: seq<uint64>, id: BlockID)
    requires WellFormed(m)
    ensures WellFormed(Apply(m, IdxBatch(et, chunk, id)))
  {
    var m' := Apply(m, IdxBatch(et, chunk, id));
    IdxBatchEffect(m, et, chunk, id);
    forall k | k in m' ensures exists key: Key :: Encode(key) == k {
      if k !in m {
        var h :| h in chunk && k == IdxKey(et, h, id);
        assert Encode(Idx(et, h, id)) == k;
      }
    }
  }

  lemma SealWellFormed(m: Store, plan: Plan)
    requires WellFormed(m)
    ensures WellFormed(WithSealed(m, plan.req.shard, plan.Id(), plan.meta, plan.Expiry()))
  {
    hide EncodeBlockMeta;
    var cut := m - RangeKeys(m, WALKeyStart(plan.req.shard), WALKeyEnd(plan.req.shard));
    SetWellFormed(cut, Block(plan.Id()), EncodeBlockMeta(plan.meta));
    SetWellFormed(cut[BlockKey(plan.Id()) := EncodeBlockMeta(plan.meta)], Expiry(plan.Expiry(), plan.Id()), []);
  }

  /** The store after k batches of a seal. */
  lemma SealedStore(d0: Durable, d: Durable, plan: Plan, k: nat)
    requires At(d0, d, plan, k)
    ensures d.Current() == Stage(d0.Current(), plan.Batches(), k)
  {
    hide Stage, Plan.Batches;
    StageLogFacts(d0, plan.Batches(), k);
  }

  lemma OthersAfterSeal(d0: Durable, d: Durable, plan: Plan, k: nat)
    requires At(d0, d, plan, k)
    ensures OthersKept(d0.Current(), d.Current(), plan)
    ensures k == |plan.Batches()| ==>
      BlockKey(plan.Id()) in d.Current() && LogDropped(d0.Current(), d.Current(), plan.req.shard)
    ensures k < |plan.Batches()| ==>
      SameAt(d0.Current(), d.Current(), BlockKey(plan.Id())) && SameEntries(d0.Current(), d.Current(), plan.req.shard)
  {
    hide Stage, Plan.Batches, OthersKept, SameEntries, LogDropped, SameAt, Indexed;
    SealedStore(d0, d, plan, k);
    if k == |plan.Batches()| { FinalStageSealed(d0.Current(), plan); } else { StageKeeps(d0.Current(), plan, k); }
  }

  lemma WalAfterSeal(d0: Durable, d: Durable, plan: Plan, k: nat, data: seq<Bytes>)
    requires At(d0, d, plan, k) && WalHolds(d0.Current(), plan.req.shard, data) && plan.req.shard < 0xFFFF
    ensures WalHolds(d.Current(), plan.req.shard, if k == |plan.Batches()| then [] else data)
    ensures NextSeq(d.Current(), plan.req.shard) == NextSeq(d0.Current(), plan.req.shard)
  {
    hide At, Plan.Batches, Stage, WellFormed, SameEntries, HasEntry;
    AtBounds(d0, d, plan, k);
    SealedStore(d0, d, plan, k);
    StageWellFormed(d0.Current(), plan, k);
    OthersAfterSeal(d0, d, plan, k);
    assert SameAt(d0.Current(), d.Current(), Encode(Seq(plan.req.shard)));
    SameCounter(d0.Current(), d.Current(), plan.req.shard);
    WalFrame(d0.Current(), d.Current(), plan.req.shard, data);
  }

  lemma AtBounds(d0: Durable, d: Durable, plan: Plan, k: nat)
    requires At(d0, d, plan, k)
    ensures d0.Valid() && d.Valid() && k <= |plan.Batches()|
  {}

  lemma FilesAfterSeal(c: Codec, lib: BloomCaches.BloomLib, d0: Durable, d: Durable, plan: Plan, k: nat,
                       rows: seq<Event>, forBloom: seq<uint64>)
    requires At(d0, d, plan, k) && Sorted(plan.rows) && multiset(plan.rows) == multiset(rows)
    requires plan == MakePlan(c, lib, plan.req, plan.rows, forBloom, plan.hashes)
    ensures var p := BlockPath(TIER_HOT, plan.Id());
      && (OutcomeOf(d0, d, plan, k).FailedEarly? ==>
            forall old_rows :: HoldsRows(c, d0.files, p, old_rows) ==> HoldsRows(c, d.files, p, old_rows))
      && (!OutcomeOf(d0, d, plan, k).FailedEarly? ==> HoldsRows(c, d.files, p, rows))
    ensures OtherFilesKept(d0.files, d.files, plan.Id())
  {
    hide StageLog, FileBytes;
    var p := BlockPath(TIER_HOT, plan.Id());
    if !OutcomeOf(d0, d, plan, k).FailedEarly? {
      assert k > 0 || k < |plan.Batches()|;
      assert p in d.files && d.files[p].data == plan.file;
      assert FileOf(c, d.files[p].data, rows, HeaderFor(plan.req, |plan.rows|), plan.rows);
    }
  }

  /** The blocks on disk follow the writer machine's blocks, whatever the outcome. */
  lemma BlocksAfterSeal(c: Codec, lib: BloomCaches.BloomLib, d0: Durable, d: Durable, plan: Plan, k: nat,
                        rows: seq<Event>, forBloom: seq<uint64>, blocks: map<int, seq<Event>>)
    requires At(d0, d, plan, k) && Sorted(plan.rows) && multiset(plan.rows) == multiset(rows)
    requires plan == MakePlan(c, lib, plan.req, plan.rows, forBloom, plan.hashes)
    requires BlocksOnDisk(c, plan.req.shard, d0, blocks)
    ensures BlocksOnDisk(c, plan.req.shard, d,
        WR.BlocksAfter(blocks, HourOf(plan.req.openedAt), rows, OutcomeOf(d0, d, plan, k)))
    ensures ForeignKept(d0.Current(), d.Current(), plan.req.shard)
  {
    hide At, HoldsRows, Plan.Batches, BlockIDForShard, MakePlan, SameEntries, LogDropped, BlocksOnDisk;
    AtBounds(d0, d, plan, k);
    OthersAfterSeal(d0, d, plan, k);
    FilesAfterSeal(c, lib, d0, d, plan, k, rows, forBloom);
    var s, outcome := plan.req.shard, OutcomeOf(d0, d, plan, k);
    var blocks' := WR.BlocksAfter(blocks, HourOf(plan.req.openedAt), rows, outcome);
    assert BlocksOnDisk(c, s, d, blocks') by {
      forall t: int64 ensures BlockAt(c, s, d, blocks', t) {
        assert BlockAt(c, s, d0, blocks, t) by { BlockAtOf(c, s, d0, blocks, t); }
        BlockIdentity(s, t, s, plan.req.openedAt);
        assert BlockIDForShard(s, t) != plan.Id() ==>
          SameAt(d0.Current(), d.Current(), Encode(Block(BlockIDForShard(s, t))));
        if BlockIDForShard(s, t) != plan.Id() {
          OtherBlockKept(c, d0.files, d.files, plan.Id(), BlockIDForShard(s, t));
        }
      }
      BlocksOnDiskFrom(c, s, d, blocks');
    }
  }

  lemma BlockAtOf(c: Codec, s: ShardID, d: Durable, blocks: map<int, seq<Event>>, t: int64)
    requires d.Valid() && BlocksOnDisk(c, s, d, blocks)
    ensures BlockAt(c, s, d, blocks, t)
  {}

  lemma BlocksOnDiskFrom(c: Codec, s: ShardID, d: Durable, blocks: map<int, seq<Event>>)
    requires d.Valid() && forall t: int64 :: BlockAt(c, s, d, blocks, t)
    ensures BlocksOnDisk(c, s, d, blocks)
  {}

  lemma OtherBlockKept(c: Codec, f: Files, f': Files, id: BlockID, other: BlockID)
    requires OtherFilesKept(f, f', id) && other != id
    ensures forall rows :: HoldsRows(c, f, BlockPath(TIER_HOT, other), rows) ==>
      HoldsRows(c, f', BlockPath(TIER_HOT, other), rows)
  {
    assert !OwnPath(BlockPath(TIER_HOT, other), id);
  }

  // ----- the writer -----

  /** A flush that finds nothing more to drain changes nothing, so flushing and then sealing is one step. */
  lemma FlushThenSeal(w: WR.Writer, entered: seq<bool>, hour: int, outcome: WR.Outcome)
    requires w.mem + w.ring != [] && |entered| == |w.ring|
    ensures WR.Next(WR.Next(w, WR.Flush(entered)), WR.FlushAndSeal([], hour, outcome)) ==
        WR.Next(w, WR.FlushAndSeal(entered, hour, outcome))
  {
    var wal := w.wal + WR.Chosen(w.ring, entered);
    assert w.mem + w.ring + [] == w.mem + w.ring && WR.Chosen([], []) == [] && wal + [] == wal;
  }

  lemma MarshalAppend(marshal: Event -> Bytes, a: seq<Event>, b: seq<Event>)
    ensures MarshalAll(marshal, a + b) == MarshalAll(marshal, a) + MarshalAll(marshal, b)
  {}

  lemma ForeignTransitive(a: Store, b: Store, d: Store, s: ShardID)
    requires ForeignKept(a, b, s) && ForeignKept(b, d, s)
    ensures ForeignKept(a, d, s)
  {
    hide Foreign;
  }

  /** The machine's step for a seal that got through k batches, and the disk after it. */
  lemma SealFollows(c: Codec, lib: BloomCaches.BloomLib, marshal: Event -> Bytes, d0: Durable, d: Durable, plan: Plan,
                    k: nat, forBloom: seq<uint64>, w: WR.Writer, hour: int)
    returns (outcome: WR.Outcome)
    requires At(d0, d, plan, k) && Sorted(plan.rows) && multiset(plan.rows) == multiset(w.mem) && w.ring == []
    requires w.mem != []
    requires plan == MakePlan(c, lib, plan.req, plan.rows, forBloom, plan.hashes)
    requires BlocksOnDisk(c, plan.req.shard, d0, w.blocks) && w.openHour == HourOf(plan.req.openedAt)
    ensures k == |plan.Batches()| <==> outcome.Committed?
    ensures var w' := WR.Next(w, WR.FlushAndSeal([], hour, outcome));
      && d.Valid() && BlocksOnDisk(c, plan.req.shard, d, w'.blocks)
      && (plan.req.shard < 0xFFFF && WalHolds(d0.Current(), plan.req.shard, MarshalAll(marshal, w.wal)) ==>
            WalHolds(d.Current(), plan.req.shard, MarshalAll(marshal, w'.wal)))
    ensures ForeignKept(d0.Current(), d.Current(), plan.req.shard)
  {
    hide At, Plan.Batches, BlocksOnDisk, WalHolds, ForeignKept, MakePlan, Sorted, HourOf;
    AtBounds(d0, d, plan, k);
    outcome := OutcomeOf(d0, d, plan, k);
    BlocksAfterSeal(c, lib, d0, d, plan, k, w.mem, forBloom, w.blocks);
    if plan.req.shard < 0xFFFF && WalHolds(d0.Current(), plan.req.shard, MarshalAll(marshal, w.wal)) {
      WalAfterSeal(d0, d, plan, k, MarshalAll(marshal, w.wal));
    }
    assert w.mem + [] == w.mem && WR.Chosen([], []) == [] && w.wal + [] == w.wal;
    assert MarshalAll(marshal, []) == [];
  }

  /** A failed append leaves the log as it was or with the new value; its number may be used up. */
  lemma WalAfterAppend(m: Store, m': Store, s: ShardID, data: seq<Bytes>, x: Bytes)
    requires WalHolds(m, s, data) && NextSeq(m, s) < TWO64 - 1
    requires m' == m || m' == TakeSeq(m, s) || m' == TakeSeq(m, s)[WALKey(s, NextSeq(m, s)) := x]
    ensures WalHolds(m', s, data + if m' == TakeSeq(m, s)[WALKey(s, NextSeq(m, s)) := x] then [x] else [])
    ensures NextSeq(m', s) <= NextSeq(m, s) + 1
  {
    hide WalHolds, NextSeq, TakeSeq;
    WalAppended(m, s, data, x);
    WalTaken(m, s, data);
    assert data + [] == data;
  }

  /** A number taken but not used. */
  lemma WalTaken(m: Store, s: ShardID, data: seq<Bytes>)
    requires WalHolds(m, s, data) && NextSeq(m, s) < TWO64 - 1
    ensures WalHolds(TakeSeq(m, s), s, data) && NextSeq(TakeSeq(m, s), s) == NextSeq(m, s) + 1
  {
    hide BE, Get64, Stored, NothingElse, SameEntries, WellFormed, NextSeq;
    var q := NextSeq(m, s);
    var log :| LogOf(m, s, log, data);
    SetFrame(m, Seq(s), BE(q, 8), s);
    EntriesFrame(m, TakeSeq(m, s), s, log);
    TakeNext(m, s);
    SetWellFormed(m, Seq(s), BE(q, 8));
    assert LogOf(TakeSeq(m, s), s, log, data);
  }

  /**
   * The loop of a flush: every event is appended to the WAL and, also when that failed, to the memtable. The
   * WAL's values grow by those marshalled events whose append entered, in order. No more appends are missing than
   * operations failed.
   */
  method AppendAll(disk: Disk, shard: ShardID, mt: Memtable, marshal: Event -> Bytes, events: seq<Event>,
                   ghost data: seq<Bytes>)
    returns (ghost entered: seq<bool>)
    requires disk.Valid() && mt.Valid()
    modifies disk, mt
    ensures disk.Valid() && mt.Valid() && mt.Rows() == old(mt.Rows()) + events
    ensures disk.d.files == old(disk.d).files && OtherKeysKept(old(disk.d).Current(), disk.d.Current(), shard)
    ensures |entered| == |events| && old(disk.faults) + WR.Missing(entered) <= disk.faults
    ensures WalHolds(old(disk.d).Current(), shard, data) && NextSeq(old(disk.d).Current(), shard) + |events| < TWO64 ==>
      WalHolds(disk.d.Current(), shard, data + MarshalAll(marshal, WR.Chosen(events, entered)))
  {
    hide WalHolds, OtherKeysKept, TakeSeq, NextSeq, RowBytes, MarshalAll, WR.Chosen;
    ghost var d0, rows := disk.d, mt.Rows();
    entered := [];
    OtherKeysSame(d0.Current(), shard);
    MarshalNone(marshal, data, events);
    assert rows + events[..0] == rows;
    for i := 0 to |events|
      invariant disk.Valid() && mt.Valid() && mt.Rows() == rows + events[..i]
      invariant disk.d.files == d0.files && OtherKeysKept(d0.Current(), disk.d.Current(), shard)
      invariant |entered| == i && old(disk.faults) + WR.Missing(entered) <= disk.faults
      invariant WalHolds(d0.Current(), shard, data) && NextSeq(d0.Current(), shard) + |events| < TWO64 ==>
        && WalHolds(disk.d.Current(), shard, data + MarshalAll(marshal, WR.Chosen(events[..i], entered)))
        && NextSeq(disk.d.Current(), shard) <= NextSeq(d0.Current(), shard) + i
    {
      ghost var m := disk.d.Current();
      ghost var sofar := data + MarshalAll(marshal, WR.Chosen(events[..i], entered));
      var ok := WALAppend(disk, shard, marshal(events[i]));
      ghost var isIn := disk.d.Current() == TakeSeq(m, shard)[WALKey(shard, NextSeq(m, shard)) := marshal(events[i])];
      if WalHolds(m, shard, sofar) && NextSeq(m, shard) < TWO64 - 1 {
        WalAfterAppend(m, disk.d.Current(), shard, sofar, marshal(events[i]));
      }
      OtherKeysTransitive(d0.Current(), m, disk.d.Current(), shard);
      mt.Append(events[i]);
      assert rows + events[..i + 1] == rows + events[..i] + [events[i]];
      MarshalStep(marshal, data, events, entered, i, isIn);
      assert (entered + [isIn])[..i] == entered;
      entered := entered + [isIn];
    }
    assert events[..|events|] == events;
  }

  lemma MarshalNone(marshal: Event -> Bytes, data: seq<Bytes>, events: seq<Event>)
    ensures data + MarshalAll(marshal, WR.Chosen(events[..0], [])) == data
  {}

  lemma MarshalStep(marshal: Event -> Bytes, data: seq<Bytes>, events: seq<Event>, entered: seq<bool>, i: nat,
                    isIn: bool)
    requires |entered| == i < |events|
    ensures data + MarshalAll(marshal, WR.Chosen(events[..i + 1], entered + [isIn])) ==
      data + MarshalAll(marshal, WR.Chosen(events[..i], entered)) + if isIn then [marshal(events[i])] else []
  {
    assert events[..i + 1][..i] == events[..i] && (entered + [isIn])[..i] == entered;
  }

  // ----- what a writer asks of a seal -----

  /** The request is for the writer's shard, under that shard's event type and the configured retention. */
  predicate Asks(shard: ShardID, cfg: WriterConfig, req: SealRequest, opened0: int64, sealedAt: int64) {
    && req.shard == shard && shard == req.eventType * 256 + shard % 256
    && req.openedAt == opened0 && req.sealedAt == sealedAt
    && req.retention == cfg.retention && req.idxChunkSize == cfg.idxChunkSize
  }

  /** The disk holds a finished seal of these rows, as the writer asks for it. */
  ghost predicate SealedRows(c: Codec, shard: ShardID, cfg: WriterConfig, d: Durable, rows: seq<Event>,
                             opened0: int64, sealedAt: int64) {
    && d.Valid()
    && forall req: SealRequest :: Asks(shard, cfg, req, opened0, sealedAt) ==> Recorded(c, d, req, rows)
  }

  /** From the epoch on, the plan is one of those the machine of the whole store makes. */
  ghost predicate Planned(c: Codec, lib: BloomCaches.BloomLib, cfg: WriterConfig, plan: Plan) {
    plan.req.openedAt >= 0 ==> L.WellPlanned(L.Env(c, lib, cfg.retention, {TIER_HOT}), plan)
  }

  lemma WriterSealed(c: Codec, lib: BloomCaches.BloomLib, shard: ShardID, cfg: WriterConfig, d0: Durable, d: Durable,
                     plan: Plan, k: nat, forBloom: seq<uint64>, rows: seq<Event>, opened0: int64, sealedAt: int64)
    requires plan.req == SealRequest(shard, shard / 256, opened0, sealedAt, cfg.retention, cfg.idxChunkSize)
    requires At(d0, d, plan, k) && Sorted(plan.rows) && multiset(plan.rows) == multiset(rows)
    requires Distinct(plan.hashes, plan.rows) && Distinct(forBloom, plan.rows)
    requires plan == MakePlan(c, lib, plan.req, plan.rows, forBloom, plan.hashes)
    ensures Asks(shard, cfg, plan.req, opened0, sealedAt) && Planned(c, lib, cfg, plan)
    ensures k == |plan.Batches()| ==> SealedRows(c, shard, cfg, d, rows, opened0, sealedAt)
  {
    hide At, Sorted, Distinct, MakePlan, Plan.Batches, Planned, SealedRows, Recorded;
    assert Asks(shard, cfg, plan.req, opened0, sealedAt);
    RequestPlanned(c, lib, shard, cfg, plan, forBloom, opened0, sealedAt);
    if k == |plan.Batches()| {
      SealIsRecorded(c, lib, d0, d, plan, forBloom, rows);
      RequestSealed(c, shard, cfg, d, plan.req, rows, opened0, sealedAt);
    }
  }

  lemma RequestPlanned(c: Codec, lib: BloomCaches.BloomLib, shard: ShardID, cfg: WriterConfig, plan: Plan,
                       forBloom: seq<uint64>, opened0: int64, sealedAt: int64)
    requires Asks(shard, cfg, plan.req, opened0, sealedAt) && Sorted(plan.rows)
    requires Distinct(plan.hashes, plan.rows) && Distinct(forBloom, plan.rows)
    requires plan == MakePlan(c, lib, plan.req, plan.rows, forBloom, plan.hashes)
    ensures Planned(c, lib, cfg, plan)
  {
    hide MakePlan, Distinct, Sorted;
  }

  lemma RequestSealed(c: Codec, shard: ShardID, cfg: WriterConfig, d: Durable, req: SealRequest, rows: seq<Event>,
                      opened0: int64, sealedAt: int64)
    requires d.Valid() && Asks(shard, cfg, req, opened0, sealedAt) && Recorded(c, d, req, rows)
    ensures SealedRows(c, shard, cfg, d, rows, opened0, sealedAt)
  {
    hide Recorded;
    forall q: SealRequest | Asks(shard, cfg, q, opened0, sealedAt) ensures Recorded(c, d, q, rows) {
      assert q == req;
    }
  }

  class ShardWriter {
    const disk: Disk
    const shard: ShardID
    const cfg: WriterConfig
    const codec: Codec
    const lib: BloomCaches.BloomLib
    const marshal: Event -> Bytes // encoding an event cannot fail
    const ring: RingBuf
    var memtable: Memtable
    var openedAt: int64
    ghost var view: WR.Writer

    /** The fields and the disk are what the writer machine's state says. */
    ghost predicate Valid()
      reads this, disk, ring, ring.buf, memtable
    {
      && disk.Valid() && ring.Valid() && memtable.Valid()
      && view.ring == ring.contents && view.mem == memtable.Rows()
      && view.openHour == HourOf(openedAt) && openedAt == HourOf(openedAt) * NANOS_PER_HOUR
      && BlocksOnDisk(codec, shard, disk.d, view.blocks)
    }

    /** The shard's WAL on disk is the machine's WAL. */
    ghost predicate WalAgrees()
      reads this, disk
    {
      disk.d.Valid() && WalHolds(disk.d.Current(), shard, MarshalAll(marshal, view.wal))
    }

    /** The counter has numbers left for n more appends. */
    ghost predicate Room(n: nat)
      reads disk
    {
      disk.d.Valid() && NextSeq(disk.d.Current(), shard) + n < TWO64
    }

    /** A writer for a shard that may already have live blocks and WAL rows. */
    constructor (disk: Disk, shard: ShardID, cfg: WriterConfig, ringSize: int64, codec: Codec,
                 lib: BloomCaches.BloomLib,
                 marshal: Event -> Bytes, now: int64, ghost blocks: map<int, seq<Event>>, ghost wal: seq<Event>)
      requires disk.Valid() && ringSize <= 0x4000_0000_0000_0000 && HasBoundary(now)
      requires BlocksOnDisk(codec, shard, disk.d, blocks)
      ensures Valid() && this.disk == disk && this.shard == shard && this.marshal == marshal
      ensures this.codec == codec && this.lib == lib && openedAt == HourOf(now) * NANOS_PER_HOUR
      ensures cfg.maxBlockBytes > 0 ==> this.cfg == cfg
      ensures cfg.maxBlockBytes <= 0 ==> this.cfg == cfg.(maxBlockBytes := 256 * 1024 * 1024)
      ensures view == WR.Writer([], [], wal, blocks, HourOf(now), [])
      ensures WalHolds(disk.d.Current(), shard, MarshalAll(marshal, wal)) ==> WalAgrees()
    {
      this.disk, this.shard, this.codec, this.lib, this.marshal := disk, shard, codec, lib, marshal;
      this.cfg := if cfg.maxBlockBytes <= 0 then cfg.(maxBlockBytes := 0x1000_0000) else cfg;
      ring := new RingBuf(ringSize);
      memtable := new Memtable();
      openedAt := HourBoundaryNano(now);
      HourBoundaryExact(now);
      view := WR.Writer([], [], wal, blocks, HourOf(now), []);
    }

    /** Write: pushes a prefix of the batch, all of it unless the ring filled up and the caller gave up. */
    method Write(events: seq<Event>) returns (ok: bool, ghost n: nat)
      requires Valid()
      modifies this`view, ring, ring.buf
      ensures Valid() && n <= |events| && (ok <==> n == |events|) && (!ok ==> |ring.contents| >= ring.buf.Length)
      ensures view == old(view).(ring := old(view).ring + events[..n], pushed := old(view).pushed + events[..n])
    {
      hide BlocksOnDisk, RingBuf.Valid;
      n := 0;
      for i := 0 to |events|
        invariant Valid() && n == i
        invariant view == old(view).(ring := old(view).ring + events[..i], pushed := old(view).pushed + events[..i])
      {
        var pushed := ring.Push(events[i]);
        if !pushed { return false, n; }
        assert events[..i + 1] == events[..i] + [events[i]];
        view := WR.Next(view, WR.Push(events[i]));
        n := i + 1;
      }
      assert events[..|events|] == events;
      ok := true;
    }

    /**
     * The first half of a tick: the ring's events go to the WAL and the memtable, in order. If nothing fails, every
     * append enters.
     */
    method Flush() returns (ghost entered: seq<bool>)
      requires Valid()
      modifies this`view, disk, ring, memtable
      ensures |entered| == |old(view).ring| && old(disk.faults) + WR.Missing(entered) <= disk.faults
      ensures disk.faults == old(disk.faults) ==> WR.AllSet(entered)
      ensures Valid() && view == WR.Next(old(view), WR.Flush(entered))
      ensures ForeignKept(old(disk.d).Current(), disk.d.Current(), shard)
      ensures old(WalAgrees()) && old(Room(|view.ring|)) ==> WalAgrees()
    {
      hide BlocksOnDisk, WalHolds, OtherKeysKept, ForeignKept, NextSeq, RingBuf.Valid, WR.Chosen;
      ghost var w, d0 := view, disk.d;
      var events := ring.DrainAll();
      entered := AppendAll(disk, shard, memtable, marshal, events, MarshalAll(marshal, w.wal));
      WR.MissingNone(entered);
      AppendKeepsBlocks(codec, shard, d0, disk.d, w.blocks);
      MarshalAppend(marshal, w.wal, WR.Chosen(events, entered));
      view := WR.Next(w, WR.Flush(entered));
    }

    /**
     * sealCurrent: whatever the outcome, a new memtable and block begin; the disk follows the machine. If nothing
     * fails, the seal commits.
     */
    method SealCurrent(sealedAt: int64) returns (ok: bool, ghost outcome: WR.Outcome, ghost plan: Plan)
      requires Valid() && view.ring == [] && view.mem != [] && HasBoundary(sealedAt)
      modifies this, disk, memtable
      ensures Valid() && fresh(memtable) && view == WR.Next(old(view), WR.FlushAndSeal([], HourOf(sealedAt), outcome))
      ensures ok ==> outcome.Committed?
      ensures Asks(shard, cfg, plan.req, old(openedAt), sealedAt) && Planned(codec, lib, cfg, plan)
      ensures multiset(plan.rows) == multiset(old(view.mem))
      ensures outcome.Committed? ==>
        SealedRows(codec, shard, cfg, disk.d, old(view.mem), old(openedAt), sealedAt)
      ensures openedAt == HourOf(sealedAt) * NANOS_PER_HOUR
      ensures old(disk.faults) <= disk.faults && (ok <==> disk.faults == old(disk.faults))
      ensures ForeignKept(old(disk.d).Current(), disk.d.Current(), shard)
      ensures shard < 0xFFFF && old(WalAgrees()) ==> WalAgrees()
    {
      hide BlocksOnDisk, WalHolds, ForeignKept, At, Plan.Batches, MakePlan, AllProgress, HourOf, RingBuf.Valid,
           RowBytes, OutcomeOf, Distinct, Sorted, MarshalAll, WR.BlocksAfter, SealedRows, Planned, Asks, Recorded;
      ghost var w, d0 := view, disk.d;
      var req := SealRequest(shard, shard / 256, openedAt, sealedAt, cfg.retention, cfg.idxChunkSize);
      var r;
      r, plan := Seal(disk, codec, lib, req, memtable);
      ok := r.Ok?;
      ghost var k: nat := |plan.Batches()|;
      if !ok { k :| At(d0, disk.d, plan, k); }
      ghost var forBloom :|
        Distinct(forBloom, plan.rows) && plan == MakePlan(codec, lib, req, plan.rows, forBloom, plan.hashes);
      outcome := SealFollows(codec, lib, marshal, d0, disk.d, plan, k, forBloom, w, HourOf(sealedAt));
      WriterSealed(codec, lib, shard, cfg, d0, disk.d, plan, k, forBloom, w.mem, openedAt, sealedAt);
      memtable := new Memtable();
      openedAt := HourBoundaryNano(sealedAt);
      BoundaryHour(sealedAt);
      view := WR.Next(w, WR.FlushAndSeal([], HourOf(sealedAt), outcome));
    }

    /**
     * flushAndMaybeSeal: one step of the writer machine, a seal exactly when one is due. No more appends are
     * missing than operations failed; if none failed, every append enters and the seal commits. The WAL on disk
     * stays the machine's until its counter runs out.
     */
    method FlushAndMaybeSeal(now: int64, force: bool) returns (ghost step: WR.Step)
      requires Valid() && HasBoundary(now)
      modifies this, disk, ring, memtable
      ensures Valid() && (memtable == old(memtable) || fresh(memtable))
      ensures step.Flush? || step.FlushAndSeal?
      ensures step.FlushAndSeal? <==> SealDue(cfg, old(view.mem + view.ring), old(view.openHour), now, force)
      ensures step.FlushAndSeal? ==> step.hour == HourOf(now)
      ensures WR.Enabled(old(view), step) && view == WR.Next(old(view), step)
      ensures old(disk.faults) + WR.Missing(step.entered) <= disk.faults
      ensures disk.faults == old(disk.faults) ==>
        WR.AllSet(step.entered) && (step.FlushAndSeal? ==> step.outcome.Committed?)
      ensures step.FlushAndSeal? && step.outcome.Committed? ==>
        SealedRows(codec, shard, cfg, disk.d, old(view.mem + view.ring), old(openedAt), now)
      ensures step.FlushAndSeal? ==> openedAt == HourOf(now) * NANOS_PER_HOUR
      ensures step.Flush? ==> openedAt == old(openedAt)
      ensures ForeignKept(old(disk.d).Current(), disk.d.Current(), shard)
      ensures shard < 0xFFFF && old(WalAgrees()) && old(Room(|view.ring|)) ==> WalAgrees()
    {
      hide BlocksOnDisk, WalHolds, ForeignKept, RingBuf.Valid, HourOf, DateOf, RowBytes, HasBoundary, HourChanged,
           WR.Chosen, SealedRows, Planned, Asks;
      ghost var w, d0 := view, disk.d;
      ghost var entered := Flush();
      ghost var m := disk.d.Current();
      step := WR.Flush(entered);
      assert |memtable.keyHashes| == |w.mem + w.ring|;
      if !cfg.sealing || |memtable.keyHashes| == 0 { return; }
      HourChangedExact(now, openedAt);
      RowBytesExact(memtable.Rows());
      var hourChanged := HourChanged(now, openedAt);
      var sizeExceeded := memtable.approxBytes >= cfg.maxBlockBytes;
      if force || hourChanged || sizeExceeded {
        var _, outcome, _ := SealCurrent(now);
        step := WR.FlushAndSeal(entered, HourOf(now), outcome);
        FlushThenSeal(w, entered, HourOf(now), outcome);
        ForeignTransitive(d0.Current(), m, disk.d.Current(), shard);
      }
    }
  }

  lemma BoundaryHour(t: int64)
    requires HasBoundary(t)
    ensures HourOf(HourBoundaryNano(t)) == HourOf(t) && HourBoundaryNano(t) == HourOf(t) * NANOS_PER_HOUR
  {
    HourBoundaryExact(t);
  }
}
