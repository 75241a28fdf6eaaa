/** Sealing a memtable: files first, index chunks without sync, then one synced batch that decides. */
module Sealer {
  import opened Bytes
  import opened Results
  import opened Keys
  import opened Storage
  import opened Meta
  import opened BlockIds
  import opened Format
  import opened BlockFile
  import opened RowOrder
  import opened Memtables
  import opened BloomCaches

  const DEFAULT_IDX_CHUNK_SIZE: nat := 100_000
  const DEFAULT_RETENTION_HOURS: nat := 43_800 // 5 years

  /** retention is a non-negative duration in nanoseconds. */
  datatype SealRequest = SealRequest(shard: ShardID, eventType: byte, openedAt: int64, sealedAt: int64, retention: nat,
                                     idxChunkSize: int)

  /** Go's integer division truncates toward zero. */
  function TruncDiv(a: int, b: int): int
    requires b > 0
  {
    if a >= 0 then a / b else -((-a) / b)
  }

  function RetentionHours(retention: nat): nat {
    var h := retention / NANOS_PER_HOUR;
    if h == 0 then DEFAULT_RETENTION_HOURS else h
  }

  /** uint64 addition of the truncated open hour and the retention hours. */
  function ExpiryHour(openedAt: int64, retention: nat): uint64 {
    (TruncDiv(openedAt / 1_000_000_000, 3600) + RetentionHours(retention)) % TWO64
  }

  /** The open hour as the source computes it is the instant's hour from the epoch on, or at an hour's first second. */
  lemma OpenHourExact(openedAt: int64)
    ensures TruncDiv(openedAt / 1_000_000_000, 3600) == HourOf(openedAt) <==>
      openedAt >= 0 || openedAt / 1_000_000_000 % 3600 == 0
    ensures HourOf(openedAt) <= TruncDiv(openedAt / 1_000_000_000, 3600) <= HourOf(openedAt) + 1
  {
    var secs := openedAt / 1_000_000_000;
    assert secs / 3600 == openedAt / NANOS_PER_HOUR;
    if secs < 0 { NegatedQuotient(secs / 3600, secs % 3600); }
  }

  /** Dividing the negation rounds the other way. */
  lemma NegatedQuotient(q: int, r: int)
    requires 0 <= r < 3600
    ensures -((-(3600 * q + r)) / 3600) == if r == 0 then q else q + 1
  {}

  /** The expiry hour is the block's own hour plus the retention exactly when that sum is an hour since the epoch. */
  lemma ExpiryExact(openedAt: int64, retention: nat)
    requires retention < 0x8000_0000_0000_0000
    ensures ExpiryHour(openedAt, retention) == HourOf(openedAt) + RetentionHours(retention) <==>
      && (openedAt >= 0 || openedAt / 1_000_000_000 % 3600 == 0)
      && HourOf(openedAt) + RetentionHours(retention) >= 0
  {
    OpenHourExact(openedAt);
  }

  /**
   * From the epoch on, the expiry hour lies the whole hours of the retention after the block's hour; a retention of
   * less than an hour stands for five years.
   */
  lemma ExpiryKeepsRetention(openedAt: int64, retention: nat)
    requires openedAt >= 0 && retention < 0x8000_0000_0000_0000
    ensures var hours := ExpiryHour(openedAt, retention) - HourOf(openedAt);
      if retention < 3_600_000_000_000 then hours == 5 * 365 * 24
      else hours * 3_600_000_000_000 <= retention < (hours + 1) * 3_600_000_000_000
    ensures HourOf(openedAt) * 3_600_000_000_000 <= openedAt < (HourOf(openedAt) + 1) * 3_600_000_000_000
  {
    ExpiryFollowsHour(openedAt, retention);
  }

  lemma ExpiryFollowsHour(openedAt: int64, retention: nat)
    requires openedAt >= 0 && retention < 0x8000_0000_0000_0000
    ensures ExpiryHour(openedAt, retention) == HourOf(openedAt) + RetentionHours(retention) < TWO64 - 1
  {
    ExpiryExact(openedAt, retention);
  }

  /**
   * What a writer passes is the start of an hour. There the expiry hour is the block's hour plus the retention,
   * except that a sum before the epoch wraps to the last hours of the 64-bit range.
   */
  lemma BoundaryExpiry(openedAt: int64, retention: nat)
    requires retention < 0x8000_0000_0000_0000 && openedAt % NANOS_PER_HOUR == 0
    ensures var hour := HourOf(openedAt) + RetentionHours(retention);
      ExpiryHour(openedAt, retention) == if hour >= 0 then hour else TWO64 + hour
  {
    var secs := openedAt / 1_000_000_000;
    assert secs == HourOf(openedAt) * 3600;
    OpenHourExact(openedAt);
  }

  /** A block opened fifty thousand hours before the epoch under the default retention practically never expires. */
  lemma ExpiryWrapsBeforeEpoch()
    ensures ExpiryHour(-50_000 * NANOS_PER_HOUR, 0) == TWO64 - 6200
  {
    BoundaryExpiry(-50_000 * NANOS_PER_HOUR, 0);
  }

  // ----- what a seal writes -----

  /** All that a seal of these rows puts on disk; hashes are the distinct key hashes in the order they are indexed. */
  datatype Plan = Plan(req: SealRequest, rows: seq<Event>, hashes: seq<uint64>, file: Bytes, bloom: Bytes,
                       meta: BlockMeta)
  {
    function Id(): BlockID {
      BlockIDForShard(req.shard, req.openedAt)
    }

    function Expiry(): uint64 {
      ExpiryHour(req.openedAt, req.retention)
    }

    function ChunkSize(): nat {
      if req.idxChunkSize <= 0 then DEFAULT_IDX_CHUNK_SIZE else req.idxChunkSize
    }

    /** The index chunks, then the deciding batch. */
    function Batches(): seq<seq<BatchOp>> {
      IdxBatches(req.eventType, Chunks(hashes, ChunkSize()), Id()) + [SealBatch(req.shard, Id(), meta, Expiry())]
    }
  }

  function HeaderFor(req: SealRequest, n: nat): BlockHeader {
    BlockHeader(req.shard, req.eventType, req.openedAt, req.sealedAt, n % TWO64)
  }

  /** The distinct hashes are listed twice, for the bloom filter and for the index, each time in any order. */
  function MakePlan(c: Codec, lib: BloomLib, req: SealRequest, rows: seq<Event>, forBloom: seq<uint64>,
                    forIndex: seq<uint64>): Plan {
    var file := FileBytes(c, HeaderFor(req, |rows|), rows);
    Plan(req, rows, forIndex, file, lib.build(forBloom),
         BlockMeta(req.shard, req.openedAt, req.sealedAt, TIER_HOT, |file| % TWO64, c.crc(Body(c, rows))))
  }

  function Chunks(hashes: seq<uint64>, size: nat): seq<seq<uint64>>
    decreases |hashes|
  {
    if hashes == [] then []
    else if size == 0 || |hashes| <= size then [hashes]
    else [hashes[..size]] + Chunks(hashes[size..], size)
  }

  function IdxBatches(eventType: byte, chunks: seq<seq<uint64>>, id: BlockID): (r: seq<seq<BatchOp>>)
    ensures |r| == |chunks|
  {
    seq(|chunks|, i requires 0 <= i < |chunks| => IdxBatch(eventType, chunks[i], id))
  }

  /** The store after the first k batches. */
  function Stage(m: Store, batches: seq<seq<BatchOp>>, k: nat): Store
    requires k <= |batches|
  {
    if k == 0 then m else Apply(Stage(m, batches, k - 1), batches[k - 1])
  }

  function StageLog(d: Durable, batches: seq<seq<BatchOp>>, k: nat): seq<Store>
    requires d.Valid() && k <= |batches|
  {
    if k == 0 then d.log else StageLog(d, batches, k - 1) + [Stage(d.Current(), batches, k)]
  }

  lemma {:induction false} StageLogFacts(d: Durable, batches: seq<seq<BatchOp>>, k: nat)
    requires d.Valid() && k <= |batches|
    ensures |StageLog(d, batches, k)| == |d.log| + k
    ensures forall i :: 0 <= i < |d.log| ==> StageLog(d, batches, k)[i] == d.log[i]
    ensures forall i: nat :: i <= k ==> StageLog(d, batches, k)[|d.log| - 1 + i] == Stage(d.Current(), batches, i)
  {
    if k > 0 { StageLogFacts(d, batches, k - 1); }
  }

  // ----- how far a seal has come -----

  predicate OwnPath(p: Path, id: BlockID) {
    p == TmpPath(id) || p == BlockPath(TIER_HOT, id) || p == BloomPath(TIER_HOT, id)
  }

  ghost predicate OtherFilesKept(f: Files, f': Files, id: BlockID) {
    forall p :: !OwnPath(p, id) ==> (p in f <==> p in f') && (p in f ==> f[p] == f'[p])
  }

  /** A path holds what it held before, or the new file, durable and complete. */
  ghost predicate SameFile(f: Files, f': Files, p: Path) {
    (p in f <==> p in f') && (p in f ==> f[p] == f'[p])
  }

  /** Both files of the block are in place, complete and durable. */
  predicate Placed(d: Durable, id: BlockID, file: Bytes, bloom: Bytes) {
    d.HasDurable(BlockPath(TIER_HOT, id), file) && d.HasDurable(BloomPath(TIER_HOT, id), bloom)
  }

  /** k batches have entered the log; none before both files are durable. */
  ghost predicate At(d0: Durable, d: Durable, plan: Plan, k: nat) {
    && d0.Valid() && d.Valid() && k <= |plan.Batches()|
    && d.log == StageLog(d0, plan.Batches(), k)
    && (d.synced == d0.synced || (k == |plan.Batches()| && d.synced == |d.log| - 1))
    && OtherFilesKept(d0.files, d.files, plan.Id())
    && (SameFile(d0.files, d.files, BlockPath(TIER_HOT, plan.Id())) || Placed(d, plan.Id(), plan.file, plan.bloom))
    && (k > 0 ==> Placed(d, plan.Id(), plan.file, plan.bloom))
  }

  ghost predicate Progress(d0: Durable, d: Durable, plan: Plan) {
    exists k: nat :: At(d0, d, plan, k)
  }

  /** Every state in which power could be lost from some point on. */
  ghost predicate AllProgress(d0: Durable, history: seq<Durable>, start: nat, plan: Plan) {
    forall i :: start <= i < |history| ==> Progress(d0, history[i], plan)
  }

  // ----- writing the two files -----

  ghost predicate SameBut(f: Files, f': Files, p: Path) {
    forall q :: q != p ==> (q in f <==> q in f') && (q in f ==> f[q] == f'[q])
  }

  /** The state differs from d0 in this block's temporary and bloom file only. */
  ghost predicate Unplaced(d0: Durable, d: Durable, id: BlockID) {
    && d0.Valid() && d.log == d0.log && d.synced == d0.synced && OtherFilesKept(d0.files, d.files, id)
    && SameFile(d0.files, d.files, BlockPath(TIER_HOT, id))
  }

  ghost predicate AllUnplaced(d0: Durable, history: seq<Durable>, start: nat, id: BlockID) {
    forall i :: start <= i < |history| ==> Unplaced(d0, history[i], id)
  }

  /** The block file is as before, or the new one is there whole and its bloom file with it. */
  ghost predicate Writing(d0: Durable, d: Durable, id: BlockID, file: Bytes, bloom: Bytes) {
    && d0.Valid() && d.log == d0.log && d.synced == d0.synced && OtherFilesKept(d0.files, d.files, id)
    && (SameFile(d0.files, d.files, BlockPath(TIER_HOT, id)) || Placed(d, id, file, bloom))
  }

  ghost predicate AllWriting(d0: Durable, history: seq<Durable>, start: nat, id: BlockID, file: Bytes, bloom: Bytes) {
    forall i :: start <= i < |history| ==> Writing(d0, history[i], id, file, bloom)
  }

  /** The temporary file or the bloom file of a block. */
  predicate SidePath(p: Path, id: BlockID) {
    p == TmpPath(id) || p == BloomPath(TIER_HOT, id)
  }

  lemma WritingStep(d0: Durable, d: Durable, d': Durable, id: BlockID, p: Path)
    requires Unplaced(d0, d, id) && d'.log == d.log && d'.synced == d.synced && SameBut(d.files, d'.files, p)
    requires SidePath(p, id)
    ensures Unplaced(d0, d', id)
  {}

  function Joined(parts: seq<Bytes>): Bytes {
    if parts == [] then [] else Joined(parts[..|parts| - 1]) + parts[|parts| - 1]
  }

  /** The writes of one of the block's files: every state on the way leaves all other files and the store alone. */
  method WriteParts(disk: Disk, p: Path, parts: seq<Bytes>, id: BlockID, ghost d0: Durable,
                    ghost start: nat) returns (ok: bool)
    requires disk.Valid() && SidePath(p, id) && Unplaced(d0, disk.d, id)
    requires AllUnplaced(d0, disk.history, start, id)
    requires p in disk.d.files && disk.d.files[p].data == []
    modifies disk
    ensures disk.Valid() && Unplaced(d0, disk.d, id) && AllUnplaced(d0, disk.history, start, id)
    ensures SameBut(old(disk.d).files, disk.d.files, p)
    ensures ok ==> p in disk.d.files && disk.d.files[p].data == Joined(parts)
    ensures disk.faults == old(disk.faults) + Fault(ok)
  {
    hide Unplaced, SidePath;
    ok := true;
    for i := 0 to |parts|
      invariant disk.Valid() && Unplaced(d0, disk.d, id) && AllUnplaced(d0, disk.history, start, id)
      invariant SameBut(old(disk.d).files, disk.d.files, p)
      invariant p in disk.d.files && disk.d.files[p].data == Joined(parts[..i]) && disk.faults == old(disk.faults)
    {
      ghost var before := disk.d;
      ok := disk.Write(p, parts[i]);
      WritingStep(d0, before, disk.d, id, p);
      if !ok { return; }
      assert parts[..i + 1][..i] == parts[..i];
    }
    assert parts[..|parts|] == parts;
    ok := true;
  }

  /** Creates, writes and fsyncs one of the block's files; on failure the caller cleans up. */
  method WriteFile(disk: Disk, p: Path, parts: seq<Bytes>, id: BlockID, ghost d0: Durable,
                   ghost start: nat)
    returns (created: bool, ok: bool)
    requires disk.Valid() && SidePath(p, id) && Unplaced(d0, disk.d, id)
    requires AllUnplaced(d0, disk.history, start, id)
    modifies disk
    ensures disk.Valid() && Unplaced(d0, disk.d, id) && AllUnplaced(d0, disk.history, start, id)
    ensures SameBut(old(disk.d).files, disk.d.files, p) && (!created ==> disk.d == old(disk.d))
    ensures ok ==> created && disk.d.HasDurable(p, Joined(parts))
    ensures disk.faults == old(disk.faults) + Fault(ok)
  {
    hide Unplaced, SidePath, SameBut, Joined;
    ghost var first := disk.d;
    created := disk.Create(p);
    OneFile(first, p, File([], false));
    WritingStep(d0, first, disk.d, id, p);
    if !created { return false, false; }
    ghost var before := disk.d;
    ok := WriteParts(disk, p, parts, id, d0, start);
    SameButBoth(first.files, before.files, disk.d.files, p);
    if !ok { return true, false; }
    before := disk.d;
    ok := disk.Fsync(p);
    OneFile(before, p, File(before.files[p].data, true));
    SameButBoth(first.files, before.files, disk.d.files, p);
    WritingStep(d0, before, disk.d, id, p);
  }

  lemma OneFile(d: Durable, p: Path, f: File)
    ensures SameBut(d.files, d.PutFile(p, f).files, p) && SameBut(d.files, d.files, p)
  {}

  lemma SameButBoth(f: Files, f': Files, f'': Files, p: Path)
    requires SameBut(f, f', p) && SameBut(f', f'', p)
    ensures SameBut(f, f'', p)
  {}

  /** Best-effort removal on an error path. */
  method Discard(disk: Disk, p: Path, id: BlockID, ghost d0: Durable, ghost start: nat)
    requires disk.Valid() && SidePath(p, id) && Unplaced(d0, disk.d, id)
    requires AllUnplaced(d0, disk.history, start, id)
    modifies disk
    ensures disk.Valid() && Unplaced(d0, disk.d, id) && AllUnplaced(d0, disk.history, start, id)
    ensures old(disk.faults) <= disk.faults <= old(disk.faults) + 1 && SameBut(old(disk.d).files, disk.d.files, p)
    ensures disk.faults == old(disk.faults) ==> p !in disk.d.files
  {
    hide Unplaced, SidePath;
    ghost var before := disk.d;
    var _ := disk.Remove(p);
    WritingStep(d0, before, disk.d, id, p);
  }

  /**
   * Steps 1 to 4 of Seal: the fsynced block file, the fsynced bloom file, then the rename into the hot tier. In no
   * state on the way is the new block file in place without its bloom file. If nothing but one operation fails,
   * no new file is left over.
   */
  method PlaceFiles(disk: Disk, id: BlockID, block: seq<Bytes>, bloom: Bytes, ghost d0: Durable) returns (r: Result<()>)
    requires disk.Valid() && d0 == disk.d
    modifies disk
    ensures disk.Valid() && Writing(d0, disk.d, id, Joined(block), bloom)
    ensures AllWriting(d0, disk.history, |old(disk.history)|, id, Joined(block), bloom)
    ensures r.Ok? ==> Placed(disk.d, id, Joined(block), bloom) && TmpPath(id) !in disk.d.files
    ensures r.Err? ==> Unplaced(d0, disk.d, id)
    ensures disk.faults == old(disk.faults) + 1 ==> forall p :: p in disk.d.files ==> p in d0.files
    ensures old(disk.faults) <= disk.faults && (r.Ok? <==> disk.faults == old(disk.faults))
  {
    hide Unplaced, Writing;
    ghost var start, file := |disk.history|, Joined(block);
    assert Unplaced(d0, disk.d, id) by { NothingPlaced(d0, id); }
    var dirs := disk.Attempt();
    UnplacedWriting(d0, disk.d, disk.history, start, id, file, bloom);
    if !dirs { return Err("mkdir"); }
    var created, ok := WriteFile(disk, TmpPath(id), block, id, d0, start);
    UnplacedWriting(d0, disk.d, disk.history, start, id, file, bloom);
    if !created { return Err("create tmp block"); }
    if !ok {
      Discard(disk, TmpPath(id), id, d0, start);
      UnplacedWriting(d0, disk.d, disk.history, start, id, file, bloom);
      return Err("write block");
    }
    dirs := disk.Attempt();
    if !dirs {
      Discard(disk, TmpPath(id), id, d0, start);
      UnplacedWriting(d0, disk.d, disk.history, start, id, file, bloom);
      return Err("mkdir");
    }
    created, ok := WriteFile(disk, BloomPath(TIER_HOT, id), [bloom], id, d0, start);
    if !ok {
      if created { Discard(disk, BloomPath(TIER_HOT, id), id, d0, start); }
      Discard(disk, TmpPath(id), id, d0, start);
      UnplacedWriting(d0, disk.d, disk.history, start, id, file, bloom);
      return Err("write bloom");
    }
    JoinedOne(bloom);
    UnplacedWriting(d0, disk.d, disk.history, start, id, file, bloom);
    ghost var before := disk.d;
    ok := disk.Rename(TmpPath(id), BlockPath(TIER_HOT, id));
    if !ok {
      Discard(disk, BloomPath(TIER_HOT, id), id, d0, start);
      Discard(disk, TmpPath(id), id, d0, start);
      UnplacedWriting(d0, disk.d, disk.history, start, id, file, bloom);
      return Err("store.Put");
    }
    RenameStep(d0, before, disk.d, id, file, bloom);
    r := Ok(());
  }

  lemma NothingPlaced(d0: Durable, id: BlockID)
    requires d0.Valid()
    ensures Unplaced(d0, d0, id)
  {}

  lemma UnplacedWriting(d0: Durable, d: Durable, history: seq<Durable>, start: nat, id: BlockID, file: Bytes,
                        bloom: Bytes)
    requires Unplaced(d0, d, id) && AllUnplaced(d0, history, start, id)
    ensures Writing(d0, d, id, file, bloom) && AllWriting(d0, history, start, id, file, bloom)
  {}

  lemma JoinedOne(b: Bytes)
    ensures Joined([b]) == b
  {
    assert [b][..0] == [] && Joined([b]) == [] + b;
  }

  lemma RenameStep(d0: Durable, d: Durable, d': Durable, id: BlockID, file: Bytes, bloom: Bytes)
    requires Unplaced(d0, d, id) && d.HasDurable(TmpPath(id), file) && d.HasDurable(BloomPath(TIER_HOT, id), bloom)
    requires d' == d.Renamed(TmpPath(id), BlockPath(TIER_HOT, id))
    ensures Writing(d0, d', id, file, bloom) && Placed(d', id, file, bloom) && TmpPath(id) !in d'.files
  {}

  // ----- committing -----

  lemma StagedFiles(d0: Durable, d: Durable, plan: Plan)
    requires Writing(d0, d, plan.Id(), plan.file, plan.bloom)
    ensures At(d0, d, plan, 0)
  {}

  lemma {:induction false} WritingProgress(d0: Durable, history: seq<Durable>, start: nat, plan: Plan)
    requires AllWriting(d0, history, start, plan.Id(), plan.file, plan.bloom)
    ensures AllProgress(d0, history, start, plan)
  {
    forall i | start <= i < |history| ensures Progress(d0, history[i], plan) { StagedFiles(d0, history[i], plan); }
  }

  ghost predicate FilesReady(d: Durable, plan: Plan) {
    d.HasDurable(BlockPath(TIER_HOT, plan.Id()), plan.file) && d.HasDurable(BloomPath(TIER_HOT, plan.Id()), plan.bloom)
  }

  lemma CommitStep(d0: Durable, d: Durable, plan: Plan, k: nat)
    requires At(d0, d, plan, k) && k < |plan.Batches()| && FilesReady(d, plan)
    ensures var d' := d.Committed(plan.Batches()[k]);
      && At(d0, d', plan, k + 1) && FilesReady(d', plan)
      && (k + 1 == |plan.Batches()| ==> At(d0, d'.Synced(), plan, k + 1))
  {
    StageLogFacts(d0, plan.Batches(), k);
    assert d.Current() == Stage(d0.Current(), plan.Batches(), k);
  }

  /** One batch of the plan, whose commit may fail before or after entering the log. */
  method CommitBatch(disk: Disk, batch: seq<BatchOp>, sync: bool, ghost d0: Durable, ghost start: nat, ghost plan: Plan,
                     ghost k: nat)
    returns (ok: bool)
    requires disk.Valid() && At(d0, disk.d, plan, k) && k < |plan.Batches()| && batch == plan.Batches()[k]
    requires sync ==> k + 1 == |plan.Batches()|
    requires FilesReady(disk.d, plan) && AllProgress(d0, disk.history, start, plan)
    modifies disk
    ensures disk.Valid() && AllProgress(d0, disk.history, start, plan) && Progress(d0, disk.d, plan)
    ensures ok ==>
      At(d0, disk.d, plan, k + 1) && FilesReady(disk.d, plan) && (sync ==> disk.d.synced == |disk.d.log| - 1)
    ensures disk.faults == old(disk.faults) + Fault(ok)
  {
    hide At, FilesReady, Progress, AllProgress, Plan.Batches, Apply;
    CommitOutcomes(d0, disk.d, plan, k);
    ghost var before, hist := disk.d, disk.history;
    ok := disk.Commit(batch, sync);
    ghost var mid :| disk.history == hist + [mid, disk.d] && (mid == before || mid == before.Committed(batch));
    ExtendProgress(d0, hist, start, plan, mid, disk.d);
  }

  lemma CommitOutcomes(d0: Durable, d: Durable, plan: Plan, k: nat)
    requires At(d0, d, plan, k) && k < |plan.Batches()| && FilesReady(d, plan)
    ensures var d' := d.Committed(plan.Batches()[k]);
      && Progress(d0, d, plan) && Progress(d0, d', plan)
      && At(d0, d', plan, k + 1) && FilesReady(d', plan)
      && (k + 1 == |plan.Batches()| ==>
            Progress(d0, d'.Synced(), plan) && At(d0, d'.Synced(), plan, k + 1) && FilesReady(d'.Synced(), plan))
  {
    CommitStep(d0, d, plan, k);
  }

  lemma ExtendProgress(d0: Durable, history: seq<Durable>, start: nat, plan: Plan, mid: Durable, d: Durable)
    requires AllProgress(d0, history, start, plan) && Progress(d0, mid, plan) && Progress(d0, d, plan)
    ensures AllProgress(d0, history + [mid, d], start, plan)
  {}

  lemma ChunksNext(hashes: seq<uint64>, start: nat, size: nat)
    requires start < |hashes| && size > 0
    ensures var end := if start + size > |hashes| then |hashes| else start + size;
      Chunks(hashes[start..], size) == [hashes[start..end]] + Chunks(hashes[end..], size)
  {
    var rest := hashes[start..];
    if |rest| <= size {
      assert hashes[|hashes|..] == [];
      assert rest == hashes[start..|hashes|];
    } else {
      assert rest[..size] == hashes[start..start + size] && rest[size..] == hashes[start + size..];
    }
  }

  /** Step 5 of Seal: the index keys in unsynced chunks. */
  method PutIndex(disk: Disk, ghost d0: Durable, ghost start: nat, plan: Plan) returns (ok: bool)
    requires disk.Valid() && At(d0, disk.d, plan, 0) && FilesReady(disk.d, plan)
    requires AllProgress(d0, disk.history, start, plan)
    modifies disk
    ensures disk.Valid() && AllProgress(d0, disk.history, start, plan) && Progress(d0, disk.d, plan)
    ensures ok ==> At(d0, disk.d, plan, |plan.Batches()| - 1) && FilesReady(disk.d, plan)
    ensures disk.faults == old(disk.faults) + Fault(ok)
  {
    hide At, FilesReady, AllProgress, Progress, Chunks, Plan.Batches, Plan.Id, Plan.ChunkSize, IdxBatch;
    BatchesOf(plan);
    var size := plan.ChunkSize();
    var hashes := plan.hashes;
    ghost var chunks := Chunks(hashes, size);
    var from := 0;
    ghost var done: seq<seq<uint64>> := [];
    assert hashes[0..] == hashes;
    while from < |hashes|
      invariant 0 <= from <= |hashes| && chunks == done + Chunks(hashes[from..], size)
      invariant disk.Valid() && At(d0, disk.d, plan, |done|) && FilesReady(disk.d, plan)
      invariant AllProgress(d0, disk.history, start, plan) && disk.faults == old(disk.faults)
      decreases |hashes| - from
    {
      var end := from + size;
      if end > |hashes| { end := |hashes|; }
      ChunksNext(hashes, from, size);
      assert chunks[|done|] == hashes[from..end];
      var batch := IdxBatch(plan.req.eventType, hashes[from..end], plan.Id());
      BatchAt(plan, |done|);
      var committed := CommitBatch(disk, batch, false, d0, start, plan, |done|);
      if !committed { return false; }
      done := done + [hashes[from..end]];
      from := end;
    }
    NoChunks(hashes, size);
    ProgressFrom(d0, disk.d, plan, |done|);
    ok := true;
  }

  function Rejoined(chunks: seq<seq<uint64>>): seq<uint64> {
    if chunks == [] then [] else chunks[0] + Rejoined(chunks[1..])
  }

  /** The chunks are the hashes cut, in order, into pieces of the given size, of which only the last may be shorter. */
  lemma {:induction false} ChunksExact(hashes: seq<uint64>, size: nat)
    requires size > 0
    ensures var chunks := Chunks(hashes, size);
      && Rejoined(chunks) == hashes
      && (forall i :: 0 <= i < |chunks| ==> 0 < |chunks[i]| <= size)
      && (forall i :: 0 <= i < |chunks| - 1 ==> |chunks[i]| == size)
    decreases |hashes|
  {
    var chunks := Chunks(hashes, size);
    if |hashes| > size {
      ChunksExact(hashes[size..], size);
      assert chunks[1..] == Chunks(hashes[size..], size);
      assert hashes == hashes[..size] + hashes[size..];
    } else if hashes != [] {
      assert chunks[1..] == [] && Rejoined(chunks) == hashes + [];
    }
  }

  /** A seal's batches before the deciding one set the index keys, at most as many each as configured, or 100000. */
  lemma IndexInChunks(plan: Plan, k: nat)
    requires k < |plan.Batches()| - 1
    ensures 0 < |plan.Batches()[k]| <= if plan.req.idxChunkSize > 0 then plan.req.idxChunkSize else 100_000
  {
    hide Chunks;
    ChunksExact(plan.hashes, plan.ChunkSize());
    BatchAt(plan, k);
  }

  lemma BatchesOf(plan: Plan)
    ensures plan.ChunkSize() > 0 && |plan.Batches()| == |Chunks(plan.hashes, plan.ChunkSize())| + 1
  {}

  lemma BatchAt(plan: Plan, k: nat)
    requires k < |Chunks(plan.hashes, plan.ChunkSize())|
    ensures k < |plan.Batches()|
    ensures plan.Batches()[k] == IdxBatch(plan.req.eventType, Chunks(plan.hashes, plan.ChunkSize())[k], plan.Id())
  {}

  lemma NoChunks(hashes: seq<uint64>, size: nat)
    ensures Chunks(hashes[|hashes|..], size) == []
  {
    assert hashes[|hashes|..] == [];
  }

  ghost predicate Distinct(hashes: seq<uint64>, rows: seq<Event>) {
    forall h :: h in hashes <==> h in KeyHashes(rows)
  }

  /**
   * Seal: whatever fails and wherever power is lost, the durable state has made some progress through the
   * plan, and no batch of the plan enters the log before both files are durable. It succeeds exactly if nothing
   * failed.
   */
  method Seal(disk: Disk, c: Codec, lib: BloomLib, req: SealRequest, mt: Memtable)
    returns (r: Result<BlockID>, ghost plan: Plan)
    requires disk.Valid() && mt.Valid()
    modifies disk, mt
    ensures disk.Valid() && mt.Valid() && Sorted(mt.Rows()) && multiset(mt.Rows()) == multiset(old(mt.Rows()))
    ensures plan.req == req && plan.rows == mt.Rows() && Distinct(plan.hashes, plan.rows)
    ensures exists forBloom ::
      Distinct(forBloom, plan.rows) && plan == MakePlan(c, lib, req, plan.rows, forBloom, plan.hashes)
    ensures AllProgress(old(disk.d), disk.history, |old(disk.history)|, plan) && Progress(old(disk.d), disk.d, plan)
    ensures r.Ok? ==>
      r.value == plan.Id() && At(old(disk.d), disk.d, plan, |plan.Batches()|) && disk.d.synced == |disk.d.log| - 1
    ensures old(disk.faults) <= disk.faults && (r.Ok? <==> disk.faults == old(disk.faults))
  {
    hide At, FilesReady, AllProgress, AllWriting, Writing, Progress, FileBytes;
    ghost var d0, start := disk.d, |disk.history|;
    mt.Sort();
    var id := BlockIDForShard(req.shard, req.openedAt);
    ghost var rows := mt.Rows();
    var header, body, footer := BuildBlock(c, HeaderFor(req, |mt.keyHashes|), mt.keyHashes, mt.timestamps, mt.payloads,
                                           rows);
    var tail := EncodeFooter(footer);
    JoinedThree(header, body, tail);
    var forBloom := mt.UniqueKeyHashes();
    var forIndex := mt.UniqueKeyHashes();
    var bloom := lib.build(forBloom);
    FileIs(c, HeaderFor(req, |rows|), rows);
    var size := |header + body + tail|;
    var p := Plan(req, mt.Rows(), forIndex, header + body + tail, bloom,
                  BlockMeta(req.shard, req.openedAt, req.sealedAt, TIER_HOT, size % TWO64, footer.bodyChecksum));
    plan := p;
    assert plan == MakePlan(c, lib, req, rows, forBloom, forIndex);
    var placed := PlaceFiles(disk, id, [header, body, tail], bloom, d0);
    WritingProgress(d0, disk.history, start, plan);
    StagedFiles(d0, disk.d, plan);
    ProgressFrom(d0, disk.d, plan, 0);
    if placed.Err? { return Err(placed.reason), plan; }
    Ready(disk.d, plan);
    var indexed := PutIndex(disk, d0, start, p);
    if !indexed { return Err("put idx batch"), plan; }
    var ok := CommitBatch(disk, SealBatch(req.shard, id, p.meta, p.Expiry()), true, d0, start, plan,
                          |plan.Batches()| - 1);
    if !ok { return Err("seal batch"), plan; }
    r := Ok(id);
  }

  lemma ProgressFrom(d0: Durable, d: Durable, plan: Plan, k: nat)
    requires At(d0, d, plan, k)
    ensures Progress(d0, d, plan)
  {}

  lemma Ready(d: Durable, plan: Plan)
    requires d.HasDurable(BlockPath(TIER_HOT, plan.Id()), plan.file)
    requires d.HasDurable(BloomPath(TIER_HOT, plan.Id()), plan.bloom)
    ensures FilesReady(d, plan)
  {}

  lemma FileIs(c: Codec, h: BlockHeader, rows: seq<Event>)
    ensures FileBytes(c, h, rows) == EncodeHeader(c, h) + Body(c, rows) + FooterBytes(FooterOf(c, rows))
  {}

  lemma JoinedThree(a: Bytes, b: Bytes, d: Bytes)
    ensures Joined([a, b, d]) == a + b + d
  {
    assert [a, b, d][..2] == [a, b] && [a, b][..1] == [a];
    JoinedOne(a);
  }
}
