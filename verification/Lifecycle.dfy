/**
 * The whole store over time: seals of many shards, WAL writes, the reaper, the janitor, background
 * flushes and crashes, interleaved one disk operation at a time.
 */
module Lifecycle {
  import opened Bytes
  import opened Results
  import opened Keys
  import opened Storage
  import opened Meta
  import opened BlockIds
  import opened Format
  import opened RowOrder
  import opened BloomCaches
  import opened Sealer

  /** The libraries, the one retention period of the server, and the tiers the sweepers know. */
  datatype Env = Env(codec: Codec, lib: BloomLib, retention: nat, tiers: set<Tier>)

  datatype SealPc =
    | Start
    | TmpOpen
    | TmpSynced
    | BloomOpen
    | BloomSynced
    | Indexing(chunk: nat)
    | Deciding(pos: nat)
    | Failing(bloom: bool)

  datatype Job = Job(plan: Plan, pc: SealPc)

  datatype Phase =
    | Look
    | CheckFile(tier: Tier)
    | RemoveBlock(tier: Tier)
    | RemoveBloom(tier: Tier)
    | DeleteMeta
    | AwaitSync(pos: nat)

  /** A reaper cycle or a janitor sweep: the hour it read at its start and the entries still to visit. */
  datatype Sweep = Resting | Sweeping(at: uint64, entries: seq<ExpiredEntry>, phase: Phase)

  /** plans records, for the specification, every seal ever begun. */
  datatype State = State(d: Durable, now: nat, seals: map<ShardID, Job>, reaper: Sweep, janitor: Sweep,
                         plans: seq<Plan>)

  // ----- seals a ShardWriter asks for -----

  ghost predicate WellPlanned(env: Env, p: Plan) {
    && p.req.openedAt >= 0 && p.req.retention == env.retention && p.req.eventType == p.req.shard / 256
    && Sorted(p.rows) && Distinct(p.hashes, p.rows)
    && exists forBloom ::
        Distinct(forBloom, p.rows) && p == MakePlan(env.codec, env.lib, p.req, p.rows, forBloom, p.hashes)
  }

  /** The hour at which a block expires, read off its ID. */
  function ExpOf(env: Env, id: BlockID): int {
    (match ParseBlockHour(id) case Ok(h) => h case Err(_) => 0) + RetentionHours(env.retention)
  }

  lemma PlanExpiry(env: Env, p: Plan)
    requires WellPlanned(env, p) && env.retention < 0x8000_0000_0000_0000
    ensures p.Expiry() == ExpOf(env, p.Id()) < TWO64 - 1
  {
    ParseBuiltID(p.req.shard, p.req.openedAt);
    ExpiryFollowsHour(p.req.openedAt, p.req.retention);
  }

  function IndexChunks(p: Plan): seq<seq<uint64>> {
    Chunks(p.hashes, p.ChunkSize())
  }

  // ----- sealing, one disk operation at a time -----

  datatype SealOp =
    | WriteTmp(data: Bytes)
    | SyncTmp
    | WriteBloom(data: Bytes)
    | SyncBloom
    | Rename
    | Index
    | Decide
    | Done
    | Fail
    | DropBloom
    | DropTmp
    | Abandon

  predicate SealEnabled(d: Durable, job: Job, op: SealOp) {
    var tmp, bloom := TmpPath(job.plan.Id()), BloomPath(TIER_HOT, job.plan.Id());
    match op
    case WriteTmp(_) => job.pc.Start? || job.pc.TmpOpen?
    case SyncTmp => job.pc.TmpOpen? && tmp in d.files && d.files[tmp].data == job.plan.file
    case WriteBloom(_) => job.pc.TmpSynced? || job.pc.BloomOpen?
    case SyncBloom => job.pc.BloomOpen? && bloom in d.files && d.files[bloom].data == job.plan.bloom
    case Rename => job.pc.BloomSynced? && tmp in d.files
    case Index => d.Valid() && job.pc.Indexing? && job.pc.chunk < |IndexChunks(job.plan)|
    case Decide => d.Valid() && job.pc.Indexing? && job.pc.chunk == |IndexChunks(job.plan)|
    case Done => job.pc.Deciding? && d.synced >= job.pc.pos
    case Fail => !job.pc.Indexing? && !job.pc.Deciding? && !job.pc.Failing?
    case DropBloom => job.pc == Failing(true)
    case DropTmp => job.pc.Failing?
    case Abandon => job.pc.Failing? || job.pc.Indexing? || job.pc.Deciding?
  }

  function SealDisk(d: Durable, job: Job, op: SealOp): Durable
    requires SealEnabled(d, job, op)
  {
    var p := job.plan;
    match op
    case WriteTmp(data) => d.PutFile(TmpPath(p.Id()), File(data, false))
    case SyncTmp => d.PutFile(TmpPath(p.Id()), File(p.file, true))
    case WriteBloom(data) => d.PutFile(BloomPath(TIER_HOT, p.Id()), File(data, false))
    case SyncBloom => d.PutFile(BloomPath(TIER_HOT, p.Id()), File(p.bloom, true))
    case Rename => d.Renamed(TmpPath(p.Id()), BlockPath(TIER_HOT, p.Id()))
    case Index => d.Committed(IdxBatch(p.req.eventType, IndexChunks(p)[job.pc.chunk], p.Id()))
    case Decide => d.Committed(SealBatch(p.req.shard, p.Id(), p.meta, p.Expiry()))
    case DropBloom => d.DropFile(BloomPath(TIER_HOT, p.Id()))
    case DropTmp => d.DropFile(TmpPath(p.Id()))
    case Done => d
    case Fail => d
    case Abandon => d
  }

  /** The job's next program counter; None ends the job. */
  function SealPcAfter(d: Durable, job: Job, op: SealOp): Option<SealPc>
    requires SealEnabled(d, job, op)
  {
    match op
    case WriteTmp(_) => Some(TmpOpen)
    case SyncTmp => Some(TmpSynced)
    case WriteBloom(_) => Some(BloomOpen)
    case SyncBloom => Some(BloomSynced)
    case Rename => Some(Indexing(0))
    case Index => Some(Indexing(job.pc.chunk + 1))
    case Decide => Some(Deciding(|d.log|))
    case Fail => Some(Failing(job.pc.BloomOpen? || job.pc.BloomSynced?))
    case DropBloom => Some(job.pc)
    case DropTmp => Some(job.pc)
    case Done => None
    case Abandon => None
  }

  // ----- sweeping, one lookup or disk operation at a time -----

  /** Misread is a lookup whose read failed; Skip goes on after a failed best-effort delete. */
  datatype SweepOp = Begin | Lookup | Misread | Check | UnlinkBlock | UnlinkBloom | DeleteKeys | Proceed | Skip | Stop

  /** The clock in hours, as the sweepers read it. */
  function Hour(now: nat): uint64 {
    now % TWO64
  }

  predicate Busy(w: Sweep) {
    w.Sweeping? && w.entries != []
  }

  predicate SweepEnabled(d: Durable, w: Sweep, op: SweepOp) {
    match op
    case Begin => d.Valid() && w.Resting?
    case Lookup => d.Valid() && Busy(w) && w.phase.Look?
    case Misread => Busy(w) && w.phase.Look?
    case Check => Busy(w) && w.phase.CheckFile?
    case UnlinkBlock => Busy(w) && w.phase.RemoveBlock?
    case UnlinkBloom => Busy(w) && w.phase.RemoveBloom?
    case DeleteKeys => d.Valid() && Busy(w) && w.phase.DeleteMeta?
    case Proceed => Busy(w) && w.phase.AwaitSync? && d.synced >= w.phase.pos
    case Skip => Busy(w) && (w.phase.DeleteMeta? || w.phase.AwaitSync?)
    case Stop => w.Sweeping?
  }

  function SweepDisk(d: Durable, w: Sweep, op: SweepOp): Durable
    requires SweepEnabled(d, w, op)
  {
    match op
    case UnlinkBlock => d.DropFile(BlockPath(w.phase.tier, w.entries[0].id))
    case UnlinkBloom => d.DropFile(BloomPath(w.phase.tier, w.entries[0].id))
    case DeleteKeys => d.Committed(DeleteBlockAndExpiry(w.entries[0].hour, w.entries[0].id))
    case Begin => d
    case Lookup => d
    case Misread => d
    case Check => d
    case Proceed => d
    case Skip => d
    case Stop => d
  }

  /** What a sweeper does on looking up an entry's metadata: a look at its file, key deletion or the next entry. */
  function LookedUp(env: Env, d: Durable, w: Sweep, reaping: bool): Sweep
    requires d.Valid() && Busy(w)
  {
    var id := w.entries[0].id;
    match GetBlockMeta(d.Current(), id)
    case None => w.(phase := DeleteMeta)
    case Some(Err(_)) => w.(phase := DeleteMeta)
    case Some(Ok(bm)) =>
      if bm.tier !in env.tiers then w.(entries := w.entries[1..])
      else w.(phase := if reaping then RemoveBlock(bm.tier) else CheckFile(bm.tier))
  }

  /** The janitor goes on to the next entry if the block file is there. */
  function Checked(d: Durable, w: Sweep): Sweep
    requires Busy(w) && w.phase.CheckFile?
  {
    if BlockPath(w.phase.tier, w.entries[0].id) in d.files then w.(entries := w.entries[1..], phase := Look)
    else w.(phase := DeleteMeta)
  }

  function SweepAfter(env: Env, d: Durable, now: nat, w: Sweep, op: SweepOp, reaping: bool): Sweep
    requires SweepEnabled(d, w, op)
  {
    match op
    case Begin => Sweeping(Hour(now), Expired(d.Current(), Hour(now)), Look)
    case Lookup => LookedUp(env, d, w, reaping)
    case Misread => w.(phase := DeleteMeta)
    case Check => Checked(d, w)
    case UnlinkBlock => w.(phase := RemoveBloom(w.phase.tier))
    case UnlinkBloom => w.(phase := DeleteMeta)
    case DeleteKeys => w.(phase := AwaitSync(|d.log|))
    case Proceed => w.(entries := w.entries[1..], phase := Look)
    case Skip => w.(entries := w.entries[1..], phase := Look)
    case Stop => Resting
  }

  // ----- steps of the whole -----

  datatype Step =
    | Tick(hours: nat)
    | Flush(upto: nat)
    | WalWrite(key: Key, value: Option<Bytes>)
    | SealBegin(plan: Plan)
    | SealStep(shard: ShardID, sealOp: SealOp)
    | ReaperStep(sweepOp: SweepOp)
    | JanitorStep(sweepOp: SweepOp)
    | Crash(after: Durable)

  function WalBatch(k: Key, v: Option<Bytes>): seq<BatchOp> {
    match v
    case None => [Delete(Encode(k))]
    case Some(b) => [Set(Encode(k), b)]
  }

  ghost predicate Enabled(env: Env, st: State, step: Step) {
    match step
    case Tick(_) => true
    case Flush(upto) => st.d.synced <= upto < |st.d.log|
    case WalWrite(k, _) => st.d.Valid() && (k.Wal? || k.Seq?)
    case SealBegin(p) => WellPlanned(env, p) && p.req.shard !in st.seals
    case SealStep(s, op) => s in st.seals && SealEnabled(st.d, st.seals[s], op)
    case ReaperStep(op) => SweepEnabled(st.d, st.reaper, op)
    case JanitorStep(op) => SweepEnabled(st.d, st.janitor, op)
    case Crash(after) => CrashesTo(st.d, after)
  }

  function SealsAfter(seals: map<ShardID, Job>, s: ShardID, pc: Option<SealPc>): map<ShardID, Job>
    requires s in seals
  {
    match pc
    case None => seals - {s}
    case Some(c) => seals[s := Job(seals[s].plan, c)]
  }

  function SealNext(st: State, s: ShardID, op: SealOp): State
    requires s in st.seals && SealEnabled(st.d, st.seals[s], op)
  {
    st.(d := SealDisk(st.d, st.seals[s], op), seals := SealsAfter(st.seals, s, SealPcAfter(st.d, st.seals[s], op)))
  }

  ghost function Next(env: Env, st: State, step: Step): State
    requires Enabled(env, st, step)
  {
    match step
    case Tick(h) => st.(now := st.now + h)
    case Flush(upto) => st.(d := st.d.(synced := upto))
    case WalWrite(k, v) => st.(d := st.d.Committed(WalBatch(k, v)))
    case SealBegin(p) => st.(seals := st.seals[p.req.shard := Job(p, Start)], plans := st.plans + [p])
    case SealStep(s, op) => SealNext(st, s, op)
    case ReaperStep(op) => st.(d := SweepDisk(st.d, st.reaper, op),
        reaper := SweepAfter(env, st.d, st.now, st.reaper, op, true))
    case JanitorStep(op) => st.(d := SweepDisk(st.d, st.janitor, op),
        janitor := SweepAfter(env, st.d, st.now, st.janitor, op, false))
    case Crash(after) => st.(d := after, seals := map[], reaper := Resting, janitor := Resting)
  }

  /** A new server: no block, no index, no expiry keys, no files. */
  ghost predicate Init(st: State) {
    && st.d == Durable(map[], [map[]], 0)
    && st.seals == map[] && st.reaper == Resting && st.janitor == Resting && st.plans == []
  }

  ghost predicate IsRun(env: Env, states: seq<State>, steps: seq<Step>) {
    && |states| == |steps| + 1
    && Init(states[0])
    && (forall i :: 0 <= i < |steps| ==>
          Enabled(env, states[i], steps[i]) && states[i + 1] == Next(env, states[i], steps[i]))
  }
}
