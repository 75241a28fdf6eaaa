/** What every reachable state of the store keeps, and that every step keeps it. */
module LifecycleInv {
  import opened Bytes
  import opened Results
  import opened Keys
  import opened Storage
  import opened Meta
  import opened BlockIds
  import opened Sealer
  import opened Lifecycle
  import SealCrash

  // ----- the invariant of one recoverable version of the map -----

  /** Exactly one expiry key per block metadata record, at the hour the block ID says, and none without. */
  ghost predicate Paired(env: Env, m: Store) {
    && (forall id :: BlockKey(id) in m ==> 0 <= ExpOf(env, id) < TWO64 && ExpiryKey(ExpOf(env, id), id) in m)
    && (forall h: uint64, id :: ExpiryKey(h, id) in m ==> BlockKey(id) in m && h == ExpOf(env, id))
  }

  ghost predicate PlannedMeta(plans: seq<Plan>, id: BlockID, rec: Bytes) {
    exists p :: p in plans && p.Id() == id && rec == EncodeBlockMeta(p.meta)
  }

  ghost predicate PlannedIdx(plans: seq<Plan>, id: BlockID, e: byte) {
    exists p :: p in plans && p.Id() == id && p.req.eventType == e
  }

  /** Metadata and index keys come from seals that were begun. */
  ghost predicate FromPlans(plans: seq<Plan>, m: Store) {
    && (forall id :: BlockKey(id) in m ==> PlannedMeta(plans, id, m[BlockKey(id)]))
    && (forall e: byte, h: uint64, id :: IdxKey(e, h, id) in m ==> PlannedIdx(plans, id, e))
  }

  /** The block of this plan was sealed, or began to be, only once. */
  ghost predicate Once(plans: seq<Plan>, p: Plan) {
    && p in plans
    && forall i, j :: 0 <= i < |plans| && 0 <= j < |plans| && plans[i].Id() == p.Id() == plans[j].Id() ==> i == j
  }

  ghost predicate HasKeys(m: Store, p: Plan, hashes: seq<uint64>) {
    forall h :: h in hashes ==> IdxKey(p.req.eventType, h, p.Id()) in m
  }

  ghost predicate Whole(plans: seq<Plan>, m: Store) {
    forall p :: Once(plans, p) && BlockKey(p.Id()) in m ==> HasKeys(m, p, p.hashes)
  }

  /** The plan's files have the plan's contents if they exist, and exist until the block expires. */
  ghost predicate Contents(env: Env, now: nat, files: Files, p: Plan) {
    var block, bloom := BlockPath(TIER_HOT, p.Id()), BloomPath(TIER_HOT, p.Id());
    && (block in files ==> files[block] == File(p.file, true))
    && (bloom in files ==> files[bloom] == File(p.bloom, true))
    && (ExpOf(env, p.Id()) > now ==> block in files && bloom in files)
  }

  ghost predicate HasBlockFile(files: Files, id: BlockID) {
    BlockPath(TIER_HOT, id) in files && files[BlockPath(TIER_HOT, id)].durable
  }

  /** An unexpired block with metadata has its block file. */
  ghost predicate Backed(env: Env, now: nat, files: Files, m: Store) {
    forall id :: BlockKey(id) in m && ExpOf(env, id) > now ==> HasBlockFile(files, id)
  }

  ghost predicate Faithful(env: Env, plans: seq<Plan>, now: nat, files: Files, m: Store) {
    forall p :: Once(plans, p) && BlockKey(p.Id()) in m ==> Contents(env, now, files, p)
  }

  ghost predicate VersionInv(env: Env, plans: seq<Plan>, now: nat, files: Files, m: Store) {
    && Paired(env, m) && FromPlans(plans, m) && Whole(plans, m)
    && Backed(env, now, files, m) && Faithful(env, plans, now, files, m)
  }

  ghost predicate VersionsInv(env: Env, plans: seq<Plan>, now: nat, d: Durable) {
    && d.Valid()
    && forall i :: d.synced <= i < |d.log| ==> VersionInv(env, plans, now, d.files, d.log[i])
  }

  // ----- the invariants of the actors -----

  ghost predicate JobFiles(env: Env, plans: seq<Plan>, now: nat, files: Files, job: Job) {
    var p := job.plan;
    var tmp, bloom := TmpPath(p.Id()), BloomPath(TIER_HOT, p.Id());
    && (job.pc.TmpSynced? || job.pc.BloomOpen? || job.pc.BloomSynced? ==>
          tmp in files && files[tmp] == File(p.file, true))
    && (job.pc.BloomSynced? && Once(plans, p) ==>
          (bloom in files ==> files[bloom] == File(p.bloom, true)) && (ExpOf(env, p.Id()) > now ==> bloom in files))
    && (job.pc.Indexing? ==> (ExpOf(env, p.Id()) > now ==> HasBlockFile(files, p.Id())))
    && (job.pc.Indexing? && Once(plans, p) ==> Contents(env, now, files, p))
  }

  ghost predicate JobKeys(m: Store, job: Job) {
    job.pc.Indexing? ==>
      && job.pc.chunk <= |IndexChunks(job.plan)|
      && forall i :: 0 <= i < job.pc.chunk ==> HasKeys(m, job.plan, IndexChunks(job.plan)[i])
  }

  /** Until its deciding batch, a block sealed once is unknown to every recoverable version. */
  ghost predicate JobFresh(plans: seq<Plan>, d: Durable, job: Job) {
    Once(plans, job.plan) && !job.pc.Deciding? ==> forall i :: d.synced <= i < |d.log| ==>
        BlockKey(job.plan.Id()) !in d.log[i]
  }

  ghost predicate JobInv(env: Env, plans: seq<Plan>, now: nat, d: Durable, s: ShardID, job: Job)
    requires d.Valid()
  {
    && job.plan in plans && WellPlanned(env, job.plan) && job.plan.req.shard == s
    && JobFiles(env, plans, now, d.files, job) && JobKeys(d.Current(), job) && JobFresh(plans, d, job)
  }

  ghost predicate JobsInv(env: Env, plans: seq<Plan>, now: nat, d: Durable, seals: map<ShardID, Job>)
    requires d.Valid()
  {
    forall s :: s in seals ==> JobInv(env, plans, now, d, s, seals[s])
  }

  /** A sweep visits only entries that were due when it began, at the hour their ID says. */
  ghost predicate SweepInv(env: Env, now: nat, w: Sweep) {
    w.Sweeping? ==> w.at <= now && forall e :: e in w.entries ==> e.hour <= w.at && e.hour == ExpOf(env, e.id)
  }

  ghost predicate Inv(env: Env, st: State) {
    && VersionsInv(env, st.plans, st.now, st.d)
    && JobsInv(env, st.plans, st.now, st.d, st.seals)
    && SweepInv(env, st.now, st.reaper) && SweepInv(env, st.now, st.janitor)
  }

  // ----- frames -----

  /** m' agrees with m on every key but WAL entries and counters. */
  ghost predicate SameBlocks(m: Store, m': Store) {
    forall k: Key :: !k.Wal? && !k.Seq? ==>
      (Encode(k) in m <==> Encode(k) in m') && (Encode(k) in m ==> m[Encode(k)] == m'[Encode(k)])
  }

  lemma SameBlocksKeys(m: Store, m': Store)
    requires SameBlocks(m, m')
    ensures forall id :: (BlockKey(id) in m <==> BlockKey(id) in m') && (BlockKey(id) in m ==>
      m[BlockKey(id)] == m'[BlockKey(id)])
    ensures forall h: uint64, id :: ExpiryKey(h, id) in m <==> ExpiryKey(h, id) in m'
    ensures forall e: byte, h: uint64, id :: IdxKey(e, h, id) in m <==> IdxKey(e, h, id) in m'
  {
    forall id
      ensures (BlockKey(id) in m <==> BlockKey(id) in m') && (BlockKey(id) in m ==> m[BlockKey(id)] == m'[BlockKey(id)])
    {
      assert Encode(Block(id)) == BlockKey(id);
    }
    forall h: uint64, id
      ensures ExpiryKey(h, id) in m <==> ExpiryKey(h, id) in m'
    {
      assert Encode(Expiry(h, id)) == ExpiryKey(h, id);
    }
    forall e: byte, h: uint64, id
      ensures IdxKey(e, h, id) in m <==> IdxKey(e, h, id) in m'
    {
      assert Encode(Idx(e, h, id)) == IdxKey(e, h, id);
    }
  }

  lemma VersionFrame(env: Env, plans: seq<Plan>, now: nat, files: Files, m: Store, m': Store)
    requires VersionInv(env, plans, now, files, m) && SameBlocks(m, m')
    ensures VersionInv(env, plans, now, files, m')
  {
    hide IdxKey, BlockKey, ExpiryKey, ExpOf, Once, Contents;
    SameBlocksKeys(m, m');
  }

  /** A commit of a version that keeps the invariant keeps every version's. */
  lemma CommitVersions(env: Env, plans: seq<Plan>, now: nat, d: Durable, batch: seq<BatchOp>)
    requires VersionsInv(env, plans, now, d) && VersionInv(env, plans, now, d.files, Apply(d.Current(), batch))
    ensures VersionsInv(env, plans, now, d.Committed(batch))
  {
    hide VersionInv;
  }

  ghost predicate IdxKept(m: Store, m': Store) {
    forall e: byte, h: uint64, id :: IdxKey(e, h, id) in m ==> IdxKey(e, h, id) in m'
  }

  lemma JobKeysKept(m: Store, m': Store, job: Job)
    requires JobKeys(m, job) && IdxKept(m, m')
    ensures JobKeys(m', job)
  {
    hide IdxKey, IndexChunks;
    if job.pc.Indexing? {
      forall i | 0 <= i < job.pc.chunk ensures HasKeys(m', job.plan, IndexChunks(job.plan)[i]) {
        assert HasKeys(m, job.plan, IndexChunks(job.plan)[i]);
      }
    }
  }

  /** A commit that drops no index key and adds no metadata of a job's block keeps the job's invariant. */
  lemma CommitJob(env: Env, plans: seq<Plan>, now: nat, d: Durable, batch: seq<BatchOp>, s: ShardID, job: Job)
    requires d.Valid() && JobInv(env, plans, now, d, s, job)
    requires IdxKept(d.Current(), Apply(d.Current(), batch))
    requires BlockKey(job.plan.Id()) in Apply(d.Current(), batch) ==> BlockKey(job.plan.Id()) in d.Current()
    ensures JobInv(env, plans, now, d.Committed(batch), s, job)
  {
    hide JobKeys, JobFiles, WellPlanned, BlockKey, Once, Apply, IdxKept;
    JobKeysKept(d.Current(), Apply(d.Current(), batch), job);
    assert d.Committed(batch).Current() == Apply(d.Current(), batch);
  }

  // ----- clock, flush, WAL -----

  lemma TickVersion(env: Env, plans: seq<Plan>, now: nat, now': nat, files: Files, m: Store)
    requires VersionInv(env, plans, now, files, m) && now <= now'
    ensures VersionInv(env, plans, now', files, m)
  {
    hide BlockKey, ExpOf, Once, HasBlockFile, Paired, FromPlans, Whole;
    forall p | Once(plans, p) && BlockKey(p.Id()) in m
      ensures Contents(env, now', files, p)
    {
      assert Contents(env, now, files, p);
    }
  }

  lemma TickKeeps(env: Env, st: State, h: nat)
    requires Inv(env, st)
    ensures Inv(env, st.(now := st.now + h))
  {
    hide VersionInv, JobKeys, JobFresh, WellPlanned, Once;
    forall i | st.d.synced <= i < |st.d.log| ensures VersionInv(env, st.plans, st.now + h, st.d.files, st.d.log[i]) {
      TickVersion(env, st.plans, st.now, st.now + h, st.d.files, st.d.log[i]);
    }
    forall s | s in st.seals ensures JobInv(env, st.plans, st.now + h, st.d, s, st.seals[s]) {
      assert JobInv(env, st.plans, st.now, st.d, s, st.seals[s]);
    }
  }

  lemma FlushKeeps(env: Env, st: State, upto: nat)
    requires Inv(env, st) && st.d.synced <= upto < |st.d.log|
    ensures Inv(env, st.(d := st.d.(synced := upto)))
  {
    hide VersionInv, JobKeys, JobFiles, WellPlanned, Once, SweepInv;
    forall s | s in st.seals ensures JobInv(env, st.plans, st.now, st.d.(synced := upto), s, st.seals[s]) {
      assert JobInv(env, st.plans, st.now, st.d, s, st.seals[s]);
    }
  }

  lemma WalBatchSameBlocks(m: Store, k: Key, v: Option<Bytes>)
    requires k.Wal? || k.Seq?
    ensures SameBlocks(m, Apply(m, WalBatch(k, v)))
  {
    var b := WalBatch(k, v);
    assert b[..0] == [];
    forall j: Key | !j.Wal? && !j.Seq? ensures Encode(j) != Encode(k) { EncodeInjective(j, k); }
  }

  lemma WalKeeps(env: Env, st: State, k: Key, v: Option<Bytes>)
    requires Inv(env, st) && (k.Wal? || k.Seq?)
    ensures Inv(env, st.(d := st.d.Committed(WalBatch(k, v))))
  {
    hide VersionInv, JobInv, SweepInv, SameBlocks, Apply, WalBatch;
    var m := st.d.Current();
    var m' := Apply(m, WalBatch(k, v));
    WalBatchSameBlocks(m, k, v);
    SameBlocksKeys(m, m');
    VersionFrame(env, st.plans, st.now, st.d.files, m, m');
    CommitVersions(env, st.plans, st.now, st.d, WalBatch(k, v));
    forall s | s in st.seals ensures JobInv(env, st.plans, st.now, st.d.Committed(WalBatch(k, v)), s, st.seals[s]) {
      CommitJob(env, st.plans, st.now, st.d, WalBatch(k, v), s, st.seals[s]);
    }
  }

  // ----- beginning a seal -----

  lemma OnceGrows(plans: seq<Plan>, q: Plan, p: Plan)
    requires Once(plans + [q], p)
    ensures p in plans ==> Once(plans, p) && q.Id() != p.Id()
    ensures p !in plans ==> p == q
    ensures q.Id() == p.Id() ==> forall r :: r in plans ==> r.Id() != q.Id()
  {
    hide Plan.Id;
    var all := plans + [q];
    assert all[|plans|] == q;
    if p in plans {
      var i :| 0 <= i < |plans| && plans[i] == p;
      assert all[i] == p;
      assert forall i :: 0 <= i < |plans| ==> all[i] == plans[i];
    }
    if q.Id() == p.Id() {
      forall r | r in plans ensures r.Id() != q.Id() {
        var i :| 0 <= i < |plans| && plans[i] == r;
        assert all[i] == r;
      }
    }
  }

  lemma OnceSame(plans: seq<Plan>, p: Plan, q: Plan)
    requires Once(plans, p) && q in plans && q.Id() == p.Id()
    ensures p == q
  {
    hide Plan.Id;
    var i :| 0 <= i < |plans| && plans[i] == p;
    var j :| 0 <= j < |plans| && plans[j] == q;
  }

  lemma PlansGrow(plans: seq<Plan>, q: Plan, m: Store)
    requires FromPlans(plans, m)
    ensures FromPlans(plans + [q], m)
  {
    hide Plan.Id, BlockKey, IdxKey, EncodeBlockMeta;
    forall id | BlockKey(id) in m ensures PlannedMeta(plans + [q], id, m[BlockKey(id)]) {
      var p :| p in plans && p.Id() == id && m[BlockKey(id)] == EncodeBlockMeta(p.meta);
      assert p in plans + [q];
    }
    forall e: byte, h: uint64, id | IdxKey(e, h, id) in m ensures PlannedIdx(plans + [q], id, e) {
      var p :| p in plans && p.Id() == id && p.req.eventType == e;
      assert p in plans + [q];
    }
  }

  /** A block ID no seal has begun is unknown to the store. */
  lemma UnknownBlock(plans: seq<Plan>, id: BlockID, m: Store)
    requires FromPlans(plans, m) && forall r :: r in plans ==> r.Id() != id
    ensures BlockKey(id) !in m
  {
    assert BlockKey(id) in m ==> PlannedMeta(plans, id, m[BlockKey(id)]);
  }

  lemma BeginVersion(env: Env, plans: seq<Plan>, now: nat, files: Files, m: Store, q: Plan)
    requires VersionInv(env, plans, now, files, m)
    ensures VersionInv(env, plans + [q], now, files, m)
  {
    hide Plan.Id, BlockKey, IdxKey, Once, FromPlans, Paired, Contents, HasKeys;
    PlansGrow(plans, q, m);
    forall p | Once(plans + [q], p) && BlockKey(p.Id()) in m
      ensures HasKeys(m, p, p.hashes) && Contents(env, now, files, p)
    {
      OnceGrows(plans, q, p);
      if p !in plans { UnknownBlock(plans, p.Id(), m); }
    }
  }

  lemma BeginJob(env: Env, plans: seq<Plan>, now: nat, d: Durable, q: Plan, s: ShardID, job: Job)
    requires d.Valid() && JobInv(env, plans, now, d, s, job)
    ensures JobInv(env, plans + [q], now, d, s, job)
  {
    hide Plan.Id, BlockKey, WellPlanned, JobKeys, Once, Contents, HasBlockFile, ExpOf;
    if Once(plans + [q], job.plan) { OnceGrows(plans, q, job.plan); }
  }

  lemma BeginKeeps(env: Env, st: State, q: Plan)
    requires Inv(env, st) && WellPlanned(env, q) && q.req.shard !in st.seals
    ensures Inv(env, st.(seals := st.seals[q.req.shard := Job(q, Start)], plans := st.plans + [q]))
  {
    hide VersionInv, SweepInv, JobInv, WellPlanned;
    var plans' := st.plans + [q];
    forall i | st.d.synced <= i < |st.d.log| ensures VersionInv(env, plans', st.now, st.d.files, st.d.log[i]) {
      BeginVersion(env, st.plans, st.now, st.d.files, st.d.log[i], q);
    }
    forall s | s in st.seals ensures JobInv(env, plans', st.now, st.d, s, st.seals[s]) {
      BeginJob(env, st.plans, st.now, st.d, q, s, st.seals[s]);
    }
    NewJob(env, st.plans, st.now, st.d, q);
  }

  lemma NewJob(env: Env, plans: seq<Plan>, now: nat, d: Durable, q: Plan)
    requires VersionsInv(env, plans, now, d) && WellPlanned(env, q)
    ensures JobInv(env, plans + [q], now, d, q.req.shard, Job(q, Start))
  {
    hide Plan.Id, BlockKey, WellPlanned, Once, Paired, Whole, Backed, Faithful, FromPlans;
    assert (plans + [q])[|plans|] == q;
    if Once(plans + [q], q) {
      OnceGrows(plans, q, q);
      forall i | d.synced <= i < |d.log|
        ensures BlockKey(q.Id()) !in d.log[i]
      {
        UnknownBlock(plans, q.Id(), d.log[i]);
      }
    }
  }

  // ----- file operations of a seal -----

  lemma FilesVersion(env: Env, plans: seq<Plan>, now: nat, files: Files, files': Files, m: Store, id: BlockID)
    requires VersionInv(env, plans, now, files, m) && OtherFilesKept(files, files', id)
    requires HasBlockFile(files, id) ==> HasBlockFile(files', id)
    requires forall p :: Once(plans, p) && p.Id() == id ==> BlockKey(id) !in m
    ensures VersionInv(env, plans, now, files', m)
  {
    hide BlockKey, ExpOf, Once, Paired, FromPlans, Whole, Plan.Id;
    forall x | BlockKey(x) in m && ExpOf(env, x) > now
      ensures HasBlockFile(files', x)
    {
      assert HasBlockFile(files, x);
    }
    forall p | Once(plans, p) && BlockKey(p.Id()) in m
      ensures Contents(env, now, files', p)
    {
      assert Contents(env, now, files, p);
    }
  }

  lemma OtherIds(p: Plan, q: Plan)
    requires p.req.shard != q.req.shard
    ensures p.Id() != q.Id()
  {
    BlockIdentity(p.req.shard, p.req.openedAt, q.req.shard, q.req.openedAt);
  }

  lemma OtherJob(env: Env, plans: seq<Plan>, now: nat, d: Durable, d': Durable, id: BlockID, s: ShardID, job: Job)
    requires d.Valid() && JobInv(env, plans, now, d, s, job) && job.plan.Id() != id
    requires d'.log == d.log && d'.synced == d.synced && OtherFilesKept(d.files, d'.files, id)
    ensures d'.Valid() && JobInv(env, plans, now, d', s, job)
  {
    hide WellPlanned, Once, JobKeys, BlockKey, ExpOf, Plan.Id;
  }

  /** An operation on a seal's own files keeps the invariant if it keeps the job's and any block file there was. */
  lemma FileOpKeeps(env: Env, st: State, s: ShardID, d': Durable, job': Job)
    requires Inv(env, st) && s in st.seals && job'.plan == st.seals[s].plan
    requires d'.log == st.d.log && d'.synced == st.d.synced && OtherFilesKept(st.d.files, d'.files, job'.plan.Id())
    requires HasBlockFile(st.d.files, job'.plan.Id()) ==> HasBlockFile(d'.files, job'.plan.Id())
    requires !st.seals[s].pc.Deciding? && !st.seals[s].pc.Indexing? && !job'.pc.Deciding?
    requires JobFiles(env, st.plans, st.now, d'.files, job') && (job'.pc.Indexing? ==> job'.pc.chunk == 0)
    ensures Inv(env, st.(d := d', seals := st.seals[s := job']))
  {
    hide VersionInv, SweepInv, WellPlanned, BlockKey, OtherFilesKept, HasBlockFile, JobFiles, Plan.Id, Once;
    var job := st.seals[s];
    var id := job.plan.Id();
    assert JobInv(env, st.plans, st.now, st.d, s, job);
    forall i | st.d.synced <= i < |st.d.log| ensures VersionInv(env, st.plans, st.now, d'.files, st.d.log[i]) {
      forall p | Once(st.plans, p) && p.Id() == id
        ensures BlockKey(id) !in st.d.log[i]
      {
        OnceSame(st.plans, p, job.plan);
      }
      FilesVersion(env, st.plans, st.now, st.d.files, d'.files, st.d.log[i], id);
    }
    forall t | t in st.seals && t != s ensures JobInv(env, st.plans, st.now, d', t, st.seals[t]) {
      assert JobInv(env, st.plans, st.now, st.d, t, st.seals[t]);
      OtherIds(st.seals[t].plan, job.plan);
      OtherJob(env, st.plans, st.now, st.d, d', id, t, st.seals[t]);
    }
  }

  predicate IsFileOp(op: SealOp) {
    op.WriteTmp? || op.SyncTmp? || op.WriteBloom? || op.SyncBloom? || op.Rename? || op.Fail? || op.DropBloom? ||
        op.DropTmp?
  }

  lemma FileOpJob(env: Env, plans: seq<Plan>, now: nat, d: Durable, job: Job, op: SealOp)
    requires d.Valid() && JobFiles(env, plans, now, d.files, job) && SealEnabled(d, job, op) && IsFileOp(op)
    ensures var d', job' := SealDisk(d, job, op), Job(job.plan, SealPcAfter(d, job, op).value);
      && d'.log == d.log && d'.synced == d.synced && OtherFilesKept(d.files, d'.files, job.plan.Id())
      && (HasBlockFile(d.files, job.plan.Id()) ==> HasBlockFile(d'.files, job.plan.Id()))
      && !job'.pc.Deciding? && JobFiles(env, plans, now, d'.files, job') && (job'.pc.Indexing? ==> job'.pc.chunk == 0)
  {
    hide Once, ExpOf, Plan.Id;
  }

  lemma SealFileKeeps(env: Env, st: State, s: ShardID, op: SealOp)
    requires Inv(env, st) && s in st.seals && SealEnabled(st.d, st.seals[s], op) && IsFileOp(op)
    ensures Inv(env, SealNext(st, s, op))
  {
    hide VersionInv, SweepInv, WellPlanned, JobFiles, HasBlockFile, OtherFilesKept, SealDisk, Plan.Id, JobKeys,
         JobFresh, IndexChunks;
    var job := st.seals[s];
    assert JobInv(env, st.plans, st.now, st.d, s, job);
    FileOpJob(env, st.plans, st.now, st.d, job, op);
    FileOpKeeps(env, st, s, SealDisk(st.d, job, op), Job(job.plan, SealPcAfter(st.d, job, op).value));
  }

  lemma SealEndKeeps(env: Env, st: State, s: ShardID)
    requires Inv(env, st)
    ensures Inv(env, st.(seals := st.seals - {s}))
  {
    hide VersionInv, SweepInv, JobInv;
  }

  // ----- index chunks -----

  lemma IndexVersion(env: Env, plans: seq<Plan>, now: nat, files: Files, m: Store, p: Plan, chunk: seq<uint64>)
    requires VersionInv(env, plans, now, files, m) && p in plans
    ensures var m' := Apply(m, IdxBatch(p.req.eventType, chunk, p.Id()));
      VersionInv(env, plans, now, files, m') && IdxKept(m, m') && HasKeys(m', p, chunk) &&
          forall id :: BlockKey(id) in m <==> BlockKey(id) in m'
  {
    hide ExpOf, Once, Contents, HasBlockFile, IdxBatch, Apply, EncodeBlockMeta;
    var m' := Apply(m, IdxBatch(p.req.eventType, chunk, p.Id()));
    IndexEffect(m, p, chunk);
    forall e: byte, h: uint64, id | IdxKey(e, h, id) in m' ensures PlannedIdx(plans, id, e) {
      if IdxKey(e, h, id) !in m { assert p in plans && p.Id() == id && p.req.eventType == e; }
    }
    forall q | Once(plans, q) && BlockKey(q.Id()) in m'
      ensures HasKeys(m', q, q.hashes)
    {
      assert HasKeys(m, q, q.hashes);
    }
  }

  lemma IndexEffect(m: Store, p: Plan, chunk: seq<uint64>)
    ensures var m' := Apply(m, IdxBatch(p.req.eventType, chunk, p.Id()));
      && IdxKept(m, m') && HasKeys(m', p, chunk)
      && (forall id :: (BlockKey(id) in m <==>
            BlockKey(id) in m') && (BlockKey(id) in m ==> m[BlockKey(id)] == m'[BlockKey(id)]))
      && (forall h: uint64, id :: ExpiryKey(h, id) in m <==> ExpiryKey(h, id) in m')
      && (forall e: byte, h: uint64, id :: IdxKey(e, h, id) in m' && IdxKey(e, h, id) !in m ==>
            e == p.req.eventType && id == p.Id())
  {
    hide Plan.Id, Apply, IdxBatch;
    var et, pid := p.req.eventType, p.Id();
    IdxBatchEffect(m, et, chunk, pid);
    forall id, h: uint64 ensures BlockKey(id) != IdxKey(et, h, pid) { EncodeInjective(Block(id), Idx(et, h, pid)); }
    forall x: uint64, id, h: uint64
      ensures ExpiryKey(x, id) != IdxKey(et, h, pid)
    {
      EncodeInjective(Expiry(x, id), Idx(et, h, pid));
    }
    forall e: byte, x: uint64, id, h: uint64 ensures IdxKey(e, x, id) == IdxKey(et, h, pid) ==> e == et && id == pid {
      EncodeInjective(Idx(e, x, id), Idx(et, h, pid));
    }
  }

  lemma IndexKeeps(env: Env, st: State, s: ShardID)
    requires Inv(env, st) && s in st.seals && SealEnabled(st.d, st.seals[s], Index)
    ensures Inv(env, SealNext(st, s, Index))
  {
    hide VersionInv, SweepInv, WellPlanned, JobFiles, Plan.Id, IndexChunks, Apply, IdxBatch, HasKeys, Once, BlockKey;
    var job := st.seals[s];
    var p, k := job.plan, job.pc.chunk;
    var batch := IdxBatch(p.req.eventType, IndexChunks(p)[k], p.Id());
    assert JobInv(env, st.plans, st.now, st.d, s, job);
    IndexVersion(env, st.plans, st.now, st.d.files, st.d.Current(), p, IndexChunks(p)[k]);
    CommitVersions(env, st.plans, st.now, st.d, batch);
    forall t | t in st.seals ensures JobInv(env, st.plans, st.now, st.d.Committed(batch), t, st.seals[t]) {
      CommitJob(env, st.plans, st.now, st.d, batch, t, st.seals[t]);
    }
    AdvanceJob(env, st.plans, st.now, st.d.Committed(batch), s, job);
  }

  lemma AdvanceJob(env: Env, plans: seq<Plan>, now: nat, d: Durable, s: ShardID, job: Job)
    requires d.Valid() && JobInv(env, plans, now, d, s, job) && job.pc.Indexing?
    requires job.pc.chunk < |IndexChunks(job.plan)|
    requires HasKeys(d.Current(), job.plan, IndexChunks(job.plan)[job.pc.chunk])
    ensures JobInv(env, plans, now, d, s, Job(job.plan, Indexing(job.pc.chunk + 1)))
  {
    hide WellPlanned, Plan.Id, IndexChunks, HasKeys, Once, BlockKey, Contents;
  }

  // ----- the deciding batch -----

  lemma DecideEffect(m: Store, p: Plan)
    ensures var m' := Apply(m, SealBatch(p.req.shard, p.Id(), p.meta, p.Expiry()));
      && IdxKept(m, m') && (forall e: byte, h: uint64, id :: IdxKey(e, h, id) in m' ==> IdxKey(e, h, id) in m)
      && (forall id :: BlockKey(id) in m' <==> BlockKey(id) in m || id == p.Id())
      && (forall id :: BlockKey(id) in m' ==>
            m'[BlockKey(id)] == if id == p.Id() then EncodeBlockMeta(p.meta) else m[BlockKey(id)])
      && (forall h: uint64, id :: ExpiryKey(h, id) in m' <==>
            ExpiryKey(h, id) in m || (h == p.Expiry() && id == p.Id()))
  {
    hide Plan.Id, Plan.Expiry, Apply, EncodeBlockMeta;
    var pid, eh := p.Id(), p.Expiry();
    SealBatchEffect(m, p.req.shard, pid, p.meta, eh);
    forall id ensures (BlockKey(id) == BlockKey(pid) <==> id == pid) && BlockKey(id) != ExpiryKey(eh, pid)
      && !InRange(BlockKey(id), WALKeyStart(p.req.shard), WALKeyEnd(p.req.shard)) {
      EncodeInjective(Block(id), Block(pid));
      EncodeInjective(Block(id), Expiry(eh, pid));
      WALRangeExact(p.req.shard, Block(id));
    }
    forall h: uint64, id
      ensures (ExpiryKey(h, id) == ExpiryKey(eh, pid) <==> h == eh && id == pid) && ExpiryKey(h, id) != BlockKey(pid)
      && !InRange(ExpiryKey(h, id), WALKeyStart(p.req.shard), WALKeyEnd(p.req.shard)) {
      EncodeInjective(Expiry(h, id), Expiry(eh, pid));
      EncodeInjective(Expiry(h, id), Block(pid));
      WALRangeExact(p.req.shard, Expiry(h, id));
    }
    forall e: byte, h: uint64, id ensures IdxKey(e, h, id) != BlockKey(pid) && IdxKey(e, h, id) != ExpiryKey(eh, pid)
      && !InRange(IdxKey(e, h, id), WALKeyStart(p.req.shard), WALKeyEnd(p.req.shard)) {
      EncodeInjective(Idx(e, h, id), Block(pid));
      EncodeInjective(Idx(e, h, id), Expiry(eh, pid));
      WALRangeExact(p.req.shard, Idx(e, h, id));
    }
  }

  lemma DecideVersion(env: Env, plans: seq<Plan>, now: nat, files: Files, m: Store, p: Plan)
    requires VersionInv(env, plans, now, files, m) && p in plans && WellPlanned(env, p)
    requires env.retention < 0x8000_0000_0000_0000
    requires ExpOf(env, p.Id()) > now ==> HasBlockFile(files, p.Id())
    requires Once(plans, p) ==> HasKeys(m, p, p.hashes) && Contents(env, now, files, p)
    ensures VersionInv(env, plans, now, files, Apply(m, SealBatch(p.req.shard, p.Id(), p.meta, p.Expiry())))
  {
    hide ExpOf, Once, Contents, HasBlockFile, SealBatch, Apply, EncodeBlockMeta, BlockKey, IdxKey, ExpiryKey, Plan.Id,
         Plan.Expiry;
    var m' := Apply(m, SealBatch(p.req.shard, p.Id(), p.meta, p.Expiry()));
    DecideEffect(m, p);
    PlanExpiry(env, p);
    assert Paired(env, m');
    forall id | BlockKey(id) in m' ensures PlannedMeta(plans, id, m'[BlockKey(id)]) {
      if id != p.Id() { assert PlannedMeta(plans, id, m[BlockKey(id)]); }
    }
    forall q | Once(plans, q) && BlockKey(q.Id()) in m'
      ensures HasKeys(m', q, q.hashes) && Contents(env, now, files, q)
    {
      if q.Id() == p.Id() { OnceSame(plans, q, p); }
      assert HasKeys(m, q, q.hashes);
    }
  }

  lemma AllChunks(m: Store, job: Job)
    requires JobKeys(m, job) && job.pc.Indexing? && job.pc.chunk == |IndexChunks(job.plan)|
    ensures HasKeys(m, job.plan, job.plan.hashes)
  {
    hide IdxKey, Chunks, Plan.Id;
    var p := job.plan;
    forall h | h in p.hashes ensures IdxKey(p.req.eventType, h, p.Id()) in m {
      SealCrash.ChunksCover(p.hashes, p.ChunkSize(), h);
      var i :| 0 <= i < |Chunks(p.hashes, p.ChunkSize())| && h in Chunks(p.hashes, p.ChunkSize())[i];
      assert HasKeys(m, p, IndexChunks(p)[i]);
    }
  }

  lemma DecideKeeps(env: Env, st: State, s: ShardID)
    requires Inv(env, st) && s in st.seals && SealEnabled(st.d, st.seals[s], Decide)
    requires env.retention < 0x8000_0000_0000_0000
    ensures Inv(env, SealNext(st, s, Decide))
  {
    hide VersionInv, SweepInv, WellPlanned, Plan.Id, Plan.Expiry, Apply, SealBatch, HasKeys, Once, BlockKey,
         IndexChunks, IdxKept, Contents;
    var job := st.seals[s];
    var p := job.plan;
    var batch := SealBatch(p.req.shard, p.Id(), p.meta, p.Expiry());
    assert JobInv(env, st.plans, st.now, st.d, s, job);
    AllChunks(st.d.Current(), job);
    DecideVersion(env, st.plans, st.now, st.d.files, st.d.Current(), p);
    CommitVersions(env, st.plans, st.now, st.d, batch);
    DecideEffect(st.d.Current(), p);
    forall t | t in st.seals && t != s ensures JobInv(env, st.plans, st.now, st.d.Committed(batch), t, st.seals[t]) {
      assert JobInv(env, st.plans, st.now, st.d, t, st.seals[t]);
      OtherIds(st.seals[t].plan, p);
      CommitJob(env, st.plans, st.now, st.d, batch, t, st.seals[t]);
    }
  }

  // ----- sweeps -----

  lemma UnlinkVersion(env: Env, plans: seq<Plan>, now: nat, files: Files, m: Store, path: Path)
    requires VersionInv(env, plans, now, files, m) && (path.BlockPath? || path.BloomPath?) && ExpOf(env, path.id) <= now
    ensures VersionInv(env, plans, now, files - {path}, m)
  {
    hide BlockKey, ExpOf, Once, Paired, FromPlans, Whole, Plan.Id;
    forall p | Once(plans, p) && BlockKey(p.Id()) in m
      ensures Contents(env, now, files - {path}, p)
    {
      assert Contents(env, now, files, p);
    }
  }

  lemma UnlinkJob(env: Env, plans: seq<Plan>, now: nat, d: Durable, s: ShardID, job: Job, path: Path)
    requires d.Valid() && JobInv(env, plans, now, d, s, job) && (path.BlockPath? || path.BloomPath?)
    requires ExpOf(env, path.id) <= now
    ensures JobInv(env, plans, now, d.DropFile(path), s, job)
  {
    hide WellPlanned, Once, JobKeys, BlockKey, ExpOf, Plan.Id;
  }

  lemma UnlinkKeeps(env: Env, st: State, path: Path)
    requires Inv(env, st) && (path.BlockPath? || path.BloomPath?) && ExpOf(env, path.id) <= st.now
    ensures Inv(env, st.(d := st.d.DropFile(path)))
  {
    hide VersionInv, JobInv, SweepInv, ExpOf;
    forall i | st.d.synced <= i < |st.d.log|
      ensures VersionInv(env, st.plans, st.now, st.d.files - {path}, st.d.log[i])
    {
      UnlinkVersion(env, st.plans, st.now, st.d.files, st.d.log[i], path);
    }
    forall s | s in st.seals ensures JobInv(env, st.plans, st.now, st.d.DropFile(path), s, st.seals[s]) {
      UnlinkJob(env, st.plans, st.now, st.d, s, st.seals[s], path);
    }
  }

  lemma DeleteEffect(m: Store, hour: uint64, id: BlockID)
    ensures var m' := Apply(m, DeleteBlockAndExpiry(hour, id));
      && IdxKept(m, m') && (forall e: byte, h: uint64, x :: IdxKey(e, h, x) in m' ==> IdxKey(e, h, x) in m)
      && (forall x :: (BlockKey(x) in m' <==>
            BlockKey(x) in m && x != id) && (BlockKey(x) in m' ==> m'[BlockKey(x)] == m[BlockKey(x)]))
      && (forall h: uint64, x :: ExpiryKey(h, x) in m' <==> ExpiryKey(h, x) in m && !(h == hour && x == id))
  {
    hide Apply;
    DeleteBatchEffect(m, hour, id);
    forall x ensures (BlockKey(x) == BlockKey(id) <==> x == id) && BlockKey(x) != ExpiryKey(hour, id) {
      EncodeInjective(Block(x), Block(id));
      EncodeInjective(Block(x), Expiry(hour, id));
    }
    forall h: uint64, x
      ensures (ExpiryKey(h, x) == ExpiryKey(hour, id) <==> h == hour && x == id) && ExpiryKey(h, x) != BlockKey(id)
    {
      EncodeInjective(Expiry(h, x), Expiry(hour, id));
      EncodeInjective(Expiry(h, x), Block(id));
    }
    forall e: byte, h: uint64, x ensures IdxKey(e, h, x) != BlockKey(id) && IdxKey(e, h, x) != ExpiryKey(hour, id) {
      EncodeInjective(Idx(e, h, x), Block(id));
      EncodeInjective(Idx(e, h, x), Expiry(hour, id));
    }
  }

  lemma DeleteVersion(env: Env, plans: seq<Plan>, now: nat, files: Files, m: Store, hour: uint64, id: BlockID)
    requires VersionInv(env, plans, now, files, m) && hour == ExpOf(env, id)
    ensures VersionInv(env, plans, now, files, Apply(m, DeleteBlockAndExpiry(hour, id)))
  {
    hide ExpOf, Once, Contents, HasBlockFile, Apply, EncodeBlockMeta, BlockKey, IdxKey, ExpiryKey, Plan.Id,
         DeleteBlockAndExpiry;
    var m' := Apply(m, DeleteBlockAndExpiry(hour, id));
    DeleteEffect(m, hour, id);
    forall q | Once(plans, q) && BlockKey(q.Id()) in m'
      ensures HasKeys(m', q, q.hashes)
    {
      assert HasKeys(m, q, q.hashes);
    }
  }

  lemma DeleteKeeps(env: Env, st: State, hour: uint64, id: BlockID)
    requires Inv(env, st) && hour == ExpOf(env, id)
    ensures Inv(env, st.(d := st.d.Committed(DeleteBlockAndExpiry(hour, id))))
  {
    hide VersionInv, JobInv, SweepInv, ExpOf, Apply, DeleteBlockAndExpiry, IdxKept, BlockKey;
    var batch := DeleteBlockAndExpiry(hour, id);
    DeleteVersion(env, st.plans, st.now, st.d.files, st.d.Current(), hour, id);
    CommitVersions(env, st.plans, st.now, st.d, batch);
    DeleteEffect(st.d.Current(), hour, id);
    forall s | s in st.seals ensures JobInv(env, st.plans, st.now, st.d.Committed(batch), s, st.seals[s]) {
      CommitJob(env, st.plans, st.now, st.d, batch, s, st.seals[s]);
    }
  }

  /** The next state of a sweep again visits only due entries. */
  lemma SweepAfterInv(env: Env, plans: seq<Plan>, d: Durable, now: nat, w: Sweep, op: SweepOp, reaping: bool)
    requires VersionsInv(env, plans, now, d) && SweepInv(env, now, w) && SweepEnabled(d, w, op)
    ensures SweepInv(env, now, SweepAfter(env, d, now, w, op, reaping))
  {
    hide ExpOf, FromPlans, Whole, Backed, Faithful, Expired, GetBlockMeta;
    if op.Begin? {
      ExpiredExact(d.Current(), Hour(now));
      assert VersionInv(env, plans, now, d.files, d.Current());
    }
    if w.Sweeping? && w.entries != [] { assert forall e :: e in w.entries[1..] ==> e in w.entries; }
  }

  lemma SweepDiskKeeps(env: Env, st: State, w: Sweep, op: SweepOp)
    requires Inv(env, st) && SweepInv(env, st.now, w) && SweepEnabled(st.d, w, op)
    ensures Inv(env, st.(d := SweepDisk(st.d, w, op)))
  {
    hide VersionsInv, JobsInv, ExpOf;
    if w.Sweeping? && w.entries != [] { assert w.entries[0] in w.entries; }
    match op
    case UnlinkBlock => UnlinkKeeps(env, st, BlockPath(w.phase.tier, w.entries[0].id));
    case UnlinkBloom => UnlinkKeeps(env, st, BloomPath(w.phase.tier, w.entries[0].id));
    case DeleteKeys => DeleteKeeps(env, st, w.entries[0].hour, w.entries[0].id);
    case Begin =>
    case Lookup =>
    case Misread =>
    case Check =>
    case Proceed =>
    case Skip =>
    case Stop =>
  }

  // ----- crash -----

  lemma CrashVersion(env: Env, plans: seq<Plan>, now: nat, d: Durable, r: Durable)
    requires VersionsInv(env, plans, now, d) && CrashesTo(d, r)
    ensures VersionsInv(env, plans, now, r)
  {
    hide Once, Paired, FromPlans, Whole, ExpOf, BlockKey, Plan.Id;
    var i :| d.synced <= i < |d.log| && r.log[0] == d.log[i];
    var m := d.log[i];
    assert VersionInv(env, plans, now, d.files, m);
    forall id | BlockKey(id) in m && ExpOf(env, id) > now
      ensures HasBlockFile(r.files, id)
    {
      assert HasBlockFile(d.files, id);
    }
    forall p | Once(plans, p) && BlockKey(p.Id()) in m
      ensures Contents(env, now, r.files, p)
    {
      assert Contents(env, now, d.files, p);
    }
  }

  // ----- every reachable state -----

  lemma StepKeeps(env: Env, st: State, step: Step)
    requires Inv(env, st) && Enabled(env, st, step) && env.retention < 0x8000_0000_0000_0000
    ensures Inv(env, Next(env, st, step))
  {
    hide VersionsInv, JobsInv, SweepInv, SealEnabled, SweepEnabled, SealDisk, SweepDisk, SweepAfter, WellPlanned,
         CrashesTo;
    match step
    case Tick(h) => TickKeeps(env, st, h);
    case Flush(upto) => FlushKeeps(env, st, upto);
    case WalWrite(k, v) => WalKeeps(env, st, k, v);
    case SealBegin(p) => BeginKeeps(env, st, p);
    case SealStep(s, op) =>
      if IsFileOp(op) { SealFileKeeps(env, st, s, op); }
      else if op.Index? { IndexKeeps(env, st, s); }
      else if op.Decide? { DecideKeeps(env, st, s); }
      else { SealEndStep(env, st, s, op); }
    case ReaperStep(op) =>
      SweepAfterInv(env, st.plans, st.d, st.now, st.reaper, op, true);
      SweepDiskKeeps(env, st, st.reaper, op);
    case JanitorStep(op) =>
      SweepAfterInv(env, st.plans, st.d, st.now, st.janitor, op, false);
      SweepDiskKeeps(env, st, st.janitor, op);
    case Crash(r) => CrashKeeps(env, st, r);
  }

  lemma SealEndStep(env: Env, st: State, s: ShardID, op: SealOp)
    requires Inv(env, st) && s in st.seals && SealEnabled(st.d, st.seals[s], op) && (op.Done? || op.Abandon?)
    ensures Inv(env, SealNext(st, s, op))
  {
    hide Inv;
    SealEndKeeps(env, st, s);
  }

  lemma CrashKeeps(env: Env, st: State, r: Durable)
    requires Inv(env, st) && CrashesTo(st.d, r)
    ensures Inv(env, st.(d := r, seals := map[], reaper := Resting, janitor := Resting))
  {
    CrashVersion(env, st.plans, st.now, st.d, r);
  }

  lemma InitInv(env: Env, st: State)
    requires Init(st)
    ensures Inv(env, st)
  {}

  lemma {:induction false} Reachable(env: Env, states: seq<State>, steps: seq<Step>, n: nat)
    requires IsRun(env, states, steps) && n <= |steps| && env.retention < 0x8000_0000_0000_0000
    ensures Inv(env, states[n])
  {
    hide Inv, Enabled, Next;
    if n == 0 {
      InitInv(env, states[0]);
    } else {
      Reachable(env, states, steps, n - 1);
      StepKeeps(env, states[n - 1], steps[n - 1]);
    }
  }
}
