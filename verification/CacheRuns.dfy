/**
 * The bloom cache beside the running store: nothing ever evicts a deleted block's filter, and it still never
 * misleads.
 */
module CacheRuns {
  import opened Bytes
  import opened Results
  import opened Keys
  import opened Storage
  import opened Meta
  import opened BloomCaches
  import opened Sealer
  import L = Lifecycle
  import opened LifecycleInv

  /** Some index key names the block. */
  ghost predicate Known(m: Store, id: BlockID) {
    exists e: byte, h: uint64 :: IdxKey(e, h, id) in m
  }

  /** The block's bloom file, if there is one, is the one its seal built. */
  predicate BloomIs(files: Files, p: Plan) {
    var bloom := BloomPath(TIER_HOT, p.Id());
    bloom in files ==> files[bloom] == File(p.bloom, true)
  }

  /** In every recoverable version an indexed block that was sealed once has its own bloom file or none. */
  ghost predicate VersionBlooms(plans: seq<Plan>, files: Files, m: Store) {
    forall p :: Once(plans, p) && Known(m, p.Id()) ==> BloomIs(files, p)
  }

  ghost predicate Blooms(plans: seq<Plan>, d: Durable) {
    forall i :: d.synced <= i < |d.log| ==> VersionBlooms(plans, d.files, d.log[i])
  }

  /** A seal that has not reached its index chunks has no index key in any recoverable version. */
  ghost predicate Unindexed(plans: seq<Plan>, d: Durable, job: L.Job) {
    Once(plans, job.plan) && !job.pc.Indexing? && !job.pc.Deciding? ==>
      forall i :: d.synced <= i < |d.log| ==> !Known(d.log[i], job.plan.Id())
  }

  ghost predicate BloomInv(st: L.State) {
    && Blooms(st.plans, st.d)
    && forall s :: s in st.seals ==> Unindexed(st.plans, st.d, st.seals[s])
  }

  // ----- every step keeps it -----

  /** Every index key of m' was in m already, except those of one block. */
  ghost predicate NoNewIdx(m: Store, m': Store, id: BlockID) {
    forall x :: x != id && Known(m', x) ==> Known(m, x)
  }

  /** A commit whose new version only newly indexes one block, whose bloom file is right. */
  lemma CommitBlooms(st: L.State, batch: seq<BatchOp>, id: BlockID)
    requires st.d.Valid() && BloomInv(st) && NoNewIdx(st.d.Current(), Apply(st.d.Current(), batch), id)
    requires forall p :: Once(st.plans, p) && p.Id() == id ==> BloomIs(st.d.files, p)
    requires forall s :: s in st.seals && st.seals[s].plan.Id() == id ==>
      st.seals[s].pc.Indexing? || st.seals[s].pc.Deciding?
    ensures BloomInv(st.(d := st.d.Committed(batch)))
  {
    hide Known, BloomIs, Once, Apply, Plan.Id;
    var d, d' := st.d, st.d.Committed(batch);
    var m, m' := d.Current(), Apply(d.Current(), batch);
    assert VersionBlooms(st.plans, d.files, m);
    forall i | d'.synced <= i < |d'.log| ensures VersionBlooms(st.plans, d'.files, d'.log[i]) {
      if i == |d.log| { assert d'.log[i] == m'; } else { assert VersionBlooms(st.plans, d.files, d.log[i]); }
    }
    forall s | s in st.seals ensures Unindexed(st.plans, d', st.seals[s]) {
      assert Unindexed(st.plans, d, st.seals[s]);
    }
  }

  lemma SameIdx(m: Store, m': Store)
    requires forall e: byte, h: uint64, x :: IdxKey(e, h, x) in m' ==> IdxKey(e, h, x) in m
    ensures forall x :: Known(m', x) ==> Known(m, x)
  {
    hide IdxKey;
    forall x | Known(m', x) ensures Known(m, x) {
      var e: byte, h: uint64 :| IdxKey(e, h, x) in m';
      assert IdxKey(e, h, x) in m;
    }
  }

  /** A commit that indexes nothing new. */
  lemma QuietCommit(st: L.State, batch: seq<BatchOp>)
    requires st.d.Valid() && BloomInv(st)
    requires forall e: byte, h: uint64, x :: IdxKey(e, h, x) in Apply(st.d.Current(), batch) ==>
      IdxKey(e, h, x) in st.d.Current()
    ensures BloomInv(st.(d := st.d.Committed(batch)))
  {
    hide Known, BloomIs, Once, Apply, Plan.Id, IdxKey;
    var d, d' := st.d, st.d.Committed(batch);
    var m, m' := d.Current(), Apply(d.Current(), batch);
    SameIdx(m, m');
    assert VersionBlooms(st.plans, d.files, m);
    forall i | d'.synced <= i < |d'.log| ensures VersionBlooms(st.plans, d'.files, d'.log[i]) {
      if i == |d.log| { assert d'.log[i] == m'; } else { assert VersionBlooms(st.plans, d.files, d.log[i]); }
    }
    forall s | s in st.seals ensures Unindexed(st.plans, d', st.seals[s]) {
      assert Unindexed(st.plans, d, st.seals[s]);
    }
  }

  lemma WalBlooms(st: L.State, k: Key, v: Option<Bytes>)
    requires st.d.Valid() && BloomInv(st) && (k.Wal? || k.Seq?)
    ensures BloomInv(st.(d := st.d.Committed(L.WalBatch(k, v))))
  {
    hide BloomInv, Apply, L.WalBatch, IdxKey, SameBlocks;
    WalBatchSameBlocks(st.d.Current(), k, v);
    SameBlocksKeys(st.d.Current(), Apply(st.d.Current(), L.WalBatch(k, v)));
    QuietCommit(st, L.WalBatch(k, v));
  }

  lemma UnknownIdx(plans: seq<Plan>, id: BlockID, m: Store)
    requires FromPlans(plans, m) && forall r :: r in plans ==> r.Id() != id
    ensures !Known(m, id)
  {
    assert forall e: byte, h: uint64 :: IdxKey(e, h, id) in m ==> PlannedIdx(plans, id, e);
  }

  lemma BeginBlooms(env: L.Env, st: L.State, q: Plan)
    requires VersionsInv(env, st.plans, st.now, st.d) && BloomInv(st)
    ensures BloomInv(st.(seals := st.seals[q.req.shard := L.Job(q, L.Start)], plans := st.plans + [q]))
  {
    hide Known, BloomIs, Once, Plan.Id, FromPlans, Paired, Whole, Backed, Faithful;
    var plans' := st.plans + [q];
    forall i | st.d.synced <= i < |st.d.log| ensures VersionBlooms(plans', st.d.files, st.d.log[i]) {
      assert VersionInv(env, st.plans, st.now, st.d.files, st.d.log[i]);
      assert VersionBlooms(st.plans, st.d.files, st.d.log[i]);
      forall p | Once(plans', p) && Known(st.d.log[i], p.Id()) ensures BloomIs(st.d.files, p) {
        OnceGrows(st.plans, q, p);
        if p !in st.plans { UnknownIdx(st.plans, p.Id(), st.d.log[i]); }
      }
    }
    forall s | s in st.seals && s != q.req.shard ensures Unindexed(plans', st.d, st.seals[s]) {
      assert Unindexed(st.plans, st.d, st.seals[s]);
      if Once(plans', st.seals[s].plan) { BeginOther(env, st, q, st.seals[s]); }
    }
    if Once(plans', q) { BeginOwn(env, st, q); }
  }

  lemma BeginOwn(env: L.Env, st: L.State, q: Plan)
    requires VersionsInv(env, st.plans, st.now, st.d) && Once(st.plans + [q], q)
    ensures forall i :: st.d.synced <= i < |st.d.log| ==> !Known(st.d.log[i], q.Id())
  {
    hide Known, Once, Plan.Id, FromPlans, Paired, Whole, Backed, Faithful;
    OnceGrows(st.plans, q, q);
    forall i | st.d.synced <= i < |st.d.log| ensures !Known(st.d.log[i], q.Id()) {
      assert VersionInv(env, st.plans, st.now, st.d.files, st.d.log[i]);
      UnknownIdx(st.plans, q.Id(), st.d.log[i]);
    }
  }

  /** Another job's block either was sealed once before too, or is unknown. */
  lemma BeginOther(env: L.Env, st: L.State, q: Plan, job: L.Job)
    requires VersionsInv(env, st.plans, st.now, st.d) && Unindexed(st.plans, st.d, job)
    requires Once(st.plans + [q], job.plan)
    ensures Unindexed(st.plans + [q], st.d, job)
  {
    hide Known, Once, Plan.Id, FromPlans, Paired, Whole, Backed, Faithful;
    OnceGrows(st.plans, q, job.plan);
    if job.plan !in st.plans {
      forall i | st.d.synced <= i < |st.d.log| ensures !Known(st.d.log[i], job.plan.Id()) {
        assert VersionInv(env, st.plans, st.now, st.d.files, st.d.log[i]);
        UnknownIdx(st.plans, job.plan.Id(), st.d.log[i]);
      }
    }
  }

  /** File operations of a seal touch only the files of a block that is not indexed yet. */
  lemma FileBlooms(env: L.Env, st: L.State, s: ShardID, op: L.SealOp)
    requires Inv(env, st) && BloomInv(st) && s in st.seals && L.SealEnabled(st.d, st.seals[s], op) && IsFileOp(op)
    ensures BloomInv(L.SealNext(st, s, op))
  {
    hide Known, Once, Plan.Id, VersionsInv, SweepInv, L.WellPlanned, JobFiles, JobKeys, JobFresh, HasBlockFile,
         L.SealDisk, L.IndexChunks;
    var job := st.seals[s];
    InvParts(env, st);
    assert JobInv(env, st.plans, st.now, st.d, s, job) && Unindexed(st.plans, st.d, job);
    FileOpJob(env, st.plans, st.now, st.d, job, op);
    var d' := L.SealDisk(st.d, job, op);
    forall i | d'.synced <= i < |d'.log| ensures VersionBlooms(st.plans, d'.files, d'.log[i]) {
      assert VersionBlooms(st.plans, st.d.files, st.d.log[i]);
      forall p | Once(st.plans, p) && Known(d'.log[i], p.Id()) ensures BloomIs(d'.files, p) {
        if p.Id() == job.plan.Id() { OnceSame(st.plans, p, job.plan); }
        assert BloomIs(st.d.files, p);
      }
    }
  }

  lemma IndexBlooms(env: L.Env, st: L.State, s: ShardID)
    requires Inv(env, st) && BloomInv(st) && s in st.seals && L.SealEnabled(st.d, st.seals[s], L.Index)
    ensures BloomInv(L.SealNext(st, s, L.Index))
  {
    hide Known, Once, Plan.Id, VersionsInv, SweepInv, L.WellPlanned, JobKeys, JobFresh, HasBlockFile, L.IndexChunks,
         Apply, IdxBatch, L.ExpOf;
    var job := st.seals[s];
    var p := job.plan;
    var chunk := L.IndexChunks(p)[job.pc.chunk];
    InvParts(env, st);
    var batch := IdxBatch(p.req.eventType, chunk, p.Id());
    assert JobInv(env, st.plans, st.now, st.d, s, job);
    IndexedOne(st.d.Current(), p, chunk);
    forall q | Once(st.plans, q) && q.Id() == p.Id() ensures BloomIs(st.d.files, q) { OnceSame(st.plans, q, p); }
    forall t | t in st.seals && st.seals[t].plan.Id() == p.Id() ensures t == s {
      assert JobInv(env, st.plans, st.now, st.d, t, st.seals[t]);
      if t != s { OtherIds(st.seals[t].plan, p); }
    }
    CommitBlooms(st, batch, p.Id());
  }

  lemma IndexedOne(m: Store, p: Plan, chunk: seq<uint64>)
    ensures NoNewIdx(m, Apply(m, IdxBatch(p.req.eventType, chunk, p.Id())), p.Id())
  {
    hide Plan.Id, IdxKey, Apply, IdxBatch;
    var m' := Apply(m, IdxBatch(p.req.eventType, chunk, p.Id()));
    IndexEffect(m, p, chunk);
    forall x | x != p.Id() && Known(m', x) ensures Known(m, x) {
      var e: byte, h: uint64 :| IdxKey(e, h, x) in m';
      assert IdxKey(e, h, x) in m;
    }
  }

  lemma DecideBlooms(env: L.Env, st: L.State, s: ShardID)
    requires st.d.Valid() && BloomInv(st) && s in st.seals && L.SealEnabled(st.d, st.seals[s], L.Decide)
    ensures BloomInv(L.SealNext(st, s, L.Decide))
  {
    hide Known, Once, Plan.Id, Plan.Expiry, BloomIs, Apply, SealBatch, L.IndexChunks, IdxKey, Blooms;
    var p := st.seals[s].plan;
    DecideEffect(st.d.Current(), p);
    QuietCommit(st, SealBatch(p.req.shard, p.Id(), p.meta, p.Expiry()));
  }

  lemma FewerFiles(st: L.State, path: Path)
    requires BloomInv(st)
    ensures BloomInv(st.(d := st.d.DropFile(path)))
  {
    hide Known, Once, Plan.Id;
    forall i | st.d.synced <= i < |st.d.log| ensures VersionBlooms(st.plans, st.d.files - {path}, st.d.log[i]) {
      assert VersionBlooms(st.plans, st.d.files, st.d.log[i]);
    }
  }

  lemma SweepBlooms(st: L.State, w: L.Sweep, op: L.SweepOp)
    requires st.d.Valid() && BloomInv(st) && L.SweepEnabled(st.d, w, op)
    ensures BloomInv(st.(d := L.SweepDisk(st.d, w, op)))
  {
    hide BloomInv, Apply, DeleteBlockAndExpiry, IdxKey;
    match op
    case UnlinkBlock => FewerFiles(st, BlockPath(w.phase.tier, w.entries[0].id));
    case UnlinkBloom => FewerFiles(st, BloomPath(w.phase.tier, w.entries[0].id));
    case DeleteKeys =>
      DeleteEffect(st.d.Current(), w.entries[0].hour, w.entries[0].id);
      QuietCommit(st, DeleteBlockAndExpiry(w.entries[0].hour, w.entries[0].id));
    case Begin =>
    case Lookup =>
    case Misread =>
    case Check =>
    case Proceed =>
    case Skip =>
    case Stop =>
  }

  lemma CrashBlooms(st: L.State, r: Durable)
    requires BloomInv(st) && CrashesTo(st.d, r)
    ensures BloomInv(st.(d := r, seals := map[], reaper := L.Resting, janitor := L.Resting))
  {
    hide Known, Once, Plan.Id;
    var i :| st.d.synced <= i < |st.d.log| && r.log[0] == st.d.log[i];
    assert VersionBlooms(st.plans, st.d.files, st.d.log[i]);
  }

  lemma BloomStep(env: L.Env, st: L.State, step: L.Step)
    requires Inv(env, st) && BloomInv(st) && L.Enabled(env, st, step)
    ensures BloomInv(L.Next(env, st, step))
  {
    hide Inv, BloomInv, L.SealEnabled, L.SweepEnabled, L.SealDisk, L.SweepDisk, L.SweepAfter, L.WellPlanned, CrashesTo;
    InvParts(env, st);
    match step
    case Tick(h) => SameWorld(st, st.(now := st.now + h));
    case Flush(upto) => FlushBlooms(st, upto);
    case WalWrite(k, v) => WalBlooms(st, k, v);
    case SealBegin(p) => BeginBlooms(env, st, p);
    case SealStep(s, op) =>
      if IsFileOp(op) { FileBlooms(env, st, s, op); }
      else if op.Index? { IndexBlooms(env, st, s); }
      else if op.Decide? { DecideBlooms(env, st, s); }
      else { EndBlooms(st, s, op); }
    case ReaperStep(op) =>
      SweepBlooms(st, st.reaper, op);
      SameWorld(st.(d := L.SweepDisk(st.d, st.reaper, op)), L.Next(env, st, step));
    case JanitorStep(op) =>
      SweepBlooms(st, st.janitor, op);
      SameWorld(st.(d := L.SweepDisk(st.d, st.janitor, op)), L.Next(env, st, step));
    case Crash(r) => CrashBlooms(st, r);
  }

  lemma InvParts(env: L.Env, st: L.State)
    requires Inv(env, st)
    ensures st.d.Valid() && VersionsInv(env, st.plans, st.now, st.d)
  {}

  lemma SameWorld(st: L.State, st': L.State)
    requires BloomInv(st) && st'.d == st.d && st'.seals == st.seals && st'.plans == st.plans
    ensures BloomInv(st')
  {}

  lemma FlushBlooms(st: L.State, upto: nat)
    requires BloomInv(st) && st.d.synced <= upto < |st.d.log|
    ensures BloomInv(st.(d := st.d.(synced := upto)))
  {
    hide Known, Once, Plan.Id, VersionBlooms;
    forall s | s in st.seals
      ensures Unindexed(st.plans, st.d.(synced := upto), st.seals[s])
    {
      assert Unindexed(st.plans, st.d, st.seals[s]);
    }
  }

  lemma EndBlooms(st: L.State, s: ShardID, op: L.SealOp)
    requires BloomInv(st) && s in st.seals && L.SealEnabled(st.d, st.seals[s], op) && (op.Done? || op.Abandon?)
    ensures BloomInv(L.SealNext(st, s, op))
  {
    hide Unindexed, Blooms;
  }

  // ----- block files -----

  /** The block's file, if there is one, is the one its seal wrote. */
  predicate BlockIs(files: Files, p: Plan) {
    var block := BlockPath(TIER_HOT, p.Id());
    block in files ==> files[block] == File(p.file, true)
  }

  /**
   * Block files belong to seals that were begun; with one seal per block they are that seal's, whatever the
   * metadata say.
   */
  ghost predicate BlockFiles(plans: seq<Plan>, files: Files) {
    && (forall id :: BlockPath(TIER_HOT, id) in files ==> Begun(plans, id))
    && (forall p :: Once(plans, p) ==> BlockIs(files, p))
  }

  ghost predicate Begun(plans: seq<Plan>, id: BlockID) {
    exists p :: p in plans && p.Id() == id
  }

  lemma BeginBlockFiles(plans: seq<Plan>, files: Files, q: Plan)
    requires BlockFiles(plans, files)
    ensures BlockFiles(plans + [q], files)
  {
    hide Once, Plan.Id;
    forall id | BlockPath(TIER_HOT, id) in files ensures Begun(plans + [q], id) {
      var p :| p in plans && p.Id() == id;
      assert p in plans + [q];
    }
    forall p | Once(plans + [q], p) ensures BlockIs(files, p) {
      OnceGrows(plans, q, p);
      if p !in plans { assert BlockPath(TIER_HOT, p.Id()) in files ==> Begun(plans, p.Id()); }
    }
  }

  lemma FewerBlockFiles(plans: seq<Plan>, files: Files, files': Files)
    requires BlockFiles(plans, files)
    requires forall p: Path :: p.BlockPath? && p in files' ==>
      p in files && (files[p].durable ==> files'[p] == files[p])
    ensures BlockFiles(plans, files')
  {
    hide Once, Plan.Id;
  }

  /** The rename puts the synced temporary file of the job's plan in place. */
  lemma RenameBlockFiles(env: L.Env, st: L.State, s: ShardID)
    requires Inv(env, st) && BlockFiles(st.plans, st.d.files) && s in st.seals
    requires L.SealEnabled(st.d, st.seals[s], L.Rename)
    ensures BlockFiles(st.plans, L.SealDisk(st.d, st.seals[s], L.Rename).files)
  {
    hide Once, Plan.Id, VersionsInv, SweepInv, L.WellPlanned, JobKeys, JobFresh, HasBlockFile, L.IndexChunks, L.ExpOf,
         Contents;
    InvParts(env, st);
    var job := st.seals[s];
    assert JobInv(env, st.plans, st.now, st.d, s, job);
    var files' := L.SealDisk(st.d, job, L.Rename).files;
    assert files'[BlockPath(TIER_HOT, job.plan.Id())] == File(job.plan.file, true);
    forall id | BlockPath(TIER_HOT, id) in files' ensures Begun(st.plans, id) {
      if id == job.plan.Id() { assert job.plan in st.plans; }
    }
    forall p | Once(st.plans, p) ensures BlockIs(files', p) {
      if p.Id() == job.plan.Id() { OnceSame(st.plans, p, job.plan); } else { assert BlockIs(st.d.files, p); }
    }
  }

  lemma BlockFileStep(env: L.Env, st: L.State, step: L.Step)
    requires Inv(env, st) && BlockFiles(st.plans, st.d.files) && L.Enabled(env, st, step)
    ensures BlockFiles(L.Next(env, st, step).plans, L.Next(env, st, step).d.files)
  {
    hide Inv, BlockFiles, L.WellPlanned, L.IndexChunks, Apply, IdxBatch, SealBatch, DeleteBlockAndExpiry, L.LookedUp,
         Expired, L.WalBatch;
    var st' := L.Next(env, st, step);
    match step
    case SealBegin(p) => BeginBlockFiles(st.plans, st.d.files, p);
    case SealStep(s, op) =>
      if op.Rename? { RenameBlockFiles(env, st, s); } else { FewerBlockFiles(st.plans, st.d.files, st'.d.files); }
    case ReaperStep(_) => FewerBlockFiles(st.plans, st.d.files, st'.d.files);
    case JanitorStep(_) => FewerBlockFiles(st.plans, st.d.files, st'.d.files);
    case Crash(_) => FewerBlockFiles(st.plans, st.d.files, st'.d.files);
    case Tick(_) =>
    case Flush(_) =>
    case WalWrite(_, _) =>
  }

  // ----- the cache beside the store -----

  /** The store and the recency order of the query engine's cache, which starts empty with every process. */
  datatype Engine = Engine(world: L.State, order: seq<Entry>)

  /** A step of the store, or a query asking the cache about a block the index names. */
  datatype Step = World(step: L.Step) | LookUp(id: BlockID)

  ghost predicate Enabled(env: L.Env, st: Engine, step: Step) {
    match step
    case World(s) => L.Enabled(env, st.world, s)
    case LookUp(id) => st.world.d.Valid() && Known(st.world.d.Current(), id)
  }

  ghost function Next(env: L.Env, maxMem: int, st: Engine, step: Step): Engine
    requires Enabled(env, st, step)
  {
    match step
    case World(s) => Engine(L.Next(env, st.world, s), if s.Crash? then [] else st.order)
    case LookUp(id) => st.(order := Tested(env.lib, st.order, maxMem, id, BloomFile(st.world.d.files, TIER_HOT, id)))
  }

  ghost predicate IsRun(env: L.Env, maxMem: int, states: seq<Engine>, steps: seq<Step>) {
    && |states| == |steps| + 1
    && L.Init(states[0].world) && states[0].order == []
    && (forall i :: 0 <= i < |steps| ==>
          Enabled(env, states[i], steps[i]) && states[i + 1] == Next(env, maxMem, states[i], steps[i]))
  }

  /** A cached filter is the one its block's seal built, if the block was sealed once, and the block is indexed. */
  ghost predicate Right(lib: BloomLib, plans: seq<Plan>, m: Store, e: Entry) {
    && Known(m, e.id) && lib.readable(e.filter)
    && forall p :: Once(plans, p) && p.Id() == e.id ==> e.filter == p.bloom
  }

  ghost predicate CacheInv(env: L.Env, maxMem: int, st: Engine) {
    && st.world.d.Valid() && DistinctIds(st.order) && Bounded(st.order, maxMem)
    && forall e :: e in st.order ==> Right(env.lib, st.world.plans, st.world.d.Current(), e)
  }

  lemma LookUpKeeps(env: L.Env, maxMem: int, st: Engine, id: BlockID)
    requires CacheInv(env, maxMem, st) && BloomInv(st.world) && Enabled(env, st, LookUp(id))
    ensures CacheInv(env, maxMem, Next(env, maxMem, st, LookUp(id)))
  {
    hide Known, Once, DistinctIds, Bounded, Tested, Plan.Id;
    var w := st.world;
    var file := BloomFile(w.d.files, TIER_HOT, id);
    TestedFacts(env.lib, st.order, maxMem, id, file);
    assert VersionBlooms(w.plans, w.d.files, w.d.Current());
  }

  /** Index keys are never deleted, so only a crash can forget one, and it empties the cache too. */
  lemma IdxStays(env: L.Env, st: L.State, step: L.Step)
    requires Inv(env, st) && L.Enabled(env, st, step) && !step.Crash?
    ensures L.Next(env, st, step).d.Valid() && IdxKept(st.d.Current(), L.Next(env, st, step).d.Current())
  {
    hide VersionsInv, JobsInv, SweepInv, Apply, SealBatch, IdxBatch, DeleteBlockAndExpiry, L.WellPlanned, IdxKey,
         Plan.Id, Plan.Expiry, L.IndexChunks, L.WalBatch, GetBlockMeta, SameBlocks, Expired;
    InvParts(env, st);
    var m := st.d.Current();
    match step
    case WalWrite(k, v) =>
      WalBatchSameBlocks(m, k, v);
      SameBlocksKeys(m, Apply(m, L.WalBatch(k, v)));
    case SealStep(s, op) =>
      var p := st.seals[s].plan;
      if op.Index? { IndexEffect(m, p, L.IndexChunks(p)[st.seals[s].pc.chunk]); }
      if op.Decide? { DecideEffect(m, p); }
    case ReaperStep(op) => if op.DeleteKeys? { DeleteEffect(m, st.reaper.entries[0].hour, st.reaper.entries[0].id); }
    case JanitorStep(op) => if op.DeleteKeys? { DeleteEffect(m, st.janitor.entries[0].hour, st.janitor.entries[0].id); }
    case Tick(_) =>
    case Flush(_) =>
    case SealBegin(_) =>
  }

  lemma RightKept(lib: BloomLib, plans: seq<Plan>, plans': seq<Plan>, m: Store, m': Store, e: Entry)
    requires Right(lib, plans, m, e) && IdxKept(m, m') && FromPlans(plans, m)
    requires plans' == plans || exists q :: plans' == plans + [q]
    ensures Right(lib, plans', m', e)
  {
    hide Once, IdxKey, Plan.Id, FromPlans;
    var t: byte, h: uint64 :| IdxKey(t, h, e.id) in m;
    assert IdxKey(t, h, e.id) in m';
    if plans' != plans {
      var q :| plans' == plans + [q];
      forall p | Once(plans', p) && p.Id() == e.id ensures e.filter == p.bloom {
        OnceGrows(plans, q, p);
        if p !in plans { UnknownIdx(plans, e.id, m); }
      }
    }
  }

  lemma WorldKeeps(env: L.Env, maxMem: int, st: Engine, step: L.Step)
    requires Inv(env, st.world) && CacheInv(env, maxMem, st) && L.Enabled(env, st.world, step)
    ensures CacheInv(env, maxMem, Next(env, maxMem, st, World(step)))
  {
    hide Right, Inv, L.Enabled, L.Next, DistinctIds, Bounded, IdxKept, FromPlans;
    var st' := Next(env, maxMem, st, World(step));
    if step.Crash? {
      EmptyOrder(maxMem);
      CrashValid(env, st.world, step);
    } else {
      IdxStays(env, st.world, step);
      PlansAfter(env, st.world, step);
      CurrentFromPlans(env, st.world);
      forall e | e in st'.order ensures Right(env.lib, st'.world.plans, st'.world.d.Current(), e) {
        RightKept(env.lib, st.world.plans, st'.world.plans, st.world.d.Current(), st'.world.d.Current(), e);
      }
    }
  }

  lemma EmptyOrder(maxMem: int)
    ensures DistinctIds([]) && Bounded([], maxMem)
  {}

  lemma CrashValid(env: L.Env, st: L.State, step: L.Step)
    requires step.Crash? && L.Enabled(env, st, step)
    ensures L.Next(env, st, step).d.Valid()
  {}

  lemma PlansAfter(env: L.Env, st: L.State, step: L.Step)
    requires L.Enabled(env, st, step)
    ensures L.Next(env, st, step).plans == st.plans || exists q :: L.Next(env, st, step).plans == st.plans + [q]
  {
    hide L.SealEnabled, L.SweepEnabled, L.SealDisk, L.SweepDisk, L.SweepAfter, L.WellPlanned, CrashesTo;
  }

  lemma CurrentFromPlans(env: L.Env, st: L.State)
    requires Inv(env, st)
    ensures FromPlans(st.plans, st.d.Current())
  {
    hide FromPlans, Paired, Whole, Backed, Faithful, JobsInv, SweepInv;
    assert VersionInv(env, st.plans, st.now, st.d.files, st.d.Current());
  }

  lemma {:induction false} CacheReachable(env: L.Env, maxMem: int, states: seq<Engine>, steps: seq<Step>, n: nat)
    requires IsRun(env, maxMem, states, steps) && n <= |steps| && env.retention < 0x8000_0000_0000_0000
    ensures Inv(env, states[n].world) && BloomInv(states[n].world) && CacheInv(env, maxMem, states[n])
    ensures BlockFiles(states[n].world.plans, states[n].world.d.files)
  {
    hide Inv, BloomInv, CacheInv, BlockFiles, L.Enabled, L.Next, Tested, Known;
    if n == 0 {
      InitInv(env, states[0].world);
      InitCache(env, maxMem, states[0]);
    } else {
      CacheReachable(env, maxMem, states, steps, n - 1);
      var st := states[n - 1];
      match steps[n - 1]
      case World(s) =>
        StepKeeps(env, st.world, s);
        BloomStep(env, st.world, s);
        BlockFileStep(env, st.world, s);
        WorldKeeps(env, maxMem, st, s);
      case LookUp(id) => LookUpKeeps(env, maxMem, st, id);
    }
  }

  lemma InitCache(env: L.Env, maxMem: int, st: Engine)
    requires L.Init(st.world) && st.order == []
    ensures BloomInv(st.world) && CacheInv(env, maxMem, st) && BlockFiles(st.world.plans, st.world.d.files)
  {
    hide Once;
    forall id ensures !Known(map[], id) {}
    EmptyOrder(maxMem);
  }

  /**
   * Whatever seals, sweeps, crashes and queries do, and although no filter is ever evicted when its block is
   * deleted: as long as every block was sealed once, each cached filter is readable and equals the bloom file
   * wherever that file still exists, so a cached answer is the answer of reading the file.
   */
  lemma CacheStaysRight(env: L.Env, maxMem: int, states: seq<Engine>, steps: seq<Step>, n: nat)
    requires IsRun(env, maxMem, states, steps) && n <= |steps| && env.retention < 0x8000_0000_0000_0000
    requires forall p :: p in states[n].world.plans ==> Once(states[n].world.plans, p)
    ensures states[n].world.d.Valid() && CoherentWherePresent(states[n].order, states[n].world.d.files, TIER_HOT)
    ensures forall e :: e in states[n].order ==> env.lib.readable(e.filter)
    ensures forall id, h ::
      Known(states[n].world.d.Current(), id) && BloomFile(states[n].world.d.files, TIER_HOT, id).Some? ==>
      Answer(env.lib, states[n].order, id, BloomFile(states[n].world.d.files, TIER_HOT, id), h) ==
          ReadAnswer(env.lib, BloomFile(states[n].world.d.files, TIER_HOT, id), h)
  {
    hide Inv, Once, Plan.Id, L.Enabled, L.Next, Known, FromPlans, DistinctIds, Bounded, Enabled, Next, L.Init;
    CacheReachable(env, maxMem, states, steps, n);
    var w, order := states[n].world, states[n].order;
    CurrentFromPlans(env, w);
    forall e | e in order && BloomPath(TIER_HOT, e.id) in w.d.files
      ensures w.d.files[BloomPath(TIER_HOT, e.id)].data == e.filter
    {
      EntryFile(env, w, e);
    }
    forall id, h | Known(w.d.Current(), id) && BloomFile(w.d.files, TIER_HOT, id).Some?
      ensures Answer(env.lib, order, id, BloomFile(w.d.files, TIER_HOT, id), h) ==
          ReadAnswer(env.lib, BloomFile(w.d.files, TIER_HOT, id), h) {
      if Cached(order, id) { assert Find(order, id) in order; }
    }
  }

  lemma EntryFile(env: L.Env, w: L.State, e: Entry)
    requires w.d.Valid() && BloomInv(w) && FromPlans(w.plans, w.d.Current())
    requires Right(env.lib, w.plans, w.d.Current(), e)
    requires forall p :: p in w.plans ==> Once(w.plans, p)
    requires BloomPath(TIER_HOT, e.id) in w.d.files
    ensures w.d.files[BloomPath(TIER_HOT, e.id)].data == e.filter
  {
    hide Once, Plan.Id, IdxKey;
    var t: byte, h: uint64 :| IdxKey(t, h, e.id) in w.d.Current();
    assert PlannedIdx(w.plans, e.id, t);
    var p :| p in w.plans && p.Id() == e.id && p.req.eventType == t;
    assert VersionBlooms(w.plans, w.d.files, w.d.Current());
  }

  /** The store's own steps form a run of the store. */
  lemma {:induction false} WorldRun(env: L.Env, maxMem: int, states: seq<Engine>, steps: seq<Step>, n: nat)
    returns (worlds: seq<L.State>, moves: seq<L.Step>)
    requires IsRun(env, maxMem, states, steps) && n <= |steps|
    ensures L.IsRun(env, worlds, moves) && worlds[|moves|] == states[n].world
  {
    hide L.Enabled, L.Next, L.Init, Tested, Known;
    if n == 0 {
      worlds, moves := [states[0].world], [];
    } else {
      worlds, moves := WorldRun(env, maxMem, states, steps, n - 1);
      match steps[n - 1]
      case World(s) => worlds, moves := worlds + [states[n].world], moves + [s];
      case LookUp(_) =>
    }
  }

  lemma RunLength(env: L.Env, maxMem: int, states: seq<Engine>, steps: seq<Step>)
    requires IsRun(env, maxMem, states, steps)
    ensures |states| == |steps| + 1
  {}

  lemma WorldRunLength(env: L.Env, worlds: seq<L.State>, moves: seq<L.Step>)
    requires L.IsRun(env, worlds, moves)
    ensures |worlds| == |moves| + 1
  {}
}
