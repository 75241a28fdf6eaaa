/** What holds in every reachable state of the store and after every crash. */
module LifecycleTheorems {
  import opened Bytes
  import opened Keys
  import opened Storage
  import opened Meta
  import opened BlockIds
  import opened Sealer
  import opened Lifecycle
  import opened LifecycleInv
  import opened Ttl

  /** Retention is a Go duration. */
  predicate Configured(env: Env) {
    env.retention < 0x8000_0000_0000_0000
  }

  /** A state of some run, or what a crash in such a state leaves. */
  ghost predicate Survives(states: seq<State>, n: nat, d: Durable)
    requires n < |states|
  {
    d == states[n].d || CrashesTo(states[n].d, d)
  }

  lemma SurvivorInv(env: Env, states: seq<State>, steps: seq<Step>, n: nat, d: Durable)
    requires Configured(env) && IsRun(env, states, steps) && n <= |steps| && Survives(states, n, d)
    ensures VersionsInv(env, states[n].plans, states[n].now, d)
    ensures VersionInv(env, states[n].plans, states[n].now, d.files, d.Current())
  {
    hide VersionInv, Enabled, Next, JobsInv, SweepInv, CrashesTo;
    Reachable(env, states, steps, n);
    if d != states[n].d { CrashVersion(env, states[n].plans, states[n].now, states[n].d, d); }
  }

  /**
   * However seals, reaper, janitor, WAL writes, flushes and crashes interleave, every metadata record has
   * exactly one expiry key and no expiry key is without one, and an unexpired block with metadata has its
   * block file on disk.
   */
  lemma ExpiryKeysMatchBlocks(env: Env, states: seq<State>, steps: seq<Step>, n: nat, d: Durable)
    requires Configured(env) && IsRun(env, states, steps) && n <= |steps| && Survives(states, n, d)
    ensures d.Valid() && Paired(env, d.Current())
    ensures forall id :: BlockKey(id) in d.Current() && ExpOf(env, id) > states[n].now ==> HasBlockFile(d.files, id)
  {
    hide Enabled, Next, ExpOf, BlockKey, CrashesTo;
    SurvivorInv(env, states, steps, n, d);
  }

  /**
   * A block that was sealed once and whose metadata survives is whole: its own metadata, its expiry key, an
   * index key for every row, and, until it expires, both files with their full contents.
   */
  lemma SurvivingBlockIsWhole(env: Env, states: seq<State>, steps: seq<Step>, n: nat, d: Durable, p: Plan)
    requires Configured(env) && IsRun(env, states, steps) && n <= |steps| && Survives(states, n, d)
    requires Once(states[n].plans, p) && d.Valid() && BlockKey(p.Id()) in d.Current()
    ensures d.Current()[BlockKey(p.Id())] == EncodeBlockMeta(p.meta)
    ensures 0 <= ExpOf(env, p.Id()) < TWO64 && ExpiryKey(ExpOf(env, p.Id()), p.Id()) in d.Current()
    ensures forall h :: h in p.hashes ==> IdxKey(p.req.eventType, h, p.Id()) in d.Current()
    ensures ExpOf(env, p.Id()) > states[n].now ==>
      d.HasDurable(BlockPath(TIER_HOT, p.Id()), p.file) && d.HasDurable(BloomPath(TIER_HOT, p.Id()), p.bloom)
  {
    hide Enabled, Next, ExpOf, BlockKey, IdxKey, ExpiryKey, CrashesTo, Once, EncodeBlockMeta, Plan.Id;
    SurvivorInv(env, states, steps, n, d);
    var plans, m := states[n].plans, d.Current();
    assert PlannedMeta(plans, p.Id(), m[BlockKey(p.Id())]);
    var q :| q in plans && q.Id() == p.Id() && m[BlockKey(p.Id())] == EncodeBlockMeta(q.meta);
    OnceSame(plans, p, q);
    assert HasKeys(m, p, p.hashes);
    assert Contents(env, states[n].now, d.files, p);
  }

  /** A block expires the whole hours of the retention after the hour it was opened in, five years for less than one. */
  lemma ExpiresAfterRetention(env: Env, p: Plan)
    requires WellPlanned(env, p) && env.retention < 0x8000_0000_0000_0000
    ensures var hours := ExpOf(env, p.Id()) - HourOf(p.req.openedAt);
      if env.retention < 3_600_000_000_000 then hours == 5 * 365 * 24
      else hours * 3_600_000_000_000 <= env.retention < (hours + 1) * 3_600_000_000_000
  {
    hide WellPlanned, ExpOf, ExpiryHour;
    PlannedRetention(env, p);
    PlanExpiry(env, p);
    ExpiryKeepsRetention(p.req.openedAt, p.req.retention);
  }

  lemma PlannedRetention(env: Env, p: Plan)
    requires WellPlanned(env, p)
    ensures p.req.openedAt >= 0 && p.req.retention == env.retention
  {}

  // ----- convergence of the sweeps -----

  /** Every metadata record in reach is readable and in the hot tier. */
  lemma MetaIsHot(plans: seq<Plan>, m: Store, id: BlockID)
    requires FromPlans(plans, m) && BlockKey(id) in m && forall p :: p in plans ==> p.meta.tier == TIER_HOT
    ensures GetBlockMeta(m, id).Some? && GetBlockMeta(m, id).value.Ok?
    ensures GetBlockMeta(m, id).value.value.tier == TIER_HOT
  {
    hide EncodeBlockMeta, DecodeBlockMeta, BlockKey;
    var p :| p in plans && p.Id() == id && m[BlockKey(id)] == EncodeBlockMeta(p.meta);
    BlockMetaRoundTrip(p.meta, [], []);
    assert EncodeBlockMeta(p.meta) + [] == EncodeBlockMeta(p.meta);
  }

  lemma {:induction false} PlansAreHot(env: Env, states: seq<State>, steps: seq<Step>, n: nat)
    requires IsRun(env, states, steps) && n <= |steps|
    ensures forall p :: p in states[n].plans ==> p.meta.tier == TIER_HOT
  {
    hide EncodeBlockMeta, SealEnabled, SweepEnabled, SealDisk, SweepDisk, SweepAfter, CrashesTo;
    if n > 0 {
      PlansAreHot(env, states, steps, n - 1);
      assert states[n] == Next(env, states[n - 1], steps[n - 1]);
    }
  }

  ghost predicate AllHot(m: Store) {
    forall id :: BlockKey(id) in m ==>
      GetBlockMeta(m, id).Some? && GetBlockMeta(m, id).value.Ok? && GetBlockMeta(m, id).value.value.tier == TIER_HOT
  }

  /** In a paired store of hot blocks the due entries are exactly the expired blocks, at their own hours. */
  lemma DueBlocks(env: Env, m: Store, now: uint64, e: ExpiredEntry)
    requires Paired(env, m) && now < TWO64 - 1
    ensures e in Expired(m, now) <==> BlockKey(e.id) in m && e.hour == ExpOf(env, e.id) && ExpOf(env, e.id) <= now
  {
    hide BlockKey, ExpiryKey, ExpOf, Expired;
    ExpiredExact(m, now);
  }

  /** Block and expiry keys after a sweep that drops the due entries of the blocks chosen by gone. */
  lemma SweptKeys(env: Env, m: Store, files: Files, tiers: set<Tier>, now: uint64, reaping: bool, id: BlockID,
                  h: uint64)
    requires Paired(env, m) && AllHot(m) && TIER_HOT in tiers && now < TWO64 - 1
    ensures var m' := m - DroppedKeys(m, files, tiers, Expired(m, now), reaping);
      var gone := ExpOf(env, id) <= now && (reaping || BlockPath(TIER_HOT, id) !in files);
      && (BlockKey(id) in m' <==> BlockKey(id) in m && !gone)
      && (ExpiryKey(h, id) in m' <==> ExpiryKey(h, id) in m && !gone)
  {
    hide BlockKey, ExpiryKey, ExpOf, Expired, GetBlockMeta, DroppedKeys, EntryKeys;
    var entries := Expired(m, now);
    BlockKeyDropped(m, files, tiers, entries, reaping, id);
    ExpiryKeyDropped(m, files, tiers, entries, reaping, h, id);
    DueBlocks(env, m, now, ExpiredEntry(id, h));
    if BlockKey(id) in m {
      var e := ExpiredEntry(id, ExpOf(env, id));
      DueBlocks(env, m, now, e);
      assert e in entries <==> ExpOf(env, id) <= now;
      forall x | x in entries && x.id == id ensures x == e { DueBlocks(env, m, now, x); }
    }
  }

  /** A sweep deletes no key of another kind. */
  lemma OtherKeysSwept(m: Store, files: Files, tiers: set<Tier>, entries: seq<ExpiredEntry>, reaping: bool, k: Key)
    requires !k.Block? && !k.Expiry?
    ensures Encode(k) !in DroppedKeys(m, files, tiers, entries, reaping)
  {
    hide Drops, DroppedKeys;
    DroppedKeysExact(m, files, tiers, entries, reaping, Encode(k));
    forall e: ExpiredEntry ensures Encode(k) !in EntryKeys(e) {
      EncodeInjective(k, Block(e.id));
      EncodeInjective(k, Expiry(e.hour, e.id));
    }
  }

  lemma SurvivorReady(env: Env, states: seq<State>, steps: seq<Step>, n: nat, d: Durable)
    requires Configured(env) && IsRun(env, states, steps) && n <= |steps| && Survives(states, n, d)
    ensures d.Valid() && Paired(env, d.Current()) && AllHot(d.Current())
  {
    hide Enabled, Next, CrashesTo, GetBlockMeta, BlockKey;
    SurvivorInv(env, states, steps, n, d);
    PlansAreHot(env, states, steps, n);
    forall id | BlockKey(id) in d.Current()
      ensures GetBlockMeta(d.Current(), id).Some? && GetBlockMeta(d.Current(), id).value.Ok?
      ensures GetBlockMeta(d.Current(), id).value.value.tier == TIER_HOT
    {
      MetaIsHot(states[n].plans, d.Current(), id);
    }
  }

  /** A file of a live block that expires by the hour. */
  predicate ReapedFile(env: Env, m: Store, now: uint64, p: Path) {
    (p.BlockPath? || p.BloomPath?) && p.tier == TIER_HOT && BlockKey(p.id) in m && ExpOf(env, p.id) <= now
  }

  /** A clean completed cycle took d to d'; whichever metadata reads failed in it were harmless. */
  ghost predicate CleanCycle(d: Durable, d': Durable, tiers: set<Tier>, now: uint64, reaping: bool, misread: set<nat>)
    requires d.Valid() && d'.Valid()
  {
    var m, entries := d.Current(), Expired(d.Current(), now);
    && SweptTo(m, d.files, d', tiers, entries, misread, reaping, |entries|)
    && forall i: nat :: i in misread && i < |entries| ==> Harmless(m, d.files, tiers, entries, reaping, i)
  }

  /** Such a cycle leaves what it should. */
  lemma CycleAsMeant(d: Durable, d': Durable, tiers: set<Tier>, now: uint64, reaping: bool, misread: set<nat>)
    requires d.Valid() && d'.Valid() && CleanCycle(d, d', tiers, now, reaping, misread)
    ensures var m, entries := d.Current(), Expired(d.Current(), now);
      && d'.Current() == m - DroppedKeys(m, d.files, tiers, entries, reaping)
      && d'.files == (if reaping then d.files - DroppedPaths(m, tiers, entries) else d.files)
  {
    hide SweptTo, Harmless, DroppedKeys, DroppedPaths, Expired;
    MisreadsHarmless(d.Current(), d.files, d', tiers, now, reaping, misread);
  }

  /**
   * From every reachable state, also one a crash left between a file's deletion and its keys', what a clean
   * completed reaper cycle at an hour leaves lacks the metadata, the expiry key and both files of exactly the blocks
   * expiring by that hour, and no other key or file.
   */
  lemma ReaperConverges(env: Env, states: seq<State>, steps: seq<Step>, n: nat, d: Durable, d': Durable, now: uint64,
                        misread: set<nat>, id: BlockID, h: uint64, k: Key)
    requires Configured(env) && IsRun(env, states, steps) && n <= |steps| && Survives(states, n, d)
    requires TIER_HOT in env.tiers && now < TWO64 - 1 && !k.Block? && !k.Expiry?
    requires d.Valid() && d'.Valid() && CleanCycle(d, d', env.tiers, now, true, misread)
    ensures var m' := d'.Current();
      && (BlockKey(id) in m' <==> BlockKey(id) in d.Current() && ExpOf(env, id) > now)
      && (ExpiryKey(h, id) in m' <==> ExpiryKey(h, id) in d.Current() && ExpOf(env, id) > now)
      && (Encode(k) in m' <==> Encode(k) in d.Current())
    ensures forall p: Path :: p in d'.files <==> p in d.files && !ReapedFile(env, d.Current(), now, p)
  {
    hide Enabled, Next, CrashesTo, GetBlockMeta, BlockKey, ExpiryKey, ExpOf, Expired, DroppedKeys, DroppedPaths, Encode,
         Drops, Paired, AllHot, CleanCycle;
    SurvivorReady(env, states, steps, n, d);
    CycleAsMeant(d, d', env.tiers, now, true, misread);
    SweptKeys(env, d.Current(), d.files, env.tiers, now, true, id, h);
    OtherKeysSwept(d.Current(), d.files, env.tiers, Expired(d.Current(), now), true, k);
    forall p: Path ensures p in DroppedPaths(d.Current(), env.tiers, Expired(d.Current(), now)) <==>
      ReapedFile(env, d.Current(), now, p)
    {
      ReapedPath(env, d.Current(), env.tiers, now, p);
    }
  }

  lemma ReapedPath(env: Env, m: Store, tiers: set<Tier>, now: uint64, p: Path)
    requires Paired(env, m) && AllHot(m) && TIER_HOT in tiers && now < TWO64 - 1
    ensures p in DroppedPaths(m, tiers, Expired(m, now)) <==> ReapedFile(env, m, now, p)
  {
    hide BlockKey, ExpiryKey, ExpOf, Expired, DroppedPaths, GetBlockMeta;
    var entries := Expired(m, now);
    DroppedPathsExact(m, tiers, entries, p);
    if e :| e in entries && p in EntryPaths(m, tiers, e.id) { DueBlocks(env, m, now, e); }
    if ReapedFile(env, m, now, p) {
      assert 0 <= ExpOf(env, p.id) < TWO64;
      var e := ExpiredEntry(p.id, ExpOf(env, p.id));
      DueBlocks(env, m, now, e);
      assert p in EntryPaths(m, tiers, e.id);
    }
  }

  /**
   * From every reachable state, what a clean completed janitor sweep leaves lacks the metadata and the expiry key of
   * exactly the expired blocks whose block file is absent, and no other key and no file.
   */
  lemma JanitorConverges(env: Env, states: seq<State>, steps: seq<Step>, n: nat, d: Durable, d': Durable, now: uint64,
                         misread: set<nat>, id: BlockID, h: uint64, k: Key)
    requires Configured(env) && IsRun(env, states, steps) && n <= |steps| && Survives(states, n, d)
    requires TIER_HOT in env.tiers && now < TWO64 - 1 && !k.Block? && !k.Expiry?
    requires d.Valid() && d'.Valid() && CleanCycle(d, d', env.tiers, now, false, misread)
    ensures d'.files == d.files
    ensures var m' := d'.Current();
      var orphan := ExpOf(env, id) <= now && BlockPath(TIER_HOT, id) !in d.files;
      && (BlockKey(id) in m' <==> BlockKey(id) in d.Current() && !orphan)
      && (ExpiryKey(h, id) in m' <==> ExpiryKey(h, id) in d.Current() && !orphan)
      && (Encode(k) in m' <==> Encode(k) in d.Current())
  {
    hide Enabled, Next, CrashesTo, GetBlockMeta, BlockKey, ExpiryKey, ExpOf, Expired, DroppedKeys, Encode, Drops,
         Paired, AllHot, CleanCycle;
    SurvivorReady(env, states, steps, n, d);
    CycleAsMeant(d, d', env.tiers, now, false, misread);
    SweptKeys(env, d.Current(), d.files, env.tiers, now, false, id, h);
    OtherKeysSwept(d.Current(), d.files, env.tiers, Expired(d.Current(), now), false, k);
  }
}
