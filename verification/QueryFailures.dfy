/**
 * When a query fails although none of its operations does: exactly when a block that passed its filter and has
 * metadata has lost its block file, which happens to expired blocks only.
 */
module QueryFailures {
  import opened Bytes
  import opened Results
  import opened Keys
  import opened Storage
  import opened Meta
  import opened Format
  import opened BlockFile
  import opened BloomCaches
  import opened Sealer
  import L = Lifecycle
  import opened LifecycleInv
  import CR = CacheRuns
  import opened Query
  import opened QueryTheorems
  import opened QuerySpans
  import opened SealRuns

  /** Every metadata record in reach can be decoded. */
  lemma DecodableMeta(env: L.Env, st: CR.Engine, plans: seq<Plan>, id: BlockID)
    requires Facts(env, st, plans)
    ensures !BadMeta(st.world.d.Current(), id)
  {
    hide CR.VersionBlooms, CR.BlockFiles, CR.Right, Plan.Id, BlockKey, Paired, Whole, Backed, Faithful,
         EncodeBlockMeta, DecodeBlockMeta;
    var m := st.world.d.Current();
    if BlockKey(id) in m {
      assert PlannedMeta(st.world.plans, id, m[BlockKey(id)]);
      var p :| p in st.world.plans && p.Id() == id && m[BlockKey(id)] == EncodeBlockMeta(p.meta);
      BlockMetaRoundTrip(p.meta, [], []);
      assert EncodeBlockMeta(p.meta) + [] == EncodeBlockMeta(p.meta);
    }
  }

  /** An indexed block's bloom file can be decoded, and the cache has an answer. */
  lemma DecodableBloom(env: L.Env, st: CR.Engine, plans: seq<Plan>, et: byte, h: uint64, id: BlockID)
    requires Facts(env, st, plans) && Assumed(env, plans) && IdxKey(et, h, id) in st.world.d.Current()
    ensures !BadBloom(env.lib, st.world.d.files, TIER_HOT, id)
    ensures Answer(env.lib, st.order, id, BloomFile(st.world.d.files, TIER_HOT, id), h).Some?
  {
    hide CR.BlockFiles, CR.Right, Plan.Id, IdxKey, Paired, Whole, Backed, Faithful, Once, Fits, Codec.Inverts,
         L.WellPlanned, BloomLib.Sound;
    assert PlannedIdx(st.world.plans, id, et);
    var p :| p in st.world.plans && p.Id() == id && p.req.eventType == et;
    var i :| 0 <= i < |st.world.plans| && st.world.plans[i] == p;
    assert plans[i] == p;
    SamePlan(env, st, plans, p, p);
    assert CR.Known(st.world.d.Current(), id);
    assert CR.BloomIs(st.world.d.files, p);
    BuiltReadable(env, p);
  }

  lemma BuiltReadable(env: L.Env, p: Plan)
    requires L.WellPlanned(env, p) && env.lib.Sound()
    ensures env.lib.readable(p.bloom)
  {}

  /** A block file that is there can be read. */
  lemma FileReadable(env: L.Env, st: CR.Engine, plans: seq<Plan>, p: Plan, h: uint64, from: int64, to: int64)
    requires Facts(env, st, plans) && Assumed(env, plans) && p in plans
    requires BlockPath(TIER_HOT, p.Id()) in st.world.d.files
    ensures ReadTask(env.codec, st.world.d.files, Task(p.Id(), TIER_HOT), h, from, to).Ok?
  {
    hide CR.VersionBlooms, CR.Right, Plan.Id, VersionInv, Once, L.WellPlanned, Fits, Codec.Inverts, BloomLib.Sound,
         ReadRows, Matching;
    assert CR.Begun(st.world.plans, p.Id());
    var q :| q in st.world.plans && q.Id() == p.Id();
    SamePlan(env, st, plans, p, q);
    assert CR.BlockIs(st.world.d.files, p);
    PlanReads(env, p, h, from, to);
  }

  // ----- over one state -----

  /** The block has metadata but no block file. */
  predicate Orphaned(d: Durable, id: BlockID)
    requires d.Valid()
  {
    BlockKey(id) in d.Current() && BlockPath(TIER_HOT, id) !in d.files
  }

  lemma TaskFails(env: L.Env, st: CR.Engine, plans: seq<Plan>, req: QueryRequest, h: uint64, ids: seq<BlockID>,
                  tasks: seq<Task>, t: Task)
    requires Facts(env, st, plans) && Assumed(env, plans) && t in tasks
    requires forall id :: id in ids <==> Listed(st.world.d.Current(), req, h, id)
    requires Filtered(st.world.d.Current(), st.world.d.files, env.tiers, env.lib, TIER_HOT, h, ids, tasks)
    ensures ReadTask(env.codec, st.world.d.files, t, h, req.from, req.to).Err? <==> Orphaned(st.world.d, t.id)
    ensures Orphaned(st.world.d, t.id) ==> L.ExpOf(env, t.id) <= st.world.now
  {
    hide CR.VersionBlooms, CR.BlockFiles, CR.Right, Plan.Id, BlockKey, Paired, Whole, Faithful, FromPlans, Once, Fits,
         Codec.Inverts, L.WellPlanned, BloomLib.Sound, ReadRows, IdxKey, Overlaps, ReadableMeta, BloomPasses, NoRepeats,
         L.ExpOf;
    var m := st.world.d.Current();
    assert t.id in ids && Listed(m, req, h, t.id);
    var e: byte :| Wanted(req.eventType, e) && IdxKey(e, h, t.id) in m;
    var p := IndexedPlan(env, st, plans, e, h, t.id);
    ReadableHasKey(m, env.tiers, t.id);
    LivePlan(env, st, plans, p);
    if BlockPath(TIER_HOT, t.id) in st.world.d.files { FileReadable(env, st, plans, p, h, req.from, req.to); }
  }

  /**
   * Queries served while seals, sweeps, crashes and other queries go on, in every reachable state whose blocks were
   * each sealed once: if no operation fails, a well-formed query fails exactly when one of its tasks has metadata but
   * no block file; and such a block has expired.
   */
  lemma FailsIffOrphaned(env: L.Env, maxMem: int, states: seq<CR.Engine>, steps: seq<CR.Step>, n: nat,
                         req: QueryRequest, h: uint64, ids: seq<BlockID>, tasks: seq<Task>)
    requires CR.IsRun(env, maxMem, states, steps) && n <= |steps| && env.retention < 0x8000_0000_0000_0000
    requires env.codec.Inverts() && env.lib.Sound() && TIER_HOT in env.tiers
    requires forall p :: p in states[n].world.plans ==> Once(states[n].world.plans, p) && Fits(env.codec, p.rows)
    ensures states[n].world.d.Valid()
    ensures var d := states[n].world.d;
      QueryStuck(env.codec, d.Current(), d.files, env.tiers, env.lib, TIER_HOT, states[n].order, req, h, ids, tasks) ==>
        exists t :: t in tasks && Orphaned(d, t.id) && L.ExpOf(env, t.id) <= states[n].world.now
    ensures var d := states[n].world.d;
      (forall id :: id in ids <==> Listed(d.Current(), req, h, id))
        && Filtered(d.Current(), d.files, env.tiers, env.lib, TIER_HOT, h, ids, tasks) ==>
        (AllOk(Answers(env.codec, d.files, tasks, h, req.from, req.to)) <==>
          forall t :: t in tasks ==> !Orphaned(d, t.id))
  {
    hide CR.IsRun, L.IsRun, Once, Fits, Codec.Inverts, BloomLib.Sound, Facts, Assumed, ReadTask, Filtered, BloomPasses,
         BadBloom, BadMeta, MayPass, AllPass, Cached, BlockKey, Listed;
    SpanOfRun(env, maxMem, states, steps, n, n);
    var sp := Span(env, states, n, n);
    ValidAt(sp, n);
    var st, plans := states[n], states[n].world.plans;
    var m, files := st.world.d.Current(), st.world.d.files;
    var answers := Answers(env.codec, files, tasks, h, req.from, req.to);
    forall id | Listed(m, req, h, id) ensures !MayStop(m, files, env.lib, TIER_HOT, st.order, id, h) {
      ListedDecodes(env, st, plans, req, h, id);
    }
    if (forall id :: id in ids <==> Listed(m, req, h, id))
      && Filtered(m, files, env.tiers, env.lib, TIER_HOT, h, ids, tasks)
    {
      forall i | 0 <= i < |tasks|
        ensures answers[i].Err? <==> Orphaned(st.world.d, tasks[i].id)
        ensures Orphaned(st.world.d, tasks[i].id) ==> L.ExpOf(env, tasks[i].id) <= st.world.now
      {
        TaskFails(env, st, plans, req, h, ids, tasks, tasks[i]);
      }
      if !AllOk(answers) {
        var i :| 0 <= i < |answers| && answers[i].Err?;
        assert tasks[i] in tasks;
      }
      forall t | t in tasks && AllOk(answers) ensures !Orphaned(st.world.d, t.id) {
        var i :| 0 <= i < |tasks| && tasks[i] == t;
      }
    }
  }

  lemma ListedDecodes(env: L.Env, st: CR.Engine, plans: seq<Plan>, req: QueryRequest, h: uint64, id: BlockID)
    requires Facts(env, st, plans) && Assumed(env, plans) && Listed(st.world.d.Current(), req, h, id)
    ensures !MayStop(st.world.d.Current(), st.world.d.files, env.lib, TIER_HOT, st.order, id, h)
  {
    hide Facts, Assumed, IdxKey, Overlaps, MayPass, BadMeta, BadBloom;
    FactsValid(env, st, plans);
    var e: byte :| Wanted(req.eventType, e) && IdxKey(e, h, id) in st.world.d.Current();
    DecodableBloom(env, st, plans, e, h, id);
    DecodableMeta(env, st, plans, id);
  }

  lemma FactsValid(env: L.Env, st: CR.Engine, plans: seq<Plan>)
    requires Facts(env, st, plans)
    ensures st.world.d.Valid()
  {}

  // ----- over a changing store -----

  /** Without a crash, what is indexed stays indexed. */
  lemma {:induction false} IndexedAlong(env: L.Env, maxMem: int, states: seq<CR.Engine>, steps: seq<CR.Step>, i: nat,
                                        j: nat)
    requires CR.IsRun(env, maxMem, states, steps) && i <= j <= |steps| && env.retention < 0x8000_0000_0000_0000
    requires forall k :: i <= k < j ==> !(steps[k].World? && steps[k].step.Crash?)
    ensures states[i].world.d.Valid() && states[j].world.d.Valid()
    ensures IdxKept(states[i].world.d.Current(), states[j].world.d.Current())
    decreases j
  {
    hide L.Enabled, L.Next, L.Init, CR.Known, Tested, Inv, CR.BloomInv, CR.CacheInv, CR.BlockFiles, IdxKey;
    CR.CacheReachable(env, maxMem, states, steps, j);
    EngineValid(env, maxMem, states[j]);
    if i < j {
      IndexedAlong(env, maxMem, states, steps, i, j - 1);
      CR.CacheReachable(env, maxMem, states, steps, j - 1);
      if steps[j - 1].World? { CR.IdxStays(env, states[j - 1].world, steps[j - 1].step); }
    }
  }

  lemma EngineValid(env: L.Env, maxMem: int, st: CR.Engine)
    requires CR.CacheInv(env, maxMem, st)
    ensures st.world.d.Valid()
  {}

  /** A look at a block whose index entry is still there does not end the query. */
  lemma NotStuck(sp: Span, scans: seq<nat>, req: QueryRequest, h: uint64, l: Look)
    requires Good(sp) && |scans| == 256 && sp.In(scans[l.et]) && InTime(sp, scans[l.et], l)
    requires ListedAt(sp, scans, req, h, l.et, l.id) && IdxKept(sp.StoreAt(scans[l.et]), sp.StoreAt(l.tested))
    ensures !Stuck(sp, h, l)
  {
    hide Facts, Assumed, IdxKey, Overlaps, Answer, BadMeta, BadBloom;
    var plans := sp.states[sp.hi].world.plans;
    ValidAt(sp, l.tested);
    ValidAt(sp, l.fetched);
    DecodableBloom(sp.env, sp.states[l.tested], plans, l.et, h, l.id);
    DecodableMeta(sp.env, sp.states[l.fetched], plans, l.id);
  }

  /** The read of a kept block is an error only if its file is missing by then. */
  lemma KeptReadable(sp: Span, scans: seq<nat>, req: QueryRequest, h: uint64, looks: seq<Look>, l: Look, at: nat)
    requires Good(sp) && |scans| == 256 && (forall e :: 0 <= e < 256 ==> sp.In(scans[e]))
    requires Looked(sp, scans, req, h, looks) && l in looks && Kept(sp, h, l) && sp.In(at)
    requires QuerySpans.ReadAt(sp, req, h, l, at).Err?
    ensures MissingAt(sp, l.id, at)
  {
    hide Facts, Assumed, IdxKey, BlockKey, Plan.Id, Overlaps, ReadTask, ReadableMeta, TaskFor, Span.TestAt, HasLook,
         DistinctLooks, L.ExpOf;
    var plans := sp.states[sp.hi].world.plans;
    ValidAt(sp, scans[l.et]);
    ValidAt(sp, l.fetched);
    ValidAt(sp, at);
    var p := IndexedPlan(sp.env, sp.states[scans[l.et]], plans, l.et, h, l.id);
    ReadableHasKey(sp.StoreAt(l.fetched), sp.env.tiers, l.id);
    LivePlan(sp.env, sp.states[l.fetched], plans, p);
    if BlockPath(TIER_HOT, l.id) in sp.FilesAt(at) {
      FileReadable(sp.env, sp.states[at], plans, p, h, req.from, req.to);
    }
    if BlockKey(l.id) in sp.StoreAt(at) { BackedAt(sp, l.id, at); }
  }

  /** In this state the block has no block file; if it still has metadata it has expired. */
  ghost predicate MissingAt(sp: Span, id: BlockID, at: nat) {
    && sp.In(at) && BlockPath(TIER_HOT, id) !in sp.FilesAt(at)
    && (BlockKey(id) in sp.StoreAt(at) ==> L.ExpOf(sp.env, id) <= sp.states[at].world.now)
  }

  lemma BackedAt(sp: Span, id: BlockID, at: nat)
    requires Good(sp) && sp.In(at) && BlockPath(TIER_HOT, id) !in sp.FilesAt(at) && BlockKey(id) in sp.StoreAt(at)
    ensures L.ExpOf(sp.env, id) <= sp.states[at].world.now
  {
    hide Assumed, CR.VersionBlooms, CR.BlockFiles, CR.Right, Paired, Whole, Faithful, FromPlans, BlockKey, L.ExpOf;
    assert Facts(sp.env, sp.states[at], sp.states[sp.hi].world.plans);
  }

  /**
   * However the store changes between the reads of a query, short of a crash: if no operation fails, the query fails
   * only because some block that had metadata when they were read has lost its block file when that is opened.
   */
  lemma SpanFailsOnMissingFile(env: L.Env, maxMem: int, states: seq<CR.Engine>, steps: seq<CR.Step>, lo: nat, hi: nat,
                               scans: seq<nat>, req: QueryRequest, h: uint64, looks: seq<Look>, kept: seq<Look>,
                               opens: seq<nat>, answers: seq<Result<seq<Event>>>)
    requires CR.IsRun(env, maxMem, states, steps) && lo <= hi <= |steps| && env.retention < 0x8000_0000_0000_0000
    requires forall k :: lo <= k < hi ==> !(steps[k].World? && steps[k].step.Crash?)
    requires env.codec.Inverts() && env.lib.Sound() && TIER_HOT in env.tiers
    requires forall p :: p in states[hi].world.plans ==> Once(states[hi].world.plans, p) && Fits(env.codec, p.rows)
    requires SpanStuck(Span(env, states, lo, hi), scans, req, h, looks, kept, opens, answers)
    ensures |opens| == |kept|
    ensures exists i :: 0 <= i < |kept| && MissingAt(Span(env, states, lo, hi), kept[i].id, opens[i])
  {
    hide CR.IsRun, Once, Fits, Codec.Inverts, BloomLib.Sound, Good, Looked, Kept, Stuck, MissingAt, ListedAt,
         IdxKept, DistinctLooks, QuerySpans.ReadAt;
    var sp := Span(env, states, lo, hi);
    SpanOfRun(env, maxMem, states, steps, lo, hi);
    forall l | l in looks && InTime(sp, scans[l.et], l) && ListedAt(sp, scans, req, h, l.et, l.id)
      ensures !Stuck(sp, h, l)
    {
      IndexedAlong(env, maxMem, states, steps, scans[l.et], l.tested);
      NotStuck(sp, scans, req, h, l);
    }
    var i :| 0 <= i < |answers| && answers[i].Err?;
    assert kept[i] in kept;
    KeptReadable(sp, scans, req, h, looks, kept[i], opens[i]);
  }

  // ----- it happens -----

  lemma FirstDue(env: L.Env, states: seq<L.State>, steps: seq<L.Step>, p: Plan, d: Durable)
    requires Quiet(env, [p], states, steps, d) && Sealed(d, p) && env.retention < 0x8000_0000_0000_0000
    requires L.WellPlanned(env, p)
    ensures var e := L.ExpOf(env, p.Id());
      && 0 <= e < TWO64 - 1
      && Expired(d.Current(), e) != [] && Expired(d.Current(), e)[0] == ExpiredEntry(p.Id(), e)
    ensures GetBlockMeta(d.Current(), p.Id()) == Some(Ok(p.meta))
  {
    hide L.IsRun, L.WellPlanned, BlockKey, ExpiryKey, Plan.Id, InPlace, WALKey, EncodeBlockMeta, DecodeBlockMeta, Whole,
         Backed, Faithful, L.ExpOf, Expired;
    RunLength(env, states, steps);
    Reachable(env, states, steps, |steps|);
    var m := d.Current();
    assert VersionInv(env, [p], 0, d.files, m);
    L.PlanExpiry(env, p);
    var e := L.ExpOf(env, p.Id());
    ExpiredExact(m, e);
    assert Due(m, e, ExpiredEntry(p.Id(), e));
    assert Expired(m, e)[0] in Expired(m, e);
    assert PlannedMeta([p], Expired(m, e)[0].id, m[BlockKey(Expired(m, e)[0].id)]);
    assert PlannedMeta([p], p.Id(), m[BlockKey(p.Id())]);
    BlockMetaRoundTrip(p.meta, [], []);
    assert EncodeBlockMeta(p.meta) + [] == EncodeBlockMeta(p.meta);
  }

  lemma OneMore(env: L.Env, states: seq<L.State>, steps: seq<L.Step>, step: L.Step, w: L.State)
    returns (states': seq<L.State>, steps': seq<L.Step>)
    requires L.IsRun(env, states, steps) && states[|steps|] == w && L.Enabled(env, w, step)
    ensures L.IsRun(env, states', steps') && states'[|steps'|] == L.Next(env, w, step)
  {
    hide L.Enabled, L.Next, L.Init;
    Extend(env, states, steps, step);
    states', steps' := states + [L.Next(env, w, step)], steps + [step];
  }

  /**
   * For every block there is a run in which it is sealed, expires, and the reaper has unlinked its block file but not
   * yet its keys; then no query that concerns the block and one of its keys can succeed.
   */
  lemma ReapingFailsQueries(env: L.Env, p: Plan, req: QueryRequest, h: uint64)
    returns (states: seq<L.State>, steps: seq<L.Step>)
    requires env.retention < 0x8000_0000_0000_0000 && env.lib.Sound() && TIER_HOT in env.tiers && L.WellPlanned(env, p)
    requires h in p.hashes && Wanted(req.eventType, p.req.eventType) && Overlaps(p.Id(), req.from, req.to)
    ensures |states| == |steps| + 1 && L.IsRun(env, states, steps) && states[|steps|].plans == [p]
    ensures var d := states[|steps|].d;
      && d.Valid() && Orphaned(d, p.Id())
      && forall ids, tasks, result ::
          !QueryDone(env.codec, d.Current(), d.files, env.tiers, env.lib, TIER_HOT, req, h, ids, tasks, result)
  {
    hide L.IsRun, L.WellPlanned, BlockKey, Plan.Id, WALKey, Overlaps, BloomLib.Sound, Expired, GetBlockMeta, QueryDone,
         L.ExpOf, HasKeys;
    var d;
    states, steps, d := SealRun(env, p);
    FirstDue(env, states, steps, p, d);
    PlanTier(env, p);
    var e := L.ExpOf(env, p.Id());
    var entries := Expired(d.Current(), e);
    var w1 := L.State(d, e, map[], L.Resting, L.Resting, [p]);
    states, steps := OneMore(env, states, steps, L.Tick(e), L.State(d, 0, map[], L.Resting, L.Resting, [p]));
    var w2 := w1.(reaper := L.Sweeping(e, entries, L.Look));
    states, steps := OneMore(env, states, steps, L.ReaperStep(L.Begin), w1);
    var w3 := w1.(reaper := L.Sweeping(e, entries, L.RemoveBlock(TIER_HOT)));
    states, steps := OneMore(env, states, steps, L.ReaperStep(L.Lookup), w2);
    states, steps := OneMore(env, states, steps, L.ReaperStep(L.UnlinkBlock), w3);
    RunLength(env, states, steps);
    var files := d.files - {BlockPath(TIER_HOT, p.Id())};
    IndexKeysThere(env, states, steps, p);
    assert states[|steps|].d.files == files;
    forall ids, tasks, result
      ensures !QueryDone(env.codec, d.Current(), files, env.tiers, env.lib, TIER_HOT, req, h, ids, tasks, result)
    {
      CannotSucceed(env, d.Current(), files, p, req, h, ids, tasks, result);
    }
  }

  lemma PlanTier(env: L.Env, p: Plan)
    requires L.WellPlanned(env, p)
    ensures p.meta.tier == TIER_HOT
  {}

  lemma IndexKeysThere(env: L.Env, states: seq<L.State>, steps: seq<L.Step>, p: Plan)
    requires L.IsRun(env, states, steps) && env.retention < 0x8000_0000_0000_0000
    requires states[|steps|].plans == [p] && states[|steps|].d.Valid()
    requires BlockKey(p.Id()) in states[|steps|].d.Current()
    ensures HasKeys(states[|steps|].d.Current(), p, p.hashes)
  {
    hide L.IsRun, BlockKey, Plan.Id, Paired, Backed, Faithful, FromPlans, HasKeys;
    RunLength(env, states, steps);
    Reachable(env, states, steps, |steps|);
    var st := states[|steps|];
    assert VersionInv(env, [p], st.now, st.d.files, st.d.Current());
    assert Once([p], p);
  }

  /** A task without its file makes the query fail. */
  lemma CannotSucceed(env: L.Env, m: Store, files: Files, p: Plan, req: QueryRequest, h: uint64, ids: seq<BlockID>,
                      tasks: seq<Task>, result: seq<Event>)
    requires env.lib.Sound() && TIER_HOT in env.tiers && L.WellPlanned(env, p) && h in p.hashes
    requires GetBlockMeta(m, p.Id()) == Some(Ok(p.meta)) && p.meta.tier == TIER_HOT && HasKeys(m, p, p.hashes)
    requires BlockPath(TIER_HOT, p.Id()) !in files && BloomPath(TIER_HOT, p.Id()) in files
    requires files[BloomPath(TIER_HOT, p.Id())].data == p.bloom
    requires Wanted(req.eventType, p.req.eventType) && Overlaps(p.Id(), req.from, req.to)
    ensures !QueryDone(env.codec, m, files, env.tiers, env.lib, TIER_HOT, req, h, ids, tasks, result)
  {
    hide Plan.Id, IdxKey, Overlaps, GetBlockMeta, FileBytes, NoRepeats, OneType, SumRows, EachSorted;
    assert IdxKey(p.req.eventType, h, p.Id()) in m;
    assert Listed(m, req, h, p.Id());
    assert BloomPasses(env.lib, files, TIER_HOT, p.Id(), h) by { BuiltPasses(env, p, h); }
    var t := Task(p.Id(), TIER_HOT);
    assert TaskFor(m, env.tiers, p.Id()) == t;
    if t in tasks {
      var i :| 0 <= i < |tasks| && tasks[i] == t;
      assert Answers(env.codec, files, tasks, h, req.from, req.to)[i].Err?;
    }
  }

  lemma BuiltPasses(env: L.Env, p: Plan, h: uint64)
    requires L.WellPlanned(env, p) && env.lib.Sound() && h in p.hashes
    ensures env.lib.readable(p.bloom) && env.lib.test(p.bloom, h)
  {
    hide FileBytes;
    var forBloom :| Distinct(forBloom, p.rows) && p == MakePlan(env.codec, env.lib, p.req, p.rows, forBloom, p.hashes);
    assert h in forBloom;
  }
}
