/**
 * Two seals of one hour: what becomes of the bloom filter of a live block. A block sealed once keeps its filter until
 * it expires (see LifecycleTheorems.SurvivingBlockIsWhole and CacheRuns.CacheStaysRight); these runs show that for
 * every hour sealed twice both can fail.
 */
module Reseals {
  import opened Bytes
  import opened Results
  import opened Keys
  import opened Storage
  import opened Meta
  import opened BlockIds
  import opened BlockFile
  import opened BloomCaches
  import opened Sealer
  import L = Lifecycle
  import opened LifecycleInv
  import CR = CacheRuns
  import opened Query
  import opened QueryTheorems
  import opened SealRuns

  /** The state after the seal of p, the only one so far. */
  lemma FirstSeal(env: L.Env, p: Plan) returns (states: seq<L.State>, steps: seq<L.Step>, d: Durable)
    requires L.WellPlanned(env, p) && env.retention < 0x8000_0000_0000_0000
    ensures Quiet(env, [p], states, steps, d) && d.Valid() && InPlace(d, p)
    ensures forall i :: 0 <= i < |steps| ==> !steps[i].Crash?
    ensures BlockKey(p.Id()) in d.Current() && d.Current()[BlockKey(p.Id())] == EncodeBlockMeta(p.meta)
    ensures HasKeys(d.Current(), p, p.hashes) && FromPlans([p], d.Current())
  {
    hide L.IsRun, L.WellPlanned, BlockKey, Plan.Id, InPlace, EncodeBlockMeta, HasKeys, Paired, Backed, Faithful;
    states, steps, d := SealRun(env, p);
    RunLength(env, states, steps);
    Reachable(env, states, steps, |steps|);
    assert VersionInv(env, [p], 0, d.files, d.Current());
    assert Once([p], p);
    assert PlannedMeta([p], p.Id(), d.Current()[BlockKey(p.Id())]);
  }

  /** The block has not expired at the start of time. */
  lemma NotExpired(env: L.Env, p: Plan)
    requires L.WellPlanned(env, p)
    ensures L.ExpOf(env, p.Id()) > 0
  {
    hide FileBytes, Distinct;
    ParseBuiltID(p.req.shard, p.req.openedAt);
  }

  /** What a live block with its block file and index keys, but without its bloom file, is to a query. */
  ghost predicate Hidden(env: L.Env, st: L.State, p: Plan, h: uint64) {
    && st.d.Valid() && L.ExpOf(env, p.Id()) > st.now
    && BlockKey(p.Id()) in st.d.Current() && st.d.HasDurable(BlockPath(TIER_HOT, p.Id()), p.file)
    && IdxKey(p.req.eventType, h, p.Id()) in st.d.Current()
    && Answer(env.lib, [], p.Id(), BloomFile(st.d.files, TIER_HOT, p.Id()), h) == Some(false)
  }

  /**
   * For every hour sealed twice: there is a run in which the first seal commits and the second fails, after which
   * the first block is live and whole except for its bloom file. An empty cache then answers that the block has
   * none of its keys, and a query succeeds without the rows the block owes it.
   */
  lemma FailedResealHidesBlock(env: L.Env, p: Plan, q: Plan, req: QueryRequest, h: uint64)
    returns (states: seq<L.State>, steps: seq<L.Step>)
    requires env.retention < 0x8000_0000_0000_0000 && L.WellPlanned(env, p) && L.WellPlanned(env, q) && q.Id() == p.Id()
    requires h in p.hashes && Wanted(req.eventType, p.req.eventType) && Overlaps(p.Id(), req.from, req.to)
    ensures |states| == |steps| + 1 && L.IsRun(env, states, steps) && states[|steps|].plans == [p, q]
    ensures Hidden(env, states[|steps|], p, h)
    ensures var d := states[|steps|].d;
      && QueryDone(env.codec, d.Current(), d.files, env.tiers, env.lib, TIER_HOT, req, h, [p.Id()], [], [])
      && Owed(d.Current(), req, h, p) == multiset(Matching(p.rows, h, req.from, req.to))
  {
    hide L.IsRun, L.WellPlanned, BlockKey, Plan.Id, EncodeBlockMeta, IdxKey, QueryDone, Matching, L.ExpOf, FromPlans,
         Overlaps;
    var s1, t1, d := FirstSeal(env, p);
    var d';
    states, steps, d' := FailedSeal(env, [p], q, s1, t1, d);
    assert [p] + [q] == [p, q];
    RunLength(env, states, steps);
    NotExpired(env, p);
    assert IdxKey(p.req.eventType, h, p.Id()) in d.Current();
    OnlyBlockSkipped(env, d.Current(), d'.files, p, req, h);
  }

  lemma OnlyBlockSkipped(env: L.Env, m: Store, files: Files, p: Plan, req: QueryRequest, h: uint64)
    requires FromPlans([p], m) && IdxKey(p.req.eventType, h, p.Id()) in m && BloomPath(TIER_HOT, p.Id()) !in files
    requires Wanted(req.eventType, p.req.eventType) && Overlaps(p.Id(), req.from, req.to)
    ensures QueryDone(env.codec, m, files, env.tiers, env.lib, TIER_HOT, req, h, [p.Id()], [], [])
  {
    hide IdxKey, Plan.Id, Overlaps, OneType, ReadableMeta;
    forall id ensures id in [p.Id()] <==> Listed(m, req, h, id) {
      if Listed(m, req, h, id) {
        var e: byte :| IdxKey(e, h, id) in m;
        assert PlannedIdx([p], id, e);
      }
    }
    EmptySorted();
  }

  /**
   * For every hour sealed twice: there is a run in which both seals commit and a query between them loaded the first
   * filter, after which the cache still answers with it, for every key, although the bloom file is the second seal's.
   */
  lemma ResealLeavesOldFilter(env: L.Env, maxMem: int, p: Plan, q: Plan)
    returns (es: seq<CR.Engine>, ts: seq<CR.Step>)
    requires env.retention < 0x8000_0000_0000_0000 && L.WellPlanned(env, p) && L.WellPlanned(env, q) && q.Id() == p.Id()
    requires p.hashes != [] && env.lib.readable(p.bloom) && |p.bloom| <= maxMem
    ensures |es| == |ts| + 1 && CR.IsRun(env, maxMem, es, ts) && es[|ts|].world.plans == [p, q]
    ensures var st := es[|ts|].world;
      && InPlace(st.d, q) && st.d.Valid() && BlockKey(q.Id()) in st.d.Current()
      && forall h :: Answer(env.lib, es[|ts|].order, q.Id(), BloomFile(st.d.files, TIER_HOT, q.Id()), h) ==
          Some(env.lib.test(p.bloom, h))
  {
    hide L.IsRun, L.WellPlanned, BlockKey, Plan.Id, EncodeBlockMeta, IdxKey, FromPlans, CR.IsRun, L.Init, WALKey;
    var s1, t1, d := FirstSeal(env, p);
    RunLength(env, s1, t1);
    es, ts := StartEngine(env, maxMem, s1, t1);
    es, ts := Follow(env, maxMem, es, ts, s1, t1, 0, []);
    assert IdxKey(p.req.eventType, p.hashes[0], p.Id()) in d.Current();
    assert CR.Known(d.Current(), p.Id());
    EngineLength(env, maxMem, es, ts);
    ExtendEngine(env, maxMem, es, ts, CR.LookUp(p.Id()));
    es, ts := es + [CR.Next(env, maxMem, es[|ts|], CR.LookUp(p.Id()))], ts + [CR.LookUp(p.Id())];
    var order := es[|ts|].order;
    LoadedAlone(env, maxMem, p, d.files);
    var s2, t2, d2 := NextSeal(env, [p], q, s1, t1, d);
    assert [p] + [q] == [p, q];
    es, ts := Follow(env, maxMem, es, ts, s2, t2, |t1|, order);
    EngineLength(env, maxMem, es, ts);
    forall h
      ensures Answer(env.lib, order, q.Id(), BloomFile(d2.files, TIER_HOT, q.Id()), h) == Some(env.lib.test(p.bloom, h))
    {
      AnswerFromCache(env.lib, q.Id(), p.bloom, BloomFile(d2.files, TIER_HOT, q.Id()), h);
    }
  }

  lemma AnswerFromCache(lib: BloomLib, id: BlockID, filter: Bytes, file: Option<Bytes>, h: uint64)
    ensures Answer(lib, [Entry(id, filter)], id, file, h) == Some(lib.test(filter, h))
  {
    assert [Entry(id, filter)][0].id == id;
  }

  lemma StartEngine(env: L.Env, maxMem: int, states: seq<L.State>, steps: seq<L.Step>)
    returns (es: seq<CR.Engine>, ts: seq<CR.Step>)
    requires L.IsRun(env, states, steps)
    ensures Beside(env, maxMem, es, ts, states[0], [])
  {
    hide L.Enabled, L.Next;
    es, ts := [CR.Engine(states[0], [])], [];
  }

  lemma EngineLength(env: L.Env, maxMem: int, es: seq<CR.Engine>, ts: seq<CR.Step>)
    requires CR.IsRun(env, maxMem, es, ts)
    ensures |es| == |ts| + 1
  {}

  /** The first filter an empty cache loads is the only one in it. */
  lemma LoadedAlone(env: L.Env, maxMem: int, p: Plan, files: Files)
    requires env.lib.readable(p.bloom) && |p.bloom| <= maxMem && BloomPath(TIER_HOT, p.Id()) in files
    requires files[BloomPath(TIER_HOT, p.Id())].data == p.bloom
    ensures Tested(env.lib, [], maxMem, p.Id(), BloomFile(files, TIER_HOT, p.Id())) == [Entry(p.Id(), p.bloom)]
  {
    hide Plan.Id;
  }
}
