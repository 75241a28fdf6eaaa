/**
 * Rows outside their block's hour are really missed: runs of the store that seal them and queries that do not
 * see them.
 */
module QueryGaps {
  import opened Bytes
  import opened Results
  import opened Keys
  import opened Storage
  import opened BlockIds
  import opened Format
  import opened BlockFile
  import opened BloomCaches
  import opened Sealer
  import L = Lifecycle
  import opened LifecycleInv
  import LT = LifecycleTheorems
  import opened Query
  import opened QueryTheorems
  import opened SealRuns

  // ----- the query that misses -----

  /** The block's matching rows all lie in a range that its hour does not meet. */
  ghost predicate Stray(p: Plan, req: QueryRequest, h: uint64) {
    && Wanted(req.eventType, p.req.eventType) && !Overlaps(p.Id(), req.from, req.to)
    && Matching(p.rows, h, req.from, req.to) != []
  }

  ghost predicate Lawful(env: L.Env) {
    LT.Configured(env) && env.codec.Inverts() && env.lib.Sound() && TIER_HOT in env.tiers
  }

  /**
   * For every block with a matching row outside its hour there is a run that seals just this block, with its bloom
   * file in place, after which a query succeeds and returns nothing although it owes those rows.
   */
  lemma StrayMissed(env: L.Env, p: Plan, req: QueryRequest, h: uint64)
    returns (states: seq<L.State>, steps: seq<L.Step>)
    requires Lawful(env) && L.WellPlanned(env, p) && Fits(env.codec, p.rows) && Stray(p, req, h)
    ensures |states| == |steps| + 1 && QueriedState(env, states, steps, |steps|, states[|steps|].d)
    ensures var st := states[|steps|];
      && BloomsPresent(st.plans, st.d.Current(), st.d.files)
      && QueryDone(env.codec, st.d.Current(), st.d.files, env.tiers, env.lib, TIER_HOT, req, h, [], [], [])
      && Expected(st.plans, st.d.Current(), req, h) == multiset(Matching(p.rows, h, req.from, req.to)) != multiset{}
  {
    hide L.IsRun, L.WellPlanned, Fits, Codec.Inverts, BloomLib.Sound, Plan.Id, QueryDone, Matching, BlockKey;
    var d;
    states, steps, d := SealRun(env, p);
    RunLength(env, states, steps);
    var st := states[|steps|];
    assert Once([p], p);
    OwedAlone(p, st.d.Current(), req, h);
    LT.SurvivorInv(env, states, steps, |steps|, st.d);
    NothingListed(env, st, p, req, h);
    EmptyDone(env, st.d.Current(), st.d.files, req, h);
  }

  lemma OwedAlone(p: Plan, m: Store, req: QueryRequest, h: uint64)
    requires BlockKey(p.Id()) in m && Wanted(req.eventType, p.req.eventType)
    requires Matching(p.rows, h, req.from, req.to) != []
    ensures Expected([p], m, req, h) == multiset(Matching(p.rows, h, req.from, req.to)) != multiset{}
  {
    hide Matching, Plan.Id, BlockKey, QueryTheorems.Total;
    var rows := Matching(p.rows, h, req.from, req.to);
    TotalOne((q: Plan) => Owed(m, req, h, q), p);
    assert rows[0] in multiset(rows);
  }

  lemma TotalOne(f: Plan -> multiset<Event>, p: Plan)
    ensures QueryTheorems.Total(f, [p]) == f(p)
  {
    assert [p][..0] == [] && QueryTheorems.Total(f, [p]) == QueryTheorems.Total(f, []) + f(p);
  }

  lemma NothingListed(env: L.Env, st: L.State, p: Plan, req: QueryRequest, h: uint64)
    requires st.d.Valid() && st.plans == [p] && VersionInv(env, st.plans, st.now, st.d.files, st.d.Current())
    requires Stray(p, req, h)
    ensures forall id :: !Listed(st.d.Current(), req, h, id)
  {
    hide Overlaps, IdxKey, Plan.Id, Paired, Whole, Backed, Faithful, Matching;
    forall id | Overlaps(id, req.from, req.to) ensures !Listed(st.d.Current(), req, h, id) {
      forall e: byte ensures IdxKey(e, h, id) !in st.d.Current() {
        assert IdxKey(e, h, id) in st.d.Current() ==> PlannedIdx([p], id, e);
      }
    }
  }

  lemma EmptyDone(env: L.Env, m: Store, files: Files, req: QueryRequest, h: uint64)
    requires forall id :: !Listed(m, req, h, id)
    ensures QueryDone(env.codec, m, files, env.tiers, env.lib, TIER_HOT, req, h, [], [], [])
  {
    hide Listed, OneType;
    FilterEmpty(m, files, env.tiers, env.lib, TIER_HOT, h, []);
    EmptySorted();
  }

  // ----- such a block exists -----

  /** A codec that stores bytes as they are, a bloom filter that passes everything, and the default retention. */
  function PlainEnv(): L.Env {
    L.Env(Codec(b => b, b => Ok(b), _ => 0), BloomLib(_ => [], _ => true, (_, _) => true), 0, {TIER_HOT})
  }

  /** One event of hour five in a block opened in hour zero. */
  function LateRow(): Event {
    Event(7, 5 * NANOS_PER_HOUR, [])
  }

  function LatePlan(): Plan {
    MakePlan(PlainEnv().codec, PlainEnv().lib, SealRequest(0x0107, 1, 0, 0, 0, 0), [LateRow()], [7], [7])
  }

  lemma LatePlanFits()
    ensures Lawful(PlainEnv()) && L.WellPlanned(PlainEnv(), LatePlan()) && Fits(PlainEnv().codec, LatePlan().rows)
  {
    hide FileBytes;
    var rows := [LateRow()];
    assert KeyHashes(rows) == [7] && Payloads(rows) == [[]];
    Uint64BytesAt(KeyHashes(rows), 0);
    Uint64BytesAt(ToUint64s(Timestamps(rows)), 0);
    assert Payloads(rows)[..0] == [];
    assert |FrameBytes(Payloads(rows))| <= 100 by { assert FrameBytes([]) == []; assert |Frame([])| <= 100; }
    assert Distinct([7], rows);
  }

  /** The last hour's query misses the late row, in a state the store really reaches. */
  lemma LateRowMissed() returns (states: seq<L.State>, steps: seq<L.Step>, req: QueryRequest)
    ensures |states| == |steps| + 1 && QueriedState(PlainEnv(), states, steps, |steps|, states[|steps|].d)
    ensures var st := states[|steps|];
      && BloomsPresent(st.plans, st.d.Current(), st.d.files)
      && QueryDone(PlainEnv().codec, st.d.Current(), st.d.files, {TIER_HOT}, PlainEnv().lib, TIER_HOT, req, 7,
          [], [], [])
      && Expected(st.plans, st.d.Current(), req, 7) == multiset{LateRow()}
  {
    hide QueryDone, BloomsPresent, QueriedState, Lawful, L.WellPlanned, Fits, FileBytes, Expected;
    LatePlanFits();
    var p := LatePlan();
    req := QueryRequest([1], None, 5 * NANOS_PER_HOUR, 6 * NANOS_PER_HOUR);
    ParseBuiltID(p.req.shard, p.req.openedAt);
    assert p.rows == [LateRow()] && p.rows[..0] == [];
    assert Matching(p.rows, 7, req.from, req.to) == [LateRow()];
    states, steps := StrayMissed(PlainEnv(), p, req, 7);
  }
}
