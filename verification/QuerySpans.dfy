/**
 * A query whose reads are spread over a run: every index scan, bloom test, metadata read and file read sees
 * another state.
 */
module QuerySpans {
  import opened Bytes
  import opened Results
  import opened Keys
  import opened Storage
  import opened Meta
  import opened BlockFile
  import opened Format
  import opened RowOrder
  import opened Merger
  import opened BloomCaches
  import opened Sealer
  import L = Lifecycle
  import opened LifecycleInv
  import CR = CacheRuns
  import opened Query
  import opened QueryTheorems
  import ParallelReads

  /** The states lo to hi of a run of the store with its query engine. */
  datatype Span = Span(env: L.Env, states: seq<CR.Engine>, lo: nat, hi: nat)
  {
    predicate In(i: nat) {
      lo <= i <= hi < |states|
    }

    function StoreAt(i: nat): Store {
      if i < |states| && states[i].world.d.Valid() then states[i].world.d.Current() else map[]
    }

    function FilesAt(i: nat): Files {
      if i < |states| then states[i].world.d.files else map[]
    }

    /** The bloom cache's answer in state i. */
    function TestAt(i: nat, id: BlockID, h: uint64): Option<bool> {
      if i < |states| then Answer(env.lib, states[i].order, id, BloomFile(FilesAt(i), TIER_HOT, id), h) else None
    }
  }

  /** A listed block, the event type it was listed under, and the states of its bloom test and of its metadata read. */
  datatype Look = Look(et: byte, id: BlockID, tested: nat, fetched: nat)

  // ----- what a query over a span did -----

  /** The block is indexed in state i under a wanted event type, and its hour meets the range. */
  ghost predicate ListedIn(sp: Span, i: nat, req: QueryRequest, h: uint64, et: byte, id: BlockID) {
    Wanted(req.eventType, et) && IdxKey(et, h, id) in sp.StoreAt(i) && Overlaps(id, req.from, req.to)
  }

  /** scans says in which state the index was scanned for each event type. */
  ghost predicate ListedAt(sp: Span, scans: seq<nat>, req: QueryRequest, h: uint64, et: byte, id: BlockID)
    requires |scans| == 256
  {
    ListedIn(sp, scans[et], req, h, et, id)
  }

  /** The bloom test passed and the metadata could be read: the block's file is read. */
  ghost predicate Kept(sp: Span, h: uint64, l: Look) {
    sp.TestAt(l.tested, l.id, h) == Some(true) && ReadableMeta(sp.StoreAt(l.fetched), sp.env.tiers, l.id)
  }

  /** The bloom test came after the scans, and the metadata read after the test. */
  predicate InTime(sp: Span, start: nat, l: Look) {
    sp.In(l.tested) && sp.In(l.fetched) && start <= l.tested <= l.fetched
  }

  /** The look ends the query: the filter, or the metadata record there is, cannot be decoded. */
  ghost predicate Stuck(sp: Span, h: uint64, l: Look) {
    sp.TestAt(l.tested, l.id, h) == None
    || (sp.TestAt(l.tested, l.id, h) == Some(true) && BadMeta(sp.StoreAt(l.fetched), l.id))
  }

  predicate DistinctLooks(looks: seq<Look>) {
    forall i, j :: 0 <= i < j < |looks| ==> looks[i].et != looks[j].et || looks[i].id != looks[j].id
  }

  ghost predicate HasLook(looks: seq<Look>, et: byte, id: BlockID) {
    exists l :: l in looks && l.et == et && l.id == id
  }

  /** Every listed block was looked at, once, and nothing else. */
  ghost predicate Looked(sp: Span, scans: seq<nat>, req: QueryRequest, h: uint64, looks: seq<Look>)
    requires |scans| == 256
  {
    && DistinctLooks(looks)
    && (forall l :: l in looks ==> InTime(sp, scans[l.et], l) && ListedAt(sp, scans, req, h, l.et, l.id))
    && (forall et: byte, id :: ListedAt(sp, scans, req, h, et, id) ==> HasLook(looks, et, id))
  }

  ghost predicate KeptAre(sp: Span, h: uint64, looks: seq<Look>, kept: seq<Look>) {
    && DistinctLooks(kept)
    && (forall l :: l in kept <==> l in looks && Kept(sp, h, l))
  }

  /** Reading a kept block's file in state at. */
  function ReadAt(sp: Span, req: QueryRequest, h: uint64, l: Look, at: nat): Result<seq<Event>> {
    if ReadableMeta(sp.StoreAt(l.fetched), sp.env.tiers, l.id)
    then ReadTask(sp.env.codec, sp.FilesAt(at), TaskFor(sp.StoreAt(l.fetched), sp.env.tiers, l.id), h, req.from, req.to)
    else Err("no metadata")
  }

  ghost predicate ReadsAre(sp: Span, req: QueryRequest, h: uint64, kept: seq<Look>, opens: seq<nat>,
                           answers: seq<Result<seq<Event>>>) {
    && |opens| == |answers| == |kept|
    && (forall i :: 0 <= i < |kept| ==> sp.In(opens[i]) && answers[i] == ReadAt(sp, req, h, kept[i], opens[i]))
  }

  /** Why a query over the span fails when no operation does. */
  ghost predicate SpanStuck(sp: Span, scans: seq<nat>, req: QueryRequest, h: uint64, looks: seq<Look>, kept: seq<Look>,
                            opens: seq<nat>, answers: seq<Result<seq<Event>>>) {
    && |scans| == 256 && (forall e :: 0 <= e < 256 ==> sp.In(scans[e]))
    && ((exists l :: l in looks && InTime(sp, scans[l.et], l) && ListedAt(sp, scans, req, h, l.et, l.id)
          && Stuck(sp, h, l))
        || (&& Looked(sp, scans, req, h, looks) && KeptAre(sp, h, looks, kept)
            && ReadsAre(sp, req, h, kept, opens, answers) && !AllOk(answers)))
  }

  /** A successful query over the span. */
  ghost predicate SpanDone(sp: Span, scans: seq<nat>, req: QueryRequest, h: uint64, looks: seq<Look>, kept: seq<Look>,
                           opens: seq<nat>, answers: seq<Result<seq<Event>>>, result: seq<Event>) {
    && |scans| == 256 && (forall e :: 0 <= e < 256 ==> sp.In(scans[e]))
    && Looked(sp, scans, req, h, looks) && KeptAre(sp, h, looks, kept)
    && ReadsAre(sp, req, h, kept, opens, answers) && AllOk(answers)
    && multiset(result) == SumRows(answers) && (EachSorted(answers) ==> Sorted(result))
  }

  // ----- what holds in every state of the span -----

  /** What the run's invariants say about one state, whose seals begun so far are among plans. */
  ghost predicate Facts(env: L.Env, st: CR.Engine, plans: seq<Plan>) {
    var w := st.world;
    && w.d.Valid() && w.plans <= plans
    && VersionInv(env, w.plans, w.now, w.d.files, w.d.Current())
    && CR.BlockFiles(w.plans, w.d.files) && CR.VersionBlooms(w.plans, w.d.files, w.d.Current())
    && (forall e :: e in st.order ==> CR.Right(env.lib, w.plans, w.d.Current(), e))
  }

  ghost predicate Good(sp: Span) {
    && sp.lo <= sp.hi < |sp.states| && Assumed(sp.env, sp.states[sp.hi].world.plans)
    && (forall i: nat :: sp.In(i) ==> Facts(sp.env, sp.states[i], sp.states[sp.hi].world.plans))
  }

  lemma {:induction false} PlansGrowAlong(env: L.Env, maxMem: int, states: seq<CR.Engine>, steps: seq<CR.Step>, i: nat,
                                          j: nat)
    requires CR.IsRun(env, maxMem, states, steps) && i <= j <= |steps|
    ensures states[i].world.plans <= states[j].world.plans
    decreases j
  {
    hide L.Enabled, L.Next, L.Init, CR.Known, Tested;
    if i < j {
      PlansGrowAlong(env, maxMem, states, steps, i, j - 1);
      if steps[j - 1].World? { CR.PlansAfter(env, states[j - 1].world, steps[j - 1].step); }
    }
  }

  /** Any stretch of a run whose blocks were each sealed once is good. */
  lemma SpanOfRun(env: L.Env, maxMem: int, states: seq<CR.Engine>, steps: seq<CR.Step>, lo: nat, hi: nat)
    requires CR.IsRun(env, maxMem, states, steps) && lo <= hi <= |steps| && env.retention < 0x8000_0000_0000_0000
    requires env.codec.Inverts() && env.lib.Sound() && TIER_HOT in env.tiers
    requires forall p :: p in states[hi].world.plans ==> Once(states[hi].world.plans, p) && Fits(env.codec, p.rows)
    ensures Good(Span(env, states, lo, hi))
  {
    hide L.IsRun, Once, Fits, Codec.Inverts, BloomLib.Sound, CR.Enabled, CR.Next, L.Init, L.WellPlanned, Facts;
    var worlds, moves := CR.WorldRun(env, maxMem, states, steps, hi);
    CR.WorldRunLength(env, worlds, moves);
    PlansWellPlanned(env, worlds, moves, |moves|);
    forall i: nat | lo <= i <= hi ensures Facts(env, states[i], states[hi].world.plans) {
      CR.CacheReachable(env, maxMem, states, steps, i);
      PlansGrowAlong(env, maxMem, states, steps, i, hi);
      FactsFrom(env, maxMem, states[i], states[hi].world.plans);
    }
  }

  lemma FactsFrom(env: L.Env, maxMem: int, st: CR.Engine, plans: seq<Plan>)
    requires Inv(env, st.world) && CR.CacheInv(env, maxMem, st) && CR.BlockFiles(st.world.plans, st.world.d.files)
    requires CR.BloomInv(st.world)
    requires st.world.plans <= plans
    ensures Facts(env, st, plans)
  {
    hide VersionInv, JobsInv, SweepInv, CR.Right, CR.VersionBlooms, CR.BlockFiles, DistinctIds, Bounded;
    assert VersionInv(env, st.world.plans, st.world.now, st.world.d.files, st.world.d.Current());
  }

  lemma OncePrefix(a: seq<Plan>, b: seq<Plan>, p: Plan)
    requires a <= b && p in a && Once(b, p)
    ensures Once(a, p)
  {
    hide Plan.Id;
    forall i, j | 0 <= i < |a| && 0 <= j < |a| && a[i].Id() == p.Id() && a[j].Id() == p.Id() ensures i == j {
      assert b[i] == a[i] && b[j] == a[j];
    }
  }

  /** The plan of a block that a state knows. */
  lemma SamePlan(env: L.Env, st: CR.Engine, plans: seq<Plan>, p: Plan, q: Plan)
    requires Facts(env, st, plans) && Assumed(env, plans) && p in plans && q in st.world.plans && q.Id() == p.Id()
    ensures p == q && Once(st.world.plans, p)
  {
    hide VersionInv, CR.VersionBlooms, CR.BlockFiles, CR.Right, Plan.Id, Once, L.WellPlanned, Fits, Codec.Inverts,
         BloomLib.Sound;
    var i :| 0 <= i < |st.world.plans| && st.world.plans[i] == q;
    assert plans[i] == q && q in plans && Once(plans, p);
    OnceSame(plans, p, q);
    OncePrefix(st.world.plans, plans, p);
  }

  /** The plan behind an index entry. */
  lemma IndexedPlan(env: L.Env, st: CR.Engine, plans: seq<Plan>, et: byte, h: uint64, id: BlockID) returns (p: Plan)
    requires Facts(env, st, plans) && IdxKey(et, h, id) in st.world.d.Current()
    ensures p in plans && p.Id() == id && p.req.eventType == et
  {
    hide CR.VersionBlooms, CR.BlockFiles, CR.Right, Plan.Id, IdxKey, Paired, Whole, Backed, Faithful;
    assert PlannedIdx(st.world.plans, id, et);
    p :| p in st.world.plans && p.Id() == id && p.req.eventType == et;
    var i :| 0 <= i < |st.world.plans| && st.world.plans[i] == p;
    assert plans[i] == p;
  }

  /** Metadata of a block lead to its plan. */
  lemma LivePlan(env: L.Env, st: CR.Engine, plans: seq<Plan>, p: Plan)
    requires Facts(env, st, plans) && Assumed(env, plans) && p in plans && BlockKey(p.Id()) in st.world.d.Current()
    ensures Once(st.world.plans, p) && ReadableMeta(st.world.d.Current(), env.tiers, p.Id())
    ensures TaskFor(st.world.d.Current(), env.tiers, p.Id()) == Task(p.Id(), TIER_HOT)
  {
    hide CR.VersionBlooms, CR.BlockFiles, CR.Right, Plan.Id, BlockKey, Paired, Whole, Backed, Faithful, Once,
         L.WellPlanned, Fits, Codec.Inverts, BloomLib.Sound, ReadableMeta, TaskFor, EncodeBlockMeta;
    var m := st.world.d.Current();
    assert PlannedMeta(st.world.plans, p.Id(), m[BlockKey(p.Id())]);
    var q :| q in st.world.plans && q.Id() == p.Id() && m[BlockKey(p.Id())] == EncodeBlockMeta(q.meta);
    SamePlan(env, st, plans, p, q);
    MetaOf(env, st.world.plans, m, p);
  }

  /**
   * A block file that can be opened reads as the block's matching rows, whether or not its metadata are still
   * there.
   */
  lemma FileReads(env: L.Env, st: CR.Engine, plans: seq<Plan>, p: Plan, h: uint64, from: int64, to: int64)
    requires Facts(env, st, plans) && Assumed(env, plans) && p in plans
    requires ReadTask(env.codec, st.world.d.files, Task(p.Id(), TIER_HOT), h, from, to).Ok?
    ensures ReadTask(env.codec, st.world.d.files, Task(p.Id(), TIER_HOT), h, from, to) ==
        Ok(Matching(p.rows, h, from, to))
  {
    hide CR.Right, Plan.Id, VersionInv, Once, L.WellPlanned, Fits, Codec.Inverts, BloomLib.Sound, ReadRows, Matching;
    assert CR.Begun(st.world.plans, p.Id());
    var q :| q in st.world.plans && q.Id() == p.Id();
    SamePlan(env, st, plans, p, q);
    assert CR.BlockIs(st.world.d.files, p);
    PlanReads(env, p, h, from, to);
  }

  /** A live block with its bloom file in place passes the test for each of its hashes, cached or not. */
  lemma TestPasses(env: L.Env, st: CR.Engine, plans: seq<Plan>, p: Plan, h: uint64)
    requires Facts(env, st, plans) && Assumed(env, plans) && p in plans && BlockKey(p.Id()) in st.world.d.Current()
    requires BloomPath(TIER_HOT, p.Id()) in st.world.d.files && h in KeyHashes(p.rows)
    ensures Answer(env.lib, st.order, p.Id(), BloomFile(st.world.d.files, TIER_HOT, p.Id()), h) == Some(true)
  {
    hide CR.VersionBlooms, CR.BlockFiles, Plan.Id, BlockKey, Paired, Whole, Backed, FromPlans, Once, Fits,
         Codec.Inverts, BloomLib.Sound, L.WellPlanned, CR.Known, ReadableMeta, TaskFor, L.ExpOf;
    LivePlan(env, st, plans, p);
    var w := st.world;
    assert Faithful(env, w.plans, w.now, w.d.files, w.d.Current());
    BloomOf(env, w.plans, w.now, w.d.Current(), w.d.files, p, h);
    assert Contents(env, w.now, w.d.files, p);
    if Cached(st.order, p.Id()) { assert Find(st.order, p.Id()) in st.order; }
  }

  /** A live block is indexed for each of its hashes. */
  lemma LiveIsIndexed(env: L.Env, st: CR.Engine, plans: seq<Plan>, p: Plan, h: uint64)
    requires Facts(env, st, plans) && Assumed(env, plans) && p in plans && BlockKey(p.Id()) in st.world.d.Current()
    requires h in p.hashes
    ensures IdxKey(p.req.eventType, h, p.Id()) in st.world.d.Current()
  {
    hide CR.VersionBlooms, CR.BlockFiles, CR.Right, Plan.Id, BlockKey, Paired, Backed, Faithful, FromPlans, Once, Fits,
         Codec.Inverts, BloomLib.Sound, L.WellPlanned, ReadableMeta, TaskFor;
    LivePlan(env, st, plans, p);
    assert HasKeys(st.world.d.Current(), p, p.hashes);
  }

  // ----- the bounds -----

  predicate Concerns(req: QueryRequest, p: Plan) {
    Wanted(req.eventType, p.req.eventType) && Overlaps(p.Id(), req.from, req.to)
  }

  /** The block has metadata in some state of the span. */
  ghost predicate Sometime(sp: Span, p: Plan) {
    exists i: nat :: sp.In(i) && BlockKey(p.Id()) in sp.StoreAt(i)
  }

  /** The block has metadata and bloom file in every state of the span. */
  ghost predicate Throughout(sp: Span, p: Plan) {
    forall i: nat :: sp.In(i) ==> BlockKey(p.Id()) in sp.StoreAt(i) && BloomPath(TIER_HOT, p.Id()) in sp.FilesAt(i)
  }

  function Rows(req: QueryRequest, h: uint64, p: Plan): multiset<Event> {
    multiset(Matching(p.rows, h, req.from, req.to))
  }

  ghost function AtMost(sp: Span, req: QueryRequest, h: uint64, p: Plan): multiset<Event> {
    if Concerns(req, p) && Sometime(sp, p) then Rows(req, h, p) else multiset{}
  }

  ghost function AtLeast(sp: Span, req: QueryRequest, h: uint64, p: Plan): multiset<Event> {
    if Concerns(req, p) && Throughout(sp, p) then Rows(req, h, p) else multiset{}
  }

  /** The plan read for a kept look. */
  ghost predicate ReadFor(sp: Span, req: QueryRequest, h: uint64, l: Look, a: Result<seq<Event>>, p: Plan)
    requires sp.hi < |sp.states|
  {
    && p in sp.states[sp.hi].world.plans && p.Id() == l.id && p.req.eventType == l.et
    && a == Ok(Matching(p.rows, h, req.from, req.to)) && Sorted(Matching(p.rows, h, req.from, req.to))
    && AtMost(sp, req, h, p) == Rows(req, h, p)
  }

  lemma KeptReads(sp: Span, scans: seq<nat>, req: QueryRequest, h: uint64, looks: seq<Look>, l: Look, at: nat)
    returns (p: Plan)
    requires Good(sp) && |scans| == 256 && (forall e :: 0 <= e < 256 ==> sp.In(scans[e]))
    requires Looked(sp, scans, req, h, looks) && l in looks && Kept(sp, h, l) && sp.In(at)
    requires ReadAt(sp, req, h, l, at).Ok?
    ensures sp.hi < |sp.states| && ReadFor(sp, req, h, l, ReadAt(sp, req, h, l, at), p)
  {
    hide Facts, Assumed, IdxKey, BlockKey, Plan.Id, Overlaps, Matching, Sorted, ReadTask, ReadableMeta, TaskFor,
         Span.TestAt, HasLook, DistinctLooks;
    var plans := sp.states[sp.hi].world.plans;
    var scan := sp.states[scans[l.et]];
    ValidAt(sp, scans[l.et]);
    ValidAt(sp, l.fetched);
    p := IndexedPlan(sp.env, scan, plans, l.et, h, l.id);
    ReadableHasKey(sp.StoreAt(l.fetched), sp.env.tiers, l.id);
    LivePlan(sp.env, sp.states[l.fetched], plans, p);
    FileReads(sp.env, sp.states[at], plans, p, h, req.from, req.to);
    RowsSorted(sp.env, plans, p, h, req.from, req.to);
    assert Sometime(sp, p);
  }

  lemma ValidAt(sp: Span, i: nat)
    requires Good(sp) && sp.In(i)
    ensures Facts(sp.env, sp.states[i], sp.states[sp.hi].world.plans)
    ensures sp.states[i].world.d.Valid() && sp.StoreAt(i) == sp.states[i].world.d.Current()
  {
    hide VersionInv, CR.VersionBlooms, CR.BlockFiles, CR.Right, Assumed;
  }

  lemma RowsSorted(env: L.Env, plans: seq<Plan>, p: Plan, h: uint64, from: int64, to: int64)
    requires Assumed(env, plans) && p in plans
    ensures Sorted(Matching(p.rows, h, from, to))
  {
    hide Once, Fits, Codec.Inverts, BloomLib.Sound, FileBytes, Body;
    MatchingFacts(p.rows, h, from, to);
  }

  /** The plans of the first n kept looks; their rows are the answers'. */
  lemma {:induction false} KeptPlans(sp: Span, scans: seq<nat>, req: QueryRequest, h: uint64, looks: seq<Look>,
                                     kept: seq<Look>,
                                     opens: seq<nat>, answers: seq<Result<seq<Event>>>, n: nat) returns (ps: seq<Plan>)
    requires Good(sp) && |scans| == 256 && (forall e :: 0 <= e < 256 ==> sp.In(scans[e]))
    requires Looked(sp, scans, req, h, looks) && KeptAre(sp, h, looks, kept)
    requires ReadsAre(sp, req, h, kept, opens, answers) && AllOk(answers) && n <= |kept|
    ensures |ps| == n && forall i :: 0 <= i < n ==> ReadFor(sp, req, h, kept[i], answers[i], ps[i])
    ensures SumRows(answers[..n]) == QueryTheorems.Total(p => AtMost(sp, req, h, p), ps)
  {
    hide Good, Looked, Kept, ReadAt, AtMost, Matching, Sorted, Plan.Id, SumRows, QueryTheorems.Total, DistinctLooks;
    var f := (p: Plan) => AtMost(sp, req, h, p);
    if n == 0 {
      ps := [];
      NoAnswers(answers, f);
    } else {
      ps := KeptPlans(sp, scans, req, h, looks, kept, opens, answers, n - 1);
      assert kept[n - 1] in kept;
      var p := KeptReads(sp, scans, req, h, looks, kept[n - 1], opens[n - 1]);
      TotalAppend(f, ps, p);
      SumNext(answers, n - 1);
      ps := ps + [p];
    }
  }

  lemma KeptDistinct(sp: Span, req: QueryRequest, h: uint64, kept: seq<Look>, answers: seq<Result<seq<Event>>>,
                     ps: seq<Plan>)
    requires |ps| == |kept| == |answers| && DistinctLooks(kept) && sp.hi < |sp.states|
    requires forall i :: 0 <= i < |ps| ==> ReadFor(sp, req, h, kept[i], answers[i], ps[i])
    ensures NoDuplicates(ps)
  {
    hide AtMost, Matching, Sorted, Plan.Id;
    forall i, j | 0 <= i < j < |ps| ensures ps[i] != ps[j] {
      assert ReadFor(sp, req, h, kept[i], answers[i], ps[i]) && ReadFor(sp, req, h, kept[j], answers[j], ps[j]);
    }
  }

  /** A block that is live throughout and owes rows is read. */
  lemma ThroughoutIsRead(sp: Span, scans: seq<nat>, req: QueryRequest, h: uint64, looks: seq<Look>, kept: seq<Look>,
                         p: Plan)
    requires Good(sp) && |scans| == 256 && (forall e :: 0 <= e < 256 ==> sp.In(scans[e]))
    requires Looked(sp, scans, req, h, looks) && KeptAre(sp, h, looks, kept)
    requires p in sp.states[sp.hi].world.plans && AtLeast(sp, req, h, p) != multiset{}
    ensures HasLook(kept, p.req.eventType, p.Id())
  {
    hide Facts, Assumed, IdxKey, BlockKey, Plan.Id, Overlaps, ReadableMeta, TaskFor, Answer, DistinctLooks;
    var plans, et, id := sp.states[sp.hi].world.plans, p.req.eventType, p.Id();
    HashesOf(sp.env, plans, p, req, h);
    ValidAt(sp, scans[et]);
    LiveIsIndexed(sp.env, sp.states[scans[et]], plans, p, h);
    assert ListedAt(sp, scans, req, h, et, id);
    assert HasLook(looks, et, id);
    var l :| l in looks && l.et == et && l.id == id;
    ValidAt(sp, l.tested);
    TestPasses(sp.env, sp.states[l.tested], plans, p, h);
    ValidAt(sp, l.fetched);
    LivePlan(sp.env, sp.states[l.fetched], plans, p);
    assert Kept(sp, h, l);
  }

  lemma HashesOf(env: L.Env, plans: seq<Plan>, p: Plan, req: QueryRequest, h: uint64)
    requires Assumed(env, plans) && p in plans && Rows(req, h, p) != multiset{}
    ensures h in KeyHashes(p.rows) && h in p.hashes
  {
    hide Once, Fits, Codec.Inverts, BloomLib.Sound, FileBytes, Body;
    var rows := Matching(p.rows, h, req.from, req.to);
    MatchingFacts(p.rows, h, req.from, req.to);
    assert rows[0] in rows;
    HashOf(p.rows, rows[0]);
  }

  lemma {:induction false} TotalBelow(f: Plan -> multiset<Event>, g: Plan -> multiset<Event>, ps: seq<Plan>)
    requires forall p :: p in ps ==> f(p) <= g(p)
    ensures QueryTheorems.Total(f, ps) <= QueryTheorems.Total(g, ps)
  {
    if ps != [] { TotalBelow(f, g, ps[..|ps| - 1]); }
  }

  /**
   * However the store changes between the reads of one query: a successful query returns rows of the asked key in
   * timestamp order; all matching rows of the blocks concerned that have metadata and bloom file throughout; and
   * none but matching rows of blocks concerned that had metadata at some time, each as often as sealed.
   */
  lemma SpanBounds(sp: Span, scans: seq<nat>, req: QueryRequest, h: uint64, looks: seq<Look>, kept: seq<Look>,
                   opens: seq<nat>, answers: seq<Result<seq<Event>>>, result: seq<Event>)
    requires Good(sp) && SpanDone(sp, scans, req, h, looks, kept, opens, answers, result)
    ensures var plans := sp.states[sp.hi].world.plans;
      && QueryTheorems.InOrder(result, h)
      && QueryTheorems.Total(p => AtLeast(sp, req, h, p), plans) <= multiset(result)
      && multiset(result) <= QueryTheorems.Total(p => AtMost(sp, req, h, p), plans)
  {
    hide Facts, Looked, Kept, ReadAt, AtMost, AtLeast, Matching, Sorted, Plan.Id, SumRows, QueryTheorems.Total,
         DistinctLooks, Assumed, QueryTheorems.InOrder, NoDuplicates;
    var plans := sp.states[sp.hi].world.plans;
    var most, least := (p: Plan) => AtMost(sp, req, h, p), (p: Plan) => AtLeast(sp, req, h, p);
    var ps := KeptPlans(sp, scans, req, h, looks, kept, opens, answers, |kept|);
    assert answers[..|kept|] == answers;
    KeptDistinct(sp, req, h, kept, answers, ps);
    forall i | 0 <= i < |answers| && answers[i].Ok?
      ensures Sorted(answers[i].value)
    {
      assert ReadFor(sp, req, h, kept[i], answers[i], ps[i]);
    }
    forall p | p in ps ensures p in plans {
      var i :| 0 <= i < |ps| && ps[i] == p;
      assert ReadFor(sp, req, h, kept[i], answers[i], ps[i]);
    }
    AssumedDistinct(sp.env, plans);
    TotalInside(most, ps, plans);
    forall p | p in plans && p !in ps
      ensures least(p) == multiset{}
    {
      NotReadOwesNothing(sp, scans, req, h, looks, kept, answers, ps, p);
    }
    TotalInside(least, ps, plans);
    forall p | p in ps ensures least(p) <= most(p) { LeastBelowMost(sp, req, h, p); }
    TotalBelow(least, most, ps);
    SpanOrder(sp, req, h, ps, result);
  }

  lemma LeastBelowMost(sp: Span, req: QueryRequest, h: uint64, p: Plan)
    requires sp.lo <= sp.hi < |sp.states|
    ensures AtLeast(sp, req, h, p) <= AtMost(sp, req, h, p)
  {
    hide Plan.Id, Overlaps, Matching, BlockKey;
    assert sp.In(sp.lo);
    assert Throughout(sp, p) ==> Sometime(sp, p);
  }

  lemma NotReadOwesNothing(sp: Span, scans: seq<nat>, req: QueryRequest, h: uint64, looks: seq<Look>, kept: seq<Look>,
                           answers: seq<Result<seq<Event>>>, ps: seq<Plan>, p: Plan)
    requires Good(sp) && |scans| == 256 && (forall e :: 0 <= e < 256 ==> sp.In(scans[e]))
    requires Looked(sp, scans, req, h, looks) && KeptAre(sp, h, looks, kept) && |ps| == |kept| == |answers|
    requires forall i :: 0 <= i < |ps| ==> ReadFor(sp, req, h, kept[i], answers[i], ps[i])
    requires p in sp.states[sp.hi].world.plans && p !in ps
    ensures AtLeast(sp, req, h, p) == multiset{}
  {
    hide Facts, Looked, Kept, AtMost, AtLeast, Matching, Sorted, Plan.Id, DistinctLooks, Once, L.WellPlanned, Fits,
         Codec.Inverts, BloomLib.Sound;
    if AtLeast(sp, req, h, p) != multiset{} {
      ThroughoutIsRead(sp, scans, req, h, looks, kept, p);
      var l :| l in kept && l.et == p.req.eventType && l.id == p.Id();
      var i :| 0 <= i < |kept| && kept[i] == l;
      assert ReadFor(sp, req, h, kept[i], answers[i], ps[i]);
      OnceSame(sp.states[sp.hi].world.plans, p, ps[i]);
    }
  }

  lemma SpanOrder(sp: Span, req: QueryRequest, h: uint64, ps: seq<Plan>, result: seq<Event>)
    requires multiset(result) == QueryTheorems.Total(p => AtMost(sp, req, h, p), ps) && Sorted(result)
    ensures QueryTheorems.InOrder(result, h)
  {
    hide Concerns, Sometime;
    forall e | e in result ensures e.keyHash == h {
      assert e in multiset(result);
      TotalMembers(p => AtMost(sp, req, h, p), ps, e);
      var p :| p in ps && e in AtMost(sp, req, h, p);
      MatchingFacts(p.rows, h, req.from, req.to);
      assert e in Matching(p.rows, h, req.from, req.to);
    }
    SortedByTime(result, h);
  }

  /** If no block concerned gains or loses metadata or bloom file during the query, the answer is exact. */
  lemma QuietSpanExact(sp: Span, scans: seq<nat>, req: QueryRequest, h: uint64, looks: seq<Look>, kept: seq<Look>,
                       opens: seq<nat>, answers: seq<Result<seq<Event>>>, result: seq<Event>)
    requires Good(sp) && SpanDone(sp, scans, req, h, looks, kept, opens, answers, result)
    requires forall p :: p in sp.states[sp.hi].world.plans && Concerns(req, p) && Sometime(sp, p) ==> Throughout(sp, p)
    ensures multiset(result) == QueryTheorems.Total(p => AtMost(sp, req, h, p), sp.states[sp.hi].world.plans)
  {
    hide Facts, SpanDone, Concerns, Sometime, Throughout, Matching, QueryTheorems.Total, QueryTheorems.InOrder, Assumed;
    var plans := sp.states[sp.hi].world.plans;
    SpanBounds(sp, scans, req, h, looks, kept, opens, answers, result);
    TotalBelow(p => AtMost(sp, req, h, p), p => AtLeast(sp, req, h, p), plans);
  }

  // ----- the code, with the store changing under it -----

  ghost predicate AllValid(sp: Span) {
    sp.lo <= sp.hi < |sp.states| && forall i: nat :: sp.In(i) ==> sp.states[i].world.d.Valid()
  }

  /** Time passes between two reads. */
  method Later(sp: Span, i: nat) returns (j: nat)
    requires sp.In(i)
    ensures sp.In(j) && i <= j
  {
    j :| i <= j <= sp.hi;
  }

  /** The blocks listed for the event types below n, each under its type. */
  ghost predicate PairsBelow(sp: Span, scans: seq<nat>, req: QueryRequest, h: uint64, pairs: seq<(byte, BlockID)>,
                             n: nat)
    requires n <= |scans|
  {
    && (forall x: (byte, BlockID) :: x in pairs <==> x.0 < n && ListedIn(sp, scans[x.0], req, h, x.0, x.1))
    && (forall i, j :: 0 <= i < j < |pairs| ==> pairs[i] != pairs[j])
  }

  lemma PairsStep(sp: Span, scans: seq<nat>, req: QueryRequest, h: uint64, pairs: seq<(byte, BlockID)>, et: byte,
                  at: nat, ids: seq<BlockID>)
    requires |scans| == et && PairsBelow(sp, scans, req, h, pairs, et)
    requires Ascending(ids) && forall id :: id in ids <==> ListedIn(sp, at, req, h, et, id)
    ensures PairsBelow(sp, scans + [at], req, h, pairs + Tagged(et, ids), et + 1)
  {
    hide ListedIn, Less;
    AscendingNoRepeats(ids);
    var more := Tagged(et, ids);
    forall x: (byte, BlockID) ensures x in more <==> x.0 == et && x.1 in ids {
      if x.0 == et && x.1 in ids { var i :| 0 <= i < |ids| && ids[i] == x.1; assert more[i] == x; }
    }
    forall i, j | 0 <= i < |pairs| && 0 <= j < |more|
      ensures pairs[i] != more[j]
    {
      assert pairs[i] in pairs && more[j] in more;
    }
    forall x: (byte, BlockID)
      ensures x in pairs + more <==> x.0 < et + 1 && ListedIn(sp, (scans + [at])[x.0], req, h, x.0, x.1)
    {
      if x.0 < et { assert (scans + [at])[x.0] == scans[x.0]; }
    }
  }

  function Tagged(et: byte, ids: seq<BlockID>): (r: seq<(byte, BlockID)>)
    ensures |r| == |ids| && forall i :: 0 <= i < |r| ==> r[i] == (et, ids[i])
  {
    seq(|ids|, i requires 0 <= i < |ids| => (et, ids[i]))
  }

  /** The index scans, of the asked event type or of all 256, each in its own state. */
  method ListOver(disk: Disk, sp: Span, req: QueryRequest, h: uint64)
    returns (r: Result<seq<(byte, BlockID)>>, ghost scans: seq<nat>, pos: nat)
    requires AllValid(sp) && disk.Valid()
    modifies disk
    ensures disk.Valid() && disk.faults == old(disk.faults) + Fault(r.Ok?)
    ensures sp.In(pos)
    ensures r.Ok? ==>
      && |scans| == 256 && (forall e :: 0 <= e < 256 ==> sp.In(scans[e]) && scans[e] <= pos)
      && PairsBelow(sp, scans, req, h, r.value, 256)
  {
    hide Overlaps, Less, IdxKey;
    pos := sp.lo;
    scans := [];
    var pairs: seq<(byte, BlockID)> := [];
    for et := 0 to 256
      invariant sp.In(pos) && |scans| == et && (forall e :: 0 <= e < et ==> sp.In(scans[e]) && scans[e] <= pos)
      invariant PairsBelow(sp, scans, req, h, pairs, et) && disk.Valid() && disk.faults == old(disk.faults)
    {
      pos := Later(sp, pos);
      var ids: seq<BlockID> := [];
      if Wanted(req.eventType, et) {
        disk.Become(sp.states[pos].world.d);
        var found := Query.Lookup(disk, et, h, req.from, req.to);
        if found.Err? { return Err(found.reason), scans, pos; }
        ids := found.value;
      }
      PairsStep(sp, scans, req, h, pairs, et, pos, ids);
      pairs, scans := pairs + Tagged(et, ids), scans + [pos];
    }
    r := Ok(pairs);
  }

  /** The looks at the first n listed blocks. */
  ghost predicate LooksFor(sp: Span, start: nat, pairs: seq<(byte, BlockID)>, looks: seq<Look>, n: nat) {
    && |looks| == n <= |pairs|
    && forall i :: 0 <= i < n ==>
          looks[i].et == pairs[i].0 && looks[i].id == pairs[i].1 && InTime(sp, start, looks[i])
  }

  lemma LookedFrom(sp: Span, scans: seq<nat>, start: nat, req: QueryRequest, h: uint64, pairs: seq<(byte, BlockID)>,
                   looks: seq<Look>)
    requires forall e :: 0 <= e < |scans| ==> scans[e] <= start
    requires |scans| == 256 && PairsBelow(sp, scans, req, h, pairs, 256) && LooksFor(sp, start, pairs, looks, |pairs|)
    ensures Looked(sp, scans, req, h, looks)
  {
    hide ListedIn;
    LooksListed(sp, scans, start, req, h, pairs, looks);
    forall et: byte, id | ListedAt(sp, scans, req, h, et, id) ensures HasLook(looks, et, id) {
      assert (et, id) in pairs;
      var i :| 0 <= i < |pairs| && pairs[i] == (et, id);
      assert looks[i] in looks;
    }
    forall i, j | 0 <= i < j < |looks|
      ensures looks[i].et != looks[j].et || looks[i].id != looks[j].id
    {
      assert pairs[i] != pairs[j];
    }
  }

  /** Also when the loop stopped early, it looked at listed blocks only. */
  lemma LooksListed(sp: Span, scans: seq<nat>, start: nat, req: QueryRequest, h: uint64, pairs: seq<(byte, BlockID)>,
                    looks: seq<Look>)
    requires forall e :: 0 <= e < |scans| ==> scans[e] <= start
    requires |scans| == 256 && PairsBelow(sp, scans, req, h, pairs, 256) && LooksFor(sp, start, pairs, looks, |looks|)
    ensures forall l :: l in looks ==> InTime(sp, scans[l.et], l) && ListedAt(sp, scans, req, h, l.et, l.id)
  {
    hide ListedIn;
    forall l | l in looks ensures InTime(sp, scans[l.et], l) && ListedAt(sp, scans, req, h, l.et, l.id) {
      var i :| 0 <= i < |looks| && looks[i] == l;
      assert pairs[i] in pairs;
    }
  }

  lemma KeptStep(sp: Span, h: uint64, looks: seq<Look>, kept: seq<Look>, l: Look)
    requires KeptAre(sp, h, looks, kept) && DistinctLooks(looks + [l])
    ensures KeptAre(sp, h, looks + [l], if Kept(sp, h, l) then kept + [l] else kept)
  {
    hide Kept;
    var all := looks + [l];
    forall i | 0 <= i < |kept| ensures kept[i].et != l.et || kept[i].id != l.id {
      assert kept[i] in kept && kept[i] in looks;
      var j :| 0 <= j < |looks| && looks[j] == kept[i];
      assert all[j] == looks[j] && all[|looks|] == l;
    }
  }

  /** The filter loop: a bloom test, then a metadata read, each in its own state. */
  method FilterOver(disk: Disk, sp: Span, pairs: seq<(byte, BlockID)>, h: uint64, start: nat)
    returns (r: Result<seq<Look>>, ghost looks: seq<Look>, pos: nat)
    requires AllValid(sp) && sp.In(start) && forall i, j :: 0 <= i < j < |pairs| ==> pairs[i] != pairs[j]
    requires disk.Valid()
    modifies disk
    ensures sp.In(pos) && disk.Valid() && old(disk.faults) <= disk.faults && LooksFor(sp, start, pairs, looks, |looks|)
    ensures r.Ok? ==> |looks| == |pairs| && KeptAre(sp, h, looks, r.value) && disk.faults == old(disk.faults)
    ensures r.Ok? ==> forall l :: l in looks ==> !Stuck(sp, h, l)
    ensures r.Err? ==> disk.faults > old(disk.faults) || exists l :: l in looks && Stuck(sp, h, l)
  {
    hide ReadableMeta, Answer, GetBlockMeta, Kept, DistinctLooks, Stuck, KeptAre, BadMeta, Cached;
    assert KeptAre(sp, h, [], []) by { NothingKept(sp, h); }
    pos := start;
    looks := [];
    var kept: seq<Look> := [];
    for i := 0 to |pairs|
      invariant sp.In(pos) && start <= pos && LooksFor(sp, start, pairs, looks, i) && KeptAre(sp, h, looks, kept)
      invariant disk.Valid() && disk.faults == old(disk.faults) && forall l :: l in looks ==> !Stuck(sp, h, l)
    {
      var (et, id) := pairs[i];
      pos := Later(sp, pos);
      var tested := pos;
      var present := sp.TestAt(tested, id, h);
      if !Cached(sp.states[tested].order, id) {
        var readable := disk.Attempt();
        if !readable { return Err("bloom test"), looks, pos; }
      }
      pos := Later(sp, pos);
      var l := Look(et, id, tested, pos);
      assert DistinctLooks(looks + [l]) by { NewLook(sp, start, pairs, looks, l, i); }
      KeptStep(sp, h, looks, kept, l);
      LookCase(sp, h, l);
      looks := looks + [l];
      assert l in looks;
      if present.None? { return Err("bloom test"), looks, pos; }
      if !present.value { continue; }
      MetaCase(sp.StoreAt(pos), sp.env.tiers, id);
      disk.Become(sp.states[pos].world.d);
      var bmeta, _ := ReadBlockMeta(disk, id);
      if bmeta.None? { continue; }
      if bmeta.value.Err? { return Err(bmeta.value.reason), looks, pos; }
      if bmeta.value.value.tier !in sp.env.tiers { continue; }
      kept := kept + [l];
    }
    r := Ok(kept);
  }

  lemma LookCase(sp: Span, h: uint64, l: Look)
    ensures Kept(sp, h, l) <==>
      sp.TestAt(l.tested, l.id, h) == Some(true) && ReadableMeta(sp.StoreAt(l.fetched), sp.env.tiers, l.id)
    ensures var bm := GetBlockMeta(sp.StoreAt(l.fetched), l.id);
      Stuck(sp, h, l) <==>
        (sp.TestAt(l.tested, l.id, h).None? || (sp.TestAt(l.tested, l.id, h).value && bm.Some? && bm.value.Err?))
  {}

  lemma NothingKept(sp: Span, h: uint64)
    ensures KeptAre(sp, h, [], [])
  {}

  lemma NewLook(sp: Span, start: nat, pairs: seq<(byte, BlockID)>, looks: seq<Look>, l: Look, i: nat)
    requires LooksFor(sp, start, pairs, looks, i) && i < |pairs| && pairs[i] == (l.et, l.id)
    requires forall a, b :: 0 <= a < b < |pairs| ==> pairs[a] != pairs[b]
    ensures DistinctLooks(looks + [l])
  {
    forall a, b | 0 <= a < b < i + 1
      ensures (looks + [l])[a].et != (looks + [l])[b].et || (looks + [l])[a].id != (looks + [l])[b].id
    {
      assert pairs[a] != pairs[b];
    }
  }

  method LaterEach(sp: Span, start: nat, n: nat) returns (at: seq<nat>)
    requires sp.In(start)
    ensures |at| == n && forall j :: 0 <= j < n ==> sp.In(at[j])
  {
    at := [];
    for i := 0 to n
      invariant |at| == i && forall j :: 0 <= j < i ==> sp.In(at[j])
    {
      var k := Later(sp, start);
      at := at + [k];
    }
  }

  /** The parallel reads, each in some state after the filter. */
  method ReadOver(disk: Disk, sp: Span, req: QueryRequest, h: uint64, kept: seq<Look>, maxParallel: int, start: nat)
    returns (answers: seq<Result<seq<Event>>>, ghost opens: seq<nat>)
    requires sp.In(start) && kept != [] && disk.Valid()
    modifies disk`faults
    ensures disk.Valid() && old(disk.faults) <= disk.faults && |opens| == |answers| == |kept|
    ensures disk.faults == old(disk.faults) ==> ReadsAre(sp, req, h, kept, opens, answers)
    ensures disk.faults > old(disk.faults) ==> !AllOk(answers)
  {
    hide ReadAt, Span.In;
    var at := LaterEach(sp, start, |kept|);
    opens := at;
    var maxP := if maxParallel <= 0 then 1 else maxParallel;
    if |kept| < maxP { maxP := |kept|; }
    var failing := FailingReads(disk, |kept|);
    var read := (i: nat) => if i < |kept| && i < |at| && i !in failing then ReadAt(sp, req, h, kept[i], at[i])
        else Err("i/o");
    answers := ParallelReads.RunSchedule(|kept|, maxP, read);
    if failing == {} {
      forall i | 0 <= i < |kept|
        ensures answers[i] == ReadAt(sp, req, h, kept[i], at[i])
      {
        assert answers[i] == read(i);
      }
    } else {
      ghost var i :| i in failing;
      assert answers[i] == read(i);
    }
  }

  /**
   * Engine.Query over a changing store, which the disk shows state by state: a success is what SpanDone describes,
   * and so within SpanBounds; a failure has a cause.
   */
  method Serve(disk: Disk, sp: Span, hash: Bytes -> uint64, maxParallel: int, req: QueryRequest)
    returns (r: Result<seq<Event>>, ghost scans: seq<nat>, ghost looks: seq<Look>, ghost kept: seq<Look>,
             ghost opens: seq<nat>,
             ghost answers: seq<Result<seq<Event>>>)
    requires AllValid(sp) && disk.Valid()
    modifies disk
    ensures disk.Valid() && old(disk.faults) <= disk.faults
    ensures req.partitionKey == [] || req.from >= req.to ==> r.Err?
    ensures r.Ok? ==> SpanDone(sp, scans, req, hash(req.partitionKey), looks, kept, opens, answers, r.value)
    ensures r.Ok? ==>
      disk.faults == old(disk.faults) && forall l :: l in looks ==> !Stuck(sp, hash(req.partitionKey), l)
    ensures r.Err? ==>
      || req.partitionKey == [] || req.from >= req.to || disk.faults > old(disk.faults)
      || SpanStuck(sp, scans, req, hash(req.partitionKey), looks, kept, opens, answers)
  {
    hide Looked, KeptAre, ReadsAre, Sorted, SumRows, EachSorted, PairsBelow, LooksFor, Stuck, ListedAt;
    scans, looks, kept, opens, answers := [], [], [], [], [];
    if |req.partitionKey| == 0 { return Err("PartitionKey must not be empty"), scans, looks, kept, opens, answers; }
    if !(req.from < req.to) { return Err("From must be before To"), scans, looks, kept, opens, answers; }
    var h := hash(req.partitionKey);
    var listed, pos;
    listed, scans, pos := ListOver(disk, sp, req, h);
    if listed.Err? { return Err(listed.reason), scans, looks, kept, opens, answers; }
    PairsDistinct(sp, scans, req, h, listed.value);
    ghost var start := pos;
    var filtered;
    filtered, looks, pos := FilterOver(disk, sp, listed.value, h, pos);
    LooksListed(sp, scans, start, req, h, listed.value, looks);
    if filtered.Err? { return Err(filtered.reason), scans, looks, kept, opens, answers; }
    LookedFrom(sp, scans, start, req, h, listed.value, looks);
    kept := filtered.value;
    if |filtered.value| == 0 {
      NothingRead(sp, req, h);
      return Ok([]), scans, looks, kept, opens, answers;
    }
    var results;
    results, opens := ReadOver(disk, sp, req, h, filtered.value, maxParallel, pos);
    answers := results;
    var slices := NonEmpty(results);
    if slices.Err? { return Err(slices.reason), scans, looks, kept, opens, answers; }
    var merged, _ := MergeEvents(slices.value);
    r := Ok(merged);
  }

  lemma PairsDistinct(sp: Span, scans: seq<nat>, req: QueryRequest, h: uint64, pairs: seq<(byte, BlockID)>)
    requires |scans| == 256 && PairsBelow(sp, scans, req, h, pairs, 256)
    ensures forall i, j :: 0 <= i < j < |pairs| ==> pairs[i] != pairs[j]
  {}

  lemma NothingRead(sp: Span, req: QueryRequest, h: uint64)
    ensures ReadsAre(sp, req, h, [], [], []) && SumRows([]) == multiset{} && Sorted([])
  {}
}
