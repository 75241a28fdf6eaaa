/** The read path refines filtering the rows of the live blocks. */
module QueryTheorems {
  import opened Bytes
  import opened Results
  import opened Keys
  import opened Storage
  import opened Meta
  import opened BlockIds
  import opened Format
  import opened BlockFile
  import opened RowOrder
  import opened BloomCaches
  import opened Sealer
  import L = Lifecycle
  import opened LifecycleInv
  import LT = LifecycleTheorems
  import opened Query
  import CR = CacheRuns

  // ----- the specification: a plain filter over what was sealed -----

  /** What a sealed block owes a query: its matching rows, if it still has metadata and a wanted event type. */
  ghost function Owed(m: Store, req: QueryRequest, h: uint64, p: Plan): multiset<Event> {
    if BlockKey(p.Id()) in m && Wanted(req.eventType, p.req.eventType)
        then multiset(Matching(p.rows, h, req.from, req.to)) else multiset{}
  }

  ghost function InRange(m: Store, req: QueryRequest, h: uint64, p: Plan): multiset<Event> {
    if Overlaps(p.Id(), req.from, req.to) then Owed(m, req, h, p) else multiset{}
  }

  ghost function OutOfRange(m: Store, req: QueryRequest, h: uint64, p: Plan): multiset<Event> {
    if Overlaps(p.Id(), req.from, req.to) then multiset{} else Owed(m, req, h, p)
  }

  ghost function Total(f: Plan -> multiset<Event>, ps: seq<Plan>): multiset<Event> {
    if ps == [] then multiset{} else Total(f, ps[..|ps| - 1]) + f(ps[|ps| - 1])
  }

  /** The rows of all live blocks that match, with their multiplicities. */
  ghost function Expected(plans: seq<Plan>, m: Store, req: QueryRequest, h: uint64): multiset<Event> {
    Total(p => Owed(m, req, h, p), plans)
  }

  /** The same, of the blocks whose hour meets the range only. */
  ghost function ExpectedInRange(plans: seq<Plan>, m: Store, req: QueryRequest, h: uint64): multiset<Event> {
    Total(p => InRange(m, req, h, p), plans)
  }

  // ----- sums over plans -----

  predicate NoDuplicates(ps: seq<Plan>) {
    forall i, j :: 0 <= i < j < |ps| ==> ps[i] != ps[j]
  }

  lemma {:induction false} TotalRemove(f: Plan -> multiset<Event>, ps: seq<Plan>, k: nat)
    requires k < |ps|
    ensures Total(f, ps) == Total(f, ps[..k] + ps[k + 1..]) + f(ps[k])
  {
    var n := |ps| - 1;
    var cut := ps[..k] + ps[k + 1..];
    if k == n {
      assert cut == ps[..n];
    } else {
      TotalRemove(f, ps[..n], k);
      assert cut[..|cut| - 1] == ps[..n][..k] + ps[..n][k + 1..];
    }
  }

  lemma {:induction false} TotalEmpty(f: Plan -> multiset<Event>, ps: seq<Plan>)
    requires forall p :: p in ps ==> f(p) == multiset{}
    ensures Total(f, ps) == multiset{}
  {
    if ps != [] { TotalEmpty(f, ps[..|ps| - 1]); }
  }

  lemma WithoutOne(b: seq<Plan>, k: nat)
    requires k < |b| && NoDuplicates(b)
    ensures var b' := b[..k] + b[k + 1..]; NoDuplicates(b') && forall x :: x in b' <==> x in b && x != b[k]
  {
    var b' := b[..k] + b[k + 1..];
    assert b == b[..k] + [b[k]] + b[k + 1..];
    forall i | 0 <= i < |b'| ensures b'[i] != b[k] { assert b'[i] == if i < k then b[i] else b[i + 1]; }
  }

  /** Two lists without duplicates, one inside the other, have totals that differ by what is only in the larger. */
  lemma {:induction false} TotalInside(f: Plan -> multiset<Event>, a: seq<Plan>, b: seq<Plan>)
    requires NoDuplicates(a) && NoDuplicates(b) && forall x :: x in a ==> x in b
    ensures Total(f, a) <= Total(f, b)
    ensures (forall x :: x in b && x !in a ==> f(x) == multiset{}) ==> Total(f, a) == Total(f, b)
  {
    if a == [] {
      if forall x :: x in b && x !in a ==> f(x) == multiset{} { TotalEmpty(f, b); }
    } else {
      var n := |a| - 1;
      var x := a[n];
      assert x in a;
      var k :| 0 <= k < |b| && b[k] == x;
      var b' := b[..k] + b[k + 1..];
      WithoutOne(b, k);
      WithoutOne(a, n);
      assert a[..n] + a[n + 1..] == a[..n];
      TotalInside(f, a[..n], b');
      TotalRemove(f, b, k);
    }
  }

  lemma {:induction false} TotalSplit(f: Plan -> multiset<Event>, g: Plan -> multiset<Event>,
                                      k: Plan -> multiset<Event>, ps: seq<Plan>)
    requires forall p :: f(p) == g(p) + k(p)
    ensures Total(f, ps) == Total(g, ps) + Total(k, ps)
  {
    if ps != [] { TotalSplit(f, g, k, ps[..|ps| - 1]); }
  }

  lemma {:induction false} TotalNone(f: Plan -> multiset<Event>, ps: seq<Plan>)
    ensures Total(f, ps) == multiset{} <==> forall p :: p in ps ==> f(p) == multiset{}
  {
    if ps != [] {
      var n := |ps| - 1;
      TotalNone(f, ps[..n]);
      assert ps == ps[..n] + [ps[n]];
      assert |Total(f, ps)| == |Total(f, ps[..n])| + |f(ps[n])|;
    }
  }

  // ----- matching -----

  /** The rows of the key with from <= timestamp < to. */
  lemma {:induction false} MatchingFacts(rows: seq<Event>, h: uint64, from: int64, to: int64)
    ensures forall e :: e in Matching(rows, h, from, to) <==> e in rows && e.keyHash == h && from <= e.timestamp < to
    ensures Sorted(rows) ==> Sorted(Matching(rows, h, from, to))
  {
    if rows != [] {
      var n := |rows| - 1;
      MatchingFacts(rows[..n], h, from, to);
      assert rows == rows[..n] + [rows[n]];
      if Sorted(rows) {
        var rest := Matching(rows[..n], h, from, to);
        forall i | 0 <= i < |rest| ensures RowLeq(rest[i], rows[n]) {
          assert rest[i] in rest;
          var j :| 0 <= j < n && rows[j] == rest[i];
        }
      }
    }
  }

  /** Each as often as it is there. */
  lemma {:induction false} MatchingCount(rows: seq<Event>, h: uint64, from: int64, to: int64, e: Event)
    requires e.keyHash == h && from <= e.timestamp < to
    ensures multiset(Matching(rows, h, from, to))[e] == multiset(rows)[e]
  {
    if rows != [] {
      var n := |rows| - 1;
      MatchingCount(rows[..n], h, from, to, e);
      assert rows == rows[..n] + [rows[n]];
    }
  }

  /** The range meets the block's hour exactly if it holds an instant of that hour. */
  lemma OverlapsMeans(shard: ShardID, t: int64, from: int64, to: int64)
    requires from < to
    ensures Overlaps(BlockIDForShard(shard, t), from, to) <==>
      exists x: int :: from <= x < to && HourOf(x) == HourOf(t)
  {
    hide BlockIDForShard, ParseBlockHour;
    ParseBuiltID(shard, t);
    var start := HourOf(t) * NANOS_PER_HOUR;
    if Overlaps(BlockIDForShard(shard, t), from, to) {
      var x := if from > start then from else start;
      assert from <= x < to && HourOf(x) == HourOf(t);
    }
  }

  // ----- what the invariants say about the blocks a query reads -----

  /** Every block was sealed once, fits its file, and the libraries keep their laws. */
  ghost predicate Assumed(env: L.Env, plans: seq<Plan>) {
    && env.codec.Inverts() && env.lib.Sound() && TIER_HOT in env.tiers
    && (forall p :: p in plans ==> Once(plans, p) && L.WellPlanned(env, p) && Fits(env.codec, p.rows))
  }

  lemma AssumedDistinct(env: L.Env, plans: seq<Plan>)
    requires Assumed(env, plans)
    ensures NoDuplicates(plans)
  {
    forall i, j | 0 <= i < j < |plans|
      ensures plans[i] != plans[j]
    {
      assert plans[i] in plans && Once(plans, plans[i]);
    }
  }

  /** A block is indexed under its own shard's event type only. */
  lemma IndexedUnderOneType(env: L.Env, plans: seq<Plan>, m: Store, h: uint64)
    requires FromPlans(plans, m) && forall p :: p in plans ==> L.WellPlanned(env, p)
    ensures OneType(m, h)
  {
    forall e: byte, e': byte, id | IdxKey(e, h, id) in m && IdxKey(e', h, id) in m ensures e == e' {
      assert PlannedIdx(plans, id, e) && PlannedIdx(plans, id, e');
      var p :| p in plans && p.Id() == id && p.req.eventType == e;
      var q :| q in plans && q.Id() == id && q.req.eventType == e';
      BlockIdentity(p.req.shard, p.req.openedAt, q.req.shard, q.req.openedAt);
    }
  }

  /** The file of a plan reads back as the plan's matching rows. */
  lemma PlanReads(env: L.Env, p: Plan, h: uint64, from: int64, to: int64)
    requires L.WellPlanned(env, p) && env.codec.Inverts() && Fits(env.codec, p.rows)
    ensures ReadRows(env.codec, p.file, h, from, to) == Ok(Matching(p.rows, h, from, to))
  {
    hide ReadRows, Matching, Fits, Codec.Inverts, FileBytes, Body, Distinct;
    BlockFileRoundTrip(env.codec, HeaderFor(p.req, |p.rows|), p.rows, h, from, to);
  }

  lemma MetaOf(env: L.Env, plans: seq<Plan>, m: Store, p: Plan)
    requires FromPlans(plans, m) && Once(plans, p) && L.WellPlanned(env, p) && BlockKey(p.Id()) in m
    requires TIER_HOT in env.tiers
    ensures ReadableMeta(m, env.tiers, p.Id()) && TaskFor(m, env.tiers, p.Id()) == Task(p.Id(), TIER_HOT)
  {
    hide EncodeBlockMeta, DecodeBlockMeta, BlockKey, Once, Plan.Id, FileBytes, Body, Distinct;
    assert PlannedMeta(plans, p.Id(), m[BlockKey(p.Id())]);
    var q :| q in plans && q.Id() == p.Id() && m[BlockKey(p.Id())] == EncodeBlockMeta(q.meta);
    OnceSame(plans, p, q);
    BlockMetaRoundTrip(p.meta, [], []);
    assert EncodeBlockMeta(p.meta) + [] == EncodeBlockMeta(p.meta);
  }

  /** The plan behind a block the query lists. */
  lemma PlanBehind(env: L.Env, plans: seq<Plan>, m: Store, req: QueryRequest, h: uint64, id: BlockID) returns (p: Plan)
    requires FromPlans(plans, m) && Listed(m, req, h, id)
    ensures p in plans && p.Id() == id && Wanted(req.eventType, p.req.eventType) && Overlaps(id, req.from, req.to)
  {
    hide IdxKey, Overlaps, Plan.Id;
    var e: byte :| Wanted(req.eventType, e) && IdxKey(e, h, id) in m;
    assert PlannedIdx(plans, id, e);
    p :| p in plans && p.Id() == id && p.req.eventType == e;
  }

  /** The answer to a task is the matching rows of this plan, which are in range. */
  ghost predicate ReadsAs(plans: seq<Plan>, m: Store, req: QueryRequest, h: uint64, t: Task, a: Result<seq<Event>>,
                          p: Plan) {
    && p in plans && p.Id() == t.id
    && a == Ok(Matching(p.rows, h, req.from, req.to)) && Sorted(Matching(p.rows, h, req.from, req.to))
    && InRange(m, req, h, p) == multiset(Matching(p.rows, h, req.from, req.to))
  }

  ghost predicate HasPlan(plans: seq<Plan>, m: Store, req: QueryRequest, h: uint64, t: Task, a: Result<seq<Event>>) {
    exists p :: ReadsAs(plans, m, req, h, t, a, p)
  }

  /** A task whose read succeeded returned the matching rows of its block's plan. */
  lemma TaskReads(env: L.Env, plans: seq<Plan>, now: nat, m: Store, files: Files, req: QueryRequest, h: uint64,
                  ids: seq<BlockID>, tasks: seq<Task>, i: nat)
    requires VersionInv(env, plans, now, files, m) && Assumed(env, plans)
    requires forall id :: id in ids <==> Listed(m, req, h, id)
    requires Filtered(m, files, env.tiers, env.lib, TIER_HOT, h, ids, tasks)
    requires i < |tasks| && ReadTask(env.codec, files, tasks[i], h, req.from, req.to).Ok?
    ensures HasPlan(plans, m, req, h, tasks[i], ReadTask(env.codec, files, tasks[i], h, req.from, req.to))
  {
    hide Paired, Whole, Backed, BlockKey, Plan.Id, Once, L.WellPlanned, Fits, Codec.Inverts, BloomLib.Sound, ReadRows,
         Matching, Overlaps, Listed, NoRepeats, L.ExpOf, Sorted;
    assert tasks[i] in tasks && tasks[i].id in ids;
    var p := PlanBehind(env, plans, m, req, h, tasks[i].id);
    ReadableHasKey(m, env.tiers, p.Id());
    MetaOf(env, plans, m, p);
    assert Contents(env, now, files, p);
    PlanReads(env, p, h, req.from, req.to);
    PlanSorted(env, p);
    MatchingFacts(p.rows, h, req.from, req.to);
    assert ReadsAs(plans, m, req, h, tasks[i], ReadTask(env.codec, files, tasks[i], h, req.from, req.to), p);
  }

  lemma PlanSorted(env: L.Env, p: Plan)
    requires L.WellPlanned(env, p)
    ensures Sorted(p.rows)
  {}

  lemma ReadableHasKey(m: Store, tiers: set<Tier>, id: BlockID)
    requires ReadableMeta(m, tiers, id)
    ensures BlockKey(id) in m
  {}

  /** The plans of all tasks, in task order. */
  lemma {:induction false} TaskPlans(plans: seq<Plan>, m: Store, req: QueryRequest, h: uint64, tasks: seq<Task>,
                                     answers: seq<Result<seq<Event>>>, n: nat)
      returns (ps: seq<Plan>)
    requires n <= |tasks| == |answers|
    requires forall i :: 0 <= i < |tasks| ==> HasPlan(plans, m, req, h, tasks[i], answers[i])
    ensures |ps| == n
    ensures forall i :: 0 <= i < n ==> ReadsAs(plans, m, req, h, tasks[i], answers[i], ps[i])
    ensures SumRows(answers[..n]) == Total(p => InRange(m, req, h, p), ps)
  {
    hide Plan.Id, Matching, Sorted, InRange, SumRows, Total;
    if n == 0 {
      ps := [];
      NoAnswers(answers, x => InRange(m, req, h, x));
    } else {
      ps := TaskPlans(plans, m, req, h, tasks, answers, n - 1);
      assert HasPlan(plans, m, req, h, tasks[n - 1], answers[n - 1]);
      var p :| ReadsAs(plans, m, req, h, tasks[n - 1], answers[n - 1], p);
      TotalAppend(x => InRange(m, req, h, x), ps, p);
      SumNext(answers, n - 1);
      ps := ps + [p];
    }
  }

  lemma NoAnswers(answers: seq<Result<seq<Event>>>, f: Plan -> multiset<Event>)
    ensures SumRows(answers[..0]) == Total(f, [])
  {}

  lemma TotalAppend(f: Plan -> multiset<Event>, ps: seq<Plan>, p: Plan)
    ensures Total(f, ps + [p]) == Total(f, ps) + f(p)
  {
    assert (ps + [p])[..|ps|] == ps;
  }

  ghost predicate BloomsPresent(plans: seq<Plan>, m: Store, files: Files) {
    forall p :: p in plans && BlockKey(p.Id()) in m ==> BloomPath(TIER_HOT, p.Id()) in files
  }

  /** A block that owes rows is among the tasks when its bloom file is there. */
  lemma OwingBlockIsTask(env: L.Env, plans: seq<Plan>, now: nat, m: Store, files: Files, req: QueryRequest, h: uint64,
                         ids: seq<BlockID>, tasks: seq<Task>, p: Plan)
    requires VersionInv(env, plans, now, files, m) && Assumed(env, plans) && BloomsPresent(plans, m, files)
    requires forall id :: id in ids <==> Listed(m, req, h, id)
    requires Filtered(m, files, env.tiers, env.lib, TIER_HOT, h, ids, tasks)
    requires p in plans && InRange(m, req, h, p) != multiset{}
    ensures Task(p.Id(), TIER_HOT) in tasks
  {
    hide Paired, Backed, BlockKey, Plan.Id, Once, Fits, Codec.Inverts, BloomLib.Sound, Overlaps, NoRepeats, FileBytes,
         Body, IdxKey, L.ExpOf, ReadableMeta;
    MatchingFacts(p.rows, h, req.from, req.to);
    var rows := Matching(p.rows, h, req.from, req.to);
    assert rows[0] in rows;
    var e := rows[0];
    HashOf(p.rows, e);
    assert h in p.hashes;
    assert HasKeys(m, p, p.hashes);
    assert IdxKey(p.req.eventType, h, p.Id()) in m;
    assert Listed(m, req, h, p.Id());
    MetaOf(env, plans, m, p);
    BloomOf(env, plans, now, m, files, p, h);
  }

  lemma HashOf(rows: seq<Event>, e: Event)
    requires e in rows
    ensures e.keyHash in KeyHashes(rows)
  {
    var i :| 0 <= i < |rows| && rows[i] == e;
    assert KeyHashes(rows)[i] == e.keyHash;
  }

  lemma BloomOf(env: L.Env, plans: seq<Plan>, now: nat, m: Store, files: Files, p: Plan, h: uint64)
    requires Faithful(env, plans, now, files, m) && Once(plans, p) && L.WellPlanned(env, p) && env.lib.Sound()
    requires BlockKey(p.Id()) in m && BloomPath(TIER_HOT, p.Id()) in files && h in KeyHashes(p.rows)
    ensures BloomPasses(env.lib, files, TIER_HOT, p.Id(), h)
  {
    hide Once, BlockKey, Plan.Id, FileBytes, Body, L.ExpOf;
    assert Contents(env, now, files, p);
    var forBloom :| Distinct(forBloom, p.rows) && p == MakePlan(env.codec, env.lib, p.req, p.rows, forBloom, p.hashes);
    assert h in forBloom;
  }

  // ----- the refinement -----

  /** Rows of one key in row order are in timestamp order. */
  lemma SortedByTime(result: seq<Event>, h: uint64)
    requires Sorted(result) && forall e :: e in result ==> e.keyHash == h
    ensures forall i, j :: 0 <= i < j < |result| ==> result[i].timestamp <= result[j].timestamp
  {
    forall i, j | 0 <= i < j < |result|
      ensures result[i].timestamp <= result[j].timestamp
    {
      assert result[i] in result && result[j] in result;
    }
  }

  lemma {:induction false} TotalMembers(f: Plan -> multiset<Event>, ps: seq<Plan>, e: Event)
    requires e in Total(f, ps)
    ensures exists p :: p in ps && e in f(p)
  {
    var n := |ps| - 1;
    if e in f(ps[n]) { assert ps[n] in ps; } else {
      TotalMembers(f, ps[..n], e);
      var p :| p in ps[..n] && e in f(p);
      assert p in ps;
    }
  }

  ghost predicate InOrder(result: seq<Event>, h: uint64) {
    && (forall e :: e in result ==> e.keyHash == h)
    && (forall i, j :: 0 <= i < j < |result| ==> result[i].timestamp <= result[j].timestamp)
  }

  lemma ResultIsTaskTotal(env: L.Env, plans: seq<Plan>, now: nat, m: Store, files: Files, req: QueryRequest, h: uint64,
                          ids: seq<BlockID>, tasks: seq<Task>, result: seq<Event>) returns (ps: seq<Plan>)
    requires VersionInv(env, plans, now, files, m) && Assumed(env, plans)
    requires QueryDone(env.codec, m, files, env.tiers, env.lib, TIER_HOT, req, h, ids, tasks, result)
    ensures multiset(result) == Total(p => InRange(m, req, h, p), ps)
    ensures |ps| == |tasks| && forall i :: 0 <= i < |ps| ==> ps[i] in plans && ps[i].Id() == tasks[i].id
    ensures NoDuplicates(ps) && InOrder(result, h)
  {
    hide VersionInv, Plan.Id, Matching, Listed, ReadTask, InRange, SumRows, Sorted, Assumed, Filtered, OneType, InOrder;
    var answers := Answers(env.codec, files, tasks, h, req.from, req.to);
    forall i | 0 <= i < |tasks| ensures HasPlan(plans, m, req, h, tasks[i], answers[i]) {
      assert answers[i].Ok?;
      TaskReads(env, plans, now, m, files, req, h, ids, tasks, i);
    }
    ps := TaskPlans(plans, m, req, h, tasks, answers, |tasks|);
    assert answers[..|tasks|] == answers;
    forall i | 0 <= i < |answers| && answers[i].Ok?
      ensures Sorted(answers[i].value)
    {
      assert ReadsAs(plans, m, req, h, tasks[i], answers[i], ps[i]);
    }
    forall i | 0 <= i < |ps|
      ensures ps[i] in plans && ps[i].Id() == tasks[i].id
    {
      assert ReadsAs(plans, m, req, h, tasks[i], answers[i], ps[i]);
    }
    TasksDistinct(env, plans, now, m, files, h, ids, tasks);
    PlansDistinct(tasks, ps);
    ResultOrder(m, req, h, ps, result);
  }

  lemma TasksDistinct(env: L.Env, plans: seq<Plan>, now: nat, m: Store, files: Files, h: uint64, ids: seq<BlockID>,
                      tasks: seq<Task>)
    requires VersionInv(env, plans, now, files, m) && Assumed(env, plans)
    requires OneType(m, h) ==> NoRepeats(ids)
    requires Filtered(m, files, env.tiers, env.lib, TIER_HOT, h, ids, tasks)
    ensures NoRepeats(TaskIds(tasks))
  {
    hide Paired, Whole, Backed, Faithful, FromPlans, L.WellPlanned, Once, Fits, ReadableMeta, BloomPasses, TaskFor,
         OneType;
    IndexedUnderOneType(env, plans, m, h);
  }

  /** With all bloom files in place, a plan the query did not read owes it nothing in range. */
  lemma NothingMissed(env: L.Env, plans: seq<Plan>, now: nat, m: Store, files: Files, req: QueryRequest, h: uint64,
                      ids: seq<BlockID>, tasks: seq<Task>, ps: seq<Plan>, p: Plan)
    requires VersionInv(env, plans, now, files, m) && Assumed(env, plans) && BloomsPresent(plans, m, files)
    requires forall id :: id in ids <==> Listed(m, req, h, id)
    requires Filtered(m, files, env.tiers, env.lib, TIER_HOT, h, ids, tasks)
    requires |ps| == |tasks| && forall i :: 0 <= i < |ps| ==> ps[i] in plans && ps[i].Id() == tasks[i].id
    requires p in plans && p !in ps
    ensures InRange(m, req, h, p) == multiset{}
  {
    hide VersionInv, Plan.Id, Listed, InRange, Filtered, BloomsPresent, Once, L.WellPlanned, Fits, Codec.Inverts,
         BloomLib.Sound;
    if InRange(m, req, h, p) != multiset{} {
      OwingBlockIsTask(env, plans, now, m, files, req, h, ids, tasks, p);
      var i :| 0 <= i < |tasks| && tasks[i] == Task(p.Id(), TIER_HOT);
      OnceSame(plans, p, ps[i]);
    }
  }

  lemma PlansDistinct(tasks: seq<Task>, ps: seq<Plan>)
    requires |ps| == |tasks| && NoRepeats(TaskIds(tasks)) && forall i :: 0 <= i < |ps| ==> ps[i].Id() == tasks[i].id
    ensures NoDuplicates(ps)
  {
    hide Plan.Id;
    forall i, j | 0 <= i < j < |ps| ensures ps[i] != ps[j] { assert TaskIds(tasks)[i] != TaskIds(tasks)[j]; }
  }

  lemma ResultOrder(m: Store, req: QueryRequest, h: uint64, ps: seq<Plan>, result: seq<Event>)
    requires multiset(result) == Total(p => InRange(m, req, h, p), ps) && Sorted(result)
    ensures InOrder(result, h)
  {
    forall e | e in result ensures e.keyHash == h {
      assert e in multiset(result);
      TotalMembers(p => InRange(m, req, h, p), ps, e);
      var p :| p in ps && e in InRange(m, req, h, p);
      MatchingFacts(p.rows, h, req.from, req.to);
      assert e in Matching(p.rows, h, req.from, req.to);
    }
    SortedByTime(result, h);
  }

  /**
   * Over any version of the store that the engine can be in: a successful query returns rows of the asked key
   * in timestamp order; none that is not owed by a live block, with no row more often than it was sealed;
   * and, when the live blocks' bloom files are in place, exactly the matching rows of the live blocks of the
   * wanted event types whose hour meets the range.
   */
  lemma QueryOverVersion(env: L.Env, plans: seq<Plan>, now: nat, m: Store, files: Files, req: QueryRequest, h: uint64,
                         ids: seq<BlockID>, tasks: seq<Task>, result: seq<Event>)
    requires VersionInv(env, plans, now, files, m) && Assumed(env, plans)
    requires QueryDone(env.codec, m, files, env.tiers, env.lib, TIER_HOT, req, h, ids, tasks, result)
    ensures InOrder(result, h)
    ensures multiset(result) <= ExpectedInRange(plans, m, req, h) <= Expected(plans, m, req, h)
    ensures BloomsPresent(plans, m, files) ==> multiset(result) == ExpectedInRange(plans, m, req, h)
  {
    hide VersionInv, Plan.Id, Listed, InRange, Filtered, BloomsPresent, Assumed, InOrder, NoDuplicates, SumRows,
         Answers, AllOk, EachSorted, Sorted;
    var f := (p: Plan) => InRange(m, req, h, p);
    var ps := ResultIsTaskTotal(env, plans, now, m, files, req, h, ids, tasks, result);
    AssumedDistinct(env, plans);
    if BloomsPresent(plans, m, files) {
      forall p | p in plans && p !in ps ensures f(p) == multiset{} {
        NothingMissed(env, plans, now, m, files, req, h, ids, tasks, ps, p);
      }
    }
    TotalInside(f, ps, plans);
    ExpectedSplits(plans, m, req, h);
  }

  lemma ExpectedSplits(plans: seq<Plan>, m: Store, req: QueryRequest, h: uint64)
    ensures Expected(plans, m, req, h) ==
        ExpectedInRange(plans, m, req, h) + Total(p => OutOfRange(m, req, h, p), plans)
  {
    hide Owed, Overlaps;
    TotalSplit(p => Owed(m, req, h, p), p => InRange(m, req, h, p), p => OutOfRange(m, req, h, p), plans);
  }

  /** No live wanted block whose hour misses the range holds a matching row. */
  ghost predicate NoStrays(plans: seq<Plan>, m: Store, req: QueryRequest, h: uint64) {
    forall p | p in plans && BlockKey(p.Id()) in m && Wanted(req.eventType, p.req.eventType) ::
      !Overlaps(p.Id(), req.from, req.to) ==> Matching(p.rows, h, req.from, req.to) == []
  }

  lemma StraysAreOwed(plans: seq<Plan>, m: Store, req: QueryRequest, h: uint64)
    ensures NoStrays(plans, m, req, h) <==> forall p :: p in plans ==> OutOfRange(m, req, h, p) == multiset{}
  {
    hide Matching, Overlaps, BlockKey, Plan.Id;
    forall p | p in plans
      ensures OutOfRange(m, req, h, p) == multiset{} <==>
        (BlockKey(p.Id()) in m && Wanted(req.eventType, p.req.eventType) && !Overlaps(p.Id(), req.from, req.to) ==>
            Matching(p.rows, h, req.from, req.to) == [])
    {
      var rows := Matching(p.rows, h, req.from, req.to);
      assert |multiset(rows)| == |rows|;
    }
  }

  /** A row lies in the hour its block is named after. */
  ghost predicate InHour(p: Plan) {
    forall e :: e in p.rows ==> HourOf(e.timestamp) == HourOf(p.req.openedAt)
  }

  /** Rows in their block's hour are never strays. */
  lemma InHourNoStrays(plans: seq<Plan>, m: Store, req: QueryRequest, h: uint64)
    requires forall p :: p in plans ==> InHour(p)
    ensures NoStrays(plans, m, req, h)
  {
    forall p | p in plans && !Overlaps(p.Id(), req.from, req.to) ensures Matching(p.rows, h, req.from, req.to) == [] {
      MatchingFacts(p.rows, h, req.from, req.to);
      ParseBuiltID(p.req.shard, p.req.openedAt);
      var rows := Matching(p.rows, h, req.from, req.to);
      if rows != [] {
        var e := rows[0];
        assert e in rows && e in p.rows && InHour(p);
        HourHolds(e.timestamp);
      }
    }
  }

  lemma HourHolds(t: int64)
    ensures HourOf(t) * NANOS_PER_HOUR <= t < HourOf(t) * NANOS_PER_HOUR + NANOS_PER_HOUR
  {}

  /** The state a query runs in: any reachable one, or what a crash left of it. */
  ghost predicate QueriedState(env: L.Env, states: seq<L.State>, steps: seq<L.Step>, n: nat, d: Durable) {
    && LT.Configured(env) && L.IsRun(env, states, steps) && n <= |steps| && LT.Survives(states, n, d) && d.Valid()
    && env.codec.Inverts() && env.lib.Sound() && TIER_HOT in env.tiers
    && (forall p :: p in states[n].plans ==> Once(states[n].plans, p) && Fits(env.codec, p.rows))
  }

  lemma {:induction false} PlansWellPlanned(env: L.Env, states: seq<L.State>, steps: seq<L.Step>, n: nat)
    requires L.IsRun(env, states, steps) && n <= |steps|
    ensures forall p :: p in states[n].plans ==> L.WellPlanned(env, p)
  {
    hide L.SealEnabled, L.SweepEnabled, L.SealDisk, L.SweepDisk, L.SweepAfter, CrashesTo, L.WellPlanned;
    if n > 0 {
      PlansWellPlanned(env, states, steps, n - 1);
      assert states[n] == L.Next(env, states[n - 1], steps[n - 1]);
    }
  }

  /**
   * Query refines filter-and-sort in every reachable state of the engine, if each (shard, hour) was sealed
   * once: it never returns a row that no live block owes; and when the live blocks' bloom files are in place
   * it returns every owed row exactly if no matching row sits in a block of another hour.
   */
  lemma QueryRefinesFilter(env: L.Env, states: seq<L.State>, steps: seq<L.Step>, n: nat, d: Durable, req: QueryRequest,
                           h: uint64,
                           ids: seq<BlockID>, tasks: seq<Task>, result: seq<Event>)
    requires QueriedState(env, states, steps, n, d)
    requires QueryDone(env.codec, d.Current(), d.files, env.tiers, env.lib, TIER_HOT, req, h, ids, tasks, result)
    ensures var plans := states[n].plans;
      && InOrder(result, h)
      && multiset(result) <= Expected(plans, d.Current(), req, h)
      && (BloomsPresent(plans, d.Current(), d.files) ==>
            (multiset(result) == Expected(plans, d.Current(), req, h) <==> NoStrays(plans, d.Current(), req, h)))
  {
    hide L.Enabled, L.Next, LT.Survives, QueryDone, InOrder, NoStrays, BloomsPresent, VersionInv, L.WellPlanned, Fits,
         Once, Expected, ExpectedInRange, Codec.Inverts, BloomLib.Sound;
    LT.SurvivorInv(env, states, steps, n, d);
    PlansWellPlanned(env, states, steps, n);
    var plans, m := states[n].plans, d.Current();
    QueryOverVersion(env, plans, states[n].now, m, d.files, req, h, ids, tasks, result);
    ExpectedSplits(plans, m, req, h);
    StraysAreOwed(plans, m, req, h);
    var out := (p: Plan) => OutOfRange(m, req, h, p);
    TotalNone(out, plans);
    NoneAdded(ExpectedInRange(plans, m, req, h), Total(out, plans));
  }

  /** The block is live and of the event type asked for, or of any if none was asked for. */
  ghost predicate AskedFor(m: Store, req: QueryRequest, p: Plan) {
    BlockKey(p.Id()) in m && (req.eventType.None? || req.eventType.value == p.req.eventType)
  }

  /**
   * The same said of one row: what a query returns is a row of a live block, of the asked key, in the range and of
   * the asked type; and with the bloom files in place every such row that lies in its block's hour is returned, at
   * least as often as its block has it.
   */
  lemma RowsReturned(env: L.Env, states: seq<L.State>, steps: seq<L.Step>, n: nat, d: Durable, req: QueryRequest,
                     h: uint64, ids: seq<BlockID>, tasks: seq<Task>, result: seq<Event>, p: Plan, e: Event)
    requires QueriedState(env, states, steps, n, d)
    requires QueryDone(env.codec, d.Current(), d.files, env.tiers, env.lib, TIER_HOT, req, h, ids, tasks, result)
    ensures e in result ==>
      && e.keyHash == h && req.from <= e.timestamp < req.to
      && exists q :: q in states[n].plans && AskedFor(d.Current(), req, q) && e in q.rows
    ensures
      (&& BloomsPresent(states[n].plans, d.Current(), d.files)
       && p in states[n].plans && AskedFor(d.Current(), req, p)
       && e in p.rows && e.keyHash == h && req.from <= e.timestamp < req.to
       && HourOf(e.timestamp) == HourOf(p.req.openedAt)) ==> multiset(result)[e] >= multiset(p.rows)[e] > 0
  {
    hide L.Enabled, L.Next, LT.Survives, QueryDone, InOrder, BloomsPresent, VersionInv, L.WellPlanned, Fits, Once,
         Codec.Inverts, BloomLib.Sound, Total, Matching, Overlaps, BlockKey, Plan.Id;
    LT.SurvivorInv(env, states, steps, n, d);
    PlansWellPlanned(env, states, steps, n);
    var plans, m := states[n].plans, d.Current();
    QueryOverVersion(env, plans, states[n].now, m, d.files, req, h, ids, tasks, result);
    if e in result {
      assert e in multiset(result) && e in Expected(plans, m, req, h);
      TotalMembers(q => Owed(m, req, h, q), plans, e);
      var q :| q in plans && e in Owed(m, req, h, q);
      MatchingFacts(q.rows, h, req.from, req.to);
      assert e in Matching(q.rows, h, req.from, req.to);
    }
    if BloomsPresent(plans, m, d.files) && p in plans && AskedFor(m, req, p)
      && e in p.rows && e.keyHash == h && req.from <= e.timestamp < req.to
      && HourOf(e.timestamp) == HourOf(p.req.openedAt)
    {
      InHourOverlaps(p, e, req);
      MatchingCount(p.rows, h, req.from, req.to, e);
      TotalAtLeast(q => InRange(m, req, h, q), plans, p);
    }
  }

  lemma InHourOverlaps(p: Plan, e: Event, req: QueryRequest)
    requires HourOf(e.timestamp) == HourOf(p.req.openedAt) && req.from <= e.timestamp < req.to
    ensures Overlaps(p.Id(), req.from, req.to)
  {
    hide HourOf, BlockIDForShard, Overlaps;
    OverlapsMeans(p.req.shard, p.req.openedAt, req.from, req.to);
    assert req.from <= e.timestamp < req.to && HourOf(e.timestamp) == HourOf(p.req.openedAt);
  }

  lemma {:induction false} TotalAtLeast(f: Plan -> multiset<Event>, ps: seq<Plan>, p: Plan)
    requires p in ps
    ensures f(p) <= Total(f, ps)
  {
    var n := |ps| - 1;
    if ps[n] != p { TotalAtLeast(f, ps[..n], p); }
  }

  lemma NoneAdded(a: multiset<Event>, b: multiset<Event>)
    ensures a == a + b <==> b == multiset{}
  {
    assert |a + b| == |a| + |b|;
  }

  /**
   * Queries served while seals, sweeps, crashes and other queries go on: in every reachable state whose blocks
   * were each sealed once, the engine's cache meets what a query asks of it, and a successful query is in order,
   * returns nothing but owed rows, and returns all of them exactly when no owed row lies outside its block's hour.
   */
  lemma ServedQueryIsExact(env: L.Env, maxMem: int, states: seq<CR.Engine>, steps: seq<CR.Step>, n: nat,
                           req: QueryRequest, h: uint64,
                           ids: seq<BlockID>, tasks: seq<Task>, result: seq<Event>)
    requires CR.IsRun(env, maxMem, states, steps) && n <= |steps| && LT.Configured(env)
    requires env.codec.Inverts() && env.lib.Sound() && TIER_HOT in env.tiers
    requires forall p :: p in states[n].world.plans ==> Once(states[n].world.plans, p) && Fits(env.codec, p.rows)
    ensures var st := states[n]; var d, plans := st.world.d, st.world.plans;
      && d.Valid() && CoherentWherePresent(st.order, d.files, TIER_HOT) && (forall e :: e in st.order ==>
            env.lib.readable(e.filter))
      && (QueryDone(env.codec, d.Current(), d.files, env.tiers, env.lib, TIER_HOT, req, h, ids, tasks, result) ==>
            && InOrder(result, h) && multiset(result) <= Expected(plans, d.Current(), req, h)
            && (BloomsPresent(plans, d.Current(), d.files) ==>
                  (multiset(result) == Expected(plans, d.Current(), req, h) <==> NoStrays(plans, d.Current(), req, h))))
  {
    hide CR.IsRun, L.IsRun, QueryDone, InOrder, NoStrays, BloomsPresent, Once, Fits, Expected, Codec.Inverts,
         BloomLib.Sound, CoherentWherePresent, Answer, ReadAnswer;
    CR.RunLength(env, maxMem, states, steps);
    CR.CacheStaysRight(env, maxMem, states, steps, n);
    var worlds, moves := CR.WorldRun(env, maxMem, states, steps, n);
    var d := states[n].world.d;
    if QueryDone(env.codec, d.Current(), d.files, env.tiers, env.lib, TIER_HOT, req, h, ids, tasks, result) {
      CR.WorldRunLength(env, worlds, moves);
      QueryRefinesFilter(env, worlds, moves, |moves|, d, req, h, ids, tasks, result);
    }
  }

  /** As long as no block with metadata has expired, every such block has its bloom file. */
  lemma BloomsPresentUntilExpiry(env: L.Env, states: seq<L.State>, steps: seq<L.Step>, n: nat, d: Durable)
    requires QueriedState(env, states, steps, n, d)
    requires forall id :: BlockKey(id) in d.Current() ==> L.ExpOf(env, id) > states[n].now
    ensures BloomsPresent(states[n].plans, d.Current(), d.files)
  {
    hide L.Enabled, L.Next, LT.Survives, Once, Fits, L.ExpOf, Plan.Id, Codec.Inverts, BloomLib.Sound, Paired, FromPlans,
         Whole, Backed, BlockKey;
    LT.SurvivorInv(env, states, steps, n, d);
    forall p | p in states[n].plans && BlockKey(p.Id()) in d.Current()
      ensures Contents(env, states[n].now, d.files, p)
    {
      assert Once(states[n].plans, p);
    }
  }
}
