/** Runs of the store that seal one block after another, undisturbed, and the cache beside them. */
module SealRuns {
  import opened Bytes
  import opened Keys
  import opened Storage
  import opened Meta
  import opened BloomCaches
  import opened Sealer
  import L = Lifecycle
  import opened LifecycleInv
  import CR = CacheRuns

  /** The run has begun these seals, and none is under way. */
  ghost predicate Quiet(env: L.Env, plans: seq<Plan>, states: seq<L.State>, steps: seq<L.Step>, d: Durable) {
    && L.IsRun(env, states, steps) && d.Valid()
    && states[|steps|] == L.State(d, 0, map[], L.Resting, L.Resting, plans)
  }

  /** After these seals, that of p is under way. */
  ghost predicate Mid(env: L.Env, before: seq<Plan>, p: Plan, states: seq<L.State>, steps: seq<L.Step>, d: Durable,
                      pc: L.SealPc) {
    && L.IsRun(env, states, steps) && d.Valid()
    && states[|steps|] == L.State(d, 0, map[p.req.shard := L.Job(p, pc)], L.Resting, L.Resting, before + [p])
  }

  /** The longer run goes on where the shorter one ended, with steps of a seal and flushes only. */
  ghost predicate Longer(states: seq<L.State>, steps: seq<L.Step>, states': seq<L.State>, steps': seq<L.Step>) {
    && states <= states' && steps <= steps' && |states| == |steps| + 1 && |states'| == |steps'| + 1
    && forall i :: |steps| <= i < |steps'| ==> steps'[i].SealStep? || steps'[i].Flush?
  }

  lemma Extend(env: L.Env, states: seq<L.State>, steps: seq<L.Step>, step: L.Step)
    requires L.IsRun(env, states, steps) && L.Enabled(env, states[|steps|], step)
    ensures L.IsRun(env, states + [L.Next(env, states[|steps|], step)], steps + [step])
  {
    hide L.Enabled, L.Next, L.Init;
  }

  lemma RunLength(env: L.Env, states: seq<L.State>, steps: seq<L.Step>)
    requires L.IsRun(env, states, steps)
    ensures |states| == |steps| + 1
  {}

  lemma NewServer(env: L.Env) returns (states: seq<L.State>, steps: seq<L.Step>)
    ensures Quiet(env, [], states, steps, Durable(map[], [map[]], 0)) && steps == []
  {
    states, steps := [L.State(Durable(map[], [map[]], 0), 0, map[], L.Resting, L.Resting, [])], [];
  }

  lemma Begun(env: L.Env, before: seq<Plan>, p: Plan, states: seq<L.State>, steps: seq<L.Step>, d: Durable)
    returns (states': seq<L.State>, steps': seq<L.Step>)
    requires Quiet(env, before, states, steps, d) && L.WellPlanned(env, p)
    ensures Mid(env, before, p, states', steps', d, L.Start)
    ensures |states| == |steps| + 1 && |states'| == |states| + 1
    ensures states <= states' && steps' == steps + [L.SealBegin(p)]
  {
    hide L.IsRun, L.WellPlanned;
    RunLength(env, states, steps);
    Extend(env, states, steps, L.SealBegin(p));
    states', steps' := states + [L.Next(env, states[|steps|], L.SealBegin(p))], steps + [L.SealBegin(p)];
    assert map[][p.req.shard := L.Job(p, L.Start)] == map[p.req.shard := L.Job(p, L.Start)];
  }

  /** One more operation of the seal. */
  lemma Do(env: L.Env, before: seq<Plan>, p: Plan, states: seq<L.State>, steps: seq<L.Step>, d: Durable, pc: L.SealPc,
           op: L.SealOp)
    returns (states': seq<L.State>, steps': seq<L.Step>)
    requires Mid(env, before, p, states, steps, d, pc) && L.SealEnabled(d, L.Job(p, pc), op)
    requires L.SealPcAfter(d, L.Job(p, pc), op).Some? && L.SealDisk(d, L.Job(p, pc), op).Valid()
    ensures Mid(env, before, p, states', steps', L.SealDisk(d, L.Job(p, pc), op),
        L.SealPcAfter(d, L.Job(p, pc), op).value)
    ensures Longer(states, steps, states', steps')
  {
    hide L.IsRun, L.SealEnabled, L.SealPcAfter, L.SealDisk;
    RunLength(env, states, steps);
    var s := p.req.shard;
    var st := states[|steps|];
    Extend(env, states, steps, L.SealStep(s, op));
    states', steps' := states + [L.Next(env, st, L.SealStep(s, op))], steps + [L.SealStep(s, op)];
    var pc' := L.SealPcAfter(d, L.Job(p, pc), op).value;
    assert st.seals[s := L.Job(p, pc')] == map[s := L.Job(p, pc')];
  }

  /** The operation that ends the seal. */
  lemma End(env: L.Env, before: seq<Plan>, p: Plan, states: seq<L.State>, steps: seq<L.Step>, d: Durable, pc: L.SealPc,
            op: L.SealOp)
    returns (states': seq<L.State>, steps': seq<L.Step>)
    requires Mid(env, before, p, states, steps, d, pc) && L.SealEnabled(d, L.Job(p, pc), op)
    requires op.Done? || op.Abandon?
    ensures Quiet(env, before + [p], states', steps', d) && Longer(states, steps, states', steps')
  {
    hide L.IsRun, L.SealEnabled;
    RunLength(env, states, steps);
    var s := p.req.shard;
    var st := states[|steps|];
    Extend(env, states, steps, L.SealStep(s, op));
    states', steps' := states + [L.Next(env, st, L.SealStep(s, op))], steps + [L.SealStep(s, op)];
    assert st.seals - {s} == map[];
  }

  lemma Synced(env: L.Env, before: seq<Plan>, p: Plan, states: seq<L.State>, steps: seq<L.Step>, d: Durable,
               pc: L.SealPc)
    returns (states': seq<L.State>, steps': seq<L.Step>)
    requires Mid(env, before, p, states, steps, d, pc)
    ensures Mid(env, before, p, states', steps', d.(synced := |d.log| - 1), pc)
    ensures Longer(states, steps, states', steps')
  {
    hide L.IsRun;
    RunLength(env, states, steps);
    var step := L.Flush(|d.log| - 1);
    Extend(env, states, steps, step);
    states', steps' := states + [L.Next(env, states[|steps|], step)], steps + [step];
  }

  lemma LongerStep(a: seq<L.State>, b: seq<L.Step>, a': seq<L.State>, b': seq<L.Step>, a'': seq<L.State>,
                   b'': seq<L.Step>)
    requires Longer(a, b, a', b') && Longer(a', b', a'', b'')
    ensures Longer(a, b, a'', b'')
  {}

  /** The seal has written the temporary file and its own bloom file, and synced the former. */
  lemma BloomWritten(env: L.Env, before: seq<Plan>, p: Plan, states: seq<L.State>, steps: seq<L.Step>, d: Durable)
    returns (states': seq<L.State>, steps': seq<L.Step>, d': Durable)
    requires Mid(env, before, p, states, steps, d, L.Start)
    ensures Mid(env, before, p, states', steps', d', L.BloomOpen) && Longer(states, steps, states', steps')
    ensures d' == d.(files := d.files[TmpPath(p.Id()) := File(p.file, true)]
                             [BloomPath(TIER_HOT, p.Id()) := File(p.bloom, false)])
  {
    hide Mid, L.IndexChunks, Plan.Id, Longer;
    MidValid(env, before, p, states, steps, d, L.Start);
    var s2, t2 := Do(env, before, p, states, steps, d, L.Start, L.WriteTmp(p.file));
    var d2 := L.SealDisk(d, L.Job(p, L.Start), L.WriteTmp(p.file));
    var s3, t3 := Do(env, before, p, s2, t2, d2, L.TmpOpen, L.SyncTmp);
    var d3 := L.SealDisk(d2, L.Job(p, L.TmpOpen), L.SyncTmp);
    states', steps' := Do(env, before, p, s3, t3, d3, L.TmpSynced, L.WriteBloom(p.bloom));
    d' := L.SealDisk(d3, L.Job(p, L.TmpSynced), L.WriteBloom(p.bloom));
    LongerStep(states, steps, s2, t2, s3, t3);
    LongerStep(states, steps, s3, t3, states', steps');
    assert d'.files == d.files[TmpPath(p.Id()) := File(p.file, true)]
                              [BloomPath(TIER_HOT, p.Id()) := File(p.bloom, false)];
  }

  lemma MidValid(env: L.Env, before: seq<Plan>, p: Plan, states: seq<L.State>, steps: seq<L.Step>, d: Durable,
                 pc: L.SealPc)
    requires Mid(env, before, p, states, steps, d, pc)
    ensures d.Valid()
  {}

  predicate InPlace(d: Durable, p: Plan) {
    d.HasDurable(BlockPath(TIER_HOT, p.Id()), p.file) && d.HasDurable(BloomPath(TIER_HOT, p.Id()), p.bloom)
  }

  /** Both files written, synced and in place. */
  lemma FilesRun(env: L.Env, before: seq<Plan>, p: Plan, states: seq<L.State>, steps: seq<L.Step>, d: Durable)
    returns (states': seq<L.State>, steps': seq<L.Step>, d': Durable)
    requires Mid(env, before, p, states, steps, d, L.Start)
    ensures Mid(env, before, p, states', steps', d', L.Indexing(0)) && Longer(states, steps, states', steps')
    ensures d'.log == d.log && InPlace(d', p)
  {
    hide Mid, L.IndexChunks, Plan.Id, Longer;
    var s1, t1, d1 := BloomWritten(env, before, p, states, steps, d);
    MidValid(env, before, p, s1, t1, d1, L.BloomOpen);
    var s2, t2 := Do(env, before, p, s1, t1, d1, L.BloomOpen, L.SyncBloom);
    var d2 := L.SealDisk(d1, L.Job(p, L.BloomOpen), L.SyncBloom);
    states', steps' := Do(env, before, p, s2, t2, d2, L.BloomSynced, L.Rename);
    d' := L.SealDisk(d2, L.Job(p, L.BloomSynced), L.Rename);
    LongerStep(states, steps, s1, t1, s2, t2);
    LongerStep(states, steps, s2, t2, states', steps');
  }

  lemma {:induction false} IndexRun(env: L.Env, before: seq<Plan>, p: Plan, states: seq<L.State>, steps: seq<L.Step>,
                                    d: Durable, k: nat)
    returns (states': seq<L.State>, steps': seq<L.Step>, d': Durable)
    requires Mid(env, before, p, states, steps, d, L.Indexing(k)) && d.Valid() && k <= |L.IndexChunks(p)|
    requires |states| == |steps| + 1
    ensures Mid(env, before, p, states', steps', d', L.Indexing(|L.IndexChunks(p)|))
    ensures d'.files == d.files && d'.Valid()
    ensures Longer(states, steps, states', steps')
    decreases |L.IndexChunks(p)| - k
  {
    hide Mid, L.IndexChunks, Plan.Id, IdxBatch, Apply;
    if k == |L.IndexChunks(p)| {
      states', steps', d' := states, steps, d;
    } else {
      var s1, t1 := Do(env, before, p, states, steps, d, L.Indexing(k), L.Index);
      d' := L.SealDisk(d, L.Job(p, L.Indexing(k)), L.Index);
      states', steps', d' := IndexRun(env, before, p, s1, t1, d', k + 1);
      LongerStep(states, steps, s1, t1, states', steps');
    }
  }

  /** The block is live, its files are in place and its shard's log is empty. */
  ghost predicate Sealed(d: Durable, p: Plan) {
    && d.Valid() && InPlace(d, p) && BlockKey(p.Id()) in d.Current() && d.synced == |d.log| - 1
    && (p.req.shard < 0xFFFF ==> forall sn: uint64 :: WALKey(p.req.shard, sn) !in d.Current())
  }

  lemma LogEmptied(m: Store, p: Plan, sn: uint64)
    requires p.req.shard < 0xFFFF
    ensures WALKey(p.req.shard, sn) !in Apply(m, SealBatch(p.req.shard, p.Id(), p.meta, p.Expiry()))
  {
    hide Apply, Plan.Id, Plan.Expiry, EncodeBlockMeta;
    SealBatchEffect(m, p.req.shard, p.Id(), p.meta, p.Expiry());
    EncodeInjective(Wal(p.req.shard, sn), Block(p.Id()));
    EncodeInjective(Wal(p.req.shard, sn), Expiry(p.Expiry(), p.Id()));
    WALRangeOfEntry(p.req.shard, p.req.shard, sn);
  }

  /** A seal just begun goes through. */
  lemma SealThrough(env: L.Env, before: seq<Plan>, p: Plan, states: seq<L.State>, steps: seq<L.Step>, d: Durable)
    returns (states': seq<L.State>, steps': seq<L.Step>, d': Durable)
    requires Mid(env, before, p, states, steps, d, L.Start)
    ensures Quiet(env, before + [p], states', steps', d') && Longer(states, steps, states', steps') && Sealed(d', p)
  {
    hide Mid, Quiet, L.IndexChunks, Plan.Id, Plan.Expiry, SealBatch, Apply, BlockKey, WALKey, Longer;
    var s1, t1, d1 := FilesRun(env, before, p, states, steps, d);
    MidValid(env, before, p, s1, t1, d1, L.Indexing(0));
    LongerLength(states, steps, s1, t1);
    var s2, t2, d2 := IndexRun(env, before, p, s1, t1, d1, 0);
    var last := L.Indexing(|L.IndexChunks(p)|);
    DecideEffect(d2.Current(), p);
    if p.req.shard < 0xFFFF {
      forall sn: uint64
        ensures WALKey(p.req.shard, sn) !in
            Apply(d2.Current(), SealBatch(p.req.shard, p.Id(), p.meta, p.Expiry()))
      {
        LogEmptied(d2.Current(), p, sn);
      }
    }
    var s3, t3 := Do(env, before, p, s2, t2, d2, last, L.Decide);
    var d3 := L.SealDisk(d2, L.Job(p, last), L.Decide);
    var s4, t4 := Synced(env, before, p, s3, t3, d3, L.Deciding(|d2.log|));
    d' := d3.(synced := |d3.log| - 1);
    states', steps' := End(env, before, p, s4, t4, d', L.Deciding(|d2.log|), L.Done);
    LongerStep(states, steps, s1, t1, s2, t2);
    LongerStep(states, steps, s2, t2, s3, t3);
    LongerStep(states, steps, s3, t3, s4, t4);
    LongerStep(states, steps, s4, t4, states', steps');
  }

  lemma LongerLength(a: seq<L.State>, b: seq<L.Step>, a': seq<L.State>, b': seq<L.Step>)
    requires Longer(a, b, a', b')
    ensures |a'| == |b'| + 1
  {}

  /** After any seals, every seal a writer can ask for can follow. */
  lemma NextSeal(env: L.Env, before: seq<Plan>, p: Plan, states: seq<L.State>, steps: seq<L.Step>, d: Durable)
    returns (states': seq<L.State>, steps': seq<L.Step>, d': Durable)
    requires Quiet(env, before, states, steps, d) && L.WellPlanned(env, p)
    ensures Quiet(env, before + [p], states', steps', d') && Sealed(d', p)
    ensures |states| == |steps| + 1 && |states'| == |steps'| + 1 && states <= states' && steps <= steps'
    ensures forall i :: |steps| <= i < |steps'| ==> !steps'[i].Crash?
  {
    hide Mid, Quiet, L.WellPlanned, Sealed;
    var s1, t1 := Begun(env, before, p, states, steps, d);
    states', steps', d' := SealThrough(env, before, p, s1, t1, d);
  }

  /** Every seal a writer can ask for is made by some run, and its block is live at the end. */
  lemma SealRun(env: L.Env, p: Plan) returns (states: seq<L.State>, steps: seq<L.Step>, d: Durable)
    requires L.WellPlanned(env, p)
    ensures Quiet(env, [p], states, steps, d) && Sealed(d, p)
    ensures forall i :: 0 <= i < |steps| ==> !steps[i].Crash?
  {
    hide Quiet, L.WellPlanned, Sealed;
    var s0, t0 := NewServer(env);
    states, steps, d := NextSeal(env, [], p, s0, t0, Durable(map[], [map[]], 0));
    assert [] + [p] == [p];
  }

  // ----- a seal of the same hour that fails -----

  /** A second seal fails after opening its bloom file: the block file and the log stay, the bloom file is gone. */
  lemma FailedSeal(env: L.Env, before: seq<Plan>, q: Plan, states: seq<L.State>, steps: seq<L.Step>, d: Durable)
    returns (states': seq<L.State>, steps': seq<L.Step>, d': Durable)
    requires Quiet(env, before, states, steps, d) && L.WellPlanned(env, q)
    ensures Quiet(env, before + [q], states', steps', d')
    ensures d'.log == d.log && d'.synced == d.synced
    ensures d'.files == d.files - {TmpPath(q.Id()), BloomPath(TIER_HOT, q.Id())}
  {
    hide Mid, Quiet, L.WellPlanned, L.IndexChunks, Plan.Id, Longer;
    var s0, t0 := Begun(env, before, q, states, steps, d);
    var s1, t1, d1 := BloomWritten(env, before, q, s0, t0, d);
    MidValid(env, before, q, s1, t1, d1, L.BloomOpen);
    var s2, t2 := Do(env, before, q, s1, t1, d1, L.BloomOpen, L.Fail);
    var s3, t3 := Do(env, before, q, s2, t2, d1, L.Failing(true), L.DropBloom);
    var d3 := L.SealDisk(d1, L.Job(q, L.Failing(true)), L.DropBloom);
    var s4, t4 := Do(env, before, q, s3, t3, d3, L.Failing(true), L.DropTmp);
    d' := L.SealDisk(d3, L.Job(q, L.Failing(true)), L.DropTmp);
    states', steps' := End(env, before, q, s4, t4, d', L.Failing(true), L.Abandon);
    assert d'.files == d.files - {TmpPath(q.Id()), BloomPath(TIER_HOT, q.Id())};
  }

  // ----- the cache beside two seals -----

  /** The engine's run has gone through these states of the store, ending with this cache. */
  ghost predicate Beside(env: L.Env, maxMem: int, es: seq<CR.Engine>, ts: seq<CR.Step>, w: L.State, order: seq<Entry>) {
    CR.IsRun(env, maxMem, es, ts) && es[|ts|] == CR.Engine(w, order)
  }

  lemma ExtendEngine(env: L.Env, maxMem: int, es: seq<CR.Engine>, ts: seq<CR.Step>, step: CR.Step)
    requires CR.IsRun(env, maxMem, es, ts) && CR.Enabled(env, es[|ts|], step)
    ensures CR.IsRun(env, maxMem, es + [CR.Next(env, maxMem, es[|ts|], step)], ts + [step])
  {
    hide CR.Enabled, CR.Next, L.Init;
  }

  /** The store goes on without a crash; the cache stays as it is. */
  lemma {:induction false} Follow(env: L.Env, maxMem: int, es: seq<CR.Engine>, ts: seq<CR.Step>, states: seq<L.State>,
                                  steps: seq<L.Step>, k: nat, order: seq<Entry>)
    returns (es': seq<CR.Engine>, ts': seq<CR.Step>)
    requires L.IsRun(env, states, steps) && k <= |steps| && forall i :: k <= i < |steps| ==> !steps[i].Crash?
    requires Beside(env, maxMem, es, ts, states[k], order)
    ensures Beside(env, maxMem, es', ts', states[|steps|], order)
    decreases |steps| - k
  {
    hide L.Enabled, L.Next, L.Init;
    if k == |steps| {
      es', ts' := es, ts;
    } else {
      var step := CR.World(steps[k]);
      ExtendEngine(env, maxMem, es, ts, step);
      es', ts' := es + [CR.Next(env, maxMem, es[|ts|], step)], ts + [step];
      es', ts' := Follow(env, maxMem, es', ts', states, steps, k + 1, order);
    }
  }
}
