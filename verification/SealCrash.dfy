/** Crash-atomicity of Seal: after power loss at any point, a block is sealed completely or not at all. */
module SealCrash {
  import opened Bytes
  import opened Keys
  import opened Storage
  import opened Meta
  import opened Wal
  import opened Sealer

  /** The keys a plan writes or deletes. */
  predicate Own(plan: Plan, k: Key) {
    match k
    case Wal(s, _) => s == plan.req.shard
    case Idx(e, _, id) => e == plan.req.eventType && id == plan.Id()
    case Block(id) => id == plan.Id()
    case Expiry(h, id) => h == plan.Expiry() && id == plan.Id()
    case Seq(_) => false
    case Migration(_) => false
  }

  ghost predicate SameAt(m: Store, m': Store, k: Bytes) {
    (k in m <==> k in m') && (k in m ==> m[k] == m'[k])
  }

  ghost predicate OthersKept(m: Store, m': Store, plan: Plan) {
    forall k: Key :: !Own(plan, k) ==> SameAt(m, m', Encode(k))
  }

  ghost predicate Indexed(m: Store, plan: Plan) {
    forall h :: h in plan.hashes ==> IdxKey(plan.req.eventType, h, plan.Id()) in m
  }

  /** The shard's log is gone, except for the last shard, whose truncation has no effect. */
  ghost predicate LogDropped(m0: Store, m: Store, shard: ShardID) {
    if shard < 0xFFFF then !HasEntry(m, shard) else SameEntries(m0, m, shard)
  }

  ghost predicate Sealed(m0: Store, m: Store, plan: Plan) {
    && BlockKey(plan.Id()) in m && m[BlockKey(plan.Id())] == EncodeBlockMeta(plan.meta)
    && ExpiryKey(plan.Expiry(), plan.Id()) in m
    && Indexed(m, plan)
    && LogDropped(m0, m, plan.req.shard)
    && OthersKept(m0, m, plan)
  }

  // ----- the chunks cover the hashes -----

  lemma {:induction false} ChunksCover(hashes: seq<uint64>, size: nat, h: uint64)
    requires h in hashes
    ensures exists i :: 0 <= i < |Chunks(hashes, size)| && h in Chunks(hashes, size)[i]
    decreases |hashes|
  {
    var chunks := Chunks(hashes, size);
    if size == 0 || |hashes| <= size {
      assert h in chunks[0];
    } else if h in hashes[..size] {
      assert h in chunks[0];
    } else {
      assert hashes == hashes[..size] + hashes[size..];
      ChunksCover(hashes[size..], size, h);
      var i :| 0 <= i < |Chunks(hashes[size..], size)| && h in Chunks(hashes[size..], size)[i];
      assert h in chunks[i + 1];
    }
  }

  // ----- what each stage holds -----

  lemma {:induction false} StageKeeps(m: Store, plan: Plan, k: nat)
    requires k < |plan.Batches()|
    ensures OthersKept(m, Stage(m, plan.Batches(), k), plan)
    ensures SameEntries(m, Stage(m, plan.Batches(), k), plan.req.shard)
    ensures SameAt(m, Stage(m, plan.Batches(), k), BlockKey(plan.Id()))
  {
    if k > 0 {
      StageKeeps(m, plan, k - 1);
      var before := Stage(m, plan.Batches(), k - 1);
      var chunk := Chunks(plan.hashes, plan.ChunkSize())[k - 1];
      assert plan.Batches()[k - 1] == IdxBatch(plan.req.eventType, chunk, plan.Id());
      ChunkKeeps(before, plan, chunk);
    }
  }

  lemma ChunkKeeps(m: Store, plan: Plan, chunk: seq<uint64>)
    ensures var m' := Apply(m, IdxBatch(plan.req.eventType, chunk, plan.Id()));
      && (forall k: Key :: !(k.Idx? && Own(plan, k)) ==> SameAt(m, m', Encode(k)))
      && SameEntries(m, m', plan.req.shard) && SameAt(m, m', BlockKey(plan.Id())) && OthersKept(m, m', plan)
  {
    var et, id := plan.req.eventType, plan.Id();
    var m' := Apply(m, IdxBatch(et, chunk, id));
    IdxBatchEffect(m, et, chunk, id);
    forall k: Key | !(k.Idx? && Own(plan, k)) ensures SameAt(m, m', Encode(k)) {
      forall h: uint64 ensures Encode(k) != IdxKey(et, h, id) { EncodeInjective(k, Idx(et, h, id)); }
    }
    forall q: uint64
      ensures SameAt(m, m', WALKey(plan.req.shard, q))
    {
      assert SameAt(m, m', Encode(Wal(plan.req.shard, q)));
    }
    assert SameAt(m, m', Encode(Block(id)));
  }

  lemma {:induction false} StageIndexes(m: Store, plan: Plan, k: nat, i: nat, h: uint64)
    requires i < k < |plan.Batches()| && h in Chunks(plan.hashes, plan.ChunkSize())[i]
    ensures IdxKey(plan.req.eventType, h, plan.Id()) in Stage(m, plan.Batches(), k)
  {
    hide Chunks, Plan.Id, Plan.Expiry;
    var chunk := Chunks(plan.hashes, plan.ChunkSize())[k - 1];
    assert plan.Batches()[k - 1] == IdxBatch(plan.req.eventType, chunk, plan.Id());
    IdxBatchEffect(Stage(m, plan.Batches(), k - 1), plan.req.eventType, chunk, plan.Id());
    if i < k - 1 { StageIndexes(m, plan, k - 1, i, h); }
  }

  lemma AllIndexed(m: Store, plan: Plan)
    ensures Indexed(Stage(m, plan.Batches(), |plan.Batches()| - 1), plan)
  {
    forall h | h in plan.hashes
      ensures IdxKey(plan.req.eventType, h, plan.Id()) in Stage(m, plan.Batches(), |plan.Batches()| - 1)
    {
      ChunksCover(plan.hashes, plan.ChunkSize(), h);
      var i :| 0 <= i < |Chunks(plan.hashes, plan.ChunkSize())| && h in Chunks(plan.hashes, plan.ChunkSize())[i];
      StageIndexes(m, plan, |plan.Batches()| - 1, i, h);
    }
  }

  /** What the deciding batch does to a store. */
  lemma SealBatchKeeps(m: Store, plan: Plan)
    ensures var m' := Apply(m, SealBatch(plan.req.shard, plan.Id(), plan.meta, plan.Expiry()));
      && BlockKey(plan.Id()) in m' && m'[BlockKey(plan.Id())] == EncodeBlockMeta(plan.meta)
      && ExpiryKey(plan.Expiry(), plan.Id()) in m'
      && LogDropped(m, m', plan.req.shard)
      && (forall k: Key :: k.Idx? || !Own(plan, k) ==> SameAt(m, m', Encode(k)))
  {
    hide EncodeBlockMeta, HasEntry, SameEntries;
    var id, shard := plan.Id(), plan.req.shard;
    var m' := Apply(m, SealBatch(shard, id, plan.meta, plan.Expiry()));
    SealBatchEffect(m, shard, id, plan.meta, plan.Expiry());
    EncodeInjective(Block(id), Expiry(plan.Expiry(), id));
    forall k: Key | k.Idx? || !Own(plan, k) ensures SameAt(m, m', Encode(k)) { OtherUntouched(m, plan, k); }
    LogAfter(m, plan);
  }

  lemma OtherUntouched(m: Store, plan: Plan, k: Key)
    requires k.Idx? || !Own(plan, k)
    ensures SameAt(m, WithSealed(m, plan.req.shard, plan.Id(), plan.meta, plan.Expiry()), Encode(k))
  {
    var id := plan.Id();
    EncodeInjective(k, Block(id));
    EncodeInjective(k, Expiry(plan.Expiry(), id));
    WALRangeExact(plan.req.shard, k);
  }

  lemma LogAfter(m: Store, plan: Plan)
    ensures LogDropped(m, WithSealed(m, plan.req.shard, plan.Id(), plan.meta, plan.Expiry()), plan.req.shard)
  {
    hide EncodeBlockMeta;
    var id, shard := plan.Id(), plan.req.shard;
    forall q: uint64
      ensures WALKey(shard, q) != BlockKey(id) && WALKey(shard, q) != ExpiryKey(plan.Expiry(), id)
      ensures InRange(WALKey(shard, q), WALKeyStart(shard), WALKeyEnd(shard)) <==> shard < 0xFFFF
    {
      EncodeInjective(Wal(shard, q), Block(id));
      EncodeInjective(Wal(shard, q), Expiry(plan.Expiry(), id));
      WALRangeOfEntry(shard, shard, q);
    }
  }

  /** The last stage is the sealed store. */
  lemma FinalStageSealed(m0: Store, plan: Plan)
    ensures Sealed(m0, Stage(m0, plan.Batches(), |plan.Batches()|), plan)
  {
    hide EncodeBlockMeta, HasEntry, Apply, Chunks, Plan.Id, Plan.Expiry;
    var n := |plan.Batches()|;
    var before, after := Stage(m0, plan.Batches(), n - 1), Stage(m0, plan.Batches(), n);
    StageKeeps(m0, plan, n - 1);
    AllIndexed(m0, plan);
    SealBatchKeeps(before, plan);
    assert plan.Batches()[n - 1] == SealBatch(plan.req.shard, plan.Id(), plan.meta, plan.Expiry());
    forall h | h in plan.hashes ensures IdxKey(plan.req.eventType, h, plan.Id()) in after {
      assert SameAt(before, after, Encode(Idx(plan.req.eventType, h, plan.Id())));
    }
    forall k: Key | !Own(plan, k) ensures SameAt(m0, after, Encode(k)) { assert SameAt(m0, before, Encode(k)); }
  }

  // ----- recovery -----

  /** No recoverable state before the seal knows the block, and none has another log for the shard. */
  ghost predicate FreshBefore(d0: Durable, plan: Plan) {
    forall i :: d0.synced <= i < |d0.log| ==>
      BlockKey(plan.Id()) !in d0.log[i] && SameEntries(d0.Current(), d0.log[i], plan.req.shard)
  }

  lemma RecoveredStore(d0: Durable, d: Durable, plan: Plan, k: nat, r: Durable)
    requires At(d0, d, plan, k) && CrashesTo(d, r)
    ensures (exists i :: d0.synced <= i < |d0.log| && r.log[0] == d0.log[i])
         || (exists j: nat :: j <= k && k > 0 && r.log[0] == Stage(d0.Current(), plan.Batches(), j))
  {
    hide Stage, StageLog, Plan.Batches, OtherFilesKept;
    StageLogFacts(d0, plan.Batches(), k);
    var i :| d.synced <= i < |d.log| && r.log[0] == d.log[i];
    if i >= |d0.log| {
      var j: nat := i - (|d0.log| - 1);
      assert r.log[0] == Stage(d0.Current(), plan.Batches(), j);
    }
  }

  /**
   * Wherever power is lost during the first seal of a (shard, hour), the recovered state either does not
   * know the block and has the shard's log as it was, or has the metadata, the expiry key, an index key
   * for every row, no log left for the shard, and both files durable with their full contents.
   */
  lemma SealCrashAtomic(d0: Durable, d: Durable, plan: Plan, r: Durable)
    requires Progress(d0, d, plan) && CrashesTo(d, r) && FreshBefore(d0, plan)
    ensures if BlockKey(plan.Id()) in r.log[0]
      then Sealed(d0.Current(), r.log[0], plan)
           && r.HasDurable(BlockPath(TIER_HOT, plan.Id()), plan.file)
           && r.HasDurable(BloomPath(TIER_HOT, plan.Id()), plan.bloom)
      else SameEntries(d0.Current(), r.log[0], plan.req.shard)
  {
    hide Sealed, Stage, Plan.Batches, SameEntries;
    var k: nat :| At(d0, d, plan, k);
    RecoveredStore(d0, d, plan, k, r);
    if j: nat :| j <= k && k > 0 && r.log[0] == Stage(d0.Current(), plan.Batches(), j) {
      if j == |plan.Batches()| {
        FinalStageSealed(d0.Current(), plan);
        SealedHasMeta(d0.Current(), r.log[0], plan);
      } else {
        StageKeeps(d0.Current(), plan, j);
        assert BlockKey(plan.Id()) !in d0.Current();
      }
    }
  }

  lemma SealedHasMeta(m0: Store, m: Store, plan: Plan)
    requires Sealed(m0, m, plan)
    ensures BlockKey(plan.Id()) in m
  {}

  /** Once Seal has returned without error, every crash recovers the sealed block. */
  lemma SealDurable(d0: Durable, d: Durable, plan: Plan, r: Durable)
    requires At(d0, d, plan, |plan.Batches()|) && d.synced == |d.log| - 1 && CrashesTo(d, r)
    ensures Sealed(d0.Current(), r.log[0], plan)
    ensures r.HasDurable(BlockPath(TIER_HOT, plan.Id()), plan.file)
    ensures r.HasDurable(BloomPath(TIER_HOT, plan.Id()), plan.bloom)
  {
    hide Sealed, Stage;
    StageLogFacts(d0, plan.Batches(), |plan.Batches()|);
    FinalStageSealed(d0.Current(), plan);
  }
}
