/** What a finished seal has recorded of its request and its rows. */
module SealRecords {
  import opened Bytes
  import opened Results
  import opened Keys
  import opened Storage
  import opened Meta
  import opened BlockIds
  import opened Format
  import opened BlockFile
  import BloomCaches
  import opened Sealer
  import opened SealCrash

  /** Read back field by field: the block file's header, length and checksums, metadata, expiry key and index keys. */
  ghost predicate Recorded(c: Codec, d: Durable, req: SealRequest, rows: seq<Event>)
    requires d.Valid()
  {
    var id := BlockIDForShard(req.shard, req.openedAt);
    && BlockPath(TIER_HOT, id) in d.files
    && (var file := d.files[BlockPath(TIER_HOT, id)].data;
        && |file| >= 120
        && DecodeHeader(c, file[..64]) ==
            Ok(BlockHeader(req.shard, req.eventType, req.openedAt, req.sealedAt, |rows| % TWO64))
        && GetBlockMeta(d.Current(), id) ==
            Some(Ok(BlockMeta(req.shard, req.openedAt, req.sealedAt, TIER_HOT, |file| % TWO64,
                c.crc(file[64..|file| - 56]))))
        && DecodeFooter(file[|file| - 56..]).Ok?
        && DecodeFooter(file[|file| - 56..]).value.bodyChecksum == c.crc(file[64..|file| - 56]))
    && ExpiryKey(ExpiryHour(req.openedAt, req.retention), id) in d.Current()
    && (forall e :: e in rows ==> IdxKey(req.eventType, e.keyHash, id) in d.Current())
  }

  lemma FileParts(c: Codec, h: BlockHeader, rows: seq<Event>)
    ensures var file := FileBytes(c, h, rows);
      && |file| >= 120 && DecodeHeader(c, file[..64]) == Ok(h) && file[64..|file| - 56] == Body(c, rows)
      && DecodeFooter(file[|file| - 56..]) == Ok(FooterOf(c, rows))
  {
    hide Body, EncodeHeader, DecodeHeader, FooterBytes, FooterOf, DecodeFooter;
    HeaderRoundTrip(c, h);
    FooterValid(c, rows);
    FooterRoundTrip(FooterOf(c, rows));
    var file, tail := FileBytes(c, h, rows), FooterBytes(FooterOf(c, rows));
    FooterLength(c, rows);
    assert file[..64] == EncodeHeader(c, h) && file[|file| - 56..] == tail;
  }

  lemma FooterValid(c: Codec, rows: seq<Event>)
    ensures FooterOf(c, rows).Valid() && FooterOf(c, rows).bodyChecksum == c.crc(Body(c, rows))
  {}

  lemma SomeBatch(plan: Plan)
    ensures plan.Batches() != []
  {}

  /** A seal that went through records its request and its rows. */
  lemma SealIsRecorded(c: Codec, lib: BloomCaches.BloomLib, d0: Durable, d: Durable, plan: Plan, forBloom: seq<uint64>,
                       rows: seq<Event>)
    requires At(d0, d, plan, |plan.Batches()|) && Distinct(plan.hashes, plan.rows)
    requires plan == MakePlan(c, lib, plan.req, plan.rows, forBloom, plan.hashes)
    requires multiset(plan.rows) == multiset(rows)
    ensures d.Valid() && Recorded(c, d, plan.req, rows)
  {
    hide FileBytes, Body, FooterOf, DecodeFooter, Stage, Plan.Batches, EncodeBlockMeta, DecodeBlockMeta, DecodeHeader,
         ExpiryHour, IdxKey, BlockIDForShard, StageLog, OthersKept, LogDropped, ExpiryKey, BlockKey;
    FileParts(c, HeaderFor(plan.req, |plan.rows|), plan.rows);
    FooterValid(c, plan.rows);
    StageLogFacts(d0, plan.Batches(), |plan.Batches()|);
    FinalStageSealed(d0.Current(), plan);
    BlockMetaRoundTrip(plan.meta, [], []);
    assert EncodeBlockMeta(plan.meta) + [] == EncodeBlockMeta(plan.meta);
    assert plan.Batches() != [] by { SomeBatch(plan); }
    assert |multiset(plan.rows)| == |plan.rows| && |multiset(rows)| == |rows|;
    forall e | e in rows ensures IdxKey(plan.req.eventType, e.keyHash, plan.Id()) in d.Current() {
      assert e in multiset(plan.rows);
      var i :| 0 <= i < |plan.rows| && plan.rows[i] == e;
      assert KeyHashes(plan.rows)[i] == e.keyHash;
    }
  }
}
