/** Block metadata, the sparse index and the expiry keys: what each meta operation does to the store. */
module Meta {
  import opened Bytes
  import opened Results
  import opened Keys
  import opened Storage

  // ----- block metadata -----

  const BLOCK_META_SIZE: nat := 31

  datatype BlockMeta = BlockMeta(shard: ShardID, openedAt: int64, sealedAt: int64, tier: Tier, size: uint64,
                                 checksum: uint32)

  function EncodeBlockMeta(m: BlockMeta): (buf: Bytes)
    ensures |buf| == BLOCK_META_SIZE
  {
    BE(m.shard, 2) + BE(ToUint64(m.openedAt), 8) + BE(ToUint64(m.sealedAt), 8) + [m.tier] + BE(m.size, 8) +
        BE(m.checksum, 4)
  }

  function DecodeBlockMeta(buf: Bytes): Result<BlockMeta> {
    if |buf| < BLOCK_META_SIZE then Err("block meta too short")
    else Ok(BlockMeta(Get16(buf[0..2]), ToInt64(Get64(buf[2..10])), ToInt64(Get64(buf[10..18])), buf[18],
                      Get64(buf[19..27]), Get32(buf[27..31])))
  }

  /**
   * Decoding inverts encoding, whatever follows the record; a decoded record re-encodes to the bytes it was
   * read from.
   */
  lemma BlockMetaRoundTrip(m: BlockMeta, tail: Bytes, buf: Bytes)
    ensures DecodeBlockMeta(EncodeBlockMeta(m) + tail) == Ok(m)
    ensures DecodeBlockMeta(buf).Ok? ==> EncodeBlockMeta(DecodeBlockMeta(buf).value) == buf[..BLOCK_META_SIZE]
  {
    var e := EncodeBlockMeta(m) + tail;
    assert e[0..2] == BE(m.shard, 2) && e[2..10] == BE(ToUint64(m.openedAt), 8);
    assert e[10..18] == BE(ToUint64(m.sealedAt), 8);
    assert e[18] == m.tier && e[19..27] == BE(m.size, 8) && e[27..31] == BE(m.checksum, 4);
    Order16(m.shard, m.shard);
    Order64(ToUint64(m.openedAt), ToUint64(m.sealedAt));
    Order64(ToUint64(m.sealedAt), m.size);
    Order64(m.size, m.size);
    RoundTrip32(m.checksum);
    if |buf| >= BLOCK_META_SIZE { ReEncode(buf); }
  }

  lemma ReEncode(buf: Bytes)
    requires |buf| >= BLOCK_META_SIZE
    ensures EncodeBlockMeta(DecodeBlockMeta(buf).value) == buf[..BLOCK_META_SIZE]
  {
    EncodeDecode(buf[0..2]);
    EncodeDecode(buf[2..10]);
    EncodeDecode(buf[10..18]);
    EncodeDecode(buf[19..27]);
    EncodeDecode(buf[27..31]);
    assert buf[..31] == buf[0..2] + buf[2..10] + buf[10..18] + [buf[18]] + buf[19..27] + buf[27..31];
  }

  /** GetBlockMeta: None stands for ErrNotFound, Some(Err) for an undecodable record. */
  function GetBlockMeta(m: Store, id: BlockID): Option<Result<BlockMeta>> {
    if BlockKey(id) in m then Some(DecodeBlockMeta(m[BlockKey(id)])) else None
  }

  /** GetBlockMeta as a read of the store, which may fail; the caller sees such a failure as one more error. */
  method ReadBlockMeta(disk: Disk, id: BlockID) returns (r: Option<Result<BlockMeta>>, ghost misread: bool)
    requires disk.Valid()
    modifies disk`faults
    ensures disk.Valid() && disk.faults == old(disk.faults) + Fault(!misread)
    ensures !misread ==> r == GetBlockMeta(disk.d.Current(), id)
    ensures misread ==> r.Some? && r.value.Err?
  {
    var val := disk.Get(BlockKey(id));
    misread := val.Err?;
    r := match val
      case Err(reason) => Some(Err(reason))
      case Ok(None) => None
      case Ok(Some(bytes)) => Some(DecodeBlockMeta(bytes));
  }

  // ----- sparse index -----

  /** IdxLookupBlocks returns exactly the block IDs stored for the pair, each once, in key order. */
  method IdxLookupBlocks(disk: Disk, eventType: byte, keyHash: uint64) returns (r: Result<seq<BlockID>>)
    requires disk.Valid()
    modifies disk`faults
    ensures disk.Valid() && disk.faults == old(disk.faults) + Fault(r.Ok?)
    ensures r.Ok? ==> Ascending(r.value)
    ensures r.Ok? ==> forall id :: id in r.value <==> IdxKey(eventType, keyHash, id) in disk.d.Current()
  {
    var m := disk.d.Current();
    var keys := Scan(m, IdxKeyPrefix(eventType, keyHash), IdxKeyUpper(eventType, keyHash));
    var ids: seq<BlockID> := [];
    for i := 0 to |keys|
      invariant |ids| == i
      invariant forall j :: 0 <= j < i ==> keys[j] == IdxKey(eventType, keyHash, ids[j])
      invariant disk.Valid() && disk.faults == old(disk.faults)
    {
      assert keys[i] in keys;
      IdxRangeExact(eventType, keyHash, keys[i]);
      var tail := keys[i][14..];
      assert keys[i] == IdxKey(eventType, keyHash, tail);
      ParseIdxKeyExact(keys[i], eventType, keyHash, tail);
      var parsed := ParseIdxKey(keys[i]);
      if parsed.Ok? { ids := ids + [parsed.value.2]; }
    }
    forall i, j | 0 <= i < j < |ids| ensures Less(ids[i], ids[j]) { IdxKeyOrder(eventType, keyHash, ids[i], ids[j]); }
    forall id ensures id in ids <==> IdxKey(eventType, keyHash, id) in m {
      var k := IdxKey(eventType, keyHash, id);
      IdxRangeExact(eventType, keyHash, k);
      if id in ids { var j :| 0 <= j < |ids| && ids[j] == id; assert keys[j] in keys; }
      if k in keys {
        var j :| 0 <= j < |keys| && keys[j] == k;
        ParseIdxKeyExact(k, eventType, keyHash, id);
        ParseIdxKeyExact(k, eventType, keyHash, ids[j]);
      }
    }
    var ok := disk.Attempt();
    r := if ok then Ok(ids) else Err("iterator");
  }

  function IdxBatch(eventType: byte, hashes: seq<uint64>, id: BlockID): seq<BatchOp> {
    seq(|hashes|, i requires 0 <= i < |hashes| => Set(IdxKey(eventType, hashes[i], id), []))
  }

  lemma {:induction false} IdxBatchEffect(m: Store, eventType: byte, hashes: seq<uint64>, id: BlockID)
    ensures var r := Apply(m, IdxBatch(eventType, hashes, id));
      && (forall k :: k in r <==> k in m || (exists h :: h in hashes && k == IdxKey(eventType, h, id)))
      && (forall k :: k in m && (forall h :: h in hashes ==> k != IdxKey(eventType, h, id)) ==> r[k] == m[k])
    decreases |hashes|
  {
    var b := IdxBatch(eventType, hashes, id);
    if hashes != [] {
      var n := |hashes| - 1;
      var init, last := hashes[..n], hashes[n];
      assert hashes == init + [last];
      assert b[..n] == IdxBatch(eventType, init, id);
      IdxBatchEffect(m, eventType, init, id);
      var p := Apply(m, b[..n]);
      assert Apply(m, b) == p[IdxKey(eventType, last, id) := []];
      assert forall h :: h in hashes <==> h in init || h == last;
    }
  }

  // ----- expiry keys -----

  datatype ExpiredEntry = ExpiredEntry(id: BlockID, hour: uint64)

  predicate InOrder(a: ExpiredEntry, b: ExpiredEntry) {
    a.hour < b.hour || (a.hour == b.hour && Less(a.id, b.id))
  }

  /** The entries due by an hour; the scan of the very last hour wraps its bound and sees nothing. */
  predicate Due(m: Store, now: uint64, e: ExpiredEntry) {
    ExpiryKey(e.hour, e.id) in m && e.hour <= now && now < TWO64 - 1
  }

  function ExpiredOf(keys: seq<Bytes>): seq<ExpiredEntry> {
    if keys == [] then []
    else
      var rest := ExpiredOf(keys[..|keys| - 1]);
      match ParseExpiryKey(keys[|keys| - 1])
      case Ok((hour, id)) => rest + [ExpiredEntry(id, hour)]
      case Err(_) => rest
  }

  /** ScanExpiredEntries in closed form. */
  function Expired(m: Store, now: uint64): seq<ExpiredEntry> {
    ExpiredOf(Scan(m, EXPIRY_PREFIX, ExpiryKeyUpperBound(now)))
  }

  lemma {:induction false} ExpiredOfElements(keys: seq<Bytes>)
    ensures forall e :: e in ExpiredOf(keys) <==> ExpiryKey(e.hour, e.id) in keys
  {
    if keys != [] {
      var n := |keys| - 1;
      ExpiredOfElements(keys[..n]);
      assert keys == keys[..n] + [keys[n]];
      forall e: ExpiredEntry ensures e in ExpiredOf(keys) <==> ExpiryKey(e.hour, e.id) in keys {
        ParseExpiryKeyExact(keys[n], e.hour, e.id);
      }
    }
  }

  lemma {:induction false} ExpiredOfOrdered(keys: seq<Bytes>)
    requires Ascending(keys)
    ensures forall i, j :: 0 <= i < j < |ExpiredOf(keys)| ==> InOrder(ExpiredOf(keys)[i], ExpiredOf(keys)[j])
  {
    if keys != [] {
      var n := |keys| - 1;
      ExpiredOfOrdered(keys[..n]);
      ExpiredOfElements(keys[..n]);
      var p := ParseExpiryKey(keys[n]);
      if p.Ok? {
        var rest := ExpiredOf(keys[..n]);
        var last := ExpiredEntry(p.value.1, p.value.0);
        ParseExpiryKeyExact(keys[n], last.hour, last.id);
        forall i | 0 <= i < |rest| ensures InOrder(rest[i], last) {
          assert rest[i] in rest;
          ExpiryKeyOrder(rest[i].hour, rest[i].id, last.hour, last.id);
        }
      }
    }
  }

  /** The scan is exact and in ascending (hour, ID) order, for every store and every hour. */
  lemma ExpiredExact(m: Store, now: uint64)
    ensures forall e :: e in Expired(m, now) <==> Due(m, now, e)
    ensures forall i, j :: 0 <= i < j < |Expired(m, now)| ==> InOrder(Expired(m, now)[i], Expired(m, now)[j])
  {
    var keys := Scan(m, EXPIRY_PREFIX, ExpiryKeyUpperBound(now));
    ExpiredOfElements(keys);
    ExpiredOfOrdered(keys);
    forall e ensures e in Expired(m, now) <==> Due(m, now, e) { ExpiryRangeExact(now, e.hour, e.id); }
  }

  method ScanExpiredEntries(disk: Disk, now: uint64) returns (r: Result<seq<ExpiredEntry>>)
    requires disk.Valid()
    modifies disk`faults
    ensures disk.Valid() && disk.faults == old(disk.faults) + Fault(r.Ok?)
    ensures r.Ok? ==> r.value == Expired(disk.d.Current(), now)
  {
    var keys := Scan(disk.d.Current(), EXPIRY_PREFIX, ExpiryKeyUpperBound(now));
    var entries: seq<ExpiredEntry> := [];
    for i := 0 to |keys|
      invariant entries == ExpiredOf(keys[..i])
    {
      assert keys[..i + 1][..i] == keys[..i];
      var parsed := ParseExpiryKey(keys[i]);
      if parsed.Ok? { entries := entries + [ExpiredEntry(parsed.value.1, parsed.value.0)]; }
    }
    assert keys[..|keys|] == keys;
    var ok := disk.Attempt();
    r := if ok then Ok(entries) else Err("iterator");
  }

  // ----- the two atomic batches -----

  /** meta.SealBatch: truncate the WAL, set the metadata, set the expiry key, in one commit. */
  function SealBatch(shard: ShardID, id: BlockID, bm: BlockMeta, expiryHour: uint64): seq<BatchOp> {
    [DeleteRange(WALKeyStart(shard), WALKeyEnd(shard)), Set(BlockKey(id), EncodeBlockMeta(bm)),
        Set(ExpiryKey(expiryHour, id), [])]
  }

  /** meta.DeleteBlockAndExpiry. */
  function DeleteBlockAndExpiry(hour: uint64, id: BlockID): seq<BatchOp> {
    [Delete(BlockKey(id)), Delete(ExpiryKey(hour, id))]
  }

  /** The store without the shard's WAL range, with the metadata and the expiry key of the block. */
  function WithSealed(m: Store, shard: ShardID, id: BlockID, bm: BlockMeta, expiryHour: uint64): Store {
    (m - RangeKeys(m, WALKeyStart(shard), WALKeyEnd(shard)))
      [BlockKey(id) := EncodeBlockMeta(bm)][ExpiryKey(expiryHour, id) := []]
  }

  lemma SealBatchEffect(m: Store, shard: ShardID, id: BlockID, bm: BlockMeta, expiryHour: uint64)
    ensures Apply(m, SealBatch(shard, id, bm, expiryHour)) == WithSealed(m, shard, id, bm, expiryHour)
  {
    var b := SealBatch(shard, id, bm, expiryHour);
    assert b[..2][..1] == b[..1] && b[..1][..0] == [];
    assert Apply(m, b[..1]) == m - RangeKeys(m, WALKeyStart(shard), WALKeyEnd(shard));
    assert Apply(m, b[..2]) == Apply(m, b[..1])[BlockKey(id) := EncodeBlockMeta(bm)];
  }

  lemma DeleteBatchEffect(m: Store, hour: uint64, id: BlockID)
    ensures Apply(m, DeleteBlockAndExpiry(hour, id)) == m - {BlockKey(id), ExpiryKey(hour, id)}
  {
    var b := DeleteBlockAndExpiry(hour, id);
    assert b[..1][..0] == [];
    assert Apply(m, b[..1]) == m - {BlockKey(id)};
  }
}
