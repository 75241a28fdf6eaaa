/** The pebble key space: builders, parsers, and the bounds of every range scan. */
module Keys {
  import opened Bytes
  import opened Results

  type ShardID = uint16
  type BlockID = Bytes

  const WAL_PREFIX: Bytes := [0x77, 0x61, 0x6c, 0x00]    // "wal\0"
  const BLOCK_PREFIX: Bytes := [0x62, 0x6c, 0x6b, 0x00]  // "blk\0"
  const IDX_PREFIX: Bytes := [0x69, 0x64, 0x78, 0x00]    // "idx\0"
  const EXPIRY_PREFIX: Bytes := [0x65, 0x78, 0x70, 0x00] // "exp\0"
  const SEQ_PREFIX: Bytes := [0x73, 0x65, 0x71, 0x00]    // "seq\0"
  const MIGR_PREFIX: Bytes := [0x6d, 0x67, 0x72, 0x00]   // "mgr\0"
  const COLON: byte := 0x3a

  function WALKey(shard: ShardID, sn: uint64): Bytes {
    WAL_PREFIX + (BE(shard, 2) + BE(sn, 8))
  }

  function WALKeyStart(shard: ShardID): Bytes {
    WALKey(shard, 0)
  }

  /** The increment is done in uint16, so the last shard wraps to shard 0. */
  function WALKeyEnd(shard: ShardID): Bytes {
    WALKey((shard + 1) % 0x1_0000, 0)
  }

  function ParseWALKey(key: Bytes): Result<(ShardID, uint64)> {
    if |key| != 14 || key[..4] != WAL_PREFIX then Err("invalid WAL key")
    else Ok((Get16(key[4..6]), Get64(key[6..14])))
  }

  function BlockKey(id: BlockID): Bytes {
    BLOCK_PREFIX + id
  }

  function IdxKeyPrefix(eventType: byte, keyHash: uint64): Bytes {
    IDX_PREFIX + ([eventType] + (BE(keyHash, 8) + [COLON]))
  }

  function IdxKey(eventType: byte, keyHash: uint64, id: BlockID): Bytes {
    IdxKeyPrefix(eventType, keyHash) + id
  }

  /** The scan prefix with its last byte incremented. */
  function IdxKeyUpper(eventType: byte, keyHash: uint64): Bytes {
    IDX_PREFIX + ([eventType] + (BE(keyHash, 8) + [COLON + 1]))
  }

  function ParseIdxKey(key: Bytes): Result<(byte, uint64, BlockID)> {
    if |key| < 14 || key[..4] != IDX_PREFIX then Err("invalid idx key")
    else if key[13] != COLON then Err("invalid idx key: missing separator")
    else Ok((key[4], Get64(key[5..13]), key[14..]))
  }

  function ExpiryKey(hour: uint64, id: BlockID): Bytes {
    EXPIRY_PREFIX + (BE(hour, 8) + ([COLON] + id))
  }

  /** The increment is done in uint64 and wraps at the last hour. */
  function ExpiryKeyUpperBound(hour: uint64): Bytes {
    EXPIRY_PREFIX + BE((hour + 1) % TWO64, 8)
  }

  function ParseExpiryKey(key: Bytes): Result<(uint64, BlockID)> {
    if |key| < 13 || key[..4] != EXPIRY_PREFIX then Err("invalid expiry key")
    else if key[12] != COLON then Err("invalid expiry key: missing separator")
    else Ok((Get64(key[4..12]), key[13..]))
  }

  function WALSeqKey(shard: ShardID): Bytes {
    SEQ_PREFIX + BE(shard, 2)
  }

  function MigrationKey(id: BlockID): Bytes {
    MIGR_PREFIX + id
  }

  // ----- every key the engine writes -----

  datatype Key =
    | Wal(shard: ShardID, sn: uint64)
    | Block(id: BlockID)
    | Idx(eventType: byte, keyHash: uint64, id: BlockID)
    | Expiry(hour: uint64, id: BlockID)
    | Seq(shard: ShardID)
    | Migration(id: BlockID)

  function Encode(k: Key): Bytes {
    match k
    case Wal(s, q) => WALKey(s, q)
    case Block(id) => BlockKey(id)
    case Idx(e, h, id) => IdxKey(e, h, id)
    case Expiry(h, id) => ExpiryKey(h, id)
    case Seq(s) => WALSeqKey(s)
    case Migration(id) => MigrationKey(id)
  }

  function Prefix(k: Key): Bytes {
    match k
    case Wal(_, _) => WAL_PREFIX
    case Block(_) => BLOCK_PREFIX
    case Idx(_, _, _) => IDX_PREFIX
    case Expiry(_, _) => EXPIRY_PREFIX
    case Seq(_) => SEQ_PREFIX
    case Migration(_) => MIGR_PREFIX
  }

  lemma EncodePrefix(k: Key)
    ensures |Encode(k)| >= 4 && Encode(k)[..4] == Prefix(k)
  {
    if k.Idx? { assert Encode(k) == IDX_PREFIX + (([k.eventType] + (BE(k.keyHash, 8) + [COLON])) + k.id); }
  }

  // ----- parsers invert builders, and accept nothing else -----

  lemma ParseWALKeyExact(key: Bytes, shard: ShardID, sn: uint64)
    ensures ParseWALKey(key) == Ok((shard, sn)) <==> key == WALKey(shard, sn)
  {
    var k := WALKey(shard, sn);
    assert k[..4] == WAL_PREFIX && k[4..6] == BE(shard, 2) && k[6..14] == BE(sn, 8);
    Order16(shard, shard);
    Order64(sn, sn);
    if ParseWALKey(key) == Ok((shard, sn)) {
      EncodeDecode(key[4..6]);
      EncodeDecode(key[6..14]);
      assert key == key[..4] + (key[4..6] + key[6..14]);
    }
  }

  lemma ParseIdxKeyExact(key: Bytes, eventType: byte, keyHash: uint64, id: BlockID)
    ensures ParseIdxKey(key) == Ok((eventType, keyHash, id)) <==> key == IdxKey(eventType, keyHash, id)
  {
    var k := IdxKey(eventType, keyHash, id);
    assert k[..4] == IDX_PREFIX && k[4] == eventType && k[5..13] == BE(keyHash, 8) && k[13] == COLON && k[14..] == id;
    Order64(keyHash, keyHash);
    if ParseIdxKey(key) == Ok((eventType, keyHash, id)) {
      EncodeDecode(key[5..13]);
      assert key == key[..4] + ([key[4]] + (key[5..13] + [key[13]])) + key[14..];
    }
  }

  lemma ParseExpiryKeyExact(key: Bytes, hour: uint64, id: BlockID)
    ensures ParseExpiryKey(key) == Ok((hour, id)) <==> key == ExpiryKey(hour, id)
  {
    var k := ExpiryKey(hour, id);
    assert k[..4] == EXPIRY_PREFIX && k[4..12] == BE(hour, 8) && k[12] == COLON && k[13..] == id;
    Order64(hour, hour);
    if ParseExpiryKey(key) == Ok((hour, id)) {
      EncodeDecode(key[4..12]);
      assert key == key[..4] + (key[4..12] + ([key[12]] + key[13..]));
    }
  }

  /** No two keys, of the same or of different kinds, share their bytes. */
  lemma EncodeInjective(a: Key, b: Key)
    ensures Encode(a) == Encode(b) <==> a == b
  {
    if Encode(a) == Encode(b) {
      EncodePrefix(a);
      EncodePrefix(b);
      assert WAL_PREFIX[0] != BLOCK_PREFIX[0] && EXPIRY_PREFIX[0] != SEQ_PREFIX[0];
      match a
      case Wal(s, q) => ParseWALKeyExact(Encode(a), s, q); ParseWALKeyExact(Encode(b), b.shard, b.sn);
      case Block(id) => assert Encode(a)[4..] == id && Encode(b)[4..] == b.id;
      case Idx(e, h, id) =>
        ParseIdxKeyExact(Encode(a), e, h, id);
        ParseIdxKeyExact(Encode(b), b.eventType, b.keyHash, b.id);
      case Expiry(h, id) => ParseExpiryKeyExact(Encode(a), h, id); ParseExpiryKeyExact(Encode(b), b.hour, b.id);
      case Seq(s) => assert Encode(a)[4..] == BE(s, 2) && Encode(b)[4..] == BE(b.shard, 2); Order16(s, b.shard);
      case Migration(id) => assert Encode(a)[4..] == id && Encode(b)[4..] == b.id;
    }
  }

  // ----- order of keys is order of fields -----

  predicate InRange(k: Bytes, lo: Bytes, hi: Bytes) {
    LessEq(lo, k) && Less(k, hi)
  }

  lemma WALKeyOrder(s: ShardID, q: uint64, s': ShardID, q': uint64)
    ensures Less(WALKey(s, q), WALKey(s', q')) <==> s < s' || (s == s' && q < q')
  {
    LessPrefix(WAL_PREFIX, BE(s, 2) + BE(q, 8), BE(s', 2) + BE(q', 8));
    LessSplit(BE(s, 2), BE(s', 2), BE(q, 8), BE(q', 8));
    Order16(s, s');
    Order64(q, q');
  }

  lemma ExpiryKeyOrder(h: uint64, id: BlockID, h': uint64, id': BlockID)
    ensures Less(ExpiryKey(h, id), ExpiryKey(h', id')) <==> h < h' || (h == h' && Less(id, id'))
  {
    LessPrefix(EXPIRY_PREFIX, BE(h, 8) + ([COLON] + id), BE(h', 8) + ([COLON] + id'));
    LessSplit(BE(h, 8), BE(h', 8), [COLON] + id, [COLON] + id');
    LessPrefix([COLON], id, id');
    Order64(h, h');
  }

  lemma IdxKeyOrder(eventType: byte, keyHash: uint64, id: BlockID, id': BlockID)
    ensures Less(IdxKey(eventType, keyHash, id), IdxKey(eventType, keyHash, id')) <==> Less(id, id')
  {
    LessPrefix(IdxKeyPrefix(eventType, keyHash), id, id');
  }

  /** Keys of different kinds are ordered by the first prefix byte alone. */
  lemma ForeignOrder(k: Key, p: Bytes, rest: Bytes)
    requires |p| == 4 && p != Prefix(k)
    ensures Less(Encode(k), p + rest) <==> Less(Prefix(k), p)
    ensures Less(p + rest, Encode(k)) <==> Less(p, Prefix(k))
    ensures Encode(k) != p + rest
  {
    EncodePrefix(k);
    var e := Encode(k);
    assert e == e[..4] + e[4..];
    assert (p + rest)[..4] == p;
    LessExtend(e[..4], p, e[4..], rest);
    LessExtend(p, e[..4], rest, e[4..]);
  }

  lemma Less4(a: Bytes, b: Bytes)
    requires |a| == 4 && |b| == 4 && a[0] != b[0]
    ensures Less(a, b) <==> a[0] < b[0]
  {}

  /** A foreign key lies outside every range whose two bounds share another kind's prefix. */
  lemma ForeignOutside(k: Key, p: Bytes, x: Bytes, y: Bytes)
    requires |p| == 4 && p != Prefix(k)
    ensures !InRange(Encode(k), p + x, p + y)
  {
    ForeignOrder(k, p, x);
    ForeignOrder(k, p, y);
    if Less(p, Prefix(k)) && Less(Prefix(k), p) { LessAsymmetric(p, Prefix(k)); }
  }

  lemma WALRangeOfEntry(shard: ShardID, s: ShardID, q: uint64)
    ensures InRange(WALKey(s, q), WALKeyStart(shard), WALKeyEnd(shard)) <==> s == shard && shard < 0xFFFF
  {
    WALKeyOrder(shard, 0, s, q);
    WALKeyOrder(s, q, (shard + 1) % 0x1_0000, 0);
    ParseWALKeyExact(WALKey(s, q), s, q);
    ParseWALKeyExact(WALKey(s, q), shard, 0);
  }

  /** The WAL range of a shard holds exactly that shard's entries; the last shard's range is empty. */
  lemma WALRangeExact(shard: ShardID, k: Key)
    ensures InRange(Encode(k), WALKeyStart(shard), WALKeyEnd(shard)) <==> k.Wal? && k.shard == shard && shard < 0xFFFF
  {
    var end: ShardID := (shard + 1) % 0x1_0000;
    if k.Wal? {
      WALRangeOfEntry(shard, k.shard, k.sn);
    } else {
      ForeignOutside(k, WAL_PREFIX, BE(shard, 2) + BE(0, 8), BE(end, 2) + BE(0, 8));
    }
  }

  /** The recovery scan [wal\0, wal\1) holds exactly the WAL entries of all shards. */
  lemma WALAllRangeExact(k: Key)
    ensures InRange(Encode(k), WAL_PREFIX, [0x77, 0x61, 0x6c, 0x01]) <==> k.Wal?
  {
    var hi: Bytes := [0x77, 0x61, 0x6c, 0x01];
    EncodePrefix(k);
    var e := Encode(k);
    assert e == e[..4] + e[4..];
    assert WAL_PREFIX + [] == WAL_PREFIX && hi + [] == hi;
    if k.Wal? {
      LessPrefix(WAL_PREFIX, [], e[4..]);
      LessExtend(WAL_PREFIX, hi, e[4..], []);
      assert WAL_PREFIX[1..][1..][1..] == [0x00] && hi[1..][1..][1..] == [0x01];
    } else {
      ForeignOrder(k, WAL_PREFIX, []);
      ForeignOrder(k, hi, []);
      Less4(Prefix(k), WAL_PREFIX);
      Less4(WAL_PREFIX, Prefix(k));
      Less4(Prefix(k), hi);
    }
  }

  /** Every raw key in the index scan range, built by the engine or not, extends the scan prefix. */
  lemma IdxRangeExact(eventType: byte, keyHash: uint64, raw: Bytes)
    ensures InRange(raw, IdxKeyPrefix(eventType, keyHash), IdxKeyUpper(eventType, keyHash))
       <==> IdxKeyPrefix(eventType, keyHash) <= raw
  {
    var body := IDX_PREFIX + ([eventType] + BE(keyHash, 8));
    assert IdxKeyPrefix(eventType, keyHash) == body + [COLON];
    assert IdxKeyUpper(eventType, keyHash) == body + [COLON + 1];
    PrefixRange(body, COLON, raw);
  }

  lemma PrefixRangeByte(c: byte, raw: Bytes)
    requires c < 255
    ensures InRange(raw, [c], [c + 1]) <==> [c] <= raw
  {
    if raw != [] {
      assert raw == [raw[0]] + raw[1..];
      assert [c] == [c] + [] && [c + 1] == [c + 1] + [];
      LessSplit([c], [raw[0]], [], raw[1..]);
      LessSplit([raw[0]], [c + 1], raw[1..], []);
      assert [c] <= raw <==> raw[0] == c;
      assert Less([c], [raw[0]]) <==> c < raw[0];
      assert Less([raw[0]], [c + 1]) <==> raw[0] < c + 1;
    }
  }

  lemma {:induction false} PrefixRange(body: Bytes, c: byte, raw: Bytes)
    requires c < 255
    ensures InRange(raw, body + [c], body + [c + 1]) <==> body + [c] <= raw
  {
    if body == [] {
      assert body + [c] == [c] && body + [c + 1] == [c + 1];
      PrefixRangeByte(c, raw);
    } else {
      assert (body + [c])[1..] == body[1..] + [c] && (body + [c + 1])[1..] == body[1..] + [c + 1];
      if raw != [] {
        PrefixRange(body[1..], c, raw[1..]);
        assert raw == [raw[0]] + raw[1..];
        assert body + [c] == [body[0]] + (body[1..] + [c]);
      }
    }
  }

  /** The expiry scan up to an hour meets exactly the entries due by then; at the last hour it is empty. */
  lemma ExpiryRangeExact(now: uint64, hour: uint64, id: BlockID)
    ensures InRange(ExpiryKey(hour, id), EXPIRY_PREFIX, ExpiryKeyUpperBound(now)) <==> hour <= now && now < TWO64 - 1
  {
    var up: uint64 := (now + 1) % TWO64;
    var rest := BE(hour, 8) + ([COLON] + id);
    LessPrefix(EXPIRY_PREFIX, [], rest);
    assert EXPIRY_PREFIX + [] == EXPIRY_PREFIX;
    LessPrefix(EXPIRY_PREFIX, rest, BE(up, 8));
    assert BE(up, 8) + [] == BE(up, 8);
    LessSplit(BE(hour, 8), BE(up, 8), [COLON] + id, []);
    Order64(hour, up);
  }

  lemma ExpiryRangeForeign(now: uint64, k: Key)
    requires !k.Expiry?
    ensures !InRange(Encode(k), EXPIRY_PREFIX, ExpiryKeyUpperBound(now))
  {
    assert EXPIRY_PREFIX + [] == EXPIRY_PREFIX;
    ForeignOutside(k, EXPIRY_PREFIX, [], BE((now + 1) % TWO64, 8));
  }
}
