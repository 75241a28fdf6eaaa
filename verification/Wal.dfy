/** The write-ahead log: byte keys under wal\0 and seq\0 refine one independent log per shard. */
module Wal {
  import opened Bytes
  import opened Results
  import opened Keys
  import opened Storage

  // ----- operations on the store -----

  /** The number WALNextSeq hands out next; stored counters are eight bytes. */
  function NextSeq(m: Store, shard: ShardID): uint64 {
    var k := WALSeqKey(shard);
    if k in m && |m[k]| == 8 then (Get64(m[k]) + 1) % TWO64 else 0
  }

  function TakeSeq(m: Store, shard: ShardID): Store {
    m[WALSeqKey(shard) := BE(NextSeq(m, shard), 8)]
  }

  function ScanValues(m: Store, shard: ShardID): seq<Bytes> {
    var ks := Scan(m, WALKeyStart(shard), WALKeyEnd(shard));
    seq(|ks|, i requires 0 <= i < |ks| => assert ks[i] in ks; m[ks[i]])
  }

  function Truncated(m: Store, shard: ShardID): Store {
    m - RangeKeys(m, WALKeyStart(shard), WALKeyEnd(shard))
  }

  /** Every key that is not a WAL entry or the counter of this shard is as before. */
  ghost predicate OtherKeysKept(m: Store, m': Store, shard: ShardID) {
    forall k: Key :: !(k.Wal? && k.shard == shard) && !(k.Seq? && k.shard == shard) ==>
      (Encode(k) in m <==> Encode(k) in m') && (Encode(k) in m ==> m[Encode(k)] == m'[Encode(k)])
  }

  lemma OtherKeysSame(m: Store, shard: ShardID)
    ensures OtherKeysKept(m, m, shard)
  {}

  lemma OtherKeysTransitive(a: Store, b: Store, d: Store, s: ShardID)
    requires OtherKeysKept(a, b, s) && OtherKeysKept(b, d, s)
    ensures OtherKeysKept(a, d, s)
  {}

  lemma SetKeepsOthers(m: Store, k: Key, v: Bytes, shard: ShardID)
    requires k == Seq(shard) || (k.Wal? && k.shard == shard)
    ensures OtherKeysKept(m, m[Encode(k) := v], shard)
  {
    forall j: Key | !(j.Wal? && j.shard == shard) && !(j.Seq? && j.shard == shard)
      ensures Encode(j) != Encode(k)
    {
      EncodeInjective(j, k);
    }
  }

  method WALNextSeq(disk: Disk, shard: ShardID) returns (r: Result<uint64>)
    requires disk.Valid()
    modifies disk
    ensures disk.Valid() && old(disk.history) <= disk.history && disk.faults == old(disk.faults) + Fault(r.Ok?)
    ensures r.Ok? ==> r.value == NextSeq(old(disk.d).Current(), shard)
    ensures r.Ok? ==> disk.d.Current() == TakeSeq(old(disk.d).Current(), shard) && disk.d.synced == |disk.d.log| - 1
    ensures disk.d.Current() == old(disk.d).Current() || disk.d.Current() == TakeSeq(old(disk.d).Current(), shard)
    ensures disk.d.files == old(disk.d).files
    ensures OtherKeysKept(old(disk.d).Current(), disk.d.Current(), shard)
  {
    var key := WALSeqKey(shard);
    ghost var m := disk.d.Current();
    OtherKeysSame(m, shard);
    var val := disk.Get(key);
    if val.Err? { return Err(val.reason); }
    var next: uint64 := 0;
    if val.value.Some? && |val.value.value| == 8 { next := (Get64(val.value.value) + 1) % TWO64; }
    var batch := [Set(key, BE(next, 8))];
    SetKeepsOthers(m, Seq(shard), BE(next, 8), shard);
    var ok := disk.Commit(batch, true);
    assert batch[..0] == [] && Apply(m, batch) == m[key := BE(next, 8)];
    r := if ok then Ok(next) else Err("set failed");
  }

  method WALAppend(disk: Disk, shard: ShardID, data: Bytes) returns (ok: bool)
    requires disk.Valid()
    modifies disk
    ensures disk.Valid() && old(disk.history) <= disk.history && disk.faults == old(disk.faults) + Fault(ok)
    ensures ok ==> var m := old(disk.d).Current();
      && disk.d.Current() == TakeSeq(m, shard)[WALKey(shard, NextSeq(m, shard)) := data]
      && disk.d.synced == |disk.d.log| - 1
    ensures disk.d.files == old(disk.d).files
    ensures OtherKeysKept(old(disk.d).Current(), disk.d.Current(), shard)
    ensures var (m, m') := (old(disk.d).Current(), disk.d.Current());
      m' == m || m' == TakeSeq(m, shard) || m' == TakeSeq(m, shard)[WALKey(shard, NextSeq(m, shard)) := data]
  {
    hide NextSeq, TakeSeq, OtherKeysKept;
    var sn := WALNextSeq(disk, shard);
    if sn.Err? { return false; }
    ghost var m := disk.d.Current();
    var batch := [Set(WALKey(shard, sn.value), data)];
    assert batch[..0] == [] && Apply(m, batch) == m[WALKey(shard, sn.value) := data];
    SetKeepsOthers(m, Wal(shard, sn.value), data, shard);
    ok := disk.Commit(batch, true);
    OtherKeysTransitive(old(disk.d).Current(), m, disk.d.Current(), shard);
  }

  method WALScan(disk: Disk, shard: ShardID) returns (r: Result<seq<Bytes>>)
    requires disk.Valid()
    modifies disk`faults
    ensures disk.Valid() && disk.faults == old(disk.faults) + Fault(r.Ok?)
    ensures r.Ok? ==> r.value == ScanValues(disk.d.Current(), shard)
  {
    var m := disk.d.Current();
    var ks := Scan(m, WALKeyStart(shard), WALKeyEnd(shard));
    var entries: seq<Bytes> := [];
    for i := 0 to |ks|
      invariant |entries| == i
      invariant forall j :: 0 <= j < i ==> entries[j] == ScanValues(m, shard)[j]
    {
      assert ks[i] in ks;
      entries := entries + [m[ks[i]]];
    }
    var ok := disk.Attempt();
    r := if ok then Ok(entries) else Err("iterator");
  }

  method WALTruncate(disk: Disk, shard: ShardID) returns (ok: bool)
    requires disk.Valid()
    modifies disk
    ensures disk.Valid() && old(disk.history) <= disk.history && disk.faults == old(disk.faults) + Fault(ok)
    ensures ok ==> disk.d.Current() == Truncated(old(disk.d).Current(), shard) && disk.d.synced == |disk.d.log| - 1
    ensures disk.d.Current() == old(disk.d).Current() || disk.d.Current() == Truncated(old(disk.d).Current(), shard)
    ensures disk.d.files == old(disk.d).files
  {
    ghost var m := disk.d.Current();
    var batch := [DeleteRange(WALKeyStart(shard), WALKeyEnd(shard))];
    assert batch[..0] == [] && Apply(m, batch) == Truncated(m, shard);
    ok := disk.Commit(batch, true);
  }

  ghost predicate HasEntry(m: Store, shard: ShardID) {
    exists q: uint64 :: WALKey(shard, q) in m
  }

  /** No byte string lies in the last shard's range: its upper bound is below its lower bound. */
  lemma LastShardRangeEmpty(m: Store)
    ensures Scan(m, WALKeyStart(0xFFFF), WALKeyEnd(0xFFFF)) == []
  {
    var lo, hi := WALKeyStart(0xFFFF), WALKeyEnd(0xFFFF);
    var ks := Scan(m, lo, hi);
    assert |ks| > 0 ==> ks[0] in ks;
    WALKeyOrder(0, 0, 0xFFFF, 0);
    LessAsymmetric(hi, lo);
    forall k ensures !InRange(k, lo, hi) { if Less(lo, k) && Less(k, hi) { LessTransitive(lo, k, hi); } }
  }

  lemma ScanNonEmpty(m: Store, shard: ShardID)
    requires HasEntry(m, shard)
    ensures ScanValues(m, shard) != [] <==> shard < 0xFFFF
  {
    if shard == 0xFFFF {
      LastShardRangeEmpty(m);
    } else {
      var q: uint64 :| WALKey(shard, q) in m;
      WALRangeOfEntry(shard, shard, q);
      assert WALKey(shard, q) in Scan(m, WALKeyStart(shard), WALKeyEnd(shard));
    }
  }

  /** The first loop of the recovery scan: the shards of all keys that parse. */
  method ShardsSeen(m: Store) returns (seen: set<ShardID>)
    ensures forall s: ShardID :: s in seen <==> HasEntry(m, s)
  {
    var keys := Scan(m, WAL_PREFIX, [0x77, 0x61, 0x6c, 0x01]);
    seen := {};
    for i := 0 to |keys|
      invariant forall s: ShardID :: s in seen <==> SeenIn(keys[..i], s)
    {
      assert keys[..i + 1] == keys[..i] + [keys[i]];
      var parsed := ParseWALKey(keys[i]);
      SeenStep(keys[..i], keys[i]);
      if parsed.Ok? { seen := seen + {parsed.value.0}; }
    }
    assert keys[..|keys|] == keys;
    forall s: ShardID ensures s in seen <==> HasEntry(m, s) { SeenAll(m, s); }
  }

  ghost predicate SeenIn(keys: seq<Bytes>, s: ShardID) {
    exists q: uint64 :: WALKey(s, q) in keys
  }

  lemma SeenStep(keys: seq<Bytes>, k: Bytes)
    ensures forall s: ShardID :: SeenIn(keys + [k], s) <==>
      SeenIn(keys, s) || (ParseWALKey(k).Ok? && ParseWALKey(k).value.0 == s)
  {
    forall s: ShardID
      ensures SeenIn(keys + [k], s) <==> SeenIn(keys, s) || (ParseWALKey(k).Ok? && ParseWALKey(k).value.0 == s)
    {
      if SeenIn(keys, s) { var q: uint64 :| WALKey(s, q) in keys; assert WALKey(s, q) in keys + [k]; }
      if SeenIn(keys + [k], s) { var q: uint64 :| WALKey(s, q) in keys + [k]; ParseWALKeyExact(k, s, q); }
      if ParseWALKey(k).Ok? && ParseWALKey(k).value.0 == s {
        ParseWALKeyExact(k, s, ParseWALKey(k).value.1);
        assert WALKey(s, ParseWALKey(k).value.1) in keys + [k];
      }
    }
  }

  lemma SeenAll(m: Store, s: ShardID)
    ensures SeenIn(Scan(m, WAL_PREFIX, [0x77, 0x61, 0x6c, 0x01]), s) <==> HasEntry(m, s)
  {
    forall q: uint64 ensures WALKey(s, q) in Scan(m, WAL_PREFIX, [0x77, 0x61, 0x6c, 0x01]) <==> WALKey(s, q) in m {
      WALAllRangeExact(Wal(s, q));
    }
  }

  /**
   * FindOrphanedWALShards: exactly the shards with entries, each once, except the last shard, which
   * it never reports, and the shards whose own scan failed, which it silently skips. It skips no more shards than
   * operations failed.
   */
  method FindOrphanedWALShards(disk: Disk) returns (r: Result<seq<ShardID>>, ghost skipped: set<ShardID>)
    requires disk.Valid()
    modifies disk`faults
    ensures disk.Valid() && |skipped| + Fault(r.Ok?) == disk.faults - old(disk.faults)
    ensures r.Ok? ==> forall s: ShardID :: s in r.value <==>
      HasEntry(disk.d.Current(), s) && s < 0xFFFF && s !in skipped
    ensures r.Ok? ==> forall i, j :: 0 <= i < j < |r.value| ==> r.value[i] != r.value[j]
  {
    skipped := {};
    var m := disk.d.Current();
    var seen := ShardsSeen(m);
    var ok := disk.Attempt();
    if !ok { return Err("iterator"), {}; }
    var orphans: seq<ShardID> := [];
    var left := seen;
    while left != {}
      invariant left <= seen
      invariant forall s :: s in orphans <==> s in seen - left && s < 0xFFFF && s !in skipped
      invariant skipped <= seen - left && |skipped| == disk.faults - old(disk.faults) && disk.Valid()
      invariant forall i, j :: 0 <= i < j < |orphans| ==> orphans[i] != orphans[j]
      decreases left
    {
      var s :| s in left;
      left := left - {s};
      var entries := WALScan(disk, s);
      ScanNonEmpty(m, s);
      if entries.Err? {
        skipped := skipped + {s};
      } else if entries.value != [] {
        orphans := orphans + [s];
      }
    }
    r := Ok(orphans);
  }

  // ----- a shard's log in the store -----

  datatype Entry = Entry(sn: uint64, data: Bytes)

  ghost predicate Logged(log: seq<Entry>, q: uint64) {
    exists i :: 0 <= i < |log| && log[i].sn == q
  }

  /** The log's entries are in the store under increasing numbers. */
  ghost predicate Stored(m: Store, s: ShardID, log: seq<Entry>) {
    && (forall i, j :: 0 <= i < j < |log| ==> log[i].sn < log[j].sn)
    && (forall i :: 0 <= i < |log| ==> WALKey(s, log[i].sn) in m && m[WALKey(s, log[i].sn)] == log[i].data)
  }

  ghost predicate NothingElse(m: Store, s: ShardID, log: seq<Entry>) {
    forall q: uint64 :: WALKey(s, q) in m ==> Logged(log, q)
  }

  ghost predicate Below(log: seq<Entry>, n: int) {
    forall i :: 0 <= i < |log| ==> log[i].sn < n
  }

  /** The two stores hold the same WAL entries of the shard. */
  ghost predicate SameEntries(m: Store, m': Store, s: ShardID) {
    forall q: uint64 :: (WALKey(s, q) in m <==> WALKey(s, q) in m') && (WALKey(s, q) in m ==>
      m[WALKey(s, q)] == m'[WALKey(s, q)])
  }

  ghost predicate WellFormed(m: Store) {
    forall k :: k in m ==> exists key: Key :: Encode(key) == k
  }

  lemma SetFrame(m: Store, k: Key, v: Bytes, s: ShardID)
    requires !(k.Wal? && k.shard == s)
    ensures SameEntries(m, m[Encode(k) := v], s) && SameEntries(m, m - {Encode(k)}, s)
  {
    forall q: uint64 ensures WALKey(s, q) != Encode(k) { EncodeInjective(Wal(s, q), k); }
  }

  lemma EntriesFrame(m: Store, m': Store, s: ShardID, log: seq<Entry>)
    requires SameEntries(m, m', s) && Stored(m, s, log)
    ensures Stored(m', s, log) && (NothingElse(m, s, log) <==> NothingElse(m', s, log))
  {}

  lemma PutOwn(m: Store, s: ShardID, log: seq<Entry>, e: Entry)
    requires Stored(m, s, log) && Below(log, e.sn)
    ensures Stored(m[WALKey(s, e.sn) := e.data], s, log + [e])
    ensures NothingElse(m, s, log) ==> NothingElse(m[WALKey(s, e.sn) := e.data], s, log + [e])
  {
    forall q: uint64
      ensures WALKey(s, q) == WALKey(s, e.sn) <==> q == e.sn
    {
      EncodeInjective(Wal(s, q), Wal(s, e.sn));
    }
    var log' := log + [e];
    assert Logged(log', e.sn) by { assert log'[|log|].sn == e.sn; }
    forall q: uint64 | Logged(log, q) ensures Logged(log', q) {
      var i :| 0 <= i < |log| && log[i].sn == q;
      assert log'[i].sn == q;
    }
  }

  function Data(log: seq<Entry>): seq<Bytes> {
    seq(|log|, i requires 0 <= i < |log| => log[i].data)
  }

  ghost predicate OnlyBuiltInRange(m: Store, s: ShardID) {
    forall k :: k in m && InRange(k, WALKeyStart(s), WALKeyEnd(s)) ==> exists q: uint64 :: k == WALKey(s, q)
  }

  lemma ScanIsLog(m: Store, s: ShardID, log: seq<Entry>)
    requires Stored(m, s, log) && NothingElse(m, s, log) && s < 0xFFFF && OnlyBuiltInRange(m, s)
    ensures ScanValues(m, s) == Data(log)
  {
    var ks := seq(|log|, i requires 0 <= i < |log| => WALKey(s, log[i].sn));
    var scan := Scan(m, WALKeyStart(s), WALKeyEnd(s));
    forall i, j | 0 <= i < j < |ks| ensures Less(ks[i], ks[j]) { WALKeyOrder(s, log[i].sn, s, log[j].sn); }
    forall k ensures k in ks <==> k in scan {
      if k in ks {
        var i :| 0 <= i < |ks| && ks[i] == k;
        WALRangeOfEntry(s, s, log[i].sn);
      }
      if k in scan {
        var q: uint64 :| k == WALKey(s, q);
        assert Logged(log, q);
        var i :| 0 <= i < |log| && log[i].sn == q;
        assert ks[i] == k;
      }
    }
    AscendingUnique(ks, scan);
  }

  lemma SetWellFormed(m: Store, k: Key, v: Bytes)
    requires WellFormed(m)
    ensures WellFormed(m[Encode(k) := v])
  {}

  lemma WellFormedRange(m: Store, s: ShardID)
    requires WellFormed(m)
    ensures OnlyBuiltInRange(m, s)
  {
    forall k | k in m && InRange(k, WALKeyStart(s), WALKeyEnd(s)) ensures exists q: uint64 :: k == WALKey(s, q) {
      var key: Key :| Encode(key) == k;
      WALRangeExact(s, key);
    }
  }
}
