/**
 * The byte-keyed WAL over whole runs with failing and unsynced commits and crashes: one log per shard, nothing
 * acknowledged lost.
 */
module WalRuns {
  import opened Bytes
  import opened Results
  import opened Keys
  import opened Storage
  import opened Meta
  import opened Wal

  // ----- commits and what they mean -----

  /** The commits that touch the store: a counter, an entry, a truncation alone or inside a seal, anything else. */
  datatype Op =
    | Count(shard: ShardID)
    | Append(shard: ShardID, e: Entry)
    | Truncate(shard: ShardID)
    | Seal(shard: ShardID, id: BlockID, bm: BlockMeta, hour: uint64)
    | Other(key: Key, value: Option<Bytes>)

  predicate Legal(op: Op) {
    op.Other? ==> !op.key.Wal? && !op.key.Seq?
  }

  predicate Drops(op: Op, s: ShardID) {
    (op.Truncate? || op.Seal?) && op.shard == s
  }

  function OpBatch(m: Store, op: Op): seq<BatchOp> {
    match op
    case Count(s) => [Set(WALSeqKey(s), BE(NextSeq(m, s), 8))]
    case Append(s, e) => [Set(WALKey(s, e.sn), e.data)]
    case Truncate(s) => [DeleteRange(WALKeyStart(s), WALKeyEnd(s))]
    case Seal(s, id, bm, hour) => SealBatch(s, id, bm, hour)
    case Other(k, None) => [Delete(Encode(k))]
    case Other(k, Some(v)) => [Set(Encode(k), v)]
  }

  /** The store after a history of commits. */
  function Replay(m0: Store, ops: seq<Op>): Store {
    if ops == [] then m0
    else
      var m := Replay(m0, ops[..|ops| - 1]);
      Apply(m, OpBatch(m, ops[|ops| - 1]))
  }

  /** The log of a shard after a history: its appends since it was last dropped. */
  function Log(ops: seq<Op>, s: ShardID): seq<Entry> {
    if ops == [] then []
    else
      var (before, op) := (Log(ops[..|ops| - 1], s), ops[|ops| - 1]);
      if op.Append? && op.shard == s then before + [op.e] else if Drops(op, s) then [] else before
  }

  /** How many numbers a shard was handed in a history. */
  function Taken(ops: seq<Op>, s: ShardID): nat {
    if ops == [] then 0 else Taken(ops[..|ops| - 1], s) + if ops[|ops| - 1] == Count(s) then 1 else 0
  }

  /** sn is the last number handed to the shard, and no entry has used it. */
  ghost predicate Fresh(ops: seq<Op>, s: ShardID, sn: int) {
    && sn == Taken(ops, s) - 1
    && forall i :: 0 <= i < |ops| && ops[i].Append? && ops[i].shard == s ==> ops[i].e.sn < sn
  }

  /** Every entry was written under a fresh number. */
  ghost predicate Numbered(ops: seq<Op>) {
    forall j :: 0 <= j < |ops| && ops[j].Append? ==> Fresh(ops[..j], ops[j].shard, ops[j].e.sn)
  }

  ghost predicate AllLegal(ops: seq<Op>) {
    forall i :: 0 <= i < |ops| ==> Legal(ops[i])
  }

  /** Nobody has run out of numbers. */
  ghost predicate Few(ops: seq<Op>) {
    forall s: ShardID :: Taken(ops, s) <= TWO64
  }

  // ----- positions -----

  /** The append at position j is not followed by a truncation of its shard. */
  ghost predicate Alive(ops: seq<Op>, s: ShardID, j: int) {
    0 <= j < |ops| && ops[j].Append? && ops[j].shard == s && forall i :: j < i < |ops| ==> !Drops(ops[i], s)
  }

  /** at lists the positions of the log's entries. */
  ghost predicate LogAt(ops: seq<Op>, s: ShardID, log: seq<Entry>, at: seq<nat>) {
    && |at| == |log| && (forall i, j :: 0 <= i < j < |at| ==> at[i] < at[j])
    && (forall j :: j in at <==> Alive(ops, s, j))
    && (forall i :: 0 <= i < |at| ==> at[i] < |ops| && ops[at[i]] == Append(s, log[i]))
  }

  /** A shard's log consists of exactly the appends not followed by a truncation, in commit order. */
  lemma {:induction false} LogExact(ops: seq<Op>, s: ShardID) returns (at: seq<nat>)
    ensures LogAt(ops, s, Log(ops, s), at)
  {
    if ops == [] {
      at := [];
    } else {
      var n := |ops| - 1;
      at := LogExact(ops[..n], s);
      at := LogAtStep(ops, s, Log(ops[..n], s), at);
    }
  }

  lemma LogAtStep(ops: seq<Op>, s: ShardID, log: seq<Entry>, at: seq<nat>) returns (at': seq<nat>)
    requires ops != [] && LogAt(ops[..|ops| - 1], s, log, at)
    ensures var op := ops[|ops| - 1];
      LogAt(ops, s, if op.Append? && op.shard == s then log + [op.e] else if Drops(op, s) then [] else log, at')
  {
    hide Alive;
    var n := |ops| - 1;
    AliveStep(ops, s);
    var init := ops[..n];
    forall i | 0 <= i < |at| ensures at[i] < n && ops[at[i]] == Append(s, log[i]) { assert init[at[i]] == ops[at[i]]; }
    if ops[n].Append? && ops[n].shard == s {
      at' := at + [n];
      AtMore(ops, s, at, n);
    } else if Drops(ops[n], s) {
      at' := [];
    } else {
      at' := at;
    }
  }

  lemma AtMore(ops: seq<Op>, s: ShardID, at: seq<nat>, n: nat)
    requires n <= |ops| && forall j :: Alive(ops, s, j) <==> j == n || Alive(ops[..n], s, j)
    requires forall j :: j in at <==> Alive(ops[..n], s, j)
    ensures forall j :: j in at + [n] <==> Alive(ops, s, j)
  {
    hide Alive;
    forall j ensures j in at + [n] <==> j in at || j == n {}
  }

  lemma AliveStep(ops: seq<Op>, s: ShardID)
    requires ops != []
    ensures var n := |ops| - 1;
      forall j :: Alive(ops, s, j) <==>
          (j == n && ops[n].Append? && ops[n].shard == s) || (Alive(ops[..n], s, j) && !Drops(ops[n], s))
  {
    var n := |ops| - 1;
    forall j
      ensures Alive(ops, s, j) <==>
        (j == n && ops[n].Append? && ops[n].shard == s) || (Alive(ops[..n], s, j) && !Drops(ops[n], s))
    {
      if Alive(ops[..n], s, j) && !Drops(ops[n], s) {
        forall i | j < i < |ops| ensures !Drops(ops[i], s) { if i < n { assert ops[..n][i] == ops[i]; } }
      }
      if Alive(ops, s, j) && j < n { assert forall i :: j < i < n ==> ops[..n][i] == ops[i]; }
    }
  }

  // ----- what a history leaves in the store -----

  /** A new store: no WAL entries and no counters. */
  ghost predicate Clean(m: Store) {
    forall k :: k in m ==> exists key: Key :: Encode(key) == k && !key.Wal? && !key.Seq?
  }

  ghost predicate CounterIs(m: Store, s: ShardID, taken: nat) {
    var k := WALSeqKey(s);
    if taken == 0 then k !in m else k in m && m[k] == BE((taken - 1) % TWO64, 8)
  }

  ghost predicate LogIs(m: Store, s: ShardID, log: seq<Entry>, taken: nat) {
    Stored(m, s, log) && (s < 0xFFFF ==> NothingElse(m, s, log)) && Below(log, taken)
  }

  ghost predicate StoreIs(m: Store, ops: seq<Op>) {
    && WellFormed(m)
    && forall s: ShardID :: CounterIs(m, s, Taken(ops, s)) && LogIs(m, s, Log(ops, s), Taken(ops, s))
  }

  lemma CounterNext(m: Store, s: ShardID, taken: nat)
    requires CounterIs(m, s, taken)
    ensures NextSeq(m, s) == taken % TWO64
  {
    if taken > 0 {
      var c: uint64 := (taken - 1) % TWO64;
      Order64(c, c);
      Successor(taken - 1);
    }
  }

  lemma CleanIs(m: Store)
    requires Clean(m)
    ensures StoreIs(m, [])
  {
    forall s: ShardID ensures CounterIs(m, s, 0) && LogIs(m, s, [], 0) {
      if WALSeqKey(s) in m {
        var key: Key :| Encode(key) == WALSeqKey(s) && !key.Wal? && !key.Seq?;
        EncodeInjective(key, Seq(s));
      }
      forall q: uint64 ensures WALKey(s, q) !in m {
        if WALKey(s, q) in m {
          var key: Key :| Encode(key) == WALKey(s, q) && !key.Wal? && !key.Seq?;
          EncodeInjective(key, Wal(s, q));
        }
      }
    }
  }

  lemma ApplyOne(m: Store, op: BatchOp)
    ensures Apply(m, [op]) == ApplyOp(m, op)
  {
    assert [op][..0] == [];
  }

  lemma CountEffect(m: Store, t: ShardID, s: ShardID, taken: nat, log: seq<Entry>, mine: nat)
    requires CounterIs(m, t, taken) && CounterIs(m, s, mine) && LogIs(m, s, log, mine) && (s == t ==> mine == taken)
    ensures var m' := Apply(m, OpBatch(m, Count(t)));
      CounterIs(m', s, if s == t then taken + 1 else mine) && LogIs(m', s, log, if s == t then taken + 1 else mine)
  {
    hide Stored, NothingElse, SameEntries, BE, NextSeq;
    CounterNext(m, t, taken);
    ApplyOne(m, Set(WALSeqKey(t), BE(NextSeq(m, t), 8)));
    EncodeInjective(Seq(s), Seq(t));
    SetFrame(m, Seq(t), BE(NextSeq(m, t), 8), s);
    EntriesFrame(m, m[WALSeqKey(t) := BE(NextSeq(m, t), 8)], s, log);
  }

  lemma AppendEffect(m: Store, t: ShardID, e: Entry, s: ShardID, log: seq<Entry>, mine: nat)
    requires CounterIs(m, s, mine) && LogIs(m, s, log, mine) && (s == t ==> Below(log, e.sn) && e.sn < mine)
    ensures var m' := Apply(m, OpBatch(m, Append(t, e)));
      CounterIs(m', s, mine) && LogIs(m', s, if s == t then log + [e] else log, mine)
  {
    hide Stored, NothingElse, SameEntries, BE;
    ApplyOne(m, Set(WALKey(t, e.sn), e.data));
    EncodeInjective(Seq(s), Wal(t, e.sn));
    var m' := m[WALKey(t, e.sn) := e.data];
    if s == t {
      PutOwn(m, s, log, e);
    } else {
      SetFrame(m, Wal(t, e.sn), e.data, s);
      EntriesFrame(m, m', s, log);
    }
  }

  /** The store without a shard's range. */
  lemma DropEffect(m: Store, t: ShardID, s: ShardID, log: seq<Entry>, mine: nat)
    requires CounterIs(m, s, mine) && LogIs(m, s, log, mine)
    ensures var m' := m - RangeKeys(m, WALKeyStart(t), WALKeyEnd(t));
      CounterIs(m', s, mine) && LogIs(m', s, if s == t then [] else log, mine)
  {
    hide BE;
    var m' := m - RangeKeys(m, WALKeyStart(t), WALKeyEnd(t));
    WALRangeExact(t, Seq(s));
    forall q: uint64
      ensures WALKey(s, q) in m' <==> WALKey(s, q) in m && !(s == t && t < 0xFFFF)
    {
      WALRangeOfEntry(t, s, q);
    }
    if s != t { EntriesFrame(m, m', s, log); }
  }

  /** Setting or deleting a key of another kind. */
  lemma OtherEffect(m: Store, k: Key, v: Bytes, s: ShardID, log: seq<Entry>, mine: nat)
    requires CounterIs(m, s, mine) && LogIs(m, s, log, mine) && !k.Wal? && !k.Seq?
    ensures CounterIs(m[Encode(k) := v], s, mine) && LogIs(m[Encode(k) := v], s, log, mine)
    ensures CounterIs(m - {Encode(k)}, s, mine) && LogIs(m - {Encode(k)}, s, log, mine)
  {
    hide Stored, NothingElse, SameEntries, BE;
    EncodeInjective(Seq(s), k);
    SetFrame(m, k, v, s);
    EntriesFrame(m, m[Encode(k) := v], s, log);
    EntriesFrame(m, m - {Encode(k)}, s, log);
  }

  lemma SealEffect(m: Store, op: Op, s: ShardID, log: seq<Entry>, mine: nat)
    requires CounterIs(m, s, mine) && LogIs(m, s, log, mine) && op.Seal?
    ensures var m' := Apply(m, OpBatch(m, op));
      CounterIs(m', s, mine) && LogIs(m', s, if s == op.shard then [] else log, mine)
  {
    hide CounterIs, LogIs, EncodeBlockMeta;
    SealBatchEffect(m, op.shard, op.id, op.bm, op.hour);
    var log' := if s == op.shard then [] else log;
    var cut := m - RangeKeys(m, WALKeyStart(op.shard), WALKeyEnd(op.shard));
    DropEffect(m, op.shard, s, log, mine);
    OtherEffect(cut, Block(op.id), EncodeBlockMeta(op.bm), s, log', mine);
    OtherEffect(cut[BlockKey(op.id) := EncodeBlockMeta(op.bm)], Expiry(op.hour, op.id), [], s, log', mine);
  }

  lemma OpEffect(m: Store, ops: seq<Op>, op: Op, s: ShardID)
    requires StoreIs(m, ops) && Legal(op) && (op.Append? ==> Fresh(ops, op.shard, op.e.sn))
    ensures CounterIs(Apply(m, OpBatch(m, op)), s, Taken(ops + [op], s))
    ensures LogIs(Apply(m, OpBatch(m, op)), s, Log(ops + [op], s), Taken(ops + [op], s))
  {
    hide CounterIs, LogIs, Taken, Log, Apply, WellFormed, NextSeq;
    Unfold(ops, op, s);
    assert CounterIs(m, s, Taken(ops, s)) && LogIs(m, s, Log(ops, s), Taken(ops, s));
    match op
    case Count(t) =>
      assert CounterIs(m, t, Taken(ops, t));
      CountEffect(m, t, s, Taken(ops, t), Log(ops, s), Taken(ops, s));
    case Append(t, e) =>
      if s == t { LogBelow(ops, s, e.sn); }
      AppendEffect(m, t, e, s, Log(ops, s), Taken(ops, s));
    case Truncate(t) =>
      ApplyOne(m, DeleteRange(WALKeyStart(t), WALKeyEnd(t)));
      DropEffect(m, t, s, Log(ops, s), Taken(ops, s));
    case Seal(_, _, _, _) => SealEffect(m, op, s, Log(ops, s), Taken(ops, s));
    case Other(k, None) =>
      ApplyOne(m, Delete(Encode(k)));
      OtherEffect(m, k, [], s, Log(ops, s), Taken(ops, s));
    case Other(k, Some(v)) =>
      ApplyOne(m, Set(Encode(k), v));
      OtherEffect(m, k, v, s, Log(ops, s), Taken(ops, s));
  }

  lemma Unfold(ops: seq<Op>, op: Op, s: ShardID)
    ensures Taken(ops + [op], s) == Taken(ops, s) + if op == Count(s) then 1 else 0
    ensures Log(ops + [op], s) ==
      if op.Append? && op.shard == s then Log(ops, s) + [op.e] else if Drops(op, s) then [] else Log(ops, s)
  {
    assert (ops + [op])[..|ops|] == ops;
  }

  /** Numbers below every append's number are below the log's. */
  lemma LogBelow(ops: seq<Op>, s: ShardID, sn: int)
    requires Fresh(ops, s, sn)
    ensures Below(Log(ops, s), sn)
  {
    var at := LogExact(ops, s);
  }

  lemma OpWellFormed(m: Store, op: Op)
    requires WellFormed(m)
    ensures WellFormed(Apply(m, OpBatch(m, op)))
  {
    hide Apply, BE, NextSeq, EncodeBlockMeta;
    match op
    case Count(s) => ApplyOne(m, OpBatch(m, op)[0]); SetWellFormed(m, Seq(s), BE(NextSeq(m, s), 8));
    case Append(s, e) => ApplyOne(m, OpBatch(m, op)[0]); SetWellFormed(m, Wal(s, e.sn), e.data);
    case Truncate(s) => ApplyOne(m, OpBatch(m, op)[0]);
    case Seal(s, id, bm, hour) =>
      SealBatchEffect(m, s, id, bm, hour);
      var cut := m - RangeKeys(m, WALKeyStart(s), WALKeyEnd(s));
      SetWellFormed(cut, Block(id), EncodeBlockMeta(bm));
      SetWellFormed(cut[BlockKey(id) := EncodeBlockMeta(bm)], Expiry(hour, id), []);
    case Other(k, None) => ApplyOne(m, OpBatch(m, op)[0]);
    case Other(k, Some(v)) => ApplyOne(m, OpBatch(m, op)[0]); SetWellFormed(m, k, v);
  }

  /** Every history of legal commits with fresh numbers leaves each shard's log and counter in the store. */
  lemma {:induction false} ReplayIs(m0: Store, ops: seq<Op>)
    requires Clean(m0) && AllLegal(ops) && Numbered(ops)
    ensures StoreIs(Replay(m0, ops), ops)
  {
    hide Clean, CounterIs, LogIs, Taken, Log, Apply, WellFormed, Fresh, Legal;
    if ops == [] {
      CleanIs(m0);
    } else {
      var n := |ops| - 1;
      var init, op := ops[..n], ops[n];
      PrefixOk(ops, n);
      ReplayIs(m0, init);
      assert init + [op] == ops;
      var m := Replay(m0, init);
      OpWellFormed(m, op);
      forall s: ShardID
        ensures CounterIs(Apply(m, OpBatch(m, op)), s, Taken(ops, s))
        ensures LogIs(Apply(m, OpBatch(m, op)), s, Log(ops, s), Taken(ops, s))
      {
        OpEffect(m, init, op, s);
      }
    }
  }

  lemma PrefixOk(ops: seq<Op>, n: nat)
    requires n <= |ops|
    ensures AllLegal(ops) ==> AllLegal(ops[..n])
    ensures Numbered(ops) ==> Numbered(ops[..n])
  {
    hide Legal, Fresh;
    if Numbered(ops) {
      forall j | 0 <= j < n && ops[..n][j].Append? ensures Fresh(ops[..n][..j], ops[..n][j].shard, ops[..n][j].e.sn) {
        assert ops[..n][..j] == ops[..j];
      }
    }
  }

  // ----- the machine -----

  /** What the one writer of a shard waits for; idx is the position of its commit. */
  datatype Pc =
    | Taking(data: Bytes, sn: uint64, idx: nat)
    | Ready(data: Bytes, sn: uint64, idx: nat)
    | Putting(idx: nat)
    | Dropping(idx: nat)

  /**
   * The durable state and the writers. For the specification: every commit that entered the log and was not
   * lost in a crash, how many of them the oldest version holds, and which were acknowledged.
   */
  datatype State = State(d: Durable, pcs: map<ShardID, Pc>, ops: seq<Op>, base: nat, acked: set<nat>)

  /** A commit enters the log first and is acknowledged once synced; it may also fail, entered or not. */
  datatype Step =
    | Take(shard: ShardID, data: Bytes)
    | Put(shard: ShardID)
    | Drop(op: Op)
    | Write(key: Key, value: Option<Bytes>)
    | Ack(shard: ShardID)
    | Fail(shard: ShardID)
    | Flush(upto: nat)
    | Crash(after: Durable, keep: nat)

  ghost predicate Enabled(st: State, step: Step) {
    st.d.Valid() &&
    match step
    case Take(s, _) => s !in st.pcs
    case Put(s) => s in st.pcs && st.pcs[s].Ready?
    case Drop(op) => (op.Truncate? || op.Seal?) && op.shard !in st.pcs
    case Write(k, _) => !k.Wal? && !k.Seq?
    case Ack(s) => s in st.pcs && !st.pcs[s].Ready? && st.pcs[s].idx < st.base + st.d.synced
    case Fail(s) => s in st.pcs
    case Flush(upto) => st.d.synced <= upto < |st.d.log|
    case Crash(r, keep) =>
      && CrashesTo(st.d, r) && st.d.synced <= keep < |st.d.log| && r.log[0] == st.d.log[keep]
      && st.base + keep <= |st.ops|
  }

  function Entered(st: State, op: Op): State
    requires st.d.Valid()
  {
    st.(d := st.d.Committed(OpBatch(st.d.Current(), op)), ops := st.ops + [op])
  }

  ghost function Next(st: State, step: Step): State
    requires Enabled(st, step)
  {
    match step
    case Take(s, data) => Entered(st, Count(s)).(pcs := st.pcs[s := Taking(data, NextSeq(st.d.Current(), s), |st.ops|)])
    case Put(s) => Entered(st, Append(s, Entry(st.pcs[s].sn, st.pcs[s].data))).(pcs := st.pcs[s := Putting(|st.ops|)])
    case Drop(op) => Entered(st, op).(pcs := st.pcs[op.shard := Dropping(|st.ops|)])
    case Write(k, v) => Entered(st, Other(k, v))
    case Ack(s) => st.(acked := st.acked + {st.pcs[s].idx}, pcs := Acknowledged(st.pcs, s))
    case Fail(s) => st.(pcs := st.pcs - {s})
    case Flush(upto) => st.(d := st.d.(synced := upto))
    case Crash(r, keep) => State(r, map[], st.ops[..st.base + keep], st.base + keep, st.acked)
  }

  function Acknowledged(pcs: map<ShardID, Pc>, s: ShardID): map<ShardID, Pc>
    requires s in pcs
  {
    if pcs[s].Taking? then pcs[s := Ready(pcs[s].data, pcs[s].sn, pcs[s].idx)] else pcs - {s}
  }

  ghost predicate Init(st: State) {
    && |st.d.log| == 1 && st.d.synced == 0 && Clean(st.d.log[0])
    && st.pcs == map[] && st.ops == [] && st.base == 0 && st.acked == {}
  }

  ghost predicate IsRun(states: seq<State>, steps: seq<Step>) {
    && |states| == |steps| + 1
    && Init(states[0])
    && (forall i :: 0 <= i < |steps| ==> Enabled(states[i], steps[i]) && states[i + 1] == Next(states[i], steps[i]))
  }

  /** No shard runs out of 64-bit numbers in the first n steps. */
  ghost predicate FewTaken(states: seq<State>, n: nat)
    requires n < |states|
  {
    forall i :: 0 <= i <= n ==> Few(states[i].ops)
  }

  // ----- the invariant -----

  ghost predicate PcInv(ops: seq<Op>, acked: set<nat>, s: ShardID, pc: Pc) {
    && pc.idx < |ops|
    && match pc
       case Taking(_, sn, idx) => ops[idx] == Count(s) && Fresh(ops, s, sn)
       case Ready(_, sn, idx) => ops[idx] == Count(s) && Fresh(ops, s, sn) && idx in acked
       case Putting(idx) => ops[idx].Append? && ops[idx].shard == s
       case Dropping(idx) => Drops(ops[idx], s)
  }

  /** Version i of the log is the replay of a prefix of the commits. */
  ghost predicate Versions(m0: Store, d: Durable, ops: seq<Op>, base: nat) {
    && d.Valid() && |ops| == base + |d.log| - 1
    && forall i :: 0 <= i < |d.log| ==> d.log[i] == Replay(m0, ops[..base + i])
  }

  ghost predicate Inv(m0: Store, st: State) {
    && Versions(m0, st.d, st.ops, st.base)
    && AllLegal(st.ops) && Numbered(st.ops)
    && (forall j :: j in st.acked ==> j < st.base + st.d.synced)
    && (forall s :: s in st.pcs ==> PcInv(st.ops, st.acked, s, st.pcs[s]))
  }

  lemma EnterVersions(m0: Store, d: Durable, ops: seq<Op>, base: nat, op: Op)
    requires Versions(m0, d, ops, base)
    ensures Versions(m0, d.Committed(OpBatch(d.Current(), op)), ops + [op], base)
  {
    hide OpBatch, Apply;
    var d', ops' := d.Committed(OpBatch(d.Current(), op)), ops + [op];
    forall i | 0 <= i < |d'.log| ensures d'.log[i] == Replay(m0, ops'[..base + i]) {
      if i < |d.log| {
        assert ops'[..base + i] == ops[..base + i];
      } else {
        assert ops'[..base + i] == ops' && ops'[..|ops|] == ops && ops[..base + |d.log| - 1] == ops;
        assert Replay(m0, ops') == Apply(Replay(m0, ops), OpBatch(Replay(m0, ops), op));
      }
    }
  }

  lemma EnterNumbered(ops: seq<Op>, op: Op)
    requires AllLegal(ops) && Numbered(ops) && Legal(op) && (op.Append? ==> Fresh(ops, op.shard, op.e.sn))
    ensures AllLegal(ops + [op]) && Numbered(ops + [op])
  {
    hide Legal, Fresh;
    var ops' := ops + [op];
    forall j | 0 <= j < |ops'| && ops'[j].Append? ensures Fresh(ops'[..j], ops'[j].shard, ops'[j].e.sn) {
      if j < |ops| { assert ops'[..j] == ops[..j]; } else { assert ops'[..j] == ops; }
    }
  }

  /** A commit of another shard, or of no shard, leaves a writer's number fresh. */
  lemma PcKept(ops: seq<Op>, acked: set<nat>, s: ShardID, pc: Pc, op: Op)
    requires PcInv(ops, acked, s, pc) && op != Count(s) && !(op.Append? && op.shard == s)
    ensures PcInv(ops + [op], acked, s, pc)
  {
    hide Taken;
    Unfold(ops, op, s);
  }

  /** A commit enters and the shard t, if any, waits for it. */
  lemma EnterKeeps(m0: Store, st: State, op: Op)
    requires Inv(m0, st) && Legal(op) && (op.Append? ==> Fresh(st.ops, op.shard, op.e.sn))
    ensures var st' := Entered(st, op);
      && Versions(m0, st'.d, st'.ops, st'.base) && AllLegal(st'.ops) && Numbered(st'.ops)
      && (forall j :: j in st'.acked ==> j < st'.base + st'.d.synced)
      && (forall s :: s in st.pcs && (op.Other? || op.shard != s) ==> PcInv(st'.ops, st'.acked, s, st.pcs[s]))
  {
    hide PcInv, Versions, Legal, Fresh, OpBatch;
    EnterVersions(m0, st.d, st.ops, st.base, op);
    EnterNumbered(st.ops, op);
    forall s | s in st.pcs && (op.Other? || op.shard != s) ensures PcInv(st.ops + [op], st.acked, s, st.pcs[s]) {
      PcKept(st.ops, st.acked, s, st.pcs[s], op);
    }
  }

  /** The last version is the replay of all commits. */
  lemma CurrentIs(m0: Store, st: State)
    requires Inv(m0, st) && Clean(m0)
    ensures st.d.Valid() && StoreIs(st.d.Current(), st.ops)
  {
    hide StoreIs, Clean, PcInv;
    assert st.ops[..st.base + |st.d.log| - 1] == st.ops;
    ReplayIs(m0, st.ops);
  }

  /** The number read for a new entry is fresh once the counter's commit entered. */
  lemma TakeFresh(m0: Store, st: State, s: ShardID)
    requires Inv(m0, st) && Clean(m0) && Taken(st.ops, s) < TWO64
    ensures st.d.Valid() && NextSeq(st.d.Current(), s) == Taken(st.ops, s)
    ensures Fresh(st.ops + [Count(s)], s, NextSeq(st.d.Current(), s))
  {
    hide NextSeq, CounterIs, LogIs, Taken, Versions, PcInv, Clean;
    CurrentIs(m0, st);
    CounterNext(st.d.Current(), s, Taken(st.ops, s));
    Unfold(st.ops, Count(s), s);
    forall i | 0 <= i < |st.ops| && st.ops[i].Append? && st.ops[i].shard == s
      ensures st.ops[i].e.sn < Taken(st.ops, s)
    {
      TakenGrows(st.ops, s, i);
    }
  }

  lemma {:induction false} TakenGrows(ops: seq<Op>, s: ShardID, i: nat)
    requires i <= |ops|
    ensures Taken(ops[..i], s) <= Taken(ops, s)
    ensures i < |ops| && ops[i] == Count(s) ==> Taken(ops[..i], s) < Taken(ops, s)
  {
    if i < |ops| {
      var n := |ops| - 1;
      TakenGrows(ops[..n], s, i);
      assert ops[..n][..i] == ops[..i];
      if i == n { assert ops[..n] == ops[..i]; }
    } else {
      assert ops[..i] == ops;
    }
  }

  lemma CrashKeeps(m0: Store, st: State, r: Durable, keep: nat)
    requires Inv(m0, st) && Enabled(st, Crash(r, keep))
    ensures Inv(m0, Next(st, Crash(r, keep)))
  {
    hide PcInv, Legal, Fresh, Replay;
    var st' := Next(st, Crash(r, keep));
    PrefixOk(st.ops, st.base + keep);
    assert st'.ops[..st'.base + 0] == st.ops[..st.base + keep];
  }

  lemma StepKeeps(m0: Store, st: State, step: Step)
    requires Inv(m0, st) && Clean(m0) && Enabled(st, step) && Few(Next(st, step).ops)
    ensures Inv(m0, Next(st, step))
  {
    hide Versions, Taken, CrashesTo, OpBatch, Clean, Numbered, AllLegal, NextSeq;
    match step
    case Take(s, data) =>
      Unfold(st.ops, Count(s), s);
      assert Taken(Next(st, step).ops, s) <= TWO64;
      EnterKeeps(m0, st, Count(s));
      TakeFresh(m0, st, s);
    case Put(s) =>
      assert PcInv(st.ops, st.acked, s, st.pcs[s]);
      EnterKeeps(m0, st, Append(s, Entry(st.pcs[s].sn, st.pcs[s].data)));
    case Drop(op) => EnterKeeps(m0, st, op);
    case Write(k, v) => EnterKeeps(m0, st, Other(k, v));
    case Ack(s) => AckKeeps(m0, st, s);
    case Fail(s) =>
    case Flush(upto) => FlushKeeps(m0, st, upto);
    case Crash(r, keep) => CrashKeeps(m0, st, r, keep);
  }

  lemma AckKeeps(m0: Store, st: State, s: ShardID)
    requires Inv(m0, st) && Enabled(st, Ack(s))
    ensures Inv(m0, Next(st, Ack(s)))
  {
    hide Versions, Fresh, Numbered, AllLegal;
    assert PcInv(st.ops, st.acked, s, st.pcs[s]);
  }

  lemma FlushKeeps(m0: Store, st: State, upto: nat)
    requires Inv(m0, st) && Enabled(st, Flush(upto))
    ensures Inv(m0, Next(st, Flush(upto)))
  {
    hide PcInv, Numbered, AllLegal, Replay;
  }

  lemma InitInv(st: State)
    requires Init(st)
    ensures Inv(st.d.log[0], st)
  {
    assert st.ops[..0] == [];
  }

  lemma {:induction false} Reachable(states: seq<State>, steps: seq<Step>, n: nat)
    requires IsRun(states, steps) && n <= |steps| && FewTaken(states, n)
    ensures |states[0].d.log| == 1 && Clean(states[0].d.log[0]) && Inv(states[0].d.log[0], states[n])
  {
    hide Inv, Enabled, Next, Few, Clean;
    if n == 0 {
      InitInv(states[0]);
    } else {
      Reachable(states, steps, n - 1);
      assert Few(states[n].ops);
      StepKeeps(states[0].d.log[0], states[n - 1], steps[n - 1]);
    }
  }

  // ----- what this means -----

  /** The commits that version i holds. */
  function History(st: State, i: nat): seq<Op>
    requires st.base + i <= |st.ops|
  {
    st.ops[..st.base + i]
  }

  /**
   * However appends, truncations, seals and other writes interleave, fail, stay unsynced or are cut off by
   * crashes: every version of the store that a crash can bring back holds a prefix of the entered commits that
   * includes every acknowledged one, and scanning a shard in it returns that prefix's appends since the shard
   * was last truncated, in commit order, if and only if the shard is not the last one or has none.
   */
  lemma WALRefinesLogs(states: seq<State>, steps: seq<Step>, n: nat, i: nat, s: ShardID)
    requires IsRun(states, steps) && n <= |steps| && FewTaken(states, n) && states[n].d.synced <= i < |states[n].d.log|
    ensures var st := states[n];
      && st.base + i <= |st.ops| && (forall j :: j in st.acked ==> j < st.base + i)
      && (ScanValues(st.d.log[i], s) == Data(Log(History(st, i), s)) <==> s < 0xFFFF || Log(History(st, i), s) == [])
      && (s < 0xFFFF ==> (HasEntry(st.d.log[i], s) <==> Log(History(st, i), s) != []))
  {
    hide Enabled, Next, Few, Clean, PcInv, Init, Replay;
    Reachable(states, steps, n);
    var st := states[n];
    PrefixOk(st.ops, st.base + i);
    ReplayIs(states[0].d.log[0], History(st, i));
    ScanOf(st.d.log[i], History(st, i), s);
  }

  lemma ScanOf(m: Store, ops: seq<Op>, s: ShardID)
    requires StoreIs(m, ops)
    ensures ScanValues(m, s) == Data(Log(ops, s)) <==> s < 0xFFFF || Log(ops, s) == []
    ensures s < 0xFFFF ==> (HasEntry(m, s) <==> Log(ops, s) != [])
  {
    hide CounterIs, Taken, Log;
    var log := Log(ops, s);
    assert LogIs(m, s, log, Taken(ops, s));
    WellFormedRange(m, s);
    if s < 0xFFFF {
      ScanIsLog(m, s, log);
      if HasEntry(m, s) { var q: uint64 :| WALKey(s, q) in m; assert Logged(log, q); }
      if log != [] { assert WALKey(s, log[0].sn) in m; }
    } else {
      LastShardRangeEmpty(m);
    }
  }

  /** What was synced before a step is there after it. */
  lemma SyncedStays(m0: Store, st: State, step: Step)
    requires Inv(m0, st) && Enabled(st, step)
    ensures var st' := Next(st, step);
      && st.acked <= st'.acked && st.base + st.d.synced <= st'.base + st'.d.synced
      && st.base + st.d.synced <= |st.ops| && st.base + st.d.synced <= |st'.ops|
      && st'.ops[..st.base + st.d.synced] == st.ops[..st.base + st.d.synced]
  {
    hide PcInv, Numbered, AllLegal, Replay, OpBatch;
  }

  /** Nothing acknowledged is ever lost: it stays at its place in the history through every later step and crash. */
  lemma {:induction false} AcknowledgedStays(states: seq<State>, steps: seq<Step>, n: nat, k: nat)
    requires IsRun(states, steps) && n <= k <= |steps| && FewTaken(states, k)
    ensures states[n].acked <= states[k].acked
    ensures forall j :: j in states[n].acked ==>
      j < |states[n].ops| && j < |states[k].ops| && states[k].ops[..j + 1] == states[n].ops[..j + 1]
    decreases k
  {
    hide Enabled, Next, Few, Init;
    Reachable(states, steps, n);
    if n < k {
      AcknowledgedStays(states, steps, n, k - 1);
      Reachable(states, steps, k - 1);
      var st, st' := states[k - 1], states[k];
      SyncedStays(states[0].d.log[0], st, steps[k - 1]);
      forall j | j in states[n].acked ensures j < |st'.ops| && st'.ops[..j + 1] == states[n].ops[..j + 1] {
        var cut := st.base + st.d.synced;
        assert st'.ops[..cut][..j + 1] == st'.ops[..j + 1] && st.ops[..cut][..j + 1] == st.ops[..j + 1];
      }
    }
  }

  /** An acknowledged append that no commit has truncated is in every version a crash can bring back. */
  lemma AcknowledgedAppendSurvives(states: seq<State>, steps: seq<Step>, n: nat, i: nat, s: ShardID, j: nat)
    requires IsRun(states, steps) && n <= |steps| && FewTaken(states, n) && states[n].d.synced <= i < |states[n].d.log|
    requires j in states[n].acked && Alive(states[n].ops, s, j)
    ensures states[n].base + i <= |states[n].ops| && states[n].ops[j].e in Log(History(states[n], i), s)
  {
    hide Enabled, Next, Few, Init, Log;
    WALRefinesLogs(states, steps, n, i, s);
    var st := states[n];
    var ops := History(st, i);
    assert ops[j] == st.ops[j] && forall x :: j < x < |ops| ==> ops[x] == st.ops[x];
    var at := LogExact(ops, s);
    assert Alive(ops, s, j);
    var x :| 0 <= x < |at| && at[x] == j;
  }

  /** The number of the counter commit at position j: 0, 1, 2, ... in the order of the history. */
  function NumberAt(ops: seq<Op>, j: nat): nat
    requires j < |ops| && ops[j].Count?
  {
    Taken(ops[..j], ops[j].shard)
  }

  /** No acknowledged number is ever handed out again, whatever failed or crashed in between. */
  lemma NumbersNotReused(states: seq<State>, steps: seq<Step>, n: nat, k: nat, j: nat, s: ShardID)
    requires IsRun(states, steps) && n <= k <= |steps| && FewTaken(states, k)
    requires j in states[n].acked && j < |states[n].ops| && states[n].ops[j] == Count(s)
    requires Taken(states[k].ops, s) < TWO64
    ensures states[k].d.Valid()
    ensures NextSeq(states[k].d.Current(), s) == Taken(states[k].ops, s) > NumberAt(states[n].ops, j)
  {
    hide Enabled, Next, Few, Init, Inv, NextSeq, Taken;
    Reachable(states, steps, k);
    AcknowledgedStays(states, steps, n, k);
    var ops, ops' := states[n].ops, states[k].ops;
    assert ops'[..j + 1][..j] == ops'[..j] && ops[..j + 1][..j] == ops[..j] && ops'[..j + 1][j] == ops'[j];
    assert ops[..j + 1][j] == ops[j];
    TakenGrows(ops', s, j);
    TakeFresh(states[0].d.log[0], states[k], s);
  }

  /** The numbers of a shard's entries in any history are distinct and grow with the history. */
  lemma EntryNumbersGrow(states: seq<State>, steps: seq<Step>, n: nat, i: nat, j: nat)
    requires IsRun(states, steps) && n <= |steps| && FewTaken(states, n) && i < j < |states[n].ops|
    requires states[n].ops[i].Append? && states[n].ops[j].Append? && states[n].ops[i].shard == states[n].ops[j].shard
    ensures states[n].ops[i].e.sn < states[n].ops[j].e.sn
  {
    hide Enabled, Next, Few, Init, Versions, PcInv, Taken;
    Reachable(states, steps, n);
    var ops := states[n].ops;
    assert Fresh(ops[..j], ops[j].shard, ops[j].e.sn) && ops[..j][i] == ops[i];
  }

  // ----- what is not acknowledged may be lost, or not -----

  lemma Extend(states: seq<State>, steps: seq<Step>, step: Step)
    requires IsRun(states, steps) && Enabled(states[|steps|], step)
    ensures IsRun(states + [Next(states[|steps|], step)], steps + [step])
  {
    hide Enabled, Next, Init;
  }

  /** A run in which an append's number was acknowledged and its entry entered the log, but the append failed. */
  lemma AppendFails(m0: Store, s: ShardID, data: Bytes)
    returns (states: seq<State>, steps: seq<Step>, e: Entry, m1: Store, m2: Store)
    requires Clean(m0)
    ensures IsRun(states, steps) && |states| == |steps| + 1 && e.data == data
    ensures states[|steps|] == State(Durable(map[], [m0, m1, m2], 1), map[], [Count(s), Append(s, e)], 0, {0})
  {
    hide Clean, NextSeq, OpBatch, Apply, IsRun;
    var s0 := State(Durable(map[], [m0], 0), map[], [], 0, {});
    assert IsRun([s0], []) by { OneState(s0); }
    states, steps := [s0], [];
    m1 := Apply(m0, OpBatch(m0, Count(s)));
    var sn := NextSeq(m0, s);
    e := Entry(sn, data);
    m2 := Apply(m1, OpBatch(m1, Append(s, e)));
    states, steps := Then(states, steps, s0, Take(s, data));
    var s1 := State(Durable(map[], [m0, m1], 0), map[s := Taking(data, sn, 0)], [Count(s)], 0, {});
    assert states[|steps|] == s1;
    states, steps := Then(states, steps, s1, Flush(1));
    var s2 := s1.(d := Durable(map[], [m0, m1], 1));
    states, steps := Then(states, steps, s2, Ack(s));
    var s3 := s2.(pcs := map[s := Ready(data, sn, 0)], acked := {0});
    assert states[|steps|] == s3;
    states, steps := Then(states, steps, s3, Put(s));
    var s4 := State(Durable(map[], [m0, m1, m2], 1), map[s := Putting(1)], [Count(s), Append(s, e)], 0, {0});
    assert states[|steps|] == s4;
    states, steps := Then(states, steps, s4, Fail(s));
    assert s4.pcs - {s} == map[];
  }

  lemma OneState(st: State)
    requires Init(st)
    ensures IsRun([st], [])
  {}

  lemma Then(states: seq<State>, steps: seq<Step>, st: State, step: Step)
    returns (states': seq<State>, steps': seq<Step>)
    requires IsRun(states, steps) && states[|steps|] == st && Enabled(st, step)
    ensures IsRun(states', steps') && |states'| == |steps'| + 1 && states'[|steps'|] == Next(st, step)
  {
    hide Enabled, Next, Init;
    Extend(states, steps, step);
    states', steps' := states + [Next(st, step)], steps + [step];
  }

  /** After such a failure, one crash brings the entry back and another loses it. */
  lemma FailedAppendGoesEitherWay(m0: Store, s: ShardID, data: Bytes)
    returns (kept: seq<State>, lost: seq<State>, keptSteps: seq<Step>, lostSteps: seq<Step>)
    requires Clean(m0)
    ensures IsRun(kept, keptSteps) && |kept| == |keptSteps| + 1 && IsRun(lost, lostSteps) && |lost| == |lostSteps| + 1
    ensures |kept[|keptSteps|].ops| == 2 && kept[|keptSteps|].ops[1].Append? && kept[|keptSteps|].ops[1].e.data == data
    ensures Log(kept[|keptSteps|].ops, s) == [kept[|keptSteps|].ops[1].e] && Log(lost[|lostSteps|].ops, s) == []
  {
    hide IsRun, Clean;
    var states, steps, e, m1, m2 := AppendFails(m0, s, data);
    var st := State(Durable(map[], [m0, m1, m2], 1), map[], [Count(s), Append(s, e)], 0, {0});
    assert st.d.log[2] == m2 && st.d.log[1] == m1;
    kept, keptSteps := Then(states, steps, st, Crash(Durable(map[], [m2], 0), 2));
    lost, lostSteps := Then(states, steps, st, Crash(Durable(map[], [m1], 0), 1));
    assert st.ops[..0 + 2] == [Count(s), Append(s, e)] && st.ops[..0 + 1] == [Count(s)];
    Unfold([], Count(s), s);
    Unfold([Count(s)], Append(s, e), s);
    assert [] + [Count(s)] == [Count(s)] && [Count(s)] + [Append(s, e)] == [Count(s), Append(s, e)];
  }
}
