/**
 * What survives a crash: pebble as a sorted byte map with a commit log, and the files of the tiers.
 *
 * A commit appends one version of the whole map; a crash keeps some version at or after the last
 * synced one. A file survives a crash with its contents once it was fsynced, and a completed
 * rename or removal survives; a file written but not fsynced may come back with any contents or not at all.
 */
module Storage {
  import opened Bytes
  import opened Results
  import opened Keys

  type Store = map<Bytes, Bytes>

  // ----- ordered iteration -----

  predicate Ascending(ks: seq<Bytes>) {
    forall i, j :: 0 <= i < j < |ks| ==> Less(ks[i], ks[j])
  }

  ghost predicate Least(k: Bytes, s: set<Bytes>) {
    k in s && forall j :: j in s ==> LessEq(k, j)
  }

  lemma {:induction false} LeastExists(s: set<Bytes>)
    requires s != {}
    ensures exists k :: Least(k, s)
    decreases |s|
  {
    var x :| x in s;
    var t := s - {x};
    if t == {} {
      assert s == {x};
      assert Least(x, s);
    } else {
      LeastExists(t);
      var y :| Least(y, t);
      LessTotal(x, y);
      assert s == t + {x};
      if Less(x, y) {
        forall j | j in t ensures LessEq(x, j) { if y != j { LessTransitive(x, y, j); } }
        assert Least(x, s);
      } else {
        assert Least(y, s);
      }
    }
  }

  ghost function Min(s: set<Bytes>): (k: Bytes)
    requires s != {}
    ensures Least(k, s)
  {
    LeastExists(s);
    var k :| Least(k, s);
    k
  }

  /** The keys of a set in iterator order. */
  function SortKeys(s: set<Bytes>): (ks: seq<Bytes>)
    ensures Ascending(ks)
    ensures forall k :: k in ks <==> k in s
    decreases |s|
  {
    if s == {} then []
    else
      assert exists k :: k in s && forall j :: j in s ==> LessEq(k, j) by { var m := Min(s); assert Least(m, s); }
      assert forall k, j :: LessEq(k, j) && LessEq(j, k) ==> k == j by {
        forall k, j | LessEq(k, j) && LessEq(j, k) ensures k == j { if k != j { LessAsymmetric(k, j); } }
      }
      var k :| k in s && forall j :: j in s ==> LessEq(k, j);
      var rest := SortKeys(s - {k});
      assert forall j :: j in s - {k} ==> Less(k, j);
      [k] + rest
  }

  function RangeKeys(m: Store, lo: Bytes, hi: Bytes): set<Bytes> {
    set k | k in m && InRange(k, lo, hi)
  }

  /** The keys an iterator with these bounds visits, in the order it visits them. */
  function Scan(m: Store, lo: Bytes, hi: Bytes): (ks: seq<Bytes>)
    ensures Ascending(ks)
    ensures forall k :: k in ks <==> k in m && InRange(k, lo, hi)
  {
    SortKeys(RangeKeys(m, lo, hi))
  }

  /** An ascending sequence is determined by its set of elements. */
  lemma {:induction false} AscendingUnique(a: seq<Bytes>, b: seq<Bytes>)
    requires Ascending(a) && Ascending(b)
    requires forall k :: k in a <==> k in b
    ensures a == b
  {
    assert a == [] || a[0] in b;
    assert b == [] || b[0] in a;
    if a != [] {
      var i :| 0 <= i < |b| && b[i] == a[0];
      var j :| 0 <= j < |a| && a[j] == b[0];
      if i > 0 && j > 0 { LessAsymmetric(a[0], b[0]); }
      assert a[0] == b[0];
      LessIrreflexive(a[0]);
      forall k ensures k in a[1..] <==> k in b[1..] {
        assert k in a <==> k == a[0] || k in a[1..];
        assert k in b <==> k == b[0] || k in b[1..];
        if k in a[1..] { assert Less(a[0], k); }
        if k in b[1..] { assert Less(b[0], k); }
      }
      AscendingUnique(a[1..], b[1..]);
      assert a == [a[0]] + a[1..] && b == [b[0]] + b[1..];
    }
  }

  // ----- batches -----

  datatype BatchOp =
    | Set(key: Bytes, value: Bytes)
    | Delete(key: Bytes)
    | DeleteRange(lo: Bytes, hi: Bytes)

  function ApplyOp(m: Store, op: BatchOp): Store {
    match op
    case Set(k, v) => m[k := v]
    case Delete(k) => m - {k}
    case DeleteRange(lo, hi) => m - RangeKeys(m, lo, hi)
  }

  function Apply(m: Store, batch: seq<BatchOp>): Store {
    if batch == [] then m else ApplyOp(Apply(m, batch[..|batch| - 1]), batch[|batch| - 1])
  }

  // ----- durable state -----

  type Tier = byte

  const TIER_HOT: Tier := 0

  datatype Path =
    | TmpPath(id: BlockID)
    | BlockPath(tier: Tier, id: BlockID)
    | BloomPath(tier: Tier, id: BlockID)

  datatype File = File(data: Bytes, durable: bool)

  type Files = map<Path, File>

  datatype Durable = Durable(files: Files, log: seq<Store>, synced: nat)
  {
    predicate Valid() {
      synced < |log|
    }

    function Current(): Store
      requires Valid()
    {
      log[|log| - 1]
    }

    function PutFile(p: Path, f: File): Durable {
      this.(files := files[p := f])
    }

    function DropFile(p: Path): Durable {
      this.(files := files - {p})
    }

    function Renamed(src: Path, dst: Path): Durable
      requires src in files
    {
      this.(files := (files - {src})[dst := files[src]])
    }

    function Committed(batch: seq<BatchOp>): Durable
      requires Valid()
    {
      this.(log := log + [Apply(Current(), batch)])
    }

    function Synced(): Durable
      requires Valid()
    {
      this.(synced := |log| - 1)
    }

    predicate HasDurable(p: Path, data: Bytes) {
      p in files && files[p] == File(data, true)
    }
  }

  /** r is a state in which the machine may come back after losing power in state d. */
  ghost predicate CrashesTo(d: Durable, r: Durable) {
    && d.Valid()
    && |r.log| == 1 && r.synced == 0
    && (exists i :: d.synced <= i < |d.log| && r.log[0] == d.log[i])
    && (forall p :: p in r.files ==> p in d.files && r.files[p].durable)
    && (forall p :: p in d.files && d.files[p].durable ==> p in r.files && r.files[p] == d.files[p])
  }

  ghost function Fault(ok: bool): nat {
    if ok then 0 else 1
  }

  /**
   * The machine. Every operation may fail; faults counts the failures, and history lists each state in which
   * power could be lost.
   */
  class Disk {
    var d: Durable
    ghost var history: seq<Durable>
    ghost var faults: nat

    ghost predicate Valid()
      reads this
    {
      d.Valid()
    }

    constructor (initial: Durable)
      requires initial.Valid()
      ensures Valid() && d == initial && history == [initial] && faults == 0
    {
      d := initial;
      history := [initial];
      faults := 0;
    }

    /** What other actors did meanwhile. */
    method Become(next: Durable)
      requires next.Valid()
      modifies this
      ensures Valid() && d == next && history == old(history) + [d] && faults == old(faults)
    {
      d := next;
      history := history + [d];
    }

    /** os.Create */
    method Create(p: Path) returns (ok: bool)
      requires Valid()
      modifies this
      ensures Valid() && history == old(history) + [d] && faults == old(faults) + Fault(ok)
      ensures d == if ok then old(d).PutFile(p, File([], false)) else old(d)
    {
      ok := *;
      if ok { d := d.PutFile(p, File([], false)); }
      history := history + [d];
      faults := faults + Fault(ok);
    }

    /** os.File.Write; a failed write may leave any contents. */
    method Write(p: Path, data: Bytes) returns (ok: bool)
      requires Valid() && p in d.files
      modifies this
      ensures Valid() && history == old(history) + [d] && faults == old(faults) + Fault(ok)
      ensures p in d.files && !d.files[p].durable && d == old(d).PutFile(p, d.files[p])
      ensures ok ==> d.files[p].data == old(d.files[p].data) + data
    {
      ok := *;
      var partial: Bytes := *;
      d := d.PutFile(p, File(if ok then d.files[p].data + data else partial, false));
      history := history + [d];
      faults := faults + Fault(ok);
    }

    /** os.File.Sync */
    method Fsync(p: Path) returns (ok: bool)
      requires Valid() && p in d.files
      modifies this
      ensures Valid() && history == old(history) + [d] && faults == old(faults) + Fault(ok)
      ensures d == if ok then old(d).PutFile(p, File(old(d).files[p].data, true)) else old(d)
    {
      ok := *;
      if ok { d := d.PutFile(p, File(d.files[p].data, true)); }
      history := history + [d];
      faults := faults + Fault(ok);
    }

    /** os.Rename: atomic, replaces any file at the destination. */
    method Rename(src: Path, dst: Path) returns (ok: bool)
      requires Valid()
      modifies this
      ensures Valid() && history == old(history) + [d] && faults == old(faults) + Fault(ok)
      ensures ok ==> src in old(d).files && d == old(d).Renamed(src, dst)
      ensures !ok ==> d == old(d)
    {
      ok := *;
      ok := ok && src in d.files;
      if ok { d := d.Renamed(src, dst); }
      history := history + [d];
      faults := faults + Fault(ok);
    }

    /** os.Remove with a missing file counted as success. */
    method Remove(p: Path) returns (ok: bool)
      requires Valid()
      modifies this
      ensures Valid() && history == old(history) + [d] && faults == old(faults) + Fault(ok)
      ensures d == if ok then old(d).DropFile(p) else old(d)
    {
      ok := *;
      if ok { d := d.DropFile(p); }
      history := history + [d];
      faults := faults + Fault(ok);
    }

    /** os.ReadFile: None stands for a missing file. */
    method ReadFile(p: Path) returns (r: Result<Option<Bytes>>)
      requires Valid()
      modifies `faults
      ensures Valid() && faults == old(faults) + Fault(r.Ok?)
      ensures r.Ok? ==> r.value == if p in d.files then Some(d.files[p].data) else None
    {
      var ok: bool := *;
      faults := faults + Fault(ok);
      if !ok { return Err("read failed"); }
      r := Ok(if p in d.files then Some(d.files[p].data) else None);
    }

    /** Creating a directory, asking whether a file exists, closing an iterator: succeed or fail without a trace. */
    method Attempt() returns (ok: bool)
      requires Valid()
      modifies `faults
      ensures Valid() && faults == old(faults) + Fault(ok)
    {
      ok := *;
      faults := faults + Fault(ok);
    }

    /** pebble's Get: None stands for a missing key. */
    method Get(key: Bytes) returns (r: Result<Option<Bytes>>)
      requires Valid()
      modifies `faults
      ensures Valid() && faults == old(faults) + Fault(r.Ok?)
      ensures r.Ok? ==> r.value == if key in d.Current() then Some(d.Current()[key]) else None
    {
      var ok: bool := *;
      faults := faults + Fault(ok);
      if !ok { return Err("get failed"); }
      r := Ok(if key in d.Current() then Some(d.Current()[key]) else None);
    }

    /**
     * pebble's Batch.Commit. The batch enters the log before it is synced, so power can be lost
     * between the two; a failed commit may or may not have entered the log.
     */
    method Commit(batch: seq<BatchOp>, sync: bool) returns (ok: bool)
      requires Valid()
      modifies this
      ensures Valid() && faults == old(faults) + Fault(ok)
      ensures ok ==> d == if sync then old(d).Committed(batch).Synced() else old(d).Committed(batch)
      ensures !ok ==> d == old(d) || d == old(d).Committed(batch)
      ensures exists mid :: history == old(history) + [mid, d] && (mid == old(d) || mid == old(d).Committed(batch))
    {
      ok := *;
      var entered: bool := *;
      ghost var before, hist := d, history;
      if ok || entered { d := d.Committed(batch); }
      ghost var mid := d;
      if ok && sync { d := d.Synced(); }
      history := history + [mid, d];
      faults := faults + Fault(ok);
      assert history == hist + [mid, d];
    }
  }
}
