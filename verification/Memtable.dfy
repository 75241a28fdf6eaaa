/** The in-memory columnar buffer of one shard. */
module Memtables {
  import opened Bytes
  import opened Format
  import opened BlockFile
  import opened RowOrder

  function RowSize(e: Event): nat {
    16 + |e.payload|
  }

  function RowBytes(rows: seq<Event>): nat {
    if rows == [] then 0 else RowBytes(rows[..|rows| - 1]) + RowSize(rows[|rows| - 1])
  }

  function PayloadBytes(rows: seq<Event>): nat {
    if rows == [] then 0 else |rows[0].payload| + PayloadBytes(rows[1..])
  }

  lemma {:induction false} PayloadAppend(rows: seq<Event>, e: Event)
    ensures PayloadBytes(rows + [e]) == PayloadBytes(rows) + |e.payload|
  {
    if rows != [] {
      PayloadAppend(rows[1..], e);
      assert (rows + [e])[1..] == rows[1..] + [e];
    }
  }

  /** The estimate counts sixteen bytes for each row and all payload bytes. */
  lemma {:induction false} RowBytesExact(rows: seq<Event>)
    ensures RowBytes(rows) == 16 * |rows| + PayloadBytes(rows)
  {
    if rows != [] {
      var n := |rows| - 1;
      RowBytesExact(rows[..n]);
      PayloadAppend(rows[..n], rows[n]);
      assert rows == rows[..n] + [rows[n]];
    }
  }

  lemma {:induction false} RowBytesRemove(rows: seq<Event>, k: nat)
    requires k < |rows|
    ensures RowBytes(rows) == RowBytes(rows[..k] + rows[k + 1..]) + RowSize(rows[k])
  {
    var n := |rows| - 1;
    var cut := rows[..k] + rows[k + 1..];
    if k == n {
      assert cut == rows[..n];
    } else {
      RowBytesRemove(rows[..n], k);
      assert cut[..|cut| - 1] == rows[..n][..k] + rows[..n][k + 1..];
    }
  }

  /** The byte estimate does not depend on row order. */
  lemma {:induction false} RowBytesPermuted(a: seq<Event>, b: seq<Event>)
    requires multiset(a) == multiset(b)
    ensures RowBytes(a) == RowBytes(b)
  {
    if a == [] {
      assert |multiset(b)| == 0;
      assert b == [];
    } else {
      var n := |a| - 1;
      assert a[n] in multiset(b);
      var k :| 0 <= k < |b| && b[k] == a[n];
      RemoveAt(b, k);
      LastAsMultiset(a);
      RowBytesPermuted(a[..n], b[..k] + b[k + 1..]);
      RowBytesRemove(b, k);
    }
  }

  /** Zips three columns of equal length into rows. */
  function Zip(khs: seq<uint64>, tss: seq<int64>, pls: seq<Bytes>): (rows: seq<Event>)
    requires |khs| == |tss| == |pls|
    ensures |rows| == |khs|
    ensures KeyHashes(rows) == khs && Timestamps(rows) == tss && Payloads(rows) == pls
  {
    seq(|khs|, i requires 0 <= i < |khs| => Event(khs[i], tss[i], pls[i]))
  }

  /** The comparison sort.Slice is given. */
  predicate IndexLess(khs: seq<uint64>, tss: seq<int64>, a: nat, b: nat)
    requires |khs| == |tss| && a < |khs| && b < |khs|
  {
    if khs[a] != khs[b] then khs[a] < khs[b] else tss[a] < tss[b]
  }

  predicate IndexSorted(khs: seq<uint64>, tss: seq<int64>, idx: seq<nat>)
    requires |khs| == |tss| && InBounds(idx, |khs|)
  {
    forall i, j :: 0 <= i < j < |idx| ==> !IndexLess(khs, tss, idx[j], idx[i])
  }

  function Upto(n: nat): (r: seq<nat>)
    ensures |r| == n && forall i :: 0 <= i < n ==> r[i] == i
  {
    seq(n, i => i)
  }

  predicate InBounds(idx: seq<nat>, n: nat) {
    forall i :: 0 <= i < |idx| ==> idx[i] < n
  }

  /** sort.Slice: some ordering of the same indices; which of equal rows comes first is not promised. */
  method SortSlice(khs: seq<uint64>, tss: seq<int64>, given: seq<nat>) returns (idx: seq<nat>)
    requires |khs| == |tss| && InBounds(given, |khs|)
    ensures multiset(idx) == multiset(given) && |idx| == |given|
    ensures InBounds(idx, |khs|) && IndexSorted(khs, tss, idx)
  {
    idx := [];
    for n := 0 to |given|
      invariant |idx| == n && multiset(idx) == multiset(given[..n])
      invariant InBounds(idx, |khs|) && IndexSorted(khs, tss, idx)
    {
      assert given[..n + 1] == given[..n] + [given[n]];
      idx := Insert(khs, tss, idx, given[n]);
    }
    assert given[..|given|] == given;
  }

  method Insert(khs: seq<uint64>, tss: seq<int64>, idx: seq<nat>, x: nat) returns (r: seq<nat>)
    requires |khs| == |tss| && x < |khs| && InBounds(idx, |khs|) && IndexSorted(khs, tss, idx)
    ensures multiset(r) == multiset(idx) + multiset{x} && |r| == |idx| + 1
    ensures InBounds(r, |khs|) && IndexSorted(khs, tss, r)
  {
    hide IndexSorted;
    var p := |idx|;
    while p > 0 && IndexLess(khs, tss, x, idx[p - 1])
      invariant 0 <= p <= |idx|
      invariant forall i :: p <= i < |idx| ==> IndexLess(khs, tss, x, idx[i])
    {
      p := p - 1;
    }
    InsertSorted(khs, tss, idx, p, x);
    r := idx[..p] + [x] + idx[p..];
    assert idx == idx[..p] + idx[p..];
  }

  lemma InsertSorted(khs: seq<uint64>, tss: seq<int64>, idx: seq<nat>, p: nat, x: nat)
    requires |khs| == |tss| && x < |khs| && InBounds(idx, |khs|)
    requires IndexSorted(khs, tss, idx) && p <= |idx|
    requires forall i :: p <= i < |idx| ==> IndexLess(khs, tss, x, idx[i])
    requires p > 0 ==> !IndexLess(khs, tss, x, idx[p - 1])
    ensures IndexSorted(khs, tss, idx[..p] + [x] + idx[p..])
  {
    forall i | 0 <= i < p ensures !IndexLess(khs, tss, x, idx[i]) {
      if i < p - 1 { assert !IndexLess(khs, tss, idx[p - 1], idx[i]); }
    }
  }

  class Memtable {
    var keyHashes: seq<uint64>
    var timestamps: seq<int64>
    var payloads: seq<Bytes>
    var approxBytes: int

    ghost predicate Valid()
      reads this
    {
      |keyHashes| == |timestamps| == |payloads| && approxBytes == RowBytes(Rows())
    }

    function Rows(): (rows: seq<Event>)
      reads this
      requires |keyHashes| == |timestamps| == |payloads|
      ensures |rows| == |keyHashes|
      ensures KeyHashes(rows) == keyHashes && Timestamps(rows) == timestamps && Payloads(rows) == payloads
    {
      Zip(keyHashes, timestamps, payloads)
    }

    constructor ()
      ensures Valid() && Rows() == []
    {
      keyHashes, timestamps, payloads, approxBytes := [], [], [], 0;
    }

    method Append(e: Event)
      requires Valid()
      modifies this
      ensures Valid() && Rows() == old(Rows()) + [e]
      ensures approxBytes == 16 * |Rows()| + PayloadBytes(Rows())
    {
      ghost var before := Rows();
      keyHashes := keyHashes + [e.keyHash];
      timestamps := timestamps + [e.timestamp];
      payloads := payloads + [e.payload];
      approxBytes := approxBytes + 8 + 8 + |e.payload|;
      assert Rows() == before + [e];
      assert Rows()[..|before|] == before;
      RowBytesExact(Rows());
    }

    /** One permutation moves all three columns; the rows come out ordered and none is gained or lost. */
    method Sort()
      requires Valid()
      modifies this
      ensures Valid() && Sorted(Rows()) && multiset(Rows()) == multiset(old(Rows()))
      ensures forall i, j :: 0 <= i < j < |keyHashes| ==>
        keyHashes[i] < keyHashes[j] || (keyHashes[i] == keyHashes[j] && timestamps[i] <= timestamps[j])
      ensures approxBytes == old(approxBytes)
    {
      ghost var before := Rows();
      var n := |keyHashes|;
      var idx := SortSlice(keyHashes, timestamps, Upto(n));
      var newKH: seq<uint64> := [];
      var newTS: seq<int64> := [];
      var newPL: seq<Bytes> := [];
      for i := 0 to n
        invariant |newKH| == |newTS| == |newPL| == i
        invariant forall j :: 0 <= j < i ==>
          newKH[j] == keyHashes[idx[j]] && newTS[j] == timestamps[idx[j]] && newPL[j] == payloads[idx[j]]
        invariant Rows() == before && approxBytes == old(approxBytes) && n == |keyHashes| == |timestamps| == |payloads|
      {
        newKH := newKH + [keyHashes[idx[i]]];
        newTS := newTS + [timestamps[idx[i]]];
        newPL := newPL + [payloads[idx[i]]];
      }
      SortedByIndex(keyHashes, timestamps, payloads, idx, newKH, newTS, newPL);
      keyHashes, timestamps, payloads := newKH, newTS, newPL;
      RowBytesPermuted(Rows(), before);
      ColumnsOrdered(Rows());
    }

    /** The distinct key hashes, in no particular order. */
    method UniqueKeyHashes() returns (out: seq<uint64>)
      requires Valid()
      ensures forall h :: h in out <==> h in KeyHashes(Rows())
      ensures forall i, j :: 0 <= i < j < |out| ==> out[i] != out[j]
    {
      var seen: set<uint64> := {};
      for i := 0 to |keyHashes|
        invariant forall h :: h in seen <==> h in keyHashes[..i]
      {
        assert keyHashes[..i + 1] == keyHashes[..i] + [keyHashes[i]];
        seen := seen + {keyHashes[i]};
      }
      assert keyHashes[..|keyHashes|] == keyHashes;
      out := [];
      var left := seen;
      while left != {}
        invariant left <= seen
        invariant forall h :: h in out <==> h in seen - left
        invariant forall i, j :: 0 <= i < j < |out| ==> out[i] != out[j]
        decreases left
      {
        var h :| h in left;
        left := left - {h};
        out := out + [h];
      }
    }

    method Reset()
      modifies this
      ensures Valid() && Rows() == []
    {
      keyHashes, timestamps, payloads, approxBytes := [], [], [], 0;
    }
  }

  lemma ColumnsOrdered(rows: seq<Event>)
    requires Sorted(rows)
    ensures var khs, tss := KeyHashes(rows), Timestamps(rows);
      forall i, j :: 0 <= i < j < |rows| ==> khs[i] < khs[j] || (khs[i] == khs[j] && tss[i] <= tss[j])
  {
    forall i, j | 0 <= i < j < |rows|
      ensures rows[i].keyHash < rows[j].keyHash
        || (rows[i].keyHash == rows[j].keyHash && rows[i].timestamp <= rows[j].timestamp)
    {
      assert RowLeq(rows[i], rows[j]);
    }
  }

  lemma SortedByIndex(khs: seq<uint64>, tss: seq<int64>, pls: seq<Bytes>, idx: seq<nat>,
                      khs': seq<uint64>, tss': seq<int64>, pls': seq<Bytes>)
    requires |khs| == |tss| == |pls| == |idx| == |khs'| == |tss'| == |pls'|
    requires multiset(idx) == multiset(Upto(|khs|)) && forall i :: 0 <= i < |idx| ==> idx[i] < |khs|
    requires IndexSorted(khs, tss, idx)
    requires forall j :: 0 <= j < |idx| ==> khs'[j] == khs[idx[j]] && tss'[j] == tss[idx[j]] && pls'[j] == pls[idx[j]]
    ensures Sorted(Zip(khs', tss', pls')) && multiset(Zip(khs', tss', pls')) == multiset(Zip(khs, tss, pls))
  {
    var rows := Zip(khs, tss, pls);
    PickMultiset(rows, idx, Upto(|khs|));
    assert Pick(rows, Upto(|khs|)) == rows;
    assert Zip(khs', tss', pls') == Pick(rows, idx);
    var out := Zip(khs', tss', pls');
    forall i, j | 0 <= i < j < |out| ensures RowLeq(out[i], out[j]) {
      assert !IndexLess(khs, tss, idx[j], idx[i]);
    }
  }
}
