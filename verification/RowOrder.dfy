/** The (KeyHash, Timestamp) order of rows and facts about permuting them. */
module RowOrder {
  import opened Format

  predicate RowLess(a: Event, b: Event) {
    if a.keyHash != b.keyHash then a.keyHash < b.keyHash else a.timestamp < b.timestamp
  }

  predicate RowLeq(a: Event, b: Event) {
    !RowLess(b, a)
  }

  predicate Sorted(rows: seq<Event>) {
    forall i, j :: 0 <= i < j < |rows| ==> RowLeq(rows[i], rows[j])
  }

  /** A subsequence cut out of a sequence leaves the rest of its multiset. */
  lemma RemoveAt<T>(s: seq<T>, k: nat)
    requires k < |s|
    ensures multiset(s[..k] + s[k + 1..]) == multiset(s) - multiset{s[k]}
  {
    assert s == s[..k] + [s[k]] + s[k + 1..];
  }

  lemma LastAsMultiset<T>(s: seq<T>)
    requires s != []
    ensures multiset(s[..|s| - 1]) == multiset(s) - multiset{s[|s| - 1]}
  {
    assert s == s[..|s| - 1] + [s[|s| - 1]];
  }

  function Pick(rows: seq<Event>, idx: seq<nat>): (r: seq<Event>)
    requires forall i :: 0 <= i < |idx| ==> idx[i] < |rows|
    ensures |r| == |idx|
  {
    seq(|idx|, i requires 0 <= i < |idx| => rows[idx[i]])
  }

  lemma PickRemove(rows: seq<Event>, b: seq<nat>, k: nat)
    requires k < |b| && forall i :: 0 <= i < |b| ==> b[i] < |rows|
    ensures multiset(Pick(rows, b)) == multiset(Pick(rows, b[..k] + b[k + 1..])) + multiset{rows[b[k]]}
  {
    var p := Pick(rows, b);
    RemoveAt(p, k);
    assert p[..k] + p[k + 1..] == Pick(rows, b[..k] + b[k + 1..]);
    assert p[k] in multiset(p);
  }

  /** Picking the same indices in another order picks the same rows. */
  lemma {:induction false} PickMultiset(rows: seq<Event>, a: seq<nat>, b: seq<nat>)
    requires multiset(a) == multiset(b)
    requires forall i :: 0 <= i < |a| ==> a[i] < |rows|
    requires forall i :: 0 <= i < |b| ==> b[i] < |rows|
    ensures multiset(Pick(rows, a)) == multiset(Pick(rows, b))
  {
    assert |a| == |multiset(a)| && |b| == |multiset(b)|;
    if a != [] {
      assert a[0] in multiset(b);
      var k :| 0 <= k < |b| && b[k] == a[0];
      RemoveAt(b, k);
      RemoveAt(a, 0);
      PickRemove(rows, a, 0);
      PickRemove(rows, b, k);
      PickMultiset(rows, a[..0] + a[1..], b[..k] + b[k + 1..]);
    }
  }
}
