/** Byte strings in the order pebble sorts its keys, and the big-endian integers inside them. */
module Bytes {

  type byte = x: int | 0 <= x < 0x100
  type uint16 = x: int | 0 <= x < 0x1_0000
  type uint32 = x: int | 0 <= x < 0x1_0000_0000
  type uint64 = x: int | 0 <= x < 0x1_0000_0000_0000_0000
  type int64 = x: int | -0x8000_0000_0000_0000 <= x < 0x8000_0000_0000_0000
  type Bytes = seq<byte>

  const TWO64: int := 0x1_0000_0000_0000_0000

  /** Go's conversion uint64(x) of an int64: two's complement. */
  function ToUint64(x: int64): uint64 {
    if x < 0 then x + TWO64 else x
  }

  /** Go's conversion int64(x) of a uint64. */
  function ToInt64(x: uint64): int64 {
    if x < 0x8000_0000_0000_0000 then x else x - TWO64
  }

  // ----- lexicographic order -----

  /** bytes.Compare(a, b) < 0. */
  predicate Less(a: Bytes, b: Bytes) {
    b != [] && (a == [] || a[0] < b[0] || (a[0] == b[0] && Less(a[1..], b[1..])))
  }

  predicate LessEq(a: Bytes, b: Bytes) {
    a == b || Less(a, b)
  }

  lemma {:induction false} LessIrreflexive(a: Bytes)
    ensures !Less(a, a)
  {
    if a != [] { LessIrreflexive(a[1..]); }
  }

  lemma {:induction false} LessTransitive(a: Bytes, b: Bytes, c: Bytes)
    requires Less(a, b) && Less(b, c)
    ensures Less(a, c)
  {
    if a != [] && a[0] == b[0] && b[0] == c[0] { LessTransitive(a[1..], b[1..], c[1..]); }
  }

  lemma {:induction false} LessTotal(a: Bytes, b: Bytes)
    ensures Less(a, b) || a == b || Less(b, a)
  {
    if a != [] && b != [] && a[0] == b[0] {
      LessTotal(a[1..], b[1..]);
      assert a == [a[0]] + a[1..] && b == [b[0]] + b[1..];
    }
  }

  lemma LessAsymmetric(a: Bytes, b: Bytes)
    requires Less(a, b)
    ensures !Less(b, a) && a != b
  {
    LessIrreflexive(a);
    if Less(b, a) { LessTransitive(a, b, a); }
  }

  /** A common prefix does not change the order. */
  lemma {:induction false} LessPrefix(p: Bytes, a: Bytes, b: Bytes)
    ensures Less(p + a, p + b) <==> Less(a, b)
  {
    if p == [] {
      assert p + a == a && p + b == b;
    } else {
      assert (p + a)[1..] == p[1..] + a && (p + b)[1..] == p[1..] + b;
      LessPrefix(p[1..], a, b);
    }
  }

  /** Two different strings of equal length decide the order of all their extensions. */
  lemma {:induction false} LessExtend(a: Bytes, b: Bytes, x: Bytes, y: Bytes)
    requires |a| == |b| && a != b
    ensures Less(a + x, b + y) <==> Less(a, b)
  {
    assert (a + x)[1..] == a[1..] + x && (b + y)[1..] == b[1..] + y;
    if a[0] == b[0] {
      assert a == [a[0]] + a[1..] && b == [b[0]] + b[1..];
      LessExtend(a[1..], b[1..], x, y);
    }
  }

  lemma LessSplit(a: Bytes, b: Bytes, x: Bytes, y: Bytes)
    requires |a| == |b|
    ensures Less(a + x, b + y) <==> Less(a, b) || (a == b && Less(x, y))
  {
    if a == b {
      LessPrefix(a, x, y);
      LessIrreflexive(a);
    } else {
      LessExtend(a, b, x, y);
    }
  }

  // ----- big-endian integers -----

  function Pow256(w: nat): (p: nat)
    ensures p > 0
  {
    if w == 0 then 1 else 256 * Pow256(w - 1)
  }

  /** The low w bytes of v, most significant first (binary.BigEndian.PutUintN). */
  function BE(v: nat, w: nat): (b: Bytes)
    ensures |b| == w
  {
    if w == 0 then [] else BE(v / 256, w - 1) + [v % 256]
  }

  /** binary.BigEndian.UintN. */
  function FromBE(b: Bytes): nat {
    if b == [] then 0 else FromBE(b[..|b| - 1]) * 256 + b[|b| - 1]
  }

  lemma {:induction false} FromBEBound(b: Bytes)
    ensures FromBE(b) < Pow256(|b|)
  {
    if b != [] { FromBEBound(b[..|b| - 1]); }
  }

  lemma {:induction false} DecodeEncode(v: nat, w: nat)
    requires v < Pow256(w)
    ensures FromBE(BE(v, w)) == v
  {
    if w > 0 {
      DecodeEncode(v / 256, w - 1);
      assert BE(v, w)[..w - 1] == BE(v / 256, w - 1);
    }
  }

  lemma {:induction false} EncodeDecode(b: Bytes)
    ensures BE(FromBE(b), |b|) == b
  {
    if b != [] {
      EncodeDecode(b[..|b| - 1]);
      assert b == b[..|b| - 1] + [b[|b| - 1]];
    }
  }

  /** Equal-width big-endian strings sort like the numbers they encode. */
  lemma {:induction false} BEOrder(u: nat, v: nat, w: nat)
    requires u < Pow256(w) && v < Pow256(w)
    ensures Less(BE(u, w), BE(v, w)) <==> u < v
    ensures BE(u, w) == BE(v, w) <==> u == v
  {
    DecodeEncode(u, w);
    DecodeEncode(v, w);
    if w > 0 {
      BEOrder(u / 256, v / 256, w - 1);
      LessSplit(BE(u / 256, w - 1), BE(v / 256, w - 1), [u % 256], [v % 256]);
    }
  }

  lemma PowValues()
    ensures Pow256(1) == 0x100 && Pow256(2) == 0x1_0000 && Pow256(4) == 0x1_0000_0000
    ensures Pow256(8) == TWO64
  {
    assert Pow256(3) == 0x100_0000;
    assert Pow256(5) == 0x100_0000_0000;
    assert Pow256(6) == 0x1_0000_0000_0000;
    assert Pow256(7) == 0x100_0000_0000_0000;
  }

  function Get16(b: Bytes): uint16
    requires |b| == 2
  {
    FromBEBound(b); PowValues(); FromBE(b)
  }

  function Get32(b: Bytes): uint32
    requires |b| == 4
  {
    FromBEBound(b); PowValues(); FromBE(b)
  }

  function Get64(b: Bytes): uint64
    requires |b| == 8
  {
    FromBEBound(b); PowValues(); FromBE(b)
  }

  lemma Order16(u: uint16, v: uint16)
    ensures Less(BE(u, 2), BE(v, 2)) <==> u < v
    ensures BE(u, 2) == BE(v, 2) <==> u == v
    ensures Get16(BE(u, 2)) == u
  {
    PowValues(); BEOrder(u, v, 2); DecodeEncode(u, 2);
  }

  lemma Order64(u: uint64, v: uint64)
    ensures Less(BE(u, 8), BE(v, 8)) <==> u < v
    ensures BE(u, 8) == BE(v, 8) <==> u == v
    ensures Get64(BE(u, 8)) == u
  {
    PowValues(); BEOrder(u, v, 8); DecodeEncode(u, 8);
  }

  lemma RoundTrip32(u: uint32)
    ensures Get32(BE(u, 4)) == u
  {
    PowValues(); DecodeEncode(u, 4);
  }

  lemma SignedRoundTrip(x: int64)
    ensures ToInt64(ToUint64(x)) == x
  {}

  /** A wrapped counter counts on. */
  lemma Successor(n: nat)
    ensures (n % TWO64 + 1) % TWO64 == (n + 1) % TWO64
  {}
}
