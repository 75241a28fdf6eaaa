/** The block file: 64-byte header, three compressed columns, 56-byte footer. */
module Format {
  import opened Bytes
  import opened Results

  datatype Event = Event(keyHash: uint64, timestamp: int64, payload: Bytes)

  /** zstd and CRC-32, which this model leaves abstract. */
  datatype Codec = Codec(compress: Bytes -> Bytes, decompress: Bytes -> Result<Bytes>, crc: Bytes -> uint32)
  {
    /** The one law assumed of compression. */
    ghost predicate Inverts() {
      forall raw :: decompress(compress(raw)) == Ok(raw)
    }
  }

  const HEADER_SIZE: nat := 64
  const FOOTER_SIZE: nat := 56
  const MAGIC_BBDB: Bytes := [0x42, 0x42, 0x44, 0x42]
  const MAGIC_TBBD: Bytes := [0x54, 0x42, 0x42, 0x44]
  const VERSION: byte := 1

  // ----- header -----

  datatype BlockHeader = BlockHeader(shard: uint16, eventType: byte, openedAt: int64, sealedAt: int64, rowCount: uint64)

  /** The first 60 bytes, which the header checksum covers. */
  function HeaderBody(h: BlockHeader): (b: Bytes)
    ensures |b| == 60
  {
    MAGIC_BBDB + [VERSION] + BE(h.shard, 2) + [h.eventType] + BE(ToUint64(h.openedAt), 8) + BE(ToUint64(h.sealedAt), 8)
    + BE(h.rowCount, 8) + seq(28, _ => 0)
  }

  function EncodeHeader(c: Codec, h: BlockHeader): (b: Bytes)
    ensures |b| == HEADER_SIZE
  {
    HeaderBody(h) + BE(c.crc(HeaderBody(h)), 4)
  }

  function DecodeHeader(c: Codec, buf: Bytes): Result<BlockHeader> {
    if |buf| < HEADER_SIZE then Err("header too short")
    else if buf[0..4] != MAGIC_BBDB then Err("invalid magic: expected BBDB")
    else if c.crc(buf[..60]) != Get32(buf[60..64]) then Err("header checksum mismatch")
    else Ok(BlockHeader(Get16(buf[5..7]), buf[7], ToInt64(Get64(buf[8..16])), ToInt64(Get64(buf[16..24])),
        Get64(buf[24..32])))
  }

  lemma HeaderRoundTrip(c: Codec, h: BlockHeader)
    ensures DecodeHeader(c, EncodeHeader(c, h)) == Ok(h)
  {
    var b := EncodeHeader(c, h);
    assert b[0..4] == MAGIC_BBDB && b[..60] == HeaderBody(h) && b[60..64] == BE(c.crc(HeaderBody(h)), 4);
    assert b[5..7] == BE(h.shard, 2) && b[7] == h.eventType;
    assert b[8..16] == BE(ToUint64(h.openedAt), 8) && b[16..24] == BE(ToUint64(h.sealedAt), 8);
    assert b[24..32] == BE(h.rowCount, 8);
    RoundTrip32(c.crc(HeaderBody(h)));
    Order16(h.shard, h.shard);
    Order64(ToUint64(h.openedAt), 0);
    Order64(ToUint64(h.sealedAt), 0);
    Order64(h.rowCount, 0);
  }

  // ----- footer -----

  datatype BlockFooter = BlockFooter(offsets: seq<uint64>, sizes: seq<uint64>, bodyChecksum: uint32)
  {
    predicate Valid() {
      |offsets| == 3 && |sizes| == 3
    }
  }

  function FooterBytes(f: BlockFooter): Bytes {
    Uint64Bytes(f.offsets) + Uint64Bytes(f.sizes) + BE(f.bodyChecksum, 4) + MAGIC_TBBD
  }

  /** binary.BigEndian.PutUint64 (w == 8) or PutUint32 (w == 4) at an offset. */
  method PutUint(buf: array<byte>, off: nat, v: nat, w: nat)
    requires off + w <= buf.Length
    modifies buf
    ensures buf[..] == old(buf[..off]) + BE(v, w) + old(buf[off + w..])
  {
    var b := BE(v, w);
    forall i | 0 <= i < w { buf[off + i] := b[i]; }
  }

  /** The moving-offset loops of EncodeFooter fill the buffer with exactly the footer layout. */
  method EncodeFooter(f: BlockFooter) returns (b: Bytes)
    requires f.Valid()
    ensures b == FooterBytes(f) && |b| == FOOTER_SIZE
  {
    hide BE;
    var buf := new byte[FOOTER_SIZE](_ => 0);
    var off := 0;
    for i := 0 to 3
      invariant off == 8 * i && buf.Length == FOOTER_SIZE
      invariant buf[..off] == Uint64Bytes(f.offsets[..i])
    {
      PutUint(buf, off, f.offsets[i], 8);
      off := off + 8;
      Uint64BytesAppend(f.offsets, i);
    }
    assert f.offsets[..3] == f.offsets;
    for i := 0 to 3
      invariant off == 24 + 8 * i && buf.Length == FOOTER_SIZE
      invariant buf[..off] == Uint64Bytes(f.offsets) + Uint64Bytes(f.sizes[..i])
    {
      PutUint(buf, off, f.sizes[i], 8);
      off := off + 8;
      Uint64BytesAppend(f.sizes, i);
    }
    assert f.sizes[..3] == f.sizes;
    PutUint(buf, off, f.bodyChecksum, 4);
    off := off + 4;
    ghost var before := buf[..52];
    for i := 0 to 4
      invariant off == 52 && buf.Length == FOOTER_SIZE
      invariant buf[..52] == before && buf[52..52 + i] == MAGIC_TBBD[..i]
    {
      buf[off + i] := MAGIC_TBBD[i];
    }
    assert buf[..] == buf[..52] + buf[52..56];
    b := buf[..];
  }

  lemma Uint64BytesAppend(vals: seq<uint64>, i: nat)
    requires i < |vals|
    ensures Uint64Bytes(vals[..i + 1]) == Uint64Bytes(vals[..i]) + BE(vals[i], 8)
  {
    assert vals[..i + 1][..i] == vals[..i];
  }

  function DecodeFooter(buf: Bytes): (r: Result<BlockFooter>)
    ensures r.Ok? ==> r.value.Valid()
  {
    if |buf| < FOOTER_SIZE then Err("footer too short")
    else if buf[FOOTER_SIZE - 4..] != MAGIC_TBBD then Err("invalid footer magic: expected TBBD")
    else Ok(BlockFooter([Get64(buf[0..8]), Get64(buf[8..16]), Get64(buf[16..24])],
                        [Get64(buf[24..32]), Get64(buf[32..40]), Get64(buf[40..48])], Get32(buf[48..52])))
  }

  lemma FooterRoundTrip(f: BlockFooter)
    requires f.Valid()
    ensures DecodeFooter(FooterBytes(f)) == Ok(f)
  {
    hide BE, Uint64Bytes;
    var o, z := Uint64Bytes(f.offsets), Uint64Bytes(f.sizes);
    var b := FooterBytes(f);
    Uint64BytesAt(f.offsets, 0); Uint64BytesAt(f.offsets, 1); Uint64BytesAt(f.offsets, 2);
    Uint64BytesAt(f.sizes, 0); Uint64BytesAt(f.sizes, 1); Uint64BytesAt(f.sizes, 2);
    FooterSlices(o, z, BE(f.bodyChecksum, 4), MAGIC_TBBD);
    FooterValues(f);
  }

  lemma FooterSlices(o: Bytes, z: Bytes, k: Bytes, m: Bytes)
    requires |o| == 24 && |z| == 24 && |k| == 4 && |m| == 4
    ensures var b := o + z + k + m;
      && b[0..8] == o[0..8] && b[8..16] == o[8..16] && b[16..24] == o[16..24]
      && b[24..32] == z[0..8] && b[32..40] == z[8..16] && b[40..48] == z[16..24]
      && b[48..52] == k && b[52..] == m
  {}

  lemma FooterValues(f: BlockFooter)
    requires f.Valid()
    ensures f.offsets == [Get64(BE(f.offsets[0], 8)), Get64(BE(f.offsets[1], 8)), Get64(BE(f.offsets[2], 8))]
    ensures f.sizes == [Get64(BE(f.sizes[0], 8)), Get64(BE(f.sizes[1], 8)), Get64(BE(f.sizes[2], 8))]
    ensures Get32(BE(f.bodyChecksum, 4)) == f.bodyChecksum
  {
    hide BE;
    Order64(f.offsets[0], 0); Order64(f.offsets[1], 0); Order64(f.offsets[2], 0);
    Order64(f.sizes[0], 0); Order64(f.sizes[1], 0); Order64(f.sizes[2], 0);
    RoundTrip32(f.bodyChecksum);
  }

  // ----- fixed-width columns -----

  function Uint64Bytes(vals: seq<uint64>): Bytes {
    if vals == [] then [] else Uint64Bytes(vals[..|vals| - 1]) + BE(vals[|vals| - 1], 8)
  }

  /** The reader of a fixed-width column, as the loop computes it. */
  function ParseUint64s(raw: Bytes): Result<seq<uint64>> {
    if |raw| % 8 != 0 then Err("uint64 column: raw length not multiple of 8")
    else Ok(Words(raw))
  }

  function Words(raw: Bytes): (r: seq<uint64>)
    ensures |r| == |raw| / 8
    ensures forall i :: 0 <= i < |r| ==> r[i] == Get64(raw[8 * i..8 * i + 8])
  {
    seq(|raw| / 8, i requires 0 <= i < |raw| / 8 => Get64(raw[8 * i..8 * i + 8]))
  }

  lemma {:induction false} Uint64BytesAt(vals: seq<uint64>, i: nat)
    requires i < |vals|
    ensures |Uint64Bytes(vals)| == 8 * |vals|
    ensures Uint64Bytes(vals)[8 * i..8 * i + 8] == BE(vals[i], 8)
  {
    var n := |vals| - 1;
    if n > 0 { Uint64BytesAt(vals[..n], if i < n then i else 0); }
    var init := Uint64Bytes(vals[..n]);
    assert |init| == 8 * n;
    if i < n { assert (init + BE(vals[n], 8))[8 * i..8 * i + 8] == init[8 * i..8 * i + 8]; }
  }

  /** A column of uint64 values parses back to itself. */
  lemma Uint64ColumnRoundTrip(vals: seq<uint64>)
    ensures ParseUint64s(Uint64Bytes(vals)) == Ok(vals)
  {
    if vals != [] { Uint64BytesAt(vals, 0); }
    var raw := Uint64Bytes(vals);
    assert |raw| == 8 * |vals|;
    forall i | 0 <= i < |vals| ensures Words(raw)[i] == vals[i] {
      Uint64BytesAt(vals, i);
      Order64(vals[i], vals[i]);
    }
    assert Words(raw) == vals;
  }

  function ToUint64s(vals: seq<int64>): (r: seq<uint64>)
    ensures |r| == |vals|
  {
    seq(|vals|, i requires 0 <= i < |vals| => ToUint64(vals[i]))
  }

  function ToInt64s(vals: seq<uint64>): (r: seq<int64>)
    ensures |r| == |vals|
  {
    seq(|vals|, i requires 0 <= i < |vals| => ToInt64(vals[i]))
  }

  method CompressUint64Column(c: Codec, vals: seq<uint64>) returns (col: Bytes)
    ensures col == c.compress(Uint64Bytes(vals))
  {
    var raw: Bytes := [];
    for i := 0 to |vals|
      invariant raw == Uint64Bytes(vals[..i])
    {
      assert vals[..i + 1][..i] == vals[..i];
      raw := raw + BE(vals[i], 8);
    }
    assert vals[..|vals|] == vals;
    col := c.compress(raw);
  }

  method DecompressUint64Column(c: Codec, data: Bytes) returns (r: Result<seq<uint64>>)
    ensures r == match c.decompress(data) case Err(e) => Err(e) case Ok(raw) => ParseUint64s(raw)
  {
    var raw := c.decompress(data);
    if raw.Err? { return Err(raw.reason); }
    if |raw.value| % 8 != 0 { return Err("uint64 column: raw length not multiple of 8"); }
    var out: seq<uint64> := [];
    for i := 0 to |raw.value| / 8
      invariant |out| == i
      invariant forall j :: 0 <= j < i ==> out[j] == Words(raw.value)[j]
    {
      out := out + [Get64(raw.value[8 * i..8 * i + 8])];
    }
    assert out == Words(raw.value);
    r := Ok(out);
  }

  // ----- length-prefixed payloads -----

  predicate AllShort(payloads: seq<Bytes>) {
    forall i :: 0 <= i < |payloads| ==> |payloads[i]| < 0x1_0000_0000
  }

  /** uint32(len(p)) truncates. */
  function Frame(p: Bytes): Bytes {
    BE(|p| % 0x1_0000_0000, 4) + p
  }

  function FrameBytes(payloads: seq<Bytes>): Bytes {
    if payloads == [] then [] else Frame(payloads[0]) + FrameBytes(payloads[1..])
  }

  /** What the parser makes of the bytes from an offset on. */
  function ParseFrames(raw: Bytes): Result<seq<Bytes>>
    decreases |raw|
  {
    if raw == [] then Ok([])
    else if |raw| < 4 then Err("bytes column: truncated length prefix")
    else
      var length := Get32(raw[..4]);
      if 4 + length > |raw| then Err("bytes column: truncated payload")
      else
        match ParseFrames(raw[4 + length..])
        case Err(e) => Err(e)
        case Ok(rest) => Ok([raw[4..4 + length]] + rest)
  }

  lemma {:induction false} FrameBytesAppend(ps: seq<Bytes>, p: Bytes)
    ensures FrameBytes(ps + [p]) == FrameBytes(ps) + Frame(p)
  {
    hide BE;
    if ps == [] {
      assert ps + [p] == [p] && [p][1..] == [];
      assert FrameBytes([p]) == Frame(p) + FrameBytes([]);
    } else {
      assert (ps + [p])[1..] == ps[1..] + [p];
      FrameBytesAppend(ps[1..], p);
    }
  }

  lemma ParseOneFrame(p: Bytes, tail: Bytes)
    requires |p| < 0x1_0000_0000
    ensures ParseFrames(Frame(p) + tail) == match ParseFrames(tail) case Err(e) => Err(e)
        case Ok(rest) => Ok([p] + rest)
  {
    hide BE;
    var raw := Frame(p) + tail;
    assert raw[..4] == BE(|p|, 4);
    RoundTrip32(|p|);
    assert raw[4..4 + |p|] == p && raw[4 + |p|..] == tail;
  }

  /** Decoding inverts encoding when every length fits its prefix. */
  lemma {:induction false} ParseInvertsFrame(payloads: seq<Bytes>)
    requires AllShort(payloads)
    ensures ParseFrames(FrameBytes(payloads)) == Ok(payloads)
  {
    hide BE, Frame;
    if payloads != [] {
      ParseInvertsFrame(payloads[1..]);
      ParseOneFrame(payloads[0], FrameBytes(payloads[1..]));
      assert payloads == [payloads[0]] + payloads[1..];
    }
  }

  lemma FrameOf(prefix: Bytes, p: Bytes)
    requires |prefix| == 4 && Get32(prefix) == |p|
    ensures Frame(p) == prefix + p
  {
    EncodeDecode(prefix);
  }

  /** Re-encoding an accepted parse returns the same bytes, and every parsed length fits its prefix. */
  lemma {:induction false} FrameInvertsParse(raw: Bytes)
    ensures ParseFrames(raw).Ok? ==> AllShort(ParseFrames(raw).value) && FrameBytes(ParseFrames(raw).value) == raw
    decreases |raw|
  {
    hide BE, FromBE, Frame;
    if ParseFrames(raw).Ok? && raw != [] {
      var length := Get32(raw[..4]);
      var p, tail := raw[4..4 + length], raw[4 + length..];
      FrameInvertsParse(tail);
      var rest := ParseFrames(tail).value;
      FrameOf(raw[..4], p);
      assert ([p] + rest)[1..] == rest;
      assert raw == raw[..4] + p + tail;
    }
  }

  /**
   * Payload framing is a bijection between lists of payloads shorter than 2^32 and the accepted
   * byte strings, and no longer payload survives it.
   */
  lemma FramingBijection(payloads: seq<Bytes>, raw: Bytes)
    ensures ParseFrames(FrameBytes(payloads)) == Ok(payloads) <==> AllShort(payloads)
    ensures ParseFrames(raw).Ok? <==> exists ps :: AllShort(ps) && raw == FrameBytes(ps)
  {
    FrameInvertsParse(FrameBytes(payloads));
    if AllShort(payloads) { ParseInvertsFrame(payloads); }
    FrameInvertsParse(raw);
    if ParseFrames(raw).Ok? {
      var ps := ParseFrames(raw).value;
      assert AllShort(ps) && raw == FrameBytes(ps);
    }
    if ps :| AllShort(ps) && raw == FrameBytes(ps) { ParseInvertsFrame(ps); }
  }

  method CompressBytesColumn(c: Codec, payloads: seq<Bytes>) returns (col: Bytes)
    ensures col == c.compress(FrameBytes(payloads))
  {
    var raw: Bytes := [];
    for i := 0 to |payloads|
      invariant raw == FrameBytes(payloads[..i])
    {
      assert payloads[..i + 1] == payloads[..i] + [payloads[i]];
      FrameBytesAppend(payloads[..i], payloads[i]);
      var length := BE(|payloads[i]| % 0x1_0000_0000, 4);
      ghost var before := raw;
      raw := raw + length;
      raw := raw + payloads[i];
      assert raw == before + Frame(payloads[i]);
    }
    assert payloads[..|payloads|] == payloads;
    col := c.compress(raw);
  }

  function Prepend(out: seq<Bytes>, r: Result<seq<Bytes>>): Result<seq<Bytes>> {
    match r
    case Err(e) => Err(e)
    case Ok(rest) => Ok(out + rest)
  }

  lemma ParseStep(raw: Bytes, i: nat, out: seq<Bytes>)
    requires i + 4 <= |raw|
    ensures var length := Get32(raw[i..i + 4]);
      var end := i + 4 + length;
      if end > |raw| then ParseFrames(raw[i..]) == Err("bytes column: truncated payload")
      else Prepend(out, ParseFrames(raw[i..])) == Prepend(out + [raw[i + 4..end]], ParseFrames(raw[end..]))
  {
    var s := raw[i..];
    assert s[..4] == raw[i..i + 4];
    var length := Get32(raw[i..i + 4]);
    if i + 4 + length <= |raw| {
      var payload := raw[i + 4..i + 4 + length];
      assert s[4..4 + length] == payload && s[4 + length..] == raw[i + 4 + length..];
      var tail := ParseFrames(raw[i + 4 + length..]);
      if tail.Ok? { assert out + ([payload] + tail.value) == (out + [payload]) + tail.value; }
    }
  }

  /** The offset loop accepts and returns exactly what the grammar of frames says. */
  method DecompressBytesColumn(c: Codec, data: Bytes) returns (r: Result<seq<Bytes>>)
    ensures r == match c.decompress(data) case Err(e) => Err(e) case Ok(raw) => ParseFrames(raw)
  {
    var dec := c.decompress(data);
    if dec.Err? { return Err(dec.reason); }
    var raw := dec.value;
    var out: seq<Bytes> := [];
    var i := 0;
    assert raw[0..] == raw;
    assert ParseFrames(raw) == Prepend([], ParseFrames(raw)) by {
      if ParseFrames(raw).Ok? { assert [] + ParseFrames(raw).value == ParseFrames(raw).value; }
    }
    while i < |raw|
      invariant 0 <= i <= |raw|
      invariant ParseFrames(raw) == Prepend(out, ParseFrames(raw[i..]))
    {
      if i + 4 > |raw| { return Err("bytes column: truncated length prefix"); }
      ParseStep(raw, i, out);
      var length := Get32(raw[i..i + 4]);
      i := i + 4;
      if i + length > |raw| { return Err("bytes column: truncated payload"); }
      out := out + [raw[i..i + length]];
      i := i + length;
    }
    assert raw[i..] == [] && out + [] == out;
    r := Ok(out);
  }
}
