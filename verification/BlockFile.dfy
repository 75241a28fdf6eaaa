/** Writing a whole block file and reading matching rows back out of it. */
module BlockFile {
  import opened Bytes
  import opened Results
  import opened Format

  // ----- rows and columns -----

  function KeyHashes(rows: seq<Event>): (r: seq<uint64>)
    ensures |r| == |rows|
  {
    seq(|rows|, i requires 0 <= i < |rows| => rows[i].keyHash)
  }

  function Timestamps(rows: seq<Event>): (r: seq<int64>)
    ensures |r| == |rows|
  {
    seq(|rows|, i requires 0 <= i < |rows| => rows[i].timestamp)
  }

  function Payloads(rows: seq<Event>): (r: seq<Bytes>)
    ensures |r| == |rows|
  {
    seq(|rows|, i requires 0 <= i < |rows| => rows[i].payload)
  }

  function KeyColumn(c: Codec, rows: seq<Event>): Bytes {
    c.compress(Uint64Bytes(KeyHashes(rows)))
  }

  function TimeColumn(c: Codec, rows: seq<Event>): Bytes {
    c.compress(Uint64Bytes(ToUint64s(Timestamps(rows))))
  }

  function PayloadColumn(c: Codec, rows: seq<Event>): Bytes {
    c.compress(FrameBytes(Payloads(rows)))
  }

  function Body(c: Codec, rows: seq<Event>): Bytes {
    KeyColumn(c, rows) + TimeColumn(c, rows) + PayloadColumn(c, rows)
  }

  /** The file is addressable with int64 offsets and every payload length fits its prefix. */
  predicate Fits(c: Codec, rows: seq<Event>) {
    && HEADER_SIZE + |Body(c, rows)| + FOOTER_SIZE < 0x8000_0000_0000_0000
    && AllShort(Payloads(rows))
  }

  /** Offsets and sizes are converted to uint64. */
  function FooterOf(c: Codec, rows: seq<Event>): (f: BlockFooter)
    ensures f.Valid()
  {
    var kh, ts, pl := |KeyColumn(c, rows)|, |TimeColumn(c, rows)|, |PayloadColumn(c, rows)|;
    BlockFooter([HEADER_SIZE, (HEADER_SIZE + kh) % TWO64, (HEADER_SIZE + kh + ts) % TWO64],
        [kh % TWO64, ts % TWO64, pl % TWO64],
                c.crc(Body(c, rows)))
  }

  /** The complete file: what WriteBlockBody writes, then the encoded footer. */
  function FileBytes(c: Codec, h: BlockHeader, rows: seq<Event>): Bytes {
    EncodeHeader(c, h) + Body(c, rows) + FooterBytes(FooterOf(c, rows))
  }

  method CompressInt64Column(c: Codec, vals: seq<int64>) returns (col: Bytes)
    ensures col == c.compress(Uint64Bytes(ToUint64s(vals)))
  {
    var raw: Bytes := [];
    for i := 0 to |vals|
      invariant raw == Uint64Bytes(ToUint64s(vals)[..i])
    {
      Uint64BytesAppend(ToUint64s(vals), i);
      raw := raw + BE(ToUint64(vals[i]), 8);
    }
    assert ToUint64s(vals)[..|vals|] == ToUint64s(vals);
    col := c.compress(raw);
  }

  method DecompressInt64Column(c: Codec, data: Bytes) returns (r: Result<seq<int64>>)
    ensures r == match c.decompress(data) case Err(e) => Err(e) case Ok(raw) => ParseInt64s(raw)
  {
    var raw := c.decompress(data);
    if raw.Err? { return Err(raw.reason); }
    if |raw.value| % 8 != 0 { return Err("int64 column: raw length not multiple of 8"); }
    var out: seq<int64> := [];
    for i := 0 to |raw.value| / 8
      invariant |out| == i
      invariant forall j :: 0 <= j < i ==> out[j] == ToInt64(Words(raw.value)[j])
    {
      out := out + [ToInt64(Get64(raw.value[8 * i..8 * i + 8]))];
    }
    assert out == ToInt64s(Words(raw.value));
    r := Ok(out);
  }

  function ParseInt64s(raw: Bytes): Result<seq<int64>> {
    if |raw| % 8 != 0 then Err("int64 column: raw length not multiple of 8") else Ok(ToInt64s(Words(raw)))
  }

  lemma Int64ColumnRoundTrip(vals: seq<int64>)
    ensures ParseInt64s(Uint64Bytes(ToUint64s(vals))) == Ok(vals)
  {
    Uint64ColumnRoundTrip(ToUint64s(vals));
    forall i | 0 <= i < |vals| ensures ToInt64s(ToUint64s(vals))[i] == vals[i] { SignedRoundTrip(vals[i]); }
    assert ToInt64s(ToUint64s(vals)) == vals;
  }

  /** The header, the checksummed body and the footer, as WriteBlockBody computes them from the columns. */
  method BuildBlock(c: Codec, h: BlockHeader, khs: seq<uint64>, tss: seq<int64>, pls: seq<Bytes>,
                    ghost rows: seq<Event>)
    returns (header: Bytes, body: Bytes, footer: BlockFooter)
    requires khs == KeyHashes(rows) && tss == Timestamps(rows) && pls == Payloads(rows)
    ensures header == EncodeHeader(c, h) && body == Body(c, rows) && footer == FooterOf(c, rows)
  {
    header := EncodeHeader(c, h);
    var off0 := HEADER_SIZE;
    var khCol := CompressUint64Column(c, khs);
    var off1 := off0 + |khCol|;
    var tsCol := CompressInt64Column(c, tss);
    var off2 := off1 + |tsCol|;
    var plCol := CompressBytesColumn(c, pls);
    body := khCol + tsCol + plCol;
    footer := BlockFooter([off0, off1 % TWO64, off2 % TWO64], [|khCol| % TWO64, |tsCol| % TWO64, |plCol| % TWO64],
                          c.crc(body));
  }

  // ----- reading -----

  /** os.File.ReadAt of n bytes: short reads are errors, an empty read at a valid offset is not. */
  function ReadAt(data: Bytes, off: int64, n: uint64): Result<Bytes> {
    if off < 0 then Err("negative offset")
    else if n == 0 then Ok([])
    else if off + n > |data| then Err("unexpected EOF")
    else Ok(data[off..off + n])
  }

  predicate Matches(e: Event, keyHash: uint64, from: int64, to: int64) {
    e.keyHash == keyHash && from <= e.timestamp < to
  }

  /** The subsequence of rows a read of (keyHash, [from, to)) asks for. */
  function Matching(rows: seq<Event>, keyHash: uint64, from: int64, to: int64): seq<Event> {
    if rows == [] then []
    else
      var rest := Matching(rows[..|rows| - 1], keyHash, from, to);
      var last := rows[|rows| - 1];
      if Matches(last, keyHash, from, to) then rest + [last] else rest
  }

  /** Row indices below n that match; a timestamp column shorter than needed makes the reader panic. */
  function MatchIdx(khs: seq<uint64>, tss: seq<int64>, n: nat, keyHash: uint64, from: int64,
                    to: int64): (r: Result<seq<nat>>)
    requires n <= |khs|
    ensures r.Ok? ==> forall j :: 0 <= j < |r.value| ==> r.value[j] < n && r.value[j] < |tss|
  {
    if n == 0 then Ok([])
    else
      match MatchIdx(khs, tss, n - 1, keyHash, from, to)
      case Err(e) => Err(e)
      case Ok(idx) =>
        if khs[n - 1] != keyHash then Ok(idx)
        else if n - 1 >= |tss| then Err("index out of range")
        else if from <= tss[n - 1] < to then Ok(idx + [n - 1]) else Ok(idx)
  }

  function EventsAt(khs: seq<uint64>, tss: seq<int64>, pls: seq<Bytes>, idx: seq<nat>): seq<Event>
    requires forall j :: 0 <= j < |idx| ==> idx[j] < |khs| && idx[j] < |tss|
  {
    if idx == [] then []
    else
      var rest := EventsAt(khs, tss, pls, idx[..|idx| - 1]);
      var i := idx[|idx| - 1];
      if i >= |pls| then rest else rest + [Event(khs[i], tss[i], pls[i])]
  }

  function FilterColumns(c: Codec, data: Bytes, footer: BlockFooter): Result<(seq<uint64>, seq<int64>)>
    requires footer.Valid()
  {
    var khData :- ReadAt(data, ToInt64(footer.offsets[0]), footer.sizes[0]);
    var khRaw :- c.decompress(khData);
    var khs :- ParseUint64s(khRaw);
    var tsData :- ReadAt(data, ToInt64(footer.offsets[1]), footer.sizes[1]);
    var tsRaw :- c.decompress(tsData);
    var tss :- ParseInt64s(tsRaw);
    Ok((khs, tss))
  }

  function PayloadsOf(c: Codec, data: Bytes, footer: BlockFooter): Result<seq<Bytes>>
    requires footer.Valid()
  {
    var plData :- ReadAt(data, ToInt64(footer.offsets[2]), footer.sizes[2]);
    var plRaw :- c.decompress(plData);
    ParseFrames(plRaw)
  }

  /** ReadBlock on the contents of a file, for any contents. */
  function ReadRows(c: Codec, data: Bytes, keyHash: uint64, from: int64, to: int64): Result<seq<Event>> {
    if |data| < HEADER_SIZE + FOOTER_SIZE then Err("block too small")
    else
      var footer :- DecodeFooter(data[|data| - FOOTER_SIZE..]);
      var _ :- DecodeHeader(c, data[..HEADER_SIZE]);
      var cols :- FilterColumns(c, data, footer);
      var idx :- MatchIdx(cols.0, cols.1, |cols.0|, keyHash, from, to);
      if idx == [] then Ok([])
      else
        var pls :- PayloadsOf(c, data, footer);
        Ok(EventsAt(cols.0, cols.1, pls, idx))
  }

  method ReadFilterColumns(c: Codec, data: Bytes, footer: BlockFooter) returns (r: Result<(seq<uint64>, seq<int64>)>)
    requires footer.Valid()
    ensures r == FilterColumns(c, data, footer)
  {
    var khData := ReadAt(data, ToInt64(footer.offsets[0]), footer.sizes[0]);
    if khData.Err? { return Err(khData.reason); }
    var khs := DecompressUint64Column(c, khData.value);
    if khs.Err? { return Err(khs.reason); }
    var tsData := ReadAt(data, ToInt64(footer.offsets[1]), footer.sizes[1]);
    if tsData.Err? { return Err(tsData.reason); }
    var tss := DecompressInt64Column(c, tsData.value);
    if tss.Err? { return Err(tss.reason); }
    r := Ok((khs.value, tss.value));
  }

  /** The two loops of ReadBlock over the decoded columns. */
  method ReadBlock(c: Codec, data: Bytes, keyHash: uint64, from: int64, to: int64) returns (r: Result<seq<Event>>)
    ensures r == ReadRows(c, data, keyHash, from, to)
  {
    if |data| < HEADER_SIZE + FOOTER_SIZE { return Err("block too small"); }
    var footer := DecodeFooter(data[|data| - FOOTER_SIZE..]);
    if footer.Err? { return Err(footer.reason); }
    var header := DecodeHeader(c, data[..HEADER_SIZE]);
    if header.Err? { return Err(header.reason); }
    var cols := ReadFilterColumns(c, data, footer.value);
    if cols.Err? { return Err(cols.reason); }
    var (khs, tss) := cols.value;
    var matchIdx := CollectMatches(khs, tss, keyHash, from, to);
    if matchIdx.Err? { return Err(matchIdx.reason); }
    if matchIdx.value == [] { return Ok([]); }
    var plData := ReadAt(data, ToInt64(footer.value.offsets[2]), footer.value.sizes[2]);
    if plData.Err? { return Err(plData.reason); }
    var pls := DecompressBytesColumn(c, plData.value);
    if pls.Err? { return Err(pls.reason); }
    var events := CollectEvents(khs, tss, pls.value, matchIdx.value);
    r := Ok(events);
  }

  method CollectMatches(khs: seq<uint64>, tss: seq<int64>, keyHash: uint64, from: int64, to: int64)
    returns (r: Result<seq<nat>>)
    ensures r == MatchIdx(khs, tss, |khs|, keyHash, from, to)
  {
    var idx: seq<nat> := [];
    for i := 0 to |khs|
      invariant MatchIdx(khs, tss, i, keyHash, from, to) == Ok(idx)
    {
      if khs[i] != keyHash { continue; }
      if i >= |tss| {
        ErrPersists(khs, tss, i + 1, |khs|, keyHash, from, to);
        return Err("index out of range");
      }
      if from <= tss[i] < to { idx := idx + [i]; }
    }
    r := Ok(idx);
  }

  lemma {:induction false} ErrPersists(khs: seq<uint64>, tss: seq<int64>, i: nat, n: nat, keyHash: uint64, from: int64,
                                       to: int64)
    requires i <= n <= |khs| && MatchIdx(khs, tss, i, keyHash, from, to).Err?
    ensures MatchIdx(khs, tss, n, keyHash, from, to) == MatchIdx(khs, tss, i, keyHash, from, to)
  {
    if i < n { ErrPersists(khs, tss, i, n - 1, keyHash, from, to); }
  }

  method CollectEvents(khs: seq<uint64>, tss: seq<int64>, pls: seq<Bytes>, idx: seq<nat>) returns (events: seq<Event>)
    requires forall j :: 0 <= j < |idx| ==> idx[j] < |khs| && idx[j] < |tss|
    ensures events == EventsAt(khs, tss, pls, idx)
  {
    events := [];
    for j := 0 to |idx|
      invariant events == EventsAt(khs, tss, pls, idx[..j])
    {
      assert idx[..j + 1][..j] == idx[..j];
      var i := idx[j];
      if i >= |pls| { continue; }
      events := events + [Event(khs[i], tss[i], pls[i])];
    }
    assert idx[..|idx|] == idx;
  }

  // ----- reading any file -----

  predicate AllMatch(khs: seq<uint64>, tss: seq<int64>, idx: seq<nat>, keyHash: uint64, from: int64, to: int64) {
    forall j :: 0 <= j < |idx| ==>
      idx[j] < |khs| && idx[j] < |tss| && khs[idx[j]] == keyHash && from <= tss[idx[j]] < to
  }

  lemma {:induction false} MatchIdxSound(khs: seq<uint64>, tss: seq<int64>, n: nat, keyHash: uint64, from: int64,
                                         to: int64)
    requires n <= |khs|
    ensures var r := MatchIdx(khs, tss, n, keyHash, from, to); r.Ok? ==> AllMatch(khs, tss, r.value, keyHash, from, to)
  {
    if n > 0 { MatchIdxSound(khs, tss, n - 1, keyHash, from, to); }
  }

  lemma {:induction false} EventsAtSound(khs: seq<uint64>, tss: seq<int64>, pls: seq<Bytes>, idx: seq<nat>,
                                         keyHash: uint64, from: int64, to: int64)
    requires AllMatch(khs, tss, idx, keyHash, from, to)
    ensures forall e :: e in EventsAt(khs, tss, pls, idx) ==> e.keyHash == keyHash && from <= e.timestamp < to
  {
    if idx != [] { EventsAtSound(khs, tss, pls, idx[..|idx| - 1], keyHash, from, to); }
  }

  /** Whatever the file holds: what is returned matches, and a file with a wrong magic or header checksum is refused. */
  lemma ReadRowsSound(c: Codec, data: Bytes, keyHash: uint64, from: int64, to: int64)
    ensures var r := ReadRows(c, data, keyHash, from, to);
      r.Ok? ==>
        && (forall e :: e in r.value ==> e.keyHash == keyHash && from <= e.timestamp < to)
        && |data| >= 120 && data[..4] == [0x42, 0x42, 0x44, 0x42] && data[|data| - 4..] == [0x54, 0x42, 0x42, 0x44]
        && c.crc(data[..60]) == Get32(data[60..64])
  {
    hide EventsAt, MatchIdx, FilterColumns, PayloadsOf, Get32, AllMatch;
    var r := ReadRows(c, data, keyHash, from, to);
    if r.Ok? {
      var buf, head := data[|data| - FOOTER_SIZE..], data[..HEADER_SIZE];
      assert buf[FOOTER_SIZE - 4..] == data[|data| - 4..];
      assert head[0..4] == data[..4] && head[..60] == data[..60] && head[60..64] == data[60..64];
      var footer := DecodeFooter(buf).value;
      var cols := FilterColumns(c, data, footer).value;
      MatchIdxSound(cols.0, cols.1, |cols.0|, keyHash, from, to);
      var idx := MatchIdx(cols.0, cols.1, |cols.0|, keyHash, from, to).value;
      if idx != [] {
        EventsAtSound(cols.0, cols.1, PayloadsOf(c, data, footer).value, idx, keyHash, from, to);
      }
    }
  }

  // ----- round trip -----

  /** Every column lies inside the file at the offset and with the size the footer names. */
  lemma ColumnsInPlace(c: Codec, h: BlockHeader, rows: seq<Event>)
    requires Fits(c, rows)
    ensures var data, f := FileBytes(c, h, rows), FooterOf(c, rows);
      && ReadAt(data, ToInt64(f.offsets[0]), f.sizes[0]) == Ok(KeyColumn(c, rows))
      && ReadAt(data, ToInt64(f.offsets[1]), f.sizes[1]) == Ok(TimeColumn(c, rows))
      && ReadAt(data, ToInt64(f.offsets[2]), f.sizes[2]) == Ok(PayloadColumn(c, rows))
  {
    hide EncodeHeader, KeyColumn, TimeColumn, PayloadColumn, FooterBytes, FooterOf, ReadAt;
    var kh, ts, pl := KeyColumn(c, rows), TimeColumn(c, rows), PayloadColumn(c, rows);
    var data := FileBytes(c, h, rows);
    FooterExact(c, rows);
    Slices(EncodeHeader(c, h), kh, ts, pl, FooterBytes(FooterOf(c, rows)));
    ReadSlice(data, HEADER_SIZE, |kh|);
    ReadSlice(data, HEADER_SIZE + |kh|, |ts|);
    ReadSlice(data, HEADER_SIZE + |kh| + |ts|, |pl|);
  }

  lemma FooterExact(c: Codec, rows: seq<Event>)
    requires Fits(c, rows)
    ensures var kh, ts, pl := |KeyColumn(c, rows)|, |TimeColumn(c, rows)|, |PayloadColumn(c, rows)|;
      && FooterOf(c, rows).offsets == [HEADER_SIZE, HEADER_SIZE + kh, HEADER_SIZE + kh + ts]
      && FooterOf(c, rows).sizes == [kh, ts, pl]
  {}

  lemma ReadSlice(data: Bytes, off: nat, n: nat)
    requires off + n <= |data| && off < 0x8000_0000_0000_0000 && n < TWO64
    ensures ReadAt(data, ToInt64(off), n) == Ok(data[off..off + n])
  {
    assert n == 0 ==> data[off..off + n] == [];
  }

  lemma Slices(h: Bytes, a: Bytes, b: Bytes, d: Bytes, f: Bytes)
    ensures var data := h + (a + b + d) + f;
      && data[|h|..|h| + |a|] == a
      && data[|h| + |a|..|h| + |a| + |b|] == b
      && data[|h| + |a| + |b|..|h| + |a| + |b| + |d|] == d
      && data[..|h|] == h && data[|data| - |f|..] == f
  {}

  lemma {:induction false} MatchIdxFound(rows: seq<Event>, n: nat, keyHash: uint64, from: int64, to: int64)
    requires n <= |rows|
    ensures var idx := MatchIdx(KeyHashes(rows), Timestamps(rows), n, keyHash, from, to);
      && idx.Ok?
      && EventsAt(KeyHashes(rows), Timestamps(rows), Payloads(rows), idx.value) ==
          Matching(rows[..n], keyHash, from, to)
      && (idx.value == [] ==> Matching(rows[..n], keyHash, from, to) == [])
  {
    if n > 0 {
      MatchIdxFound(rows, n - 1, keyHash, from, to);
      assert rows[..n][..n - 1] == rows[..n - 1];
      var before := MatchIdx(KeyHashes(rows), Timestamps(rows), n - 1, keyHash, from, to).value;
      assert (before + [n - 1])[..|before|] == before;
      assert Event(rows[n - 1].keyHash, rows[n - 1].timestamp, rows[n - 1].payload) == rows[n - 1];
    }
  }

  lemma FooterLength(c: Codec, rows: seq<Event>)
    ensures |FooterBytes(FooterOf(c, rows))| == FOOTER_SIZE
  {
    Uint64BytesAt(FooterOf(c, rows).offsets, 0);
    Uint64BytesAt(FooterOf(c, rows).sizes, 0);
  }

  lemma ColumnsDecode(c: Codec, h: BlockHeader, rows: seq<Event>)
    requires c.Inverts() && Fits(c, rows)
    ensures FilterColumns(c, FileBytes(c, h, rows), FooterOf(c, rows)) == Ok((KeyHashes(rows), Timestamps(rows)))
    ensures PayloadsOf(c, FileBytes(c, h, rows), FooterOf(c, rows)) == Ok(Payloads(rows))
  {
    ColumnsInPlace(c, h, rows);
    Uint64ColumnRoundTrip(KeyHashes(rows));
    Int64ColumnRoundTrip(Timestamps(rows));
    ParseInvertsFrame(Payloads(rows));
  }

  /** Reading a written block file returns exactly its rows that match, in file order. */
  lemma BlockFileRoundTrip(c: Codec, h: BlockHeader, rows: seq<Event>, keyHash: uint64, from: int64, to: int64)
    requires c.Inverts() && Fits(c, rows)
    ensures ReadRows(c, FileBytes(c, h, rows), keyHash, from, to) == Ok(Matching(rows, keyHash, from, to))
  {
    var data := FileBytes(c, h, rows);
    Slices(EncodeHeader(c, h), KeyColumn(c, rows), TimeColumn(c, rows), PayloadColumn(c, rows),
           FooterBytes(FooterOf(c, rows)));
    FooterLength(c, rows);
    FooterRoundTrip(FooterOf(c, rows));
    HeaderRoundTrip(c, h);
    ColumnsDecode(c, h, rows);
    MatchIdxFound(rows, |rows|, keyHash, from, to);
    assert rows[..|rows|] == rows;
  }
}
