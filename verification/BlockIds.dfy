/** Block identity: UTC hours, their Gregorian dates, the block ID text and the file paths built from it. */
module BlockIds {
  import opened Bytes
  import opened Results
  import opened Keys
  import opened Arithmetic

  const NANOS_PER_HOUR: int := 3_600_000_000_000
  const EPOCH_DAY: int := 719162 // days from 0001-01-01 to 1970-01-01

  /** The UTC hour, counted from the Unix epoch, that holds an instant. */
  function HourOf(nano: int): int {
    nano / NANOS_PER_HOUR
  }

  // ----- Gregorian calendar -----

  datatype Date = Date(year: int, month: int, day: int)

  predicate Leap(year: int) {
    year % 4 == 0 && (year % 100 != 0 || year % 400 == 0)
  }

  /** Days from 0001-01-01 to the first day of a year. */
  function DaysBeforeYear(year: int): int {
    var y := year - 1;
    365 * y + y / 4 - y / 100 + y / 400
  }

  /** Days of a common year before month 1..12. */
  function DaysBeforeMonth(month: int): int
    requires 1 <= month <= 12
  {
    [0, 31, 59, 90, 120, 151, 181, 212, 243, 273, 304, 334][month - 1]
  }

  function LeapDay(year: int, month: int): int {
    if Leap(year) && month > 2 then 1 else 0
  }

  /** time.Date's day number; months outside 1..12 carry into the year, days are added as they are. */
  function DayNumber(d: Date): int {
    var year := d.year + (d.month - 1) / 12;
    var month := (d.month - 1) % 12 + 1;
    DaysBeforeYear(year) + DaysBeforeMonth(month) + LeapDay(year, month) + d.day - 1
  }

  /** The year of a day and the day's place in it: 400-, 100-, 4- and 1-year cycles. */
  function YearOf(n: nat): (int, int) {
    var d1 := n % 146097;
    var n100 := if d1 / 36524 > 3 then 3 else d1 / 36524;
    var d2 := d1 - 36524 * n100;
    var d3 := d2 % 1461;
    var n1 := if d3 / 365 > 3 then 3 else d3 / 365;
    (400 * (n / 146097) + 100 * n100 + 4 * (d2 / 1461) + n1 + 1, d3 - 365 * n1)
  }

  function MonthOf(yday: int, leap: int): int {
    if yday < 31 then 1
    else if yday < 59 + leap then 2
    else if yday < 90 + leap then 3
    else if yday < 120 + leap then 4
    else if yday < 151 + leap then 5
    else if yday < 181 + leap then 6
    else if yday < 212 + leap then 7
    else if yday < 243 + leap then 8
    else if yday < 273 + leap then 9
    else if yday < 304 + leap then 10
    else if yday < 334 + leap then 11
    else 12
  }

  /** t.Year(), t.Month(), t.Day() of a day from 0001-01-01 on. */
  function DateOf(n: nat): Date {
    var (year, yday) := YearOf(n);
    var leap := if Leap(year) then 1 else 0;
    var month := MonthOf(yday, leap);
    Date(year, month, yday - DaysBeforeMonth(month) - LeapDay(year, month) + 1)
  }

  lemma YearCycles(a: int, b: int, c: int, e: int)
    requires 0 <= b <= 3 && 0 <= c <= 24 && 0 <= e <= 3
    ensures var y := 400 * a + 100 * b + 4 * c + e + 1;
      && DaysBeforeYear(y) == 146097 * a + 36524 * b + 1461 * c + 365 * e
      && (Leap(y) <==> e == 3 && (c != 24 || b == 3))
  {
    var z := 400 * a + 100 * b + 4 * c + e;
    QuotRem(z, 4, 100 * a + 25 * b + c, e);
    QuotRem(z, 100, 4 * a + b, 4 * c + e);
    QuotRem(z, 400, a, 100 * b + 4 * c + e);
    LeapCycles(a, b, c, e);
  }

  lemma LeapCycles(a: int, b: int, c: int, e: int)
    requires 0 <= b <= 3 && 0 <= c <= 24 && 0 <= e <= 3
    ensures Leap(400 * a + 100 * b + 4 * c + e + 1) <==> e == 3 && (c != 24 || b == 3)
  {
    var y := 400 * a + 100 * b + 4 * c + e + 1;
    if e < 3 {
      QuotRem(y, 4, 100 * a + 25 * b + c, e + 1);
    } else {
      QuotRem(y, 4, 100 * a + 25 * b + c + 1, 0);
      if c < 24 {
        QuotRem(y, 100, 4 * a + b, 4 * c + 4);
      } else {
        QuotRem(y, 100, 4 * a + b + 1, 0);
        if b < 3 { QuotRem(y, 400, a, 100 * b + 100); } else { QuotRem(y, 400, a + 1, 0); }
      }
    }
  }

  lemma YearOfExact(n: nat)
    ensures var (year, yday) := YearOf(n);
      DaysBeforeYear(year) + yday == n && 0 <= yday < (if Leap(year) then 366 else 365) && year >= 1
  {
    var d1 := n % 146097;
    var n100 := if d1 / 36524 > 3 then 3 else d1 / 36524;
    var d2 := d1 - 36524 * n100;
    var n4 := d2 / 1461;
    var d3 := d2 % 1461;
    var n1 := if d3 / 365 > 3 then 3 else d3 / 365;
    YearCycles(n / 146097, n100, n4, n1);
  }

  /** A date names one day: time.Date inverts Year, Month and Day. */
  lemma DateRoundTrip(n: nat)
    ensures DayNumber(DateOf(n)) == n
    ensures 1 <= DateOf(n).month <= 12 && 1 <= DateOf(n).day <= 31
  {
    YearOfExact(n);
    var d := DateOf(n);
    assert (d.month - 1) / 12 == 0 && (d.month - 1) % 12 + 1 == d.month;
    MonthExact(YearOf(n).1, if Leap(d.year) then 1 else 0);
  }

  lemma MonthExact(yday: int, leap: int)
    requires 0 <= leap <= 1 && 0 <= yday < 365 + leap
    ensures var m := MonthOf(yday, leap);
      1 <= m <= 12 && 0 <= yday - DaysBeforeMonth(m) - (if leap == 1 && m > 2 then 1 else 0) <= 30
  {}

  function DaysIn(year: int, month: int): int {
    if month == 2 then (if Leap(year) then 29 else 28) else if month in {4, 6, 9, 11} then 30 else 31
  }

  /** The Gregorian calendar's next day. */
  function Tomorrow(d: Date): Date {
    if d.day < DaysIn(d.year, d.month) then Date(d.year, d.month, d.day + 1)
    else if d.month < 12 then Date(d.year, d.month + 1, 1)
    else Date(d.year + 1, 1, 1)
  }

  lemma NextYear(year: int)
    ensures DaysBeforeYear(year + 1) == DaysBeforeYear(year) + if Leap(year) then 366 else 365
  {
    var y := year - 1;
    NextQuotient(y, 4);
    NextQuotient(y, 100);
    NextQuotient(y, 400);
  }

  lemma NextQuotient(y: int, k: int)
    requires k > 0
    ensures (y + 1) / k == y / k + if (y + 1) % k == 0 then 1 else 0
  {
    if (y + 1) % k == 0 {
      QuotRem(y, k, (y + 1) / k - 1, k - 1);
    } else {
      QuotRem(y, k, (y + 1) / k, (y + 1) % k - 1);
    }
  }

  lemma YearUnique(year: int, yday: int, year': int, yday': int)
    requires DaysBeforeYear(year) + yday == DaysBeforeYear(year') + yday'
    requires 0 <= yday < (if Leap(year) then 366 else 365) && 0 <= yday' < (if Leap(year') then 366 else 365)
    ensures year == year' && yday == yday'
  {
    hide DaysBeforeYear, Leap;
    NextYear(year);
    NextYear(year');
    if year < year' { DaysBeforeYearMonotone(year + 1, year'); }
    if year' < year { DaysBeforeYearMonotone(year' + 1, year); }
  }

  /** The dates of successive days follow the Gregorian calendar, and day EPOCH_DAY is the first of 1970. */
  lemma DatesFollow(n: nat)
    ensures DateOf(n + 1) == Tomorrow(DateOf(n))
    ensures DateOf(EPOCH_DAY) == Date(1970, 1, 1)
  {
    hide DaysBeforeYear, Leap, YearOf;
    YearOfExact(n);
    YearOfExact(n + 1);
    var (year, yday) := YearOf(n);
    NextYear(year);
    if yday < (if Leap(year) then 365 else 364) {
      YearUnique(year, yday + 1, YearOf(n + 1).0, YearOf(n + 1).1);
    } else {
      YearUnique(year + 1, 0, YearOf(n + 1).0, YearOf(n + 1).1);
    }
    EpochDate();
  }

  lemma EpochDate()
    ensures DateOf(EPOCH_DAY) == Date(1970, 1, 1)
  {}

  // ----- decimal and hexadecimal text -----

  function D2(n: int): (b: Bytes)
    requires 0 <= n < 100
    ensures AllDigits(b)
  {
    [48 + n / 10, 48 + n % 10]
  }

  function D4(n: int): (b: Bytes)
    requires 0 <= n < 10000
    ensures AllDigits(b)
  {
    D2(n / 100) + D2(n % 100)
  }

  function HexDigit(n: int): byte
    requires 0 <= n < 16
  {
    if n < 10 then 48 + n else 87 + n
  }

  /** %04x */
  function Hex4(s: uint16): (b: Bytes)
    ensures |b| == 4
    ensures forall i :: 0 <= i < 4 ==> b[i] != COLON && b[i] != SLASH
  {
    [HexDigit(s / 16 / 16 / 16), HexDigit(s / 16 / 16 % 16), HexDigit(s / 16 % 16), HexDigit(s % 16)]
  }

  lemma Hex4Injective(s: uint16, t: uint16)
    requires Hex4(s) == Hex4(t)
    ensures s == t
  {
    assert Hex4(s)[0] == Hex4(t)[0] && Hex4(s)[1] == Hex4(t)[1] && Hex4(s)[2] == Hex4(t)[2] && Hex4(s)[3] == Hex4(t)[3];
    assert s / 16 / 16 / 16 == t / 16 / 16 / 16;
    assert s / 16 / 16 == t / 16 / 16;
    assert s / 16 == t / 16;
  }

  predicate AllDigits(s: Bytes) {
    forall i :: 0 <= i < |s| ==> 48 <= s[i] <= 57
  }

  function Digits(s: Bytes): int {
    if s == [] then 0 else Digits(s[..|s| - 1]) * 10 + (s[|s| - 1] as int - 48)
  }

  function Clamp(x: int): int64 {
    if x < -0x8000_0000_0000_0000 then -0x8000_0000_0000_0000
    else if x >= 0x8000_0000_0000_0000 then 0x7FFF_FFFF_FFFF_FFFF else x
  }

  /** strconv.Atoi with its error ignored: 0 for bad syntax, the nearest int for an overflow. */
  function Atoi(s: Bytes): int64 {
    var neg := s != [] && s[0] == 45;
    var digits := if s != [] && (s[0] == 45 || s[0] == 43) then s[1..] else s;
    if digits == [] || !AllDigits(digits) then 0
    else Clamp(if neg then -Digits(digits) else Digits(digits))
  }

  lemma AtoiD2(n: int)
    requires 0 <= n < 100
    ensures Atoi(D2(n)) == n
  {
    var s := D2(n);
    assert s[..1] == [s[0]] && s[..1][..0] == [];
    assert Digits(s[..1]) == n / 10;
  }

  lemma AtoiD4(n: int)
    requires 0 <= n < 10000
    ensures Atoi(D4(n)) == n
  {
    var s := D4(n);
    assert s[..3][..2] == s[..2] && s[..2][..1] == s[..1] && s[..1][..0] == [];
    assert Digits(s[..1]) == n / 1000;
    assert Digits(s[..2]) == n / 100;
    assert Digits(s[..3]) == n / 10;
  }

  // ----- splitting -----

  const SLASH: byte := 0x2f
  const LETTER_T: byte := 0x54
  const DASH: byte := 0x2d

  /** strings.SplitN(s, c, 2) when c occurs. */
  function SplitFirst(s: Bytes, c: byte): Option<(Bytes, Bytes)> {
    if s == [] then None
    else if s[0] == c then Some(([], s[1..]))
    else match SplitFirst(s[1..], c)
      case None => None
      case Some((a, b)) => Some(([s[0]] + a, b))
  }

  /** strings.Split(s, c). */
  function SplitAll(s: Bytes, c: byte): seq<Bytes>
    decreases |s|
  {
    match SplitFirst(s, c)
    case None => [s]
    case Some((a, b)) => SplitFirstShorter(s, c); [a] + SplitAll(b, c)
  }

  lemma {:induction false} SplitFirstShorter(s: Bytes, c: byte)
    ensures SplitFirst(s, c).Some? ==>
      s == SplitFirst(s, c).value.0 + [c] + SplitFirst(s, c).value.1 && c !in SplitFirst(s, c).value.0
    ensures SplitFirst(s, c).None? ==> c !in s
  {
    if s != [] && s[0] != c {
      SplitFirstShorter(s[1..], c);
      assert s == [s[0]] + s[1..];
    }
  }

  lemma {:induction false} SplitFirstAt(a: Bytes, c: byte, b: Bytes)
    requires c !in a
    ensures SplitFirst(a + [c] + b, c) == Some((a, b))
  {
    var s := a + [c] + b;
    if a == [] {
      assert s[1..] == b;
    } else {
      assert s[1..] == a[1..] + [c] + b && a == [a[0]] + a[1..];
      SplitFirstAt(a[1..], c, b);
    }
  }

  lemma SplitFirstNone(s: Bytes, c: byte)
    requires c !in s
    ensures SplitFirst(s, c) == None
  {
    SplitFirstShorter(s, c);
  }

  // ----- block IDs -----

  /** "2006-01-02T15" of the hour that holds an instant. */
  function HourText(nano: int64): Bytes {
    YearRange(nano);
    DateRoundTrip(DayOf(nano));
    HourTextOf(HourOf(nano))
  }

  /** The text of an hour of the years 0 to 9999. */
  function HourTextOf(hour: int): Bytes
    requires hour / 24 + EPOCH_DAY >= 0 && Printable(DateOf(hour / 24 + EPOCH_DAY), hour % 24)
  {
    DateText(DateOf(hour / 24 + EPOCH_DAY), hour % 24)
  }

  predicate Printable(d: Date, hour: int) {
    0 <= d.year < 10000 && 0 <= d.month < 100 && 0 <= d.day < 100 && 0 <= hour < 100
  }

  /** %04d-%02d-%02dT%02d */
  function DateText(d: Date, hour: int): Bytes
    requires Printable(d, hour)
  {
    D4(d.year) + [DASH] + D2(d.month) + [DASH] + D2(d.day) + [LETTER_T] + D2(hour)
  }

  function DayOf(nano: int64): nat {
    HourOf(nano) / 24 + EPOCH_DAY
  }

  lemma YearRange(nano: int64)
    ensures 1677 <= DateOf(DayOf(nano)).year <= 2262
  {
    var n := DayOf(nano);
    assert 611000 <= n <= 826000;
    YearOfExact(n);
    var y := YearOf(n).0;
    if y < 1677 {
      DaysBeforeYearMonotone(y + 1, 1677);
    } else if y > 2262 {
      DaysBeforeYearMonotone(2263, y);
    }
  }

  lemma DaysBeforeYearMonotone(y: int, z: int)
    requires y <= z
    ensures DaysBeforeYear(y) <= DaysBeforeYear(z)
  {}

  function BlockIDForShard(shard: ShardID, nano: int64): BlockID {
    Hex4(shard) + [COLON] + HourText(nano)
  }

  /** parseBlockHour: the UTC hour, counted from the Unix epoch, named by a block ID. */
  function ParseBlockHour(id: BlockID): Result<int> {
    match SplitFirst(id, COLON)
    case None => Err("invalid block ID")
    case Some((_, hourStr)) =>
      match SplitFirst(hourStr, LETTER_T)
      case None => Err("invalid block ID hour")
      case Some((date, hour)) =>
        var ymd := SplitAll(date, DASH);
        if |ymd| != 3 then Err("invalid block ID date")
        else Ok((DayNumber(Date(Atoi(ymd[0]), Atoi(ymd[1]), Atoi(ymd[2]))) - EPOCH_DAY) * 24 + Atoi(hour))
  }

  lemma SplitDate(y: Bytes, m: Bytes, d: Bytes)
    requires DASH !in y && DASH !in m && DASH !in d
    ensures SplitAll(y + [DASH] + m + [DASH] + d, DASH) == [y, m, d]
  {
    assert y + [DASH] + m + [DASH] + d == y + [DASH] + (m + [DASH] + d);
    SplitFirstAt(y, DASH, m + [DASH] + d);
    SplitFirstAt(m, DASH, d);
    SplitFirstNone(d, DASH);
    assert SplitAll(d, DASH) == [d];
    assert SplitAll(m + [DASH] + d, DASH) == [m] + [d];
  }

  lemma ParseParts(p: Bytes, y: Bytes, m: Bytes, d: Bytes, h: Bytes)
    requires COLON !in p && DASH !in y && DASH !in m && DASH !in d && LETTER_T !in y && LETTER_T !in m && LETTER_T !in d
    ensures ParseBlockHour(p + [COLON] + (y + [DASH] + m + [DASH] + d + [LETTER_T] + h)) ==
      Ok((DayNumber(Date(Atoi(y), Atoi(m), Atoi(d))) - EPOCH_DAY) * 24 + Atoi(h))
  {
    hide DayNumber, Atoi, SplitFirst, SplitAll;
    var text := y + [DASH] + m + [DASH] + d;
    SplitFirstAt(p, COLON, text + [LETTER_T] + h);
    SplitFirstAt(text, LETTER_T, h);
    SplitDate(y, m, d);
  }

  lemma DateTextParses(p: Bytes, d: Date, hour: int)
    requires COLON !in p && Printable(d, hour)
    ensures ParseBlockHour(p + [COLON] + DateText(d, hour)) == Ok((DayNumber(d) - EPOCH_DAY) * 24 + hour)
  {
    hide DayNumber, D2, D4, Atoi;
    ParseParts(p, D4(d.year), D2(d.month), D2(d.day), D2(hour));
    AtoiD4(d.year);
    AtoiD2(d.month);
    AtoiD2(d.day);
    AtoiD2(hour);
  }

  /** The hour text parses back to the hour, whatever shard text precedes it. */
  lemma HourTextParses(nano: int64, p: Bytes)
    requires COLON !in p
    ensures ParseBlockHour(p + [COLON] + HourText(nano)) == Ok(HourOf(nano))
  {
    hide DayNumber, DateOf, DateText;
    YearRange(nano);
    DateRoundTrip(DayOf(nano));
    DateTextParses(p, DateOf(DayOf(nano)), HourOf(nano) % 24);
  }

  /** Parsing a built ID returns the hour it was built from, for every shard and every int64 instant. */
  lemma ParseBuiltID(shard: ShardID, nano: int64)
    ensures ParseBlockHour(BlockIDForShard(shard, nano)) == Ok(HourOf(nano))
  {
    HourTextParses(nano, Hex4(shard));
  }

  /** The ID of shard 0x01ab's first hour: 01ab:1970-01-01T00. */
  lemma EpochBlockID()
    ensures BlockIDForShard(0x01ab, 0) ==
      [0x30, 0x31, 0x61, 0x62, 0x3a, 0x31, 0x39, 0x37, 0x30, 0x2d, 0x30, 0x31, 0x2d, 0x30, 0x31, 0x54, 0x30, 0x30]
  {
    hide DateOf, DateText, Hex4;
    EpochDate();
    EpochText();
  }

  lemma EpochText()
    ensures Hex4(0x01ab) == [0x30, 0x31, 0x61, 0x62] && Printable(Date(1970, 1, 1), 0)
    ensures DateText(Date(1970, 1, 1), 0) ==
      [0x31, 0x39, 0x37, 0x30, 0x2d, 0x30, 0x31, 0x2d, 0x30, 0x31, 0x54, 0x30, 0x30]
  {}

  /** Two block IDs are equal exactly when shard and UTC hour are. */
  lemma BlockIdentity(s: ShardID, t: int64, s': ShardID, t': int64)
    ensures BlockIDForShard(s, t) == BlockIDForShard(s', t') <==> s == s' && HourOf(t) == HourOf(t')
  {
    ParseBuiltID(s, t);
    ParseBuiltID(s', t');
    SplitEqual(Hex4(s) + [COLON], HourText(t), Hex4(s') + [COLON], HourText(t'));
    SplitEqual(Hex4(s), [COLON], Hex4(s'), [COLON]);
    if Hex4(s) == Hex4(s') { Hex4Injective(s, s'); }
  }

  /** HourBoundaryNano, whose UnixNano wraps when the hour began before the first int64 instant. */
  function HourBoundaryNano(nano: int64): int64 {
    ToInt64((HourOf(nano) * NANOS_PER_HOUR) % TWO64)
  }

  /** The boundary is the start of the instant's hour exactly when that start is representable. */
  lemma HourBoundaryExact(nano: int64)
    ensures HourBoundaryNano(nano) == HourOf(nano) * NANOS_PER_HOUR <==>
      HourOf(nano) * NANOS_PER_HOUR >= -0x8000_0000_0000_0000
    ensures nano >= 0 ==> HourBoundaryNano(nano) <= nano < HourBoundaryNano(nano) + NANOS_PER_HOUR
  {}

  // ----- shards -----

  /** event_type << 8 | hash % 256 */
  function ShardFor(keyHash: uint64, eventType: byte): (s: ShardID)
    ensures s / 256 == eventType && s % 256 == keyHash % 256
  {
    eventType * 256 + keyHash % 256
  }

  // ----- file paths -----

  const BLOCK_SUFFIX: Bytes := [0x2e, 0x62, 0x6c, 0x6f, 0x63, 0x6b] // ".block"
  const BLOOM_SUFFIX: Bytes := [0x2e, 0x62, 0x6c, 0x6f, 0x6f, 0x6d] // ".bloom"
  const BLOCKS_DIR: Bytes := [0x2f, 0x62, 0x6c, 0x6f, 0x63, 0x6b, 0x73, 0x2f] // "/blocks/"

  function SplitBlockID(id: BlockID): (Bytes, Bytes) {
    match SplitFirst(id, COLON)
    case None => (id, [])
    case Some(p) => p
  }

  /** root/blocks/shard/hour.suffix, for a clean root. */
  function TierPath(root: Bytes, id: BlockID, suffix: Bytes): Bytes {
    var (shard, hour) := SplitBlockID(id);
    root + (BLOCKS_DIR + (shard + ([SLASH] + (hour + suffix))))
  }

  /** One store never keeps two files of different blocks, or a block and a bloom file, under one path. */
  lemma PathIdentity(root: Bytes, s: ShardID, t: int64, s': ShardID, t': int64)
    ensures var id, id' := BlockIDForShard(s, t), BlockIDForShard(s', t');
      && (TierPath(root, id, BLOCK_SUFFIX) == TierPath(root, id', BLOCK_SUFFIX) <==> id == id')
      && (TierPath(root, id, BLOOM_SUFFIX) == TierPath(root, id', BLOOM_SUFFIX) <==> id == id')
      && TierPath(root, id, BLOCK_SUFFIX) != TierPath(root, id', BLOOM_SUFFIX)
  {
    var id, id' := BlockIDForShard(s, t), BlockIDForShard(s', t');
    SplitFirstAt(Hex4(s), COLON, HourText(t));
    SplitFirstAt(Hex4(s'), COLON, HourText(t'));
    TierPathParts(root, Hex4(s), HourText(t), Hex4(s'), HourText(t'), BLOCK_SUFFIX, BLOCK_SUFFIX);
    TierPathParts(root, Hex4(s), HourText(t), Hex4(s'), HourText(t'), BLOOM_SUFFIX, BLOOM_SUFFIX);
    TierPathParts(root, Hex4(s), HourText(t), Hex4(s'), HourText(t'), BLOCK_SUFFIX, BLOOM_SUFFIX);
    assert BLOCK_SUFFIX[4] != BLOOM_SUFFIX[4];
  }

  lemma TierPathParts(root: Bytes, a: Bytes, h: Bytes, a': Bytes, h': Bytes, x: Bytes, x': Bytes)
    requires |a| == |a'| && |x| == |x'|
    ensures root + (BLOCKS_DIR + (a + ([SLASH] + (h + x)))) == root + (BLOCKS_DIR + (a' + ([SLASH] + (h' + x'))))
       <==> a == a' && h == h' && x == x'
  {
    Cancel(root, BLOCKS_DIR + (a + ([SLASH] + (h + x))), BLOCKS_DIR + (a' + ([SLASH] + (h' + x'))));
    Cancel(BLOCKS_DIR, a + ([SLASH] + (h + x)), a' + ([SLASH] + (h' + x')));
    SplitEqual(a, [SLASH] + (h + x), a', [SLASH] + (h' + x'));
    Cancel([SLASH], h + x, h' + x');
    if h + x == h' + x' { assert |h| == |h'|; SplitEqual(h, x, h', x'); }
  }

  lemma Cancel(p: Bytes, a: Bytes, b: Bytes)
    ensures p + a == p + b <==> a == b
  {
    SplitEqual(p, a, p, b);
  }

  lemma SplitEqual(p: Bytes, a: Bytes, q: Bytes, b: Bytes)
    requires |p| == |q|
    ensures p + a == q + b <==> p == q && a == b
  {
    assert (p + a)[..|p|] == p && (q + b)[..|q|] == q;
    assert (p + a)[|p|..] == a && (q + b)[|q|..] == b;
  }
}
