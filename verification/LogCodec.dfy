/** The bytes of a log record. `Parse` accepts a buffer exactly when it begins with some
    record's encoding, and returns that record; reading a log file cut anywhere returns
    exactly the records that lie wholly before the cut. */
module LogCodec {
  import opened Keys
  import opened LittleEndian
  import Crc32

  type U64 = x: nat | x < 0x1_0000_0000_0000_0000

  type U32 = x: nat | x < 0x1_0000_0000

  const HEADER_SIZE := 27
  const CRC_SIZE := 4
  const BEFORE_ABSENT := 0xFFFF

  datatype RecordType =
    PutType | DeleteType | AllocPageType | FreePageType | RootChangeType | CheckpointType | PageImageType | BeginType
    | CommitType | AbortType

  datatype LogRecord = LogRecord(
    lsn: U64, txid: U64, kind: RecordType, pageId: U32, opEnd: bool, key: Bytes, value: Bytes, before: Option<Bytes>)

  // ------------------------------------------------------------ checksum

  function ToBits(b: Bytes): (d: seq<bv8>) { seq(|b|, i requires 0 <= i < |b| => b[i] as bv8) }

  function Crc(b: Bytes): U32 { Crc32.Checksum(ToBits(b)) as nat }

  // ------------------------------------------------------------ records

  function Code(k: RecordType): (c: nat)
    ensures 1 <= c <= 10
  {
    match k
    case PutType => 1
    case DeleteType => 2
    case AllocPageType => 3
    case FreePageType => 4
    case RootChangeType => 5
    case CheckpointType => 6
    case PageImageType => 7
    case BeginType => 8
    case CommitType => 9
    case AbortType => 10
  }

  function KindOf(c: nat): (k: Option<RecordType>)
    ensures k.Some? <==> 1 <= c <= 10
    ensures k.Some? ==> Code(k.value) == c
  {
    if c == 1 then Some(PutType) else if c == 2 then Some(DeleteType) else if c == 3 then Some(AllocPageType)
    else if c == 4 then Some(FreePageType) else if c == 5 then Some(RootChangeType) else if c == 6
      then Some(CheckpointType)
    else if c == 7 then Some(PageImageType) else if c == 8 then Some(BeginType) else if c == 9 then Some(CommitType)
    else if c == 10 then Some(AbortType) else None
  }

  lemma KindOfCode(k: RecordType)
    ensures KindOf(Code(k)) == Some(k)
  {
  }

  /** The op-end flag rides in the high bit of the type byte. */
  function TypeByte(r: LogRecord): (b: Byte) { (Code(r.kind) + if r.opEnd then 128 else 0) as Byte }

  function BeforeBytes(r: LogRecord): Bytes { if r.before.Some? then r.before.value else [] }

  function BeforeLen(r: LogRecord): nat { if r.before.Some? then |r.before.value| else BEFORE_ABSENT }

  /** The fixed prefix. */
  function Header(r: LogRecord): (b: Bytes)
    ensures |b| == HEADER_SIZE
  {
    LE(r.lsn, 8) + LE(r.txid, 8) + [TypeByte(r)] + LE(r.pageId, 4) + LE(|r.key|, 2) + LE(|r.value|, 2)
      + LE(BeforeLen(r), 2)
  }

  function Body(r: LogRecord): Bytes { Header(r) + r.key + r.value + BeforeBytes(r) }

  /** `AppendTo`: what the record adds to the buffer. */
  function Encode(r: LogRecord): (b: Bytes)
    ensures |b| == Size(r)
  {
    Body(r) + LE(Crc(Body(r)), CRC_SIZE)
  }

  function Size(r: LogRecord): nat { HEADER_SIZE + |r.key| + |r.value| + |BeforeBytes(r)| + CRC_SIZE }

  /** What the 16-bit length fields can say; 0xFFFF in the last one means absent. */
  predicate Fits(r: LogRecord) { |r.key| <= 0xFFFF && |r.value| <= 0xFFFF && |BeforeBytes(r)| < BEFORE_ABSENT }

  /** The length fields of a header. */
  datatype Lengths = Lengths(key: nat, value: nat, before: nat)

  function LengthsOf(b: Bytes): Lengths
    requires |b| >= HEADER_SIZE
  {
    Lengths(FromLE(b[21..23]), FromLE(b[23..25]), FromLE(b[25..27]))
  }

  function Total(l: Lengths): nat
  {
    HEADER_SIZE + l.key + l.value + (if l.before == BEFORE_ABSENT then 0 else l.before) + CRC_SIZE
  }

  function Parse(b: Bytes): Option<(LogRecord, nat)>
  {
    if |b| < HEADER_SIZE + CRC_SIZE then None
    else
      var l := LengthsOf(b);
      var kind := KindOf(b[16] as nat % 128);
      var total := Total(l);
      if kind.None? || |b| < total || Crc(b[..total - CRC_SIZE]) != FromLE(b[total - CRC_SIZE..total]) then None
      else
        var k := HEADER_SIZE + l.key;
        var v := k + l.value;
        Bounds(b);
        Some((LogRecord(FromLE(b[..8]), FromLE(b[8..16]), kind.value, FromLE(b[17..21]), b[16] as nat >= 128,
                        b[HEADER_SIZE..k], b[k..v], if l.before == BEFORE_ABSENT then None
                          else Some(b[v..v + l.before])), total))
  }

  lemma Bounds(b: Bytes)
    requires |b| >= HEADER_SIZE
    ensures FromLE(b[..8]) < 0x1_0000_0000_0000_0000 && FromLE(b[8..16]) < 0x1_0000_0000_0000_0000
            && FromLE(b[17..21]) < 0x1_0000_0000
    ensures FromLE(b[21..23]) <= 0xFFFF && FromLE(b[23..25]) <= 0xFFFF && FromLE(b[25..27]) <= 0xFFFF
  {
    Powers();
  }

  // ------------------------------------------------------------ reading back a header

  /** The fields of a header, where `Parse` looks for them. */
  lemma HeaderFields(r: LogRecord, b: Bytes)
    requires |b| >= HEADER_SIZE && b[..HEADER_SIZE] == Header(r)
    ensures b[..8] == LE(r.lsn, 8) && b[8..16] == LE(r.txid, 8) && b[16] == TypeByte(r) && b[17..21] == LE(r.pageId, 4)
    ensures b[21..23] == LE(|r.key|, 2) && b[23..25] == LE(|r.value|, 2) && b[25..27] == LE(BeforeLen(r), 2)
  {
    hide LE;
    var h := Header(r);
    assert b[..8] == h[..8] && b[8..16] == h[8..16] && b[16] == h[16] && b[17..21] == h[17..21];
    assert b[21..23] == h[21..23] && b[23..25] == h[23..25] && b[25..27] == h[25..27];
  }

  lemma HeaderNumbers(r: LogRecord, b: Bytes)
    requires |b| >= HEADER_SIZE && b[..HEADER_SIZE] == Header(r) && Fits(r)
    ensures FromLE(b[..8]) == r.lsn && FromLE(b[8..16]) == r.txid && FromLE(b[17..21]) == r.pageId
    ensures LengthsOf(b) == Lengths(|r.key|, |r.value|, BeforeLen(r)) && Total(LengthsOf(b)) == Size(r)
    ensures KindOf(b[16] as nat % 128) == Some(r.kind) && (b[16] as nat >= 128 <==> r.opEnd)
  {
    hide LE, FromLE;
    HeaderFields(r, b);
    Powers();
    FromTo(r.lsn, 8);
    FromTo(r.txid, 8);
    FromTo(r.pageId, 4);
    FromTo(|r.key|, 2);
    FromTo(|r.value|, 2);
    FromTo(BeforeLen(r), 2);
    KindOfCode(r.kind);
  }

  lemma Slices(r: LogRecord, b: Bytes)
    requires Encode(r) <= b
    ensures b[..HEADER_SIZE] == Header(r) && b[..Size(r) - CRC_SIZE] == Body(r)
    ensures b[Size(r) - CRC_SIZE..Size(r)] == LE(Crc(Body(r)), CRC_SIZE)
  {
    hide LE, Crc, Header;
    var e := Encode(r);
    var n := Size(r);
    assert e[..HEADER_SIZE] == Header(r) && b[..HEADER_SIZE] == e[..HEADER_SIZE];
    assert e[..n - CRC_SIZE] == Body(r) && b[..n - CRC_SIZE] == e[..n - CRC_SIZE];
    assert e[n - CRC_SIZE..n] == LE(Crc(Body(r)), CRC_SIZE) && b[n - CRC_SIZE..n] == e[n - CRC_SIZE..n];
  }

  /** A buffer that begins with a record's bytes parses to that record. */
  lemma ParseFinds(b: Bytes, r: LogRecord)
    requires Fits(r) && Encode(r) <= b
    ensures Parse(b) == Some((r, Size(r)))
  {
    hide LE, FromLE, Crc, Header, KindOf, Encode, Body, LengthsOf, Total;
    Slices(r, b);
    HeaderNumbers(r, b);
    Payload(r, b);
    Powers();
    FromTo(Crc(Body(r)), CRC_SIZE);
  }

  lemma Payload(r: LogRecord, b: Bytes)
    requires Encode(r) <= b
    ensures var k := HEADER_SIZE + |r.key|; var v := k + |r.value|;
            b[HEADER_SIZE..k] == r.key && b[k..v] == r.value && b[v..v + |BeforeBytes(r)|] == BeforeBytes(r)
  {
    hide LE, Crc, Header;
    var e := Encode(r);
    var k := HEADER_SIZE + |r.key|;
    var v := k + |r.value|;
    var w := v + |BeforeBytes(r)|;
    assert b[HEADER_SIZE..k] == e[HEADER_SIZE..k] && b[k..v] == e[k..v] && b[v..w] == e[v..w];
  }

  /** What `Parse` returns, the buffer begins with. */
  lemma ParseMeans(b: Bytes)
    requires Parse(b).Some?
    ensures var (r, n) := Parse(b).value; Fits(r) && n == Size(r) && Encode(r) <= b
  {
    hide LE, FromLE, Crc, Header, KindOf, Body, Encode, Parse, LengthsOf;
    ParsedFields(b);
    var (r, n) := Parse(b).value;
    ParsedHeader(b, r);
    ParsedBody(b, r);
    ToFrom(b[n - CRC_SIZE..n]);
    ParsedBytes(b, r, n);
  }

  /** The fields of what `Parse` returns, and where they come from. */
  lemma ParsedFields(b: Bytes)
    requires Parse(b).Some?
    ensures var (r, n) := Parse(b).value;
            && HEADER_SIZE <= n - CRC_SIZE && n == Size(r) <= |b| && Fits(r)
            && r.lsn == FromLE(b[..8]) && r.txid == FromLE(b[8..16]) && r.pageId == FromLE(b[17..21])
            && Some(r.kind) == KindOf(b[16] as nat % 128) && (r.opEnd <==> b[16] as nat >= 128)
            && LengthsOf(b) == Lengths(|r.key|, |r.value|, BeforeLen(r))
            && Crc(b[..n - CRC_SIZE]) == FromLE(b[n - CRC_SIZE..n])
            && var (k, v) := (HEADER_SIZE + |r.key|, HEADER_SIZE + |r.key| + |r.value|);
               r.key == b[HEADER_SIZE..k] && r.value == b[k..v] && BeforeBytes(r) == b[v..v + |BeforeBytes(r)|]
  {
    hide FromLE, Crc, KindOf;
    Bounds(b);
  }

  lemma ParsedBody(b: Bytes, r: LogRecord)
    requires Size(r) <= |b| && b[..HEADER_SIZE] == Header(r)
    requires var k := HEADER_SIZE + |r.key|; var v := k + |r.value|;
             r.key == b[HEADER_SIZE..k] && r.value == b[k..v] && BeforeBytes(r) == b[v..v + |BeforeBytes(r)|]
    ensures Body(r) == b[..Size(r) - CRC_SIZE]
  {
    hide Header;
  }

  lemma ParsedBytes(b: Bytes, r: LogRecord, n: nat)
    requires n == Size(r) <= |b| && Body(r) == b[..n - CRC_SIZE] && LE(Crc(Body(r)), CRC_SIZE) == b[n - CRC_SIZE..n]
    ensures Encode(r) <= b
  {
    hide LE, Crc, Body;
    assert b[..n] == b[..n - CRC_SIZE] + b[n - CRC_SIZE..n];
  }

  lemma ParsedHeader(b: Bytes, r: LogRecord)
    requires |b| >= HEADER_SIZE
    requires r.lsn == FromLE(b[..8]) && r.txid == FromLE(b[8..16]) && r.pageId == FromLE(b[17..21])
    requires Some(r.kind) == KindOf(b[16] as nat % 128) && (r.opEnd <==> b[16] as nat >= 128)
    requires LengthsOf(b) == Lengths(|r.key|, |r.value|, BeforeLen(r))
    ensures Header(r) == b[..HEADER_SIZE]
  {
    hide LE, FromLE, KindOf;
    ToFrom(b[..8]);
    ToFrom(b[8..16]);
    ToFrom(b[17..21]);
    ToFrom(b[21..23]);
    ToFrom(b[23..25]);
    ToFrom(b[25..27]);
    assert TypeByte(r) == b[16] by { KindOfValue(b[16] as nat % 128); }
    assert b[..HEADER_SIZE] == b[..8] + b[8..16] + [b[16]] + b[17..21] + b[21..23] + b[23..25] + b[25..27];
  }

  lemma KindOfValue(c: nat)
    ensures KindOf(c).Some? ==> Code(KindOf(c).value) == c
  {
  }

  /** The codec, both ways: a buffer parses to a record exactly when it begins with that
      record's encoding and the record is within the field limits. */
  lemma ParseExactly(b: Bytes, r: LogRecord)
    ensures Parse(b) == Some((r, Size(r))) <==> Fits(r) && Encode(r) <= b
  {
    hide Parse, Encode, Fits;
    if Fits(r) && Encode(r) <= b {
      ParseFinds(b, r);
    }
    if Parse(b) == Some((r, Size(r))) {
      ParseMeans(b);
    }
  }

  /** A record cut short is not a record. */
  lemma ParseCut(r: LogRecord, n: nat)
    requires Fits(r) && n < Size(r)
    ensures Parse(Encode(r)[..n]) == None
  {
    var b := Encode(r)[..n];
    if n >= HEADER_SIZE + CRC_SIZE {
      assert b[..HEADER_SIZE] == Header(r) by { assert Encode(r)[..HEADER_SIZE] == Header(r); }
      HeaderNumbers(r, b);
    }
  }

  // ------------------------------------------------------------ damage

  /** A record ends with the CRC-32 of everything before it. */
  lemma Sealed(r: LogRecord)
    ensures var (e, n) := (Encode(r), Size(r) - CRC_SIZE);
            && n >= HEADER_SIZE && |e| == n + CRC_SIZE && e[..n] == Body(r)
            && e[n..] == LE(Crc32.Checksum(ToBits(e[..n])) as nat, CRC_SIZE)
  {
    hide LE, Header, ToBits;
    var e := Encode(r);
    var n := Size(r) - CRC_SIZE;
    assert e[..n] == Body(r) && e[n..] == LE(Crc(Body(r)), CRC_SIZE);
  }

  lemma BitsDiffer(a: Bytes, b: Bytes)
    requires ToBits(a) == ToBits(b)
    ensures a == b
  {
    forall i | 0 <= i < |a| ensures a[i] == b[i] {
      assert ToBits(a)[i] == ToBits(b)[i];
      CastInjective(a[i], b[i]);
    }
  }

  lemma BitsConcat(a: Bytes, b: Bytes)
    ensures ToBits(a + b) == ToBits(a) + ToBits(b)
  {
  }

  lemma WordBack(x: bv32)
    ensures (x as nat) as bv32 == x
  {
  }

  /** Bytes that differ only within four adjacent places have different checksums. */
  lemma CrcDiffers(a: Bytes, b: Bytes, at: nat)
    requires |a| == |b| && at + 4 <= |a| && a != b && a[..at] == b[..at] && a[at + 4..] == b[at + 4..]
    ensures Crc32.Checksum(ToBits(a)) != Crc32.Checksum(ToBits(b)) && Crc(a) != Crc(b)
  {
    hide ToBits, Crc32.Checksum;
    var (x, y) := (a[at..at + 4], b[at..at + 4]);
    assert a == a[..at] + x + a[at + 4..] && b == a[..at] + y + a[at + 4..];
    BitsConcat(a[..at] + x, a[at + 4..]);
    BitsConcat(a[..at] + y, a[at + 4..]);
    BitsConcat(a[..at], x);
    BitsConcat(a[..at], y);
    FourBits(x);
    FourBits(y);
    if ToBits(x) == ToBits(y) { BitsDiffer(x, y); }
    Crc32.BurstDetected(ToBits(a[..at]), ToBits(x), ToBits(y), ToBits(a[at + 4..]));
    WordBack(Crc32.Checksum(ToBits(a)));
    WordBack(Crc32.Checksum(ToBits(b)));
  }

  lemma FourBits(x: Bytes)
    ensures |ToBits(x)| == |x|
  {
  }

  /** `b` begins with the record's bytes but for a change within the four places from `at`,
      in what the checksum covers or in the checksum itself; the length fields stand. */
  ghost predicate Damaged(b: Bytes, r: LogRecord, at: nat)
  {
    && (at + 4 <= Size(r) - CRC_SIZE || at == Size(r) - CRC_SIZE) && Size(r) <= |b|
    && var e := Encode(r);
       && b[..at] == e[..at] && b[at + 4..Size(r)] == e[at + 4..] && b[..Size(r)] != e
       && b[21..27] == e[21..27]
  }

  /** A damaged record is no record: not the one that was written, nor any other. */
  lemma DamageFound(b: Bytes, r: LogRecord, at: nat)
    requires Fits(r) && Damaged(b, r, at)
    ensures Parse(b) == None
  {
    hide LE, FromLE, Crc, Header, KindOf, Encode, Body;
    var (e, n) := (Encode(r), Size(r) - CRC_SIZE);
    Sealed(r);
    SameLengths(b, r);
    CrcIs(r);
    Parts(b, e, n);
    if at == n {
      assert b[..n] == e[..n];
      ToFrom(b[n..n + CRC_SIZE]);
    } else {
      DamagedParts(b, r, at, e, n);
      CrcDiffers(b[..n], e[..n], at);
    }
    Unsealed(b, n);
  }

  /** Nothing parses where the checksum is not that of the bytes before it. */
  lemma Unsealed(b: Bytes, n: nat)
    requires HEADER_SIZE <= n && n + CRC_SIZE <= |b| && Total(LengthsOf(b)) == n + CRC_SIZE
    requires Crc(b[..n]) != FromLE(b[n..n + CRC_SIZE])
    ensures Parse(b) == None
  {
    hide FromLE, Crc, KindOf, LengthsOf, Total;
  }

  lemma Parts(b: Bytes, e: Bytes, n: nat)
    requires n + CRC_SIZE == |e| <= |b| && b[..n + CRC_SIZE] != e
    ensures b[..n] != e[..n] || b[n..n + CRC_SIZE] != e[n..]
  {
    assert b[..n + CRC_SIZE] == b[..n] + b[n..n + CRC_SIZE] && e == e[..n] + e[n..];
  }

  lemma DamagedParts(b: Bytes, r: LogRecord, at: nat, e: Bytes, n: nat)
    requires Damaged(b, r, at) && e == Encode(r) && n == Size(r) - CRC_SIZE && at + 4 <= n
    ensures b[n..n + CRC_SIZE] == e[n..] && b[..n][..at] == e[..n][..at] && b[..n][at + 4..] == e[..n][at + 4..]
  {
    hide Encode;
    Within(b, at + 4, Size(r), n - at - 4, Size(r) - at - 4);
    Within(e, at + 4, Size(r), n - at - 4, Size(r) - at - 4);
    Within(b, at + 4, Size(r), 0, n - at - 4);
    Within(e, at + 4, Size(r), 0, n - at - 4);
    Within(b, 0, n, 0, at);
    Within(e, 0, n, 0, at);
    Within(b, 0, n, at + 4, n);
    Within(e, 0, n, at + 4, n);
    assert e[..Size(r)] == e;
  }

  /** The checksum read back from the record is the one that was written. */
  lemma CrcIs(r: LogRecord)
    ensures var (e, n) := (Encode(r), Size(r) - CRC_SIZE);
            |e| == n + CRC_SIZE && Crc(e[..n]) == FromLE(e[n..]) && e[n..] == LE(Crc(e[..n]), CRC_SIZE)
  {
    hide LE, FromLE, Header, ToBits, Crc32.Checksum;
    Sealed(r);
    Powers();
    FromTo(Crc(Body(r)), CRC_SIZE);
  }

  lemma Within(b: Bytes, i: nat, j: nat, x: nat, y: nat)
    requires x <= y && i + y <= j <= |b|
    ensures b[i..j][x..y] == b[i + x..i + y]
  {
    var (s, t) := (b[i..j][x..y], b[i + x..i + y]);
    assert |s| == |t| && forall k :: 0 <= k < |s| ==> s[k] == t[k];
  }

  lemma LengthFields(b: Bytes)
    requires |b| >= HEADER_SIZE
    ensures b[21..23] == b[21..27][0..2] && b[23..25] == b[21..27][2..4] && b[25..27] == b[21..27][4..6]
  {
    Within(b, 21, 27, 0, 2);
    Within(b, 21, 27, 2, 4);
    Within(b, 21, 27, 4, 6);
  }

  lemma SameLengths(b: Bytes, r: LogRecord)
    requires Fits(r) && Size(r) <= |b| && b[21..27] == Encode(r)[21..27]
    ensures Total(LengthsOf(b)) == Size(r)
  {
    hide LE, FromLE, KindOf;
    var e := Encode(r);
    assert e[..HEADER_SIZE] == Header(r) by { hide Crc; }
    HeaderNumbers(r, e);
    LengthFields(b);
    LengthFields(e);
  }

  /** One byte altered anywhere but in the length fields is found. */
  lemma FlipFound(b: Bytes, r: LogRecord, i: nat)
    requires Fits(r) && Size(r) <= |b| && i < Size(r) && !(21 <= i < 27) && b[i] != Encode(r)[i]
    requires forall j :: 0 <= j < Size(r) && j != i ==> b[j] == Encode(r)[j]
    ensures Parse(b) == None
  {
    hide Encode, Parse;
    var n := Size(r) - CRC_SIZE;
    var at := if i >= n then n else if i + 4 <= n then i else n - 4;
    assert b[21..27] == Encode(r)[21..27];
    assert Damaged(b, r, at) by {
      assert b[..Size(r)][i] != Encode(r)[i];
    }
    DamageFound(b, r, at);
  }
}
