/** CRC-32 with the reflected polynomial 0xEDB88320 (the checksum of section 8 of
    RFC 1952). `Update` is the definition, one bit at a time; the code builds eight
    tables and takes eight bytes at a step, and is proved equal to it. */
module Crc32 {
  const POLY: bv32 := 0xEDB88320
  const ONES: bv32 := 0xFFFF_FFFF

  function Xor(a: bv32, b: bv32): bv32 { a ^ b }

  // ------------------------------------------------------------ the definition

  function Step(c: bv32): bv32 { if c & 1 == 1 then (c >> 1) ^ POLY else c >> 1 }

  function ByteStep(c: bv32): bv32 { Step(Step(Step(Step(Step(Step(Step(Step(c)))))))) }

  function Update(crc: bv32, data: seq<bv8>): bv32
  {
    if data == [] then crc else ByteStep(Xor(Update(crc, data[..|data| - 1]), data[|data| - 1] as bv32))
  }

  function Checksum(data: seq<bv8>): bv32 { Xor(Update(ONES, data), ONES) }

  // ------------------------------------------------------------ linearity

  lemma ShiftFacts(a: bv32, b: bv32)
    ensures (a ^ b) >> 1 == (a >> 1) ^ (b >> 1) && (a ^ b) & 1 == (a & 1) ^ (b & 1)
    ensures a & 1 == 0 || a & 1 == 1
  {
  }

  lemma XorFacts(a: bv32, b: bv32, c: bv32)
    ensures (a ^ c) ^ b == (a ^ b) ^ c && (a ^ c) ^ (b ^ c) == a ^ b && a ^ (b ^ c) == (a ^ b) ^ c
  {
  }

  lemma StepOfXor(a: bv32, b: bv32)
    ensures Step(a ^ b) == Step(a) ^ Step(b)
  {
    ShiftFacts(a, b);
    ShiftFacts(b, a);
    XorFacts(a >> 1, b >> 1, POLY);
  }

  lemma StepLinear(a: bv32, b: bv32)
    ensures Step(Xor(a, b)) == Xor(Step(a), Step(b))
  {
    StepOfXor(a, b);
    hide Step;
  }

  lemma XorAssoc(a: bv32, b: bv32, c: bv32)
    ensures Xor(Xor(a, b), c) == Xor(a, Xor(b, c))
  {
  }

  lemma XorComm(a: bv32, b: bv32)
    ensures Xor(a, b) == Xor(b, a)
  {
  }

  lemma ByteStepLinear(a: bv32, b: bv32)
    ensures ByteStep(Xor(a, b)) == Xor(ByteStep(a), ByteStep(b))
  {
    hide Step, Xor;
    var (a1, b1) := (Step(a), Step(b));
    var (a2, b2) := (Step(a1), Step(b1));
    var (a3, b3) := (Step(a2), Step(b2));
    var (a4, b4) := (Step(a3), Step(b3));
    var (a5, b5) := (Step(a4), Step(b4));
    var (a6, b6) := (Step(a5), Step(b5));
    var (a7, b7) := (Step(a6), Step(b6));
    StepLinear(a, b);
    StepLinear(a1, b1);
    StepLinear(a2, b2);
    StepLinear(a3, b3);
    StepLinear(a4, b4);
    StepLinear(a5, b5);
    StepLinear(a6, b6);
    StepLinear(a7, b7);
  }

  /** A byte that sits above eight zero bits just moves down. */
  lemma ByteStepMoves(c: bv32)
    requires c <= 0xFF_FFFF
    ensures ByteStep(c << 8) == c
  {
  }

  lemma ByteStepHigh(c: bv32)
    ensures ByteStep(c & 0xFFFF_FF00) == c >> 8
    ensures Xor(c & 0xFF, c & 0xFFFF_FF00) == c
  {
  }

  /** The table step: look up the low byte, shift the rest. */
  lemma TableStep(c: bv32)
    ensures ByteStep(c) == Xor(ByteStep(c & 0xFF), c >> 8)
  {
    ByteStepHigh(c);
    hide Xor, ByteStep;
    ByteStepLinear(c & 0xFF, c & 0xFFFF_FF00);
  }

  // ------------------------------------------------------------ several bytes of steps

  function After(k: nat, c: bv32): bv32 { if k == 0 then c else ByteStep(After(k - 1, c)) }

  lemma {:induction false} AfterLinear(k: nat, a: bv32, b: bv32)
    ensures After(k, Xor(a, b)) == Xor(After(k, a), After(k, b))
  {
    hide ByteStep, Xor;
    if k > 0 {
      AfterLinear(k - 1, a, b);
      ByteStepLinear(After(k - 1, a), After(k - 1, b));
    }
  }

  lemma {:induction false} AfterAdd(j: nat, k: nat, c: bv32)
    ensures After(j, After(k, c)) == After(j + k, c)
  {
    hide ByteStep;
    if j > 0 {
      AfterAdd(j - 1, k, c);
    }
  }

  lemma AfterOne(c: bv32)
    ensures After(1, c) == ByteStep(c)
  {
    hide ByteStep;
    assert After(0, c) == c;
  }

  /** A byte put at position `j` of a word, and the byte found there. */
  function Put(j: nat, b: bv32): bv32 {
    if j == 0 then b else if j == 1 then b << 8 else if j == 2 then b << 16 else b << 24
  }

  function Part(j: nat, x: bv32): (b: bv32)
    ensures b <= 0xFF
  {
    if j == 0 then x & 0xFF else if j == 1 then (x >> 8) & 0xFF else if j == 2 then (x >> 16) & 0xFF else x >> 24
  }

  lemma PutMoves(j: nat, b: bv32)
    requires 0 < j < 4 && b <= 0xFF
    ensures ByteStep(Put(j, b)) == Put(j - 1, b)
  {
    ByteStepMoves(Put(j - 1, b));
  }

  /** A byte at position `j` reaches the bottom after `j` byte steps. */
  lemma {:induction false} PutArrives(j: nat, b: bv32)
    requires j < 4 && b <= 0xFF
    ensures After(j, Put(j, b)) == b
  {
    if j > 0 {
      PutMoves(j, b);
      hide ByteStep, Put;
      PutArrives(j - 1, b);
      AfterAdd(j - 1, 1, Put(j, b));
      AfterOne(Put(j, b));
    }
  }

  /** One more byte taken in after `k` is as if it had been in the word from the start. */
  lemma TakeByte(k: nat, x: bv32, b: bv32)
    requires k < 4 && b <= 0xFF
    ensures ByteStep(Xor(After(k, x), b)) == After(k + 1, Xor(x, Put(k, b)))
  {
    hide ByteStep, Xor, Put;
    PutArrives(k, b);
    AfterLinear(k, x, Put(k, b));
  }

  // ------------------------------------------------------------ four and eight bytes

  /** memcpy of four bytes into a little-endian word. */
  function Word(b0: bv8, b1: bv8, b2: bv8, b3: bv8): bv32
  {
    Xor(Xor(Xor(b0 as bv32, Put(1, b1 as bv32)), Put(2, b2 as bv32)), Put(3, b3 as bv32))
  }

  lemma WordIsXor(c: bv32, b0: bv8, b1: bv8, b2: bv8, b3: bv8)
    ensures Xor(c, Word(b0, b1, b2, b3)) ==
            Xor(Xor(Xor(Xor(c, b0 as bv32), Put(1, b1 as bv32)), Put(2, b2 as bv32)), Put(3, b3 as bv32))
  {
    hide Xor, Put;
    var (w0, w1, w2, w3) := (b0 as bv32, Put(1, b1 as bv32), Put(2, b2 as bv32), Put(3, b3 as bv32));
    XorAssoc(c, Xor(Xor(w0, w1), w2), w3);
    XorAssoc(c, Xor(w0, w1), w2);
    XorAssoc(c, w0, w1);
  }

  lemma ByteIsSmall(b: bv8)
    ensures (b as bv32) <= 0xFF
  {
  }

  lemma UpdateOne(crc: bv32, data: seq<bv8>, b: bv8)
    ensures Update(crc, data + [b]) == ByteStep(Xor(Update(crc, data), b as bv32))
  {
    hide ByteStep, Xor;
    assert (data + [b])[..|data|] == data;
  }

  lemma UpdateNone(crc: bv32)
    ensures Update(crc, []) == crc
  {
  }

  lemma FourBytes(c: bv32, b0: bv8, b1: bv8, b2: bv8, b3: bv8)
    ensures Update(c, [b0, b1, b2, b3]) == After(4, Xor(c, Word(b0, b1, b2, b3)))
  {
    hide Word, Xor, Put, ByteStep, Update;
    var (w0, w1, w2, w3) := (b0 as bv32, b1 as bv32, b2 as bv32, b3 as bv32);
    var x0 := Xor(c, w0);
    var x1 := Xor(x0, Put(1, w1));
    var x2 := Xor(x1, Put(2, w2));
    WordIsXor(c, b0, b1, b2, b3);
    ByteIsSmall(b1);
    ByteIsSmall(b2);
    ByteIsSmall(b3);
    UpdateNone(c);
    UpdateOne(c, [], b0);
    UpdateOne(c, [b0], b1);
    UpdateOne(c, [b0, b1], b2);
    UpdateOne(c, [b0, b1, b2], b3);
    assert [] + [b0] == [b0] && [b0] + [b1] == [b0, b1] && [b0, b1] + [b2] == [b0, b1, b2]
           && [b0, b1, b2] + [b3] == [b0, b1, b2, b3];
    AfterOne(x0);
    hide After;
    TakeByte(1, x0, w1);
    TakeByte(2, x1, w2);
    TakeByte(3, x2, w3);
  }

  lemma WordParts(x: bv32)
    ensures x == Xor(Xor(Xor(Part(0, x), Put(1, Part(1, x))), Put(2, Part(2, x))), Put(3, Part(3, x)))
  {
  }

  /** The byte at position `j` of a word, `k` steps later. */
  lemma PartAfter(k: nat, j: nat, b: bv32)
    requires j < 4 && b <= 0xFF
    ensures After(k + j, Put(j, b)) == After(k, b)
  {
    hide ByteStep, Put;
    PutArrives(j, b);
    AfterAdd(k, j, Put(j, b));
  }

  /** The four table lookups of one word. */
  lemma WordLookups(k: nat, x: bv32)
    ensures After(k + 4, x) ==
            Xor(Xor(Xor(After(k + 4, Part(0, x)), After(k + 3, Part(1, x))), After(k + 2, Part(2, x))),
              After(k + 1, Part(3, x)))
  {
    hide ByteStep, Xor, Put, Part, After;
    var (x0, x1, x2, x3) := (Part(0, x), Part(1, x), Part(2, x), Part(3, x));
    WordParts(x);
    AfterLinear(k + 4, Xor(Xor(x0, Put(1, x1)), Put(2, x2)), Put(3, x3));
    AfterLinear(k + 4, Xor(x0, Put(1, x1)), Put(2, x2));
    AfterLinear(k + 4, x0, Put(1, x1));
    PartAfter(k + 3, 1, x1);
    PartAfter(k + 2, 2, x2);
    PartAfter(k + 1, 3, x3);
  }

  lemma {:induction false} UpdateConcat(crc: bv32, a: seq<bv8>, b: seq<bv8>)
    ensures Update(crc, a + b) == Update(Update(crc, a), b)
    decreases |b|
  {
    hide ByteStep, Xor;
    if b == [] {
      assert a + b == a;
    } else {
      var n := |b| - 1;
      UpdateConcat(crc, a, b[..n]);
      assert a + b == (a + b[..n]) + [b[n]];
      UpdateOne(crc, a + b[..n], b[n]);
    }
  }

  lemma EightBytes(crc: bv32, d: seq<bv8>)
    requires |d| == 8
    ensures Update(crc, d) == Xor(After(8, Xor(crc, Word(d[0], d[1], d[2], d[3]))),
            After(4, Word(d[4], d[5], d[6], d[7])))
  {
    hide ByteStep, Word, Xor, After, Update;
    var x := Xor(crc, Word(d[0], d[1], d[2], d[3]));
    var high := Word(d[4], d[5], d[6], d[7]);
    assert d == [d[0], d[1], d[2], d[3]] + [d[4], d[5], d[6], d[7]];
    UpdateConcat(crc, [d[0], d[1], d[2], d[3]], [d[4], d[5], d[6], d[7]]);
    FourBytes(crc, d[0], d[1], d[2], d[3]);
    FourBytes(After(4, x), d[4], d[5], d[6], d[7]);
    AfterLinear(4, After(4, x), high);
    AfterAdd(4, 4, x);
  }

  // ------------------------------------------------------------ what it detects

  /** One bit step loses nothing: the polynomial's top bit remembers the bit shifted out. */
  lemma StepInjective(a: bv32, b: bv32)
    requires Step(a) == Step(b)
    ensures a == b
  {
  }

  lemma ByteStepInjective(a: bv32, b: bv32)
    requires ByteStep(a) == ByteStep(b)
    ensures a == b
  {
    hide Step;
    var (a1, b1) := (Step(a), Step(b));
    var (a2, b2) := (Step(a1), Step(b1));
    var (a3, b3) := (Step(a2), Step(b2));
    var (a4, b4) := (Step(a3), Step(b3));
    var (a5, b5) := (Step(a4), Step(b4));
    var (a6, b6) := (Step(a5), Step(b5));
    var (a7, b7) := (Step(a6), Step(b6));
    StepInjective(a7, b7);
    StepInjective(a6, b6);
    StepInjective(a5, b5);
    StepInjective(a4, b4);
    StepInjective(a3, b3);
    StepInjective(a2, b2);
    StepInjective(a1, b1);
    StepInjective(a, b);
  }

  lemma {:induction false} AfterInjective(k: nat, a: bv32, b: bv32)
    requires After(k, a) == After(k, b)
    ensures a == b
  {
    hide ByteStep;
    if k > 0 {
      ByteStepInjective(After(k - 1, a), After(k - 1, b));
      AfterInjective(k - 1, a, b);
    }
  }

  lemma XorInjective(a: bv32, b: bv32, c: bv32)
    requires Xor(a, c) == Xor(b, c) || Xor(c, a) == Xor(c, b)
    ensures a == b
  {
  }

  /** From different states the same bytes lead to different states. */
  lemma {:induction false} UpdateInjective(a: bv32, b: bv32, data: seq<bv8>)
    requires Update(a, data) == Update(b, data)
    ensures a == b
    decreases |data|
  {
    hide ByteStep, Xor;
    if data != [] {
      var n := |data| - 1;
      var x := data[n] as bv32;
      ByteStepInjective(Xor(Update(a, data[..n]), x), Xor(Update(b, data[..n]), x));
      XorInjective(Update(a, data[..n]), Update(b, data[..n]), x);
      UpdateInjective(a, b, data[..n]);
    }
  }

  lemma WordInjective(a: seq<bv8>, b: seq<bv8>)
    requires |a| == |b| == 4 && Word(a[0], a[1], a[2], a[3]) == Word(b[0], b[1], b[2], b[3])
    ensures a == b
  {
    WordBytes(a[0], a[1], a[2], a[3]);
    WordBytes(b[0], b[1], b[2], b[3]);
  }

  lemma WordBytes(b0: bv8, b1: bv8, b2: bv8, b3: bv8)
    ensures var w := Word(b0, b1, b2, b3);
            (w & 0xFF) as bv8 == b0 && ((w >> 8) & 0xFF) as bv8 == b1 && ((w >> 16) & 0xFF) as bv8 == b2
            && (w >> 24) as bv8 == b3
  {
  }

  /** Every change confined to four adjacent bytes changes the checksum. */
  lemma BurstDetected(head: seq<bv8>, a: seq<bv8>, b: seq<bv8>, tail: seq<bv8>)
    requires |a| == |b| == 4 && a != b
    ensures Checksum(head + a + tail) != Checksum(head + b + tail)
  {
    hide ByteStep, Xor, Word, After, Update;
    var c := Update(ONES, head);
    UpdateConcat(ONES, head, a);
    UpdateConcat(ONES, head, b);
    UpdateConcat(ONES, head + a, tail);
    UpdateConcat(ONES, head + b, tail);
    assert a == [a[0], a[1], a[2], a[3]] && b == [b[0], b[1], b[2], b[3]];
    var (v, w) := (Word(a[0], a[1], a[2], a[3]), Word(b[0], b[1], b[2], b[3]));
    FourBytes(c, a[0], a[1], a[2], a[3]);
    FourBytes(c, b[0], b[1], b[2], b[3]);
    if Checksum(head + a + tail) == Checksum(head + b + tail) {
      XorInjective(Update(ONES, head + a + tail), Update(ONES, head + b + tail), ONES);
      UpdateInjective(Update(c, a), Update(c, b), tail);
      AfterInjective(4, Xor(c, v), Xor(c, w));
      XorInjective(v, w, c);
      WordInjective(a, b);
    }
  }

  // ------------------------------------------------------------ the check value

  lemma Takes(data: seq<bv8>, b: bv8, c: bv32, c': bv32)
    requires Update(ONES, data) == c && ByteStep(Xor(c, b as bv32)) == c'
    ensures Update(ONES, data + [b]) == c'
  {
    hide ByteStep, Xor;
    UpdateOne(ONES, data, b);
  }

  /** The checksum of the ASCII string "123456789" is the algorithm's check value. */
  lemma CheckValue()
    ensures Checksum([0x31, 0x32, 0x33, 0x34, 0x35, 0x36, 0x37, 0x38, 0x39]) == 0xCBF43926
  {
    hide Update;
    var d: seq<bv8> := [0x31, 0x32, 0x33, 0x34, 0x35, 0x36, 0x37, 0x38, 0x39];
    forall k | 0 <= k < 9 ensures d[..k + 1] == d[..k] + [d[k]] {
    }
    assert d[..9] == d;
    UpdateNone(ONES);
    Takes(d[..0], 0x31, ONES, 0x7C231048);
    Takes(d[..1], 0x32, 0x7C231048, 0xB0ACBB32);
    Takes(d[..2], 0x33, 0xB0ACBB32, 0x77B79C2D);
    Takes(d[..3], 0x34, 0x77B79C2D, 0x641C1F5C);
    Takes(d[..4], 0x35, 0x641C1F5C, 0x340AC5E3);
    Takes(d[..5], 0x36, 0x340AC5E3, 0xF68D2C9E);
    Takes(d[..6], 0x37, 0xF68D2C9E, 0xAFFC9660);
    Takes(d[..7], 0x38, 0xAFFC9660, 0x651F2550);
    Takes(d[..8], 0x39, 0x651F2550, 0x340BC6D9);
  }

  // ------------------------------------------------------------ the tables

  function Entry(i: nat): bv32
    requires i < 256
  {
    (i as bv8) as bv32
  }

  /** The table index of a byte-sized word. */
  function Index(x: bv32): (i: nat)
    requires x <= 0xFF
    ensures i < 256 && Entry(i) == x
  {
    var y := x as bv8;
    NarrowWiden(x);
    NatBack(y);
    y as nat
  }

  lemma NarrowWiden(x: bv32)
    requires x <= 0xFF
    ensures (x as bv8) as bv32 == x
  {
  }

  lemma NatBack(y: bv8)
    ensures (y as nat) < 256 && (y as nat) as bv8 == y
  {
  }

  function Bits(j: nat, c: bv32): bv32 { if j == 0 then c else Step(Bits(j - 1, c)) }

  lemma EightBits(c: bv32)
    ensures Bits(8, c) == ByteStep(c)
  {
    hide Step;
    assert Bits(0, c) == c;
    assert Bits(1, c) == Step(c);
    assert Bits(2, c) == Step(Bits(1, c));
    assert Bits(3, c) == Step(Bits(2, c));
    assert Bits(4, c) == Step(Bits(3, c));
    assert Bits(5, c) == Step(Bits(4, c));
    assert Bits(6, c) == Step(Bits(5, c));
    assert Bits(7, c) == Step(Bits(6, c));
    assert Bits(8, c) == Step(Bits(7, c));
  }

  /** Table `k` maps a byte to itself followed by `k` zero bytes. */
  ghost predicate TablesOk(t: array2<bv32>)
    reads t
  {
    t.Length0 == 8 && t.Length1 == 256 && forall k, i :: 0 <= k < 8 && 0 <= i < 256 ==>
      t[k, i] == After(k + 1, Entry(i))
  }

  method GenerateTables() returns (t: array2<bv32>)
    ensures fresh(t) && TablesOk(t)
  {
    hide ByteStep, Step, Entry, Xor;
    t := new bv32[8, 256];
    for i := 0 to 256
      invariant forall j :: 0 <= j < i ==> t[0, j] == ByteStep(Entry(j))
    {
      var crc := Entry(i);
      for j := 0 to 8
        invariant crc == Bits(j, Entry(i))
      {
        crc := Step(crc);
      }
      EightBits(Entry(i));
      t[0, i] := crc;
    }
    for i := 0 to 256
      invariant forall j :: 0 <= j < 256 ==> t[0, j] == ByteStep(Entry(j))
      invariant forall k, j :: 0 <= k < 8 && 0 <= j < i ==> t[k, j] == After(k + 1, Entry(j))
    {
      AfterOne(Entry(i));
      for k := 1 to 8
        invariant forall j :: 0 <= j < 256 ==> t[0, j] == ByteStep(Entry(j))
        invariant forall k, j :: 0 <= k < 8 && 0 <= j < i ==> t[k, j] == After(k + 1, Entry(j))
        invariant forall m :: 0 <= m < k ==> t[m, i] == After(m + 1, Entry(i))
      {
        var x := t[k - 1, i];
        MaskSmall(x);
        TableStep(x);
        XorComm(x >> 8, ByteStep(x & 0xFF));
        t[k, i] := Xor(x >> 8, t[0, Index(x & 0xFF)]);
        assert t[k, i] == ByteStep(After(k, Entry(i)));
      }
    }
  }

  lemma MaskSmall(x: bv32)
    ensures x & 0xFF <= 0xFF
  {
  }

  method Lookup(t: array2<bv32>, k: nat, x: bv32) returns (r: bv32)
    requires TablesOk(t) && k < 8 && x <= 0xFF
    ensures r == After(k + 1, x)
  {
    hide Entry, After;
    var i := Index(x);
    r := t[k, i];
  }

  /** One turn of the main loop: eight lookups. */
  method TakeEight(t: array2<bv32>, crc: bv32, d: seq<bv8>) returns (r: bv32)
    requires TablesOk(t) && |d| == 8
    ensures r == Update(crc, d)
  {
    hide ByteStep, After, Update, Word, Xor, Part;
    var low := Xor(Word(d[0], d[1], d[2], d[3]), crc);
    var high := Word(d[4], d[5], d[6], d[7]);
    XorComm(Word(d[0], d[1], d[2], d[3]), crc);
    EightBytes(crc, d);
    WordLookups(4, low);
    WordLookups(0, high);
    var l0 := Lookup(t, 7, Part(0, low));
    var l1 := Lookup(t, 6, Part(1, low));
    var l2 := Lookup(t, 5, Part(2, low));
    var l3 := Lookup(t, 4, Part(3, low));
    var h0 := Lookup(t, 3, Part(0, high));
    var h1 := Lookup(t, 2, Part(1, high));
    var h2 := Lookup(t, 1, Part(2, high));
    var h3 := Lookup(t, 0, Part(3, high));
    var l := Xor(Xor(Xor(l0, l1), l2), l3);
    r := Xor(Xor(Xor(Xor(l, h0), h1), h2), h3);
    XorAssoc(l, h0, h1);
    XorAssoc(l, Xor(h0, h1), h2);
    XorAssoc(l, Xor(Xor(h0, h1), h2), h3);
  }

  /** One turn of the tail loop. */
  method TakeOne(t: array2<bv32>, crc: bv32, b: bv8) returns (r: bv32)
    requires TablesOk(t)
    ensures r == ByteStep(Xor(crc, b as bv32))
  {
    hide ByteStep, After, Xor, Entry;
    var x := Xor(crc, b as bv32);
    MaskSmall(x);
    var l := Lookup(t, 0, x & 0xFF);
    TableStep(x);
    AfterOne(x & 0xFF);
    HighPart(crc, b);
    r := Xor(l, crc >> 8);
  }

  /** Slicing by eight. */
  method UpdateFast(t: array2<bv32>, start: bv32, data: seq<bv8>) returns (crc: bv32)
    requires TablesOk(t)
    ensures crc == Update(start, data)
  {
    hide ByteStep, After, Update, Word, Xor;
    crc := start;
    var off := 0;
    UpdateNone(start);
    assert data[..0] == [];
    while |data| - off >= 8
      invariant off <= |data| && crc == Update(start, data[..off])
    {
      crc := TakeEight(t, crc, data[off..off + 8]);
      UpdateConcat(start, data[..off], data[off..off + 8]);
      assert data[..off + 8] == data[..off] + data[off..off + 8];
      off := off + 8;
    }
    while off < |data|
      invariant off <= |data| && crc == Update(start, data[..off])
    {
      crc := TakeOne(t, crc, data[off]);
      UpdateOne(start, data[..off], data[off]);
      assert data[..off + 1] == data[..off] + [data[off]];
      off := off + 1;
    }
    assert data[..off] == data;
  }

  /** A byte does not reach above the low eight bits. */
  lemma HighPart(crc: bv32, b: bv8)
    ensures Xor(crc, b as bv32) >> 8 == crc >> 8
  {
  }

  /** The checksum of a buffer whose own four-byte checksum field counts as zero: equal
      to the checksum of the buffer with those bytes zeroed. */
  method ChecksumWithZeroedField(t: array2<bv32>, data: seq<bv8>, field: nat) returns (r: bv32)
    requires TablesOk(t) && field + 4 <= |data|
    ensures r == Checksum(data[..field] + [0, 0, 0, 0] + data[field + 4..])
  {
    hide Update;
    var zeros: seq<bv8> := [0, 0, 0, 0];
    var crc := UpdateFast(t, ONES, data[..field]);
    crc := UpdateFast(t, crc, zeros);
    crc := UpdateFast(t, crc, data[field + 4..]);
    UpdateConcat(ONES, data[..field], zeros);
    UpdateConcat(ONES, data[..field] + zeros, data[field + 4..]);
    r := Xor(crc, ONES);
  }
}
