/** The log file: the writer's buffer and LSN bookkeeping, and the reader's scan. An LSN is
    the byte offset of its record past the base; whatever prefix of the file survives,
    the reader returns exactly the records wholly in it. */
module LogFile {
  import opened Keys
  import opened LittleEndian
  import opened LogCodec

  function Serialize(rs: seq<LogRecord>): Bytes
  {
    if rs == [] then [] else Encode(rs[0]) + Serialize(rs[1..])
  }

  predicate AllFit(rs: seq<LogRecord>) { forall i :: 0 <= i < |rs| ==> Fits(rs[i]) }

  /** Each record's LSN is the base plus its byte offset. */
  predicate Chain(rs: seq<LogRecord>, base: nat)
  {
    forall i :: 0 <= i < |rs| ==> rs[i].lsn == base + |Serialize(rs[..i])|
  }

  lemma SerializeHead(rs: seq<LogRecord>)
    ensures rs != [] ==> Serialize(rs) == Encode(rs[0]) + Serialize(rs[1..])
    ensures rs == [] ==> Serialize(rs) == []
  {
    hide Encode;
  }

  lemma Regroup(x: Bytes, y: Bytes, z: Bytes)
    ensures x + (y + z) == (x + y) + z
  {
  }

  lemma {:induction false} SerializeConcat(a: seq<LogRecord>, b: seq<LogRecord>)
    ensures Serialize(a + b) == Serialize(a) + Serialize(b)
  {
    hide Encode, Serialize;
    SerializeHead(a);
    SerializeHead(a + b);
    if a == [] {
      assert a + b == b;
    } else {
      SerializeConcat(a[1..], b);
      assert (a + b)[0] == a[0] && (a + b)[1..] == a[1..] + b;
      Regroup(Encode(a[0]), Serialize(a[1..]), Serialize(b));
    }
  }

  lemma SerializeOne(r: LogRecord)
    ensures Serialize([r]) == Encode(r)
  {
    hide Encode;
    assert [r][1..] == [];
  }

  lemma SerializePrefix(rs: seq<LogRecord>, k: nat)
    requires k < |rs|
    ensures Serialize(rs[..k + 1]) == Serialize(rs[..k]) + Encode(rs[k])
  {
    hide Encode;
    assert rs[..k + 1] == rs[..k] + [rs[k]];
    SerializeConcat(rs[..k], [rs[k]]);
    SerializeOne(rs[k]);
  }

  // ------------------------------------------------------------ reading

  /** Records from the front of `b` for as long as they parse and their LSNs follow on. */
  function Scan(b: Bytes, expected: Option<nat>): seq<LogRecord>
    decreases |b|
  {
    var p := Parse(b);
    if p.None? then []
    else
      var (r, n) := p.value;
      ParsedSize(b);
      if expected.Some? && r.lsn != expected.value then [] else [r] + Scan(b[n..], Some(r.lsn + n))
  }

  lemma ParsedSize(b: Bytes)
    requires Parse(b).Some?
    ensures 0 < Parse(b).value.1 <= |b| && Parse(b).value.1 == Size(Parse(b).value.0)
  {
    ParseMeans(b);
    hide Parse, Encode;
  }

  /** The LSNs follow on from `expected`. */
  predicate Linked(rs: seq<LogRecord>, expected: Option<nat>)
  {
    rs == [] || ((expected.Some? ==> rs[0].lsn == expected.value) && Linked(rs[1..], Some(rs[0].lsn + Size(rs[0]))))
  }

  /** What the scan returns is a chain of whole records the file begins with. */
  lemma {:induction false} ScanReads(b: Bytes, expected: Option<nat>)
    ensures var rs := Scan(b, expected); AllFit(rs) && Linked(rs, expected) && Serialize(rs) <= b
    decreases |b|
  {
    hide Parse, Encode, Fits;
    if Parse(b).Some? {
      var (r, n) := Parse(b).value;
      ParseMeans(b);
      ParsedSize(b);
      if expected.None? || r.lsn == expected.value {
        var rest := Scan(b[n..], Some(r.lsn + n));
        ScanReads(b[n..], Some(r.lsn + n));
        assert ([r] + rest)[1..] == rest;
        assert b == b[..n] + b[n..] && b[..n] == Encode(r);
      }
    }
  }

  /** And every such chain is a part of it: it is the longest. */
  lemma {:induction false} ScanReadsAll(b: Bytes, expected: Option<nat>, rs: seq<LogRecord>)
    requires AllFit(rs) && Linked(rs, expected) && Serialize(rs) <= b
    ensures rs <= Scan(b, expected)
    decreases |rs|
  {
    hide Parse, Encode, Fits;
    if rs != [] {
      var (r, rest) := (rs[0], rs[1..]);
      var n := Size(r);
      assert Encode(r) <= b by { assert Serialize(rs)[..n] == Encode(r) == b[..n]; }
      ParseFinds(b, r);
      assert Serialize(rest) <= b[n..] by { assert Serialize(rs)[n..] == Serialize(rest); }
      ScanReadsAll(b[n..], Some(r.lsn + n), rest);
      assert rs == [r] + rest;
    }
  }

  /** Damage in a record ends the scan there: the records before it are returned, it and
      what follows are not. */
  lemma {:induction false} ScanDamaged(rs: seq<LogRecord>, expected: Option<nat>, r: LogRecord, d: Bytes, at: nat)
    requires AllFit(rs) && Linked(rs, expected) && Fits(r) && Damaged(d, r, at)
    ensures Scan(Serialize(rs) + d, expected) == rs
    decreases |rs|
  {
    hide Parse, Encode, Fits, Damaged;
    var b := Serialize(rs) + d;
    if rs == [] {
      assert b == d;
      DamageFound(d, r, at);
    } else {
      var (first, rest) := (rs[0], rs[1..]);
      Regroup(Encode(first), Serialize(rest), d);
      ParseFinds(b, first);
      assert b[Size(first)..] == Serialize(rest) + d;
      ScanDamaged(rest, Some(first.lsn + Size(first)), r, d, at);
      assert rs == [first] + rest;
    }
  }

  /** The scan loop. LSN 0 marks "no record seen yet", so 0 is never a real LSN. */
  method ReadAll(bytes: Bytes) returns (records: seq<LogRecord>)
    ensures records == Scan(bytes, None)
    ensures AllFit(records) && Linked(records, None) && Serialize(records) <= bytes
    ensures forall rs :: AllFit(rs) && Linked(rs, None) && Serialize(rs) <= bytes ==> rs <= records
  {
    hide Parse, Encode, Fits, Serialize, Linked, AllFit;
    ScanReads(bytes, None);
    forall rs | AllFit(rs) && Linked(rs, None) && Serialize(rs) <= bytes ensures rs <= Scan(bytes, None) {
      ScanReadsAll(bytes, None, rs);
    }
    records := [];
    var offset := 0;
    var expected: nat := 0;
    while offset < |bytes|
      invariant 0 <= offset <= |bytes|
      invariant records + Scan(bytes[offset..], if expected == 0 then None else Some(expected)) == Scan(bytes, None)
    {
      var parsed := Parse(bytes[offset..]);
      if parsed.None? {
        break;
      }
      var (record, consumed) := parsed.value;
      ParsedSize(bytes[offset..]);
      if expected != 0 && record.lsn != expected {
        break;
      }
      expected := record.lsn + consumed;
      assert bytes[offset..][consumed..] == bytes[offset + consumed..];
      records := records + [record];
      offset := offset + consumed;
    }
    if offset >= |bytes| {
      ScanNothing(bytes[offset..], if expected == 0 then None else Some(expected));
    }
  }

  lemma ScanNothing(b: Bytes, expected: Option<nat>)
    requires b == []
    ensures Scan(b, expected) == []
  {
  }

  /** How many records lie wholly within the first `n` bytes. */
  function Whole(rs: seq<LogRecord>, n: nat): (k: nat)
    ensures k <= |rs|
  {
    if rs == [] || n < Size(rs[0]) then 0 else 1 + Whole(rs[1..], n - Size(rs[0]))
  }

  lemma {:induction false} WholeIs(rs: seq<LogRecord>, n: nat)
    requires n <= |Serialize(rs)|
    ensures var k := Whole(rs, n);
            |Serialize(rs[..k])| <= n && (k < |rs| ==> n < |Serialize(rs[..k + 1])|)
  {
    hide Encode;
    if rs != [] {
      var (r, rest) := (rs[0], rs[1..]);
      if n < Size(r) {
        assert rs[..1] == [r];
        SerializeOne(r);
      } else {
        WholeIs(rest, n - Size(r));
        var k := Whole(rest, n - Size(r));
        assert rs[..k + 1][1..] == rest[..k];
        if k < |rest| {
          assert rs[..k + 2][1..] == rest[..k + 1];
        }
      }
    }
  }

  /** Cut the file anywhere: the reader returns the records before the cut. */
  lemma {:induction false} ScanCut(rs: seq<LogRecord>, n: nat, expected: Option<nat>)
    requires AllFit(rs) && Linked(rs, expected) && n <= |Serialize(rs)|
    ensures Scan(Serialize(rs)[..n], expected) == rs[..Whole(rs, n)]
  {
    hide Encode, Parse, Fits;
    var b := Serialize(rs)[..n];
    if rs == [] {
      ScanNothing(b, expected);
    } else {
      var (r, rest) := (rs[0], rs[1..]);
      if n < Size(r) {
        assert b == Encode(r)[..n];
        ParseCut(r, n);
      } else {
        var m := n - Size(r);
        assert b == Encode(r) + Serialize(rest)[..m];
        ParseFinds(b, r);
        assert b[Size(r)..] == Serialize(rest)[..m];
        ScanCut(rest, m, Some(r.lsn + Size(r)));
        assert rs[..Whole(rs, n)] == [r] + rest[..Whole(rest, m)];
      }
    }
  }

  lemma {:induction false} ChainIsLinked(rs: seq<LogRecord>, base: nat)
    requires Chain(rs, base)
    ensures Linked(rs, Some(base))
  {
    hide Encode;
    if rs != [] {
      assert rs[..0] == [];
      var (r, rest) := (rs[0], rs[1..]);
      forall i | 0 <= i < |rest| ensures rest[i].lsn == (base + Size(r)) + |Serialize(rest[..i])| {
        assert rs[i + 1] == rest[i] && rs[..i + 1][1..] == rest[..i];
      }
      ChainIsLinked(rest, base + Size(r));
    }
  }

  lemma LinkedFirst(rs: seq<LogRecord>, base: nat)
    requires Linked(rs, Some(base))
    ensures Linked(rs, None)
  {
  }

  // ------------------------------------------------------------ writing

  /** Offset and width of `page_lsn` in a page header. */
  const PAGE_LSN_AT := 8

  function Stamped(page: Bytes, lsn: nat): (b: Bytes)
    requires |page| >= PAGE_LSN_AT + 8
    ensures |b| == |page| && b[PAGE_LSN_AT..PAGE_LSN_AT + 8] == LE(lsn, 8)
  {
    page[..PAGE_LSN_AT] + LE(lsn, 8) + page[PAGE_LSN_AT + 8..]
  }

  /** `file` is what has been written and synced; `records` everything appended since the
      last truncation, of which the first `durable` are in the file. */
  class LogWriter {
    var file: Bytes
    var buffer: Bytes
    var base: nat
    var end: nat
    var flushed: nat
    var imaged: set<nat>
    ghost var records: seq<LogRecord>
    ghost var durable: nat

    ghost predicate Valid()
      reads this
    {
      && base > 0 && durable <= |records| && AllFit(records) && Chain(records, base)
      && file == Serialize(records[..durable]) && file + buffer == Serialize(records)
      && end == base + |file| + |buffer| && flushed == base + |file|
      && (forall p :: p in imaged <==> HasImage(records, p))
    }

    constructor (base: nat)
      requires base > 0
      ensures Valid() && records == [] && this.base == base && end == base
    {
      file, buffer, imaged, records, durable := [], [], {}, [], 0;
      this.base, end, flushed := base, base, base;
    }

    /** The record gets the next LSN; nothing is durable yet. */
    method Append(record: LogRecord) returns (lsn: nat)
      requires Valid() && Fits(record) && !record.kind.PageImageType? && end < 0x1_0000_0000_0000_0000
      modifies this
      ensures Valid() && lsn == old(end) && end == lsn + Size(record)
      ensures records == old(records) + [record.(lsn := lsn)]
      ensures durable == old(durable) && flushed == old(flushed) && imaged == old(imaged) && base == old(base)
    {
      lsn := end;
      Buffer(record.(lsn := lsn));
    }

    /** The image carries its own LSN, and its page counts as imaged from here on. */
    method AppendPageImage(pageId: U32, page: Bytes, txid: U64, opEnd: bool) returns (lsn: nat, stamped: Bytes)
      requires Valid() && |page| == 4096 && end < 0x1_0000_0000_0000_0000
      modifies this
      ensures Valid() && lsn == old(end) && stamped == Stamped(page, lsn)
      ensures records == old(records) + [LogRecord(lsn, txid, PageImageType, pageId, opEnd, [], stamped, None)]
      ensures imaged == old(imaged) + {pageId}
      ensures durable == old(durable) && flushed == old(flushed) && base == old(base)
    {
      lsn := end;
      stamped := Stamped(page, lsn);
      Buffer(LogRecord(lsn, txid, PageImageType, pageId, opEnd, [], stamped, None));
    }

    method Buffer(record: LogRecord)
      requires Valid() && Fits(record) && record.lsn == end
      modifies this
      ensures Valid() && records == old(records) + [record] && end == old(end) + Size(record)
      ensures imaged == old(imaged) + (if record.kind.PageImageType? then {record.pageId} else {})
      ensures durable == old(durable) && flushed == old(flushed) && base == old(base)
    {
      hide Encode, Fits, Serialize, Chain, HasImage;
      ghost var rs := records + [record];
      SerializeConcat(records, [record]);
      SerializeOne(record);
      ChainAppend(records, record, base);
      ImageAppend(records, record);
      assert rs[..durable] == records[..durable];
      assert file + (buffer + Encode(record)) == (file + buffer) + Encode(record);
      buffer := buffer + Encode(record);
      end := end + Size(record);
      if record.kind.PageImageType? {
        imaged := imaged + {record.pageId};
      }
      records := rs;
    }

    /** Everything appended so far becomes durable. */
    method Flush()
      requires Valid()
      modifies this`file, this`buffer, this`flushed, this`durable
      ensures Valid() && flushed == end && durable == |records| && buffer == []
    {
      if buffer == [] && flushed == end {
        NothingBuffered(records, durable);
      }
      file := file + buffer;
      buffer := [];
      flushed := end;
      durable := |records|;
      assert records[..durable] == records;
    }

    /** At least everything up to and including the record at `lsn` becomes durable; if
        anything is written, all of the buffer is. */
    method FlushTo(lsn: nat)
      requires Valid()
      modifies this`file, this`buffer, this`flushed, this`durable
      ensures Valid()
      ensures lsn > 0 ==> forall i :: 0 <= i < |records| && records[i].lsn <= lsn ==> i < durable
      ensures durable == old(durable) || durable == |records|
      ensures lsn == 0 || old(flushed) > lsn ==> durable == old(durable) && file == old(file)
    {
      if lsn == 0 || flushed > lsn || (flushed == lsn && lsn == end) {
        BeforeFlushed(records, base, durable, lsn);
        return;
      }
      if flushed >= end {
        BeforeFlushed(records, base, durable, lsn);
        return;
      }
      Flush();
    }

    /** The log restarts empty at `newBase`; every page needs an image again. */
    method Truncate(newBase: nat)
      requires Valid() && newBase > 0
      modifies this
      ensures Valid() && records == [] && base == newBase && end == newBase && imaged == {}
    {
      file, buffer, imaged, records, durable := [], [], {}, [], 0;
      base, end, flushed := newBase, newBase, newBase;
    }

    /** What the reader makes of any surviving prefix of what was appended. */
    lemma Survives(n: nat)
      requires Valid() && n <= |file| + |buffer|
      ensures Scan((file + buffer)[..n], None) == records[..Whole(records, n)]
      ensures n >= |file| ==> Whole(records, n) >= durable
    {
      ChainIsLinked(records, base);
      LinkedFirst(records, base);
      ScanCut(records, n, None);
      if n >= |file| {
        WholeAtLeast(records, n, durable);
      }
    }
  }

  ghost predicate HasImage(rs: seq<LogRecord>, p: nat)
  {
    exists i :: 0 <= i < |rs| && rs[i].kind.PageImageType? && rs[i].pageId == p
  }

  lemma ImageAppend(rs: seq<LogRecord>, r: LogRecord)
    ensures forall p :: HasImage(rs + [r], p) <==> HasImage(rs, p) || (r.kind.PageImageType? && r.pageId == p)
  {
    var s := rs + [r];
    forall p ensures HasImage(s, p) <==> HasImage(rs, p) || (r.kind.PageImageType? && r.pageId == p) {
      assert s[|rs|] == r;
      if HasImage(rs, p) {
        var i :| 0 <= i < |rs| && rs[i].kind.PageImageType? && rs[i].pageId == p;
        assert s[i] == rs[i];
      }
    }
  }

  lemma ChainAppend(rs: seq<LogRecord>, r: LogRecord, base: nat)
    requires Chain(rs, base) && r.lsn == base + |Serialize(rs)|
    ensures Chain(rs + [r], base)
  {
    var s := rs + [r];
    forall i | 0 <= i < |s| ensures s[i].lsn == base + |Serialize(s[..i])| {
      assert s[..i] == rs[..i];
      assert i == |rs| ==> rs[..i] == rs;
    }
  }

  lemma {:induction false} SerializeGrows(rs: seq<LogRecord>, i: nat, j: nat)
    requires i <= j <= |rs|
    ensures |Serialize(rs[..i])| <= |Serialize(rs[..j])|
    ensures i < j ==> |Serialize(rs[..i])| < |Serialize(rs[..j])|
    decreases j
  {
    hide Serialize, Encode;
    if i < j {
      SerializeGrows(rs, i, j - 1);
      SerializePrefix(rs, j - 1);
    }
  }

  /** A record whose LSN lies below the flushed end is in the file, whole. */
  lemma BeforeFlushed(rs: seq<LogRecord>, base: nat, durable: nat, lsn: nat)
    requires durable <= |rs| && Chain(rs, base)
    ensures lsn < base + |Serialize(rs[..durable])| || |Serialize(rs[..durable])| == |Serialize(rs)| ==>
              forall i :: 0 <= i < |rs| && rs[i].lsn <= lsn ==> i < durable
  {
    forall i | durable <= i < |rs| ensures rs[i].lsn >= base + |Serialize(rs[..durable])| {
      SerializeGrows(rs, durable, i);
    }
    if durable < |rs| {
      SerializeGrows(rs, durable, |rs|);
      assert rs[..|rs|] == rs;
    }
  }

  lemma NothingBuffered(rs: seq<LogRecord>, durable: nat)
    requires durable <= |rs| && Serialize(rs[..durable]) == Serialize(rs)
    ensures durable == |rs|
  {
    assert rs[..|rs|] == rs;
    if durable < |rs| {
      SerializeGrows(rs, durable, |rs|);
    }
  }

  lemma WholeAtLeast(rs: seq<LogRecord>, n: nat, k: nat)
    requires k <= |rs| && |Serialize(rs[..k])| <= n <= |Serialize(rs)|
    ensures Whole(rs, n) >= k
  {
    hide Serialize, Whole;
    WholeIs(rs, n);
    var w := Whole(rs, n);
    if w < k {
      SerializeGrows(rs, w + 1, k);
    }
  }
}
