/** The 4096-byte slotted page. Records are bytes packed from the end of the page
    towards the front; slots say where each one is. Deleting leaves dead bytes behind,
    compaction packs the live records again.

    Header fields and slots are typed fields here; the record area is the byte array.
    Everything is at most 4096, far inside the 16-bit fields. */
module SlottedPage {
  import opened Keys
  import opened Nodes

  const PAGE_SIZE := 4096
  const HEADER_SIZE := 40
  const SLOT_SIZE := 8

  datatype Slot = Slot(offset: nat, length: nat, deleted: bool)

  // ------------------------------------------------------------ sound layouts

  predicate InArea(s: Slot, freeEnd: nat) { s.deleted || (freeEnd <= s.offset && s.offset + s.length <= PAGE_SIZE) }

  predicate AllIn(slots: seq<Slot>, freeEnd: nat)
  {
    forall i {:trigger slots[i]} :: 0 <= i < |slots| ==> InArea(slots[i], freeEnd)
  }

  /** Two live records do not overlap. */
  predicate Clear(a: Slot, b: Slot)
  {
    a.deleted || b.deleted || a.offset + a.length <= b.offset || b.offset + b.length <= a.offset
  }

  predicate AllClear(slots: seq<Slot>)
  {
    forall i, j {:trigger slots[i], slots[j]} :: 0 <= i < j < |slots| ==> Clear(slots[i], slots[j])
  }

  function LiveBytes(slots: seq<Slot>): nat
  {
    if slots == [] then 0
    else LiveBytes(slots[..|slots| - 1]) + (if slots[|slots| - 1].deleted then 0 else slots[|slots| - 1].length)
  }

  /** The layout `Validate` checks. */
  predicate Consistent(slots: seq<Slot>, freeStart: nat, freeEnd: nat)
  {
    && freeStart == HEADER_SIZE + SLOT_SIZE * |slots| <= freeEnd <= PAGE_SIZE
    && AllIn(slots, freeEnd)
    && AllClear(slots)
  }

  /** With it, conservation: every byte past `freeEnd` is live or counted dead. */
  predicate Sound(slots: seq<Slot>, freeStart: nat, freeEnd: nat, dead: nat)
  {
    Consistent(slots, freeStart, freeEnd) && LiveBytes(slots) + dead + freeEnd == PAGE_SIZE
  }

  function RecordAt(b: Bytes, s: Slot): Option<Bytes>
    requires |b| == PAGE_SIZE && InArea(s, 0)
  {
    if s.deleted then None else Some(b[s.offset..s.offset + s.length])
  }

  /** What the page holds, slot by slot. */
  function Holdings(b: Bytes, slots: seq<Slot>): (r: seq<Option<Bytes>>)
    requires |b| == PAGE_SIZE && AllIn(slots, 0)
    ensures |r| == |slots|
  {
    seq(|slots|, i requires 0 <= i < |slots| => RecordAt(b, slots[i]))
  }

  // ------------------------------------------------------------ bytes that stay

  /** Bytes outside [at, at + n) are as they were. */
  predicate SameOutside(a: Bytes, b: Bytes, at: nat, n: nat)
  {
    |a| == |b| && at + n <= |a| && forall k :: 0 <= k < |a| && !(at <= k < at + n) ==> a[k] == b[k]
  }

  lemma SliceKept(a: Bytes, b: Bytes, at: nat, n: nat, o: nat, l: nat)
    requires SameOutside(a, b, at, n) && o + l <= |a| && (o + l <= at || at + n <= o)
    ensures a[o..o + l] == b[o..o + l]
  {
    assert forall k :: o <= k < o + l ==> a[k] == b[k];
  }

  /** A record whose slot is clear of the written range reads as before. */
  lemma RecordKept(a: Bytes, b: Bytes, at: nat, n: nat, s: Slot)
    requires |a| == PAGE_SIZE && SameOutside(a, b, at, n) && InArea(s, 0)
    requires Clear(s, Slot(at, n, false))
    ensures RecordAt(a, s) == RecordAt(b, s)
  {
    if !s.deleted {
      SliceKept(a, b, at, n, s.offset, s.length);
    }
  }

  lemma {:induction false} LiveConcat(a: seq<Slot>, b: seq<Slot>)
    ensures LiveBytes(a + b) == LiveBytes(a) + LiveBytes(b)
    decreases |b|
  {
    if b == [] {
      assert a + b == a;
    } else {
      var n := |b| - 1;
      LiveConcat(a, b[..n]);
      assert (a + b)[..|a + b| - 1] == a + b[..n];
    }
  }

  function Size(s: Slot): nat { if s.deleted then 0 else s.length }

  lemma LiveUpdate(slots: seq<Slot>, i: nat, s: Slot)
    requires i < |slots|
    ensures LiveBytes(slots[i := s]) == LiveBytes(slots) - Size(slots[i]) + Size(s)
  {
    hide LiveBytes;
    var (l, r) := (slots[..i], slots[i + 1..]);
    assert slots == l + [slots[i]] + r && slots[i := s] == l + [s] + r;
    LiveConcat(l + [slots[i]], r);
    LiveConcat(l + [s], r);
    LiveOne(l, slots[i]);
    LiveOne(l, s);
  }

  lemma LiveOne(l: seq<Slot>, s: Slot)
    ensures LiveBytes(l + [s]) == LiveBytes(l) + Size(s)
  {
    assert (l + [s])[..|l|] == l;
  }

  lemma LiveInsert(slots: seq<Slot>, i: nat, s: Slot)
    requires i <= |slots|
    ensures LiveBytes(InsertSeq(slots, i, s)) == LiveBytes(slots) + Size(s)
  {
    hide LiveBytes;
    LiveConcat(slots[..i] + [s], slots[i..]);
    LiveOne(slots[..i], s);
    LiveConcat(slots[..i], slots[i..]);
    assert slots[..i] + slots[i..] == slots;
  }

  lemma LiveRemove(slots: seq<Slot>, i: nat)
    requires i < |slots|
    ensures LiveBytes(RemoveSeq(slots, i)) == LiveBytes(slots) - Size(slots[i])
  {
    LiveInsert(RemoveSeq(slots, i), i, slots[i]);
    InsertUndoesRemove(slots, i);
  }

  // ------------------------------------------------------------ layouts the edits make

  lemma InsertConsistent(slots: seq<Slot>, freeStart: nat, freeEnd: nat, dead: nat, i: nat, n: nat)
    requires Sound(slots, freeStart, freeEnd, dead) && i <= |slots| && freeStart + SLOT_SIZE + n <= freeEnd
    ensures Sound(InsertSeq(slots, i, Slot(freeEnd - n, n, false)), freeStart + SLOT_SIZE, freeEnd - n, dead)
  {
    hide LiveBytes;
    var s := Slot(freeEnd - n, n, false);
    var after := InsertSeq(slots, i, s);
    LiveInsert(slots, i, s);
    forall j | 0 <= j < |after| ensures InArea(after[j], freeEnd - n) {
      if j != i { assert InArea(slots[if j < i then j else j - 1], freeEnd); }
    }
    forall j, k | 0 <= j < k < |after| ensures Clear(after[j], after[k]) {
      if j == i {
        assert InArea(slots[k - 1], freeEnd);
      } else if k == i {
        assert InArea(slots[j], freeEnd);
      } else {
        assert Clear(slots[if j < i then j else j - 1], slots[if k < i then k else k - 1]);
      }
    }
  }

  lemma RemoveConsistent(slots: seq<Slot>, freeStart: nat, freeEnd: nat, dead: nat, i: nat)
    requires Sound(slots, freeStart, freeEnd, dead) && i < |slots|
    ensures Sound(RemoveSeq(slots, i), freeStart - SLOT_SIZE, freeEnd, dead + Size(slots[i]))
  {
    hide LiveBytes;
    LiveRemove(slots, i);
    var after := RemoveSeq(slots, i);
    forall j | 0 <= j < |after| ensures InArea(after[j], freeEnd) {
      assert InArea(slots[if j < i then j else j + 1], freeEnd);
    }
    forall j, k | 0 <= j < k < |after| ensures Clear(after[j], after[k]) {
      assert Clear(slots[if j < i then j else j + 1], slots[if k < i then k else k + 1]);
    }
  }

  /** Slot `i` is replaced by one clear of all the others. */
  lemma ReplaceConsistent(slots: seq<Slot>, freeStart: nat, freeEnd: nat, dead: nat, i: nat, s: Slot, freeEnd': nat,
      dead': nat)
    requires Sound(slots, freeStart, freeEnd, dead) && i < |slots| && freeStart <= freeEnd' <= freeEnd
    requires InArea(s, freeEnd') && forall j :: 0 <= j < |slots| && j != i ==> Clear(slots[j], s)
    requires Size(s) + dead' + freeEnd' == Size(slots[i]) + dead + freeEnd
    ensures Sound(slots[i := s], freeStart, freeEnd', dead')
  {
    hide LiveBytes;
    LiveUpdate(slots, i, s);
    var after := slots[i := s];
    forall j | 0 <= j < |after| ensures InArea(after[j], freeEnd') {
      if j != i { assert InArea(slots[j], freeEnd); }
    }
    forall j, k | 0 <= j < k < |after| ensures Clear(after[j], after[k]) {
      if j != i && k != i { assert Clear(slots[j], slots[k]); }
    }
  }

  // ------------------------------------------------------------ what the edits keep

  /** Writing in free space leaves every record alone. */
  lemma HoldingsKept(a: Bytes, b: Bytes, slots: seq<Slot>, freeEnd: nat, at: nat, n: nat)
    requires |a| == PAGE_SIZE && SameOutside(a, b, at, n) && at + n <= freeEnd
    requires AllIn(slots, freeEnd)
    ensures Holdings(b, slots) == Holdings(a, slots)
  {
    forall i | 0 <= i < |slots| ensures RecordAt(a, slots[i]) == RecordAt(b, slots[i]) {
      assert InArea(slots[i], freeEnd);
      RecordKept(a, b, at, n, slots[i]);
    }
  }

  lemma InsertHoldings(a: Bytes, b: Bytes, slots: seq<Slot>, freeEnd: nat, i: nat, rec: Bytes)
    requires |a| == PAGE_SIZE && |rec| <= freeEnd <= PAGE_SIZE && i <= |slots|
    requires SameOutside(a, b, freeEnd - |rec|, |rec|) && b[freeEnd - |rec|..freeEnd] == rec
    requires AllIn(slots, freeEnd)
    ensures var after := InsertSeq(slots, i, Slot(freeEnd - |rec|, |rec|, false));
            && AllIn(after, 0)
            && Holdings(b, after) == InsertSeq(Holdings(a, slots), i, Some(rec))
  {
    var after := InsertSeq(slots, i, Slot(freeEnd - |rec|, |rec|, false));
    HoldingsKept(a, b, slots, freeEnd, freeEnd - |rec|, |rec|);
    forall j | 0 <= j < |after| ensures InArea(after[j], 0) {
      if j != i { assert InArea(slots[if j < i then j else j - 1], freeEnd); }
    }
    var want := InsertSeq(Holdings(a, slots), i, Some(rec));
    forall j | 0 <= j < |after| ensures RecordAt(b, after[j]) == want[j] {
      if j < i {
        assert Holdings(b, slots)[j] == Holdings(a, slots)[j];
      } else if j > i {
        assert Holdings(b, slots)[j - 1] == Holdings(a, slots)[j - 1];
      }
    }
  }

  /** Slot `i` now reads `rec`, written over a range no other record uses. */
  lemma ReplaceHoldings(a: Bytes, b: Bytes, slots: seq<Slot>, i: nat, s: Slot, at: nat, n: nat, rec: Bytes)
    requires |a| == PAGE_SIZE && i < |slots| && InArea(s, 0) && !s.deleted && SameOutside(a, b, at, n)
    requires b[s.offset..s.offset + s.length] == rec
    requires AllIn(slots, 0)
    requires forall j :: 0 <= j < |slots| && j != i ==> Clear(slots[j], Slot(at, n, false))
    ensures AllIn(slots[i := s], 0)
    ensures Holdings(b, slots[i := s]) == Holdings(a, slots)[i := Some(rec)]
  {
    forall j | 0 <= j < |slots| && j != i ensures RecordAt(a, slots[j]) == RecordAt(b, slots[j]) {
      RecordKept(a, b, at, n, slots[j]);
    }
    var want := Holdings(a, slots)[i := Some(rec)];
    assert forall j :: 0 <= j < |slots| ==> Holdings(b, slots[i := s])[j] == want[j];
  }

  lemma RemoveHoldings(b: Bytes, slots: seq<Slot>, i: nat)
    requires |b| == PAGE_SIZE && i < |slots| && AllIn(slots, 0)
    ensures AllIn(RemoveSeq(slots, i), 0)
    ensures Holdings(b, RemoveSeq(slots, i)) == RemoveSeq(Holdings(b, slots), i)
  {
    var after := RemoveSeq(slots, i);
    forall j | 0 <= j < |after| ensures InArea(after[j], 0) {
      assert InArea(slots[if j < i then j else j + 1], 0);
    }
  }

  // ------------------------------------------------------------ compaction, as values

  /** The slots after packing: live records laid out from the end of the page in slot
      order, tombstones cleared. */
  ghost predicate Packed(slots: seq<Slot>, out: seq<Slot>, end: nat)
  {
    && |out| <= |slots| && end + LiveBytes(slots[..|out|]) == PAGE_SIZE
    && (forall j :: 0 <= j < |out| ==> out[j].deleted == slots[j].deleted && Size(out[j]) == Size(slots[j]))
    && (forall j :: 0 <= j < |out| && !out[j].deleted ==>
       end <= out[j].offset && out[j].offset + out[j].length <= PAGE_SIZE)
    && AllClear(out)
  }

  ghost predicate Copied(slots: seq<Slot>, out: seq<Slot>, from: Bytes, to: Bytes)
    requires |from| == |to| == PAGE_SIZE && |out| <= |slots|
    requires AllIn(slots, 0)
    requires AllIn(out, 0)
  {
    forall j {:trigger out[j]} :: 0 <= j < |out| ==> RecordAt(to, out[j]) == RecordAt(from, slots[j])
  }

  lemma PackTombstone(slots: seq<Slot>, out: seq<Slot>, end: nat)
    requires Packed(slots, out, end) && |out| < |slots| && slots[|out|].deleted
    ensures Packed(slots, out + [Slot(0, 0, true)], end)
  {
    var i := |out|;
    var after := out + [Slot(0, 0, true)];
    assert slots[..i + 1] == slots[..i] + [slots[i]];
    LiveOne(slots[..i], slots[i]);
    hide LiveBytes, Clear;
    forall j, k | 0 <= j < k < |after| ensures Clear(after[j], after[k]) {
      if k < i { assert Clear(out[j], out[k]); } else { ClearOfTombstone(after[j]); }
    }
  }

  lemma ClearOfTombstone(s: Slot)
    ensures Clear(s, Slot(0, 0, true))
  {
  }

  lemma PackRecord(slots: seq<Slot>, out: seq<Slot>, end: nat)
    requires Packed(slots, out, end) && |out| < |slots| && !slots[|out|].deleted && slots[|out|].length <= end
    ensures var n := slots[|out|].length; Packed(slots, out + [Slot(end - n, n, false)], end - n)
  {
    var i := |out|;
    var n := slots[i].length;
    var after := out + [Slot(end - n, n, false)];
    assert slots[..i + 1] == slots[..i] + [slots[i]];
    LiveOne(slots[..i], slots[i]);
    hide LiveBytes;
    forall j, k | 0 <= j < k < |after| ensures Clear(after[j], after[k]) {
      if k < i { assert Clear(out[j], out[k]); } else { assert after[j] == out[j]; }
    }
  }

  lemma CopyRecord(slots: seq<Slot>, out: seq<Slot>, end: nat, from: Bytes, to: Bytes, to': Bytes)
    requires |from| == |to| == |to'| == PAGE_SIZE && Packed(slots, out, end) && |out| < |slots|
    requires AllIn(slots, 0)
    requires AllIn(out, end)
    requires Copied(slots, out, from, to)
    requires var s := slots[|out|];
             && !s.deleted && s.length <= end && SameOutside(to, to', end - s.length, s.length)
             && to'[end - s.length..end] == from[s.offset..s.offset + s.length]
    ensures var after := out + [Slot(end - slots[|out|].length, slots[|out|].length, false)];
            AllIn(after, 0) && Copied(slots, after, from, to')
  {
    hide Packed;
    var s := slots[|out|];
    var after := out + [Slot(end - s.length, s.length, false)];
    forall j | 0 <= j < |after| ensures InArea(after[j], 0) {
      if j < |out| { assert InArea(out[j], end); }
    }
    forall j | 0 <= j < |after| ensures RecordAt(to', after[j]) == RecordAt(from, slots[j]) {
      if j < |out| {
        assert InArea(out[j], end);
        assert RecordAt(to, out[j]) == RecordAt(from, slots[j]);
        RecordKept(to, to', end - s.length, s.length, out[j]);
      }
    }
  }

  /** There is room: packing never runs below the slot directory. */
  lemma {:induction false} LivePrefix(slots: seq<Slot>, i: nat)
    requires i <= |slots|
    ensures LiveBytes(slots[..i]) <= LiveBytes(slots)
  {
    LiveConcat(slots[..i], slots[i..]);
    assert slots[..i] + slots[i..] == slots;
  }

  // ------------------------------------------------------------ the overlap check

  /** `Validate` sorts the live records by offset, then length. */
  predicate Before(a: Slot, b: Slot) { a.offset < b.offset || (a.offset == b.offset && a.length <= b.length) }

  predicate Ordered(l: seq<Slot>) {
    forall i, j :: 0 <= i < j < |l| ==> Before(l[i], l[j]) && !l[i].deleted && !l[j].deleted
  }

  function Insort(l: seq<Slot>, s: Slot): (r: seq<Slot>)
    ensures |r| == |l| + 1 && forall x :: x in r <==> x == s || x in l
  {
    if l == [] then [s]
    else if Before(l[|l| - 1], s) then l + [s]
    else Insort(l[..|l| - 1], s) + [l[|l| - 1]]
  }

  predicate ClearOf(l: seq<Slot>, s: Slot) { forall x :: x in l ==> Clear(x, s) }

  lemma ClearAppend(l: seq<Slot>, s: Slot)
    ensures AllClear(l + [s]) <==> AllClear(l) && ClearOf(l, s)
  {
    var r := l + [s];
    if AllClear(r) {
      forall i, j | 0 <= i < j < |l| ensures Clear(l[i], l[j]) { assert r[i] == l[i] && r[j] == l[j]; }
      forall x | x in l ensures Clear(x, s) {
        var i :| 0 <= i < |l| && l[i] == x;
        assert r[i] == x && r[|l|] == s;
      }
    }
    if AllClear(l) && ClearOf(l, s) {
      forall i, j | 0 <= i < j < |r| ensures Clear(r[i], r[j]) {
        assert r[i] == l[i] && r[i] in l;
        if j < |l| { assert r[j] == l[j]; }
      }
    }
  }

  lemma {:induction false} InsortClear(l: seq<Slot>, s: Slot)
    ensures AllClear(Insort(l, s)) <==> AllClear(l) && ClearOf(l, s)
  {
    hide AllClear, Clear;
    if l == [] || Before(l[|l| - 1], s) {
      ClearAppend(l, s);
      assert l == [] ==> l + [s] == [s];
    } else {
      var (p, last) := (l[..|l| - 1], l[|l| - 1]);
      assert l == p + [last];
      InsortClear(p, s);
      ClearAppend(Insort(p, s), last);
      ClearAppend(p, last);
      assert Clear(s, last) <==> Clear(last, s) by { ClearSymmetric(s, last); }
      assert ClearOf(Insort(p, s), last) <==> ClearOf(p, last) && Clear(s, last);
      assert ClearOf(l, s) <==> ClearOf(p, s) && Clear(last, s);
    }
  }

  lemma ClearSymmetric(a: Slot, b: Slot)
    ensures Clear(a, b) <==> Clear(b, a)
  {
  }

  lemma {:induction false} InsortOrdered(l: seq<Slot>, s: Slot)
    requires Ordered(l) && !s.deleted && forall x :: x in l ==> !x.deleted
    ensures Ordered(Insort(l, s))
  {
    if l != [] && !Before(l[|l| - 1], s) {
      var (p, last) := (l[..|l| - 1], l[|l| - 1]);
      InsortOrdered(p, s);
      var q := Insort(p, s);
      forall i | 0 <= i < |q| ensures Before(q[i], last) && !q[i].deleted {
        assert q[i] in q;
        if q[i] != s {
          var j :| 0 <= j < |p| && p[j] == q[i];
          assert l[j] == p[j];
        }
      }
    } else if l != [] {
      assert forall i :: 0 <= i < |l| ==> l[i] in l && (i < |l| - 1 ==> Before(l[i], l[|l| - 1]));
    }
  }

  predicate Adjacent(l: seq<Slot>) { forall i :: 0 < i < |l| ==> l[i - 1].offset + l[i - 1].length <= l[i].offset }

  /** On sorted records, checking neighbours checks all pairs. */
  lemma NeighboursSuffice(l: seq<Slot>)
    requires Ordered(l) && forall x :: x in l ==> !x.deleted
    ensures Adjacent(l) <==> AllClear(l)
  {
    if Adjacent(l) {
      forall i, j | 0 <= i < j < |l| ensures Clear(l[i], l[j]) {
        NeighboursReach(l, i, j);
      }
    }
    if AllClear(l) {
      forall i | 0 < i < |l| ensures l[i - 1].offset + l[i - 1].length <= l[i].offset {
        assert Clear(l[i - 1], l[i]) && l[i - 1] in l && l[i] in l && Before(l[i - 1], l[i]);
      }
    }
  }

  lemma {:induction false} NeighboursReach(l: seq<Slot>, i: nat, j: nat)
    requires Adjacent(l) && i < j < |l|
    ensures l[i].offset + l[i].length <= l[j].offset
    decreases j
  {
    if i < j - 1 {
      NeighboursReach(l, i, j - 1);
    }
  }

  // ------------------------------------------------------------ the page

  class Page {
    var slots: seq<Slot>
    var freeStart: nat
    var freeEnd: nat
    var dead: nat
    const data: array<Byte>

    ghost predicate Valid()
      reads this
    {
      data.Length == PAGE_SIZE && Sound(slots, freeStart, freeEnd, dead)
    }

    ghost function Records(): seq<Option<Bytes>>
      requires Valid()
      reads this, data
    {
      Area(slots, freeStart, freeEnd, dead);
      Holdings(data[..], slots)
    }

    constructor ()
      ensures Valid() && Records() == [] && fresh(data) && dead == 0 && slots == [] && FreeSpace() == PAGE_PAYLOAD
    {
      slots, freeStart, freeEnd, dead := [], HEADER_SIZE, PAGE_SIZE, 0;
      data := new Byte[PAGE_SIZE](_ => 0);
    }

    function FreeSpace(): (n: nat)
      requires Valid()
      reads this
      ensures n == freeEnd - freeStart
    {
      if freeEnd <= freeStart then 0 else freeEnd - freeStart
    }

    /** Free and dead bytes together depend on the records alone. */
    lemma Room()
      requires Valid()
      ensures FreeSpace() + dead == PAGE_SIZE - HEADER_SIZE - SLOT_SIZE * |slots| - LiveBytes(slots)
    {
    }

    /** The page check, by sorting the live records and looking at neighbours: exactly
        the layout conditions. */
    method Validate() returns (ok: bool)
      ensures ok <==> Consistent(slots, freeStart, freeEnd)
    {
      hide Insort, AllClear, Clear, Ordered, Adjacent;
      if freeStart != HEADER_SIZE + SLOT_SIZE * |slots| || freeStart > freeEnd || freeEnd > PAGE_SIZE {
        return false;
      }
      var live: seq<Slot> := [];
      assert Ordered(live) && (AllClear(live) <==> AllClear(slots[..0])) by { NothingYet(slots); }
      for i := 0 to |slots|
        invariant AllIn(slots[..i], freeEnd)
        invariant forall x :: x in live <==> x in slots[..i] && !x.deleted
        invariant Ordered(live) && (AllClear(live) <==> AllClear(slots[..i]))
      {
        var s := slots[i];
        assert slots[..i + 1] == slots[..i] + [s];
        ClearAppend(slots[..i], s);
        if s.deleted {
          TombstoneClear(slots[..i], s);
          continue;
        }
        if s.offset < freeEnd || s.offset + s.length > PAGE_SIZE {
          assert !InArea(s, freeEnd);
          return false;
        }
        InsortOrdered(live, s);
        InsortClear(live, s);
        SameClear(live, slots[..i], s);
        live := Insort(live, s);
      }
      assert slots[..|slots|] == slots;
      NeighboursSuffice(live);
      ok := CheckNeighbours(live);
    }

    /** The record goes to the end of free space; the slot directory opens a gap. */
    method InsertRecordAt(index: nat, rec: Bytes) returns (ok: bool)
      requires Valid()
      modifies this, data
      ensures Valid() && dead == old(dead) && |slots| == old(|slots|) + (if ok then 1 else 0)
      ensures FreeSpace() == old(FreeSpace()) - (if ok then SLOT_SIZE + |rec| else 0)
      ensures ok <==> index <= old(|slots|) && old(FreeSpace()) >= SLOT_SIZE + |rec|
      ensures Records() == if ok then InsertSeq(old(Records()), index, Some(rec)) else old(Records())
    {
      hide Sound, Holdings, SameOutside;
      if index > |slots| || FreeSpace() < SLOT_SIZE + |rec| {
        return false;
      }
      ghost var before := data[..];
      ghost var had := slots;
      Room();
      InsertConsistent(slots, freeStart, freeEnd, dead, index, |rec|);
      Area(slots, freeStart, freeEnd, dead);
      var at := freeEnd - |rec|;
      CopyBytes(data, at, rec);
      InsertHoldings(before, data[..], slots, freeEnd, index, rec);
      slots := InsertSeq(slots, index, Slot(at, |rec|, false));
      freeStart := freeStart + SLOT_SIZE;
      freeEnd := at;
      return true;
    }

    /** A tombstone: the slot stays, its bytes are dead. */
    method DeleteRecord(id: nat) returns (ok: bool)
      requires Valid()
      modifies this
      ensures Valid() && freeEnd == old(freeEnd) && freeStart == old(freeStart)
      ensures ok <==> id < old(|slots|) && old(Records()[id]).Some?
      ensures Records() == if ok then old(Records())[id := None] else old(Records())
      ensures dead == old(dead) + if ok then |old(Records()[id]).value| else 0
    {
      if id >= |slots| || slots[id].deleted {
        return false;
      }
      ReplaceConsistent(slots, freeStart, freeEnd, dead, id, slots[id].(deleted := true), freeEnd,
        dead + slots[id].length);
      dead := dead + slots[id].length;
      slots := slots[id := slots[id].(deleted := true)];
      return true;
    }

    /** A record at most as long as the old one is written over it; the rest goes dead. */
    method Overwrite(i: nat, rec: Bytes)
      requires Valid() && i < |slots| && !slots[i].deleted && |rec| <= slots[i].length
      modifies this, data
      ensures Valid() && Records() == old(Records())[i := Some(rec)]
      ensures |slots| == old(|slots|) && freeEnd == old(freeEnd)
      ensures dead == old(dead) + old(slots[i].length) - |rec|
    {
      hide Sound, Holdings, SameOutside;
      Area(slots, freeStart, freeEnd, dead);
      ghost var before := data[..];
      var s := slots[i].(length := |rec|);
      ShorterClear(slots, freeStart, freeEnd, dead, i, |rec|);
      ReplaceConsistent(slots, freeStart, freeEnd, dead, i, s, freeEnd, dead + (slots[i].length - |rec|));
      CopyBytes(data, s.offset, rec);
      ReplaceHoldings(before, data[..], slots, i, s, s.offset, |rec|, rec);
      dead := dead + (slots[i].length - |rec|);
      slots := slots[i := s];
    }

    /** Slot `i` gets a new copy at the end of free space; an old live copy goes dead. */
    method Place(i: nat, rec: Bytes)
      requires Valid() && i < |slots| && FreeSpace() >= |rec|
      modifies this, data
      ensures Valid() && Records() == old(Records())[i := Some(rec)]
      ensures |slots| == old(|slots|) && FreeSpace() == old(FreeSpace()) - |rec|
      ensures dead == old(dead) + old(Size(slots[i]))
    {
      hide Sound, Holdings, SameOutside;
      Area(slots, freeStart, freeEnd, dead);
      ghost var before := data[..];
      var at := freeEnd - |rec|;
      var s := Slot(at, |rec|, false);
      forall j | 0 <= j < |slots| && j != i ensures Clear(slots[j], s) {
        assert InArea(slots[j], freeEnd);
      }
      ReplaceConsistent(slots, freeStart, freeEnd, dead, i, s, at, dead + Size(slots[i]));
      CopyBytes(data, at, rec);
      ReplaceHoldings(before, data[..], slots, i, s, at, |rec|, rec);
      dead := dead + Size(slots[i]);
      freeEnd := at;
      slots := slots[i := s];
    }

    /** `DeleteAt`: the bytes go dead, the slot directory closes over the slot. */
    method RemoveAt(index: nat) returns (ok: bool)
      requires Valid()
      modifies this
      ensures Valid() && freeEnd == old(freeEnd)
      ensures ok <==> index < old(|slots|)
      ensures Records() == if ok then RemoveSeq(old(Records()), index) else old(Records())
      ensures dead == old(dead) + if ok then old(Size(slots[index])) else 0
    {
      hide Sound, Holdings;
      if index >= |slots| {
        return false;
      }
      Area(slots, freeStart, freeEnd, dead);
      RemoveConsistent(slots, freeStart, freeEnd, dead, index);
      RemoveHoldings(data[..], slots, index);
      SlotsTake(slots, freeStart, freeEnd, dead);
      dead := dead + Size(slots[index]);
      slots := CloseGap(slots, index);
      freeStart := freeStart - SLOT_SIZE;
      return true;
    }

    /** Tombstone a record and reclaim its bytes with all the other dead ones. */
    method DropAndCompact(i: nat)
      requires Valid() && i < |slots| && !slots[i].deleted
      modifies this, data
      ensures Valid() && Records() == old(Records())[i := None] && |slots| == old(|slots|)
      ensures FreeSpace() == old(FreeSpace() + dead + slots[i].length)
    {
      hide Sound, LiveBytes;
      Room();
      Area(slots, freeStart, freeEnd, dead);
      assert Records()[i].Some? && |Records()[i].value| == slots[i].length;
      var _ := DeleteRecord(i);
      Room();
      Compact();
      Room();
    }

    /** Pack the live records against the end of the page; slot numbers do not move. */
    method Compact()
      requires Valid()
      modifies this, data
      ensures Valid() && dead == 0 && |slots| == old(|slots|) && freeStart == old(freeStart)
      ensures LiveBytes(slots) == old(LiveBytes(slots))
      ensures Records() == old(Records())
    {
      hide Sound, Holdings, SameOutside, LiveBytes, Packed, RecordAt;
      Area(slots, freeStart, freeEnd, dead);
      ghost var before := data[..];
      ghost var had := slots;
      var scratch := new Byte[PAGE_SIZE](_ => 0);
      var out: seq<Slot> := [];
      var end: nat := PAGE_SIZE;
      StartPacking(slots);
      for i := 0 to |slots|
        invariant Valid() && slots == had && data[..] == before && freeStart == old(freeStart)
        invariant |out| == i && end <= PAGE_SIZE && Packed(slots, out, end)
        invariant AllIn(out, end)
        invariant Copied(slots, out, before, scratch[..])
      {
        if slots[i].deleted {
          PackTombstone(slots, out, end);
          out := out + [Slot(0, 0, true)];
          CopyTombstone(slots, out, before, scratch[..]);
        } else {
          var n := slots[i].length;
          PackRoom(slots, freeStart, freeEnd, dead, out, end);
          PackRecord(slots, out, end);
          ghost var was := scratch[..];
          CopyBytes(scratch, end - n, data[slots[i].offset..slots[i].offset + n]);
          CopyRecord(slots, out, end, before, was, scratch[..]);
          out := out + [Slot(end - n, n, false)];
          end := end - n;
        }
      }
      PackedSound(slots, freeStart, freeEnd, dead, out, end);
      CopiedHoldings(slots, out, before, scratch[..]);
      CopyBytes(data, 0, scratch[..]);
      assert data[..] == scratch[..];
      slots := out;
      freeEnd := end;
      dead := 0;
    }
  }

  lemma Area(slots: seq<Slot>, freeStart: nat, freeEnd: nat, dead: nat)
    requires Sound(slots, freeStart, freeEnd, dead)
    ensures AllIn(slots, freeEnd) && AllIn(slots, 0) && freeStart <= freeEnd <= PAGE_SIZE
  {
  }

  lemma ShorterClear(slots: seq<Slot>, freeStart: nat, freeEnd: nat, dead: nat, i: nat, n: nat)
    requires Sound(slots, freeStart, freeEnd, dead) && i < |slots| && !slots[i].deleted && n <= slots[i].length
    ensures var s := slots[i].(length := n); forall j :: 0 <= j < |slots| && j != i ==> Clear(slots[j], s)
    ensures freeStart <= freeEnd && slots[i].offset + slots[i].length <= PAGE_SIZE && freeEnd <= slots[i].offset
  {
    hide LiveBytes;
    assert InArea(slots[i], freeEnd);
    forall j | 0 <= j < |slots| && j != i ensures Clear(slots[j], slots[i].(length := n)) {
      assert j < i ==> Clear(slots[j], slots[i]);
      assert i < j ==> Clear(slots[i], slots[j]);
    }
  }

  lemma SlotsTake(slots: seq<Slot>, freeStart: nat, freeEnd: nat, dead: nat)
    requires Sound(slots, freeStart, freeEnd, dead)
    ensures freeStart == HEADER_SIZE + SLOT_SIZE * |slots|
  {
  }

  /** Shift the slots after `index` down by one. */
  method CloseGap(slots: seq<Slot>, index: nat) returns (out: seq<Slot>)
    requires index < |slots|
    ensures out == RemoveSeq(slots, index)
  {
    out := slots;
    for i := index to |slots| - 1
      invariant |out| == |slots|
      invariant forall j :: 0 <= j < i ==> out[j] == slots[if j < index then j else j + 1]
      invariant forall j :: i <= j < |slots| ==> out[j] == slots[j]
    {
      out := out[i := out[i + 1]];
    }
    out := out[..|slots| - 1];
  }

  method CheckNeighbours(live: seq<Slot>) returns (ok: bool)
    ensures ok <==> Adjacent(live)
  {
    var i := 1;
    while i < |live|
      invariant forall j :: 0 < j < i && j < |live| ==> live[j - 1].offset + live[j - 1].length <= live[j].offset
    {
      if live[i - 1].offset + live[i - 1].length > live[i].offset {
        return false;
      }
      i := i + 1;
    }
    return true;
  }

  lemma NothingYet(slots: seq<Slot>)
    ensures Ordered([]) && AllClear([]) && AllClear(slots[..0])
  {
  }

  lemma TombstoneClear(l: seq<Slot>, s: Slot)
    requires s.deleted
    ensures ClearOf(l, s)
  {
  }

  lemma SameClear(live: seq<Slot>, slots: seq<Slot>, s: Slot)
    requires forall x :: x in live <==> x in slots && !x.deleted
    ensures ClearOf(live, s) <==> ClearOf(slots, s)
  {
  }

  /** memcpy. */
  method CopyBytes(dst: array<Byte>, at: nat, bytes: Bytes)
    requires at + |bytes| <= dst.Length
    modifies dst
    ensures SameOutside(old(dst[..]), dst[..], at, |bytes|) && dst[at..at + |bytes|] == bytes
  {
    forall k | 0 <= k < |bytes| {
      dst[at + k] := bytes[k];
    }
  }

  lemma StartPacking(slots: seq<Slot>)
    ensures Packed(slots, [], PAGE_SIZE)
  {
    assert slots[..0] == [];
  }

  lemma CopyTombstone(slots: seq<Slot>, out: seq<Slot>, from: Bytes, to: Bytes)
    requires |from| == |to| == PAGE_SIZE && 0 < |out| <= |slots|
    requires AllIn(slots, 0)
    requires AllIn(out, 0)
    requires out[|out| - 1].deleted && slots[|out| - 1].deleted && Copied(slots, out[..|out| - 1], from, to)
    ensures Copied(slots, out, from, to)
  {
    forall j | 0 <= j < |out| ensures RecordAt(to, out[j]) == RecordAt(from, slots[j]) {
      if j < |out| - 1 { assert out[..|out| - 1][j] == out[j]; }
    }
  }

  lemma PackRoom(slots: seq<Slot>, freeStart: nat, freeEnd: nat, dead: nat, out: seq<Slot>, end: nat)
    requires Sound(slots, freeStart, freeEnd, dead) && Packed(slots, out, end) && |out| < |slots|
             && !slots[|out|].deleted
    ensures slots[|out|].length <= end
  {
    var i := |out|;
    assert slots[..i + 1] == slots[..i] + [slots[i]];
    LiveOne(slots[..i], slots[i]);
    LivePrefix(slots, i + 1);
  }

  lemma {:induction false} SameSizes(a: seq<Slot>, b: seq<Slot>)
    requires |a| == |b| && forall j :: 0 <= j < |a| ==> Size(a[j]) == Size(b[j])
    ensures LiveBytes(a) == LiveBytes(b)
  {
    if a != [] {
      SameSizes(a[..|a| - 1], b[..|b| - 1]);
    }
  }

  lemma PackedSound(slots: seq<Slot>, freeStart: nat, freeEnd: nat, dead: nat, out: seq<Slot>, end: nat)
    requires Sound(slots, freeStart, freeEnd, dead) && Packed(slots, out, end) && |out| == |slots|
    ensures Sound(out, freeStart, end, 0) && LiveBytes(out) == LiveBytes(slots)
  {
    assert slots[..|out|] == slots;
    SameSizes(out, slots);
    hide LiveBytes;
  }

  lemma CopiedHoldings(slots: seq<Slot>, out: seq<Slot>, from: Bytes, to: Bytes)
    requires |from| == |to| == PAGE_SIZE && |out| == |slots|
    requires AllIn(slots, 0)
    requires AllIn(out, 0)
    requires Copied(slots, out, from, to)
    ensures Holdings(to, out) == Holdings(from, slots)
  {
  }
}
