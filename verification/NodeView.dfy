/** A B+ tree leaf on a slotted page: the in-place edits refine the sorted leaf of module
    Nodes, and whether they succeed depends on the records alone, never on how
    fragmented the page is. */
module NodeView {
  import opened Keys
  import opened LittleEndian
  import opened Nodes
  import opened SlottedPage
  import opened TreeSplits

  const MAX_FIELD := 65535

  // ------------------------------------------------------------ record encoding

  /** [key length][key][value length][value] */
  function EncodeLeaf(k: Key, v: Value): (b: Bytes)
    requires |k| <= MAX_FIELD && |v| <= MAX_FIELD
    ensures |b| == 4 + |k| + |v|
  {
    LE(|k|, 2) + k + LE(|v|, 2) + v
  }

  /** The key starts every record. */
  function DecodeKey(b: Bytes): Key
    requires |b| >= 2
  {
    var n := FromLE(b[..2]);
    if |b| < 2 + n then [] else b[2..2 + n]
  }

  function DecodeValue(b: Bytes): Value
    requires |b| >= 2 && |b| >= 4 + |DecodeKey(b)|
  {
    var rest := b[2 + |DecodeKey(b)|..];
    var n := FromLE(rest[..2]);
    if |rest| < 2 + n then [] else rest[2..2 + n]
  }

  lemma DecodeLeaf(k: Key, v: Value)
    requires |k| <= MAX_FIELD && |v| <= MAX_FIELD
    ensures DecodeKey(EncodeLeaf(k, v)) == k && DecodeValue(EncodeLeaf(k, v)) == v
  {
    hide LE, FromLE;
    Powers();
    FromTo(|k|, 2);
    FromTo(|v|, 2);
    var b := EncodeLeaf(k, v);
    assert b[..2] == LE(|k|, 2) && b[2..2 + |k|] == k;
    var rest := b[2 + |k|..];
    assert rest[..2] == LE(|v|, 2) && rest[2..2 + |v|] == v;
  }

  // ------------------------------------------------------------ leaves on pages

  predicate InField(k: Key, v: Value) { |k| <= MAX_FIELD && |v| <= MAX_FIELD }

  /** The page's records are the leaf's, in order. */
  ghost predicate Shows(records: seq<Option<Bytes>>, ks: seq<Key>, vs: seq<Value>)
  {
    && |records| == |ks| == |vs|
    && (forall i {:trigger ks[i]} {:trigger records[i]} :: 0 <= i < |ks| ==>
       InField(ks[i], vs[i]) && records[i] == Some(EncodeLeaf(ks[i], vs[i])))
  }

  /** The bytes of the records are what the leaf costs, less its slots. */
  lemma {:induction false} ShownBytes(b: Bytes, slots: seq<Slot>, ks: seq<Key>, vs: seq<Value>)
    requires |b| == PAGE_SIZE && AllIn(slots, 0) && Shows(Holdings(b, slots), ks, vs)
    ensures LiveBytes(slots) + SLOT_SIZE * |slots| == LeafCost(ks, vs)
    ensures forall i :: 0 <= i < |slots| ==> !slots[i].deleted && slots[i].length == 4 + |ks[i]| + |vs[i]|
    decreases |slots|
  {
    var n := |slots| - 1;
    if n >= 0 {
      assert Holdings(b, slots[..n]) == Holdings(b, slots)[..n];
      ShownBytes(b, slots[..n], ks[..n], vs[..n]);
      assert Holdings(b, slots)[n] == Some(EncodeLeaf(ks[n], vs[n]));
      assert RecordAt(b, slots[n]) == Some(EncodeLeaf(ks[n], vs[n]));
    }
  }

  lemma ShowsInsert(records: seq<Option<Bytes>>, ks: seq<Key>, vs: seq<Value>, i: nat, k: Key, v: Value)
    requires Shows(records, ks, vs) && i <= |ks| && InField(k, v)
    ensures Shows(InsertSeq(records, i, Some(EncodeLeaf(k, v))), InsertSeq(ks, i, k), InsertSeq(vs, i, v))
  {
    hide EncodeLeaf;
    var (r, a, b) := (InsertSeq(records, i, Some(EncodeLeaf(k, v))), InsertSeq(ks, i, k), InsertSeq(vs, i, v));
    forall j | 0 <= j < |a| ensures InField(a[j], b[j]) && r[j] == Some(EncodeLeaf(a[j], b[j])) {
      if j < i {
        assert a[j] == ks[j] && b[j] == vs[j] && r[j] == records[j];
      } else if j > i {
        assert a[j] == ks[j - 1] && b[j] == vs[j - 1] && r[j] == records[j - 1];
      }
    }
  }

  lemma ShowsUpdate(records: seq<Option<Bytes>>, ks: seq<Key>, vs: seq<Value>, i: nat, v: Value)
    requires Shows(records, ks, vs) && i < |ks| && |v| <= MAX_FIELD
    ensures InField(ks[i], v) && Shows(records[i := Some(EncodeLeaf(ks[i], v))], ks, vs[i := v])
  {
    hide EncodeLeaf;
    assert InField(ks[i], vs[i]);
  }

  lemma ShowsRemove(records: seq<Option<Bytes>>, ks: seq<Key>, vs: seq<Value>, i: nat)
    requires Shows(records, ks, vs) && i < |ks|
    ensures Shows(RemoveSeq(records, i), RemoveSeq(ks, i), RemoveSeq(vs, i))
  {
    hide EncodeLeaf;
    var (r, a, b) := (RemoveSeq(records, i), RemoveSeq(ks, i), RemoveSeq(vs, i));
    forall j | 0 <= j < |a| ensures InField(a[j], b[j]) && r[j] == Some(EncodeLeaf(a[j], b[j])) {
      var o := if j < i then j else j + 1;
      assert a[j] == ks[o] && b[j] == vs[o] && r[j] == records[o];
    }
  }

  // ------------------------------------------------------------ the view

  /** `leaf` is a ghost copy of what the page's records decode to. */
  class LeafView {
    const page: Page
    ghost var leaf: Node

    ghost predicate Valid()
      reads this, page, page.data
    {
      && page.Valid()
      && leaf.Leaf? && |leaf.keys| == |leaf.vals| && Sorted(leaf.keys)
      && Shows(page.Records(), leaf.keys, leaf.vals)
    }

    constructor (p: Page)
      requires p.Valid() && p.Records() == []
      ensures Valid() && page == p && leaf == Leaf([], [], None, None)
    {
      page := p;
      leaf := Leaf([], [], None, None);
    }

    /** Free and dead bytes are what the leaf's cost leaves of the payload. */
    lemma Room()
      requires Valid()
      ensures page.FreeSpace() + page.dead + LeafCost(leaf.keys, leaf.vals) == PAGE_PAYLOAD
      ensures |page.slots| == |leaf.keys|
      ensures forall i :: 0 <= i < |page.slots| ==>
        !page.slots[i].deleted && page.slots[i].length == 4 + |leaf.keys[i]| + |leaf.vals[i]|
    {
      page.Room();
      Area(page.slots, page.freeStart, page.freeEnd, page.dead);
      ShownBytes(page.data[..], page.slots, leaf.keys, leaf.vals);
    }

    method GetKey(i: nat) returns (k: Key)
      requires Valid() && i < |page.slots|
      ensures k == leaf.keys[i]
    {
      hide Sound, Sorted;
      Room();
      Area(page.slots, page.freeStart, page.freeEnd, page.dead);
      var s := page.slots[i];
      var bytes := page.data[s.offset..s.offset + s.length];
      assert page.Records()[i] == Some(bytes);
      assert bytes == EncodeLeaf(leaf.keys[i], leaf.vals[i]);
      DecodeLeaf(leaf.keys[i], leaf.vals[i]);
      k := DecodeKey(bytes);
    }

    method GetValueAt(i: nat) returns (v: Value)
      requires Valid() && i < |page.slots|
      ensures v == leaf.vals[i]
    {
      hide Sound, Sorted;
      Room();
      Area(page.slots, page.freeStart, page.freeEnd, page.dead);
      var s := page.slots[i];
      var bytes := page.data[s.offset..s.offset + s.length];
      assert page.Records()[i] == Some(bytes);
      assert bytes == EncodeLeaf(leaf.keys[i], leaf.vals[i]);
      DecodeLeaf(leaf.keys[i], leaf.vals[i]);
      v := DecodeValue(bytes);
    }
  
    /** Binary search over the records on the page. */
    method FindKeyIndex(key: Key) returns (index: nat, found: bool)
      requires Valid()
      ensures index == LowerBound(leaf.keys, key) && found == Has(leaf.keys, key)
    {
      hide Shows, Sound, LowerBound, Sorted;
      Room();
      ghost var ks := leaf.keys;
      LowerBoundBound(ks, key);
      var left, right := 0, |page.slots|;
      while left < right
        invariant 0 <= left <= LowerBound(ks, key) <= right <= |ks|
        invariant Has(ks, key) ==> LowerBound(ks, key) < right
      {
        var mid := left + (right - left) / 2;
        var midKey := GetKey(mid);
        if key == midKey {
          SearchHit(ks, key, mid);
          return mid, true;
        }
        LessTotal(key, midKey);
        if Less(key, midKey) {
          SearchLeft(ks, key, mid);
          right := mid;
        } else {
          SearchRight(ks, key, mid);
          left := mid + 1;
        }
      }
      return left, false;
    }

    /** Room for `needed` more bytes, compacting if dead bytes are in the way. */
    method EnsureFit(needed: nat) returns (ok: bool)
      requires Valid()
      modifies page, page.data
      ensures Valid() && page.Records() == old(page.Records())
      ensures ok <==> LeafCost(leaf.keys, leaf.vals) + needed <= PAGE_PAYLOAD
      ensures ok ==> page.FreeSpace() >= needed
    {
      hide Shows, LeafCost, Sound, Sorted;
      Room();
      if page.FreeSpace() >= needed {
        return true;
      }
      if page.FreeSpace() + page.dead >= needed {
        page.Compact();
        Room();
        return page.FreeSpace() >= needed;
      }
      return false;
    }

    /** Insert of a new key: succeeds exactly when the key is absent and the leaf with
        it fits a page. */
    method InsertLeaf(key: Key, value: Value) returns (ok: bool)
      requires Valid()
      modifies this, page, page.data
      ensures Valid()
      ensures ok <==> !Has(old(leaf.keys), key) && Fits(LeafWrite(old(leaf), key, value))
      ensures leaf == if ok then LeafWrite(old(leaf), key, value) else old(leaf)
    {
      hide Shows, LeafCost, Sound, Sorted, Has, LowerBound;
      var fits := EnsureFit(SLOT_SIZE + 4 + |key| + |value|);
      ghost var n := leaf;
      if !Has(n.keys, key) {
        InsertCost(n, key, value);
      }
      if !fits {
        return false;
      }
      var index, found := FindKeyIndex(key);
      if found {
        return false;
      }
      Room();
      LowerBoundCorrect(n.keys, key);
      LowerBoundBound(n.keys, key);
      InsertKeepsSorted(n.keys, key);
      ShowsInsert(page.Records(), n.keys, n.vals, index, key, value);
      ok := page.InsertRecordAt(index, EncodeLeaf(key, value));
      leaf := LeafWrite(n, key, value);
    }

    /** Replacing a value in place, in three ways: shrink where it is, grow into free
        space, or tombstone, compact and place. Succeeds exactly when the key is present
        and the leaf with the new value fits a page. */
    method UpdateLeaf(key: Key, value: Value) returns (ok: bool)
      requires Valid() && |value| <= MAX_FIELD
      modifies this, page, page.data
      ensures Valid()
      ensures ok <==> Has(old(leaf.keys), key) && Fits(LeafWrite(old(leaf), key, value))
      ensures leaf == if ok then LeafWrite(old(leaf), key, value) else old(leaf)
    {
      hide Shows, LeafCost, Sound, Sorted, Has, LowerBound;
      var index, found := FindKeyIndex(key);
      if !found {
        return false;
      }
      ghost var n := leaf;
      HasAt(n.keys, key);
      Room();
      ReplaceCost(n, index, value);
      ShowsUpdate(page.Records(), n.keys, n.vals, index, value);
      var rec := EncodeLeaf(key, value);
      var oldLen := page.slots[index].length;
      if |rec| <= oldLen {
        page.Overwrite(index, rec);
      } else {
        if page.FreeSpace() < |rec| {
          if page.FreeSpace() + page.dead + oldLen < |rec| {
            return false;
          }
          ghost var records := page.Records();
          page.DropAndCompact(index);
          assert page.Records()[index := Some(rec)] == records[index := Some(rec)];
        }
        page.Place(index, rec);
      }
      leaf := LeafWrite(n, key, value);
      return true;
    }

    method DeleteAt(index: nat) returns (ok: bool)
      requires Valid()
      modifies this, page
      ensures Valid()
      ensures ok <==> index < |old(leaf.keys)|
      ensures leaf == if ok then old(leaf).(keys := RemoveSeq(old(leaf.keys), index),
              vals := RemoveSeq(old(leaf.vals), index)) else old(leaf)
    {
      hide Shows, LeafCost, Sound, Sorted;
      Room();
      if index >= |page.slots| {
        return false;
      }
      ShowsRemove(page.Records(), leaf.keys, leaf.vals, index);
      RemoveKeepsSorted(leaf.keys, index);
      ok := page.RemoveAt(index);
      leaf := leaf.(keys := RemoveSeq(leaf.keys, index), vals := RemoveSeq(leaf.vals, index));
    }
  }

  lemma LowerBoundBound(ks: seq<Key>, k: Key)
    ensures LowerBound(ks, k) <= |ks|
    ensures Has(ks, k) ==> LowerBound(ks, k) < |ks|
  {
  }

  lemma HasAt(ks: seq<Key>, k: Key)
    requires Has(ks, k)
    ensures LowerBound(ks, k) < |ks| && ks[LowerBound(ks, k)] == k
  {
  }

  /** Replacing a value changes the cost by the difference in length. */
  lemma ReplaceCost(n: Node, i: nat, v: Value)
    requires n.Leaf? && |n.keys| == |n.vals| && i < |n.keys|
    ensures LeafCost(n.keys, n.vals[i := v]) == LeafCost(n.keys, n.vals) - |n.vals[i]| + |v|
  {
    hide LeafCost;
    RemoveCost(n.keys, n.vals, i);
    RemoveCost(n.keys, n.vals[i := v], i);
    assert RemoveSeq(n.vals[i := v], i) == RemoveSeq(n.vals, i);
  }

  // ------------------------------------------------------------ internal nodes

  /** The rebuild of `InsertInternalAfterSplit`: the split child's slot becomes the left
      half under the separator, and the entry that followed it (or the rightmost child)
      now points at the right half. `children` ends with the rightmost child. */
  method EntriesAfterSplit(n: Node, sep: Key, left: PageId, right: PageId)
    returns (keys: seq<Key>, children: seq<PageId>)
    requires n.Internal? && |n.children| == |n.keys| + 1 && Sorted(n.keys)
    ensures Internal(keys, children) == InsertChild(n, LowerBound(n.keys, sep), sep, left, right)
  {
    hide LowerBound;
    LowerBoundBound(n.keys, sep);
    var at, _ := Nodes.FindKeyIndex(n.keys, sep);
    ghost var want := InsertChild(n, at, sep, left, right);
    keys, children := [], [];
    for i := 0 to |n.keys|
      invariant |keys| == |children| == if i <= at then i else i + 1
      invariant keys == want.keys[..|keys|] && children == want.children[..|children|]
    {
      if i == at {
        keys, children := keys + [sep], children + [left];
      }
      keys := keys + [n.keys[i]];
      children := children + [if i == at then right else n.children[i]];
    }
    if at == |n.keys| {
      keys, children := keys + [sep], children + [left];
    }
    children := children + [if at == |n.keys| then right else n.children[|n.keys|]];
  }

  /** A rebuilt internal page takes its entries exactly when they cost at most the
      payload: a fresh page has no dead bytes. */
  method RebuildInternal(keys: seq<Key>, children: seq<PageId>) returns (ok: bool, page: Page)
    requires |children| == |keys| + 1 && forall i :: 0 <= i < |keys| ==> |keys[i]| <= MAX_FIELD
    ensures fresh(page) && fresh(page.data) && page.Valid()
    ensures ok <==> InternalCost(keys) <= PAGE_PAYLOAD
    ensures ok ==> page.Records() == EncodedInner(keys, children)
  {
    hide Sound, LiveBytes, InternalCost, EncodeInner, EncodedInner;
    page := new Page();
    EncodedNone(keys, children);
    for i := 0 to |keys|
      invariant fresh(page) && fresh(page.data) && page.Valid() && page.dead == 0 && |page.slots| == i
      invariant page.Records() == EncodedInner(keys[..i], children[..i + 1])
      invariant page.FreeSpace() + InternalCost(keys[..i]) == PAGE_PAYLOAD
    {
      EncodedMore(keys, children, i);
      ok := page.InsertRecordAt(|page.slots|, EncodeInner(keys[i], children[i]));
      if !ok {
        InternalCostConcat(keys[..i + 1], keys[i + 1..]);
        assert keys[..i + 1] + keys[i + 1..] == keys;
        return;
      }
    }
    assert keys[..|keys|] == keys && children[..|keys| + 1] == children;
    ok := true;
  }

  lemma EncodedNone(keys: seq<Key>, children: seq<PageId>)
    requires |children| == |keys| + 1
    ensures EncodedInner(keys[..0], children[..1]) == [] && InternalCost(keys[..0]) == 0
  {
  }

  /** The next entry, as bytes and as cost. */
  lemma EncodedMore(keys: seq<Key>, children: seq<PageId>, i: nat)
    requires |children| == |keys| + 1 && i < |keys| && forall j :: 0 <= j < |keys| ==> |keys[j]| <= MAX_FIELD
    ensures EncodedInner(keys[..i + 1], children[..i + 2]) ==
            InsertSeq(EncodedInner(keys[..i], children[..i + 1]), i, Some(EncodeInner(keys[i], children[i])))
    ensures InternalCost(keys[..i + 1]) == InternalCost(keys[..i]) + SLOT_SIZE + |EncodeInner(keys[i], children[i])|
  {
    hide EncodeInner, InternalCost;
    assert keys[..i + 1] == keys[..i] + [keys[i]];
    InternalCostConcat(keys[..i], [keys[i]]);
    InternalCostOne(keys[i]);
  }

  /** [key length][key][child] */
  function EncodeInner(k: Key, child: PageId): (b: Bytes)
    requires |k| <= MAX_FIELD
    ensures |b| == 6 + |k|
  {
    LE(|k|, 2) + k + LE(child, 4)
  }

  function EncodedInner(keys: seq<Key>, children: seq<PageId>): (r: seq<Option<Bytes>>)
    requires |children| == |keys| + 1 && forall i :: 0 <= i < |keys| ==> |keys[i]| <= MAX_FIELD
    ensures |r| == |keys|
  {
    seq(|keys|, i requires 0 <= i < |keys| => Some(EncodeInner(keys[i], children[i])))
  }

  lemma DecodeInner(k: Key, child: PageId)
    requires |k| <= MAX_FIELD && child < 0x1_0000_0000
    ensures var b := EncodeInner(k, child);
            DecodeKey(b) == k && FromLE(b[2 + |DecodeKey(b)|..]) == child
  {
    hide LE, FromLE;
    Powers();
    FromTo(|k|, 2);
    FromTo(child, 4);
    var b := EncodeInner(k, child);
    assert b[..2] == LE(|k|, 2) && b[2..2 + |k|] == k && b[2 + |k|..] == LE(child, 4);
  }
}
