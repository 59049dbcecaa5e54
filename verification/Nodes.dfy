/** B+ tree nodes as values: what a leaf or internal page holds, what it costs
    in bytes, and the searches and edits `NodeView` performs on it.

    Byte accounting follows the slotted page: a page has 4096 - 40 bytes for
    slots and records, a slot takes 8 bytes, a leaf record 4 bytes plus key and
    value, an internal record 6 bytes plus key. That this is the exact criterion
    for a byte-level page is proved in module NodeView. */
module Nodes {
  import opened Keys

  type PageId = nat

  const PAGE_PAYLOAD := 4056
  const MAX_LEAF_RECORD := 4048

  /** An internal node with n separators has n + 1 children; the last one is the
      header's rightmost child. Child i holds the keys below separator i and at
      or above separator i - 1. */
  datatype Node =
    | Leaf(keys: seq<Key>, vals: seq<Value>, prev: Option<PageId>, next: Option<PageId>)
    | Internal(keys: seq<Key>, children: seq<PageId>)

  // ---------------------------------------------------------------- cost

  function LeafRecordCost(k: Key, v: Value): nat { 12 + |k| + |v| }

  function InternalRecordCost(k: Key): nat { 14 + |k| }

  function LeafCost(ks: seq<Key>, vs: seq<Value>): nat
    requires |ks| == |vs|
  {
    if ks == [] then 0
    else LeafCost(ks[..|ks| - 1], vs[..|vs| - 1]) + LeafRecordCost(ks[|ks| - 1], vs[|vs| - 1])
  }

  function InternalCost(ks: seq<Key>): nat
  {
    if ks == [] then 0 else InternalCost(ks[..|ks| - 1]) + InternalRecordCost(ks[|ks| - 1])
  }

  predicate Fits(n: Node)
  {
    match n
    case Leaf(ks, vs, _, _) => |ks| == |vs| && LeafCost(ks, vs) <= PAGE_PAYLOAD
    case Internal(ks, _) => InternalCost(ks) <= PAGE_PAYLOAD
  }

  /** A record some leaf can hold: alone on an empty page, if need be. */
  predicate Holdable(k: Key, v: Value) { Fits(Leaf([k], [v], None, None)) }

  /** That is the limit the code tests. */
  lemma HoldableIs(k: Key, v: Value)
    ensures Holdable(k, v) <==> 4 + |k| + |v| <= MAX_LEAF_RECORD
  {
    assert LeafCost([], []) == 0 && [k][..0] == [] && [v][..0] == [];
  }

  lemma {:induction false} LeafCostConcat(k1: seq<Key>, v1: seq<Value>, k2: seq<Key>, v2: seq<Value>)
    requires |k1| == |v1| && |k2| == |v2|
    ensures LeafCost(k1 + k2, v1 + v2) == LeafCost(k1, v1) + LeafCost(k2, v2)
    decreases |k2|
  {
    if k2 == [] {
      assert k1 + k2 == k1 && v1 + v2 == v1;
    } else {
      var n := |k2| - 1;
      LeafCostConcat(k1, v1, k2[..n], v2[..n]);
      assert (k1 + k2)[..|k1 + k2| - 1] == k1 + k2[..n];
      assert (v1 + v2)[..|v1 + v2| - 1] == v1 + v2[..n];
    }
  }

  lemma {:induction false} InternalCostConcat(k1: seq<Key>, k2: seq<Key>)
    ensures InternalCost(k1 + k2) == InternalCost(k1) + InternalCost(k2)
    decreases |k2|
  {
    if k2 == [] {
      assert k1 + k2 == k1;
    } else {
      var n := |k2| - 1;
      InternalCostConcat(k1, k2[..n]);
      assert (k1 + k2)[..|k1 + k2| - 1] == k1 + k2[..n];
    }
  }

  lemma LeafCostOne(k: Key, v: Value)
    ensures LeafCost([k], [v]) == LeafRecordCost(k, v)
  {
    assert [k][..0] == [] && [v][..0] == [];
  }

  lemma InternalCostOne(k: Key)
    ensures InternalCost([k]) == InternalRecordCost(k)
  {
    assert [k][..0] == [];
  }

  // ---------------------------------------------------------------- search

  /** Where `k` is, or belongs, among ascending keys. */
  function LowerBound(ks: seq<Key>, k: Key): (i: nat)
    ensures i <= |ks|
    ensures forall j :: 0 <= j < i ==> Less(ks[j], k)
    ensures i < |ks| ==> !Less(ks[i], k)
  {
    if ks == [] || !Less(ks[0], k) then 0 else 1 + LowerBound(ks[1..], k)
  }

  predicate Has(ks: seq<Key>, k: Key)
  {
    var i := LowerBound(ks, k);
    i < |ks| && ks[i] == k
  }

  /** On ascending keys `LowerBound` is the unique lower bound and `Has` decides
      membership. */
  lemma LowerBoundCorrect(ks: seq<Key>, k: Key)
    requires Sorted(ks)
    ensures IsLowerBound(ks, k, LowerBound(ks, k))
    ensures Has(ks, k) <==> k in ks
  {
    var i := LowerBound(ks, k);
    forall j | i <= j < |ks| ensures ks[j] == k || Less(k, ks[j]) {
      LessTotal(ks[i], k);
      if i < j && ks[i] != k {
        LessTransitive(k, ks[i], ks[j]);
      }
    }
    if k in ks {
      var j :| 0 <= j < |ks| && ks[j] == k;
      LessIrreflexive(k);
    }
  }

  lemma LowerBoundUnique(ks: seq<Key>, k: Key, i: nat)
    requires IsLowerBound(ks, k, i)
    ensures i == LowerBound(ks, k)
  {
    var l := LowerBound(ks, k);
    LessIrreflexive(k);
    if i < l && Less(k, ks[i]) {
      LessTransitive(k, ks[i], k);
    }
  }

  /** The binary search of `FindKeyIndex`. */
  method FindKeyIndex(ks: seq<Key>, k: Key) returns (index: nat, found: bool)
    requires Sorted(ks)
    ensures index == LowerBound(ks, k)
    ensures found == Has(ks, k)
  {
    LowerBoundCorrect(ks, k);
    var left, right := 0, |ks|;
    while left < right
      invariant 0 <= left <= LowerBound(ks, k) <= right <= |ks|
      invariant right < |ks| ==> Less(k, ks[right])
      invariant Has(ks, k) ==> LowerBound(ks, k) < right
    {
      var mid := left + (right - left) / 2;
      if k == ks[mid] {
        SearchHit(ks, k, mid);
        return mid, true;
      }
      LessTotal(k, ks[mid]);
      if Less(k, ks[mid]) {
        SearchLeft(ks, k, mid);
        right := mid;
      } else {
        SearchRight(ks, k, mid);
        left := mid + 1;
      }
    }
    LessIrreflexive(k);
    return left, false;
  }

  lemma SearchHit(ks: seq<Key>, k: Key, mid: nat)
    requires Sorted(ks) && mid < |ks| && ks[mid] == k
    ensures LowerBound(ks, k) == mid && Has(ks, k)
  {
    LowerBoundCorrect(ks, k);
    var i := LowerBound(ks, k);
    LessIrreflexive(k);
  }

  lemma SearchLeft(ks: seq<Key>, k: Key, mid: nat)
    requires Sorted(ks) && mid < |ks| && Less(k, ks[mid])
    ensures LowerBound(ks, k) <= mid
    ensures Has(ks, k) ==> LowerBound(ks, k) < mid
  {
    var i := LowerBound(ks, k);
    LessIrreflexive(k);
    if mid < i {
      LessTransitive(k, ks[mid], k);
    }
  }

  lemma SearchRight(ks: seq<Key>, k: Key, mid: nat)
    requires Sorted(ks) && mid < |ks| && Less(ks[mid], k)
    ensures mid < LowerBound(ks, k)
  {
    var i := LowerBound(ks, k);
    if i < mid {
      LessTransitive(ks[i], ks[mid], k);
    }
  }

  /** `FindChildIndex`: on an exact separator match step right of it. */
  function ChildIndex(ks: seq<Key>, k: Key): (i: nat)
    ensures i <= |ks|
  {
    if Has(ks, k) then LowerBound(ks, k) + 1 else LowerBound(ks, k)
  }

  // ---------------------------------------------------------------- edits

  function InsertSeq<T>(s: seq<T>, i: nat, x: T): (r: seq<T>)
    requires i <= |s|
    ensures |r| == |s| + 1 && r[i] == x
    ensures forall j :: 0 <= j < i ==> r[j] == s[j]
    ensures forall j :: i < j < |r| ==> r[j] == s[j - 1]
  {
    s[..i] + [x] + s[i..]
  }

  function RemoveSeq<T>(s: seq<T>, i: nat): (r: seq<T>)
    requires i < |s|
    ensures |r| == |s| - 1
    ensures forall j :: 0 <= j < i ==> r[j] == s[j]
    ensures forall j :: i <= j < |r| ==> r[j] == s[j + 1]
  {
    s[..i] + s[i + 1..]
  }

  /** The leaf after writing `k := v`: a new record at its sorted position, or the
      value replaced. */
  function LeafWrite(n: Node, k: Key, v: Value): (r: Node)
    requires n.Leaf? && |n.keys| == |n.vals|
    ensures r.Leaf? && |r.keys| == |r.vals| && r.prev == n.prev && r.next == n.next
  {
    var i := LowerBound(n.keys, k);
    if Has(n.keys, k) then n.(vals := n.vals[i := v])
    else n.(keys := InsertSeq(n.keys, i, k), vals := InsertSeq(n.vals, i, v))
  }

  /** The leaf after erasing `k`, which may be absent. */
  function LeafErase(n: Node, k: Key): (r: Node)
    requires n.Leaf? && |n.keys| == |n.vals|
    ensures r.Leaf? && |r.keys| == |r.vals| && r.prev == n.prev && r.next == n.next
  {
    var i := LowerBound(n.keys, k);
    if Has(n.keys, k) then n.(keys := RemoveSeq(n.keys, i), vals := RemoveSeq(n.vals, i)) else n
  }

  lemma InsertKeepsSorted(ks: seq<Key>, k: Key)
    requires Sorted(ks) && k !in ks
    ensures Sorted(InsertSeq(ks, LowerBound(ks, k), k))
  {
    LowerBoundCorrect(ks, k);
  }

  lemma RemoveKeepsSorted(ks: seq<Key>, i: nat)
    requires Sorted(ks) && i < |ks|
    ensures Sorted(RemoveSeq(ks, i)) && ks[i] !in RemoveSeq(ks, i)
  {
    var r := RemoveSeq(ks, i);
    forall j | 0 <= j < |r| ensures r[j] != ks[i] {
      LessIrreflexive(ks[i]);
    }
  }

  lemma CostOfMiddle(k1: seq<Key>, v1: seq<Value>, k: Key, v: Value, k2: seq<Key>, v2: seq<Value>)
    requires |k1| == |v1| && |k2| == |v2|
    ensures LeafCost(k1 + [k] + k2, v1 + [v] + v2) == LeafCost(k1 + k2, v1 + v2) + LeafRecordCost(k, v)
  {
    hide LeafCost;
    LeafCostConcat(k1 + [k], v1 + [v], k2, v2);
    LeafCostConcat(k1, v1, [k], [v]);
    LeafCostOne(k, v);
    LeafCostConcat(k1, v1, k2, v2);
  }

  lemma InsertCostAt(ks: seq<Key>, vs: seq<Value>, i: nat, k: Key, v: Value)
    requires |ks| == |vs| && i <= |ks|
    ensures LeafCost(InsertSeq(ks, i, k), InsertSeq(vs, i, v)) == LeafCost(ks, vs) + LeafRecordCost(k, v)
  {
    hide LeafCost;
    CostOfMiddle(ks[..i], vs[..i], k, v, ks[i..], vs[i..]);
    assert ks[..i] + ks[i..] == ks && vs[..i] + vs[i..] == vs;
  }

  lemma InsertCost(n: Node, k: Key, v: Value)
    requires n.Leaf? && |n.keys| == |n.vals| && !Has(n.keys, k)
    ensures var r := LeafWrite(n, k, v);
            LeafCost(r.keys, r.vals) == LeafCost(n.keys, n.vals) + LeafRecordCost(k, v)
  {
    InsertCostAt(n.keys, n.vals, LowerBound(n.keys, k), k, v);
  }

  lemma InsertUndoesRemove<T>(s: seq<T>, i: nat)
    requires i < |s|
    ensures InsertSeq(RemoveSeq(s, i), i, s[i]) == s
  {
  }

  lemma RemoveCost(ks: seq<Key>, vs: seq<Value>, i: nat)
    requires |ks| == |vs| && i < |ks|
    ensures LeafCost(ks, vs) == LeafCost(RemoveSeq(ks, i), RemoveSeq(vs, i)) + LeafRecordCost(ks[i], vs[i])
  {
    InsertCostAt(RemoveSeq(ks, i), RemoveSeq(vs, i), i, ks[i], vs[i]);
    InsertUndoesRemove(ks, i);
    InsertUndoesRemove(vs, i);
  }

  /** After erasing `k` its place is unchanged, so writing it again lands where it
      was. */
  lemma EraseKeepsPlace(ks: seq<Key>, k: Key)
    requires Sorted(ks) && Has(ks, k)
    ensures var r := RemoveSeq(ks, LowerBound(ks, k));
            Sorted(r) && k !in r && !Has(r, k) && LowerBound(r, k) == LowerBound(ks, k)
  {
    var i := LowerBound(ks, k);
    var r := RemoveSeq(ks, i);
    RemoveKeepsSorted(ks, i);
    LowerBoundCorrect(ks, k);
    LowerBoundCorrect(r, k);
    LowerBoundUnique(r, k, i);
  }

  /** Replacing a value costs what erasing the record and inserting the new one
      costs: so when an update is refused for space, delete-then-insert on the
      same page is refused too. */
  lemma UpdateCost(n: Node, k: Key, v: Value)
    requires n.Leaf? && |n.keys| == |n.vals| && Sorted(n.keys) && Has(n.keys, k)
    ensures var e := LeafErase(n, k); var w := LeafWrite(n, k, v); var ew := LeafWrite(e, k, v);
            && !Has(e.keys, k)
            && ew == w
            && LeafCost(w.keys, w.vals) == LeafCost(e.keys, e.vals) + LeafRecordCost(k, v)
  {
    var i := LowerBound(n.keys, k);
    EraseKeepsPlace(n.keys, k);
    InsertUndoesRemove(n.keys, i);
    ReplaceIsRemoveInsert(n.vals, i, v);
    InsertCostAt(RemoveSeq(n.keys, i), RemoveSeq(n.vals, i), i, k, v);
  }

  lemma ReplaceIsRemoveInsert<T>(s: seq<T>, i: nat, x: T)
    requires i < |s|
    ensures InsertSeq(RemoveSeq(s, i), i, x) == s[i := x]
  {
  }
}
