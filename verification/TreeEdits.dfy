/** What each page rewrite of a Put does to the tree laws. */
module TreeEdits {
  import opened Keys
  import opened Nodes
  import opened TreeShape

  // ------------------------------------------------------------ one leaf's records

  ghost function WithNode(g: Shape, p: PageId, n: Node): Shape { g.(pages := g.pages[p := n]) }

  /** Rewriting the records of one leaf inside its range disturbs nothing else. */
  lemma LeafEdit(g: Shape, p: PageId, n: Node)
    requires Inv(g) && p in g.pages && g.pages[p].Leaf?
    requires n.Leaf? && n.prev == g.pages[p].prev && n.next == g.pages[p].next
    requires LeafOk(n, g.info[p])
    ensures Inv(WithNode(g, p, n))
  {
    var h := WithNode(g, p, n);
    assert h.pages.Keys == g.pages.Keys;
    forall q | q in h.pages ensures BelowRoot(h, q) && PageOk(h, q) {
      assert PageOk(g, q) && BelowRoot(g, q);
      LeafEditPage(g, p, n, q);
    }
    forall a, b | a in h.pages && b in h.pages && a != b && h.info[a].level == h.info[b].level
      ensures Apart(h.info[a], h.info[b])
    {
      assert Apart(g.info[a], g.info[b]);
    }
  }

  lemma LeafEditPage(g: Shape, p: PageId, n: Node, q: PageId)
    requires Domains(g) && p in g.pages && g.pages[p].Leaf?
    requires n.Leaf? && n.prev == g.pages[p].prev && n.next == g.pages[p].next
    requires LeafOk(n, g.info[p])
    requires q in g.pages && PageOk(g, q)
    ensures var h := WithNode(g, p, n); h.pages.Keys == g.pages.Keys && Domains(h) && PageOk(h, q)
  {
    var h := WithNode(g, p, n);
    assert h.pages.Keys == g.pages.Keys;
    if h.pages[q].Internal? {
      var m := h.pages[q];
      forall i | 0 <= i < |m.children|
        ensures Slot(h, q, m.children[i], SlotLo(m, h.info[q].lo, i), SlotHi(m, h.info[q].hi, i))
      {
        assert Slot(g, q, m.children[i], SlotLo(m, g.info[q].lo, i), SlotHi(m, g.info[q].hi, i));
      }
    }
  }

  /** A leaf write keeps the leaf laws. */
  lemma LeafWriteOk(n: Node, r: Info, k: Key, v: Value)
    requires n.Leaf? && LeafOk(n, r) && InRange(k, r)
    ensures LeafOk(LeafWrite(n, k, v), r)
    ensures k in LeafWrite(n, k, v).keys
    ensures forall x :: x in LeafWrite(n, k, v).keys <==> x == k || x in n.keys
  {
    LowerBoundCorrect(n.keys, k);
    var w := LeafWrite(n, k, v);
    var i := LowerBound(n.keys, k);
    if !Has(n.keys, k) {
      InsertKeepsSorted(n.keys, k);
      assert w.keys[i] == k;
      forall x | x in n.keys ensures x in w.keys {
        var j :| 0 <= j < |n.keys| && n.keys[j] == x;
        assert w.keys[if j < i then j else j + 1] == x;
      }
    }
  }

  lemma LeafEraseOk(n: Node, r: Info, k: Key)
    requires n.Leaf? && LeafOk(n, r)
    ensures LeafOk(LeafErase(n, k), r)
    ensures forall x :: x in LeafErase(n, k).keys <==> x != k && x in n.keys
  {
    LowerBoundCorrect(n.keys, k);
    var w := LeafErase(n, k);
    var i := LowerBound(n.keys, k);
    if Has(n.keys, k) {
      RemoveKeepsSorted(n.keys, i);
      forall x | x in n.keys && x != k ensures x in w.keys {
        var j :| 0 <= j < |n.keys| && n.keys[j] == x;
        assert w.keys[if j < i then j else j - 1] == x;
      }
    }
  }

  /** Disjoint ranges: the written key is in no other leaf. */
  lemma KeyNotElsewhere(a: Info, b: Info, k: Key)
    requires Apart(a, b) && InRange(k, a)
    ensures !InRange(k, b)
  {
    if InRange(k, b) {
      LessIrreflexive(k);
      if a.hi.Some? && AtMost(a.hi.value, b.lo) {
        StrictBelow(k, a.hi.value, b.lo, k);
      } else {
        StrictBelow(k, b.hi.value, a.lo, k);
      }
    }
  }

  lemma StrictBelow(a: Key, b: Key, c: Key, d: Key)
    requires Less(a, b) && AtMost(b, c) && AtMost(c, d)
    ensures Less(a, d)
  {
    if b != c {
      LessTransitive(a, b, c);
    }
    if c != d {
      LessTransitive(a, c, d);
    }
  }

  /** A change of the map at one key in leaf `p`'s range leaves the other leaves
      in agreement. */
  lemma OtherLeavesHold(g: Shape, m: map<Key, Value>, m': map<Key, Value>, p: PageId, q: PageId, k: Key)
    requires Domains(g) && LevelsDisjoint(g) && p in g.pages && q in g.pages && p != q
    requires g.pages[p].Leaf? && NodeOk(g, p) && NodeOk(g, q) && InRange(k, g.info[p])
    requires PageHolds(g, m, q)
    requires forall x :: x != k ==> (x in m <==> x in m') && (x in m ==> m'[x] == m[x])
    ensures PageHolds(g, m', q)
  {
    if g.pages[q].Leaf? {
      var n := g.pages[q];
      assert Apart(g.info[p], g.info[q]);
      KeyNotElsewhere(g.info[p], g.info[q], k);
    }
  }

  lemma WriteHolds(g: Shape, m: map<Key, Value>, p: PageId, k: Key, v: Value)
    requires Inv(g) && Holds(g, m) && p in g.pages && g.pages[p].Leaf? && InRange(k, g.info[p])
    requires LeafOk(g.pages[p], g.info[p])
    ensures var h := WithNode(g, p, LeafWrite(g.pages[p], k, v)); Inv(h) && Holds(h, m[k := v])
  {
    var n := g.pages[p];
    var w := LeafWrite(n, k, v);
    var h := WithNode(g, p, w);
    LeafWriteOk(n, g.info[p], k, v);
    LeafEdit(g, p, w);
    assert PageHolds(g, m, p) && PageOk(g, p);
    forall q | q in h.pages ensures PageHolds(h, m[k := v], q) {
      if q == p {
        WrittenLeafHolds(n, g.info[p], m, k, v);
      } else {
        assert PageHolds(g, m, q) && PageOk(g, q);
        OtherLeavesHold(g, m, m[k := v], p, q, k);
      }
    }
  }

  lemma WrittenLeafHolds(n: Node, r: Info, m: map<Key, Value>, k: Key, v: Value)
    requires n.Leaf? && LeafOk(n, r) && LeafHolds(n, r, m) && InRange(k, r)
    ensures LeafHolds(LeafWrite(n, k, v), r, m[k := v])
  {
    WrittenLeafCovers(n, r, m, k, v);
    forall i | 0 <= i < |LeafWrite(n, k, v).keys|
      ensures var w := LeafWrite(n, k, v); w.keys[i] in m[k := v] && m[k := v][w.keys[i]] == w.vals[i]
    {
      WrittenRecordHolds(n, r, m, k, v, i);
    }
  }

  lemma WrittenLeafCovers(n: Node, r: Info, m: map<Key, Value>, k: Key, v: Value)
    requires n.Leaf? && LeafOk(n, r) && LeafHolds(n, r, m) && InRange(k, r)
    ensures forall x :: x in m[k := v] && InRange(x, r) ==> x in LeafWrite(n, k, v).keys
  {
    LeafWriteOk(n, r, k, v);
  }

  lemma WrittenRecordHolds(n: Node, r: Info, m: map<Key, Value>, k: Key, v: Value, i: nat)
    requires n.Leaf? && |n.keys| == |n.vals| && Sorted(n.keys) && LeafHolds(n, r, m)
    requires i < |LeafWrite(n, k, v).keys|
    ensures var w := LeafWrite(n, k, v); w.keys[i] in m[k := v] && m[k := v][w.keys[i]] == w.vals[i]
  {
    WrittenRecord(n, k, v, i);
  }

  /** Record `i` of a written leaf is the new record or one of the old ones. */
  lemma WrittenRecord(n: Node, k: Key, v: Value, i: nat)
    requires n.Leaf? && |n.keys| == |n.vals| && Sorted(n.keys) && i < |LeafWrite(n, k, v).keys|
    ensures var w := LeafWrite(n, k, v);
            || (w.keys[i] == k && w.vals[i] == v)
            || (w.keys[i] != k && exists j :: 0 <= j < |n.keys| && w.keys[i] == n.keys[j] && w.vals[i] == n.vals[j])
  {
    var w := LeafWrite(n, k, v);
    var at := LowerBound(n.keys, k);
    LowerBoundCorrect(n.keys, k);
    if i != at {
      var src := if Has(n.keys, k) || i < at then i else i - 1;
      assert w.keys[i] == n.keys[src] && w.vals[i] == n.vals[src];
      LessIrreflexive(k);
      if Has(n.keys, k) {
        assert n.keys[at] == k;
      }
    }
  }

  lemma EraseHolds(g: Shape, m: map<Key, Value>, p: PageId, k: Key)
    requires Inv(g) && Holds(g, m) && p in g.pages && g.pages[p].Leaf? && InRange(k, g.info[p])
    requires LeafOk(g.pages[p], g.info[p])
    ensures var h := WithNode(g, p, LeafErase(g.pages[p], k)); Inv(h) && Holds(h, m - {k})
  {
    var n := g.pages[p];
    var w := LeafErase(n, k);
    var h := WithNode(g, p, w);
    LeafEraseOk(n, g.info[p], k);
    LeafEdit(g, p, w);
    assert PageHolds(g, m, p) && PageOk(g, p);
    forall q | q in h.pages ensures PageHolds(h, m - {k}, q) {
      if q == p {
        ErasedLeafHolds(n, g.info[p], m, k);
      } else {
        assert PageHolds(g, m, q) && PageOk(g, q);
        OtherLeavesHold(g, m, m - {k}, p, q, k);
      }
    }
  }

  lemma ErasedLeafHolds(n: Node, r: Info, m: map<Key, Value>, k: Key)
    requires n.Leaf? && LeafOk(n, r) && LeafHolds(n, r, m)
    ensures LeafHolds(LeafErase(n, k), r, m - {k})
  {
    var w := LeafErase(n, k);
    var at := LowerBound(n.keys, k);
    LeafEraseOk(n, r, k);
    forall i | 0 <= i < |w.keys| ensures w.keys[i] in m && m[w.keys[i]] == w.vals[i] && w.keys[i] != k {
      assert w.keys[i] in w.keys;
      var src := if !Has(n.keys, k) || i < at then i else i + 1;
      assert w.keys[i] == n.keys[src] && w.vals[i] == n.vals[src];
    }
  }
}
