/** Cursors over the leaf chain and range scans. With no concurrent writer a scan
    visits exactly the map's entries in its bounds, in ascending order, however many
    emptied leaves lie in between. */
module Scans {
  import opened Keys
  import opened Nodes
  import opened TreeShape
  import opened TreeEdits
  import opened BTree

  /** Key `k` lies at or after position (`p`, `index`) of the leaf chain. */
  ghost predicate Ahead(g: Shape, p: PageId, index: nat, k: Key)
    requires Domains(g) && p in g.pages && g.pages[p].Leaf?
  {
    || (exists j :: index <= j < |g.pages[p].keys| && g.pages[p].keys[j] == k)
    || (g.info[p].hi.Some? && AtMost(g.info[p].hi.value, k))
  }

  /** The leaves strictly right of `p`: what a chain walk has left. */
  ghost function LeavesRight(g: Shape, p: PageId): set<PageId>
    requires Domains(g) && p in g.pages
  {
    set q | q in g.pages && g.pages[q].Leaf? && Less(g.info[p].lo, g.info[q].lo)
  }

  /** Hopping to the next leaf skips no key and shortens the way. */
  lemma Hop(g: Shape, m: map<Key, Value>, p: PageId, q: PageId)
    requires Inv(g) && Holds(g, m) && p in g.pages && g.pages[p].Leaf? && g.pages[p].next == Some(q)
    ensures q in g.pages && g.pages[q].Leaf?
    ensures forall k :: k in m && Ahead(g, p, |g.pages[p].keys|, k) ==> Ahead(g, q, 0, k)
    ensures forall k :: k in m && Ahead(g, q, 0, k) ==> Ahead(g, p, |g.pages[p].keys|, k)
    ensures LeavesRight(g, q) < LeavesRight(g, p)
  {
    assert PageOk(g, p);
    assert PageOk(g, q) && PageHolds(g, m, q);
    var (a, b) := (g.info[p], g.info[q]);
    assert Less(a.lo, b.lo);
    LessIrreflexive(b.lo);
    assert q in LeavesRight(g, p) && q !in LeavesRight(g, q);
    forall r | r in LeavesRight(g, q) ensures r in LeavesRight(g, p) {
      LessTransitive(a.lo, b.lo, g.info[r].lo);
    }
    forall k | k in m && AtMost(b.lo, k) ensures Ahead(g, q, 0, k) {
      HopCovers(g.pages[q], b, m, k);
    }
    forall k | k in m && Ahead(g, q, 0, k) ensures AtMost(b.lo, k) {
      if b.hi.Some? && AtMost(b.hi.value, k) {
        StrictBelow(b.lo, b.hi.value, k, k);
      }
    }
  }

  lemma HopCovers(n: Node, r: Info, m: map<Key, Value>, k: Key)
    requires n.Leaf? && |n.keys| == |n.vals| && LeafHolds(n, r, m) && k in m && AtMost(r.lo, k)
    ensures (exists j :: 0 <= j < |n.keys| && n.keys[j] == k) || (r.hi.Some? && AtMost(r.hi.value, k))
  {
    if r.hi.Some? {
      LessTotal(k, r.hi.value);
    }
    if InRange(k, r) {
      assert k in n.keys;
    }
  }

  /** The current entry comes before everything still ahead of it. */
  lemma CurrentIsLeast(g: Shape, p: PageId, index: nat, k: Key)
    requires Inv(g) && p in g.pages && g.pages[p].Leaf? && index < |g.pages[p].keys|
    ensures Ahead(g, p, index, k) <==> k == g.pages[p].keys[index] || Ahead(g, p, index + 1, k)
    ensures Ahead(g, p, index + 1, k) ==> Less(g.pages[p].keys[index], k)
  {
    assert PageOk(g, p);
    var c := g.pages[p].keys[index];
    assert InRange(c, g.info[p]);
    if g.info[p].hi.Some? && AtMost(g.info[p].hi.value, k) {
      StrictBelow(c, g.info[p].hi.value, k, k);
    }
  }

  /** Everything at or above `start` is ahead of the lower bound in start's leaf. */
  lemma SeekIsLowerBound(g: Shape, m: map<Key, Value>, p: PageId, start: Key, k: Key)
    requires Inv(g) && Holds(g, m) && p in g.pages && g.pages[p].Leaf? && InRange(start, g.info[p]) && k in m
    ensures AtMost(start, k) <==> Ahead(g, p, LowerBound(g.pages[p].keys, start), k)
  {
    assert PageOk(g, p) && PageHolds(g, m, p);
    var n := g.pages[p];
    var i := LowerBound(n.keys, start);
    LowerBoundCorrect(n.keys, start);
    if AtMost(start, k) {
      AtMostTransitive(g.info[p].lo, start, k);
      HopCovers(n, g.info[p], m, k);
      if exists j :: 0 <= j < |n.keys| && n.keys[j] == k {
        var j :| 0 <= j < |n.keys| && n.keys[j] == k;
        if j < i {
          NotBoth(k, start);
        }
      }
    } else if g.info[p].hi.Some? && AtMost(g.info[p].hi.value, k) {
      StrictBelow(start, g.info[p].hi.value, k, k);
    }
  }

  lemma AtMostTransitive(a: Key, b: Key, c: Key)
    requires AtMost(a, b) && AtMost(b, c)
    ensures AtMost(a, c)
  {
    if a != b && b != c {
      LessTransitive(a, b, c);
    }
  }

  lemma NotBoth(a: Key, b: Key)
    requires Less(a, b)
    ensures !AtMost(b, a)
  {
    LessIrreflexive(a);
    if Less(b, a) {
      LessTransitive(a, b, a);
    }
  }

  /** A cursor owns a copy of its leaf, so it holds no pin between calls. */
  class Cursor {
    const tree: BPlusTree
    var page: Node
    var index: nat
    var valid: bool
    ghost var at: PageId

    ghost predicate On()
      reads this, tree
    {
      && tree.Valid()
      && (tree.root.Some? ==> at in tree.pages && at in tree.info && tree.pages[at].Leaf? && page == tree.pages[at])
    }

    ghost predicate Remains(k: Key)
      requires On()
      reads this, tree
    {
      tree.root.Some? && k in tree.contents && Ahead(tree.Tree(NoSplit), at, index, k)
    }

    /** Valid cursors sit on a live entry; an invalid one has nothing left. */
    ghost predicate Settled()
      reads this, tree
    {
      On() && if valid then tree.root.Some? && index < |page.keys| else forall k :: !Remains(k)
    }

    /** A cursor over an empty tree: invalid from the start. */
    constructor Nowhere(t: BPlusTree)
      requires t.Valid() && t.root.None?
      ensures tree == t && Settled() && !valid
    {
      tree, page, index, valid, at := t, Leaf([], [], None, None), 0, false, 0;
    }

    constructor (t: BPlusTree, p: PageId, i: nat)
      requires t.Valid() && t.root.Some? && p in t.pages && p in t.info && t.pages[p].Leaf?
      ensures tree == t && Settled()
      ensures forall k :: Remains(k) <==> k in t.contents && Ahead(t.Tree(NoSplit), p, i, k)
    {
      tree, page, index, valid, at := t, t.pages[p], i, true, p;
      new;
      SkipToLiveEntry();
    }

    /** Hop over leaf ends and empty leaves until an entry or the end of the chain. */
    method SkipToLiveEntry()
      requires On() && valid && tree.root.Some?
      modifies this
      ensures Settled()
      ensures forall k :: Remains(k) <==> old(Remains(k))
    {
      hide Inv, Holds;
      ghost var g := tree.Tree(NoSplit);
      while index >= |page.keys|
        invariant On() && valid
        invariant forall k :: Remains(k) <==> old(Remains(k))
        decreases LeavesRight(g, at)
      {
        NextIsLeaf(g, at, index);
        if page.next.None? {
          valid := false;
          return;
        }
        Hop(g, tree.contents, at, page.next.value);
        at := page.next.value;
        page := tree.pages[page.next.value];
        index := 0;
      }
    }

    /** Advance past the current entry. */
    method Next()
      requires Settled() && valid
      modifies this
      ensures Settled()
      ensures forall k :: Remains(k) <==> old(Remains(k)) && k != old(page.keys[index])
    {
      hide Inv, Holds, Ahead;
      ghost var g := tree.Tree(NoSplit);
      forall k ensures (Ahead(g, at, index, k) <==> k == page.keys[index] || Ahead(g, at, index + 1, k))
                    && (Ahead(g, at, index + 1, k) ==> k != page.keys[index])
      {
        CurrentIsLeast(g, at, index, k);
        LessIrreflexive(k);
      }
      index := index + 1;
      SkipToLiveEntry();
    }
  }

  /** Past the last record only the right neighbours are ahead; a leaf without a
      neighbour is unbounded above, so nothing is. */
  lemma NextIsLeaf(g: Shape, p: PageId, index: nat)
    requires Inv(g) && p in g.pages && g.pages[p].Leaf? && index >= |g.pages[p].keys|
    ensures forall k :: Ahead(g, p, index, k) <==> Ahead(g, p, |g.pages[p].keys|, k)
    ensures g.pages[p].next.None? ==> forall k :: !Ahead(g, p, index, k)
  {
    assert PageOk(g, p);
  }

  /** What has been listed so far: ascending entries of the map, exactly those at or
      above `start` that are not still ahead of the cursor. */
  ghost predicate Listed(c: Cursor, start: Key, ks: seq<Key>, vs: seq<Value>)
    requires c.On()
    reads c, c.tree
  {
    && |ks| == |vs| && Sorted(ks)
    && (forall i :: 0 <= i < |ks| ==>
       ks[i] in c.tree.contents && vs[i] == c.tree.contents[ks[i]] && AtMost(start, ks[i]))
    && (forall k :: k in c.tree.contents && AtMost(start, k) ==> k in ks || c.Remains(k))
    && (forall k :: c.Remains(k) ==> AtMost(start, k))
    && (forall i, k :: 0 <= i < |ks| && c.Remains(k) ==> Less(ks[i], k))
  }

  /** Position at the first entry at or above `start`; nowhere in an empty tree. */
  method Seek(tree: BPlusTree, start: Key) returns (c: Cursor)
    requires tree.Valid()
    ensures fresh(c) && c.tree == tree && c.Settled() && Listed(c, start, [], [])
  {
    hide Inv, Holds, Ahead;
    var at, _ := tree.FindLeaf(start);
    if at.None? {
      c := new Cursor.Nowhere(tree);
      return;
    }
    var leaf := at.value;
    NodeFacts(tree.Tree(NoSplit), leaf);
    var index, found := FindKeyIndex(tree.pages[leaf].keys, start);
    c := new Cursor(tree, leaf, index);
    forall k | k in tree.contents ensures AtMost(start, k) <==> c.Remains(k) {
      SeekIsLowerBound(tree.Tree(NoSplit), tree.contents, leaf, start, k);
    }
  }

  /** One step of the scan: list the current entry and advance. */
  method ListCurrent(c: Cursor, start: Key, ks: seq<Key>, vs: seq<Value>) returns (ks': seq<Key>, vs': seq<Value>)
    requires c.Settled() && c.valid && Listed(c, start, ks, vs) && |c.page.vals| == |c.page.keys|
    modifies c
    ensures c.Settled() && Listed(c, start, ks', vs')
    ensures ks' == ks + [old(c.page.keys[c.index])] && vs' == vs + [old(c.page.vals[c.index])]
    ensures old(c.page.keys[c.index]) in c.tree.contents && old(c.page.keys[c.index]) !in ks
  {
    hide Inv, Holds, Ahead, Less;
    ghost var g := c.tree.Tree(NoSplit);
    CurrentEntry(g, c.tree.contents, c.at, c.index);
    ghost var cur := c.page.keys[c.index];
    assert c.Remains(cur);
    LessIrreflexive(cur);
    ks' := ks + [c.page.keys[c.index]];
    vs' := vs + [c.page.vals[c.index]];
    forall k | c.Remains(k) && k != cur ensures Less(cur, k) {
      CurrentIsLeast(g, c.at, c.index, k);
    }
    c.Next();
  }

  lemma CurrentEntry(g: Shape, m: map<Key, Value>, p: PageId, index: nat)
    requires Inv(g) && Holds(g, m) && p in g.pages && g.pages[p].Leaf? && index < |g.pages[p].keys|
    ensures |g.pages[p].vals| == |g.pages[p].keys|
    ensures var k := g.pages[p].keys[index]; k in m && m[k] == g.pages[p].vals[index] && Ahead(g, p, index, k)
  {
    assert PageOk(g, p) && PageHolds(g, m, p);
  }

  lemma CurrentPair(c: Cursor)
    requires c.Settled() && c.valid
    ensures |c.page.vals| == |c.page.keys|
  {
    hide Inv, Holds, Ahead;
    CurrentEntry(c.tree.Tree(NoSplit), c.tree.contents, c.at, c.index);
  }

  /** `DB::Scan`: entries from `start` up to (not including) `end`, an empty `end`
      meaning no bound; `visit` returning false stops the scan after that entry. */
  method Scan(tree: BPlusTree, start: Key, end: Key, visit: (Key, Value) -> bool)
      returns (ks: seq<Key>, vs: seq<Value>, stopped: bool)
    requires tree.Valid()
    ensures |ks| == |vs| && Sorted(ks)
    ensures forall i :: 0 <= i < |ks| ==> ks[i] in tree.contents && vs[i] == tree.contents[ks[i]]
    ensures forall i :: 0 <= i < |ks| ==> AtMost(start, ks[i]) && (end != [] ==> Less(ks[i], end))
    ensures !stopped ==>
            forall k :: k in tree.contents && AtMost(start, k) && (end != [] ==> Less(k, end)) ==> k in ks
    ensures stopped ==> ks != [] && !visit(ks[|ks| - 1], vs[|vs| - 1])
    ensures stopped ==> forall k :: k in tree.contents && AtMost(start, k) && AtMost(k, ks[|ks| - 1]) ==> k in ks
    ensures forall i :: 0 <= i < |ks| - 1 ==> visit(ks[i], vs[i])
    ensures !stopped && ks != [] ==> visit(ks[|ks| - 1], vs[|vs| - 1])
  {
    hide Inv, Holds, Ahead, Less, AtMost, Sorted, Listed, BPlusTree.Valid;
    ks, vs, stopped := [], [], false;
    var c := Seek(tree, start);
    while c.valid
      invariant fresh(c) && c.tree == tree && c.Settled() && Listed(c, start, ks, vs) && |vs| == |ks|
      invariant forall i :: 0 <= i < |ks| ==> (end != [] ==> Less(ks[i], end)) && visit(ks[i], vs[i])
      decreases tree.contents.Keys - set k | k in ks
    {
      CurrentPair(c);
      var k, v := c.page.keys[c.index], c.page.vals[c.index];
      if end != [] && !Less(k, end) {
        break;
      }
      ghost var before := ks;
      ks, vs := ListCurrent(c, start, ks, vs);
      assert k in tree.contents.Keys - (set x | x in before) && k !in tree.contents.Keys - set x | x in ks;
      if !visit(k, v) {
        StoppedAt(c, start, ks, vs);
        return ks, vs, true;
      }
    }
    ListedAll(c, start, end, ks, vs);
  }

  /** Everything ahead of an entry at or past `end` is past it too. */
  lemma PastTheEnd(g: Shape, m: map<Key, Value>, p: PageId, index: nat, end: Key)
    requires Inv(g) && p in g.pages && g.pages[p].Leaf? && index < |g.pages[p].keys|
    requires end != [] && !Less(g.pages[p].keys[index], end)
    ensures forall k :: Ahead(g, p, index, k) ==> !Less(k, end)
  {
    var c := g.pages[p].keys[index];
    forall k | Ahead(g, p, index, k) ensures !Less(k, end) {
      CurrentIsLeast(g, p, index, k);
      if Less(k, end) && k != c {
        LessTransitive(c, k, end);
      }
    }
  }

  /** A scan that runs out, of entries or of bounds, has listed all there is. */
  lemma ListedAll(c: Cursor, start: Key, end: Key, ks: seq<Key>, vs: seq<Value>)
    requires c.Settled() && Listed(c, start, ks, vs)
    requires c.valid ==> end != [] && !Less(c.page.keys[c.index], end)
    ensures |ks| == |vs| && Sorted(ks)
    ensures forall i :: 0 <= i < |ks| ==>
              ks[i] in c.tree.contents && vs[i] == c.tree.contents[ks[i]] && AtMost(start, ks[i])
    ensures forall k :: k in c.tree.contents && AtMost(start, k) && (end != [] ==> Less(k, end)) ==> k in ks
  {
    hide Inv, Holds, Ahead, Less, AtMost, Sorted, LeafHolds, Domains;
    if c.valid {
      PastTheEnd(c.tree.Tree(NoSplit), c.tree.contents, c.at, c.index, end);
    }
  }

  lemma StoppedAt(c: Cursor, start: Key, ks: seq<Key>, vs: seq<Value>)
    requires c.On() && Listed(c, start, ks, vs) && ks != []
    ensures |ks| == |vs| && Sorted(ks)
    ensures forall i :: 0 <= i < |ks| ==>
              ks[i] in c.tree.contents && vs[i] == c.tree.contents[ks[i]] && AtMost(start, ks[i])
    ensures forall k :: k in c.tree.contents && AtMost(start, k) && AtMost(k, ks[|ks| - 1]) ==> k in ks
  {
    forall k | k in c.tree.contents && AtMost(start, k) && AtMost(k, ks[|ks| - 1]) ensures k in ks {
      if c.Remains(k) {
        NotBoth(ks[|ks| - 1], k);
      }
    }
  }
}
