/** The shape of the B+ tree over its page store, stated page by page.

    Every page carries (as ghost data) the key range it is responsible for, its
    height above the leaves and its parent. All tree laws are local statements
    about a page and its neighbours: ascending keys, separators strictly inside
    the range, children that tile it, one parent per page, one height per level,
    disjoint ranges on a level, and leaves linked both ways in key order.

    While a split travels upwards one page has two halves and its parent knows
    only the left one; `pend` names that pair and the laws account for it. */
module TreeShape {
  import opened Keys
  import opened Nodes

  datatype Info = Info(lo: Key, hi: Option<Key>, level: nat, parent: PageId)

  datatype Pending = NoSplit | Split(left: PageId, right: PageId)

  datatype Shape = Shape(pages: map<PageId, Node>, root: PageId, info: map<PageId, Info>, pend: Pending)

  /** `[lo, hi)`; no upper bound means unbounded. The empty key is the least key,
      so it doubles as "no lower bound". */
  predicate Below(k: Key, hi: Option<Key>) { hi.Some? ==> Less(k, hi.value) }

  predicate InRange(k: Key, r: Info) { AtMost(r.lo, k) && Below(k, r.hi) }

  ghost predicate IsRight(g: Shape, p: PageId) { g.pend.Split? && p == g.pend.right }

  ghost predicate Domains(g: Shape)
  {
    && g.info.Keys == g.pages.Keys
    && g.root in g.pages
    && (g.pend.Split? ==>
          && g.pend.left in g.pages
          && g.pend.right in g.pages
          && g.pend.left != g.pend.right
          && g.pend.right != g.root)
  }

  /** The upper bound of a page as its parent sees it. */
  ghost function ParentHi(g: Shape, p: PageId): Option<Key>
    requires Domains(g) && p in g.pages
  {
    if g.pend.Split? && p == g.pend.left then g.info[g.pend.right].hi else g.info[p].hi
  }

  ghost predicate PendingOk(g: Shape)
    requires Domains(g)
  {
    g.pend.Split? ==>
      var (l, r) := (g.info[g.pend.left], g.info[g.pend.right]);
      l.level == r.level && l.hi == Some(r.lo)
  }

  ghost predicate BelowRoot(g: Shape, p: PageId)
    requires Domains(g) && p in g.pages
  {
    p != g.root && !IsRight(g, p) ==> g.info[p].level < g.info[g.root].level
  }

  ghost predicate RootOk(g: Shape)
    requires Domains(g)
  {
    && g.info[g.root].lo == []
    && ParentHi(g, g.root) == None
    && (forall p {:trigger BelowRoot(g, p)} :: p in g.pages ==> BelowRoot(g, p))
  }

  ghost predicate RangeOk(g: Shape, p: PageId)
    requires Domains(g) && p in g.pages
  {
    Below(g.info[p].lo, g.info[p].hi)
  }

  function SlotLo(n: Node, lo: Key, i: nat): Key
    requires n.Internal? && i <= |n.keys|
  {
    if i == 0 then lo else n.keys[i - 1]
  }

  function SlotHi(n: Node, hi: Option<Key>, i: nat): Option<Key>
    requires n.Internal? && i <= |n.keys|
  {
    if i == |n.keys| then hi else Some(n.keys[i])
  }

  ghost predicate LeafOk(n: Node, r: Info)
    requires n.Leaf?
  {
    && r.level == 0
    && |n.keys| == |n.vals|
    && Sorted(n.keys)
    && (forall i :: 0 <= i < |n.keys| ==> InRange(n.keys[i], r))
  }

  ghost predicate SeparatorsOk(n: Node, r: Info)
    requires n.Internal?
  {
    && r.level > 0
    && |n.children| == |n.keys| + 1
    && Sorted(n.keys)
    && (forall i :: 0 <= i < |n.keys| ==> Less(r.lo, n.keys[i]) && Below(n.keys[i], r.hi))
  }

  /** Child `c` occupies exactly the slot [lo, hi) of page `p`. */
  ghost predicate Slot(g: Shape, p: PageId, c: PageId, lo: Key, hi: Option<Key>)
    requires Domains(g) && p in g.pages
  {
    && c in g.pages
    && !IsRight(g, c)
    && g.info[c].parent == p
    && g.info[c].level + 1 == g.info[p].level
    && g.info[c].lo == lo
    && ParentHi(g, c) == hi
  }

  ghost predicate ChildrenOk(g: Shape, p: PageId)
    requires Domains(g) && p in g.pages && g.pages[p].Internal? && SeparatorsOk(g.pages[p], g.info[p])
  {
    var n := g.pages[p];
    forall i :: 0 <= i < |n.children| ==>
      Slot(g, p, n.children[i], SlotLo(n, g.info[p].lo, i), SlotHi(n, g.info[p].hi, i))
  }

  ghost predicate NodeOk(g: Shape, p: PageId)
    requires Domains(g) && p in g.pages
  {
    if g.pages[p].Leaf? then LeafOk(g.pages[p], g.info[p])
    else SeparatorsOk(g.pages[p], g.info[p]) && ChildrenOk(g, p)
  }

  /** Every page but the root (and a right half still on its way up) hangs under
      the one parent recorded for it. */
  ghost predicate ParentOk(g: Shape, p: PageId)
    requires Domains(g) && p in g.pages
  {
    p != g.root && !IsRight(g, p) ==>
      var q := g.info[p].parent;
      q in g.pages && g.pages[q].Internal? && p in g.pages[q].children
  }

  predicate Apart(a: Info, b: Info)
  {
    || (a.hi.Some? && AtMost(a.hi.value, b.lo))
    || (b.hi.Some? && AtMost(b.hi.value, a.lo))
  }

  ghost predicate LevelsDisjoint(g: Shape)
    requires Domains(g)
  {
    forall p, q {:trigger Apart(g.info[p], g.info[q])} ::
      p in g.pages && q in g.pages && p != q && g.info[p].level == g.info[q].level ==>
      Apart(g.info[p], g.info[q])
  }

  /** Leaf links: next is the leaf whose range starts where this one ends. */
  ghost predicate ChainOk(g: Shape, p: PageId)
    requires Domains(g) && p in g.pages
  {
    g.pages[p].Leaf? ==>
      var n := g.pages[p];
      && (n.next.None? <==> g.info[p].hi.None?)
      && (n.next.Some? ==>
            && n.next.value in g.pages
            && g.pages[n.next.value].Leaf?
            && g.info[n.next.value].lo == g.info[p].hi.value
            && g.pages[n.next.value].prev == Some(p))
      && (n.prev.None? <==> g.info[p].lo == [])
      && (n.prev.Some? ==>
            && n.prev.value in g.pages
            && g.pages[n.prev.value].Leaf?
            && g.pages[n.prev.value].next == Some(p))
  }

  ghost predicate PageOk(g: Shape, p: PageId)
    requires Domains(g) && p in g.pages
  {
    RangeOk(g, p) && NodeOk(g, p) && ParentOk(g, p) && ChainOk(g, p)
  }

  ghost predicate Inv(g: Shape)
  {
    && Domains(g)
    && PendingOk(g)
    && RootOk(g)
    && LevelsDisjoint(g)
    && (forall p {:trigger PageOk(g, p)} :: p in g.pages ==> PageOk(g, p))
  }

  /** Every page fits in its 4096 bytes. */
  ghost predicate AllFit(pages: map<PageId, Node>)
  {
    forall p :: p in pages ==> Fits(pages[p])
  }

  /** What leaf `p` says about the map: each of its records is in `m`, and each
      key of `m` in its range is one of its records. */
  ghost predicate LeafHolds(n: Node, r: Info, m: map<Key, Value>)
    requires n.Leaf? && |n.keys| == |n.vals|
  {
    && (forall i :: 0 <= i < |n.keys| ==> n.keys[i] in m && m[n.keys[i]] == n.vals[i])
    && (forall k :: k in m && InRange(k, r) ==> k in n.keys)
  }

  ghost predicate PageHolds(g: Shape, m: map<Key, Value>, p: PageId)
    requires Domains(g) && p in g.pages
  {
    g.pages[p].Leaf? ==> |g.pages[p].keys| == |g.pages[p].vals| && LeafHolds(g.pages[p], g.info[p], m)
  }

  /** The key-value map a page store holds: exactly the records of its leaves. */
  ghost predicate Holds(g: Shape, m: map<Key, Value>)
    requires Domains(g)
  {
    forall p {:trigger PageHolds(g, m, p)} :: p in g.pages ==> PageHolds(g, m, p)
  }

  /** A whole tree (none: the empty one) holding `m`, every page of it within its 4096
      bytes. */
  ghost predicate TreeWith(g: Option<Shape>, m: map<Key, Value>)
  {
    if g.None? then m == map[]
    else Domains(g.value) && Inv(g.value) && g.value.pend.NoSplit? && Holds(g.value, m) && AllFit(g.value.pages)
  }

  function Lookup(m: map<Key, Value>, k: Key): Option<Value> { if k in m then Some(m[k]) else None }

  // ------------------------------------------------------------ descent

  /** The child a descent picks is the one whose range holds the key. */
  lemma ChildHoldsKey(g: Shape, p: PageId, k: Key)
    requires Inv(g) && p in g.pages && g.pages[p].Internal? && g.pend.NoSplit?
    requires InRange(k, g.info[p])
    ensures var i := ChildIndex(g.pages[p].keys, k); var n := g.pages[p];
            i < |n.children| && n.children[i] in g.pages && InRange(k, g.info[n.children[i]])
            && g.info[n.children[i]].level + 1 == g.info[p].level
            && g.info[n.children[i]].parent == p
  {
    var n := g.pages[p];
    assert PageOk(g, p);
    var i := ChildIndex(n.keys, k);
    LowerBoundCorrect(n.keys, k);
    assert Slot(g, p, n.children[i], SlotLo(n, g.info[p].lo, i), SlotHi(n, g.info[p].hi, i));
    if i < |n.keys| && Has(n.keys, k) {
      assert Less(n.keys[i - 1], n.keys[i]);
    }
  }

  lemma NodeFacts(g: Shape, p: PageId)
    requires Inv(g) && p in g.pages
    ensures Sorted(g.pages[p].keys)
    ensures g.pages[p].Leaf? ==> LeafOk(g.pages[p], g.info[p])
    ensures g.pages[p].Internal? ==> |g.pages[p].children| == |g.pages[p].keys| + 1 && g.info[p].level > 0
  {
    assert PageOk(g, p);
  }

  /** Two leaves never claim the same key, so the covering leaf decides lookups. */
  lemma LeafDecides(g: Shape, m: map<Key, Value>, p: PageId, k: Key)
    requires Inv(g) && Holds(g, m) && p in g.pages && g.pages[p].Leaf? && InRange(k, g.info[p])
    ensures |g.pages[p].keys| == |g.pages[p].vals|
    ensures Has(g.pages[p].keys, k) <==> k in m
    ensures Has(g.pages[p].keys, k) ==> m[k] == g.pages[p].vals[LowerBound(g.pages[p].keys, k)]
  {
    assert PageOk(g, p) && PageHolds(g, m, p);
    LowerBoundCorrect(g.pages[p].keys, k);
  }

  /** Some leaf covers every key: follow the descent down. */
  lemma {:induction false} CoveringLeaf(g: Shape, p: PageId, k: Key) returns (l: PageId)
    requires Inv(g) && g.pend.NoSplit? && p in g.pages && InRange(k, g.info[p])
    ensures l in g.pages && g.pages[l].Leaf? && InRange(k, g.info[l])
    decreases g.info[p].level
  {
    if g.pages[p].Leaf? {
      l := p;
    } else {
      ChildHoldsKey(g, p, k);
      l := CoveringLeaf(g, g.pages[p].children[ChildIndex(g.pages[p].keys, k)], k);
    }
  }

  lemma RootCovers(g: Shape, k: Key)
    requires Inv(g) && g.pend.NoSplit?
    ensures InRange(k, g.info[g.root])
  {
    LessTotal([], k);
  }

  /** The page store determines its map: two maps held by one tree are equal. */
  lemma HeldMapUnique(g: Shape, m1: map<Key, Value>, m2: map<Key, Value>)
    requires Inv(g) && g.pend.NoSplit? && Holds(g, m1) && Holds(g, m2)
    ensures m1 == m2
  {
    forall k: Key ensures (k in m1 <==> k in m2) && (k in m1 ==> m1[k] == m2[k]) {
      RootCovers(g, k);
      var l := CoveringLeaf(g, g.root, k);
      LeafDecides(g, m1, l, k);
      LeafDecides(g, m2, l, k);
    }
  }
}
