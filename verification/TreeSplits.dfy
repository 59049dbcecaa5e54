/** Splitting a leaf, splitting an internal node, absorbing a separator, and
    growing a new root: each keeps every tree law and the key-value map. */
module TreeSplits {
  import opened Keys
  import opened Nodes
  import opened TreeShape
  import opened TreeEdits

  // ------------------------------------------------------------ ranges

  /** Cutting a range at `sep` gives two parts, apart from each other and from
      whatever the whole was apart from. */
  lemma CutApart(a: Info, x: Info, sep: Key, parent: PageId)
    requires Less(a.lo, sep) && Below(sep, a.hi) && Apart(a, x)
    ensures Apart(a.(hi := Some(sep)), x)
    ensures Apart(a.(lo := sep, parent := parent), x)
  {
    if a.hi.Some? && AtMost(a.hi.value, x.lo) {
      StrictBelow(sep, a.hi.value, x.lo, x.lo);
    } else {
      if x.hi.value != a.lo {
        LessTransitive(x.hi.value, a.lo, sep);
      }
    }
  }

  ghost function CutInfo(info: map<PageId, Info>, p: PageId, r: PageId, sep: Key): map<PageId, Info>
    requires p in info
  {
    info[p := info[p].(hi := Some(sep))][r := info[p].(lo := sep)]
  }

  lemma ApartSym(a: Info, b: Info)
    requires Apart(a, b)
    ensures Apart(b, a)
  {
  }

  /** Level disjointness survives cutting page `p` at `sep` into `p` and `r`, however
      parents are reassigned. */
  lemma CutKeepsDisjoint(g: Shape, h: Shape, p: PageId, r: PageId, sep: Key)
    requires Domains(g) && LevelsDisjoint(g) && p in g.pages && r !in g.pages && Domains(h)
    requires h.pages.Keys == g.pages.Keys + {r}
    requires Less(g.info[p].lo, sep) && Below(sep, g.info[p].hi)
    requires h.info[p] == g.info[p].(hi := Some(sep))
    requires h.info[r] == g.info[p].(lo := sep)
    requires forall q :: q in g.pages && q != p ==> SameRange(g.info[q], h.info[q])
    ensures LevelsDisjoint(h)
  {
    forall a, b | a in h.pages && b in h.pages && a != b && h.info[a].level == h.info[b].level
      ensures Apart(h.info[a], h.info[b])
    {
      CutPairApart(g, h, p, r, sep, a, b);
    }
  }

  predicate SameRange(a: Info, b: Info) { a.lo == b.lo && a.hi == b.hi && a.level == b.level }

  /** Only pages in `own` changed, or changed range. */
  ghost predicate Frame(g: Shape, h: Shape, own: set<PageId>)
  {
    forall q {:trigger q in g.pages} {:trigger q in h.pages} :: q in g.pages && q !in own ==>
      q in h.pages && q in g.info && q in h.info && h.pages[q] == g.pages[q] && SameRange(g.info[q], h.info[q])
  }

  lemma CutPairApart(g: Shape, h: Shape, p: PageId, r: PageId, sep: Key, a: PageId, b: PageId)
    requires Domains(g) && LevelsDisjoint(g) && p in g.pages && r !in g.pages && Domains(h)
    requires h.pages.Keys == g.pages.Keys + {r}
    requires Less(g.info[p].lo, sep) && Below(sep, g.info[p].hi)
    requires h.info[p] == g.info[p].(hi := Some(sep))
    requires h.info[r] == g.info[p].(lo := sep)
    requires forall q :: q in g.pages && q != p ==> SameRange(g.info[q], h.info[q])
    requires a in h.pages && b in h.pages && a != b && h.info[a].level == h.info[b].level
    ensures Apart(h.info[a], h.info[b])
  {
    var (oa, ob) := (if a == r then p else a, if b == r then p else b);
    if oa != ob {
      assert Apart(g.info[oa], g.info[ob]);
      if oa == p {
        CutApart(g.info[p], h.info[b], sep, g.info[p].parent);
      } else if ob == p {
        ApartSym(g.info[oa], g.info[ob]);
        CutApart(g.info[p], h.info[a], sep, g.info[p].parent);
      }
    }
  }

  // ------------------------------------------------------------ leaf split

  function LeftLeaf(n: Node, at: nat, r: PageId): Node
    requires n.Leaf? && |n.keys| == |n.vals| && at <= |n.keys|
  {
    Leaf(n.keys[..at], n.vals[..at], n.prev, Some(r))
  }

  function RightLeaf(n: Node, at: nat, p: PageId): Node
    requires n.Leaf? && |n.keys| == |n.vals| && at <= |n.keys|
  {
    Leaf(n.keys[at..], n.vals[at..], Some(p), n.next)
  }

  function RelinkPrev(n: Node, r: PageId): Node
  {
    if n.Leaf? then n.(prev := Some(r)) else n
  }

  /** The page store after `SplitLeaf`: two halves and the old right neighbour
      pointing back at the new page. */
  function SplitLeafPages(pages: map<PageId, Node>, p: PageId, r: PageId): map<PageId, Node>
    requires p in pages && pages[p].Leaf? && |pages[p].keys| == |pages[p].vals|
    requires pages[p].next.Some? ==> pages[p].next.value in pages
  {
    var n := pages[p];
    var at := |n.keys| / 2;
    var halves := pages[p := LeftLeaf(n, at, r)][r := RightLeaf(n, at, p)];
    if n.next.Some? then halves[n.next.value := RelinkPrev(pages[n.next.value], r)] else halves
  }

  ghost predicate CanSplitLeaf(g: Shape, p: PageId, r: PageId)
  {
    && Inv(g) && g.pend.NoSplit? && p in g.pages && g.pages[p].Leaf? && r !in g.pages
    && PageOk(g, p)
    && g.pages[p].keys != []
    && Less(g.info[p].lo, g.pages[p].keys[|g.pages[p].keys| / 2])
  }

  ghost function AfterSplitLeaf(g: Shape, p: PageId, r: PageId): Shape
    requires CanSplitLeaf(g, p, r)
  {
    Shape(SplitLeafPages(g.pages, p, r), g.root,
          CutInfo(g.info, p, r, g.pages[p].keys[|g.pages[p].keys| / 2]), Split(p, r))
  }

  /** The right neighbour is a different page. */
  lemma NextDiffers(g: Shape, p: PageId)
    requires Domains(g) && p in g.pages && g.pages[p].Leaf? && RangeOk(g, p) && ChainOk(g, p)
    ensures g.pages[p].next.Some? ==> g.pages[p].next.value != p
  {
    LessIrreflexive(g.info[p].lo);
  }

  lemma SplitCost(ks: seq<Key>, vs: seq<Value>, at: nat)
    requires |ks| == |vs| && at <= |ks|
    ensures LeafCost(ks, vs) == LeafCost(ks[..at], vs[..at]) + LeafCost(ks[at..], vs[at..])
  {
    LeafCostConcat(ks[..at], vs[..at], ks[at..], vs[at..]);
    assert ks[..at] + ks[at..] == ks && vs[..at] + vs[at..] == vs;
  }

  lemma LeftHalfOk(n: Node, r: Info, at: nat)
    requires n.Leaf? && LeafOk(n, r) && at < |n.keys|
    ensures LeafOk(LeftLeaf(n, at, 0), r.(hi := Some(n.keys[at])))
  {
  }

  lemma RightHalfOk(n: Node, r: Info, at: nat)
    requires n.Leaf? && LeafOk(n, r) && at < |n.keys|
    ensures LeafOk(RightLeaf(n, at, 0), r.(lo := n.keys[at]))
  {
  }

  /** Pages not touched by a leaf split keep their laws. */
  lemma SplitLeafOtherPage(g: Shape, p: PageId, r: PageId, q: PageId)
    requires CanSplitLeaf(g, p, r) && q in g.pages && q != p && PageOk(g, q)
    ensures var h := AfterSplitLeaf(g, p, r);
            Domains(h) && q in h.pages && RangeOk(h, q) && NodeOk(h, q) && ParentOk(h, q)
  {
    var h := AfterSplitLeaf(g, p, r);
    NextDiffers(g, p);
    if g.pages[q].Internal? {
      var m := g.pages[q];
      assert h.pages[q] == m;
      forall i | 0 <= i < |m.children|
        ensures Slot(h, q, m.children[i], SlotLo(m, h.info[q].lo, i), SlotHi(m, h.info[q].hi, i))
      {
        assert Slot(g, q, m.children[i], SlotLo(m, g.info[q].lo, i), SlotHi(m, g.info[q].hi, i));
      }
    }
  }

  lemma SplitLeafOtherChain(g: Shape, p: PageId, r: PageId, q: PageId)
    requires CanSplitLeaf(g, p, r) && q in g.pages && q != p && PageOk(g, q)
    ensures var h := AfterSplitLeaf(g, p, r); Domains(h) && ChainOk(h, q)
  {
    NextDiffers(g, p);
  }

  lemma SplitLeafHalf(g: Shape, p: PageId, r: PageId, q: PageId)
    requires CanSplitLeaf(g, p, r) && (q == p || q == r)
    ensures var h := AfterSplitLeaf(g, p, r);
            Domains(h) && RangeOk(h, q) && NodeOk(h, q) && ParentOk(h, q) && ChainOk(h, q)
  {
    var n := g.pages[p];
    NextDiffers(g, p);
    LeftHalfOk(n, g.info[p], |n.keys| / 2);
    RightHalfOk(n, g.info[p], |n.keys| / 2);
    LessIrreflexive([]);
    assert InRange(n.keys[|n.keys| / 2], g.info[p]);
  }

  lemma SplitLeafPage(g: Shape, p: PageId, r: PageId, q: PageId)
    requires CanSplitLeaf(g, p, r) && q in AfterSplitLeaf(g, p, r).pages
    ensures var h := AfterSplitLeaf(g, p, r); Domains(h) && PageOk(h, q)
  {
    if q == p || q == r {
      SplitLeafHalf(g, p, r, q);
    } else {
      assert PageOk(g, q);
      SplitLeafOtherPage(g, p, r, q);
      SplitLeafOtherChain(g, p, r, q);
    }
  }

  lemma SplitLeafRoot(g: Shape, p: PageId, r: PageId)
    requires CanSplitLeaf(g, p, r)
    ensures var h := AfterSplitLeaf(g, p, r); Domains(h) && PendingOk(h) && RootOk(h) && LevelsDisjoint(h)
  {
    var h := AfterSplitLeaf(g, p, r);
    var sep := g.pages[p].keys[|g.pages[p].keys| / 2];
    assert h.pages.Keys == g.pages.Keys + {r};
    forall q | q in h.pages ensures BelowRoot(h, q) {
      assert BelowRoot(g, if q == r then p else q);
    }
    assert InRange(sep, g.info[p]);
    CutKeepsDisjoint(g, h, p, r, sep);
  }

  lemma SplitLeafInv(g: Shape, p: PageId, r: PageId)
    requires CanSplitLeaf(g, p, r)
    ensures Inv(AfterSplitLeaf(g, p, r))
  {
    SplitLeafRoot(g, p, r);
    forall q | q in AfterSplitLeaf(g, p, r).pages ensures PageOk(AfterSplitLeaf(g, p, r), q) {
      SplitLeafPage(g, p, r, q);
    }
  }

  /** A split moves records, it does not change the map. */
  lemma SplitLeafHolds(g: Shape, p: PageId, r: PageId, m: map<Key, Value>)
    requires CanSplitLeaf(g, p, r) && Holds(g, m)
    ensures var h := AfterSplitLeaf(g, p, r); Domains(h) && Holds(h, m)
  {
    var h := AfterSplitLeaf(g, p, r);
    NextDiffers(g, p);
    assert PageHolds(g, m, p);
    forall q | q in h.pages ensures PageHolds(h, m, q) {
      if q == p || q == r {
        LeftHolds(g.pages[p], g.info[p], |g.pages[p].keys| / 2, m);
        RightHolds(g.pages[p], g.info[p], |g.pages[p].keys| / 2, m);
      } else {
        assert PageHolds(g, m, q) && PageOk(g, q);
      }
    }
  }

  lemma LeftHolds(n: Node, r: Info, at: nat, m: map<Key, Value>)
    requires n.Leaf? && LeafOk(n, r) && LeafHolds(n, r, m) && at < |n.keys|
    ensures LeafHolds(LeftLeaf(n, at, 0), r.(hi := Some(n.keys[at])), m)
  {
    var sep := n.keys[at];
    forall k | k in m && InRange(k, r.(hi := Some(sep))) ensures k in n.keys[..at] {
      assert InRange(sep, r);
      if r.hi.Some? { LessTransitive(k, sep, r.hi.value); }
      var j :| 0 <= j < |n.keys| && n.keys[j] == k;
      SmallerIsLeft(n.keys, j, at);
    }
  }

  lemma RightHolds(n: Node, r: Info, at: nat, m: map<Key, Value>)
    requires n.Leaf? && LeafOk(n, r) && LeafHolds(n, r, m) && at < |n.keys|
    ensures LeafHolds(RightLeaf(n, at, 0), r.(lo := n.keys[at]), m)
  {
    var sep := n.keys[at];
    forall k | k in m && InRange(k, r.(lo := sep)) ensures k in n.keys[at..] {
      assert InRange(sep, r);
      if r.lo != sep && sep != k { LessTransitive(r.lo, sep, k); }
      var j :| 0 <= j < |n.keys| && n.keys[j] == k;
      if j < at { SmallerIsLeft(n.keys, at, j); }
    }
  }

  lemma SmallerIsLeft(ks: seq<Key>, i: nat, j: nat)
    requires Sorted(ks) && i < |ks| && j < |ks| && (Less(ks[i], ks[j]) || ks[i] == ks[j])
    ensures i <= j && (Less(ks[i], ks[j]) ==> i < j)
  {
    LessIrreflexive(ks[i]);
    if j < i {
      assert Less(ks[j], ks[i]);
      if Less(ks[i], ks[j]) { LessTransitive(ks[i], ks[j], ks[i]); }
    }
  }

  // ------------------------------------------------------------ absorbing a separator

  function InsertChild(n: Node, i: nat, sep: Key, l: PageId, r: PageId): Node
    requires n.Internal? && |n.children| == |n.keys| + 1 && i <= |n.keys|
  {
    Internal(InsertSeq(n.keys, i, sep), n.children[..i] + [l, r] + n.children[i + 1..])
  }

  ghost predicate CanAbsorb(g: Shape)
  {
    && Inv(g) && g.pend.Split? && g.pend.left != g.root
    && PageOk(g, g.pend.left) && PageOk(g, g.pend.right) && PageOk(g, g.info[g.pend.left].parent)
  }

  /** The separator's place in the parent is the slot of the split child. */
  lemma SeparatorSlot(g: Shape)
    requires CanAbsorb(g)
    ensures var q := g.info[g.pend.left].parent; var sep := g.info[g.pend.right].lo;
            var n := g.pages[q]; var i := LowerBound(n.keys, sep);
            && n.children[i] == g.pend.left
            && !Has(n.keys, sep) && sep !in n.keys
            && (i > 0 ==> Less(n.keys[i - 1], sep))
            && (i < |n.keys| ==> Less(sep, n.keys[i]))
            && Less(g.info[q].lo, sep) && Below(sep, g.info[q].hi)
  {
    var (l, r) := (g.pend.left, g.pend.right);
    var q := g.info[l].parent;
    var n := g.pages[q];
    var sep := g.info[r].lo;
    var i :| 0 <= i < |n.children| && n.children[i] == l;
    assert Slot(g, q, n.children[i], SlotLo(n, g.info[q].lo, i), SlotHi(n, g.info[q].hi, i));
    BetweenNeighbours(n.keys, sep, i);
    if i > 0 { LessTransitive(g.info[q].lo, n.keys[i - 1], sep); }
    if i < |n.keys| && g.info[q].hi.Some? { LessTransitive(sep, n.keys[i], g.info[q].hi.value); }
  }

  lemma BetweenNeighbours(ks: seq<Key>, k: Key, i: nat)
    requires Sorted(ks) && i <= |ks|
    requires i > 0 ==> Less(ks[i - 1], k)
    requires i < |ks| ==> Less(k, ks[i])
    ensures LowerBound(ks, k) == i && !Has(ks, k) && k !in ks
  {
    forall j | 0 <= j < i ensures Less(ks[j], k) {
      if j < i - 1 { LessTransitive(ks[j], ks[i - 1], k); }
    }
    forall j | i <= j < |ks| ensures Less(k, ks[j]) {
      if i < j { LessTransitive(k, ks[i], ks[j]); }
    }
    LowerBoundUnique(ks, k, i);
    LessIrreflexive(k);
    LowerBoundCorrect(ks, k);
  }

  ghost function AfterAbsorb(g: Shape): Shape
    requires CanAbsorb(g)
  {
    var (l, r) := (g.pend.left, g.pend.right);
    var q := g.info[l].parent;
    var sep := g.info[r].lo;
    Shape(g.pages[q := InsertChild(g.pages[q], LowerBound(g.pages[q].keys, sep), sep, l, r)], g.root,
          g.info[r := g.info[r].(parent := q)], NoSplit)
  }

  /** Page `q` itself after absorbing: its children still tile its range. */
  lemma AbsorbParent(g: Shape)
    requires CanAbsorb(g)
    ensures var h := AfterAbsorb(g); var q := g.info[g.pend.left].parent; Domains(h) && q in h.pages && NodeOk(h, q)
  {
    var h := AfterAbsorb(g);
    var (l, r) := (g.pend.left, g.pend.right);
    var q := g.info[l].parent;
    var (n, m) := (g.pages[q], h.pages[q]);
    SeparatorSlot(g);
    var sep := g.info[r].lo;
    var i := LowerBound(n.keys, sep);
    InsertKeepsSorted(n.keys, sep);
    assert h.pages.Keys == g.pages.Keys;
    assert SeparatorsOk(m, h.info[q]);
    forall j | 0 <= j < |m.children|
      ensures Slot(h, q, m.children[j], SlotLo(m, h.info[q].lo, j), SlotHi(m, h.info[q].hi, j))
    {
      AbsorbSlot(g, j);
    }
  }

  /** Slots after inserting a separator: the split child's slot is cut in two, the
      others keep their bounds. */
  lemma InsertChildSlots(n: Node, i: nat, sep: Key, l: PageId, r: PageId, lo: Key, hi: Option<Key>, j: nat)
    requires n.Internal? && |n.children| == |n.keys| + 1 && i <= |n.keys| && j <= |n.keys| + 1
    ensures var m := InsertChild(n, i, sep, l, r); var o := if j <= i then j else j - 1;
            && |m.children| == |m.keys| + 1 && |m.keys| == |n.keys| + 1
            && m.children[j] == (if j == i then l else if j == i + 1 then r else n.children[o])
            && SlotLo(m, lo, j) == (if j == i + 1 then sep else SlotLo(n, lo, o))
            && SlotHi(m, hi, j) == (if j == i then Some(sep) else SlotHi(n, hi, o))
  {
  }

  /** The old slots a new slot is made of. */
  lemma OldSlots(g: Shape, o: nat)
    requires CanAbsorb(g)
    requires var q := g.info[g.pend.left].parent; o <= |g.pages[q].keys|
    ensures var q := g.info[g.pend.left].parent; var n := g.pages[q]; var i := LowerBound(n.keys,
            g.info[g.pend.right].lo);
            && Domains(g) && q in g.pages && n.Internal? && |n.children| == |n.keys| + 1
            && Slot(g, q, n.children[o], SlotLo(n, g.info[q].lo, o), SlotHi(n, g.info[q].hi, o))
            && n.children[i] == g.pend.left
            && (o != i ==> n.children[o] != g.pend.left)
            && g.info[g.pend.left].hi == Some(g.info[g.pend.right].lo)
            && g.info[g.pend.left].level == g.info[g.pend.right].level
            && q != g.pend.right
  {
    var q := g.info[g.pend.left].parent;
    var n := g.pages[q];
    SeparatorSlot(g);
    var i := LowerBound(n.keys, g.info[g.pend.right].lo);
    assert Slot(g, q, n.children[o], SlotLo(n, g.info[q].lo, o), SlotHi(n, g.info[q].hi, o));
    assert Slot(g, q, n.children[i], SlotLo(n, g.info[q].lo, i), SlotHi(n, g.info[q].hi, i));
    if o != i {
      ChildrenDiffer(g, q, o, i);
    }
  }

  lemma AbsorbSlot(g: Shape, j: nat)
    requires CanAbsorb(g)
    requires var q := g.info[g.pend.left].parent; j <= |g.pages[q].keys| + 1
    ensures var h := AfterAbsorb(g); var q := g.info[g.pend.left].parent; var m := h.pages[q];
            && Domains(h) && m.Internal? && j < |m.children| && |m.children| == |m.keys| + 1
            && Slot(h, q, m.children[j], SlotLo(m, h.info[q].lo, j), SlotHi(m, h.info[q].hi, j))
  {
    hide LowerBound, Has, Less, Inv, NodeOk, SlotLo, SlotHi, PageOk;
    OldSlots(g, 0);
    var q := g.info[g.pend.left].parent;
    var n := g.pages[q];
    var sep := g.info[g.pend.right].lo;
    var i := LowerBound(n.keys, sep);
    OldSlots(g, i);
    OldSlots(g, if j <= i then j else j - 1);
    InsertChildSlots(n, i, sep, g.pend.left, g.pend.right, g.info[q].lo, g.info[q].hi, j);
  }

  /** Two slots of one node hold different pages: their ranges start differently. */
  lemma ChildrenDiffer(g: Shape, q: PageId, i: nat, j: nat)
    requires Domains(g) && q in g.pages && g.pages[q].Internal? && NodeOk(g, q)
    requires i < |g.pages[q].children| && j < |g.pages[q].children| && i != j
    ensures g.pages[q].children[i] != g.pages[q].children[j]
  {
    var n := g.pages[q];
    var (a, b) := if i < j then (i, j) else (j, i);
    assert Slot(g, q, n.children[a], SlotLo(n, g.info[q].lo, a), SlotHi(n, g.info[q].hi, a));
    assert Slot(g, q, n.children[b], SlotLo(n, g.info[q].lo, b), SlotHi(n, g.info[q].hi, b));
    LessIrreflexive(SlotLo(n, g.info[q].lo, b));
    assert Less(SlotLo(n, g.info[q].lo, a), SlotLo(n, g.info[q].lo, b));
  }

  lemma AbsorbOther(g: Shape, p: PageId)
    requires CanAbsorb(g) && p in g.pages && p != g.info[g.pend.left].parent && PageOk(g, p)
    ensures var h := AfterAbsorb(g); Domains(h) && NodeOk(h, p)
  {
    var h := AfterAbsorb(g);
    assert h.pages.Keys == g.pages.Keys;
    if g.pages[p].Internal? {
      var m := g.pages[p];
      forall i | 0 <= i < |m.children|
        ensures Slot(h, p, m.children[i], SlotLo(m, h.info[p].lo, i), SlotHi(m, h.info[p].hi, i))
      {
        assert Slot(g, p, m.children[i], SlotLo(m, g.info[p].lo, i), SlotHi(m, g.info[p].hi, i));
      }
    }
  }

  lemma AbsorbLinks(g: Shape, p: PageId)
    requires CanAbsorb(g) && p in g.pages && PageOk(g, p)
    ensures var h := AfterAbsorb(g); Domains(h) && RangeOk(h, p) && ChainOk(h, p)
  {
    assert AfterAbsorb(g).pages.Keys == g.pages.Keys;
  }

  lemma AbsorbParentLink(g: Shape, p: PageId)
    requires CanAbsorb(g) && p in g.pages && ParentOk(g, p)
    ensures var h := AfterAbsorb(g); Domains(h) && ParentOk(h, p)
  {
    var h := AfterAbsorb(g);
    var r := g.pend.right;
    var q := g.info[g.pend.left].parent;
    var n := g.pages[q];
    SeparatorSlot(g);
    InsertedChildren(n, LowerBound(n.keys, g.info[r].lo), g.info[r].lo, g.pend.left, r);
  }

  lemma InsertedChildren(n: Node, i: nat, sep: Key, l: PageId, r: PageId)
    requires n.Internal? && |n.children| == |n.keys| + 1 && i <= |n.keys| && n.children[i] == l
    ensures forall c :: c in InsertChild(n, i, sep, l, r).children <==> c == r || c in n.children
  {
    var m := InsertChild(n, i, sep, l, r);
    assert m.children[i + 1] == r;
    forall c | c in n.children ensures c in m.children {
      var j :| 0 <= j < |n.children| && n.children[j] == c;
      assert m.children[if j <= i then j else j + 1] == c;
    }
  }

  lemma AbsorbInv(g: Shape)
    requires CanAbsorb(g)
    ensures Inv(AfterAbsorb(g))
  {
    var h := AfterAbsorb(g);
    assert h.pages.Keys == g.pages.Keys;
    forall p | p in h.pages ensures PageOk(h, p) {
      assert PageOk(g, p);
      AbsorbLinks(g, p);
      AbsorbParentLink(g, p);
      if p == g.info[g.pend.left].parent { AbsorbParent(g); } else { AbsorbOther(g, p); }
    }
    AbsorbRoot(g);
  }

  lemma AbsorbRoot(g: Shape)
    requires CanAbsorb(g)
    ensures var h := AfterAbsorb(g); Domains(h) && PendingOk(h) && RootOk(h) && LevelsDisjoint(h)
  {
    var h := AfterAbsorb(g);
    assert h.pages.Keys == g.pages.Keys;
    assert BelowRoot(g, g.pend.left);
    forall p | p in h.pages ensures BelowRoot(h, p) { assert BelowRoot(g, p); }
    forall a, b | a in h.pages && b in h.pages && a != b && h.info[a].level == h.info[b].level
      ensures Apart(h.info[a], h.info[b])
    {
      assert Apart(g.info[a], g.info[b]);
    }
  }

  /** Absorbing, splitting inner nodes and growing the root touch no leaf. */
  lemma SameLeavesHold(g: Shape, h: Shape, m: map<Key, Value>)
    requires Domains(g) && Domains(h) && Holds(g, m)
    requires forall p :: p in h.pages && h.pages[p].Leaf? ==>
               p in g.pages && g.pages[p] == h.pages[p] && SameRange(g.info[p], h.info[p])
    ensures Holds(h, m)
  {
    forall p | p in h.pages ensures PageHolds(h, m, p) {
      if h.pages[p].Leaf? {
        assert PageHolds(g, m, p);
      }
    }
  }

  // ------------------------------------------------------------ internal split

  function LeftInner(n: Node, at: nat): Node
    requires n.Internal? && |n.children| == |n.keys| + 1 && at < |n.keys|
  {
    Internal(n.keys[..at], n.children[..at + 1])
  }

  function RightInner(n: Node, at: nat): Node
    requires n.Internal? && |n.children| == |n.keys| + 1 && at < |n.keys|
  {
    Internal(n.keys[at + 1..], n.children[at + 1..])
  }

  ghost predicate CanSplitInner(g: Shape, q: PageId, r: PageId, at: nat)
  {
    && Inv(g) && g.pend.NoSplit? && q in g.pages && g.pages[q].Internal? && r !in g.pages
    && PageOk(g, q) && at < |g.pages[q].keys|
  }

  ghost function InnerInfo(g: Shape, q: PageId, r: PageId, at: nat): map<PageId, Info>
    requires CanSplitInner(g, q, r, at)
  {
    var n := g.pages[q];
    map p | p in g.pages.Keys + {r} ::
      if p == q then g.info[q].(hi := Some(n.keys[at]))
      else if p == r then g.info[q].(lo := n.keys[at])
      else if p in n.children[at + 1..] then g.info[p].(parent := r)
      else g.info[p]
  }

  /** Page `q` cut at separator `at`: that separator moves up, the children right of
      it move to page `r`. */
  ghost function AfterSplitInner(g: Shape, q: PageId, r: PageId, at: nat): Shape
    requires CanSplitInner(g, q, r, at)
  {
    Shape(g.pages[q := LeftInner(g.pages[q], at)][r := RightInner(g.pages[q], at)], g.root,
          InnerInfo(g, q, r, at), Split(q, r))
  }

  /** Slot `j` of the old node, seen from whichever half it went to. */
  lemma InnerSlot(g: Shape, q: PageId, r: PageId, at: nat, j: nat)
    requires CanSplitInner(g, q, r, at) && j < |g.pages[q].children|
    ensures var h := AfterSplitInner(g, q, r, at); var n := g.pages[q]; var c := n.children[j];
            && Domains(h) && q in h.pages && r in h.pages
            && Slot(h, if j <= at then q else r, c, SlotLo(n, g.info[q].lo, j), SlotHi(n, g.info[q].hi, j))
  {
    var h := AfterSplitInner(g, q, r, at);
    var n := g.pages[q];
    var c := n.children[j];
    assert h.pages.Keys == g.pages.Keys + {r};
    assert Slot(g, q, n.children[j], SlotLo(n, g.info[q].lo, j), SlotHi(n, g.info[q].hi, j));
    if j <= at && c in n.children[at + 1..] {
      var i :| at + 1 <= i < |n.children| && n.children[i] == c;
      ChildrenDiffer(g, q, j, i);
    }
    assert j > at ==> n.children[at + 1..][j - at - 1] == c;
  }

  lemma InnerLeft(g: Shape, q: PageId, r: PageId, at: nat)
    requires CanSplitInner(g, q, r, at)
    ensures var h := AfterSplitInner(g, q, r, at); Domains(h) && q in h.pages && NodeOk(h, q)
  {
    var h := AfterSplitInner(g, q, r, at);
    assert h.pages.Keys == g.pages.Keys + {r};
    var (n, m) := (g.pages[q], h.pages[q]);
    forall i | 0 <= i < |m.children|
      ensures Slot(h, q, m.children[i], SlotLo(m, h.info[q].lo, i), SlotHi(m, h.info[q].hi, i))
    {
      InnerSlot(g, q, r, at, i);
    }
  }

  lemma InnerRight(g: Shape, q: PageId, r: PageId, at: nat)
    requires CanSplitInner(g, q, r, at)
    ensures var h := AfterSplitInner(g, q, r, at); Domains(h) && r in h.pages && NodeOk(h, r)
  {
    var h := AfterSplitInner(g, q, r, at);
    assert h.pages.Keys == g.pages.Keys + {r};
    var (n, m) := (g.pages[q], h.pages[r]);
    forall i | 0 <= i < |m.children|
      ensures Slot(h, r, m.children[i], SlotLo(m, h.info[r].lo, i), SlotHi(m, h.info[r].hi, i))
    {
      InnerSlot(g, q, r, at, at + 1 + i);
    }
  }

  lemma InnerOther(g: Shape, q: PageId, r: PageId, at: nat, p: PageId)
    requires CanSplitInner(g, q, r, at) && p in g.pages && p != q && PageOk(g, p)
    ensures var h := AfterSplitInner(g, q, r, at); Domains(h) && p in h.pages && NodeOk(h, p)
  {
    var h := AfterSplitInner(g, q, r, at);
    assert h.pages.Keys == g.pages.Keys + {r};
    MovedAreChildren(g, q, at);
    if g.pages[p].Internal? {
      var m := g.pages[p];
      forall i | 0 <= i < |m.children|
        ensures Slot(h, p, m.children[i], SlotLo(m, h.info[p].lo, i), SlotHi(m, h.info[p].hi, i))
      {
        assert Slot(g, p, m.children[i], SlotLo(m, g.info[p].lo, i), SlotHi(m, g.info[p].hi, i));
      }
    }
  }

  /** Only `q`'s own children move: whatever moves has `q` as parent and is lower. */
  lemma MovedAreChildren(g: Shape, q: PageId, at: nat)
    requires Domains(g) && q in g.pages && g.pages[q].Internal? && NodeOk(g, q) && at < |g.pages[q].keys|
    ensures forall c :: c in g.pages[q].children[at + 1..] ==>
              c in g.pages && g.info[c].parent == q && g.info[c].level < g.info[q].level
  {
    var n := g.pages[q];
    forall c | c in n.children[at + 1..]
      ensures c in g.pages && g.info[c].parent == q && g.info[c].level < g.info[q].level
    {
      var i :| at + 1 <= i < |n.children| && n.children[i] == c;
      assert Slot(g, q, n.children[i], SlotLo(n, g.info[q].lo, i), SlotHi(n, g.info[q].hi, i));
    }
  }

  lemma InnerLinks(g: Shape, q: PageId, r: PageId, at: nat, p: PageId)
    requires CanSplitInner(g, q, r, at) && p in g.pages && PageOk(g, p)
    ensures var h := AfterSplitInner(g, q, r, at);
            Domains(h) && p in h.pages && RangeOk(h, p) && ChainOk(h, p)
  {
    assert AfterSplitInner(g, q, r, at).pages.Keys == g.pages.Keys + {r};
  }

  lemma InnerParentLink(g: Shape, q: PageId, r: PageId, at: nat, p: PageId)
    requires CanSplitInner(g, q, r, at) && p in g.pages && ParentOk(g, p)
    ensures var h := AfterSplitInner(g, q, r, at); Domains(h) && p in h.pages && ParentOk(h, p)
  {
    var h := AfterSplitInner(g, q, r, at);
    assert h.pages.Keys == g.pages.Keys + {r};
    var n := g.pages[q];
    MovedAreChildren(g, q, at);
    assert at < |n.keys| && |n.children| == |n.keys| + 1;
    hide Inv, InRange, Less, Sorted, NodeOk, PageOk, RangeOk, ChildrenOk, SeparatorsOk, LeafOk;
    if p != q && p != g.root && g.info[p].parent == q {
      var j :| 0 <= j < |n.children| && n.children[j] == p;
      assert j <= at ==> n.children[..at + 1][j] == p;
      assert j > at ==> n.children[at + 1..][j - at - 1] == p;
    }
  }

  lemma InnerRoot(g: Shape, q: PageId, r: PageId, at: nat)
    requires CanSplitInner(g, q, r, at)
    ensures var h := AfterSplitInner(g, q, r, at); Domains(h) && PendingOk(h) && RootOk(h) && LevelsDisjoint(h)
  {
    var h := AfterSplitInner(g, q, r, at);
    assert h.pages.Keys == g.pages.Keys + {r};
    forall p | p in h.pages ensures BelowRoot(h, p) {
      assert BelowRoot(g, if p == r then q else p);
    }
    CutKeepsDisjoint(g, h, q, r, g.pages[q].keys[at]);
  }

  lemma SplitInnerInv(g: Shape, q: PageId, r: PageId, at: nat)
    requires CanSplitInner(g, q, r, at)
    ensures Inv(AfterSplitInner(g, q, r, at))
  {
    var h := AfterSplitInner(g, q, r, at);
    assert h.pages.Keys == g.pages.Keys + {r};
    InnerRoot(g, q, r, at);
    forall p | p in h.pages ensures PageOk(h, p) {
      if p == r {
        InnerRight(g, q, r, at);
      } else {
        assert PageOk(g, p);
        InnerLinks(g, q, r, at, p);
        InnerParentLink(g, q, r, at, p);
        if p == q { InnerLeft(g, q, r, at); } else { InnerOther(g, q, r, at, p); }
      }
    }
  }

  lemma InsertThenCut<T>(s: seq<T>, i: nat, x: T, at: nat)
    requires i <= |s| && at < |s|
    ensures var w := InsertSeq(s, i, x);
            if i <= at then w[..at + 1] == InsertSeq(s[..at], i, x) && w[at + 1] == s[at] && w[at + 2..] == s[at + 1..]
            else w[..at] == s[..at] && w[at] == s[at] && w[at + 1..] == InsertSeq(s[at + 1..], i - at - 1, x)
  {
  }

  lemma PairThenCut<T>(s: seq<T>, i: nat, x: T, y: T, at: nat)
    requires i < |s| && at + 1 < |s|
    ensures var w := s[..i] + [x, y] + s[i + 1..];
            if i <= at then w[..at + 2] == s[..at + 1][..i] + [x, y] + s[..at + 1][i + 1..]
              && w[at + 2..] == s[at + 1..]
            else w[..at + 1] == s[..at + 1]
                 && w[at + 1..] == s[at + 1..][..i - at - 1] + [x, y] + s[at + 1..][i - at..]
  {
  }

  /** Splitting first and inserting the separator into the half it belongs to gives
      the halves of the node with the separator already in. */
  lemma SplitThenInsert(n: Node, at: nat, i: nat, sep: Key, l: PageId, r: PageId)
    requires n.Internal? && |n.children| == |n.keys| + 1 && at < |n.keys| && i <= |n.keys|
    ensures i <= at ==>
      var w := InsertChild(n, i, sep, l, r);
      LeftInner(w, at + 1) == InsertChild(LeftInner(n, at), i, sep, l, r)
      && RightInner(w, at + 1) == RightInner(n, at) && w.keys[at + 1] == n.keys[at]
    ensures i > at ==>
      var w := InsertChild(n, i, sep, l, r);
      LeftInner(w, at) == LeftInner(n, at)
      && RightInner(w, at) == InsertChild(RightInner(n, at), i - at - 1, sep, l, r) && w.keys[at] == n.keys[at]
  {
    InsertThenCut(n.keys, i, sep, at);
    PairThenCut(n.children, i, l, r, at);
  }

  // ------------------------------------------------------------ new root

  ghost predicate CanGrow(g: Shape, r: PageId)
  {
    Inv(g) && g.pend.Split? && g.pend.left == g.root && r !in g.pages
    && PageOk(g, g.pend.left) && PageOk(g, g.pend.right)
  }

  ghost function AfterGrow(g: Shape, r: PageId): Shape
    requires CanGrow(g, r)
  {
    var (a, b) := (g.pend.left, g.pend.right);
    Shape(g.pages[r := Internal([g.info[b].lo], [a, b])], r,
          g.info[a := g.info[a].(parent := r)][b := g.info[b].(parent := r)]
                [r := Info([], None, g.info[a].level + 1, r)], NoSplit)
  }

  lemma GrowRootPage(g: Shape, r: PageId)
    requires CanGrow(g, r)
    ensures var h := AfterGrow(g, r); Domains(h) && PageOk(h, r) && PendingOk(h)
  {
    var h := AfterGrow(g, r);
    assert h.pages.Keys == g.pages.Keys + {r};
    var (a, b) := (g.pend.left, g.pend.right);
    var m := h.pages[r];
    assert Slot(h, r, m.children[0], SlotLo(m, [], 0), SlotHi(m, None, 0));
    assert Slot(h, r, m.children[1], SlotLo(m, [], 1), SlotHi(m, None, 1));
  }

  lemma GrowOther(g: Shape, r: PageId, p: PageId)
    requires CanGrow(g, r) && p in g.pages && PageOk(g, p) && BelowRoot(g, p)
    ensures var h := AfterGrow(g, r); Domains(h) && p in h.pages && PageOk(h, p)
  {
    var h := AfterGrow(g, r);
    assert h.pages.Keys == g.pages.Keys + {r};
    if g.pages[p].Internal? {
      var m := g.pages[p];
      forall i | 0 <= i < |m.children|
        ensures Slot(h, p, m.children[i], SlotLo(m, h.info[p].lo, i), SlotHi(m, h.info[p].hi, i))
      {
        assert Slot(g, p, m.children[i], SlotLo(m, g.info[p].lo, i), SlotHi(m, g.info[p].hi, i));
      }
    }
    assert p == g.pend.left ==> h.pages[r].children[0] == p;
    assert p == g.pend.right ==> h.pages[r].children[1] == p;
  }

  lemma GrowLevels(g: Shape, r: PageId)
    requires CanGrow(g, r)
    ensures var h := AfterGrow(g, r); Domains(h) && RootOk(h) && LevelsDisjoint(h)
  {
    var h := AfterGrow(g, r);
    assert h.pages.Keys == g.pages.Keys + {r};
    forall p | p in h.pages ensures BelowRoot(h, p) && (p != r ==> h.info[p].level < h.info[r].level) {
      if p != r { assert BelowRoot(g, p); }
    }
    forall x, y | x in h.pages && y in h.pages && x != y && h.info[x].level == h.info[y].level
      ensures Apart(h.info[x], h.info[y])
    {
      assert h.info[x].level < h.info[r].level || x == r;
      assert h.info[y].level < h.info[r].level || y == r;
      assert Apart(g.info[x], g.info[y]);
    }
  }

  lemma GrowInv(g: Shape, r: PageId)
    requires CanGrow(g, r)
    ensures Inv(AfterGrow(g, r))
  {
    var h := AfterGrow(g, r);
    assert h.pages.Keys == g.pages.Keys + {r};
    GrowRootPage(g, r);
    GrowLevels(g, r);
    forall p | p in h.pages ensures PageOk(h, p) {
      if p != r {
        assert PageOk(g, p) && BelowRoot(g, p);
        GrowOther(g, r, p);
      }
    }
  }
}
