/** When a count-based split leaves room. `SplitLeaf` and `SplitInternal` cut by
    number of keys, not by bytes, so the half that must take the pending record can
    overflow. With records of at most 213 bytes (slot included) it never does. */
module TreeCapacity {
  import opened Keys
  import opened Nodes
  import opened TreeShape
  import opened TreeEdits
  import opened TreeSplits

  const SMALL_RECORD := 213

  /** A separator is the key of some leaf record. */
  const SMALL_KEY := SMALL_RECORD - 12

  predicate SmallRecord(k: Key, v: Value) { LeafRecordCost(k, v) <= SMALL_RECORD }

  predicate NodeSmall(n: Node)
  {
    match n
    case Leaf(ks, vs, _, _) => |ks| == |vs| && forall i :: 0 <= i < |ks| ==> SmallRecord(ks[i], vs[i])
    case Internal(ks, _) => forall i :: 0 <= i < |ks| ==> |ks[i]| <= SMALL_KEY
  }

  ghost predicate AllSmall(pages: map<PageId, Node>)
  {
    forall p :: p in pages ==> NodeSmall(pages[p])
  }

  // ------------------------------------------------------------ leaf edits

  lemma EraseFits(n: Node, k: Key)
    requires n.Leaf? && |n.keys| == |n.vals|
    ensures Fits(n) ==> Fits(LeafErase(n, k))
    ensures NodeSmall(n) ==> NodeSmall(LeafErase(n, k))
  {
    if Has(n.keys, k) {
      RemoveCost(n.keys, n.vals, LowerBound(n.keys, k));
    }
  }

  lemma WriteSmall(n: Node, k: Key, v: Value)
    requires n.Leaf? && |n.keys| == |n.vals|
    ensures NodeSmall(n) && SmallRecord(k, v) ==> NodeSmall(LeafWrite(n, k, v))
  {
  }

  lemma WriteCost(n: Node, k: Key, v: Value)
    requires n.Leaf? && |n.keys| == |n.vals| && Sorted(n.keys) && k !in n.keys
    ensures Fits(LeafWrite(n, k, v)) <==> LeafCost(n.keys, n.vals) + LeafRecordCost(k, v) <= PAGE_PAYLOAD
  {
    LowerBoundCorrect(n.keys, k);
    InsertCost(n, k, v);
  }

  lemma HalvesFit(n: Node, p: PageId, r: PageId)
    requires n.Leaf? && |n.keys| == |n.vals| && Fits(n)
    ensures Fits(LeftLeaf(n, |n.keys| / 2, r)) && Fits(RightLeaf(n, |n.keys| / 2, p))
    ensures NodeSmall(n) ==> NodeSmall(LeftLeaf(n, |n.keys| / 2, r)) && NodeSmall(RightLeaf(n, |n.keys| / 2, p))
  {
    SplitCost(n.keys, n.vals, |n.keys| / 2);
  }

  lemma SplitFits(pages: map<PageId, Node>, p: PageId, r: PageId)
    requires AllFit(pages) && p in pages && r !in pages && pages[p].Leaf? && |pages[p].keys| == |pages[p].vals|
    requires pages[p].next.Some? ==> pages[p].next.value in pages && pages[p].next.value != p
    ensures AllFit(SplitLeafPages(pages, p, r))
    ensures AllSmall(pages) ==> AllSmall(SplitLeafPages(pages, p, r))
  {
    HalvesFit(pages[p], p, r);
    var after := SplitLeafPages(pages, p, r);
    forall q | q in after ensures Fits(after[q]) && (AllSmall(pages) ==> NodeSmall(after[q])) {
      if q != p && q != r {
        assert Fits(pages[q]) && (AllSmall(pages) ==> NodeSmall(pages[q]));
      }
    }
  }

  /** A leaf that cannot take a legal record holds at least one record. */
  lemma FullLeafIsNotEmpty(n: Node, r: Info, k: Key, v: Value)
    requires n.Leaf? && LeafOk(n, r) && k !in n.keys
    requires 4 + |k| + |v| <= MAX_LEAF_RECORD && !Fits(LeafWrite(n, k, v))
    ensures n.keys != []
  {
    WriteCost(n, k, v);
  }

  lemma CanSplit(g: Shape, p: PageId, r: PageId)
    requires Inv(g) && g.pend.NoSplit? && p in g.pages && g.pages[p].Leaf? && r !in g.pages && g.pages[p].keys != []
    ensures |g.pages[p].keys| == |g.pages[p].vals|
    ensures g.pages[p].next.Some? ==> g.pages[p].next.value in g.pages && g.pages[p].next.value != p
    ensures Less(g.info[p].lo, g.pages[p].keys[|g.pages[p].keys| / 2]) ==> CanSplitLeaf(g, p, r)
  {
    assert PageOk(g, p);
    NextDiffers(g, p);
  }

  /** The separator lies strictly inside the leaf's range whenever the insert that
      follows can succeed: a one-record leaf split at its own lower bound sends the
      new record to a right half that is as full as before. */
  lemma SplitPoint(n: Node, r: Info, k: Key, v: Value, p: PageId)
    requires n.Leaf? && LeafOk(n, r) && n.keys != [] && k !in n.keys && InRange(k, r)
    requires !Fits(LeafWrite(n, k, v))
    ensures var at := |n.keys| / 2; var sep := n.keys[at];
            Less(r.lo, sep) || (!Less(k, sep) && !Fits(LeafWrite(RightLeaf(n, at, p), k, v)))
  {
    var at := |n.keys| / 2;
    var sep := n.keys[at];
    assert InRange(sep, r);
    if !Less(r.lo, sep) {
      LessIrreflexive(k);
      LessIrreflexive(sep);
      if at > 0 {
        assert InRange(n.keys[0], r) && Less(n.keys[0], sep);
        StrictBelow(n.keys[0], sep, r.lo, n.keys[0]);
        LessIrreflexive(n.keys[0]);
      }
      if Less(k, sep) {
        StrictBelow(k, sep, r.lo, k);
      }
      WriteCost(n, k, v);
      var right := RightLeaf(n, at, p);
      assert right.keys == n.keys && right.vals == n.vals;
      WriteCost(right, k, v);
    }
  }

  // ------------------------------------------------------------ cost bounds

  lemma {:induction false} LeafCostBounds(ks: seq<Key>, vs: seq<Value>)
    requires |ks| == |vs|
    ensures 12 * |ks| <= LeafCost(ks, vs)
    ensures (forall i :: 0 <= i < |ks| ==> SmallRecord(ks[i], vs[i])) ==> LeafCost(ks, vs) <= SMALL_RECORD * |ks|
  {
    if ks != [] {
      LeafCostBounds(ks[..|ks| - 1], vs[..|vs| - 1]);
    }
  }

  lemma {:induction false} InternalCostBounds(ks: seq<Key>)
    ensures 14 * |ks| <= InternalCost(ks)
    ensures (forall i :: 0 <= i < |ks| ==> |ks[i]| <= SMALL_KEY) ==> InternalCost(ks) <= (SMALL_KEY + 14) * |ks|
  {
    if ks != [] {
      InternalCostBounds(ks[..|ks| - 1]);
    }
  }

  /** The arithmetic of 213: with `a` records of 12 to 213 bytes on one side and at
      most one more on the other, and at most a page in all, either the other side
      already takes 213 bytes or there are at most 18 records here. */
  lemma HalfHasRoom(a: nat, b: nat, here: nat, there: nat, c: nat)
    requires b <= a + 1 && a <= b + 1
    requires here <= SMALL_RECORD * a && 12 * b <= there && here + there <= PAGE_PAYLOAD && c <= SMALL_RECORD
    ensures here + c <= PAGE_PAYLOAD
  {
    if a <= 18 {
      assert here <= SMALL_RECORD * 18;
    } else {
      assert there >= 12 * 18;
    }
  }

  /** Either half of a leaf of small records has room for one more. */
  lemma SmallSplitFits(n: Node, i: Info, k: Key, v: Value, p: PageId, r: PageId)
    requires n.Leaf? && NodeSmall(n) && LeafOk(n, i) && Fits(n) && SmallRecord(k, v) && k !in n.keys
    ensures var at := |n.keys| / 2;
            Fits(LeafWrite(LeftLeaf(n, at, r), k, v)) && Fits(LeafWrite(RightLeaf(n, at, p), k, v))
    ensures n.keys != [] ==> |n.keys[|n.keys| / 2]| <= SMALL_KEY
  {
    hide LeafCost, LeafWrite, Less;
    var at := |n.keys| / 2;
    SmallHalves(n.keys, n.vals, at, LeafRecordCost(k, v));
    WriteCost(LeftLeaf(n, at, r), k, v);
    WriteCost(RightLeaf(n, at, p), k, v);
    assert n.keys != [] ==> SmallRecord(n.keys[at], n.vals[at]);
  }

  lemma SmallHalves(ks: seq<Key>, vs: seq<Value>, at: nat, c: nat)
    requires |ks| == |vs| && at == |ks| / 2 && (forall i :: 0 <= i < |ks| ==> SmallRecord(ks[i], vs[i]))
    requires LeafCost(ks, vs) <= PAGE_PAYLOAD && c <= SMALL_RECORD
    ensures LeafCost(ks[..at], vs[..at]) + c <= PAGE_PAYLOAD
    ensures LeafCost(ks[at..], vs[at..]) + c <= PAGE_PAYLOAD
  {
    SplitCost(ks, vs, at);
    LeafCostBounds(ks[..at], vs[..at]);
    LeafCostBounds(ks[at..], vs[at..]);
    HalfHasRoom(at, |ks| - at, LeafCost(ks[..at], vs[..at]), LeafCost(ks[at..], vs[at..]), c);
    HalfHasRoom(|ks| - at, at, LeafCost(ks[at..], vs[at..]), LeafCost(ks[..at], vs[..at]), c);
  }

  lemma InnerInsertCost(n: Node, i: nat, sep: Key, l: PageId, r: PageId)
    requires n.Internal? && |n.children| == |n.keys| + 1 && i <= |n.keys|
    ensures InternalCost(InsertChild(n, i, sep, l, r).keys) == InternalCost(n.keys) + InternalRecordCost(sep)
  {
    InternalCostConcat(n.keys[..i] + [sep], n.keys[i..]);
    InternalCostConcat(n.keys[..i], [sep]);
    InternalCostOne(sep);
    InternalCostConcat(n.keys[..i], n.keys[i..]);
    assert n.keys[..i] + n.keys[i..] == n.keys;
  }

  lemma InnerSplitCost(n: Node, at: nat)
    requires n.Internal? && |n.children| == |n.keys| + 1 && at < |n.keys|
    ensures InternalCost(n.keys) ==
            InternalCost(LeftInner(n, at).keys) + InternalRecordCost(n.keys[at]) + InternalCost(RightInner(n, at).keys)
  {
    var ks := n.keys;
    InternalCostConcat(ks[..at] + [ks[at]], ks[at + 1..]);
    InternalCostConcat(ks[..at], [ks[at]]);
    InternalCostOne(ks[at]);
    assert ks[..at] + [ks[at]] + ks[at + 1..] == ks;
  }

  lemma InnerHalfHasRoom(a: nat, b: nat, here: nat, there: nat, mid: nat, c: nat)
    requires b <= a <= b + 1 || a <= b <= a + 1
    requires here <= (SMALL_KEY + 14) * a && 14 * b <= there && 14 <= mid && here + mid + there <= PAGE_PAYLOAD
    requires c <= SMALL_KEY + 14
    ensures here + c <= PAGE_PAYLOAD
  {
    if a <= 17 {
      assert here <= (SMALL_KEY + 14) * 17;
    } else {
      assert there >= 14 * 17;
    }
  }

  /** The same one level up: either half of an internal node of small separators has
      room for one more separator, and a node that must split is not empty. */
  lemma SmallInnerFits(n: Node, sep: Key)
    requires n.Internal? && |n.children| == |n.keys| + 1 && NodeSmall(n) && Fits(n) && |sep| <= SMALL_KEY
    ensures n.keys == [] ==> InternalCost(n.keys) + InternalRecordCost(sep) <= PAGE_PAYLOAD
    ensures n.keys != [] ==>
      var at := |n.keys| / 2;
      && InternalCost(LeftInner(n, at).keys) + InternalRecordCost(sep) <= PAGE_PAYLOAD
      && InternalCost(RightInner(n, at).keys) + InternalRecordCost(sep) <= PAGE_PAYLOAD
  {
    if n.keys != [] {
      var at := |n.keys| / 2;
      InnerSplitCost(n, at);
      var (l, m) := (LeftInner(n, at).keys, RightInner(n, at).keys);
      InternalCostBounds(l);
      InternalCostBounds(m);
      var mid := InternalRecordCost(n.keys[at]);
      InnerHalfHasRoom(|l|, |m|, InternalCost(l), InternalCost(m), mid, InternalRecordCost(sep));
      InnerHalfHasRoom(|m|, |l|, InternalCost(m), InternalCost(l), mid, InternalRecordCost(sep));
    }
  }

  // ------------------------------------------------------------ first leaf

  lemma FirstLeafInv(p: PageId, k: Key, v: Value)
    ensures var g := Shape(map[p := Leaf([k], [v], None, None)], p, map[p := Info([], None, 0, p)], NoSplit);
            Inv(g) && Holds(g, map[k := v])
  {
    var g := Shape(map[p := Leaf([k], [v], None, None)], p, map[p := Info([], None, 0, p)], NoSplit);
    LessTotal([], k);
    assert PageOk(g, p) && BelowRoot(g, p);
    assert PageHolds(g, map[k := v], p);
  }

  // ------------------------------------------------------------ one level up

  /** Absorbing a pending separator: tree laws and map are kept. */
  lemma AbsorbStep(g: Shape, m: map<Key, Value>)
    requires Inv(g) && g.pend.Split? && g.pend.left != g.root && Holds(g, m)
    ensures CanAbsorb(g)
    ensures var h := AfterAbsorb(g); Inv(h) && Holds(h, m)
  {
    assert PageOk(g, g.pend.left) && PageOk(g, g.pend.right);
    assert PageOk(g, g.info[g.pend.left].parent);
    AbsorbInv(g);
    assert AfterAbsorb(g).pages.Keys == g.pages.Keys;
    SameLeavesHold(g, AfterAbsorb(g), m);
  }

  /** A full parent: the separator goes in and the parent splits, whichever half the
      separator lands in. `cut` is the cut position counted with the separator in. */
  lemma SplitStep(g: Shape, m: map<Key, Value>, q: PageId, added: PageId, cut: nat)
    requires Inv(g) && g.pend.NoSplit? && Holds(g, m) && q in g.pages && g.pages[q].Internal?
    requires added !in g.pages && cut < |g.pages[q].keys|
    ensures CanSplitInner(g, q, added, cut)
    ensures var h := AfterSplitInner(g, q, added, cut); Inv(h) && Holds(h, m)
  {
    assert PageOk(g, q);
    SplitInnerInv(g, q, added, cut);
    SplitInnerLeaves(g, q, added, cut);
    SameLeavesHold(g, AfterSplitInner(g, q, added, cut), m);
  }

  lemma SplitInnerLeaves(g: Shape, q: PageId, added: PageId, cut: nat)
    requires CanSplitInner(g, q, added, cut)
    ensures var h := AfterSplitInner(g, q, added, cut);
            forall p :: p in h.pages && h.pages[p].Leaf? ==>
               p in g.pages && p in g.info && p in h.info && g.pages[p] == h.pages[p] && SameRange(g.info[p], h.info[p])
  {
  }

  lemma GrowStep(g: Shape, m: map<Key, Value>, added: PageId)
    requires Inv(g) && g.pend.Split? && g.pend.left == g.root && Holds(g, m) && added !in g.pages
    ensures CanGrow(g, added)
    ensures var h := AfterGrow(g, added); Inv(h) && Holds(h, m)
  {
    assert PageOk(g, g.pend.left) && PageOk(g, g.pend.right);
    GrowInv(g, added);
    SameLeavesHold(g, AfterGrow(g, added), m);
  }

  /** The half a pending record goes to is a lawful leaf covering it. */
  lemma HalfCovers(n: Node, r: Info, k: Key, p: PageId, added: PageId)
    requires n.Leaf? && LeafOk(n, r) && n.keys != [] && InRange(k, r)
    ensures var at := |n.keys| / 2; var sep := n.keys[at];
            if Less(k, sep) then
              LeafOk(LeftLeaf(n, at, added), r.(hi := Some(sep))) && InRange(k, r.(hi := Some(sep)))
            else
              LeafOk(RightLeaf(n, at, p), r.(lo := sep)) && InRange(k, r.(lo := sep))
  {
    var at := |n.keys| / 2;
    LeftHalfOk(n, r, at);
    RightHalfOk(n, r, at);
    LessTotal(k, n.keys[at]);
  }

  /** Pages at or above `level` keep parent and level. */
  ghost predicate SamePathAbove(before: map<PageId, Info>, after: map<PageId, Info>, level: nat)
  {
    forall p :: p in before && before[p].level >= level ==>
      p in after && after[p].parent == before[p].parent && after[p].level == before[p].level
  }

  lemma KeepsPathAbove(g: Shape, added: PageId, cut: nat)
    requires CanAbsorb(g) && added !in g.pages
    requires CanSplitInner(AfterAbsorb(g), g.info[g.pend.left].parent, added, cut)
    ensures var q := g.info[g.pend.left].parent;
            SamePathAbove(g.info, InnerInfo(AfterAbsorb(g), q, added, cut), g.info[q].level)
  {
    var q := g.info[g.pend.left].parent;
    var h := AfterAbsorb(g);
    MovedAreChildren(h, q, cut);
    SeparatorSlot(g);
    var n := g.pages[q];
    var i := LowerBound(n.keys, g.info[g.pend.right].lo);
    assert Slot(g, q, n.children[i], SlotLo(n, g.info[q].lo, i), SlotHi(n, g.info[q].hi, i));
  }

  /** `SplitInternal` followed by the insert of the pending separator into the half
      it belongs to. */
  function HalvesWith(n: Node, at: nat, sep: Key, l: PageId, r: PageId): (Node, Node)
    requires n.Internal? && |n.children| == |n.keys| + 1 && at < |n.keys|
  {
    var (a, b) := (LeftInner(n, at), RightInner(n, at));
    if Less(sep, n.keys[at]) then (InsertChild(a, LowerBound(a.keys, sep), sep, l, r), b)
    else (a, InsertChild(b, LowerBound(b.keys, sep), sep, l, r))
  }

  /** Where that cut falls once the separator counts as one of the keys. */
  function CutWith(n: Node, at: nat, sep: Key): nat
    requires n.Internal? && at < |n.keys|
  {
    if Less(sep, n.keys[at]) then at + 1 else at
  }

  lemma HalvesAreCut(n: Node, at: nat, sep: Key, l: PageId, r: PageId)
    requires IsInner(n) && at < |n.keys| && sep !in n.keys
    ensures var w := InsertChild(n, LowerBound(n.keys, sep), sep, l, r); var cut := CutWith(n, at, sep);
            && cut < |w.keys| && w.keys[cut] == n.keys[at]
            && HalvesWith(n, at, sep, l, r) == (LeftInner(w, cut), RightInner(w, cut))
  {
    var i := LowerBound(n.keys, sep);
    LowerBoundCorrect(n.keys, sep);
    SplitThenInsert(n, at, i, sep, l, r);
    if Less(sep, n.keys[at]) {
      HalfPositionLeft(n, at, sep);
    } else {
      HalfPositionRight(n, at, sep);
    }
  }

  lemma HalfPositionLeft(n: Node, at: nat, sep: Key)
    requires IsInner(n) && at < |n.keys| && sep !in n.keys && Less(sep, n.keys[at])
    ensures LowerBound(n.keys, sep) <= at && LowerBound(n.keys[..at], sep) == LowerBound(n.keys, sep)
  {
    LowerBoundCorrect(n.keys, sep);
    SearchLeft(n.keys, sep, at);
    LowerBoundUnique(n.keys[..at], sep, LowerBound(n.keys, sep));
  }

  lemma HalfPositionRight(n: Node, at: nat, sep: Key)
    requires IsInner(n) && at < |n.keys| && sep !in n.keys && !Less(sep, n.keys[at])
    ensures at < LowerBound(n.keys, sep)
    ensures LowerBound(n.keys[at + 1..], sep) == LowerBound(n.keys, sep) - at - 1
  {
    LowerBoundCorrect(n.keys, sep);
    LessTotal(sep, n.keys[at]);
    SearchRight(n.keys, sep, at);
    LowerBoundUnique(n.keys[at + 1..], sep, LowerBound(n.keys, sep) - at - 1);
  }

  /** Page ids and ranges after a full parent `q` split around the pending pair. */
  ghost function AfterInnerStep(g: Shape, at: nat, added: PageId): Shape
    requires CanAbsorb(g) && at < |g.pages[g.info[g.pend.left].parent].keys|
    requires CanSplitInner(AfterAbsorb(g), g.info[g.pend.left].parent, added,
                           CutWith(g.pages[g.info[g.pend.left].parent], at, g.info[g.pend.right].lo))
  {
    var q := g.info[g.pend.left].parent;
    AfterSplitInner(AfterAbsorb(g), q, added, CutWith(g.pages[q], at, g.info[g.pend.right].lo))
  }

  lemma InnerStep(g: Shape, m: map<Key, Value>, at: nat, added: PageId)
    requires Inv(g) && g.pend.Split? && g.pend.left != g.root && Holds(g, m) && added !in g.pages
    requires g.info[g.pend.left].parent in g.pages && IsInner(g.pages[g.info[g.pend.left].parent])
    requires at < |g.pages[g.info[g.pend.left].parent].keys|
    ensures CanAbsorb(g)
    ensures var q := g.info[g.pend.left].parent; var sep := g.info[g.pend.right].lo;
            CanSplitInner(AfterAbsorb(g), q, added, CutWith(g.pages[q], at, sep))
    ensures var h := AfterInnerStep(g, at, added); var q := g.info[g.pend.left].parent;
            var sep := g.info[g.pend.right].lo;
            var (l, r) := HalvesWith(g.pages[q], at, sep, g.pend.left, g.pend.right);
            && h.pages == g.pages[q := l][added := r]
            && h.root == g.root && h.pend == Split(q, added)
            && Inv(h) && Holds(h, m)
            && added in h.info && h.info[added].lo == g.pages[q].keys[at]
            && SamePathAbove(g.info, h.info, g.info[q].level)
  {
    hide Inv, Holds, PageOk, SamePathAbove, Less, LowerBound, Has, Below, LeftInner, RightInner, HalvesWith, CutWith;
    Basics(g);
    var q := g.info[g.pend.left].parent;
    var sep := g.info[g.pend.right].lo;
    AbsorbStep(g, m);
    SeparatorSlot(g);
    HalvesAreCut(g.pages[q], at, sep, g.pend.left, g.pend.right);
    var a := AfterAbsorb(g);
    assert a.pages.Keys == g.pages.Keys;
    SplitStep(a, m, q, added, CutWith(g.pages[q], at, sep));
    KeepsPathAbove(g, added, CutWith(g.pages[q], at, sep));
  }

  lemma HalvesWithCost(n: Node, at: nat, sep: Key, l: PageId, r: PageId)
    requires IsInner(n) && Fits(n) && NodeSmall(n) && |sep| <= SMALL_KEY && at == |n.keys| / 2 && n.keys != []
    ensures var (a, b) := HalvesWith(n, at, sep, l, r); Fits(a) && Fits(b) && NodeSmall(a) && NodeSmall(b)
    ensures |n.keys[at]| <= SMALL_KEY
  {
    var (a, b) := (LeftInner(n, at), RightInner(n, at));
    SmallInnerFits(n, sep);
    InnerHalvesSmall(n, at);
    InnerInsertCost(a, LowerBound(a.keys, sep), sep, l, r);
    InnerInsertCost(b, LowerBound(b.keys, sep), sep, l, r);
    InsertChildSmall(a, LowerBound(a.keys, sep), sep, l, r);
    InsertChildSmall(b, LowerBound(b.keys, sep), sep, l, r);
    InnerSplitCost(n, at);
  }

  /** Facts every step needs, without the tree laws in full. */
  lemma Basics(g: Shape)
    requires Inv(g)
    ensures Domains(g)
  {
  }

  /** An internal node with ascending separators and one more child than those. */
  predicate IsInner(n: Node) { n.Internal? && |n.children| == |n.keys| + 1 && Sorted(n.keys) }

  lemma InsertChildSmall(n: Node, i: nat, sep: Key, l: PageId, r: PageId)
    requires IsInner(n) && i <= |n.keys|
    ensures NodeSmall(n) && |sep| <= SMALL_KEY ==> NodeSmall(InsertChild(n, i, sep, l, r))
  {
  }

  lemma InnerHalvesSmall(n: Node, at: nat)
    requires IsInner(n) && at < |n.keys|
    ensures IsInner(LeftInner(n, at)) && IsInner(RightInner(n, at))
    ensures NodeSmall(n) ==> NodeSmall(LeftInner(n, at)) && NodeSmall(RightInner(n, at)) && |n.keys[at]| <= SMALL_KEY
  {
  }

  /** Consecutive entries are parent and child, each one level lower at least. */
  ghost predicate PathOf(info: map<PageId, Info>, stack: seq<PageId>)
  {
    && (forall i :: 0 <= i < |stack| ==> stack[i] in info)
    && (forall i {:trigger stack[i]} :: 0 < i < |stack| ==>
          info[stack[i]].parent == stack[i - 1] && info[stack[i]].level < info[stack[i - 1]].level)
  }

  lemma {:induction false} PathLevels(info: map<PageId, Info>, stack: seq<PageId>, i: nat, j: nat)
    requires PathOf(info, stack) && i < j < |stack|
    ensures info[stack[j]].level < info[stack[i]].level
  {
    if i < j - 1 {
      PathLevels(info, stack, i, j - 1);
    }
  }

  /** The upper part of a path survives a change confined to lower levels. */
  lemma PathSurvives(before: map<PageId, Info>, after: map<PageId, Info>, stack: seq<PageId>, d: nat)
    requires 0 < d < |stack| && PathOf(before, stack)
    requires SamePathAbove(before, after, before[stack[d - 1]].level)
    ensures PathOf(after, stack[..d])
  {
    forall i | 0 <= i < d ensures before[stack[i]].level >= before[stack[d - 1]].level {
      if i < d - 1 {
        PathLevels(before, stack, i, d - 1);
      }
    }
  }

  lemma PathCut(info: map<PageId, Info>, p: PageId, r: PageId, sep: Key, stack: seq<PageId>)
    requires PathOf(info, stack) && p in info && r !in info
    ensures PathOf(CutInfo(info, p, r, sep), stack)
  {
  }

  /** Replacing or adding one page that fits (and is small) keeps all pages so. */
  lemma OnePage(pages: map<PageId, Node>, p: PageId, n: Node)
    ensures AllFit(pages) && Fits(n) ==> AllFit(pages[p := n])
    ensures AllSmall(pages) && NodeSmall(n) ==> AllSmall(pages[p := n])
    ensures AllSmall(pages) && p in pages ==> NodeSmall(pages[p])
    ensures AllFit(pages) && p in pages ==> Fits(pages[p])
  {
  }
}
