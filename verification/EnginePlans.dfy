/** The records a split logs make of the pages exactly what the split made of the tree. */
module EnginePlans {
  import opened Keys
  import opened Nodes
  import opened TxnLog
  import opened PageRedo
  import opened TreeShape
  import opened TreeEdits
  import opened TreeSplits
  import opened TreeCapacity
  import opened EngineMachine
  import opened EngineInv
  import L = LatchMachine
  import T = TxnMachine

  lemma {:induction false} EventuallyConcat(n: Option<Node>, a: seq<Body>, b: seq<Body>, p: PageId)
    ensures Eventually(n, a + b, p) == Eventually(Eventually(n, a, p), b, p)
    decreases |a|
  {
    hide NodeAfter;
    if a == [] {
      assert a + b == b;
    } else {
      assert (a + b)[1..] == a[1..] + b;
      EventuallyConcat(NodeAfter(n, a[0], p), a[1..], b, p);
    }
  }

  lemma EventuallyOne(n: Option<Node>, b: Body, p: PageId)
    ensures Eventually(n, [b], p) == NodeAfter(n, b, p)
  {
    hide NodeAfter;
    assert Eventually(NodeAfter(n, b, p), [b][1..], p) == NodeAfter(n, b, p);
  }

  /** An allocation and then an image of the page. */
  lemma MadePage(n: Option<Node>, p: PageId, node: Node, q: PageId)
    ensures Eventually(n, [AllocPage(p), PageImage(p, node)], q) == if q == p then Some(node) else n
  {
    hide Eventually;
    assert [AllocPage(p), PageImage(p, node)] == [AllocPage(p)] + [PageImage(p, node)];
    EventuallyConcat(n, [AllocPage(p)], [PageImage(p, node)], q);
    EventuallyOne(n, AllocPage(p), q);
    EventuallyOne(n, PageImage(p, node), q);
  }

  /** An allocation and two images. */
  lemma MadeTwo(n: Option<Node>, r: PageId, p: PageId, left: Node, right: Node, q: PageId)
    requires p != r
    ensures Eventually(n, [AllocPage(r), PageImage(p, left), PageImage(r, right)], q) ==
            if q == p then Some(left) else if q == r then Some(right) else n
  {
    hide Eventually;
    var a := [AllocPage(r), PageImage(p, left)];
    assert [AllocPage(r), PageImage(p, left), PageImage(r, right)] == a + [PageImage(r, right)];
    assert a == [AllocPage(r)] + [PageImage(p, left)];
    EventuallyConcat(n, a, [PageImage(r, right)], q);
    EventuallyConcat(n, [AllocPage(r)], [PageImage(p, left)], q);
    EventuallyOne(n, AllocPage(r), q);
    EventuallyOne(n, PageImage(p, left), q);
    EventuallyOne(Eventually(n, a, q), PageImage(r, right), q);
  }

  // ------------------------------------------------------------ leaf split

  function RelinkPlan(pages: map<PageId, Node>, next: Option<PageId>, r: PageId): seq<Body>
  {
    if next.Some? && next.value in pages then [PageImage(next.value, RelinkPrev(pages[next.value], r))] else []
  }

  lemma Relinked(n: Option<Node>, pages: map<PageId, Node>, next: Option<PageId>, r: PageId, q: PageId)
    ensures Eventually(n, RelinkPlan(pages, next, r), q) ==
            if next == Some(q) && q in pages then Some(RelinkPrev(pages[q], r)) else n
  {
    if next.Some? && next.value in pages {
      hide Eventually, RelinkPrev;
      EventuallyOne(n, PageImage(next.value, RelinkPrev(pages[next.value], r)), q);
    }
  }

  /** The pages of a split leaf's tree, one by one. */
  lemma SplitPages(g: Shape, p: PageId, r: PageId, k: Key, v: Value, q: PageId)
    requires p in g.pages && LeafNode(g.pages[p]) && g.info.Keys == g.pages.Keys
    requires CanSplitLeaf(WithNode(g, p, LeafErase(g.pages[p], k)), p, r)
    ensures var n := LeafErase(g.pages[p], k);
            var at := |n.keys| / 2;
            && n.keys != [] && p != r && r !in g.pages && (n.next.Some? ==>
               n.next.value in g.pages && n.next.value != p)
            && var half := if Less(k, n.keys[at]) then p else r;
               TreePage(Some(L.AfterPutSplit(g, p, r, k, v)), q) ==
                 if q == half then Some(LeafWrite(if half == p then LeftLeaf(n, at, r) else RightLeaf(n, at, p), k, v))
                 else if q == p then Some(LeftLeaf(n, at, r))
                 else if q == r then Some(RightLeaf(n, at, p))
                 else if n.next == Some(q) then Some(RelinkPrev(g.pages[q], r))
                 else TreePage(Some(g), q)
  {
    var n := LeafErase(g.pages[p], k);
    var e := WithNode(g, p, n);
    NextDiffers(e, p);
    hide LeafErase, LeafWrite, PageOk, Less, LeftLeaf, RightLeaf, Inv, RelinkPrev;
    SplitParts(e, p, r);
    assert n.next.Some? ==> n.next.value != p;
    var h := AfterSplitLeaf(e, p, r);
    hide AfterSplitLeaf, CanSplitLeaf;
    LeafHalves(n, |n.keys| / 2, p, r);
  }

  lemma LeafHalves(n: Node, at: nat, p: PageId, r: PageId)
    requires LeafNode(n) && at <= |n.keys|
    ensures LeafNode(LeftLeaf(n, at, r)) && LeafNode(RightLeaf(n, at, p))
  {
  }

  lemma SplitParts(e: Shape, p: PageId, r: PageId)
    requires CanSplitLeaf(e, p, r) && e.info.Keys == e.pages.Keys
    ensures var h := AfterSplitLeaf(e, p, r);
            var n := e.pages[p];
            && n.keys != [] && p != r && r !in e.pages && |n.keys| == |n.vals|
               && (n.next.Some? ==> n.next.value in e.pages)
            && (n.next != Some(p) ==>
                  && h.pages.Keys == e.pages.Keys + {r}
                  && h.pages[p] == LeftLeaf(n, |n.keys| / 2, r) && h.pages[r] == RightLeaf(n, |n.keys| / 2, p)
                  && (forall q :: q in e.pages && q != p ==>
                        h.pages[q] == if n.next == Some(q) then RelinkPrev(e.pages[q], r) else e.pages[q]))
  {
  }

  /** Logging the split's plan over the old pages gives the pages after the split. */
  lemma SplitPlanRight(g: Shape, p: PageId, r: PageId, op: T.OpenOp, q: PageId)
    requires p in g.pages && LeafNode(g.pages[p]) && g.info.Keys == g.pages.Keys && op.value.Some?
    requires CanSplitLeaf(WithNode(g, p, LeafErase(g.pages[p], op.key)), p, r)
    requires LeafErase(g.pages[p], op.key).keys != []
    ensures Eventually(TreePage(Some(g), q), SplitPlan(g.pages, p, r, op), q) ==
            TreePage(Some(L.AfterPutSplit(g, p, r, op.key, op.value.value)), q)
  {
    hide Eventually, CanSplitLeaf, L.AfterPutSplit, AfterSplitLeaf;
    SplitPages(g, p, r, op.key, op.value.value, q);
    hide LeafErase, LeafWrite, Less, LeftLeaf, RightLeaf, RelinkPrev;
    var n := LeafErase(g.pages[p], op.key);
    var at := |n.keys| / 2;
    var half := if Less(op.key, n.keys[at]) then p else r;
    var a := [AllocPage(r), PageImage(p, LeftLeaf(n, at, r)), PageImage(r, RightLeaf(n, at, p))];
    var b := RelinkPlan(g.pages, n.next, r);
    var n0 := TreePage(Some(g), q);
    EventuallyConcat(n0, a + b, [KeyBody(op, half)], q);
    EventuallyConcat(n0, a, b, q);
    MadeTwo(n0, r, p, LeftLeaf(n, at, r), RightLeaf(n, at, p), q);
    Relinked(Eventually(n0, a, q), g.pages, n.next, r, q);
    EventuallyOne(Eventually(n0, a + b, q), KeyBody(op, half), q);
    LeafHalves(n, at, p, r);
  }

  lemma SplitPlanSane(g: Shape, p: PageId, r: PageId, op: T.OpenOp)
    requires Inv(g) && p in g.pages && LeafNode(g.pages[p]) && LeafErase(g.pages[p], op.key).keys != []
    ensures forall b :: b in SplitPlan(g.pages, p, r, op) ==> SaneBody(b)
  {
    NodeFacts(g, p);
    SaneWrite(g.pages[p], op.key, []);
    forall q | q in g.pages ensures Sorted(g.pages[q].keys) && Sane(Some(g.pages[q])) {
      NodeFacts(g, q);
    }
  }

  // ------------------------------------------------------------ split of a parent

  /** Both images and then the half that takes the separator once more. */
  lemma ParentPlanPages(g: Shape, r: PageId, q: PageId)
    requires g.pend.Split? && Above(g) in g.pages && IsInner(g.pages[Above(g)]) && g.pages[Above(g)].keys != []
    requires Above(g) != r
    ensures var n := g.pages[Above(g)];
            var (a, b) := HalvesWith(n, |n.keys| / 2, PendKey(g), g.pend.left, g.pend.right);
            Eventually(TreePage(Some(g), q), ParentPlan(g, r), q) ==
              if q == Above(g) then Some(a) else if q == r then Some(b) else TreePage(Some(g), q)
  {
    hide Less, HalvesWith, LeftInner, RightInner, Eventually, Sorted, Above, PendKey;
    var (up, sep) := (Above(g), PendKey(g));
    var n := g.pages[up];
    var at := |n.keys| / 2;
    var (a, b) := HalvesWith(n, at, sep, g.pend.left, g.pend.right);
    var images := [AllocPage(r), PageImage(up, LeftInner(n, at)), PageImage(r, RightInner(n, at))];
    var last := if Less(sep, n.keys[at]) then PageImage(up, a) else PageImage(r, b);
    var n0 := TreePage(Some(g), q);
    assert ParentPlan(g, r) == images + [last];
    EventuallyConcat(n0, images, [last], q);
    MadeTwo(n0, r, up, LeftInner(n, at), RightInner(n, at), q);
    EventuallyOne(Eventually(n0, images, q), last, q);
    OtherHalf(n, at, sep, g.pend.left, g.pend.right);
  }

  lemma ParentPlanRight(g: Shape, m: KV, r: PageId, q: PageId)
    requires Inv(g) && g.pend.Split? && g.pend.left != g.root && Holds(g, m) && r !in g.pages
    requires CanAbsorb(g) && Above(g) in g.pages && IsInner(g.pages[Above(g)]) && g.pages[Above(g)].keys != []
    requires var n := g.pages[g.info[g.pend.left].parent];
             CanSplitInner(AfterAbsorb(g), g.info[g.pend.left].parent, r,
               CutWith(n, |n.keys| / 2, g.info[g.pend.right].lo))
    ensures Eventually(TreePage(Some(g), q), ParentPlan(g, r), q) ==
            TreePage(Some(AfterInnerStep(g, |g.pages[Above(g)].keys| / 2, r)), q)
  {
    hide Inv, Holds, CanAbsorb, CanSplitInner, AfterInnerStep, AfterAbsorb, HalvesWith, Eventually, IsInner, ParentPlan,
         SamePathAbove, CutWith;
    Basics(g);
    InnerStep(g, m, |g.pages[Above(g)].keys| / 2, r);
    ParentPlanPages(g, r, q);
  }

  /** The half that does not take the separator is as it was cut. */
  lemma OtherHalf(n: Node, at: nat, sep: Key, l: PageId, r: PageId)
    requires n.Internal? && |n.children| == |n.keys| + 1 && at < |n.keys|
    ensures var (a, b) := HalvesWith(n, at, sep, l, r);
            if Less(sep, n.keys[at]) then b == RightInner(n, at) else a == LeftInner(n, at)
  {
    hide Less;
  }
}
