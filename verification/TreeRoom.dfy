/** Whether a Put finds room, decided from the pages before it starts: by the lengths of
    keys and values on the path from the root to the key's leaf. Leaves and internal pages
    are cut by count, so what matters is the half the new record, or the separator that
    travels up, belongs to. */
module TreeRoom {
  import opened Keys
  import opened Nodes
  import opened TreeShape
  import opened TreeSplits
  import opened TreeCapacity

  // ------------------------------------------------------------ the way down

  /** `child` is where a search for `k` goes from page `p`. */
  predicate StepsTo(pages: map<PageId, Node>, p: PageId, k: Key, child: PageId)
  {
    p in pages &&
    var n := pages[p];
    n.Internal? && ChildIndex(n.keys, k) < |n.children| && child == n.children[ChildIndex(n.keys, k)]
  }

  /** `stack` is the way a search for `k` takes from the root to a leaf. */
  predicate Descends(pages: map<PageId, Node>, root: PageId, k: Key, stack: seq<PageId>)
  {
    && stack != [] && stack[0] == root && stack[|stack| - 1] in pages && pages[stack[|stack| - 1]].Leaf?
    && forall i {:trigger stack[i]} :: 0 < i < |stack| ==> StepsTo(pages, stack[i - 1], k, stack[i])
  }

  ghost predicate EndsAt(pages: map<PageId, Node>, root: PageId, k: Key, stack: seq<PageId>, leaf: PageId)
  {
    Descends(pages, root, k, stack) && stack[|stack| - 1] == leaf
  }

  /** There is only one such way. */
  lemma {:induction false} DescentUnique(pages: map<PageId, Node>, root: PageId, k: Key, a: seq<PageId>, b: seq<PageId>,
      n: nat)
    requires Descends(pages, root, k, a) && Descends(pages, root, k, b) && n < |a|
    ensures n < |b| && a[n] == b[n]
  {
    hide StepsTo;
    if n > 0 {
      DescentUnique(pages, root, k, a, b, n - 1);
      StepUnique(pages, a[n - 1], k, a[n], a[n]);
      if n < |b| {
        StepUnique(pages, a[n - 1], k, a[n], b[n]);
      }
    }
  }

  lemma StepUnique(pages: map<PageId, Node>, p: PageId, k: Key, c: PageId, d: PageId)
    requires StepsTo(pages, p, k, c) && StepsTo(pages, p, k, d)
    ensures c == d && p in pages && pages[p].Internal?
  {
    hide ChildIndex;
  }

  lemma SameDescent(pages: map<PageId, Node>, root: PageId, k: Key, a: seq<PageId>, b: seq<PageId>)
    requires Descends(pages, root, k, a) && Descends(pages, root, k, b)
    ensures a == b
  {
    hide StepsTo;
    DescentUnique(pages, root, k, a, b, |a| - 1);
    DescentUnique(pages, root, k, b, a, |b| - 1);
    forall i | 0 <= i < |a| ensures a[i] == b[i] {
      DescentUnique(pages, root, k, a, b, i);
    }
  }

  // ------------------------------------------------------------ the way up

  predicate HasRoom(n: Node, sep: Key) { InternalCost(n.keys) + InternalRecordCost(sep) <= PAGE_PAYLOAD }

  /** The half of a cut internal page that separator `sep` goes to takes it. */
  predicate HalfHasRoomFor(n: Node, sep: Key)
  {
    n.keys != [] &&
    var at := |n.keys| / 2;
    InternalCost(if Less(sep, n.keys[at]) then n.keys[..at] else n.keys[at + 1..])
      + InternalRecordCost(sep) <= PAGE_PAYLOAD
  }

  /** Separator `sep`, on its way up from below the last page of `path`, finds a place:
      in that page; or in the right half of it, and then its middle separator does
      further up; or past the root, in a new one. */
  predicate CarryFits(pages: map<PageId, Node>, path: seq<PageId>, sep: Key)
    decreases |path|
  {
    if path == [] then InternalRecordCost(sep) <= PAGE_PAYLOAD
    else
      var p := path[|path| - 1];
      p in pages &&
      var n := pages[p];
      HasRoom(n, sep) || (HalfHasRoomFor(n, sep) && CarryFits(pages, path[..|path| - 1], n.keys[|n.keys| / 2]))
  }

  /** Only the pages on the path matter. */
  lemma {:induction false} CarrySame(a: map<PageId, Node>, b: map<PageId, Node>, path: seq<PageId>, sep: Key)
    requires forall i :: 0 <= i < |path| ==> path[i] in a && path[i] in b && a[path[i]] == b[path[i]]
    ensures CarryFits(a, path, sep) == CarryFits(b, path, sep)
    decreases |path|
  {
    hide InternalCost, Less;
    if path != [] {
      var n := a[path[|path| - 1]];
      if n.keys != [] {
        CarrySame(a, b, path[..|path| - 1], n.keys[|n.keys| / 2]);
      }
    }
  }

  /** The half of a leaf cut by count that record `k` goes to takes it. */
  predicate LeafHalfHasRoom(n: Node, k: Key, v: Value)
    requires n.Leaf? && |n.keys| == |n.vals|
  {
    n.keys != [] &&
    var at := |n.keys| / 2;
    (if Less(k, n.keys[at]) then LeafCost(n.keys[..at], n.vals[..at]) else LeafCost(n.keys[at..], n.vals[at..]))
      + LeafRecordCost(k, v)
      <= PAGE_PAYLOAD
  }

  /** With its old record, if any, out of the leaf, the new one fits neither the leaf nor
      its half, or the leaf's separator finds no place above. */
  predicate Overflows(pages: map<PageId, Node>, path: seq<PageId>, leaf: Node, k: Key, v: Value)
    requires leaf.Leaf? && |leaf.keys| == |leaf.vals|
  {
    var n := LeafErase(leaf, k);
    && LeafCost(n.keys, n.vals) + LeafRecordCost(k, v) > PAGE_PAYLOAD
    && (!LeafHalfHasRoom(n, k, v) || !CarryFits(pages, path, n.keys[|n.keys| / 2]))
  }

  /** The condition under which a Put fails half-way. */
  ghost predicate PutOverflows(pages: map<PageId, Node>, root: Option<PageId>, k: Key, v: Value)
  {
    root.Some? && exists stack :: OverflowsOn(pages, root.value, k, v, stack)
  }

  /** Tree `g` (none: the empty one) has no place for the record: no page could hold it,
      or putting it overflows. */
  ghost predicate Refuses(g: Option<Shape>, k: Key, v: Value)
  {
    !Holdable(k, v) || (g.Some? && PutOverflows(g.value.pages, Some(g.value.root), k, v))
  }

  ghost predicate OverflowsOn(pages: map<PageId, Node>, root: PageId, k: Key, v: Value, stack: seq<PageId>)
  {
    && Descends(pages, root, k, stack)
    && var leaf := pages[stack[|stack| - 1]];
       |leaf.keys| == |leaf.vals| && Overflows(pages, stack[..|stack| - 1], leaf, k, v)
  }

  /** On the one way down it is a plain condition. */
  lemma OverflowsThere(pages: map<PageId, Node>, root: PageId, k: Key, v: Value, stack: seq<PageId>)
    requires Descends(pages, root, k, stack) && |pages[stack[|stack| - 1]].keys| == |pages[stack[|stack| - 1]].vals|
    ensures PutOverflows(pages, Some(root), k, v) <==> Overflows(pages, stack[..|stack| - 1], pages[stack[|stack| - 1]],
            k, v)
  {
    hide StepsTo, Overflows;
    if PutOverflows(pages, Some(root), k, v) {
      var other :| OverflowsOn(pages, root, k, v, other);
      SameDescent(pages, root, k, stack, other);
    }
    if Overflows(pages, stack[..|stack| - 1], pages[stack[|stack| - 1]], k, v) {
      assert OverflowsOn(pages, root, k, v, stack);
    }
  }

  // ------------------------------------------------------------ the conditions and the pages

  /** A leaf refuses a record exactly when the erased leaf lacks the bytes. */
  lemma WriteNeeds(n: Node, r: Info, k: Key, v: Value)
    requires n.Leaf? && LeafOk(n, r)
    ensures var e := LeafErase(n, k);
            Fits(LeafWrite(n, k, v)) <==> LeafCost(e.keys, e.vals) + LeafRecordCost(k, v) <= PAGE_PAYLOAD
  {
    LowerBoundCorrect(n.keys, k);
    if Has(n.keys, k) {
      UpdateCost(n, k, v);
    } else {
      WriteCost(n, k, v);
    }
  }

  /** After the cut the record fits its half exactly when that half has the bytes. */
  lemma HalfNeeds(n: Node, r: Info, k: Key, v: Value, p: PageId, added: PageId)
    requires n.Leaf? && LeafOk(n, r) && n.keys != [] && k !in n.keys
    ensures var at := |n.keys| / 2;
            Fits(LeafWrite(if Less(k, n.keys[at]) then LeftLeaf(n, at, added) else RightLeaf(n, at, p), k, v)) <==>
              LeafHalfHasRoom(n, k, v)
  {
    hide LeafCost, LeafWrite, Less, LeafOk;
    HalfKeys(n, r, k);
    var at := |n.keys| / 2;
    WriteCost(if Less(k, n.keys[at]) then LeftLeaf(n, at, added) else RightLeaf(n, at, p), k, v);
  }

  lemma HalfKeys(n: Node, r: Info, k: Key)
    requires n.Leaf? && LeafOk(n, r) && k !in n.keys
    ensures var at := |n.keys| / 2;
            && |n.keys| == |n.vals| && Sorted(n.keys[..at]) && Sorted(n.keys[at..]) && k !in n.keys[..at]
               && k !in n.keys[at..]
  {
    hide Less;
    var at := |n.keys| / 2;
    assert forall x :: x in n.keys[..at] || x in n.keys[at..] ==> x in n.keys;
  }

  /** Both halves of a full parent fit with the separator exactly when its half has room. */
  lemma HalvesNeed(n: Node, sep: Key, l: PageId, r: PageId)
    requires IsInner(n) && Fits(n) && n.keys != []
    ensures var (a, b) := HalvesWith(n, |n.keys| / 2, sep, l, r); (Fits(a) && Fits(b)) <==> HalfHasRoomFor(n, sep)
  {
    hide InternalCost, Less, Sorted, LowerBound;
    var at := |n.keys| / 2;
    var (a, b) := (LeftInner(n, at), RightInner(n, at));
    InnerSplitCost(n, at);
    InnerInsertCost(a, LowerBound(a.keys, sep), sep, l, r);
    InnerInsertCost(b, LowerBound(b.keys, sep), sep, l, r);
  }

  // ------------------------------------------------------------ small records always fit

  lemma {:induction false} SmallCarries(pages: map<PageId, Node>, path: seq<PageId>, sep: Key)
    requires AllSmall(pages) && AllFit(pages) && |sep| <= SMALL_KEY
    requires forall i :: 0 <= i < |path| ==> path[i] in pages && IsInner(pages[path[i]])
    ensures CarryFits(pages, path, sep)
    decreases |path|
  {
    hide InternalCost, Less, IsInner;
    if path != [] {
      var p := path[|path| - 1];
      var n := pages[p];
      OnePage(pages, p, n);
      SmallParent(n, sep);
      if !HasRoom(n, sep) {
        SmallCarries(pages, path[..|path| - 1], n.keys[|n.keys| / 2]);
      }
    }
  }

  lemma SmallParent(n: Node, sep: Key)
    requires IsInner(n) && NodeSmall(n) && Fits(n) && |sep| <= SMALL_KEY
    ensures HasRoom(n, sep) || (HalfHasRoomFor(n, sep) && |n.keys[|n.keys| / 2]| <= SMALL_KEY)
  {
    hide InternalCost, Less, Sorted;
    SmallInnerFits(n, sep);
  }

  lemma SmallLeafHalf(n: Node, r: Info, k: Key, v: Value)
    requires n.Leaf? && LeafOk(n, r) && NodeSmall(n) && Fits(n) && SmallRecord(k, v) && k !in n.keys && n.keys != []
    ensures LeafHalfHasRoom(n, k, v) && |n.keys[|n.keys| / 2]| <= SMALL_KEY
  {
    hide Less, LeafOk;
    SmallSplitFits(n, r, k, v, 0, 1);
    HalfNeeds(n, r, k, v, 0, 1);
  }
}
