/** The B+ tree: point lookups, deletes, and Puts that split their way up to a new
    root, over a store of pages.

    The tree is proved to be a map: every operation's effect is one map operation
    on `contents`, and every operation keeps the laws of TreeShape. Errors the code
    reports from inside a split (and then poisons the handle for) are `Poisoned`;
    nothing is promised about the tree after one. They occur exactly when TreeRoom's
    `PutOverflows` says so, and never with small records.

    A Put keeps every page it rewrites pinned and latched until it returns. `held` is the
    set of those pages: nothing outside it changes, and it stays within the buffer pool's
    minimum. */
module BTree {
  import opened Keys
  import opened Nodes
  import opened TreeShape
  import opened TreeEdits
  import opened TreeSplits
  import opened TreeCapacity
  import opened TreeRoom

  datatype Status = Ok | NotFound | InvalidArgument | Poisoned

  /** Pages outside `held` neither came, went nor changed. */
  ghost predicate Untouched(before: map<PageId, Node>, after: map<PageId, Node>, held: set<PageId>)
  {
    forall p {:trigger p in before} {:trigger p in after} :: p !in held ==>
      (p in before <==> p in after) && (p in before && p in after ==> after[p] == before[p])
  }

  lemma UntouchedChain(a: map<PageId, Node>, b: map<PageId, Node>, c: map<PageId, Node>, held: set<PageId>,
      more: set<PageId>)
    requires Untouched(a, b, held) && Untouched(b, c, more) && held <= more
    ensures Untouched(a, c, more)
  {
    forall p | p !in more ensures (p in a <==> p in c) && (p in a && p in c ==> c[p] == a[p]) {
      assert p in a <==> p in b;
    }
  }

  lemma WriteTouches(was: map<PageId, Node>, p: PageId, n: Node, held: set<PageId>)
    requires p in held
    ensures Untouched(was, was[p := n], held)
  {
  }

  lemma TwoTouched(was: map<PageId, Node>, p: PageId, n: Node, q: PageId, m: Node, held: set<PageId>)
    requires p in held && q in held
    ensures Untouched(was, was[p := n][q := m], held)
  {
  }

  lemma SplitTouches(was: map<PageId, Node>, p: PageId, r: PageId, held: set<PageId>)
    requires p in was && was[p].Leaf? && |was[p].keys| == |was[p].vals| && p in held && r in held
    requires was[p].next.Some? ==> was[p].next.value in was && was[p].next.value in held
    ensures Untouched(was, SplitLeafPages(was, p, r), held)
  {
    hide LeftLeaf, RightLeaf, RelinkPrev;
  }

  lemma Unchanged(pages: map<PageId, Node>, held: set<PageId>)
    ensures Untouched(pages, pages, held)
  {
  }

  /** The pages of a path. */
  function PagesOf(stack: seq<PageId>): (held: set<PageId>)
    ensures |held| <= |stack| && forall p :: p in held <==> p in stack
  {
    if stack == [] then {} else PagesOf(stack[..|stack| - 1]) + {stack[|stack| - 1]}
  }

  lemma TouchMore(was: map<PageId, Node>, now: map<PageId, Node>, p: PageId, n: Node, held: set<PageId>)
    requires Untouched(was, now, held) && p in held
    ensures Untouched(was, now[p := n], held)
  {
  }

  lemma WriteAfterErase(m: map<Key, Value>, k: Key, v: Value)
    ensures (m - {k})[k := v] == m[k := v]
  {
  }

  // ------------------------------------------------------------ what decides a Put

  lemma RoomThere(pages: map<PageId, Node>, path: seq<PageId>, n: Node, r: Info, k: Key, v: Value)
    requires n.Leaf? && LeafOk(n, r) && Fits(LeafWrite(n, k, v))
    ensures !Overflows(pages, path, n, k, v)
  {
    hide LeafOk, LeafWrite, LeafErase, LeafHalfHasRoom, CarryFits, Fits;
    WriteNeeds(n, r, k, v);
    assert |n.keys| == |n.vals| by { LeafPairs(n, r); }
  }

  lemma LeafPairs(n: Node, r: Info)
    requires n.Leaf? && LeafOk(n, r)
    ensures |n.keys| == |n.vals| && Sorted(n.keys) && r.level == 0
  {
  }

  /** Taking the key's old record out does not change whether the Put overflows. */
  lemma ErasedSame(before: map<PageId, Node>, now: map<PageId, Node>, path: seq<PageId>, leaf: PageId, r: Info, k: Key,
      v: Value)
    requires leaf in before && before[leaf].Leaf? && LeafOk(before[leaf], r)
    requires now == before || now == before[leaf := LeafErase(before[leaf], k)]
    requires forall i :: 0 <= i < |path| ==> path[i] in before && path[i] != leaf
    ensures |before[leaf].keys| == |before[leaf].vals| && now[leaf].Leaf? && |now[leaf].keys| == |now[leaf].vals|
    ensures Overflows(now, path, now[leaf], k, v) == Overflows(before, path, before[leaf], k, v)
  {
    hide LeafErase, LeafHalfHasRoom, CarryFits, LeafOk, LeafCost, Overflows;
    var n := before[leaf];
    LeafPairs(n, r);
    EraseTwice(n, k);
    OverflowsErased(now, path, n, k, v);
    if LeafErase(n, k).keys != [] {
      CarrySame(now, before, path, LeafErase(n, k).keys[|LeafErase(n, k).keys| / 2]);
    }
    OverflowsFrame(before, now, path, n, k, v);
  }

  lemma OverflowsErased(pages: map<PageId, Node>, path: seq<PageId>, n: Node, k: Key, v: Value)
    requires n.Leaf? && |n.keys| == |n.vals| && Sorted(n.keys)
    ensures Overflows(pages, path, LeafErase(n, k), k, v) == Overflows(pages, path, n, k, v)
  {
    EraseTwice(n, k);
    hide LeafErase, CarryFits, LeafCost, Less, Sorted;
  }

  lemma OverflowsFrame(a: map<PageId, Node>, b: map<PageId, Node>, path: seq<PageId>, n: Node, k: Key, v: Value)
    requires n.Leaf? && |n.keys| == |n.vals|
    requires var e := LeafErase(n, k).keys; e != [] ==> CarryFits(b, path, e[|e| / 2]) == CarryFits(a, path, e[|e| / 2])
    ensures Overflows(b, path, n, k, v) == Overflows(a, path, n, k, v)
  {
    hide LeafErase, CarryFits, LeafCost, Less;
  }

  lemma EraseTwice(n: Node, k: Key)
    requires n.Leaf? && |n.keys| == |n.vals| && Sorted(n.keys)
    ensures LeafErase(LeafErase(n, k), k) == LeafErase(n, k)
  {
    if Has(n.keys, k) { EraseKeepsPlace(n.keys, k); }
  }

  /** On a full leaf without the key: the half, or the way up. */
  lemma Halving(pages: map<PageId, Node>, path: seq<PageId>, n: Node, r: Info, k: Key, v: Value)
    requires n.Leaf? && LeafOk(n, r) && n.keys != [] && k !in n.keys && !Fits(LeafWrite(n, k, v))
    ensures Overflows(pages, path, n, k, v) <==>
            !LeafHalfHasRoom(n, k, v) || !CarryFits(pages, path, n.keys[|n.keys| / 2])
  {
    LeafPairs(n, r);
    LowerBoundCorrect(n.keys, k);
    hide LeafHalfHasRoom, CarryFits, LeafOk, Fits, LeafWrite, Less, LowerBound;
    WriteNeeds(n, r, k, v);
  }

  /** The pages after a leaf split and the insert, whose half becomes `w`. */
  function Placed(before: map<PageId, Node>, leaf: PageId, added: PageId, key: Key, sep: Key,
      w: Node): map<PageId, Node>
    requires leaf in before && before[leaf].Leaf? && |before[leaf].keys| == |before[leaf].vals|
    requires before[leaf].next.Some? ==> before[leaf].next.value in before
  {
    SplitLeafPages(before, leaf, added)[(if Less(key, sep) then leaf else added) := w]
  }

  /** A leaf split changes no page of the path above it. */
  lemma PlacedTouches(before: map<PageId, Node>, stack: seq<PageId>, leaf: PageId, added: PageId, key: Key, sep: Key,
      w: Node, held: set<PageId>)
    requires leaf in before && before[leaf].Leaf? && |before[leaf].keys| == |before[leaf].vals| && added !in before
    requires before[leaf].next.Some? ==> before[leaf].next.value in before && before[before[leaf].next.value].Leaf?
    requires Above(before, stack) && stack[|stack| - 1] == leaf
    requires leaf in held && added in held && (before[leaf].next.Some? ==> before[leaf].next.value in held)
    ensures var now := Placed(before, leaf, added, key, sep, w);
            && CarryFits(now, stack[..|stack| - 1], sep) == CarryFits(before, stack[..|stack| - 1], sep)
            && (forall i :: 0 <= i < |stack| - 1 ==> stack[i] in now)
            && Untouched(before, now, held)
  {
    hide CarryFits, LeftLeaf, RightLeaf, RelinkPrev, Sorted, Less;
    SplitTouches(before, leaf, added, held);
    var now := Placed(before, leaf, added, key, sep, w);
    var path := stack[..|stack| - 1];
    forall i | 0 <= i < |path| ensures path[i] in before && path[i] in now && now[path[i]] == before[path[i]] {
      assert stack[i] == path[i];
    }
    CarrySame(now, before, path, sep);
    hide SplitLeafPages;
    TouchMore(before, SplitLeafPages(before, leaf, added), if Less(key, sep) then leaf else added, w, held);
  }

  lemma HalvesAreLeaves(n: Node, p: PageId, r: PageId)
    requires n.Leaf? && |n.keys| == |n.vals|
    ensures var (a, b) := (LeftLeaf(n, |n.keys| / 2, r), RightLeaf(n, |n.keys| / 2, p));
            a.Leaf? && |a.keys| == |a.vals| && b.Leaf? && |b.keys| == |b.vals|
  {
  }

  lemma NextLeaf(g: Shape, p: PageId)
    requires Inv(g) && p in g.pages && g.pages[p].Leaf?
    ensures g.pages[p].next.Some? ==> g.pages[p].next.value in g.pages && g.pages[g.pages[p].next.value].Leaf?
  {
    assert PageOk(g, p);
  }

  /** Carrying from the split page up to `depth` has not been refused, what is carried now
      is `key`, and the pages above are as they were. */
  ghost predicate OnTheWay(before: map<PageId, Node>, now: map<PageId, Node>, stack: seq<PageId>, depth: nat, sep: Key,
      key: Key)
  {
    && depth < |stack| && CarryFits(before, stack[..|stack| - 1], sep) == CarryFits(before, stack[..depth], key)
    && (forall i :: 0 <= i < depth ==> stack[i] in before && stack[i] in now && now[stack[i]] == before[stack[i]])
  }

  lemma StartsOut(pages: map<PageId, Node>, stack: seq<PageId>, sep: Key)
    requires stack != [] && forall i :: 0 <= i < |stack| - 1 ==> stack[i] in pages
    ensures OnTheWay(pages, pages, stack, |stack| - 1, sep, sep)
  {
  }

  lemma AtTheTop(before: map<PageId, Node>, now: map<PageId, Node>, stack: seq<PageId>, sep: Key, key: Key)
    requires stack != [] && OnTheWay(before, now, stack, 0, sep, key)
    ensures CarryFits(before, stack[..|stack| - 1], sep) <==> InternalRecordCost(key) <= PAGE_PAYLOAD
  {
    assert stack[..0] == [];
  }

  /** What one turn decides. */
  lemma Turn(before: map<PageId, Node>, now: map<PageId, Node>, stack: seq<PageId>, depth: nat, sep: Key, key: Key)
    requires 0 < depth < |stack| && OnTheWay(before, now, stack, depth, sep, key)
    ensures var n := now[stack[depth - 1]];
            CarryFits(before, stack[..|stack| - 1], sep) <==>
              HasRoom(n, key) || (HalfHasRoomFor(n, key) && CarryFits(before, stack[..depth - 1], n.keys[|n.keys| / 2]))
  {
    hide HasRoom, Less, InternalCost;
    assert stack[..depth][..depth - 1] == stack[..depth - 1];
  }

  lemma Climbed(before: map<PageId, Node>, was: map<PageId, Node>, now: map<PageId, Node>, info: map<PageId, Info>,
      stack: seq<PageId>, depth: nat, sep: Key, key: Key, l: Node, added: PageId, r: Node)
    requires 0 < depth < |stack| && OnTheWay(before, was, stack, depth, sep, key) && PathOf(info, stack[..depth + 1])
    requires stack[depth - 1] in was && added !in was && now == was[stack[depth - 1] := l][added := r]
    requires !HasRoom(was[stack[depth - 1]], key) && HalfHasRoomFor(was[stack[depth - 1]], key)
    ensures var n := was[stack[depth - 1]];
            n.keys != [] && OnTheWay(before, now, stack, depth - 1, sep, n.keys[|n.keys| / 2])
  {
    Turn(before, was, stack, depth, sep, key);
    hide HasRoom, Less, InternalCost;
    forall i | 0 <= i < depth - 1 ensures stack[i] != stack[depth - 1] {
      PathLevels(info, stack[..depth + 1], i, depth - 1);
    }
  }

  // ------------------------------------------------------------ going down

  /** `stack` goes down from the root towards `k`'s leaf, page by page. */
  ghost predicate Down(g: Shape, k: Key, stack: seq<PageId>)
  {
    && Domains(g) && stack != [] && stack[0] == g.root && PathOf(g.info, stack)
    && stack[|stack| - 1] in g.pages && InRange(k, g.info[stack[|stack| - 1]])
    && |stack| + g.info[stack[|stack| - 1]].level == g.info[g.root].level + 1
    && (forall i {:trigger stack[i]} :: 0 < i < |stack| ==> StepsTo(g.pages, stack[i - 1], k, stack[i]))
    && (forall i :: 0 <= i < |stack| - 1 ==> stack[i] in g.pages && IsInner(g.pages[stack[i]]))
  }

  lemma DownStart(g: Shape, k: Key)
    requires Inv(g) && g.pend.NoSplit?
    ensures Down(g, k, [g.root])
  {
    RootCovers(g, k);
    Basics(g);
  }

  /** One step: to the child whose range holds the key. */
  lemma DownStep(g: Shape, k: Key, stack: seq<PageId>)
    requires Inv(g) && g.pend.NoSplit? && Down(g, k, stack) && g.pages[stack[|stack| - 1]].Internal?
    ensures var n := g.pages[stack[|stack| - 1]];
            && IsInner(n) && ChildIndex(n.keys, k) < |n.children|
            && Down(g, k, stack + [n.children[ChildIndex(n.keys, k)]])
  {
    hide InRange, ChildIndex, Inv;
    var p := stack[|stack| - 1];
    var n := g.pages[p];
    NodeFacts(g, p);
    ChildHoldsKey(g, p, k);
    var c := n.children[ChildIndex(n.keys, k)];
    assert StepsTo(g.pages, p, k, c);
    hide StepsTo, Sorted;
    assert forall i :: 0 <= i < |stack| ==> (stack + [c])[i] == stack[i];
  }

  lemma Separators(g: Shape, k: Key, stack: seq<PageId>)
    requires Inv(g) && Down(g, k, stack) && g.pages[stack[|stack| - 1]].Internal?
    ensures var n := g.pages[stack[|stack| - 1]]; Sorted(n.keys) && |n.children| == |n.keys| + 1
  {
    NodeFacts(g, stack[|stack| - 1]);
  }

  /** The child as the code picks it. */
  lemma DownTo(g: Shape, k: Key, stack: seq<PageId>, index: nat, found: bool)
    requires Inv(g) && g.pend.NoSplit? && Down(g, k, stack) && g.pages[stack[|stack| - 1]].Internal?
    requires var n := g.pages[stack[|stack| - 1]]; index == LowerBound(n.keys, k) && found == Has(n.keys, k)
    ensures var n := g.pages[stack[|stack| - 1]];
            var i := if found then index + 1 else index;
            i < |n.children| && Down(g, k, stack + [n.children[i]])
  {
    hide Down, LowerBound, Has, Inv, IsInner;
    DownStep(g, k, stack);
    Separators(g, k, stack);
  }

  lemma OnTheWayDown(g: Shape, k: Key, stack: seq<PageId>)
    requires Down(g, k, stack)
    ensures stack != [] && stack[0] == g.root && PathOf(g.info, stack) && stack[|stack| - 1] in g.pages
            && stack[|stack| - 1] in g.info
    ensures InRange(k, g.info[stack[|stack| - 1]])
    ensures |stack| > 1 ==> g.info[stack[|stack| - 1]].level < g.info[stack[|stack| - 2]].level
  {
  }

  lemma DownEnd(g: Shape, k: Key, stack: seq<PageId>)
    requires Inv(g) && Down(g, k, stack) && g.pages[stack[|stack| - 1]].Leaf?
    ensures Descends(g.pages, g.root, k, stack) && |stack| == g.info[g.root].level + 1
    ensures LeafOk(g.pages[stack[|stack| - 1]], g.info[stack[|stack| - 1]])
    ensures Above(g.pages, stack)
  {
    NodeFacts(g, stack[|stack| - 1]);
    hide Inv, StepsTo, InRange, Sorted;
  }

  /** The pages above the leaf are internal, hence not the leaf. */
  predicate Above(pages: map<PageId, Node>, stack: seq<PageId>)
  {
    stack != [] &&
    forall i :: 0 <= i < |stack| - 1 ==> stack[i] in pages && IsInner(pages[stack[i]]) && stack[i] != stack[|stack| - 1]
  }

  class BPlusTree {
    var pages: map<PageId, Node>
    var root: Option<PageId>
    var numPages: nat
    ghost var info: map<PageId, Info>
    ghost var contents: map<Key, Value>

    ghost function Tree(pend: Pending): Shape
      requires root.Some?
      reads this
    {
      Shape(pages, root.value, info, pend)
    }

    /** The tree laws with a split (or none) still travelling upwards. */
    ghost predicate ValidWith(pend: Pending)
      reads this
    {
      && root.Some?
      && Domains(Tree(pend))
      && Inv(Tree(pend))
      && Holds(Tree(pend), contents)
      && AllFit(pages)
      && (forall p :: p in pages ==> p < numPages)
    }

    ghost predicate Valid()
      reads this
    {
      if root.None? then pages == map[] && contents == map[] else ValidWith(NoSplit)
    }

    /** The tree as a value. */
    ghost function Whole(): (g: Option<Shape>)
      requires Valid()
      reads this
      ensures TreeWith(g, contents)
    {
      if root.None? then None else Some(Tree(NoSplit))
    }

    /** Number of pages on every root-to-leaf path. */
    ghost function Depth(): nat
      reads this
    {
      if root.Some? && root.value in info then info[root.value].level + 1 else 0
    }

    constructor ()
      ensures Valid() && contents == map[] && root == None
    {
      pages, root, numPages := map[], None, 2;
      info, contents := map[], map[];
    }

    /** A tree over pages that already hold one. */
    constructor Over(pages: map<PageId, Node>, root: Option<PageId>, numPages: nat, ghost info: map<PageId, Info>,
                     ghost contents: map<Key, Value>)
      requires if root.None? then pages == map[] && contents == map[]
               else var g := Shape(pages, root.value, info, NoSplit); Domains(g) && Inv(g) && Holds(g, contents)
      requires AllFit(pages) && forall p :: p in pages ==> p < numPages
      ensures Valid() && this.contents == contents && this.pages == pages && this.root == root
    {
      this.pages, this.root, this.numPages := pages, root, numPages;
      this.info, this.contents := info, contents;
    }

    /** The descent: child by child to the leaf whose range holds the key. A page is let
        go as soon as the next is held. */
    method Descend(key: Key) returns (leaf: PageId, ghost held: set<PageId>)
      requires Valid() && root.Some?
      ensures Reaches(leaf, key) && |held| <= 2 && leaf in held
    {
      hide Inv, Holds, LeafOk, Down, IsInner, AllFit, LowerBound, Has, Descends;
      leaf := root.value;
      ghost var stack := [leaf];
      held := {leaf};
      ghost var g := Tree(NoSplit);
      DownStart(g, key);
      OnTheWayDown(g, key, stack);
      while pages[leaf].Internal?
        invariant Down(g, key, stack) && stack != [] && stack[|stack| - 1] == leaf && leaf in pages && leaf in info
        invariant |held| <= 2 && leaf in held
        decreases info[leaf].level
      {
        Separators(g, key, stack);
        var index, found := FindKeyIndex(pages[leaf].keys, key);
        DownTo(g, key, stack, index, found);
        var child := pages[leaf].children[if found then index + 1 else index];
        held := {leaf, child}; // the child is latched, then its parent let go
        stack := stack + [child];
        leaf := child;
        OnTheWayDown(g, key, stack);
      }
      DownEnd(g, key, stack);
      OnTheWayDown(g, key, stack);
      assert EndsAt(pages, root.value, key, stack, leaf);
    }

    /** A search for `key` ends at `leaf`, and that leaf's range holds it. */
    ghost predicate Reaches(leaf: PageId, key: Key)
      reads this
    {
      && leaf in pages && leaf in info && pages[leaf].Leaf? && InRange(key, info[leaf])
         && LeafOk(pages[leaf], info[leaf])
      && root.Some? && exists stack :: EndsAt(pages, root.value, key, stack, leaf)
    }

    /** The public descent: none in an empty tree. */
    method FindLeaf(key: Key) returns (leaf: Option<PageId>, ghost held: set<PageId>)
      requires Valid()
      ensures leaf.None? <==> root.None?
      ensures leaf.Some? ==> Reaches(leaf.value, key) && leaf.value in held
      ensures |held| <= 2
    {
      hide Reaches;
      if root.None? {
        return None, {};
      }
      var at;
      at, held := Descend(key);
      return Some(at), held;
    }

    method Get(key: Key) returns (r: Option<Value>)
      requires Valid()
      ensures r == Lookup(contents, key)
    {
      hide Inv, Holds, Descends;
      var at, _ := FindLeaf(key);
      if at.None? {
        return None;
      }
      var leaf := at.value;
      var index, found := FindKeyIndex(pages[leaf].keys, key);
      LeafDecides(Tree(NoSplit), contents, leaf, key);
      r := if found then Some(pages[leaf].vals[index]) else None;
    }

    /** Removes the key; a leaf may be left empty and stays in the chain. */
    method Delete(key: Key) returns (status: Status, before: Option<Value>)
      requires Valid()
      modifies this
      ensures Valid() && before == Lookup(old(contents), key)
      ensures status == (if key in old(contents) then Ok else NotFound)
      ensures contents == old(contents) - {key}
      ensures pages.Keys == old(pages.Keys) && root == old(root) && numPages == old(numPages) && info == old(info)
      ensures AllSmall(old(pages)) ==> AllSmall(pages)
    {
      hide Inv, Holds, Fits, NodeSmall, AllFit, AllSmall, Descends;
      var at, _ := FindLeaf(key);
      if at.None? {
        return NotFound, None;
      }
      var leaf := at.value;
      var index, found := FindKeyIndex(pages[leaf].keys, key);
      ghost var g := Tree(NoSplit);
      LeafDecides(g, contents, leaf, key);
      if !found {
        return NotFound, None;
      }
      before := Some(pages[leaf].vals[index]);
      status := Ok;
      EraseHolds(g, contents, leaf, key);
      EraseFits(pages[leaf], key);
      OnePage(pages, leaf, LeafErase(pages[leaf], key));
      pages := pages[leaf := LeafErase(pages[leaf], key)];
      contents := contents - {key};
      assert Tree(NoSplit) == WithNode(g, leaf, pages[leaf]);
    }

    /** A leaf write that fits changes one page and one key. */
    method WriteLeaf(leaf: PageId, key: Key, value: Value, ghost pend: Pending)
      requires ValidWith(pend) && leaf in pages && leaf in info && pages[leaf].Leaf?
      requires LeafOk(pages[leaf], info[leaf]) && InRange(key, info[leaf])
      requires Fits(LeafWrite(pages[leaf], key, value))
      modifies this
      ensures ValidWith(pend) && contents == old(contents)[key := value]
      ensures pages == old(pages)[leaf := LeafWrite(old(pages[leaf]), key, value)]
      ensures root == old(root) && numPages == old(numPages) && info == old(info) && pages.Keys == old(pages.Keys)
      ensures AllSmall(old(pages)) && SmallRecord(key, value) ==> AllSmall(pages)
    {
      hide Inv, Holds, Fits, NodeSmall, AllFit, AllSmall;
      ghost var g := Tree(pend);
      WriteHolds(g, contents, leaf, key, value);
      WriteSmall(pages[leaf], key, value);
      OnePage(pages, leaf, LeafWrite(pages[leaf], key, value));
      pages := pages[leaf := LeafWrite(pages[leaf], key, value)];
      contents := contents[key := value];
      assert Tree(pend) == WithNode(g, leaf, pages[leaf]);
    }

    /** Oversized records are rejected before anything changes; then the optimistic
        descent tries the leaf, and only a write that cannot fit goes pessimistic. */
    method Put(key: Key, value: Value) returns (status: Status, before: Option<Value>, ghost held: set<PageId>)
      requires Valid()
      modifies this
      ensures status == Ok || status == InvalidArgument || status == Poisoned
      ensures status == InvalidArgument <==> !Holdable(key, value)
      ensures status == InvalidArgument ==> Valid() && contents == old(contents) && pages == old(pages)
      ensures status == Poisoned <==>
              Holdable(key, value) && PutOverflows(old(pages), old(root), key, value)
      ensures status == Ok ==>
              Valid() && contents == old(contents)[key := value] && before == Lookup(old(contents), key)
      ensures status == Ok ==> old(pages.Keys) <= pages.Keys
      ensures SmallRecord(key, value) && AllSmall(old(pages)) ==> status == Ok && AllSmall(pages)
      ensures |held| <= 2 * old(Depth()) + 2 && Untouched(old(pages), pages, held)
    {
      hide Inv, Holds, AllSmall, AllFit, Fits, Overflows, LeafWrite, LeafErase, PutOverflows, Descends;
      HoldableIs(key, value);
      if 4 + |key| + |value| > MAX_LEAF_RECORD {
        return InvalidArgument, None, {};
      }
      var at, last := FindLeaf(key);
      if at.Some? {
        var leaf := at.value;
        var index, found := FindKeyIndex(pages[leaf].keys, key);
        LeafDecides(Tree(NoSplit), contents, leaf, key);
        before := if found then Some(pages[leaf].vals[index]) else None;
        if Fits(LeafWrite(pages[leaf], key, value)) {
          FitsThere(leaf, key, value);
          WriteLeaf(leaf, key, value, NoSplit);
          return Ok, before, last;
        }
      }
      status, before, held := PutPessimistic(key, value);
    }

    /** A write that fits its leaf overflows nothing. */
    lemma FitsThere(leaf: PageId, key: Key, value: Value)
      requires ValidWith(NoSplit) && leaf in pages && leaf in info && pages[leaf].Leaf?
               && LeafOk(pages[leaf], info[leaf])
      requires exists stack :: EndsAt(pages, root.value, key, stack, leaf)
      requires Fits(LeafWrite(pages[leaf], key, value))
      ensures !PutOverflows(pages, root, key, value)
    {
      hide Inv, Holds, AllFit, LeafWrite, LeafErase, CarryFits, LeafHalfHasRoom, PutOverflows;
      var stack :| EndsAt(pages, root.value, key, stack, leaf);
      WriteNeeds(pages[leaf], info[leaf], key, value);
      OverflowsThere(pages, root.value, key, value, stack);
    }

    /** The root-to-leaf path, every page held. */
    method DescendPath(key: Key) returns (stack: seq<PageId>)
      requires Valid() && root.Some?
      ensures OnPath(stack) && Descends(pages, root.value, key, stack)
      ensures var leaf := stack[|stack| - 1];
              leaf in pages && pages[leaf].Leaf? && InRange(key, info[leaf]) && LeafOk(pages[leaf], info[leaf])
    {
      hide Inv, Holds, LeafOk, Down, IsInner, AllFit, LowerBound, Has;
      ghost var g := Tree(NoSplit);
      var current := root.value;
      stack := [current];
      DownStart(g, key);
      OnTheWayDown(g, key, stack);
      while pages[current].Internal?
        invariant Down(g, key, stack) && stack != [] && stack[|stack| - 1] == current && current in pages
                  && current in info
        decreases info[current].level
      {
        Separators(g, key, stack);
        var index, found := FindKeyIndex(pages[current].keys, key);
        DownTo(g, key, stack, index, found);
        var child := pages[current].children[if found then index + 1 else index];
        stack := stack + [child];
        OnTheWayDown(g, key, stack);
        current := child;
      }
      DownEnd(g, key, stack);
      OnTheWayDown(g, key, stack);
    }

    /** Consecutive entries are parent and child, starting at the root. */
    ghost predicate Path(stack: seq<PageId>)
      reads this
    {
      stack != [] && root == Some(stack[0]) && PathOf(info, stack)
    }

    /** The path a pessimistic Put holds: internal pages down to a leaf. */
    ghost predicate OnPath(stack: seq<PageId>)
      reads this
    {
      Path(stack) && |stack| == Depth() && Above(pages, stack)
    }

    /** Case 1 of the pessimistic Put: the first leaf becomes the root. */
    method PutEmpty(key: Key, value: Value)
      requires Valid() && root.None? && 4 + |key| + |value| <= MAX_LEAF_RECORD
      modifies this
      ensures Valid() && contents == map[key := value] && root == Some(old(numPages))
      ensures pages == map[old(numPages) := Leaf([key], [value], None, None)]
      ensures SmallRecord(key, value) ==> AllSmall(pages)
    {
      var p := numPages;
      numPages := numPages + 1;
      var node := Leaf([key], [value], None, None);
      LeafCostOne(key, value);
      pages := map[p := node];
      root := Some(p);
      info := map[p := Info([], None, 0, p)];
      contents := map[key := value];
      FirstLeafInv(p, key, value);
    }

    method PutPessimistic(key: Key, value: Value)
      returns (status: Status, before: Option<Value>, ghost held: set<PageId>)
      requires Valid() && 4 + |key| + |value| <= MAX_LEAF_RECORD
      modifies this
      ensures status == Ok || status == Poisoned
      ensures status == Poisoned <==> PutOverflows(old(pages), old(root), key, value)
      ensures status == Ok ==>
              Valid() && contents == old(contents)[key := value] && before == Lookup(old(contents), key)
      ensures status == Ok ==> old(pages.Keys) <= pages.Keys
      ensures SmallRecord(key, value) && AllSmall(old(pages)) ==> status == Ok && AllSmall(pages)
      ensures |held| <= 2 * old(Depth()) + 2 && Untouched(old(pages), pages, held)
    {
      hide Inv, Holds, AllFit, AllSmall, Fits, Overflows, StepsTo, LeafOk, IsInner, PathOf, Untouched, Above;
      if root.None? {
        PutEmpty(key, value);
        WriteTouches(map[], old(numPages), Leaf([key], [value], None, None), {old(numPages)});
        return Ok, None, {old(numPages)};
      }
      var stack := DescendPath(key);
      LeafPairs(pages[stack[|stack| - 1]], info[stack[|stack| - 1]]);
      OverflowsThere(pages, root.value, key, value, stack);
      hide PutOverflows, Descends;
      status, before, held := PutOnPath(stack, key, value);
    }

    /** The rest of the pessimistic Put, with the path in hand. */
    method PutOnPath(stack: seq<PageId>, key: Key, value: Value)
      returns (status: Status, before: Option<Value>, ghost held: set<PageId>)
      requires ValidWith(NoSplit) && OnPath(stack) && 4 + |key| + |value| <= MAX_LEAF_RECORD
      requires var leaf := stack[|stack| - 1];
               leaf in pages && pages[leaf].Leaf? && InRange(key, info[leaf]) && LeafOk(pages[leaf], info[leaf])
      modifies this
      ensures status == Ok || status == Poisoned
      ensures |old(pages[stack[|stack| - 1]].keys)| == |old(pages[stack[|stack| - 1]].vals)|
      ensures status == Poisoned <==>
              Overflows(old(pages), stack[..|stack| - 1], old(pages[stack[|stack| - 1]]), key, value)
      ensures status == Ok ==>
              ValidWith(NoSplit) && contents == old(contents)[key := value] && before == Lookup(old(contents), key)
      ensures status == Ok ==> old(pages.Keys) <= pages.Keys
      ensures SmallRecord(key, value) && AllSmall(old(pages)) ==> status == Ok && AllSmall(pages)
      ensures |held| <= 2 * |stack| + 2 && Untouched(old(pages), pages, held)
    {
      hide Inv, Holds, AllFit, AllSmall, LeafWrite, LeafErase, Fits, Overflows, LeafOk, IsInner, PathOf, Untouched;
      var leaf := stack[|stack| - 1];
      held := PagesOf(stack);
      ghost var n := pages[leaf];
      LeafDecides(Tree(NoSplit), contents, leaf, key);
      LeafPairs(n, info[leaf]);
      LowerBoundCorrect(n.keys, key);
      var index, found := FindKeyIndex(pages[leaf].keys, key);
      before := if found then Some(pages[leaf].vals[index]) else None;
      if found {
        if Fits(LeafWrite(pages[leaf], key, value)) {
          RoomThere(pages, stack[..|stack| - 1], n, info[leaf], key, value);
          WriteTouches(pages, leaf, LeafWrite(n, key, value), held);
          WriteLeaf(leaf, key, value, NoSplit);
          return Ok, before, held;
        }
        // The grown value no longer fits: remove the old record and reinsert.
        EraseInLeaf(leaf, key);
      }
      WriteAfterErase(old(contents), key, value);
      status, held := PutAbsent(stack, key, value, old(pages), held, info[leaf]);
    }

    /** The key is not, or no longer, in the leaf: insert it, splitting if need be. */
    method PutAbsent(stack: seq<PageId>, key: Key, value: Value, ghost start: map<PageId, Node>,
        ghost before: set<PageId>, ghost r: Info)
      returns (status: Status, ghost held: set<PageId>)
      requires ValidWith(NoSplit) && OnPath(stack) && 4 + |key| + |value| <= MAX_LEAF_RECORD
      requires var leaf := stack[|stack| - 1];
               && leaf in pages && pages[leaf].Leaf? && InRange(key, info[leaf]) && LeafOk(pages[leaf], info[leaf])
                  && key !in pages[leaf].keys
               && leaf in start && start[leaf].Leaf? && LeafOk(start[leaf], r)
               && (pages == start || pages == start[leaf := LeafErase(start[leaf], key)])
      requires before == PagesOf(stack)
      modifies this
      ensures status == Ok || status == Poisoned
      ensures |start[stack[|stack| - 1]].keys| == |start[stack[|stack| - 1]].vals|
      ensures status == Poisoned <==> Overflows(start, stack[..|stack| - 1], start[stack[|stack| - 1]], key, value)
      ensures status == Ok ==> ValidWith(NoSplit) && contents == old(contents)[key := value]
      ensures status == Ok ==> start.Keys <= pages.Keys
      ensures SmallRecord(key, value) && AllSmall(old(pages)) ==> status == Ok && AllSmall(pages)
      ensures |held| <= 2 * |stack| + 2 && Untouched(start, pages, held)
    {
      hide Inv, Holds, AllFit, AllSmall, LeafWrite, LeafErase, Fits, Overflows, LeafOk, IsInner, PathOf, Untouched;
      var leaf := stack[|stack| - 1];
      held := before;
      ghost var path := stack[..|stack| - 1];
      assert forall i :: 0 <= i < |path| ==> path[i] == stack[i];
      ErasedSame(start, pages, path, leaf, r, key, value);
      ghost var now := pages;
      assert Untouched(start, now, held) by {
        Unchanged(start, held);
        WriteTouches(start, leaf, LeafErase(start[leaf], key), held);
      }
      if Fits(LeafWrite(pages[leaf], key, value)) {
        RoomThere(pages, path, pages[leaf], info[leaf], key, value);
        TouchMore(start, now, leaf, LeafWrite(now[leaf], key, value), held);
        WriteLeaf(leaf, key, value, NoSplit);
        return Ok, held;
      }
      ghost var more;
      status, more := SplitAndInsert(stack, key, value);
      UntouchedChain(start, now, pages, held, more);
      held := more;
    }

    method EraseInLeaf(leaf: PageId, key: Key)
      requires ValidWith(NoSplit) && leaf in pages && leaf in info && pages[leaf].Leaf?
      requires LeafOk(pages[leaf], info[leaf]) && InRange(key, info[leaf])
      modifies this
      ensures ValidWith(NoSplit) && contents == old(contents) - {key}
      ensures pages == old(pages)[leaf := LeafErase(old(pages[leaf]), key)]
      ensures LeafOk(pages[leaf], info[leaf]) && key !in pages[leaf].keys
      ensures root == old(root) && numPages == old(numPages) && info == old(info)
      ensures AllSmall(old(pages)) ==> AllSmall(pages)
    {
      hide Inv, Holds, Fits, NodeSmall, AllFit, AllSmall;
      ghost var g := Tree(NoSplit);
      EraseHolds(g, contents, leaf, key);
      EraseFits(pages[leaf], key);
      OnePage(pages, leaf, LeafErase(pages[leaf], key));
      LeafEraseOk(pages[leaf], info[leaf], key);
      pages := pages[leaf := LeafErase(pages[leaf], key)];
      contents := contents - {key};
      assert Tree(NoSplit) == WithNode(g, leaf, pages[leaf]);
    }

    /** `SplitLeaf` proper: the upper half by count moves to a added page. */
    method SplitLeaf(p: PageId) returns (r: PageId, sep: Key)
      requires ValidWith(NoSplit) && p in pages && p in info && pages[p].Leaf? && LeafOk(pages[p], info[p])
      requires pages[p].keys != []
      modifies this
      ensures r == old(numPages) && numPages == r + 1 && r !in old(pages)
      ensures sep == old(pages[p].keys[|pages[p].keys| / 2])
      ensures pages.Keys == old(pages.Keys) + {r} && root == old(root) && contents == old(contents)
      ensures old(pages[p].next).Some? ==> old(pages[p].next).value in old(pages)
      ensures pages == SplitLeafPages(old(pages), p, r)
      ensures info == CutInfo(old(info), p, r, sep)
      ensures pages[p] == LeftLeaf(old(pages[p]), |old(pages[p].keys)| / 2, r)
      ensures pages[r] == RightLeaf(old(pages[p]), |old(pages[p].keys)| / 2, p)
      ensures Less(old(info[p]).lo, sep) ==> ValidWith(Split(p, r))
      ensures AllSmall(old(pages)) ==> AllSmall(pages)
    {
      hide Inv, Holds, PageOk, AllFit, AllSmall, LeafOk;
      ghost var g := Tree(NoSplit);
      CanSplit(g, p, numPages);
      r := numPages;
      numPages := numPages + 1;
      sep := pages[p].keys[|pages[p].keys| / 2];
      SplitFits(pages, p, r);
      pages := SplitLeafPages(pages, p, r);
      info := CutInfo(info, p, r, sep);
      if Less(g.info[p].lo, sep) {
        SplitLeafInv(g, p, r);
        SplitLeafHolds(g, p, r, contents);
        assert Tree(Split(p, r)) == AfterSplitLeaf(g, p, r);
      }
    }

    /** The split and the insert that follows it: into the half the record belongs to, if
        it fits there. */
    method SplitAndPlace(leaf: PageId, key: Key, value: Value) returns (ok: bool, added: PageId, sep: Key)
      requires ValidWith(NoSplit) && leaf in pages && pages[leaf].Leaf? && InRange(key, info[leaf])
               && LeafOk(pages[leaf], info[leaf])
      requires pages[leaf].keys != [] && key !in pages[leaf].keys && !Fits(LeafWrite(pages[leaf], key, value))
      modifies this
      ensures added == old(numPages) && sep == old(pages[leaf].keys[|pages[leaf].keys| / 2]) && root == old(root)
      ensures info == CutInfo(old(info), leaf, added, sep) && added in info && sep == info[added].lo
      ensures old(pages[leaf].next).Some? ==> old(pages[leaf].next).value in old(pages)
      ensures |old(pages[leaf].keys)| == |old(pages[leaf].vals)|
      ensures ok <==> LeafHalfHasRoom(old(pages[leaf]), key, value)
      ensures !ok ==> pages == SplitLeafPages(old(pages), leaf, added)
      ensures ok ==>
                && ValidWith(Split(leaf, added)) && contents == old(contents)[key := value]
                   && old(pages.Keys) <= pages.Keys
                && (exists w :: pages == Placed(old(pages), leaf, added, key, sep, w))
      ensures SmallRecord(key, value) && AllSmall(old(pages)) ==> AllSmall(pages)
    {
      hide Inv, Holds, LeafWrite, LeafOk, AllFit, AllSmall, Fits, NodeSmall, LeafHalfHasRoom, SplitLeafPages, Less,
           LeftLeaf, RightLeaf;
      ghost var n, r := pages[leaf], info[leaf];
      LeafPairs(n, r);
      SplitPoint(n, r, key, value, leaf);
      HalfNeeds(n, r, key, value, leaf, numPages);
      added, sep := SplitLeaf(leaf);
      HalfCovers(n, r, key, leaf, added);
      HalvesAreLeaves(n, leaf, added);
      var target := if Less(key, sep) then leaf else added;
      ok := Fits(LeafWrite(pages[target], key, value));
      if ok {
        WriteLeaf(target, key, value, Split(leaf, added));
        assert pages == Placed(old(pages), leaf, added, key, sep, pages[target]);
      }
    }

    method SplitAndInsert(stack: seq<PageId>, key: Key, value: Value) returns (status: Status, ghost held: set<PageId>)
      requires ValidWith(NoSplit) && OnPath(stack)
      requires 4 + |key| + |value| <= MAX_LEAF_RECORD
      requires var leaf := stack[|stack| - 1];
               && leaf in pages && pages[leaf].Leaf? && InRange(key, info[leaf]) && LeafOk(pages[leaf], info[leaf])
               && key !in pages[leaf].keys && !Fits(LeafWrite(pages[leaf], key, value))
      modifies this
      ensures status == Ok || status == Poisoned
      ensures status == Poisoned <==>
              Overflows(old(pages), stack[..|stack| - 1], old(pages[stack[|stack| - 1]]), key, value)
      ensures status == Ok ==> ValidWith(NoSplit) && contents == old(contents)[key := value]
      ensures status == Ok ==> old(pages.Keys) <= pages.Keys
      ensures SmallRecord(key, value) && AllSmall(old(pages)) ==> status == Ok && AllSmall(pages)
      ensures |held| <= 2 * |stack| + 2 && (forall p :: p in stack ==> p in held) && Untouched(old(pages), pages, held)
    {
      hide Inv, Holds, LeafWrite, LeafOk, AllFit, AllSmall, Fits, NodeSmall, Overflows, LeafHalfHasRoom, CarryFits,
           IsInner, Untouched, SplitLeafPages, CutInfo, Placed, PathOf;
      var leaf := stack[|stack| - 1];
      ghost var n, r := pages[leaf], info[leaf];
      LeafPairs(n, r);
      FullLeafIsNotEmpty(n, r, key, value);
      Halving(pages, stack[..|stack| - 1], n, r, key, value);
      NextLeaf(Tree(NoSplit), leaf);
      if SmallRecord(key, value) && AllSmall(pages) {
        OnePage(pages, leaf, n);
        SmallLeafHalf(n, r, key, value);
      }
      ghost var above := info;
      var ok, added, sep := SplitAndPlace(leaf, key, value);
      held := PagesOf(stack) + {added} + (if n.next.Some? then {n.next.value} else {});
      SplitTouches(old(pages), leaf, added, held);
      if !ok {
        return Poisoned, held; // "Failed to insert after split"
      }
      ghost var w :| pages == Placed(old(pages), leaf, added, key, sep, w);
      ghost var placed := pages;
      PlacedTouches(old(pages), stack, leaf, added, key, sep, w, held);
      PathCut(above, leaf, added, sep, stack);
      ghost var more;
      status, more := Propagate(stack, added, sep, held);
      UntouchedChain(old(pages), placed, pages, held, more);
      held := more;
    }

    /** The propagation loop: hand the separator to the parent; a full parent splits
        too and passes its middle key on; past the root a new root is made. */
    method Propagate(stack: seq<PageId>, added: PageId, sep: Key, ghost before: set<PageId>)
      returns (status: Status, ghost held: set<PageId>)
      requires Path(stack) && ValidWith(Split(stack[|stack| - 1], added)) && sep == info[added].lo
      requires forall i :: 0 <= i < |stack| - 1 ==> stack[i] in pages
      requires forall p :: p in stack ==> p in before
      modifies this
      ensures status == Ok || status == Poisoned
      ensures status == Poisoned <==> !CarryFits(old(pages), stack[..|stack| - 1], sep)
      ensures status == Ok ==> ValidWith(NoSplit) && contents == old(contents)
      ensures status == Ok ==> old(pages.Keys) <= pages.Keys
      ensures AllSmall(old(pages)) && |sep| <= SMALL_KEY ==> status == Ok && AllSmall(pages)
      ensures before <= held && |held| <= |before| + |stack| && Untouched(old(pages), pages, held)
    {
      hide Inv, Holds, AllFit, AllSmall, PageOk, PathOf, OnTheWay, CarryFits, HasRoom, HalfHasRoomFor, Untouched,
           SamePathAbove, IsInner;
      var depth := |stack| - 1;
      assert stack[..depth + 1] == stack;
      var right, keyToInsert := added, sep;
      held := before;
      StartsOut(pages, stack, sep);
      assert Untouched(old(pages), pages, held) by { Unchanged(pages, held); }
      while depth > 0
        invariant 0 <= depth < |stack| && Path(stack[..depth + 1])
        invariant ValidWith(Split(stack[depth], right)) && keyToInsert == info[right].lo
        invariant contents == old(contents) && old(pages.Keys) <= pages.Keys
        invariant OnTheWay(old(pages), pages, stack, depth, sep, keyToInsert)
        invariant AllSmall(old(pages)) && |sep| <= SMALL_KEY ==> AllSmall(pages) && |keyToInsert| <= SMALL_KEY
        invariant before <= held && |held| <= |before| + (|stack| - 1 - depth) && Untouched(old(pages), pages, held)
      {
        var done, ok;
        done, ok, right, keyToInsert, held := HandUp(stack, depth, right, keyToInsert, held, old(pages), sep);
        if done {
          return Ok, held;
        }
        if !ok {
          return Poisoned, held; // "insert into split internal"
        }
        depth := depth - 1;
      }
      AtTheTop(old(pages), pages, stack, sep, keyToInsert);
      ghost var climbed := pages;
      var grown, top := CreateNewRoot(keyToInsert, stack[0], right);
      if grown { WriteTouches(climbed, top, pages[top], held + {top}); } else { Unchanged(pages, held + {top}); }
      UntouchedChain(old(pages), climbed, pages, held, held + {top});
      return (if grown then Ok else Poisoned), held + {top};
    }

    /** One turn of the loop: the parent absorbs the separator, or splits around it. */
    method HandUp(stack: seq<PageId>, depth: nat, right: PageId, key: Key, ghost held: set<PageId>,
        ghost start: map<PageId, Node>, ghost sep: Key)
      returns (done: bool, ok: bool, newRight: PageId, newKey: Key, ghost more: set<PageId>)
      requires 0 < depth < |stack| && Path(stack[..depth + 1]) && ValidWith(Split(stack[depth], right))
               && key == info[right].lo
      requires OnTheWay(start, pages, stack, depth, sep, key) && Untouched(start, pages, held)
               && forall p :: p in stack ==> p in held
      modifies this
      ensures contents == old(contents) && held <= more && |more| <= |held| + 1 && Untouched(start, pages, more)
      ensures done ==>
              ValidWith(NoSplit) && CarryFits(start, stack[..|stack| - 1], sep) && old(pages.Keys) <= pages.Keys
      ensures !done && !ok ==> !CarryFits(start, stack[..|stack| - 1], sep)
      ensures !done && ok ==>
                && Path(stack[..depth]) && ValidWith(Split(stack[depth - 1], newRight)) && newKey == info[newRight].lo
                && OnTheWay(start, pages, stack, depth - 1, sep, newKey) && old(pages.Keys) <= pages.Keys
      ensures AllSmall(old(pages)) && |key| <= SMALL_KEY ==> (done || ok) && AllSmall(pages) && |newKey| <= SMALL_KEY
    {
      hide Inv, Holds, AllFit, AllSmall, PageOk, OnTheWay, CarryFits, HasRoom, HalfHasRoomFor, Untouched, SamePathAbove,
           IsInner, InsertChild, HalvesWith, PathOf;
      var parent := stack[depth - 1];
      assert stack[..depth + 1][depth - 1] == parent && stack[..depth + 1][depth] == stack[depth];
      ghost var above, was := info, pages;
      ParentOfPending(stack[..depth + 1], right);
      more, newRight, newKey := held, right, key;
      Turn(start, was, stack, depth, sep, key);
      assert parent in stack && parent in held;
      done := Absorb(parent, key, stack[depth], right);
      if done {
        ok := true;
        WriteTouches(was, parent, pages[parent], held);
        UntouchedChain(start, was, pages, held, held);
        return;
      }
      ok, newRight, newKey := SplitInternal(parent, key, stack[depth], right);
      more := held + {newRight};
      if ok {
        TwoTouched(was, parent, pages[parent], newRight, pages[newRight], more);
        assert stack[..depth] == stack[..depth + 1][..depth];
        PathSurvives(above, info, stack[..depth + 1], depth);
        Climbed(start, was, pages, above, stack, depth, sep, key, pages[parent], newRight, pages[newRight]);
      } else {
        Unchanged(pages, more);
      }
      UntouchedChain(start, was, pages, held, more);
    }

    /** The pending page's parent is the next page up the path. */
    lemma ParentOfPending(stack: seq<PageId>, right: PageId)
      requires |stack| > 1 && Path(stack) && ValidWith(Split(stack[|stack| - 1], right))
      ensures var left := stack[|stack| - 1]; var parent := stack[|stack| - 2];
              && left != root.value && info[left].parent == parent
              && parent in pages && parent in info && IsInner(pages[parent])
    {
      var left := stack[|stack| - 1];
      var g := Tree(Split(left, right));
      PathLevels(info, stack, 0, |stack| - 1);
      assert PageOk(g, left) && PageOk(g, stack[|stack| - 2]);
    }

    /** `InsertInternalAfterSplit` on a held parent: false, with nothing changed, when
        the separator does not fit. */
    method Absorb(parent: PageId, sep: Key, left: PageId, right: PageId) returns (ok: bool)
      requires ValidWith(Split(left, right)) && left != root.value
      requires info[left].parent == parent && sep == info[right].lo
      requires parent in pages && parent in info && IsInner(pages[parent])
      modifies this
      ensures root == old(root) && numPages == old(numPages) && contents == old(contents)
      ensures pages.Keys == old(pages.Keys)
      ensures ok ==> ValidWith(NoSplit)
      ensures AllSmall(old(pages)) && |sep| <= SMALL_KEY ==> AllSmall(pages)
      ensures ok <==> HasRoom(old(pages[parent]), sep)
      ensures ok ==> pages == old(pages)[parent := InsertChild(old(pages[parent]),
              LowerBound(old(pages[parent]).keys, sep), sep, left, right)]
      ensures !ok ==> pages == old(pages) && info == old(info)
    {
      hide Inv, Holds, PageOk, CanAbsorb, AllFit, AllSmall, NodeSmall;
      OnePage(pages, parent, pages[parent]);
      Basics(Tree(Split(left, right)));
      ghost var g := Tree(Split(left, right));
      var index, found := FindKeyIndex(pages[parent].keys, sep);
      var node := InsertChild(pages[parent], index, sep, left, right);
      InnerInsertCost(pages[parent], index, sep, left, right);
      if !Fits(node) {
        return false;
      }
      AbsorbStep(g, contents);
      InsertChildSmall(pages[parent], index, sep, left, right);
      OnePage(pages, parent, node);
      pages := pages[parent := node];
      info := info[right := info[right].(parent := parent)];
      assert Tree(NoSplit) == AfterAbsorb(g);
      return true;
    }

    /** The parent is full: `SplitInternal` cuts it at its middle separator, which
        moves up, and the pending separator goes into the half it belongs to. */
    method SplitInternal(parent: PageId, sep: Key, left: PageId, right: PageId)
        returns (ok: bool, added: PageId, mid: Key)
      requires ValidWith(Split(left, right)) && left != root.value
      requires info[left].parent == parent && sep == info[right].lo
      requires parent in pages && parent in info && IsInner(pages[parent])
      requires !HasRoom(pages[parent], sep)
      modifies this
      ensures root == old(root) && contents == old(contents) && added == old(numPages)
      ensures ok <==> HalfHasRoomFor(old(pages[parent]), sep)
      ensures ok ==> ValidWith(Split(parent, added)) && mid == info[added].lo
      ensures ok ==> var n := old(pages[parent]);
                     && mid == n.keys[|n.keys| / 2] && added !in old(pages)
                     && var (l, r) := HalvesWith(n, |n.keys| / 2, sep, left, right);
                        pages == old(pages)[parent := l][added := r]
      ensures !ok ==> pages == old(pages)
      ensures ok ==> SamePathAbove(old(info), info, old(info[parent]).level)
      ensures AllSmall(old(pages)) && |sep| <= SMALL_KEY ==> ok && AllSmall(pages) && |mid| <= SMALL_KEY
    {
      hide Inv, Holds, PageOk, CanAbsorb, CanSplitInner, SamePathAbove, HalvesWith, NodeSmall, AfterInnerStep, AllFit,
           AllSmall;
      OnePage(pages, parent, pages[parent]);
      ghost var g := Tree(Split(left, right));
      Basics(g);
      var n := pages[parent];
      added := numPages;
      numPages := numPages + 1;
      if n.keys == [] {
        if |sep| <= SMALL_KEY && NodeSmall(n) {
          SmallInnerFits(n, sep);
        }
        return false, added, []; // no middle key to cut at; the insert below cannot fit either
      }
      var at := |n.keys| / 2;
      mid := n.keys[at];
      if |sep| <= SMALL_KEY && NodeSmall(n) {
        HalvesWithCost(n, at, sep, left, right);
      }
      HalvesNeed(n, sep, left, right);
      var (l, r) := HalvesWith(n, at, sep, left, right);
      if !Fits(l) || !Fits(r) {
        return false, added, mid;
      }
      InnerStep(g, contents, at, added);
      Basics(AfterInnerStep(g, at, added));
      OnePage(pages, parent, l);
      OnePage(pages[parent := l], added, r);
      info := AfterInnerStep(g, at, added).info;
      pages := pages[parent := l][added := r];
      assert Tree(Split(parent, added)) == AfterInnerStep(g, at, added);
      return true, added, mid;
    }

    method CreateNewRoot(sep: Key, left: PageId, right: PageId) returns (ok: bool, added: PageId)
      requires ValidWith(Split(left, right)) && left == root.value && sep == info[right].lo
      modifies this
      ensures contents == old(contents) && old(pages.Keys) <= pages.Keys && added == old(numPages)
      ensures ok <==> InternalRecordCost(sep) <= PAGE_PAYLOAD
      ensures ok ==> ValidWith(NoSplit) && root == Some(added)
      ensures pages == if ok then old(pages)[added := Internal([sep], [left, right])] else old(pages)
      ensures AllSmall(old(pages)) && |sep| <= SMALL_KEY ==> ok && AllSmall(pages)
    {
      hide Inv, Holds, PageOk, CanGrow;
      ghost var g := Tree(Split(left, right));
      Basics(g);
      added := numPages;
      numPages := numPages + 1;
      var node := Internal([sep], [left, right]);
      InternalCostOne(sep);
      if !Fits(node) {
        return false, added; // "Failed to insert split key into new root"
      }
      GrowStep(g, contents, added);
      info := AfterGrow(g, added).info;
      pages := pages[added := node];
      root := Some(added);
      assert Tree(NoSplit) == AfterGrow(g, added);
      return true, added;
    }
  }
}
