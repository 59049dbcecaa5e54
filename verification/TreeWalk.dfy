/** Consequences of the local tree laws for the tree as a whole: every page is
    reached from the root along exactly one path, all leaves at the same depth. */
module TreeWalk {
  import opened Nodes
  import opened TreeShape

  /** A root-to-page walk along child pointers. */
  ghost predicate Walk(g: Shape, path: seq<PageId>)
  {
    && path != []
    && var x := |path| - 1;
       if x == 0 then path[0] == g.root && g.root in g.pages
       else Walk(g, path[..x])
            && path[x - 1] in g.pages && g.pages[path[x - 1]].Internal? && path[x] in g.pages[path[x - 1]].children
  }

  lemma ChildFacts(g: Shape, p: PageId, c: PageId)
    requires Inv(g) && g.pend.NoSplit? && p in g.pages && g.pages[p].Internal? && c in g.pages[p].children
    ensures c in g.pages && g.info[c].parent == p && g.info[c].level + 1 == g.info[p].level && c != g.root
  {
    assert PageOk(g, p);
    var n := g.pages[p];
    var i :| 0 <= i < |n.children| && n.children[i] == c;
    assert Slot(g, p, n.children[i], SlotLo(n, g.info[p].lo, i), SlotHi(n, g.info[p].hi, i));
    assert BelowRoot(g, p);
  }

  /** Every page is reached, and how far down says its level. */
  lemma {:induction false} Reached(g: Shape, p: PageId) returns (path: seq<PageId>)
    requires Inv(g) && g.pend.NoSplit? && p in g.pages
    ensures Walk(g, path) && path[|path| - 1] == p
    decreases g.info[g.root].level - g.info[p].level
  {
    hide Inv;
    Height(g, p);
    if p == g.root {
      path := [p];
    } else {
      var q := g.info[p].parent;
      ChildFacts(g, q, p);
      Height(g, q);
      var up := Reached(g, q);
      path := up + [p];
      assert path[..|path| - 1] == up;
    }
  }

  lemma Height(g: Shape, p: PageId)
    requires Inv(g) && g.pend.NoSplit? && p in g.pages
    ensures Domains(g)
    ensures g.info[p].level <= g.info[g.root].level
    ensures p != g.root ==> g.info[p].parent in g.pages && g.pages[g.info[p].parent].Internal?
                            && p in g.pages[g.info[p].parent].children
  {
    assert BelowRoot(g, p) && PageOk(g, p);
  }

  /** No page is reached twice. */
  lemma {:induction false} WalkUnique(g: Shape, a: seq<PageId>, b: seq<PageId>)
    requires Inv(g) && g.pend.NoSplit? && Walk(g, a) && Walk(g, b) && a[|a| - 1] == b[|b| - 1]
    ensures a == b
    decreases |a|
  {
    hide Inv;
    var (x, y) := (|a| - 1, |b| - 1);
    if x > 0 { ChildFacts(g, a[x - 1], a[x]); }
    if y > 0 { ChildFacts(g, b[y - 1], b[y]); }
    if x > 0 && y > 0 {
      Height(g, a[x]);
      WalkUnique(g, a[..x], b[..y]);
      assert a == a[..x] + [a[x]] && b == b[..y] + [b[y]];
    }
  }

  /** Every root-to-leaf walk has the same length. */
  lemma {:induction false} WalkLength(g: Shape, path: seq<PageId>)
    requires Inv(g) && g.pend.NoSplit? && Walk(g, path)
    ensures var p := path[|path| - 1];
            p in g.pages && p in g.info && g.info[p].level + |path| == g.info[g.root].level + 1
    ensures g.pages[path[|path| - 1]].Leaf? ==> |path| == g.info[g.root].level + 1
    decreases |path|
  {
    hide Inv;
    var x := |path| - 1;
    if x > 0 {
      ChildFacts(g, path[x - 1], path[x]);
      WalkLength(g, path[..x]);
    }
    Height(g, path[x]);
    NodeFacts(g, path[x]);
  }
}
