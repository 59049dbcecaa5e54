/** The latch protocol keeps the tree: at every step of every interleaving each thread's
    leaf is the one whose range holds its key, so each operation acts on one map, all at
    once, at a single step. */
module LatchProof {
  import opened Keys
  import opened Nodes
  import opened TreeShape
  import opened TreeEdits
  import opened TreeSplits
  import opened TreeCapacity
  import opened LatchMachine

  // ------------------------------------------------------------ descending next to a split

  /** While a split is on its way up, every other child still covers its slot. */
  lemma ChildCovers(g: Shape, p: PageId, k: Key)
    requires Inv(g) && p in g.pages && g.pages[p].Internal? && InRange(k, g.info[p])
    requires g.pend.Split? ==> p != g.pend.right && (g.pend.left == g.root || g.info[g.pend.left].parent != p)
    ensures var n := g.pages[p]; var i := ChildIndex(n.keys, k);
            && i < |n.children| && n.children[i] in g.pages && InRange(k, g.info[n.children[i]])
            && g.info[n.children[i]].parent == p && g.info[n.children[i]].level < g.info[p].level
  {
    var n := g.pages[p];
    assert PageOk(g, p) && BelowRoot(g, p);
    var i := ChildIndex(n.keys, k);
    LowerBoundCorrect(n.keys, k);
    assert Slot(g, p, n.children[i], SlotLo(n, g.info[p].lo, i), SlotHi(n, g.info[p].hi, i));
    if i < |n.keys| && Has(n.keys, k) {
      assert Less(n.keys[i - 1], n.keys[i]);
    }
  }

  // ------------------------------------------------------------ assembling the invariant

  /** Fewer latches than before cannot conflict. */
  predicate Lighter(y: Thread, x: Thread) {
    y.owned <= x.owned && y.shared <= x.shared && (y.root == x.root || y.root.None?)
  }

  lemma LighterOk(x: Thread, y: Thread, z: Thread)
    requires Lighter(y, x) && NoConflict(x, z)
    ensures NoConflict(y, z)
  {
  }

  /** Thread `t` becomes `x`, the tree becomes what `s'` says, and everything still fits. */
  lemma Assemble(s: State, m: map<Key, Value>, s': State, m': map<Key, Value>, t: Tid, x: Thread)
    requires LatchInv(s, m) && s'.threads == s.threads[t := x] && TreeOk(s', m') && PendingOwned(s') && ThreadOk(s', x)
    requires forall u {:trigger s.threads[u]} :: u in s.threads && u != t ==>
             ThreadOk(s', s.threads[u]) && NoConflict(x, s.threads[u])
    ensures LatchInv(s', m')
  {
    hide TreeOk, PendingOwned, ThreadOk, NoConflict;
    forall a, b | a in s'.threads && b in s'.threads && a != b ensures NoConflict(s'.threads[a], s'.threads[b]) {
      if a != t && b != t {
        assert NoConflict(s.threads[a], s.threads[b]);
      } else if b == t {
        Symmetric(x, s.threads[a]);
      }
    }
    forall a | a in s'.threads ensures ThreadOk(s', s'.threads[a]) {
      if a != t { assert s'.threads[a] == s.threads[a]; }
    }
  }

  lemma Symmetric(a: Thread, b: Thread)
    ensures NoConflict(a, b) <==> NoConflict(b, a)
  {
  }

  /** With the same tree, a thread's standing does not change. */
  lemma SameTree(s: State, s': State, x: Thread)
    requires s'.tree == s.tree && ThreadOk(s, x)
    ensures ThreadOk(s', x)
  {
    hide InRange, PathOf;
  }

  // ------------------------------------------------------------ steps that leave the tree alone

  /** `t` only moves on, with latches no heavier than its new `x` may have. */
  lemma Moved(s: State, m: map<Key, Value>, s': State, t: Tid, x: Thread)
    requires LatchInv(s, m) && s'.threads == s.threads[t := x] && s'.tree == s.tree && ThreadOk(s', x)
    requires t in s.threads ==> (s.threads[t].pc.Splitting? ==> x.pc.Splitting?)
    requires forall u {:trigger s.threads[u]} :: u in s.threads && u != t ==> NoConflict(x, s.threads[u])
    ensures LatchInv(s', m)
  {
    hide ThreadOk, NoConflict;
    forall u | u in s.threads && u != t ensures ThreadOk(s', s.threads[u]) {
      assert ThreadOk(s, s.threads[u]);
      SameTree(s, s', s.threads[u]);
    }
    assert PendingOwned(s') by {
      if s.tree.Some? && s.tree.value.pend.Split? {
        var u :| u in s.threads && s.threads[u].pc.Splitting?;
        assert u in s'.threads && s'.threads[u].pc.Splitting?;
      }
    }
    assert TreeOk(s', m) by { hide Inv, Holds; }
    hide TreeOk, PendingOwned, LatchInv;
    Assemble(s, m, s', m, t, x);
  }

  lemma Conflicts(s: State, m: map<Key, Value>, t: Tid, u: Tid)
    requires LatchInv(s, m) && t in s.threads && u in s.threads && t != u
    ensures NoConflict(s.threads[t], s.threads[u])
  {
    hide ThreadOk, NoConflict, TreeOk, PendingOwned;
    assert NoConflict(s.threads[t], s.threads[u]);
  }

  /** Moving on with the same latches or fewer. */
  lemma MovedLighter(s: State, m: map<Key, Value>, s': State, t: Tid, x: Thread)
    requires LatchInv(s, m) && t in s.threads && s'.threads == s.threads[t := x] && s'.tree == s.tree && ThreadOk(s', x)
    requires Lighter(x, s.threads[t]) && !s.threads[t].pc.Splitting?
    ensures LatchInv(s', m)
  {
    hide ThreadOk, NoConflict, LatchInv, Lighter;
    forall u | u in s.threads && u != t ensures NoConflict(x, s.threads[u]) {
      Conflicts(s, m, t, u);
      LighterOk(s.threads[t], x, s.threads[u]);
    }
    Moved(s, m, s', t, x);
  }

  /** Moving on with one more page latched. */
  lemma MovedLatched(s: State, m: map<Key, Value>, s': State, t: Tid, p: PageId, pc: Pc)
    requires LatchInv(s, m) && t in s.threads && !s.threads[t].pc.Splitting?
             && MayLatch(s, t, p, PageMode(s.threads[t]))
    requires s'.threads == s.threads[t := Latched(s.threads[t], p).(pc := pc)] && s'.tree == s.tree
    requires ThreadOk(s', Latched(s.threads[t], p).(pc := pc))
    ensures LatchInv(s', m)
  {
    var x := Latched(s.threads[t], p).(pc := pc);
    hide ThreadOk, LatchInv;
    forall u | u in s.threads && u != t ensures NoConflict(x, s.threads[u]) {
      Conflicts(s, m, t, u);
    }
    hide NoConflict;
    Moved(s, m, s', t, x);
  }

  lemma SplitterAlone(s: State, m: map<Key, Value>, t: Tid, u: Tid)
    requires LatchInv(s, m) && t in s.threads && u in s.threads && u != t
    ensures s.threads[t].root.Some? ==> !s.threads[u].pc.Splitting?
  {
    assert ThreadOk(s, s.threads[u]);
    Conflicts(s, m, t, u);
  }

  /** A thread that has the root latch and carries no split excludes any split. */
  lemma NoSplitBeside(s: State, m: map<Key, Value>, t: Tid)
    requires LatchInv(s, m) && t in s.threads && s.threads[t].root.Some? && !s.threads[t].pc.Splitting? && s.tree.Some?
    ensures s.tree.value.pend.NoSplit?
  {
    hide ThreadOk, NoConflict, TreeOk;
    forall u | u in s.threads ensures !s.threads[u].pc.Splitting? {
      if u != t { SplitterAlone(s, m, t, u); }
    }
  }

  lemma StepRootLatch(s: State, m: map<Key, Value>, s': State, step: Step)
    requires LatchInv(s, m) && Next(s, s', step) && (step.Spawn? || step.LatchRoot? || step.FindEmpty?
             || step.UnlatchRoot?)
    ensures LatchInv(s', m)
  {
    var t := step.t;
    if step.Spawn? {
      var x := Thread(step.op, Start, false, None, {}, {}, None);
      hide LatchInv, ThreadOk;
      assert ThreadOk(s', x) by { FreshOk(s', x); }
      Moved(s, m, s', t, x);
    } else {
      var x := s'.threads[t];
      assert ThreadOk(s, s.threads[t]);
      hide LatchInv;
      assert ThreadOk(s', x) by { hide InRange, PathOf; }
      if step.LatchRoot? {
        forall u | u in s.threads && u != t ensures NoConflict(x, s.threads[u]) {
          Conflicts(s, m, t, u);
        }
        hide ThreadOk, NoConflict;
        Moved(s, m, s', t, x);
      } else {
        hide ThreadOk;
        MovedLighter(s, m, s', t, x);
      }
    }
  }

  lemma FreshOk(s: State, x: Thread)
    requires x.pc.Start? && x.root.None? && x.shared == {} && x.owned == {} && !x.full
    ensures ThreadOk(s, x)
  {
  }

  lemma StepEnter(s: State, m: map<Key, Value>, s': State, t: Tid)
    requires LatchInv(s, m) && DoEnter(s, s', t)
    ensures LatchInv(s', m)
  {
    assert ThreadOk(s, s.threads[t]);
    NoSplitBeside(s, m, t);
    var g := s.tree.value;
    var x := s.threads[t];
    RootCovers(g, x.op.key);
    hide LatchInv, Inv;
    var y := Latched(x, g.root).(pc := if x.full then Path([g.root]) else Down(g.root));
    assert ThreadOk(s', y) by { hide InRange; }
    hide ThreadOk, MayLatch;
    MovedLatched(s, m, s', t, g.root, y.pc);
  }

  /** The page a thread stands on is not where another's split is going on. */
  lemma AwayFromSplit(s: State, m: map<Key, Value>, t: Tid, p: PageId)
    requires LatchInv(s, m) && t in s.threads && s.tree.Some? && !s.threads[t].pc.Splitting?
    requires p in s.threads[t].shared || p in s.threads[t].owned
    ensures var g := s.tree.value;
            g.pend.Split? ==>
              g.pend.left in g.info && p != g.pend.right && (g.pend.left == g.root || g.info[g.pend.left].parent != p)
  {
    var g := s.tree.value;
    if g.pend.Split? {
      var u :| u in s.threads && s.threads[u].pc.Splitting?;
      assert ThreadOk(s, s.threads[u]) && NoConflict(s.threads[t], s.threads[u]);
      hide LatchInv, Inv, Holds;
      var stack := s.threads[u].pc.stack;
      if |stack| > 1 {
        assert stack[|stack| - 1] == g.pend.left && stack[|stack| - 2] in s.threads[u].owned;
      }
    }
  }

  lemma StepCoupleDown(s: State, m: map<Key, Value>, s': State, t: Tid)
    requires LatchInv(s, m) && DoCoupleDown(s, s', t)
    ensures LatchInv(s', m)
  {
    var x := s.threads[t];
    var c :| NextChild(s, x.pc.cur, x.op.key, c) && MayLatch(s, t, c, PageMode(x))
      && s' == WithThread(s, t, Latched(x, c).(pc := Down(c)));
    assert ThreadOk(s, x);
    AwayFromSplit(s, m, t, x.pc.cur);
    ChildCovers(s.tree.value, x.pc.cur, x.op.key);
    hide LatchInv, Inv, Holds;
    var y := Latched(x, c).(pc := Down(c));
    assert ThreadOk(s', y) by { hide InRange; }
    hide ThreadOk, MayLatch, NextChild;
    MovedLatched(s, m, s', t, c, Down(c));
  }

  lemma StepDescend(s: State, m: map<Key, Value>, s': State, t: Tid)
    requires LatchInv(s, m) && DoDescend(s, s', t)
    ensures LatchInv(s', m)
  {
    var x := s.threads[t];
    var stack := x.pc.stack;
    var c :| NextChild(s, Last(stack), x.op.key, c) && MayWrite(s, t, c)
      && s' == WithThread(s, t, Latched(x, c).(pc := Path(stack + [c])));
    assert ThreadOk(s, x);
    AwayFromSplit(s, m, t, Last(stack));
    ChildCovers(s.tree.value, Last(stack), x.op.key);
    hide LatchInv, Inv, Holds;
    var y := Latched(x, c).(pc := Path(stack + [c]));
    assert ThreadOk(s', y) by { hide InRange, NextChild; PathGrows(s.tree.value.info, stack, c); }
    hide ThreadOk, NextChild;
    MovedLatched(s, m, s', t, c, y.pc);
  }

  lemma PathGrows(info: map<PageId, Info>, stack: seq<PageId>, c: PageId)
    requires PathOf(info, stack) && stack != [] && c in info
    requires info[c].parent == stack[|stack| - 1] && info[c].level < info[stack[|stack| - 1]].level
    ensures PathOf(info, stack + [c])
  {
  }

  lemma StepLatchNext(s: State, m: map<Key, Value>, s': State, t: Tid)
    requires LatchInv(s, m) && DoLatchNext(s, s', t)
    ensures LatchInv(s', m)
  {
    var x := s'.threads[t];
    assert ThreadOk(s, s.threads[t]);
    hide LatchInv;
    assert ThreadOk(s', x) by { hide InRange, PathOf; }
    forall u | u in s.threads && u != t ensures NoConflict(x, s.threads[u]) {
      Conflicts(s, m, t, u);
    }
    hide ThreadOk, NoConflict, MayWrite;
    Moved(s, m, s', t, x);
  }

  lemma StepLetGo(s: State, m: map<Key, Value>, s': State, step: Step)
    requires LatchInv(s, m) && Next(s, s', step)
    requires step.Unlatch? || step.ReadLeaf? || step.DropLeaf? || step.GiveUp? || step.KeepLeaf?
    ensures LatchInv(s', m)
  {
    var t := step.t;
    assert ThreadOk(s, s.threads[t]);
    hide LatchInv, Fits, LeafWrite, Found;
    assert ThreadOk(s', s'.threads[t]) by { hide InRange, PathOf; }
    hide ThreadOk;
    MovedLighter(s, m, s', t, s'.threads[t]);
  }

  lemma StepRelatch(s: State, m: map<Key, Value>, s': State, t: Tid)
    requires LatchInv(s, m) && DoRelatch(s, s', t)
    ensures LatchInv(s', m)
  {
    var x := s'.threads[t];
    assert ThreadOk(s, s.threads[t]);
    hide LatchInv;
    assert ThreadOk(s', x) by { hide InRange, PathOf; }
    forall u | u in s.threads && u != t ensures NoConflict(x, s.threads[u]) {
      Conflicts(s, m, t, u);
    }
    hide ThreadOk, NoConflict, MayWrite;
    Moved(s, m, s', t, x);
  }

  // ------------------------------------------------------------ writes that fit

  /** A leaf edit does not change where anybody stands. */
  lemma KeepEdit(s: State, s': State, x: Thread, p: PageId, n: Node)
    requires s.tree.Some? && p in s.tree.value.pages && s.tree.value.pages[p].Leaf? && n.Leaf?
    requires s'.tree == Some(WithNode(s.tree.value, p, n)) && ThreadOk(s, x)
    ensures ThreadOk(s', x)
  {
    hide InRange, PathOf;
  }

  /** Thread `t` finishes with an edit of leaf `p`. */
  lemma Edited(s: State, m: map<Key, Value>, s': State, m': map<Key, Value>, t: Tid, x: Thread, p: PageId, n: Node)
    requires LatchInv(s, m) && t in s.threads && !s.threads[t].pc.Splitting?
    requires s.tree.Some? && p in s.tree.value.pages && s.tree.value.pages[p].Leaf? && n.Leaf?
    requires s' == State(Some(WithNode(s.tree.value, p, n)), s.threads[t := x]) && TreeOk(s', m')
    requires x.pc.Done? && x.root.None? && x.shared == {} && x.owned == {}
    ensures LatchInv(s', m')
  {
    hide TreeOk;
    forall u | u in s.threads && u != t ensures ThreadOk(s', s.threads[u]) && NoConflict(x, s.threads[u]) {
      hide NoConflict, ThreadOk;
      assert ThreadOk(s, s.threads[u]);
      KeepEdit(s, s', s.threads[u], p, n);
      Conflicts(s, m, t, u);
      LighterOk(s.threads[t], x, s.threads[u]);
    }
    assert ThreadOk(s', x);
    hide NoConflict, ThreadOk;
    assert PendingOwned(s') by {
      if s.tree.value.pend.Split? {
        var u :| u in s.threads && s.threads[u].pc.Splitting?;
        assert u in s'.threads && s'.threads[u].pc.Splitting?;
      }
    }
    hide PendingOwned, LatchInv;
    Assemble(s, m, s', m', t, x);
  }

  /** What the leaf in hand says of the key is what the map says. */
  lemma LeafSays(s: State, m: map<Key, Value>, p: PageId, k: Key)
    requires TreeOk(s, m) && Covers(s, p, k) && s.tree.value.pages[p].Leaf?
    ensures var n := s.tree.value.pages[p];
            LeafOk(n, s.tree.value.info[p]) && |n.keys| == |n.vals| && Found(n, k) == Lookup(m, k)
  {
    NodeFacts(s.tree.value, p);
    LeafDecides(s.tree.value, m, p, k);
  }

  lemma StepEraseLeaf(s: State, m: map<Key, Value>, s': State, t: Tid)
    requires LatchInv(s, m) && DoEraseLeaf(s, s', t)
    ensures LatchInv(s', m - {s.threads[t].op.key})
  {
    var x := s.threads[t];
    var p := x.pc.cur;
    var g := s.tree.value;
    assert ThreadOk(s, x);
    LeafSays(s, m, p, x.op.key);
    EraseHolds(g, m, p, x.op.key);
    hide LatchInv, ThreadOk, Inv, Holds, LeafErase, Found, LeafOk;
    Edited(s, m, s', m - {x.op.key}, t, Finished(x, Found(g.pages[p], x.op.key)), p, LeafErase(g.pages[p], x.op.key));
  }

  /** Where a Put is about to write. */
  lemma PutCovers(s: State, x: Thread)
    requires ThreadOk(s, x) && (x.pc.Leafed? || x.pc.Path?)
    ensures Covers(s, PutLeaf(x), x.op.key) && PutLeaf(x) in x.owned && x.op.PutOp?
  {
  }

  lemma StepWriteLeaf(s: State, m: map<Key, Value>, s': State, t: Tid)
    requires LatchInv(s, m) && DoWriteLeaf(s, s', t)
    ensures LatchInv(s', m[s.threads[t].op.key := s.threads[t].op.value])
  {
    var x := s.threads[t];
    var (k, v) := (x.op.key, x.op.value);
    var p := PutLeaf(x);
    var g := s.tree.value;
    assert ThreadOk(s, x);
    PutCovers(s, x);
    LeafSays(s, m, p, k);
    WriteHolds(g, m, p, k, v);
    hide LatchInv, ThreadOk, Inv, Holds, LeafWrite, Found, LeafOk, Fits;
    Edited(s, m, s', m[k := v], t, Finished(x, Found(g.pages[p], k)), p, LeafWrite(g.pages[p], k, v));
  }

  // ------------------------------------------------------------ changes of shape

  /** A reshaping thread has the root latch to itself; whoever else is in the tree stands
      on pages it does not own. */
  lemma KeepReshape(s: State, s': State, x: Thread, own: set<PageId>)
    requires s.tree.Some? && s'.tree.Some? && Frame(s.tree.value, s'.tree.value, own) && ThreadOk(s, x)
    requires x.root.None? && own !! x.shared && own !! x.owned
    ensures ThreadOk(s', x)
  {
    hide PathOf;
    if x.pc.Down? || x.pc.Leafed? {
      var cur := x.pc.cur;
      assert cur in x.shared || cur in x.owned;
      assert cur !in own && cur in s.tree.value.pages;
      assert cur in s'.tree.value.pages;
    }
  }

  /** Thread `t` reshapes the tree within the pages its `x` owns. */
  lemma Reshaped(s: State, m: map<Key, Value>, s': State, m': map<Key, Value>, t: Tid, x: Thread, own: set<PageId>)
    requires LatchInv(s, m) && t in s.threads && s.threads[t].root == Some(Exclusive) && s.tree.Some? && s'.tree.Some?
    requires s'.threads == s.threads[t := x] && TreeOk(s', m') && ThreadOk(s', x)
    requires Frame(s.tree.value, s'.tree.value, own)
    requires s'.tree.value.pend.Split? ==> x.pc.Splitting?
    requires x.root == Some(Exclusive) || x.root.None?
    requires x.shared == {} && x.owned <= s.threads[t].owned + own
    requires forall p :: p in own ==> p in s.threads[t].owned || MayWrite(s, t, p)
    ensures LatchInv(s', m')
  {
    forall u | u in s.threads && u != t ensures ThreadOk(s', s.threads[u]) && NoConflict(x, s.threads[u]) {
      assert ThreadOk(s, s.threads[u]);
      Conflicts(s, m, t, u);
      OwnApart(s, m, t, u, own);
      hide ThreadOk, Frame, TreeOk;
      KeepReshape(s, s', s.threads[u], own);
    }
    assert PendingOwned(s') by {
      if s'.tree.value.pend.Split? { assert t in s'.threads && s'.threads[t].pc.Splitting?; }
    }
    hide ThreadOk, NoConflict, TreeOk, Frame, LatchInv, PendingOwned;
    Assemble(s, m, s', m', t, x);
  }

  lemma OwnApart(s: State, m: map<Key, Value>, t: Tid, u: Tid, own: set<PageId>)
    requires LatchInv(s, m) && t in s.threads && u in s.threads && u != t
    requires forall p :: p in own ==> p in s.threads[t].owned || MayWrite(s, t, p)
    ensures own !! s.threads[u].shared && own !! s.threads[u].owned
  {
    Conflicts(s, m, t, u);
    hide LatchInv;
    forall p | p in own ensures p !in s.threads[u].shared && p !in s.threads[u].owned {
      assert p in s.threads[t].owned || MayWrite(s, t, p);
    }
  }

  lemma StepMakeRoot(s: State, m: map<Key, Value>, s': State, t: Tid, p: PageId)
    requires LatchInv(s, m) && DoMakeRoot(s, s', t, p)
    ensures LatchInv(s', m[s.threads[t].op.key := s.threads[t].op.value])
  {
    var x := s.threads[t];
    FirstLeafInv(p, x.op.key, x.op.value);
    var y := Finished(x, None);
    forall u | u in s.threads && u != t ensures ThreadOk(s', s.threads[u]) && NoConflict(y, s.threads[u]) {
      assert ThreadOk(s, s.threads[u]);
      Conflicts(s, m, t, u);
      LighterOk(x, y, s.threads[u]);
    }
    assert ThreadOk(s', y);
    assert m[x.op.key := x.op.value] == map[x.op.key := x.op.value];
    hide ThreadOk, NoConflict, Inv, Holds;
    assert TreeOk(s', m[x.op.key := x.op.value]);
    Assemble(s, m, s', m[x.op.key := x.op.value], t, y);
  }

  // ------------------------------------------------------------ splits

  /** The old record out, the leaf split. */
  lemma EraseThenSplit(g: Shape, m: map<Key, Value>, p: PageId, r: PageId, k: Key)
    requires Inv(g) && g.pend.NoSplit? && Holds(g, m) && p in g.pages && g.pages[p].Leaf? && InRange(k, g.info[p])
    requires LeafOk(g.pages[p], g.info[p]) && CanSplitLeaf(WithNode(g, p, LeafErase(g.pages[p], k)), p, r)
    ensures var h := AfterSplitLeaf(WithNode(g, p, LeafErase(g.pages[p], k)), p, r);
            Inv(h) && Domains(h) && Holds(h, m - {k})
    ensures LeafOk(LeafErase(g.pages[p], k), g.info[p])
  {
    var e := WithNode(g, p, LeafErase(g.pages[p], k));
    EraseHolds(g, m, p, k);
    LeafEraseOk(g.pages[p], g.info[p], k);
    hide Inv, Holds, LeafErase, LeafOk, PageOk, CanSplitLeaf;
    SplitLeafInv(e, p, r);
    SplitLeafHolds(e, p, r, m - {k});
  }

  /** The half the record belongs to covers its key. */
  lemma HalfReady(g: Shape, p: PageId, r: PageId, k: Key)
    requires p in g.pages && g.pages[p].Leaf? && p in g.info && InRange(k, g.info[p])
    requires |g.pages[p].keys| == |g.pages[p].vals| && LeafOk(LeafErase(g.pages[p], k), g.info[p])
    requires CanSplitLeaf(WithNode(g, p, LeafErase(g.pages[p], k)), p, r)
    ensures var n := LeafErase(g.pages[p], k);
            var h := AfterSplitLeaf(WithNode(g, p, n), p, r);
            n.keys != [] &&
            var q := if Less(k, n.keys[|n.keys| / 2]) then p else r;
            && q in h.pages && q in h.info && h.pages[q].Leaf? && |h.pages[q].keys| == |h.pages[q].vals|
            && LeafOk(h.pages[q], h.info[q]) && InRange(k, h.info[q])
  {
    var n := LeafErase(g.pages[p], k);
    var e := WithNode(g, p, n);
    assert n.keys != [] && e.info == g.info;
    SplitShape(e, p, r);
    HalfCovers(n, g.info[p], k, p, r);
    hide LeafErase, CanSplitLeaf, AfterSplitLeaf, InRange;
  }

  /** Splitting a full leaf and inserting the record: tree laws and map. */
  lemma PutSplit(g: Shape, m: map<Key, Value>, p: PageId, r: PageId, k: Key, v: Value)
    requires Inv(g) && g.pend.NoSplit? && Holds(g, m) && p in g.pages && g.pages[p].Leaf? && InRange(k, g.info[p])
    requires LeafOk(g.pages[p], g.info[p]) && CanSplitLeaf(WithNode(g, p, LeafErase(g.pages[p], k)), p, r)
    ensures var h := AfterPutSplit(g, p, r, k, v); Inv(h) && Domains(h) && Holds(h, m[k := v])
  {
    hide Inv, Holds, LeafErase, LeafWrite, PageOk, CanSplitLeaf, AfterSplitLeaf, InRange;
    EraseThenSplit(g, m, p, r, k);
    Basics(g);
    HalfReady(g, p, r, k);
    var n := LeafErase(g.pages[p], k);
    var h := AfterSplitLeaf(WithNode(g, p, n), p, r);
    var q := if Less(k, n.keys[|n.keys| / 2]) then p else r;
    WriteHolds(h, m - {k}, q, k, v);
    assert (m - {k})[k := v] == m[k := v];
    Basics(WithNode(h, q, LeafWrite(h.pages[q], k, v)));
  }

  /** What it changes: the two halves and the right neighbour's back link; only the split
      leaf's range. */
  lemma PutSplitFrame(g: Shape, p: PageId, r: PageId, k: Key, v: Value)
    requires p in g.pages && g.pages[p].Leaf? && |g.pages[p].keys| == |g.pages[p].vals| && g.info.Keys == g.pages.Keys
    requires CanSplitLeaf(WithNode(g, p, LeafErase(g.pages[p], k)), p, r)
    ensures var h := AfterPutSplit(g, p, r, k, v);
            var n := LeafErase(g.pages[p], k);
            && n.keys != [] && r !in g.pages && h.pend == Split(p, r) && h.root == g.root
               && h.pages.Keys == g.pages.Keys + {r}
            && h.info == CutInfo(g.info, p, r, n.keys[|n.keys| / 2])
            && Frame(g, h, {p, r} + (if g.pages[p].next.Some? then {g.pages[p].next.value} else {}))
  {
    var n := LeafErase(g.pages[p], k);
    var e := WithNode(g, p, n);
    hide LeafErase, LeafWrite, CanSplitLeaf, AfterSplitLeaf, Less, Frame;
    SplitShape(e, p, r);
    assert e.pages.Keys == g.pages.Keys && n.next == g.pages[p].next;
    SplitLeafFrame(g, n, p, r);
    var own := {p, r} + (if n.next.Some? then {n.next.value} else {});
    var h := AfterSplitLeaf(e, p, r);
    var q := if Less(k, n.keys[|n.keys| / 2]) then p else r;
    hide Written;
    WriteFrame(h, q, Written(h.pages[q], k, v), own);
    FrameChain(g, h, AfterPutSplit(g, p, r, k, v), own, own);
  }

  lemma SplitLeafFrame(g: Shape, n: Node, p: PageId, r: PageId)
    requires p in g.pages && g.info.Keys == g.pages.Keys && n.Leaf? && CanSplitLeaf(WithNode(g, p, n), p, r)
    ensures Frame(g, AfterSplitLeaf(WithNode(g, p, n), p, r), {p, r} + (if n.next.Some? then {n.next.value} else {}))
  {
    SplitShape(WithNode(g, p, n), p, r);
    hide CanSplitLeaf, AfterSplitLeaf;
  }

  lemma WriteFrame(h: Shape, q: PageId, n: Node, own: set<PageId>)
    requires q in own && q in h.pages && h.info.Keys == h.pages.Keys
    ensures Frame(h, WithNode(h, q, n), own) && WithNode(h, q, n).pages.Keys == h.pages.Keys
  {
  }

  /** What `AfterSplitLeaf` changes. */
  lemma SplitShape(e: Shape, p: PageId, r: PageId)
    requires CanSplitLeaf(e, p, r)
    ensures var h := AfterSplitLeaf(e, p, r);
            var n := e.pages[p];
            var at := |n.keys| / 2;
            && h.pend == Split(p, r) && h.root == e.root && h.info == CutInfo(e.info, p, r, n.keys[at])
            && h.pages.Keys == e.pages.Keys + {r} && p != r
            && |n.keys| == |n.vals| && h.pages[p] == LeftLeaf(n, at, r) && h.pages[r] == RightLeaf(n, at, p)
            && (forall q :: q in e.pages && q != p && n.next != Some(q) ==> h.pages[q] == e.pages[q])
            && e.info.Keys == e.pages.Keys && n.keys != [] && r !in e.pages
  {
    NextDiffers(e, p);
  }

  /** Everything the split of a leaf needs to know about the state. */
  lemma BeforeSplitLeaf(s: State, m: map<Key, Value>, s': State, t: Tid, r: PageId)
    requires LatchInv(s, m) && DoSplitLeaf(s, s', t, r)
    ensures var x := s.threads[t];
            var p := PutLeaf(x);
            && ThreadOk(s, x) && s.tree.value.info.Keys == s.tree.value.pages.Keys
            && TreeOk(s', m[x.op.key := x.op.value])
  {
    var x := s.threads[t];
    assert ThreadOk(s, x);
    assert TreeOk(s, m);
    PutCovers(s, x);
    NoSplitBeside(s, m, t);
    hide LatchInv, ThreadOk, LeafOk, CanSplitLeaf, AfterPutSplit, Fits, LeafErase, LeafWrite, Found;
    LeafSays(s, m, PutLeaf(x), x.op.key);
    PutSplit(s.tree.value, m, PutLeaf(x), r, x.op.key, x.op.value);
  }

  lemma StepSplitLeaf(s: State, m: map<Key, Value>, s': State, t: Tid, r: PageId)
    requires LatchInv(s, m) && DoSplitLeaf(s, s', t, r)
    ensures LatchInv(s', m[s.threads[t].op.key := s.threads[t].op.value])
  {
    hide LatchInv, CanSplitLeaf, AfterPutSplit, Frame, Fits, LeafErase, LeafWrite, Found, TreeOk, PathOf, InRange;
    BeforeSplitLeaf(s, m, s', t, r);
    var x := s.threads[t];
    var g := s.tree.value;
    var p := PutLeaf(x);
    PutSplitFrame(g, p, r, x.op.key, x.op.value);
    var own := {p, r} + (if g.pages[p].next.Some? then {g.pages[p].next.value} else {});
    PathCut(g.info, p, r, LeafErase(g.pages[p], x.op.key).keys[|LeafErase(g.pages[p], x.op.key).keys| / 2], x.pc.stack);
    var y := s'.threads[t];
    assert ThreadOk(s', y);
    hide ThreadOk, AtLeaf, MayWrite;
    Reshaped(s, m, s', m[x.op.key := x.op.value], t, y, own);
  }

  lemma StepAbsorb(s: State, m: map<Key, Value>, s': State, t: Tid)
    requires LatchInv(s, m) && DoAbsorb(s, s', t)
    ensures LatchInv(s', m)
  {
    var x := s.threads[t];
    var g := s.tree.value;
    assert ThreadOk(s, x);
    var q := g.info[g.pend.left].parent;
    AbsorbStep(g, m);
    var stack := x.pc.stack;
    assert stack[|stack| - 1] == g.pend.left && q == stack[|stack| - 2] && q in x.owned;
    var h := AfterAbsorb(g);
    AbsorbFrame(g);
    hide LatchInv, Inv, Holds, CanAbsorb, AfterAbsorb, Frame, Fits;
    assert TreeOk(s', m) by { Basics(h); }
    var y := Finished(x, x.result);
    assert ThreadOk(s', y);
    hide ThreadOk, TreeOk;
    Reshaped(s, m, s', m, t, y, {q});
  }

  lemma GrowFrame(g: Shape, r: PageId)
    requires CanGrow(g, r)
    ensures Frame(g, AfterGrow(g, r), {})
  {
  }

  lemma StepNewRoot(s: State, m: map<Key, Value>, s': State, t: Tid, r: PageId)
    requires LatchInv(s, m) && DoNewRoot(s, s', t, r)
    ensures LatchInv(s', m)
  {
    var x := s.threads[t];
    var g := s.tree.value;
    assert ThreadOk(s, x);
    GrowStep(g, m, r);
    var h := AfterGrow(g, r);
    GrowFrame(g, r);
    hide LatchInv, Inv, Holds, CanGrow, AfterGrow, Frame;
    assert TreeOk(s', m) by { Basics(h); }
    var y := Finished(x, x.result);
    assert ThreadOk(s', y);
    hide ThreadOk, TreeOk;
    Reshaped(s, m, s', m, t, y, {});
  }

  lemma SplitInnerFrame(g: Shape, q: PageId, r: PageId, at: nat)
    requires CanSplitInner(g, q, r, at)
    ensures var h := AfterSplitInner(g, q, r, at); Frame(g, h, {q, r}) && h.pages.Keys == g.pages.Keys + {r}
  {
    hide LeftInner, RightInner;
  }

  lemma AbsorbFrame(g: Shape)
    requires CanAbsorb(g)
    ensures var h := AfterAbsorb(g); Frame(g, h, {g.info[g.pend.left].parent}) && h.pages.Keys == g.pages.Keys
  {
    hide InsertChild;
    var h := AfterAbsorb(g);
    assert h.pages.Keys == g.pages.Keys && h.info.Keys == g.info.Keys;
  }

  lemma FrameChain(a: Shape, b: Shape, c: Shape, own: set<PageId>, more: set<PageId>)
    requires Frame(a, b, own) && Frame(b, c, more) && own <= more
    ensures Frame(a, c, more)
  {
    forall q | q in a.pages && q !in more
      ensures q in c.pages && q in a.info && q in c.info && c.pages[q] == a.pages[q] && SameRange(a.info[q], c.info[q])
    {
      assert q in b.pages;
    }
  }

  /** What a full parent's split changes. */
  lemma InnerFrame(g: Shape, at: nat, r: PageId)
    requires CanAbsorb(g) && at < |g.pages[g.info[g.pend.left].parent].keys| && r !in g.pages
    requires CanSplitInner(AfterAbsorb(g), g.info[g.pend.left].parent, r,
             CutWith(g.pages[g.info[g.pend.left].parent], at, g.info[g.pend.right].lo))
    ensures var h := AfterInnerStep(g, at, r);
            Frame(g, h, {g.info[g.pend.left].parent, r}) && h.pages.Keys == g.pages.Keys + {r}
  {
    var q := g.info[g.pend.left].parent;
    var cut := CutWith(g.pages[q], at, g.info[g.pend.right].lo);
    hide CanAbsorb, CanSplitInner, AfterAbsorb, AfterSplitInner, Frame, CutWith;
    AbsorbFrame(g);
    SplitInnerFrame(AfterAbsorb(g), q, r, cut);
    FrameChain(g, AfterAbsorb(g), AfterInnerStep(g, at, r), {q}, {q, r});
  }

  lemma BeforeSplitInner(s: State, m: map<Key, Value>, s': State, t: Tid, r: PageId)
    requires LatchInv(s, m) && DoSplitInner(s, s', t, r)
    ensures ThreadOk(s, s.threads[t]) && TreeOk(s', m) && s'.tree.Some?
    ensures var g := s.tree.value;
            var h := s'.tree.value;
            var q := g.info[g.pend.left].parent;
            && q in g.info && h.root == g.root && h.pend == Split(q, r)
               && SamePathAbove(g.info, h.info, g.info[q].level)
            && Frame(g, h, {q, r}) && h.pages.Keys == g.pages.Keys + {r}
  {
    var g := s.tree.value;
    assert ThreadOk(s, s.threads[t]);
    assert TreeOk(s, m);
    var at := |g.pages[g.info[g.pend.left].parent].keys| / 2;
    hide LatchInv, ThreadOk, SamePathAbove, Frame, Fits, CutWith, HalvesWith;
    InnerStep(g, m, at, r);
    InnerFrame(g, at, r);
    Basics(AfterInnerStep(g, at, r));
  }

  /** The thread goes on one level up, carrying the parent's split. */
  lemma CarriesOn(g: Shape, h: Shape, s: State, s': State, x: Thread, r: PageId)
    requires s.tree == Some(g) && s'.tree == Some(h) && ThreadOk(s, x) && x.pc.Splitting? && |x.pc.stack| > 1
    requires var q := g.info[g.pend.left].parent;
             && q in g.info && h.root == g.root && h.pend == Split(q, r)
                && SamePathAbove(g.info, h.info, g.info[q].level)
             && h.pages.Keys == g.pages.Keys + {r}
    ensures g.info[g.pend.left].parent in x.owned
    ensures ThreadOk(s', x.(pc := Splitting(x.pc.stack[..|x.pc.stack| - 1], r), owned := x.owned + {r}))
  {
    assert HeldPath(s, x, x.pc.stack);
    hide ThreadOk;
    PendingIs(s, x);
    HeldAbove(g, h, s, s', x, x.pc.stack, r);
    CarryingOk(s', x.(pc := Splitting(x.pc.stack[..|x.pc.stack| - 1], r), owned := x.owned + {r}));
  }

  lemma PendingIs(s: State, x: Thread)
    requires ThreadOk(s, x) && x.pc.Splitting? && s.tree.Some?
    ensures s.tree.value.pend == Split(Last(x.pc.stack), x.pc.right) && x.full && x.op.PutOp?
            && x.root == Some(Exclusive) && x.shared == {}
  {
  }

  lemma CarryingOk(s: State, x: Thread)
    requires x.pc.Splitting? && x.full && x.op.PutOp? && x.root == Some(Exclusive) && x.shared == {}
             && x.pc.right in x.owned
    requires HeldPath(s, x, x.pc.stack) && s.tree.value.pend == Split(Last(x.pc.stack), x.pc.right)
    ensures ThreadOk(s, x)
  {
    hide HeldPath, Covers;
  }

  lemma HeldAbove(g: Shape, h: Shape, s: State, s': State, x: Thread, stack: seq<PageId>, r: PageId)
    requires s.tree == Some(g) && s'.tree == Some(h) && HeldPath(s, x, stack) && |stack| > 1 && g.pend.Split?
             && Last(stack) == g.pend.left
    requires var q := g.info[g.pend.left].parent;
             q in g.info && h.root == g.root && SamePathAbove(g.info, h.info, g.info[q].level)
               && h.pages.Keys == g.pages.Keys + {r}
    ensures var q := g.info[g.pend.left].parent;
            q in x.owned && Last(stack[..|stack| - 1]) == q
            && HeldPath(s', x.(pc := Splitting(stack[..|stack| - 1], r), owned := x.owned + {r}), stack[..|stack| - 1])
  {
    hide SamePathAbove, PathOf;
    ParentOnPath(g.info, stack);
    PathSurvives(g.info, h.info, stack, |stack| - 1);
    var above := stack[..|stack| - 1];
    forall i | 0 <= i < |above| ensures above[i] in x.owned && above[i] in h.pages {
      assert stack[i] in x.owned && stack[i] in g.pages;
    }
  }

  lemma ParentOnPath(info: map<PageId, Info>, stack: seq<PageId>)
    requires PathOf(info, stack) && |stack| > 1
    ensures Last(stack) in info && info[Last(stack)].parent == stack[|stack| - 2]
  {
  }

  lemma StepSplitInner(s: State, m: map<Key, Value>, s': State, t: Tid, r: PageId)
    requires LatchInv(s, m) && DoSplitInner(s, s', t, r)
    ensures LatchInv(s', m)
  {
    hide LatchInv, CanAbsorb, AfterAbsorb, AfterInnerStep, CanSplitInner, Frame, Fits, CutWith, TreeOk, SamePathAbove,
         IsInner, MayWrite;
    BeforeSplitInner(s, m, s', t, r);
    assert s.threads[t].root == Some(Exclusive) && s.threads[t].shared == {};
    hide ThreadOk;
    var g := s.tree.value;
    CarriesOn(g, s'.tree.value, s, s', s.threads[t], r);
    Reshaped(s, m, s', m, t, s'.threads[t], {g.info[g.pend.left].parent, r});
  }

  // ------------------------------------------------------------ guards the code does not test

  /** The conditions the machine puts on a leaf split hold whenever the code gets there and
      the record fits the half it goes to. */
  lemma SplitCanHappen(s: State, m: map<Key, Value>, t: Tid, r: PageId)
    requires LatchInv(s, m) && t in s.threads && s.threads[t].pc.Path? && s.threads[t].op.PutOp?
    requires var x := s.threads[t];
             && AtLeaf(s, t, PutLeaf(x)) && 4 + |x.op.key| + |x.op.value| <= MAX_LEAF_RECORD && r !in s.tree.value.pages
             && var n := s.tree.value.pages[PutLeaf(x)];
                var e := LeafErase(n, x.op.key);
                && !Fits(LeafWrite(n, x.op.key, x.op.value))
                && (e.keys != [] && !Less(x.op.key, e.keys[|e.keys| / 2]) ==>
                      Fits(LeafWrite(RightLeaf(e, |e.keys| / 2, PutLeaf(x)), x.op.key, x.op.value)))
    ensures var x := s.threads[t];
            var p := PutLeaf(x);
            CanSplitLeaf(WithNode(s.tree.value, p, LeafErase(s.tree.value.pages[p], x.op.key)), p, r)
  {
    var x := s.threads[t];
    var p := PutLeaf(x);
    var (k, v) := (x.op.key, x.op.value);
    var g := s.tree.value;
    assert ThreadOk(s, x);
    assert TreeOk(s, m);
    PutCovers(s, x);
    NoSplitBeside(s, m, t);
    LeafSays(s, m, p, k);
    hide LatchInv, ThreadOk, Found;
    FullLeafSplits(g, m, p, r, k, v);
  }

  lemma FullLeafSplits(g: Shape, m: map<Key, Value>, p: PageId, r: PageId, k: Key, v: Value)
    requires Inv(g) && g.pend.NoSplit? && Holds(g, m) && p in g.pages && g.pages[p].Leaf? && InRange(k, g.info[p])
             && r !in g.pages
    requires LeafOk(g.pages[p], g.info[p]) && 4 + |k| + |v| <= MAX_LEAF_RECORD && !Fits(LeafWrite(g.pages[p], k, v))
    requires var e := LeafErase(g.pages[p], k);
             e.keys != [] && !Less(k, e.keys[|e.keys| / 2]) ==> Fits(LeafWrite(RightLeaf(e, |e.keys| / 2, p), k, v))
    ensures CanSplitLeaf(WithNode(g, p, LeafErase(g.pages[p], k)), p, r)
  {
    var n := g.pages[p];
    var e := LeafErase(n, k);
    EraseHolds(g, m, p, k);
    LeafEraseOk(n, g.info[p], k);
    if Has(n.keys, k) { UpdateCost(n, k, v); }
    LowerBoundCorrect(n.keys, k);
    hide Inv, Holds, LeafErase, LeafWrite, PageOk, Fits, Has, LowerBound;
    FullLeafIsNotEmpty(e, g.info[p], k, v);
    SplitPoint(e, g.info[p], k, v, p);
    CanSplit(WithNode(g, p, e), p, r);
  }

  /** A thread carrying a split can always hand it up or grow the root. */
  lemma SplitCanGoUp(s: State, m: map<Key, Value>, t: Tid, r: PageId)
    requires LatchInv(s, m) && t in s.threads && s.threads[t].pc.Splitting?
    ensures s.tree.Some? && |s.threads[t].pc.stack| >= 1
    ensures |s.threads[t].pc.stack| > 1 ==> CanAbsorb(s.tree.value)
    ensures |s.threads[t].pc.stack| == 1 && r !in s.tree.value.pages ==> CanGrow(s.tree.value, r)
  {
    assert ThreadOk(s, s.threads[t]);
    assert TreeOk(s, m);
    hide LatchInv, Holds;
    var g := s.tree.value;
    var stack := s.threads[t].pc.stack;
    if |stack| == 1 {
      assert stack[0] == g.pend.left;
    } else {
      PathLevels(g.info, stack, 0, |stack| - 1);
    }
    assert PageOk(g, g.pend.left) && PageOk(g, g.pend.right);
    if |stack| > 1 {
      assert PageOk(g, g.info[g.pend.left].parent);
    }
  }

  // ------------------------------------------------------------ every interleaving

  /** Every step of every thread keeps the invariant, and changes the map only by its own
      operation's effect. */
  lemma NextKeeps(s: State, m: map<Key, Value>, s': State, step: Step)
    requires LatchInv(s, m) && Next(s, s', step)
    ensures LatchInv(s', Effect(s, step, m))
  {
    hide LatchInv;
    match step
    case Enter(t) => StepEnter(s, m, s', t);
    case MakeRoot(t, p) => StepMakeRoot(s, m, s', t, p);
    case CoupleDown(t) => StepCoupleDown(s, m, s', t);
    case EraseLeaf(t) => StepEraseLeaf(s, m, s', t);
    case Relatch(t) => StepRelatch(s, m, s', t);
    case WriteLeaf(t) => StepWriteLeaf(s, m, s', t);
    case Descend(t) => StepDescend(s, m, s', t);
    case LatchNext(t) => StepLatchNext(s, m, s', t);
    case SplitLeaf(t, r) => StepSplitLeaf(s, m, s', t, r);
    case Absorb(t) => StepAbsorb(s, m, s', t);
    case SplitInner(t, r) => StepSplitInner(s, m, s', t, r);
    case NewRoot(t, r) => StepNewRoot(s, m, s', t, r);
    case Spawn(_, _) => StepRootLatch(s, m, s', step);
    case LatchRoot(_) => StepRootLatch(s, m, s', step);
    case FindEmpty(_) => StepRootLatch(s, m, s', step);
    case UnlatchRoot(_) => StepRootLatch(s, m, s', step);
    case _ => StepLetGo(s, m, s', step);
  }

  /** The leaf an operation reads or changes is, at that moment, the one whose range holds
      its key; and what it finds there is what the map says. */
  lemma ActsOnItsLeaf(s: State, m: map<Key, Value>, s': State, step: Step)
    requires LatchInv(s, m) && Next(s, s', step) && Acts(step)
    ensures step.t in s.threads && step.t in s'.threads
    ensures var x := s.threads[step.t];
            && (step.ReadLeaf? || step.EraseLeaf? ==> Covers(s, x.pc.cur, x.op.key))
            && (step.WriteLeaf? || step.SplitLeaf? ==> Covers(s, PutLeaf(x), x.op.key))
            && ((x.op.PutOp? && step.FindEmpty?) || s'.threads[step.t].result == Lookup(m, x.op.key))
  {
    var x := s.threads[step.t];
    assert ThreadOk(s, x);
    assert TreeOk(s, m);
    hide LatchInv, LeafWrite, LeafErase, AfterPutSplit, CanSplitLeaf, Fits;
    if step.ReadLeaf? || step.EraseLeaf? {
      LeafSays(s, m, x.pc.cur, x.op.key);
    } else if step.WriteLeaf? || step.SplitLeaf? {
      PutCovers(s, x);
      LeafSays(s, m, PutLeaf(x), x.op.key);
    }
  }

  /** A run from a tree at rest. */
  ghost predicate Run(states: seq<State>, steps: seq<Step>, m: map<Key, Value>)
  {
    && |states| == |steps| + 1 && states[0].threads == map[] && TreeOk(states[0], m)
    && (states[0].tree.Some? ==> states[0].tree.value.pend.NoSplit?)
    && forall i :: 0 <= i < |steps| ==> Next(states[i], states[i + 1], steps[i])
  }

  /** The map after the first `n` steps, each acting operation applied at its step. */
  ghost function MapAfter(states: seq<State>, steps: seq<Step>, m: map<Key, Value>, n: nat): map<Key, Value>
    requires n <= |steps| < |states|
  {
    if n == 0 then m else Effect(states[n - 1], steps[n - 1], MapAfter(states, steps, m, n - 1))
  }

  /** Point operations are atomic: in every run the tree holds, at every moment, the map
      obtained by applying the operations one at a time at their acting steps. */
  lemma {:induction false} Linearizable(states: seq<State>, steps: seq<Step>, m: map<Key, Value>, n: nat)
    requires Run(states, steps, m) && n < |states|
    ensures LatchInv(states[n], MapAfter(states, steps, m, n))
  {
    hide Next, Effect, TreeOk;
    if n == 0 {
      hide ThreadOk;
    } else {
      Linearizable(states, steps, m, n - 1);
      assert Next(states[n - 1], states[n - 1 + 1], steps[n - 1]);
      hide LatchInv;
      NextKeeps(states[n - 1], MapAfter(states, steps, m, n - 1), states[n], steps[n - 1]);
    }
  }

  // ------------------------------------------------------------ once each, with the right result

  /** The operation has taken effect. */
  predicate Acted(x: Thread) { x.pc.Splitting? || x.pc.Done? }

  /** The step at which an operation takes effect; a Put that finds the tree empty only
      starts over. */
  ghost predicate TakesEffect(s: State, step: Step)
  {
    Acts(step) && step.t in s.threads && !(step.FindEmpty? && s.threads[step.t].op.PutOp?)
  }

  /** Of the other threads a step changes none. */
  ghost predicate OthersSame(s: State, s': State, t: Tid)
  {
    forall u :: u != t ==> (u in s'.threads <==> u in s.threads) && (u in s.threads ==> s'.threads[u] == s.threads[u])
  }

  lemma OneThread(s: State, s': State, step: Step)
    requires Next(s, s', step)
    ensures OthersSame(s, s', step.t)
  {
    hide Fits, LeafWrite, LeafErase, Found, MayLatch, MayWrite, NextChild, AfterPutSplit, CanSplitLeaf, CanAbsorb,
         CanGrow, CanSplitInner, AfterAbsorb, AfterGrow, AfterInnerStep, CutWith, AtLeaf, PutLeaf, Covers, TreeOk;
  }

  lemma EffectOnThread(s: State, s': State, step: Step)
    requires Next(s, s', step) && step.t in s.threads
    ensures step.t in s'.threads && s'.threads[step.t].op == s.threads[step.t].op
    ensures var (x, y) := (s.threads[step.t], s'.threads[step.t]);
            if TakesEffect(s, step) then !Acted(x) && Acted(y)
              else Acted(x) == Acted(y) && (Acted(x) ==> y.result == x.result)
  {
    hide Fits, LeafWrite, LeafErase, Found, MayLatch, MayWrite, NextChild, AfterPutSplit, CanSplitLeaf, CanAbsorb,
         CanGrow, CanSplitInner, AfterAbsorb, AfterGrow, AfterInnerStep, CutWith, AtLeaf;
  }

  ghost predicate ActsAt(states: seq<State>, steps: seq<Step>, t: Tid, a: nat)
    requires |steps| < |states|
  {
    a < |steps| && steps[a].t == t && TakesEffect(states[a], steps[a])
  }

  /** Of the first `n` steps, `a` is the one at which `t` takes effect. */
  ghost predicate OnlyAt(states: seq<State>, steps: seq<Step>, t: Tid, n: nat, a: nat)
    requires |steps| < |states|
  {
    a < n && ActsAt(states, steps, t, a) && forall b: nat :: b < n && ActsAt(states, steps, t, b) ==> b == a
  }

  /** Every operation takes effect at exactly one step, and what it returns is what the map
      said of its key at that step: no step before it is over, one when it is done. */
  lemma {:induction false} ActsOnce(states: seq<State>, steps: seq<Step>, m: map<Key, Value>, n: nat, t: Tid)
    requires Run(states, steps, m) && n < |states|
    ensures t !in states[n].threads || !Acted(states[n].threads[t]) ==> forall b: nat :: b < n ==>
            !ActsAt(states, steps, t, b)
    ensures t in states[n].threads && Acted(states[n].threads[t]) ==>
              exists a: nat ::
                && OnlyAt(states, steps, t, n, a)
                && states[n].threads[t].result == Lookup(MapAfter(states, steps, m, a), states[n].threads[t].op.key)
  {
    hide Next, TakesEffect, LatchInv, TreeOk, Acted, Effect;
    if n > 0 {
      ActsOnce(states, steps, m, n - 1, t);
      assert Next(states[n - 1], states[n - 1 + 1], steps[n - 1]);
      Linearizable(states, steps, m, n - 1);
      hide Run;
      ActsOnceMore(states, steps, m, n, t);
    }
  }

  lemma ActsOnceMore(states: seq<State>, steps: seq<Step>, m: map<Key, Value>, n: nat, t: Tid)
    requires 0 < n < |states| == |steps| + 1 && Next(states[n - 1], states[n], steps[n - 1])
    requires LatchInv(states[n - 1], MapAfter(states, steps, m, n - 1))
    requires t !in states[n - 1].threads || !Acted(states[n - 1].threads[t]) ==> forall b: nat :: b < n - 1 ==>
             !ActsAt(states, steps, t, b)
    requires t in states[n - 1].threads && Acted(states[n - 1].threads[t]) ==>
               exists a: nat ::
                 && OnlyAt(states, steps, t, n - 1, a)
                 && states[n - 1].threads[t].result == Lookup(MapAfter(states, steps, m, a),
                    states[n - 1].threads[t].op.key)
    ensures t !in states[n].threads || !Acted(states[n].threads[t]) ==> forall b: nat :: b < n ==>
            !ActsAt(states, steps, t, b)
    ensures t in states[n].threads && Acted(states[n].threads[t]) ==>
              exists a: nat ::
                && OnlyAt(states, steps, t, n, a)
                && states[n].threads[t].result == Lookup(MapAfter(states, steps, m, a), states[n].threads[t].op.key)
  {
    hide Next, TakesEffect, LatchInv, MapAfter, Acted;
    var (s, s', step) := (states[n - 1], states[n], steps[n - 1]);
    StepActing(s, MapAfter(states, steps, m, n - 1), s', step, t);
    assert ActsAt(states, steps, t, n - 1) <==> step.t == t && TakesEffect(s, step);
    if t in s'.threads && Acted(s'.threads[t]) {
      if ActsAt(states, steps, t, n - 1) {
        assert OnlyAt(states, steps, t, n, n - 1);
      } else {
        var a: nat :| OnlyAt(states, steps, t, n - 1, a)
                      && s.threads[t].result == Lookup(MapAfter(states, steps, m, a), s.threads[t].op.key);
        assert OnlyAt(states, steps, t, n, a);
      }
    }
  }

  lemma InThreads(s: State, s': State, step: Step)
    requires Next(s, s', step) && !step.Spawn?
    ensures step.t in s.threads
  {
    hide Fits, LeafWrite, LeafErase, Found, MayLatch, MayWrite, NextChild, AfterPutSplit, CanSplitLeaf, CanAbsorb,
         CanGrow, CanSplitInner, AfterAbsorb, AfterGrow, AfterInnerStep, CutWith, AtLeaf;
  }

  lemma SpawnOnly(s: State, s': State, step: Step)
    requires Next(s, s', step) && step.Spawn?
    ensures step.t !in s.threads && step.t in s'.threads && !Acted(s'.threads[step.t]) && !TakesEffect(s, step)
  {
  }

  /** What one step does to what thread `t` has done: it acts now, with the result the map
      gives, or it had acted before as it has now. */
  ghost predicate Acting(s: State, m: map<Key, Value>, s': State, step: Step, t: Tid)
  {
    if step.t == t && TakesEffect(s, step) then
      && t in s.threads && !Acted(s.threads[t]) && t in s'.threads && Acted(s'.threads[t])
      && s'.threads[t].result == Lookup(m, s'.threads[t].op.key)
    else
      && (t in s'.threads && Acted(s'.threads[t]) <==> t in s.threads && Acted(s.threads[t]))
      && (t in s.threads && Acted(s.threads[t]) ==>
           s'.threads[t].result == s.threads[t].result && s'.threads[t].op == s.threads[t].op)
  }

  lemma StepActing(s: State, m: map<Key, Value>, s': State, step: Step, t: Tid)
    requires LatchInv(s, m) && Next(s, s', step)
    ensures Acting(s, m, s', step, t)
  {
    hide Next, LatchInv, Acted, TakesEffect;
    OneThread(s, s', step);
    if step.Spawn? {
      SpawnOnly(s, s', step);
    } else {
      InThreads(s, s', step);
      EffectOnThread(s, s', step);
    }
    if TakesEffect(s, step) { EffectResult(s, m, s', step); }
  }

  lemma EffectResult(s: State, m: map<Key, Value>, s': State, step: Step)
    requires LatchInv(s, m) && Next(s, s', step) && TakesEffect(s, step)
    ensures step.t in s.threads && step.t in s'.threads && s'.threads[step.t].result
            == Lookup(m, s.threads[step.t].op.key)
  {
    hide LatchInv, Next;
    ActsOnItsLeaf(s, m, s', step);
  }
}
