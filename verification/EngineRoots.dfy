/** Groups that end with the tree whole again: the first leaf, a parent that absorbs a
    separator, a new root. */
module EngineRoots {
  import opened Keys
  import opened Nodes
  import opened TxnLog
  import opened PageRedo
  import opened TreeShape
  import opened TreeSplits
  import opened TreeCapacity
  import opened EngineMachine
  import opened EngineInv
  import opened EngineLogs
  import opened EngineStarts
  import opened EngineEnds
  import L = LatchMachine
  import LP = LatchProof
  import W = WalMachine
  import T = TxnMachine

  /** The settled tree becomes the tree in memory, and nobody carries a split any more. */
  ghost predicate Settles(s: State, s': State, x: TxId, b: Body)
  {
    && x in s.jobs && x in s.txn.open && x in s.wal.ops && Logs(s, s', x, b, true) && SaneBody(b)
       && s.jobs[x].plan == []
    && s'.latch.tree.Some? && s'.settled == s'.latch.tree
    && s' == State(s'.latch, s'.wal, s'.txn, s'.latch.tree, s.jobs - {x}, None)
    && Closed(s.txn, s'.txn, x, b)
    && (s.carrier.Some? ==> s.carrier == Some(x))
    && (forall u :: u in s.latch.threads && u != s.jobs[x].tid ==>
       u in s'.latch.threads && s'.latch.threads[u] == s.latch.threads[u])
    && (if b.RootChange? then s'.settled.value.root == b.page
       else s.settled.Some? && s'.settled.value.root == s.settled.value.root)
    && (forall p {:trigger TreePage(s'.latch.tree, p)} :: p !in s.wal.ops[x] ==>
       TreePage(s'.latch.tree, p) == TreePage(s.latch.tree, p))
    && (forall p {:trigger NodeAfter(W.At(s.wal.cur, p).node, b, p)} :: p in s.wal.ops[x] ==>
          NodeAfter(W.At(s.wal.cur, p).node, b, p) == TreePage(s'.latch.tree, p))
    && s'.latch.tree.value.pend.NoSplit? && AllFit(s'.latch.tree.value.pages)
    && L.LatchInv(s'.latch, Set(s.txn.m, s.txn.open[x].key, s.txn.open[x].value))
  }

  lemma SettlesTree(s: State, s': State, x: TxId, b: Body)
    requires Settles(s, s', x, b)
    ensures L.LatchInv(s'.latch, MapNow(s')) && TreeWith(s'.settled, s'.txn.m)
  {
    hide Logs, SaneBody, NodeAfter, TreePage, AllFit, L.LatchInv, Inv, Holds, Set;
    assert L.TreeOk(s'.latch, s'.txn.m) by { TreeIs(s'.latch, s'.txn.m); }
  }

  lemma TreeIs(s: L.State, m: KV)
    requires L.LatchInv(s, m)
    ensures L.TreeOk(s, m)
  {
    hide L.TreeOk, L.PendingOwned, L.NoConflict, L.ThreadOk;
  }

  lemma SettlesCarrier(s: State, s': State, x: TxId, b: Body)
    requires CarrierOk(s) && Settles(s, s', x, b)
    ensures CarrierOk(s')
  {
    hide Logs, SaneBody, NodeAfter, TreePage, AllFit, L.LatchInv, Set, Ahead;
  }

  lemma SettlesEnds(s: State, s': State, x: TxId, b: Body)
    requires EngineOk(s) && Settles(s, s', x, b)
    ensures Ends(s, s', x, b)
  {
    hide EngineOk, Layers, TreeWith, SaneAll, Logs, SaneBody, NodeAfter, AllFit, L.LatchInv, Set, Closed;
    LayersOf(s);
    forall p | p !in s.wal.ops[x] ensures TreePage(s'.settled, p) == TreePage(s.settled, p) {
      SettledOff(s, x, p);
      assert TreePage(s'.latch.tree, p) == TreePage(s.latch.tree, p);
    }
    hide CarrierOk, TreePage;
  }

  /** Off the carrier's pages memory and settled tree agree. */
  lemma SettledOff(s: State, x: TxId, p: PageId)
    requires CarrierOk(s) && Coupled(s) && x in s.wal.ops && p !in s.wal.ops[x]
             && (s.carrier.Some? ==> s.carrier == Some(x))
    ensures TreePage(s.latch.tree, p) == TreePage(s.settled, p)
  {
    hide AllFit, RootOf, Frame, TreePage;
    if s.carrier.Some? {
      AheadPages(s.settled.value, s.latch.tree.value, s.wal.ops[x], p);
    }
  }

  lemma SettlesKeeps(s: State, s': State, x: TxId, b: Body)
    requires EngineOk(s) && Settles(s, s', x, b)
    ensures EngineOk(s')
  {
    hide EngineOk, Settles, Ends, L.LatchInv, MapNow, TreeWith, CarrierOk, Coupled, Layers, SaneAll;
    LayersOf(s);
    SettlesTree(s, s', x, b);
    SettlesCarrier(s, s', x, b);
    SettlesEnds(s, s', x, b);
    assert x in s.wal.ops by {
      hide Logs, SaneBody, NodeAfter, TreePage, AllFit, Set, Closed;
      assert Settles(s, s', x, b);
      SettlesOps(s, s', x, b);
    }
    EndsKeeps(s, s', x, b);
  }

  lemma SettlesOps(s: State, s': State, x: TxId, b: Body)
    requires Settles(s, s', x, b)
    ensures x in s.wal.ops
  {
    hide Logs, SaneBody, NodeAfter, TreePage, AllFit, Set, Closed, L.LatchInv;
  }

  // ------------------------------------------------------------ first leaf

  lemma RootFacts(l: L.State, m: KV, l': L.State, tid: L.Tid, p: PageId, op: T.OpenOp)
    requires L.LatchInv(l, m) && L.DoMakeRoot(l, l', tid, p) && Matches(l.threads[tid].op, op.key, op.value)
    ensures l.tree.None? && l'.tree.Some? && l'.tree.value.pages == map[p := FirstLeaf(op)] && l'.tree.value.root == p
    ensures l'.tree.value.pend.NoSplit? && L.LatchInv(l', Set(m, op.key, op.value))
    ensures forall u :: u in l.threads && u != tid ==> u in l'.threads && l'.threads[u] == l.threads[u]
  {
    LP.NextKeeps(l, m, l', L.MakeRoot(tid, p));
    hide L.LatchInv;
  }

  /** With its plan logged, a group's pages in memory are at their targets. */
  lemma HeldNow(s: State, x: TxId, q: PageId)
    requires EngineOk(s) && x in s.jobs && s.jobs[x].plan == [] && x in s.wal.ops && q in s.wal.ops[x]
    ensures x in s.txn.open && W.At(s.wal.cur, q).node == Target(s.latch.tree, s.txn.open[x], s.jobs[x].stage, q)
  {
    hide Layers, Coupled, CarrierOk, TreeWith, SaneAll, KeptIs, Target, OwnedBy, StageOk, Matches;
    assert HeldOk(s, x, q) && JobOk(s, x);
    Unplanned(W.At(s.wal.cur, q).node, q);
  }

  lemma LatchOf(s: State)
    requires Layers(s)
    ensures L.LatchInv(s.latch, MapNow(s))
  {
    hide W.Inv, T.Inv, T.CountOk, L.LatchInv;
  }

  lemma RootSettles(s: State, s': State, x: TxId)
    requires EngineOk(s) && DoEndRoot(s, s', x)
    ensures Settles(s, s', x, RootChange(s.jobs[x].stage.page))
  {
    hide EngineOk, L.LatchInv, Layers, TreeWith, SaneAll, Logs, Fits, FirstLeaf, OwnedBy, Matches, Set, Closed,
         Appended, L.Next, MapNow, AllFit, Ahead;
    LayersOf(s);
    LatchOf(s);
    JobIs(s, x);
    var p := s.jobs[x].stage.page;
    var op := s.txn.open[x];
    assert L.DoMakeRoot(s.latch, s'.latch, s.jobs[x].tid, p) by { Making(s, s', x); }
    RootFacts(s.latch, MapNow(s), s'.latch, s.jobs[x].tid, p, op);
    hide L.DoMakeRoot;
    LogsAppend(s, s', x, RootChange(p));
    assert s.carrier.None?;
    assert MapNow(s) == s.txn.m by { NoneAhead(s); }
    assert AllFit(s'.latch.tree.value.pages) by { OneFits(p, FirstLeaf(op)); }
    forall q | q in s.wal.ops[x]
      ensures NodeAfter(W.At(s.wal.cur, q).node, RootChange(p), q) == TreePage(s'.latch.tree, q)
    {
      HeldNow(s, x, q);
    }
  }

  lemma Making(s: State, s': State, x: TxId)
    requires DoEndRoot(s, s', x)
    ensures L.DoMakeRoot(s.latch, s'.latch, s.jobs[x].tid, s.jobs[x].stage.page)
  {
    hide Logs, L.DoMakeRoot;
  }

  lemma NoneAhead(s: State)
    requires s.carrier.None?
    ensures MapNow(s) == s.txn.m
  {
  }

  lemma OneFits(p: PageId, n: Node)
    requires Fits(n)
    ensures AllFit(map[p := n])
  {
  }

  lemma StepEndRoot(s: State, s': State, x: TxId)
    requires EngineOk(s) && DoEndRoot(s, s', x)
    ensures EngineOk(s')
  {
    hide EngineOk, Settles;
    RootSettles(s, s', x);
    hide DoEndRoot;
    SettlesKeeps(s, s', x, RootChange(s.jobs[x].stage.page));
  }

  // ------------------------------------------------------------ a parent absorbs

  lemma AbsorbFacts(l: L.State, m: KV, l': L.State, tid: L.Tid)
    requires L.LatchInv(l, m) && L.DoAbsorb(l, l', tid)
    ensures l.tree.Some? && l'.tree.Some?
    ensures var (g, h) := (l.tree.value, l'.tree.value);
            && Above(g) in g.pages && Above(g) in h.pages && h.pages == g.pages[Above(g) := h.pages[Above(g)]]
            && h.pages[Above(g)].Internal? && Fits(h.pages[Above(g)]) && h.root == g.root && h.pend.NoSplit?
            && L.LatchInv(l', m)
            && (forall u :: u in l.threads && u != tid ==> u in l'.threads && l'.threads[u] == l.threads[u])
  {
    LP.NextKeeps(l, m, l', L.Absorb(tid));
    hide L.LatchInv, Fits, Inv;
    assert CanAbsorb(l.tree.value);
    AbsorbPages(l.tree.value);
  }

  lemma AbsorbPages(g: Shape)
    requires CanAbsorb(g)
    ensures var h := AfterAbsorb(g);
            && Above(g) in g.pages && Above(g) in h.pages && h.pages == g.pages[Above(g) := h.pages[Above(g)]]
            && h.pages[Above(g)].Internal? && h.root == g.root && h.pend.NoSplit?
            && Above(g) == g.info[g.pend.left].parent
  {
    hide Inv;
    assert Domains(g) by { Basics(g); }
  }

  /** Who carries is the carrier, and the map the tree holds has its write already. */
  lemma CarrierIs(s: State, x: TxId)
    requires CarrierOk(s) && Coupled(s) && JobOk(s, x) && x in s.jobs && Carries(s.jobs[x])
    ensures s.carrier == Some(x) && x in s.txn.open && x in s.wal.ops && s.settled.Some? && s.latch.tree.Some?
    ensures MapNow(s) == Set(s.txn.m, s.txn.open[x].key, s.txn.open[x].value)
    ensures s.latch.tree.value.root == s.settled.value.root && AllFit(s.latch.tree.value.pages)
  {
    hide Ahead, AllFit, StageOk, Matches, RootOf, Set;
  }

  lemma Absorbing(s: State, s': State, x: TxId)
    requires DoEndAbsorb(s, s', x)
    ensures L.DoAbsorb(s.latch, s'.latch, s.jobs[x].tid) && s.latch.tree.Some? && s'.latch.tree.Some?
  {
    hide Logs, CanAbsorb, AfterAbsorb, Fits, Above;
  }

  lemma AbsorbSettles(s: State, s': State, x: TxId) returns (b: Body)
    requires EngineOk(s) && DoEndAbsorb(s, s', x)
    ensures Settles(s, s', x, b)
  {
    hide EngineOk, L.LatchInv, Layers, TreeWith, SaneAll, Logs, Fits, Set, Closed, Appended, MapNow, AllFit, CarrierOk,
         Coupled, JobOk, Above, L.DoAbsorb;
    LayersOf(s);
    LatchOf(s);
    JobIs(s, x);
    Absorbing(s, s', x);
    CarrierIs(s, x);
    var (g, h) := (s.latch.tree.value, s'.latch.tree.value);
    AbsorbFacts(s.latch, MapNow(s), s'.latch, s.jobs[x].tid);
    b := PageImage(Above(g), h.pages[Above(g)]);
    LogsAppend(s, s', x, b);
    assert Above(g) in s.wal.ops[x] by { AppendsOn(s.wal, s'.wal, x, b, Above(g)); }
    OnePage(g.pages, Above(g), h.pages[Above(g)]);
    forall q | q in s.wal.ops[x] ensures NodeAfter(W.At(s.wal.cur, q).node, b, q) == TreePage(s'.latch.tree, q) {
      HeldNow(s, x, q);
    }
  }

  lemma StepEndAbsorb(s: State, s': State, x: TxId)
    requires EngineOk(s) && DoEndAbsorb(s, s', x)
    ensures EngineOk(s')
  {
    hide EngineOk, Settles, DoEndAbsorb;
    var b := AbsorbSettles(s, s', x);
    SettlesKeeps(s, s', x, b);
  }

  // ------------------------------------------------------------ a new root

  lemma GrowFacts(l: L.State, m: KV, l': L.State, tid: L.Tid, r: PageId)
    requires L.LatchInv(l, m) && L.DoNewRoot(l, l', tid, r)
    ensures l.tree.Some? && l'.tree.Some?
    ensures var (g, h) := (l.tree.value, l'.tree.value);
            && h.pages == g.pages[r := GrowNode(g)] && h.root == r && h.pend.NoSplit?
            && L.LatchInv(l', m)
            && (forall u :: u in l.threads && u != tid ==> u in l'.threads && l'.threads[u] == l.threads[u])
  {
    LP.NextKeeps(l, m, l', L.NewRoot(tid, r));
    hide L.LatchInv, Inv;
    assert CanGrow(l.tree.value, r);
    Basics(l.tree.value);
  }

  lemma GrowSettles(s: State, s': State, x: TxId)
    requires EngineOk(s) && DoEndGrow(s, s', x)
    ensures Settles(s, s', x, RootChange(s.jobs[x].stage.page))
  {
    hide EngineOk, L.LatchInv, Layers, TreeWith, SaneAll, Logs, Fits, Set, Closed, Appended, MapNow, AllFit, CarrierOk,
         Coupled, L.DoNewRoot, GrowNode, Matches;
    LayersOf(s);
    LatchOf(s);
    JobIs(s, x);
    CarrierIs(s, x);
    var r := s.jobs[x].stage.page;
    GrowFacts(s.latch, MapNow(s), s'.latch, s.jobs[x].tid, r);
    LogsAppend(s, s', x, RootChange(r));
    OnePage(s.latch.tree.value.pages, r, GrowNode(s.latch.tree.value));
    forall q | q in s.wal.ops[x]
      ensures NodeAfter(W.At(s.wal.cur, q).node, RootChange(r), q) == TreePage(s'.latch.tree, q)
    {
      HeldNow(s, x, q);
    }
  }

  lemma StepEndGrow(s: State, s': State, x: TxId)
    requires EngineOk(s) && DoEndGrow(s, s', x)
    ensures EngineOk(s')
  {
    hide EngineOk, Settles, Logs, L.Next;
    GrowSettles(s, s', x);
    hide DoEndGrow;
    SettlesKeeps(s, s', x, RootChange(s.jobs[x].stage.page));
  }
}
