/** The steps that set a job on its way: the next record of a plan, the image before a
    key record, and the splits, whose plans are made when the tree changes. */
module EngineStarts {
  import opened Keys
  import opened Nodes
  import opened TxnLog
  import opened PageRedo
  import opened TreeShape
  import opened TreeEdits
  import opened TreeSplits
  import opened TreeCapacity
  import opened EngineMachine
  import opened EngineInv
  import opened EngineLogs
  import opened EnginePlans
  import opened KeptPages
  import L = LatchMachine
  import LP = LatchProof
  import W = WalMachine
  import T = TxnMachine

  // ------------------------------------------------------------ plan and image

  lemma StepLog(s: State, s': State, x: TxId)
    requires EngineOk(s) && DoLog(s, s', x)
    ensures EngineOk(s')
  {
    hide Layers, Coupled, CarrierOk, TreeWith, SaneAll, KeptIs, HeldOk, Inside, Towards, Logs, Eventually, Target;
    assert JobOk(s, x);
    var j := s.jobs[x].(plan := s.jobs[x].plan[1..]);
    var b := s.jobs[x].plan[0];
    NotRoot(s, s', x, b);
    assert Inside(s, s', x, b, j) by { PlanInside(s, s', x); }
    assert Towards(s, x, b, j) by { PlanTowards(s, x); }
    hide EngineOk, JobOk, DoLog;
    InsideKeeps(s, s', x, b, j);
  }

  lemma PlanInside(s: State, s': State, x: TxId)
    requires JobOk(s, x) && DoLog(s, s', x)
    ensures Inside(s, s', x, s.jobs[x].plan[0], s.jobs[x].(plan := s.jobs[x].plan[1..]))
  {
    hide Logs, SaneBody, Matches;
  }

  lemma PlanTowards(s: State, x: TxId)
    requires EngineOk(s) && x in s.jobs && s.jobs[x].plan != [] && x in s.txn.open && x in s.wal.ops
    ensures Towards(s, x, s.jobs[x].plan[0], s.jobs[x].(plan := s.jobs[x].plan[1..]))
  {
    hide Layers, Coupled, CarrierOk, TreeWith, SaneAll, KeptIs, JobOk, Target, NodeAfter, OwnedBy;
    forall p | p in s.wal.ops[x]
      ensures Eventually(NodeAfter(W.At(s.wal.cur, p).node, s.jobs[x].plan[0], p), s.jobs[x].plan[1..], p) ==
              Target(s.latch.tree, s.txn.open[x], s.jobs[x].stage, p)
    {
      assert HeldOk(s, x, p);
    }
  }

  lemma NotRoot(s: State, s': State, x: TxId, b: Body)
    requires Logs(s, s', x, b, false)
    ensures !b.RootChange?
  {
  }

  /** What the edit makes of a leaf in order is a leaf in order. */
  lemma EditSane(s: State, x: TxId)
    requires EngineOk(s) && AtEdit(s, x)
    ensures Sane(Some(EditOf(s, x).1)) && EditOf(s, x).1.Leaf?
  {
    hide EngineOk, W.Inv, T.Inv, T.CountOk, Coupled, CarrierOk, SaneAll, TreeWith;
    LayersOf(s);
    var p := EditPage(s.latch.threads[s.jobs[x].tid]);
    var n := s.latch.tree.value.pages[p];
    assert L.TreeOk(s.latch, MapNow(s)) by { hide L.ThreadOk, L.NoConflict, L.PendingOwned; }
    hide L.LatchInv;
    NodeFacts(s.latch.tree.value, p);
    var op := s.txn.open[x];
    SaneWrite(n, op.key, if op.value.Some? then op.value.value else []);
  }

  lemma StepLogImage(s: State, s': State, x: TxId)
    requires EngineOk(s) && DoLogImage(s, s', x)
    ensures EngineOk(s')
  {
    hide Layers, Coupled, CarrierOk, TreeWith, SaneAll, KeptIs, HeldOk, Inside, Towards, Logs, EditOf;
    assert AtEdit(s, x) && x in s.jobs && JobOk(s, x);
    EditSane(s, x);
    var (p, w) := EditOf(s, x);
    var j := s.jobs[x].(stage := Imaged(p));
    hide AtEdit;
    ImageInside(s, s', x);
    assert Towards(s, x, PageImage(p, w), j) by { ImageTowards(s, x); }
    hide EngineOk, JobOk, DoLogImage;
    InsideKeeps(s, s', x, PageImage(p, w), j);
  }

  lemma ImageInside(s: State, s': State, x: TxId)
    requires DoLogImage(s, s', x) && JobOk(s, x) && Sane(Some(EditOf(s, x).1))
    ensures var (p, w) := EditOf(s, x); Inside(s, s', x, PageImage(p, w), s.jobs[x].(stage := Imaged(p)))
  {
    hide Logs, Matches, EditOf;
  }

  lemma ImageTowards(s: State, x: TxId)
    requires EngineOk(s) && AtEdit(s, x) && s.jobs[x].stage.Fresh? && s.jobs[x].plan == [] && x in s.wal.ops
    ensures var (p, w) := EditOf(s, x); Towards(s, x, PageImage(p, w), s.jobs[x].(stage := Imaged(p)))
  {
    hide Layers, Coupled, CarrierOk, TreeWith, SaneAll, KeptIs, JobOk, EditLeaf, OwnedBy;
    var (p, w) := EditOf(s, x);
    forall q | q in s.wal.ops[x]
      ensures Eventually(NodeAfter(W.At(s.wal.cur, q).node, PageImage(p, w), q), [], q) ==
              Target(s.latch.tree, s.txn.open[x], Imaged(p), q)
    {
      assert HeldOk(s, x, q);
    }
  }

  // ------------------------------------------------------------ a new plan for the same tree

  /** Job `x` gets a plan and a stage; nothing is logged yet. */
  lemma Planned(s: State, s': State, x: TxId, j: Job)
    requires EngineOk(s) && x in s.jobs && s' == s.(jobs := s.jobs[x := j])
    requires j.tid == s.jobs[x].tid && Carries(j) == Carries(s.jobs[x]) && (forall b :: b in j.plan ==> SaneBody(b))
    requires JobOk(s, x) ==> x in s.txn.open && x in s.wal.ops && StageOk(s', x)
    requires forall p {:trigger HeldOk(s, x, p)} ::
             x in s.txn.open && x in s.wal.ops && p in s.wal.ops[x] && HeldOk(s, x, p) ==>
               Eventually(W.At(s.wal.cur, p).node, j.plan, p) == Target(s.latch.tree, s.txn.open[x], j.stage, p)
    ensures EngineOk(s')
  {
    hide Layers, Coupled, CarrierOk, TreeWith, SaneAll, KeptNow, Matches;
    assert JobOk(s, x);
    LayersOf(s);
    PlannedRest(s, s', x, j);
    forall y ensures JobOk(s', y) {
      assert JobOk(s, y);
    }
    forall y, p ensures HeldOk(s', y, p) {
      assert HeldOk(s, y, p);
    }
    forall p ensures KeptIs(s', p) {
      assert KeptIs(s, p);
    }
  }

  lemma PlannedRest(s: State, s': State, x: TxId, j: Job)
    requires Layers(s) && Coupled(s) && CarrierOk(s) && SaneAll(s) && x in s.jobs && s' == s.(jobs := s.jobs[x := j])
    requires j.tid == s.jobs[x].tid && Carries(j) == Carries(s.jobs[x])
    ensures Layers(s') && Coupled(s') && CarrierOk(s') && SaneAll(s')
  {
    hide L.LatchInv, W.Inv, T.Inv, T.CountOk, Ahead, AllFit;
  }

  lemma StepStartRoot(s: State, s': State, x: TxId, p: PageId)
    requires EngineOk(s) && DoStartRoot(s, s', x, p)
    ensures EngineOk(s')
  {
    hide EngineOk, StageOk, FirstLeaf, Eventually, Fits;
    var op := s.txn.open[x];
    var j := s.jobs[x].(stage := Rooting(p), plan := [AllocPage(p), PageImage(p, FirstLeaf(op))]);
    assert SaneBody(PageImage(p, FirstLeaf(op))) by { FirstSane(op); }
    forall q | q in s.wal.ops[x] && HeldOk(s, x, q)
      ensures Eventually(W.At(s.wal.cur, q).node, j.plan, q) == Target(s.latch.tree, op, j.stage, q)
    {
      MadePage(W.At(s.wal.cur, q).node, p, FirstLeaf(op), q);
      assert Eventually(W.At(s.wal.cur, q).node, [], q) == W.At(s.wal.cur, q).node by {
        Unplanned(W.At(s.wal.cur, q).node, q);
      }
    }
    hide HeldOk, Target, DoStartRoot;
    assert StageOk(s', x) by { RootingOk(s', x); }
    Planned(s, s', x, j);
  }

  lemma Unplanned(n: Option<Node>, p: PageId)
    ensures Eventually(n, [], p) == n
  {
  }

  lemma FirstSane(op: T.OpenOp)
    ensures Sane(Some(FirstLeaf(op)))
  {
  }

  lemma RootingOk(s: State, x: TxId)
    requires x in s.jobs && s.jobs[x].stage.Rooting? && x in s.txn.open && x in s.wal.ops
    requires s.jobs[x].stage.page in s.wal.ops[x] && Fits(FirstLeaf(s.txn.open[x]))
    ensures StageOk(s, x)
  {
  }

  lemma StepStartGrow(s: State, s': State, x: TxId, r: PageId)
    requires EngineOk(s) && DoStartGrow(s, s', x, r)
    ensures EngineOk(s')
  {
    hide EngineOk, GrowNode, Eventually, Fits;
    var g := s.latch.tree.value;
    var j := s.jobs[x].(stage := Growing(r), plan := [AllocPage(r), PageImage(r, GrowNode(g))]);
    assert SaneBody(PageImage(r, GrowNode(g))) by { GrowSane(g); }
    forall q | x in s.txn.open && q in s.wal.ops[x] && HeldOk(s, x, q)
      ensures Eventually(W.At(s.wal.cur, q).node, j.plan, q) == Target(s.latch.tree, s.txn.open[x], j.stage, q)
    {
      MadePage(W.At(s.wal.cur, q).node, r, GrowNode(g), q);
      assert Eventually(W.At(s.wal.cur, q).node, [], q) == W.At(s.wal.cur, q).node by {
        Unplanned(W.At(s.wal.cur, q).node, q);
      }
    }
    assert JobOk(s, x) by { JobIs(s, x); }
    assert StageOk(s', x);
    hide HeldOk, Target, DoStartGrow, StageOk;
    Planned(s, s', x, j);
  }

  lemma GrowSane(g: Shape)
    ensures Sane(Some(GrowNode(g)))
  {
  }

  // ------------------------------------------------------------ splits

  /** The tree changes in memory on pages of group `x` only, and `x` gets the plan that
      will log the change. */
  ghost predicate Reshapes(s: State, s': State, x: TxId, j: Job, c: Option<TxId>)
  {
    && x in s.jobs && x in s.txn.open && x in s.wal.ops && s.latch.tree.Some? && s'.latch.tree.Some?
    && s' == s.(latch := s'.latch, jobs := s.jobs[x := j], carrier := c)
    && j.tid == s.jobs[x].tid && j.stage.Carrying? && s.jobs[x].plan == []
       && (s.jobs[x].stage.Fresh? || s.jobs[x].stage.Carrying?)
    && c == Some(x) && (forall b :: b in j.plan ==> SaneBody(b))
    && j.tid in s.latch.threads && j.tid in s'.latch.threads
    && s'.latch.threads[j.tid].op == s.latch.threads[j.tid].op && s'.latch.threads[j.tid].pc.Splitting?
    && (forall u :: u in s.latch.threads && u != j.tid ==>
       u in s'.latch.threads && s'.latch.threads[u] == s.latch.threads[u])
    && s.latch.threads[j.tid].owned <= s'.latch.threads[j.tid].owned
    && (forall p :: p in s'.latch.tree.value.pages && p !in s.latch.tree.value.pages ==>
       p in s'.latch.threads[j.tid].owned)
    && Ahead(s.latch.tree.value, s'.latch.tree.value, s.wal.ops[x])
       && s'.latch.tree.value.root == s.latch.tree.value.root
    && AllFit(s'.latch.tree.value.pages)
  }

  lemma AheadPages(g: Shape, h: Shape, own: set<PageId>, p: PageId)
    requires Ahead(g, h, own) && p !in own
    ensures TreePage(Some(h), p) == TreePage(Some(g), p)
  {
    assert p in g.pages ==> p in h.pages;
  }

  lemma AheadChain(a: Shape, b: Shape, c: Shape, own: set<PageId>)
    requires Ahead(a, b, own) && Ahead(b, c, own)
    ensures Ahead(a, c, own)
  {
    forall q | q in a.pages && q !in own
      ensures q in c.pages && q in a.info && q in c.info && c.pages[q] == a.pages[q] && SameRange(a.info[q], c.info[q])
    {
      assert q in b.pages;
    }
  }

  lemma AheadMore(g: Shape, h: Shape, own: set<PageId>, more: set<PageId>)
    requires Ahead(g, h, own) && own <= more
    ensures Ahead(g, h, more)
  {
  }

  lemma AheadSame(a: Shape, own: set<PageId>)
    requires a.info.Keys == a.pages.Keys
    ensures Ahead(a, a, own)
  {
  }

  /** Before a split starts nobody carries one; while it goes on nobody else does. */
  ghost predicate MayCarry(s: State, x: TxId) { s.carrier == None || s.carrier == Some(x) }

  lemma ReshapesCarrier(s: State, s': State, x: TxId, j: Job, c: Option<TxId>)
    requires CarrierOk(s) && Coupled(s) && TreeWith(s.settled, s.txn.m) && Reshapes(s, s', x, j, c) && MayCarry(s, x)
    ensures CarrierOk(s') && Coupled(s')
  {
    assert Ahead(s.settled.value, s.latch.tree.value, s.wal.ops[x]) by {
      hide Ahead, AllFit, Inv, Holds;
      if s.carrier.None? { AheadSame(s.settled.value, s.wal.ops[x]); }
    }
    hide Ahead, AllFit, TreeWith;
    AheadChain(s.settled.value, s.latch.tree.value, s'.latch.tree.value, s.wal.ops[x]);
  }

  lemma ReshapesJob(s: State, s': State, x: TxId, j: Job, c: Option<TxId>, y: TxId)
    requires JobOk(s, y) && JobOk(s, x) && Coupled(s) && CarrierOk(s) && Reshapes(s, s', x, j, c) && MayCarry(s, x)
    ensures JobOk(s', y)
  {
    hide Ahead, AllFit, SaneBody, RootOf;
  }

  lemma ReshapesHeld(s: State, s': State, x: TxId, j: Job, c: Option<TxId>, y: TxId, p: PageId)
    requires HeldOk(s, y, p) && JobOk(s, y) && Coupled(s) && CarrierOk(s) && Reshapes(s, s', x, j, c) && MayCarry(s, x)
    requires y != x && y in s.wal.ops && p in s.wal.ops[y] ==> p !in s.wal.ops[x]
    requires forall q :: q in s.wal.ops[x] ==>
               Eventually(TreePage(s.latch.tree, q), j.plan, q) == TreePage(s'.latch.tree, q)
    ensures HeldOk(s', y, p)
  {
    hide AllFit, SaneBody, RootOf, Matches, Frame;
    if y in s.jobs && y in s.wal.ops && p in s.wal.ops[y] {
      if y == x {
        hide Ahead;
        ReshapesOwn(s, s', x, j, c, p);
      } else {
        AheadPages(s.latch.tree.value, s'.latch.tree.value, s.wal.ops[x], p);
        hide Ahead;
        ReshapesOther(s, s', x, j, c, y, p);
      }
    }
  }

  lemma ReshapesOwn(s: State, s': State, x: TxId, j: Job, c: Option<TxId>, p: PageId)
    requires HeldOk(s, x, p) && Reshapes(s, s', x, j, c) && p in s.wal.ops[x]
    requires Eventually(TreePage(s.latch.tree, p), j.plan, p) == TreePage(s'.latch.tree, p)
    ensures HeldOk(s', x, p)
  {
    hide Ahead, AllFit, SaneBody;
    Unplanned(W.At(s.wal.cur, p).node, p);
  }

  lemma ReshapesOther(s: State, s': State, x: TxId, j: Job, c: Option<TxId>, y: TxId, p: PageId)
    requires HeldOk(s, y, p) && JobOk(s, y) && Coupled(s) && CarrierOk(s) && Reshapes(s, s', x, j, c) && MayCarry(s, x)
    requires y != x && y in s.jobs && TreePage(s'.latch.tree, p) == TreePage(s.latch.tree, p)
    ensures HeldOk(s', y, p)
  {
    hide Ahead, AllFit, SaneBody, RootOf, TreePage, Matches;
    assert s.jobs[y].tid != j.tid;
  }

  lemma ReshapesKeeps(s: State, s': State, x: TxId, j: Job, c: Option<TxId>)
    requires EngineOk(s) && Reshapes(s, s', x, j, c) && MayCarry(s, x) && L.LatchInv(s'.latch, MapNow(s'))
    requires forall q :: q in s.wal.ops[x] ==>
               Eventually(TreePage(s.latch.tree, q), j.plan, q) == TreePage(s'.latch.tree, q)
    ensures EngineOk(s')
  {
    hide Layers, Coupled, CarrierOk, TreeWith, SaneAll, JobOk, HeldOk, Reshapes, KeptNow, L.LatchInv, Eventually;
    LayersOf(s);
    SameRest(s, s', x, j, c);
    assert Layers(s') by { LatchLayers(s, s'); }
    assert SaneAll(s') by { SameSane(s, s'); }
    ReshapesCarrier(s, s', x, j, c);
    assert JobOk(s, x);
    forall y ensures JobOk(s', y) {
      assert JobOk(s, y);
      ReshapesJob(s, s', x, j, c, y);
    }
    forall y, p ensures HeldOk(s', y, p) {
      assert HeldOk(s, y, p) && JobOk(s, y);
      if y != x && y in s.wal.ops && p in s.wal.ops[y] { InsideApart(s, x, y, p); }
      ReshapesHeld(s, s', x, j, c, y, p);
    }
    forall p ensures KeptIs(s', p) {
      assert KeptIs(s, p);
    }
  }

  lemma SameRest(s: State, s': State, x: TxId, j: Job, c: Option<TxId>)
    requires Reshapes(s, s', x, j, c)
    ensures s'.wal == s.wal && s'.txn == s.txn && s'.settled == s.settled && x in s.wal.ops
  {
    hide Ahead, AllFit, SaneBody;
  }

  lemma LatchLayers(s: State, s': State)
    requires Layers(s) && s'.wal == s.wal && s'.txn == s.txn && L.LatchInv(s'.latch, MapNow(s'))
    ensures Layers(s')
  {
    hide L.LatchInv, W.Inv, T.Inv, T.CountOk;
  }

  lemma SameSane(s: State, s': State)
    requires SaneAll(s) && s'.wal == s.wal
    ensures SaneAll(s')
  {
  }

  /** A split under way shows in the tree. */
  lemma CarrierSplits(s: State)
    requires EngineOk(s) && s.carrier.Some?
    ensures s.latch.tree.Some? && s.latch.tree.value.pend.Split?
  {
    hide W.Inv, T.Inv, T.CountOk, TreeWith, SaneAll, KeptIs, HeldOk, L.LatchInv;
    assert JobOk(s, s.carrier.value);
    var tid := s.jobs[s.carrier.value].tid;
    assert L.ThreadOk(s.latch, s.latch.threads[tid]) by { ThreadIs(s.latch, MapNow(s), tid); }
    LP.PendingIs(s.latch, s.latch.threads[tid]);
  }

  lemma ThreadIs(s: L.State, m: KV, t: L.Tid)
    requires L.LatchInv(s, m) && t in s.threads
    ensures L.ThreadOk(s, s.threads[t]) && L.TreeOk(s, m)
  {
    hide L.TreeOk, L.PendingOwned, L.NoConflict, L.ThreadOk;
    assert L.ThreadOk(s, s.threads[t]);
  }

  /** What a leaf split needs and does, seen from the latch layer alone. */
  lemma SplitFacts(l: L.State, m: KV, l': L.State, tid: L.Tid, r: PageId)
    requires L.LatchInv(l, m) && L.DoSplitLeaf(l, l', tid, r)
    ensures var y := l.threads[tid];
            var (g, p) := (l.tree.value, L.PutLeaf(y));
            && Inv(g) && g.pend.NoSplit? && g.info.Keys == g.pages.Keys && y.op.PutOp? && LeafNode(g.pages[p])
            && CanSplitLeaf(WithNode(g, p, LeafErase(g.pages[p], y.op.key)), p, r)
            && l'.tree == Some(L.AfterPutSplit(g, p, r, y.op.key, y.op.value))
            && Ahead(g, l'.tree.value, {p, r} + (if g.pages[p].next.Some? then {g.pages[p].next.value} else {}))
            && l'.tree.value.pages.Keys == g.pages.Keys + {r} && l'.tree.value.root == g.root
  {
    ThreadIs(l, m, tid);
    hide L.LatchInv, L.AfterPutSplit, Fits, LeafErase, LeafWrite, L.Found, L.ThreadOk, Frame, L.MayWrite;
    var y := l.threads[tid];
    var (g, p) := (l.tree.value, L.PutLeaf(y));
    assert Inv(g) && g.info.Keys == g.pages.Keys;
    assert g.pend.NoSplit? by { hide Inv; assert WithNode(g, p, LeafErase(g.pages[p], y.op.key)).pend == g.pend; }
    hide Inv, CanSplitLeaf, L.TreeOk;
    LP.PutSplitFrame(g, p, r, y.op.key, y.op.value);
  }

  lemma SplitReshapes(s: State, s': State, x: TxId, r: PageId)
    requires DoStartSplit(s, s', x, r) && L.LatchInv(s.latch, MapNow(s)) && JobOk(s, x)
    ensures Reshapes(s, s', x, s'.jobs[x], Some(x))
  {
    hide L.LatchInv, CanSplitLeaf, L.AfterPutSplit, Fits, LeafErase, LeafWrite, L.Found, Frame, AllFit, SaneBody,
         Eventually, Inv, Less, L.MayWrite, SplitPlan, Ahead;
    SplitFacts(s.latch, MapNow(s), s'.latch, s.jobs[x].tid, r);
    var (g, p) := (s.latch.tree.value, L.PutLeaf(s.latch.threads[s.jobs[x].tid]));
    AheadMore(g, s'.latch.tree.value, {p, r} + (if g.pages[p].next.Some? then {g.pages[p].next.value} else {}),
      s.wal.ops[x]);
    SplitPlanSane(s.latch.tree.value, L.PutLeaf(s.latch.threads[s.jobs[x].tid]), r, s.txn.open[x]);
  }

  lemma SplitTargets(s: State, s': State, x: TxId, r: PageId, q: PageId)
    requires DoStartSplit(s, s', x, r) && L.LatchInv(s.latch, MapNow(s)) && JobOk(s, x)
    ensures Eventually(TreePage(s.latch.tree, q), s'.jobs[x].plan, q) == TreePage(s'.latch.tree, q)
  {
    hide L.LatchInv, CanSplitLeaf, L.AfterPutSplit, Fits, LeafErase, LeafWrite, L.Found, Ahead, AllFit, SaneBody,
         Eventually, Inv, Less, L.MayWrite, SplitPlan, StageOk;
    SplitFacts(s.latch, MapNow(s), s'.latch, s.jobs[x].tid, r);
    SplitPlanRight(s.latch.tree.value, L.PutLeaf(s.latch.threads[s.jobs[x].tid]), r, s.txn.open[x], q);
  }

  lemma StepStartSplit(s: State, s': State, x: TxId, r: PageId)
    requires EngineOk(s) && DoStartSplit(s, s', x, r)
    ensures EngineOk(s')
  {
    hide Reshapes, Coupled, CarrierOk, TreeWith, SaneAll, HeldOk, KeptIs, W.Inv, T.Inv, T.CountOk, L.LatchInv,
         Eventually, SplitPlan, L.AfterPutSplit, LeafErase, AllFit, L.Found, LeafWrite, Fits, CanSplitLeaf;
    LayersOf(s);
    assert JobOk(s, x);
    SplitReshapes(s, s', x, r);
    forall q ensures Eventually(TreePage(s.latch.tree, q), s'.jobs[x].plan, q) == TreePage(s'.latch.tree, q) {
      SplitTargets(s, s', x, r, q);
    }
    assert s.carrier == None by {
      SplitFacts(s.latch, MapNow(s), s'.latch, s.jobs[x].tid, r);
      if s.carrier.Some? { CarrierSplits(s); }
    }
    LP.NextKeeps(s.latch, MapNow(s), s'.latch, L.SplitLeaf(s.jobs[x].tid, r));
    assert MapNow(s') == L.Effect(s.latch, L.SplitLeaf(s.jobs[x].tid, r), MapNow(s));
    hide EngineOk, JobOk, DoStartSplit;
    ReshapesKeeps(s, s', x, s'.jobs[x], Some(x));
  }

  /** The same for the split of a full parent. */
  lemma ParentFacts(l: L.State, m: KV, l': L.State, tid: L.Tid, r: PageId)
    requires L.LatchInv(l, m) && L.DoSplitInner(l, l', tid, r)
    ensures var g := l.tree.value;
            && Inv(g) && Domains(g) && g.pend.Split? && g.pend.left != g.root && Holds(g, m) && r !in g.pages
               && CanAbsorb(g)
            && Above(g) == g.info[g.pend.left].parent && Above(g) in g.pages && IsInner(g.pages[Above(g)])
            && g.pages[Above(g)].keys != []
            && var n := g.pages[Above(g)];
               && CanSplitInner(AfterAbsorb(g), Above(g), r, CutWith(n, |n.keys| / 2, g.info[g.pend.right].lo))
               && l'.tree == Some(AfterInnerStep(g, |n.keys| / 2, r))
               && Ahead(g, l'.tree.value, {Above(g), r}) && l'.tree.value.pages.Keys == g.pages.Keys + {r}
               && l'.tree.value.root == g.root
  {
    ThreadIs(l, m, tid);
    hide L.LatchInv, AfterInnerStep, Fits, L.ThreadOk, Frame, L.MayWrite, CutWith, AfterAbsorb, CanSplitInner, Sorted;
    var g := l.tree.value;
    assert Inv(g) && Holds(g, m) && Domains(g);
    hide L.TreeOk, Holds, PageOk;
    assert CanAbsorb(g) && g.pend.Split? && g.pend.left != g.root;
    assert g.info.Keys == g.pages.Keys;
    assert l'.tree.value.root == g.root by { InnerKeepsRoot(g, |g.pages[Above(g)].keys| / 2, r); }
    hide Inv, CanAbsorb;
    LP.InnerFrame(g, |g.pages[Above(g)].keys| / 2, r);
  }

  lemma InnerKeepsRoot(g: Shape, at: nat, r: PageId)
    requires AfterInnerStep.requires(g, at, r)
    ensures AfterInnerStep(g, at, r).root == g.root
  {
    hide CanAbsorb, CanSplitInner, CutWith;
  }

  lemma ParentReshapes(s: State, s': State, x: TxId, r: PageId)
    requires DoSplitParent(s, s', x, r) && L.LatchInv(s.latch, MapNow(s)) && JobOk(s, x) && s.carrier == Some(x)
    ensures Reshapes(s, s', x, s'.jobs[x], Some(x))
  {
    hide L.LatchInv, Inv, Holds, CanSplitInner, AfterInnerStep, AfterAbsorb, CanAbsorb, CutWith, Fits, Eventually,
         ParentPlan, Frame, AllFit, Less, SaneBody, Matches, Sorted, L.MayWrite, Ahead;
    ParentFacts(s.latch, MapNow(s), s'.latch, s.jobs[x].tid, r);
    AheadMore(s.latch.tree.value, s'.latch.tree.value, {Above(s.latch.tree.value), r}, s.wal.ops[x]);
    ParentPlanSane(s.latch.tree.value, r);
  }

  lemma ParentTargets(s: State, s': State, x: TxId, r: PageId, q: PageId)
    requires DoSplitParent(s, s', x, r) && L.LatchInv(s.latch, MapNow(s)) && JobOk(s, x)
    ensures Eventually(TreePage(s.latch.tree, q), s'.jobs[x].plan, q) == TreePage(s'.latch.tree, q)
  {
    hide L.LatchInv, Inv, Holds, CanSplitInner, AfterInnerStep, AfterAbsorb, CanAbsorb, CutWith, Fits, Eventually,
         ParentPlan, Ahead, AllFit, Less, SaneBody, Matches, Sorted, L.MayWrite, StageOk;
    ParentFacts(s.latch, MapNow(s), s'.latch, s.jobs[x].tid, r);
    ParentPlanRight(s.latch.tree.value, MapNow(s), r, q);
  }

  lemma ParentPlanSane(g: Shape, r: PageId)
    requires g.pend.Split? && Above(g) in g.pages && IsInner(g.pages[Above(g)]) && g.pages[Above(g)].keys != []
    ensures forall b :: b in ParentPlan(g, r) ==> SaneBody(b)
  {
    hide Less, PendKey, Above, Sorted;
    var n := g.pages[Above(g)];
    var (a, b) := HalvesWith(n, |n.keys| / 2, PendKey(g), g.pend.left, g.pend.right);
    assert a.Internal? && b.Internal?;
  }

  lemma StepSplitParent(s: State, s': State, x: TxId, r: PageId)
    requires EngineOk(s) && DoSplitParent(s, s', x, r)
    ensures EngineOk(s')
  {
    hide Reshapes, Coupled, TreeWith, SaneAll, HeldOk, KeptIs, W.Inv, T.Inv, T.CountOk, L.LatchInv, Eventually,
         ParentPlan, AfterInnerStep, AllFit, Ahead, Fits, CanSplitInner, AfterAbsorb, CanAbsorb, CutWith, Inv, Holds;
    LayersOf(s);
    assert JobOk(s, x) && s.carrier == Some(x);
    ParentReshapes(s, s', x, r);
    forall q ensures Eventually(TreePage(s.latch.tree, q), s'.jobs[x].plan, q) == TreePage(s'.latch.tree, q) {
      ParentTargets(s, s', x, r, q);
    }
    LP.NextKeeps(s.latch, MapNow(s), s'.latch, L.SplitInner(s.jobs[x].tid, r));
    assert MapNow(s') == MapNow(s);
    hide EngineOk, JobOk, DoSplitParent, CarrierOk;
    ReshapesKeeps(s, s', x, s'.jobs[x], Some(x));
  }
}
