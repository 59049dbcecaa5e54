/** What every step of the engine keeps: the three layers' own invariants, the pages redo
    would rebuild as the pages of the settled tree, and for every open group where its
    pages stand and what its plan makes of them. */
module EngineInv {
  import opened Keys
  import opened Nodes
  import opened TxnLog
  import opened PageRedo
  import opened TreeShape
  import opened TreeSplits
  import opened EngineMachine
  import opened KeptPages
  import L = LatchMachine
  import LP = LatchProof
  import W = WalMachine
  import T = TxnMachine

  /** The map the tree in memory holds: ahead of the transactions' map by the write of
      the split under way. */
  ghost function MapNow(s: State): KV
  {
    if s.carrier.Some? && s.carrier.value in s.txn.open
    then Set(s.txn.m, s.txn.open[s.carrier.value].key, s.txn.open[s.carrier.value].value)
    else s.txn.m
  }

  ghost predicate Layers(s: State) {
    L.LatchInv(s.latch, MapNow(s)) && W.Inv(s.wal) && T.Inv(s.txn) && T.CountOk(s.txn)
  }

  ghost predicate Coupled(s: State)
  {
    && s.txn.log == s.wal.log && s.txn.begunTxns == s.wal.begunTxns
    && s.jobs.Keys == s.wal.ops.Keys == s.txn.open.Keys
    && (forall x, y :: x in s.jobs && y in s.jobs && x != y ==> s.jobs[x].tid != s.jobs[y].tid)
    && s.txn.rooted == s.latch.tree.Some? == s.settled.Some?
    && s.wal.root == RootOf(s.settled)
  }

  predicate Carries(j: Job) { j.stage.Carrying? || j.stage.Growing? }

  /** Only the carrier carries, and nothing but its pages differs from the settled tree. */
  ghost predicate CarrierOk(s: State)
  {
    && (forall y :: y in s.jobs && Carries(s.jobs[y]) ==> s.carrier == Some(y))
    && (s.carrier.Some? ==> s.settled.Some? && s.carrier.value in s.jobs && Carries(s.jobs[s.carrier.value]))
    && (s.carrier.None? ==> s.latch.tree == s.settled)
    && (s.carrier.Some? && s.settled.Some? && s.latch.tree.Some? && s.carrier.value in s.wal.ops ==>
          && Ahead(s.settled.value, s.latch.tree.value, s.wal.ops[s.carrier.value])
          && s.latch.tree.value.root == s.settled.value.root)
    && (s.latch.tree.Some? ==> AllFit(s.latch.tree.value.pages))
  }

  ghost predicate Ahead(g: Shape, h: Shape, own: set<PageId>)
  {
    Frame(g, h, own) && h.pages.Keys <= g.pages.Keys + own
  }

  // ------------------------------------------------------------ pages

  /** A page after one record, its LSN aside. */
  function NodeAfter(n: Option<Node>, b: Body, p: PageId): Option<Node>
  {
    if OnPage(b, p) then AfterRecord(Version(n, 0), b, 0).node else n
  }

  function Eventually(n: Option<Node>, plan: seq<Body>, p: PageId): Option<Node>
    decreases |plan|
  {
    if plan == [] then n else Eventually(NodeAfter(n, plan[0], p), plan[1..], p)
  }

  /** What a held page is once the plan is logged. */
  ghost function Target(tree: Option<Shape>, op: T.OpenOp, stage: Stage, p: PageId): Option<Node>
  {
    var n := TreePage(tree, p);
    match stage
    case Imaged(q) => if p == q && n.Some? then Some(EditLeaf(n.value, op.key, op.value)) else n
    case Rooting(q) => if p == q then Some(FirstLeaf(op)) else n
    case Growing(q) => if p == q && tree.Some? then Some(GrowNode(tree.value)) else n
    case _ => n
  }

  ghost predicate HeldOk(s: State, x: TxId, p: PageId)
  {
    x in s.jobs && x in s.txn.open && x in s.wal.ops && p in s.wal.ops[x] ==>
      && Eventually(W.At(s.wal.cur, p).node, s.jobs[x].plan, p)
         == Target(s.latch.tree, s.txn.open[x], s.jobs[x].stage, p)
      && (OwnedBy(s.latch, s.jobs[x].tid, p) || TreePage(s.latch.tree, p).None?)
  }

  ghost predicate OwnedBy(s: L.State, tid: L.Tid, p: PageId) { tid in s.threads && p in s.threads[tid].owned }

  ghost predicate StageOk(s: State, x: TxId)
    requires x in s.jobs && x in s.txn.open && x in s.wal.ops
  {
    var j := s.jobs[x];
    match j.stage
    case Fresh => j.plan == []
    case Imaged(p) => j.plan == []
    case Rooting(p) => p in s.wal.ops[x] && Fits(FirstLeaf(s.txn.open[x]))
    case Carrying => j.tid in s.latch.threads && s.latch.threads[j.tid].pc.Splitting?
    case Growing(p) =>
      && j.tid in s.latch.threads && s.latch.threads[j.tid].pc.Splitting? && p in s.wal.ops[x]
      && s.latch.tree.Some? && Fits(GrowNode(s.latch.tree.value))
  }

  ghost predicate JobOk(s: State, x: TxId)
  {
    x in s.jobs ==>
      && s.jobs[x].tid in s.latch.threads && x in s.txn.open && x in s.wal.ops
      && Matches(s.latch.threads[s.jobs[x].tid].op, s.txn.open[x].key, s.txn.open[x].value)
      && StageOk(s, x)
      && (forall b :: b in s.jobs[x].plan ==> SaneBody(b))
  }

  /** Redo of the whole log would give the settled tree, page for page. */
  ghost predicate KeptIs(s: State, p: PageId) { KeptNow(s.wal, p).node == TreePage(s.settled, p) }

  ghost predicate SaneAll(s: State)
  {
    && (forall i :: 0 <= i < |s.wal.log| ==> SaneRecord(s.wal.log[i]))
    && (forall p {:trigger W.At(s.wal.v0, p)} :: Sane(W.At(s.wal.v0, p).node))
  }

  ghost predicate EngineOk(s: State)
  {
    && Layers(s) && Coupled(s) && CarrierOk(s) && TreeWith(s.settled, s.txn.m) && SaneAll(s)
    && (forall p {:trigger KeptIs(s, p)} :: KeptIs(s, p))
    && (forall x {:trigger JobOk(s, x)} :: JobOk(s, x))
    && (forall x, p {:trigger HeldOk(s, x, p)} :: HeldOk(s, x, p))
  }

  // ------------------------------------------------------------ consequences

  /** Away from the carrier's pages memory and settled tree agree. */
  lemma OffCarrier(s: State, p: PageId)
    requires EngineOk(s)
    requires s.carrier.Some? && s.carrier.value in s.wal.ops ==> p !in s.wal.ops[s.carrier.value]
    ensures TreePage(s.latch.tree, p) == TreePage(s.settled, p)
  {
    hide Layers, TreeWith, SaneAll, KeptIs, JobOk, HeldOk;
    if s.carrier.Some? {
      var own := s.wal.ops[s.carrier.value];
      var (g, h) := (s.settled.value, s.latch.tree.value);
      assert Ahead(g, h, own);
      assert p in g.pages ==> p in h.pages;
    }
  }

  /** A page no group holds is, in memory, the tree's page. */
  lemma UnheldIsTree(s: State, p: PageId)
    requires EngineOk(s) && W.Unheld(s.wal, p)
    ensures W.At(s.wal.cur, p).node == TreePage(s.latch.tree, p) == TreePage(s.settled, p)
  {
    OffCarrier(s, p);
    assert KeptIs(s, p);
    hide EngineOk;
    assert W.Inv(s.wal) by { assert Layers(s) by { LayersOf(s); } }
    hide W.Inv, KeptNow, Layers;
    UnheldIsKept(s.wal, p);
  }

  lemma LayersOf(s: State)
    requires EngineOk(s)
    ensures Layers(s) && Coupled(s) && CarrierOk(s) && TreeWith(s.settled, s.txn.m) && SaneAll(s)
  {
    hide Layers, Coupled, CarrierOk, TreeWith, SaneAll;
  }

  lemma JobIs(s: State, x: TxId)
    requires EngineOk(s)
    ensures JobOk(s, x)
  {
    hide Layers, Coupled, CarrierOk, TreeWith, SaneAll, KeptIs, HeldOk, JobOk;
    assert JobOk(s, x);
  }

  /** Whatever a latched page is, a reader finds in memory what the tree says: the pages
      groups are rewriting are latched by their writers. */
  lemma ReadersSeeTheTree(s: State, tid: L.Tid, p: PageId)
    requires EngineOk(s) && tid in s.latch.threads && p in s.latch.threads[tid].shared
             && TreePage(s.latch.tree, p).Some?
    ensures W.At(s.wal.cur, p).node == TreePage(s.latch.tree, p)
  {
    LayersOf(s);
    forall x | x in s.wal.ops ensures p !in s.wal.ops[x] {
      assert JobOk(s, x) && HeldOk(s, x, p);
      var u := s.jobs[x].tid;
      assert u in s.latch.threads;
      hide EngineOk, CarrierOk, TreeWith, SaneAll;
      OwnedAlone(s.latch, MapNow(s), u, tid, p);
    }
    UnheldIsTree(s, p);
  }

  lemma OwnedAlone(s: L.State, m: KV, u: L.Tid, t: L.Tid, p: PageId)
    requires L.LatchInv(s, m) && u in s.threads && t in s.threads && p in s.threads[t].shared
    ensures p !in s.threads[u].owned
  {
    if u == t {
      assert L.ThreadOk(s, s.threads[u]);
    } else {
      LP.Conflicts(s, m, u, t);
    }
  }
}
