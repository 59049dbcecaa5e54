/** The layers joined. A crash of any run of the engine, at any moment, leaves a log and a
    data file from which the code's own recovery loops build a tree whose map is the
    committed one, unless a loser leaks the first insert, and whichever of the two metas
    the crash left to be chosen. */
module EndToEnd {
  import opened Keys
  import opened Nodes
  import opened TxnLog
  import opened PageRedo
  import opened TreeShape
  import opened TreeCapacity
  import opened BTree
  import opened Recovery
  import opened EngineMachine
  import opened EngineInv
  import opened EngineTheorems
  import opened KeptPages
  import L = LatchMachine
  import W = WalMachine
  import WP = WalProof
  import T = TxnMachine
  import TL = TxnLogSteps
  import TT = TxnTheorems

  // ------------------------------------------------------------ what recovery starts from

  /** Redo of `e` gives tree `g`, which holds the effects of its complete groups. */
  ghost predicate RedoneTree(e: seq<Record>, first: nat, v0: map<PageId, Version>, root: Option<PageId>, eff: Effects,
      base: KV, g: Option<Shape>)
  {
    && |e| == |eff| && TreeWith(g, Redo(base, eff)) && RootOf(g) == W.RootRedone(e, |e|, root)
    && forall p {:trigger W.At(v0, p)} :: Kept(e, first, |e|, p, W.At(v0, p)).node == TreePage(g, p)
  }

  /** Every page as found is one redo can start from. */
  ghost predicate CrashedFile(e: seq<Record>, first: nat, v0: map<PageId, Version>, c: W.Crash, meta: W.Meta)
  {
    forall p {:trigger W.Found(c, meta, p)} :: Crashed(e, first, p, W.At(v0, p), W.Found(c, meta, p))
  }

  /** Reopening from the last complete checkpoint. */
  lemma FromLastMeta(states: seq<State>, steps: seq<Step>, i: nat, c: W.Crash) returns (g: Option<Shape>)
    requires Run(states, steps) && i < |states| && W.MayLeave(states[i].wal, c)
    ensures c.n <= |states[i].txn.eff| && |states[i].txn.log| == |states[i].txn.eff|
    ensures var (w, t) := (states[i].wal, states[i].txn);
            && RedoneTree(w.log[..c.n], w.first, w.v0, w.last.root, t.eff[..c.n], t.base, g)
            && CrashedFile(w.log[..c.n], w.first, w.v0, c, w.last)
  {
    hide Run, EngineOk, W.MayLeave, TreeWith, Kept, Redo, Recovered, Committed, TT.Leaks, W.RootAfter, W.RootRedone,
         Crashed;
    var s := states[i];
    RunOk(states, steps, i);
    assert c.n <= |s.wal.log| by { CutOf(s.wal, c); }
    g := TreeAtEveryCut(states, steps, i, c.n);
    WalOk(s);
    var e := s.wal.log[..c.n];
    assert W.RootsEnd(e) by { RootsPrefix(s.wal, c.n); }
    WP.RootRedoneIsRootAfter(e, c.n, s.wal.last.root);
    assert e[..c.n] == e;
    forall p ensures Crashed(e, s.wal.first, p, W.At(s.wal.v0, p), W.Found(c, s.wal.last, p)) {
      CrashedPage(s.wal, c, p);
    }
  }

  lemma CutOf(w: W.State, c: W.Crash)
    requires W.MayLeave(w, c)
    ensures w.durable <= c.n <= |w.log|
  {
  }

  lemma WalOk(s: State)
    requires EngineOk(s)
    ensures W.Inv(s.wal)
  {
    hide EngineOk, W.Inv, T.Inv, T.CountOk, L.LatchInv;
    LayersOf(s);
  }

  lemma RootsPrefix(w: W.State, n: nat)
    requires W.Inv(w) && n <= |w.log|
    ensures W.RootsEnd(w.log[..n])
  {
    hide W.PageInv, W.FileInv, W.OpenInv, W.RootAfter, W.MetasOk;
  }

  lemma CrashedPage(w: W.State, c: W.Crash, p: PageId)
    requires W.Inv(w) && W.MayLeave(w, c)
    ensures c.n <= |w.log| && Crashed(w.log[..c.n], w.first, p, W.At(w.v0, p), W.Found(c, w.last, p))
  {
    hide W.Inv, PageLogOk, DiskOk;
    WP.CrashLeaves(w, c, p);
  }

  /** A new meta is being, or has been, written. */
  predicate MetaOut(w: W.State) { w.ck.MetaWritten? || w.ck.MetaSynced? }

  /** Reopening from the checkpoint just written: the whole log is behind it. */
  lemma FromNewMeta(s: State, c: W.Crash)
    requires EngineOk(s) && W.MayLeave(s.wal, c) && MetaOut(s.wal)
    ensures c.n == |s.wal.log| && s.wal.ck.m.ckpt == s.wal.first + |s.wal.log|
    ensures RedoneTree([], s.wal.ck.m.ckpt, s.wal.cur, s.wal.ck.m.root, [], s.txn.m, s.settled)
    ensures CrashedFile([], s.wal.ck.m.ckpt, s.wal.cur, c, s.wal.ck.m)
  {
    WalOk(s);
    LayersOf(s);
    assert s.wal.root == RootOf(s.settled) && TreeWith(s.settled, s.txn.m) by {
      hide Layers, CarrierOk, TreeWith, SaneAll;
    }
    hide Layers, Coupled, CarrierOk, SaneAll, TreeWith, Crashed;
    NewMetaIs(s.wal, c);
    forall p ensures Kept([], s.wal.ck.m.ckpt, 0, p, W.At(s.wal.cur, p)).node == TreePage(s.settled, p) {
      UnheldIsTree(s, p);
    }
    hide EngineOk, W.Inv, W.MayLeave;
    assert Redo(s.txn.m, []) == s.txn.m;
    forall p ensures Crashed([], s.wal.ck.m.ckpt, p, W.At(s.wal.cur, p), W.Found(c, s.wal.ck.m, p)) {
      NewMetaPage(s.wal, c, p);
    }
  }

  lemma NewMetaIs(w: W.State, c: W.Crash)
    requires W.Inv(w) && W.MayLeave(w, c) && MetaOut(w)
    ensures c.n == |w.log| && w.ck.m == W.NewMeta(w) && w.ops == map[] && w.begunTxns == 0
  {
    hide W.PageInv, W.FileInv, W.OpenInv, W.RootAfter, W.RootsEnd, W.MetasOk;
  }

  lemma NewMetaPage(w: W.State, c: W.Crash, p: PageId)
    requires W.Inv(w) && W.MayLeave(w, c) && MetaOut(w)
    ensures Crashed([], w.first + |w.log|, p, W.At(w.cur, p), W.Found(c, W.NewMeta(w), p))
  {
    assert W.PageInv(w, p) && W.FileInv(w, p);
    hide W.Inv, W.GlobalInv, W.OpenInv, Hist, DiskOk;
    WP.HistLsn(w.log, w.first, |w.log|, p, W.At(w.v0, p));
    WP.EmptyPageLog(w.first + |w.log|, p, W.At(w.cur, p));
    hide PageLogOk;
    assert W.Found(c, W.NewMeta(w), p) == Readable(W.At(w.cur, p));
    WP.ZeroedOnDisk([], w.first + |w.log|, p, W.At(w.cur, p));
  }

  /** With no transaction begun, nothing is undone: a checkpoint recovers to the same map
      from its old meta and from its new one, and it is the committed map. */
  lemma CheckpointIsInvisible(s: State, c: W.Crash)
    requires EngineOk(s) && W.MayLeave(s.wal, c) && MetaOut(s.wal)
    ensures |s.txn.log| == |s.txn.eff|
    ensures Recovered(s.txn.base, s.txn.log, s.txn.eff) == s.txn.m == Recovered(s.txn.m, [], [])
    ensures Committed(s.txn.base, s.txn.log, s.txn.eff) == s.txn.m && !TT.Leaks(s.txn.base, s.txn.log, s.txn.eff)
  {
    WalOk(s);
    TxnOf(s);
    LogsMatch(s);
    assert s.txn.begunTxns == s.wal.begunTxns by { LayersOf(s); hide Layers, CarrierOk, TreeWith, SaneAll; }
    NewMetaIs(s.wal, c);
    hide EngineOk, W.Inv, W.MayLeave, Committed;
    TL.ZeroMeansNone(s.txn);
    TT.NoLosers(s.txn);
    TT.RecoveryExact(s.txn);
    assert s.txn.m == Redo(s.txn.base, s.txn.eff) by {
      hide T.OpenOk, T.KeyOk, T.CleanOk, T.DeltaOk, T.ReplayOk, T.FlagsOk, T.LocksOk;
    }
    hide T.Inv, T.CountOk, Redo, Loser, TT.LeaksKey;
    NothingUndone(s.txn.log, |s.txn.log|, s.txn.m);
    NothingUndone([], 0, s.txn.m);
    assert Redo(s.txn.m, []) == s.txn.m;
    assert forall t, k :: !TT.LeaksKey(s.txn.base, s.txn.log, s.txn.eff, t, k) by { NoLeak(s.txn); }
  }

  lemma NoLeak(t: T.State)
    requires |t.log| == |t.eff| && forall u :: !Loser(t.log, u)
    ensures forall u, k :: !TT.LeaksKey(t.base, t.log, t.eff, u, k)
  {
    hide Loser;
  }

  lemma {:induction false} NothingUndone(log: seq<Record>, n: nat, m: KV)
    requires n <= |log| && forall t :: !Loser(log, t)
    ensures Undo(log, n, m) == m
    decreases n
  {
    hide Loser, Applicable;
    if n > 0 {
      NothingUndone(log, n - 1, m);
    }
  }

  // ------------------------------------------------------------ recovery

  /** The tree pages of a data file. */
  function TreePages(disk: map<PageId, Disk>): map<PageId, Node>
  {
    map p | p in disk && disk[p].Readable? && disk[p].v.node.Some? :: disk[p].v.node.value
  }

  lemma RedonePages(disk: map<PageId, Disk>, e: seq<Record>, first: nat, v0: map<PageId, Version>, g: Option<Shape>)
    requires forall p {:trigger W.At(v0, p)} :: Kept(e, first, |e|, p, W.At(v0, p)).node == TreePage(g, p)
    requires forall p {:trigger PageIn(disk, p)} :: PageIn(disk, p) == Readable(Kept(e, first, |e|, p, W.At(v0, p)))
    ensures TreePages(disk) == if g.Some? then g.value.pages else map[]
  {
    hide Kept;
    forall p: PageId ensures (if p in TreePages(disk) then Some(TreePages(disk)[p]) else None) == TreePage(g, p) {
      assert PageIn(disk, p) == Readable(Kept(e, first, |e|, p, W.At(v0, p)));
    }
  }

  lemma TreePagesExist(disk: map<PageId, Disk>, numPages: nat)
    requires forall p :: p in disk ==> p < numPages
    ensures forall p :: p in TreePages(disk) ==> p < numPages
  {
  }

  /** The redone file holds a tree, and that tree the redone map. */
  lemma TreeOpens(g: Option<Shape>, m: KV, pages: map<PageId, Node>)
    requires TreeWith(g, m) && pages == if g.Some? then g.value.pages else map[]
    ensures AllFit(pages)
    ensures if g.None? then pages == map[] && m == map[]
            else var h := Shape(pages, g.value.root, g.value.info, NoSplit); Domains(h) && Inv(h) && Holds(h, m)
  {
    hide Inv, Holds;
  }

  /** `DbImpl::Recover`: redo, then undo. Only the undo can fail, where the tree as it has
      left it has no place for the next before-image; with small records never. */
  method Recover(f: DataFile, records: seq<Record>, first: nat, ckpt: nat, ghost v0: map<PageId, Version>,
      ghost eff: Effects, ghost base: KV, ghost g: Option<Shape>)
    returns (ok: bool, tree: BPlusTree, ghost stop: nat, ghost stuck: Option<Shape>)
    requires f.Valid() && forall i :: 0 <= i < |records| ==> SaneRecord(records[i])
    requires var skip := Skipped(records, first, ckpt);
             && (forall p {:trigger f.Page(p)} :: Crashed(records[skip..], first + skip, p, W.At(v0, p), f.Page(p)))
             && RedoneTree(records[skip..], first + skip, v0, f.root, eff, base, g)
    modifies f
    ensures fresh(tree)
    ensures ok ==> tree.Valid() && tree.contents == Recovered(base, records[Skipped(records, first, ckpt)..], eff)
    ensures !ok ==> StopsAt(records[Skipped(records, first, ckpt)..], Redo(base, eff), stop, stuck)
    ensures AllSmall(if g.Some? then g.value.pages else map[]) ==>
            (forall i :: 0 <= i < |records| ==> SmallBefore(records[i])) ==> ok
  {
    hide Crashed, SaneRecord, Kept, W.RootRedone, Applicable, Undo, Redo, AllSmall, SmallBefore, TreePages, TreeWith,
         StopsAt;
    ghost var skip := Skipped(records, first, ckpt);
    ghost var e := records[skip..];
    var redone, applicable := RedoCrashed(f, records, first, ckpt, v0);
    ghost var disk := f.disk;
    assert forall p {:trigger PageIn(disk, p)} :: PageIn(disk, p) == f.Page(p);
    RedonePages(f.disk, e, first + skip, v0, g);
    var pages := TreePages(f.disk);
    TreePagesExist(f.disk, f.numPages);
    TreeOpens(g, Redo(base, eff), pages);
    tree := new BPlusTree.Over(pages, f.root, f.numPages, if g.Some? then g.value.info else map[], Redo(base, eff));
    var flags := NoteOutcomes(records, first, ckpt);
    ok, stop, stuck := UndoLosers(tree, records, first, ckpt, applicable, flags);
  }

  // ------------------------------------------------------------ pages found are pages written

  lemma {:induction false} KeptSane(log: seq<Record>, first: nat, n: nat, p: PageId, v0: Version)
    requires n <= |log| && Sane(v0.node) && forall i :: 0 <= i < |log| ==> SaneRecord(log[i])
    ensures Sane(Kept(log, first, n, p, v0).node)
    decreases n
  {
    hide Applicable, Sorted, LeafWrite, LeafErase;
    if n > 0 {
      KeptSane(log, first, n - 1, p, v0);
      var v := Kept(log, first, n - 1, p, v0);
      var b := log[n - 1].body;
      if IsLeafNode(v.node) {
        SaneWrite(v.node.value, if b.PutRec? || b.DeleteRec? then b.key else [], if b.PutRec? then b.value else []);
      }
    }
  }

  lemma DiskSane(log: seq<Record>, first: nat, p: PageId, v0: Version, d: Disk)
    requires Crashed(log, first, p, v0, d) && Sane(v0.node) && forall i :: 0 <= i < |log| ==> SaneRecord(log[i])
    ensures SaneDisk(d)
  {
    hide PageLogOk, Applicable, Kept, Sane;
    if d != Readable(v0) && d.Readable? {
      var j: nat :| IsAt(log, first, p, v0, d, j);
      KeptSane(log, first, j + 1, p, v0);
    }
  }

  /** Records that any split has room for. */
  ghost predicate SmallLogged(r: Record)
  {
    && SmallBefore(r)
    && (r.body.PageImage? ==> NodeSmall(r.body.node))
    && (r.body.PutRec? ==> SmallRecord(r.body.key, r.body.value))
  }

  /** Starting pages and log hold small records only. */
  ghost predicate SmallFrom(v0: map<PageId, Version>, log: seq<Record>)
  {
    && (forall p {:trigger W.At(v0, p)} :: W.At(v0, p).node.Some? ==> NodeSmall(W.At(v0, p).node.value))
    && (forall i :: 0 <= i < |log| ==> SmallLogged(log[i]))
  }

  lemma {:induction false} KeptSmall(log: seq<Record>, first: nat, n: nat, p: PageId, v0: Version)
    requires n <= |log| && (v0.node.Some? ==> NodeSmall(v0.node.value)) && forall i :: 0 <= i < |log| ==>
             SmallLogged(log[i])
    ensures var v := Kept(log, first, n, p, v0); v.node.Some? ==> NodeSmall(v.node.value)
    decreases n
  {
    hide Applicable, LeafWrite, LeafErase, NodeSmall, SmallRecord, SmallBefore;
    if n > 0 {
      KeptSmall(log, first, n - 1, p, v0);
      var v := Kept(log, first, n - 1, p, v0);
      var b := log[n - 1].body;
      assert SmallLogged(log[n - 1]);
      if IsLeafNode(v.node) && (b.PutRec? || b.DeleteRec?) {
        WriteSmall(v.node.value, b.key, if b.PutRec? then b.value else []);
        EraseFits(v.node.value, b.key);
      }
    }
  }

  lemma TreeSmall(e: seq<Record>, first: nat, v0: map<PageId, Version>, g: Option<Shape>)
    requires forall p {:trigger W.At(v0, p)} :: Kept(e, first, |e|, p, W.At(v0, p)).node == TreePage(g, p)
    requires SmallFrom(v0, e)
    ensures AllSmall(if g.Some? then g.value.pages else map[])
  {
    hide Kept, NodeSmall, SmallLogged;
    if g.Some? {
      forall p | p in g.value.pages ensures NodeSmall(g.value.pages[p]) {
        KeptSmall(e, first, |e|, p, W.At(v0, p));
        assert Kept(e, first, |e|, p, W.At(v0, p)).node == TreePage(g, p);
      }
    }
  }

  // ------------------------------------------------------------ a crash during redo

  /** The data file after a second crash, `n` records into redo: each page the file had at
      the checkpoint as some moment of redo left it. The meta is not rewritten by redo. */
  ghost predicate MidRedoFile(e: seq<Record>, first: nat, n: nat, c: W.Crash, again: W.Crash, meta: W.Meta)
    requires n <= |e|
  {
    forall p: PageId {:trigger W.Found(again, meta, p)} :: p < meta.numPages ==>
      MidRedo(e, first, n, p, W.Found(c, meta, p), W.Found(again, meta, p))
  }

  /** Redo stopped anywhere with any pages flushed, and started over with the pages past
      the meta's count zeroed anew: the file is again one redo can start from, and redo
      ends with the same pages and the same root. */
  lemma RedoStartsOver(e: seq<Record>, first: nat, v0: map<PageId, Version>, n: nat, c: W.Crash, again: W.Crash,
      meta: W.Meta)
    requires n <= |e| && CrashedFile(e, first, v0, c, meta) && MidRedoFile(e, first, n, c, again, meta)
    ensures CrashedFile(e, first, v0, again, meta)
    ensures forall p {:trigger W.Found(again, meta, p)} ::
              RedoPage(e, first, |e|, p, W.Found(again, meta, p)) == RedoPage(e, first, |e|, p, W.Found(c, meta, p))
              == Some(Readable(Kept(e, first, |e|, p, W.At(v0, p))))
  {
    hide MidRedo, PageLogOk, DiskOk, RedoPage, Kept;
    forall p
      ensures Crashed(e, first, p, W.At(v0, p), W.Found(again, meta, p))
      ensures RedoPage(e, first, |e|, p, W.Found(again, meta, p)) == RedoPage(e, first, |e|, p, W.Found(c, meta, p))
      ensures RedoPage(e, first, |e|, p, W.Found(again, meta, p)) == Some(Readable(Kept(e, first, |e|, p, W.At(v0, p))))
    {
      assert Crashed(e, first, p, W.At(v0, p), W.Found(c, meta, p));
      assert MidRedo(e, first, n, p, W.Found(c, meta, p), W.Found(again, meta, p)) by {
        StillZeroed(e, first, n, c, again, meta, p);
      }
      MidRedoIsDisk(e, first, n, p, W.At(v0, p), W.Found(c, meta, p), W.Found(again, meta, p));
      RedoRestarts(e, first, n, p, W.At(v0, p), W.Found(c, meta, p), W.Found(again, meta, p));
    }
  }

  lemma StillZeroed(e: seq<Record>, first: nat, n: nat, c: W.Crash, again: W.Crash, meta: W.Meta, p: PageId)
    requires n <= |e| && MidRedoFile(e, first, n, c, again, meta)
    ensures MidRedo(e, first, n, p, W.Found(c, meta, p), W.Found(again, meta, p))
  {
    hide RedoPage, Applicable;
    if p >= meta.numPages {
      assert W.Found(again, meta, p) == W.Found(c, meta, p);
    }
  }

  // ------------------------------------------------------------ any crash of any run

  /** The data file as the pager opens it after the crash: the chosen meta's root and page
      count, pages as the crash left them. */
  ghost predicate Opened(f: DataFile, c: W.Crash, meta: W.Meta)
    reads f
  {
    && f.root == meta.root && f.numPages == meta.numPages
    && (forall p: PageId :: p in f.disk <==> p < meta.numPages)
    && (forall p {:trigger W.Found(c, meta, p)} :: f.Page(p) == W.Found(c, meta, p))
  }

  /** `Pager::Open`: the newer intact meta, and the pages it counts. */
  method OpenFile(c: W.Crash, ghost w: W.State) returns (f: DataFile, meta: W.Meta)
    requires W.Inv(w) && W.MayLeave(w, c)
    ensures fresh(f) && W.Choose(c.even, c.odd) == Some(meta) && Opened(f, c, meta)
  {
    hide W.Inv, W.MayLeave, W.Choose;
    MetaFound(w, c);
    meta := W.Choose(c.even, c.odd).value;
    f := new DataFile(map p | p in c.disk && p < meta.numPages :: c.disk[p], meta.numPages, meta.root);
  }

  /** There is a meta to choose, and every page it counts is in the file. */
  lemma MetaFound(w: W.State, c: W.Crash)
    requires W.Inv(w) && W.MayLeave(w, c)
    ensures var meta := W.Choose(c.even, c.odd);
            meta.Some? && forall p: PageId :: p < meta.value.numPages ==> p in c.disk
  {
    assert W.GlobalInv(w) by { hide W.PageInv, W.FileInv, W.OpenInv, W.GlobalInv; }
    WP.MetaChoice(w, c);
    hide W.MetasOk, W.RootAfter, W.RootsEnd, W.Choose;
    forall p: PageId | p < W.Choose(c.even, c.odd).value.numPages ensures p in c.disk {
      assert W.FileInv(w, p);
    }
  }

  lemma OpenedValid(f: DataFile, c: W.Crash, meta: W.Meta, e: seq<Record>, first: nat, v0: map<PageId, Version>)
    requires Opened(f, c, meta) && CrashedFile(e, first, v0, c, meta) && forall i :: 0 <= i < |e| ==> SaneRecord(e[i])
    requires forall p {:trigger W.At(v0, p)} :: Sane(W.At(v0, p).node)
    ensures f.Valid() && forall p {:trigger f.Page(p)} :: Crashed(e, first, p, W.At(v0, p), f.Page(p))
  {
    hide Crashed, Sane, SaneRecord, SaneDisk;
    forall p ensures Crashed(e, first, p, W.At(v0, p), f.Page(p)) && SaneDisk(f.Page(p)) {
      assert f.Page(p) == W.Found(c, meta, p);
      DiskSane(e, first, p, W.At(v0, p), f.Page(p));
    }
    assert forall p :: p in f.disk ==> f.Page(p) == f.disk[p];
  }

  lemma SaneOf(s: State)
    requires EngineOk(s)
    ensures SaneAll(s) && TreeWith(s.settled, s.txn.m)
  {
    hide Layers, Coupled, CarrierOk, TreeWith, SaneAll, KeptIs, JobOk, HeldOk;
  }

  /** Pages in memory at a checkpoint, when nobody holds any. */
  lemma AtRest(s: State, p: PageId)
    requires EngineOk(s) && s.wal.ops == map[]
    ensures W.At(s.wal.cur, p) == KeptNow(s.wal, p) && Sane(W.At(s.wal.cur, p).node)
  {
    UnheldIsTree(s, p);
    SaneOf(s);
    WalOk(s);
    hide EngineOk, W.Inv, KeptNow;
    UnheldIsKept(s.wal, p);
    NodesInOrder(s.settled, s.txn.m, p);
  }

  lemma NodesInOrder(g: Option<Shape>, m: KV, p: PageId)
    requires TreeWith(g, m)
    ensures Sane(TreePage(g, p))
  {
    if g.Some? && p in g.value.pages { NodeFacts(g.value, p); }
  }

  /** What the chosen meta makes of the crash: a log to replay, the pages it starts from, and
      the tree redo will find; whichever meta it is, the same recovered map. */
  ghost predicate Resumes(s: State, c: W.Crash, meta: W.Meta, e: seq<Record>, first: nat, v0: map<PageId, Version>,
      eff: Effects, base: KV, g: Option<Shape>)
  {
    && RedoneTree(e, first, v0, meta.root, eff, base, g) && CrashedFile(e, first, v0, c, meta)
    && (forall p {:trigger W.At(v0, p)} :: Sane(W.At(v0, p).node))
    && (forall i :: 0 <= i < |e| ==> SaneRecord(e[i]))
    && c.n <= |s.wal.log| == |s.txn.eff|
    && Recovered(base, e, eff) == Recovered(s.txn.base, s.wal.log[..c.n], s.txn.eff[..c.n])
    && (SmallFrom(s.wal.v0, s.wal.log[..c.n]) ==> AllSmall(if g.Some? then g.value.pages else map[]))
  }

  lemma ResumesLast(states: seq<State>, steps: seq<Step>, i: nat, c: W.Crash) returns (g: Option<Shape>)
    requires Run(states, steps) && i < |states| && W.MayLeave(states[i].wal, c)
    ensures c.n <= |states[i].wal.log| && c.n <= |states[i].txn.eff|
    ensures var s := states[i];
            Resumes(s, c, s.wal.last, s.wal.log[..c.n], s.wal.first, s.wal.v0, s.txn.eff[..c.n], s.txn.base, g)
  {
    hide Run, EngineOk, W.MayLeave, TreeWith, Kept, Redo, Recovered, Crashed, Sane, SaneRecord, AllSmall, SmallLogged,
         NodeSmall, W.RootRedone, CrashedFile;
    var s := states[i];
    RunOk(states, steps, i);
    g := FromLastMeta(states, steps, i, c);
    LogsMatch(s);
    SaneOf(s);
    if SmallFrom(s.wal.v0, s.wal.log[..c.n]) {
      TreeSmall(s.wal.log[..c.n], s.wal.first, s.wal.v0, g);
    }
  }

  lemma ResumesNew(s: State, c: W.Crash)
    requires EngineOk(s) && W.MayLeave(s.wal, c) && MetaOut(s.wal)
    ensures Resumes(s, c, s.wal.ck.m, [], s.wal.ck.m.ckpt, s.wal.cur, [], s.txn.m, s.settled)
  {
    hide EngineOk, W.MayLeave, TreeWith, Kept, Redo, Recovered, Crashed, Sane, SaneRecord, AllSmall, SmallLogged,
         NodeSmall, W.RootRedone, CrashedFile, Committed, TT.Leaks;
    FromNewMeta(s, c);
    CheckpointIsInvisible(s, c);
    LogsMatch(s);
    WalOk(s);
    NewMetaIs(s.wal, c);
    hide W.Inv;
    assert s.wal.log[..c.n] == s.wal.log && s.txn.eff[..c.n] == s.txn.eff;
    forall p
      ensures Sane(W.At(s.wal.cur, p).node) && W.At(s.wal.cur, p)
              == Kept(s.wal.log, s.wal.first, |s.wal.log|, p, W.At(s.wal.v0, p))
    {
      AtRest(s, p);
    }
    if SmallFrom(s.wal.v0, s.wal.log[..c.n]) {
      forall p | W.At(s.wal.cur, p).node.Some? ensures NodeSmall(W.At(s.wal.cur, p).node.value) {
        KeptSmall(s.wal.log, s.wal.first, |s.wal.log|, p, W.At(s.wal.v0, p));
      }
      TreeSmall([], s.wal.ck.m.ckpt, s.wal.cur, s.settled);
    }
  }

  /** At every step of a checkpoint, with either meta torn or not: from the old meta, with
      the whole log replayed and its losers undone, and from the new meta, with nothing
      replayed, recovery reaches the same map. */
  lemma MetasAgree(states: seq<State>, steps: seq<Step>, i: nat, c: W.Crash) returns (g: Option<Shape>)
    requires Run(states, steps) && i < |states| && W.MayLeave(states[i].wal, c) && MetaOut(states[i].wal)
    ensures c.n == |states[i].wal.log| == |states[i].txn.eff|
    ensures var s := states[i];
            && Resumes(s, c, s.wal.last, s.wal.log, s.wal.first, s.wal.v0, s.txn.eff, s.txn.base, g)
            && Resumes(s, c, s.wal.ck.m, [], s.wal.ck.m.ckpt, s.wal.cur, [], s.txn.m, s.settled)
            && Recovered(s.txn.base, s.wal.log, s.txn.eff) == Recovered(s.txn.m, [], []) == s.txn.m
  {
    hide Run, EngineOk, Resumes, W.MayLeave, Recovered, Committed, TT.Leaks;
    var s := states[i];
    RunOk(states, steps, i);
    g := ResumesLast(states, steps, i, c);
    ResumesNew(s, c);
    CheckpointIsInvisible(s, c);
    LogsMatch(s);
    WalOk(s);
    NewMetaIs(s.wal, c);
    hide W.Inv;
    assert s.wal.log[..c.n] == s.wal.log && s.txn.eff[..c.n] == s.txn.eff;
  }

  /** The theorem of the project. Take any run of the engine and any crash at any moment of
      it, the log cut anywhere past what was promised, pages and metas as they were, as
      written, or torn. The code's recovery from what is left gives a lawful tree. Its map
      is the one the committed transactions made, if and only if no loser leaks the first
      insert; and it does not depend on which meta was chosen. */
  method RecoverAfterCrash(c: W.Crash, records: seq<Record>, first: nat, ghost states: seq<State>,
      ghost steps: seq<Step>, ghost i: nat)
    returns (ok: bool, tree: BPlusTree, ghost stop: nat, ghost stuck: Option<Shape>)
    requires Run(states, steps) && i < |states| && W.MayLeave(states[i].wal, c)
    requires records == states[i].wal.log[..c.n] && first == states[i].wal.first
    ensures fresh(tree) && |records| == c.n <= |states[i].txn.eff|
    ensures var (base, eff) := (states[i].txn.base, states[i].txn.eff[..c.n]);
            ok ==> tree.Valid() && tree.contents == Recovered(base, records, eff)
                   && (tree.contents == Committed(base, records, eff) <==> !TT.Leaks(base, records, eff))
    ensures var (base, eff) := (states[i].txn.base, states[i].txn.eff[..c.n]);
            !ok ==> StopsAt(records, Redo(base, eff), stop, stuck)
    ensures SmallFrom(states[i].wal.v0, records) ==> ok
  {
    hide Run, EngineOk, TreeWith, Kept, Redo, Recovered, Committed, TT.Leaks, Crashed, Sane, SaneRecord, AllSmall,
         SmallLogged, NodeSmall, SmallBefore, W.Inv, W.RootRedone, CrashedFile, W.MayLeave, W.Choose, Undo,
         StopsAt;
    ghost var s := states[i];
    RunOk(states, steps, i);
    WalOk(s);
    CutOf(s.wal, c);
    var f, meta := OpenFile(c, s.wal);
    ghost var g, e, from, v0, eff, base := Resumed(states, steps, i, c, meta);
    Start(s, c, meta, records, e, from);
    OpenedValid(f, c, meta, e, from, v0);
    assert forall j :: 0 <= j < |records| ==> SaneRecord(records[j]) by { SaneOf(s); }
    ok, tree, stop, stuck := Recover(f, records, first, meta.ckpt, v0, eff, base, g);
    if e == [] { NeverStops(Redo(base, eff), stop, stuck); }
    ghost var cut := TreeAtEveryCut(states, steps, i, c.n);
    SmallBeforeAll(s.wal.v0, records);
  }

  lemma NeverStops(m: KV, stop: nat, stuck: Option<Shape>)
    ensures !StopsAt([], m, stop, stuck)
  {
  }

  lemma SmallBeforeAll(v0: map<PageId, Version>, records: seq<Record>)
    ensures SmallFrom(v0, records) ==> forall j :: 0 <= j < |records| ==> SmallBefore(records[j])
  {
  }

  lemma Resumed(states: seq<State>, steps: seq<Step>, i: nat, c: W.Crash, meta: W.Meta)
    returns (g: Option<Shape>, e: seq<Record>, from: nat, v0: map<PageId, Version>, eff: Effects, base: KV)
    requires Run(states, steps) && i < |states| && W.MayLeave(states[i].wal, c) && W.Choose(c.even, c.odd) == Some(meta)
    ensures Resumes(states[i], c, meta, e, from, v0, eff, base, g)
    ensures c.n <= |states[i].wal.log|
    ensures (e == states[i].wal.log[..c.n] && from == states[i].wal.first && meta.ckpt <= from
             && c.n <= |states[i].txn.eff| && eff == states[i].txn.eff[..c.n] && base == states[i].txn.base)
            || (e == [] && from == meta.ckpt == states[i].wal.first + c.n)
  {
    hide Run, EngineOk, Resumes, W.MayLeave, W.Choose;
    var s := states[i];
    RunOk(states, steps, i);
    WalOk(s);
    assert W.GlobalInv(s.wal) by { hide W.PageInv, W.FileInv, W.OpenInv, W.GlobalInv; }
    hide W.Inv;
    WP.MetaChoice(s.wal, c);
    CutOf(s.wal, c);
    if meta == s.wal.last {
      hide W.RootAfter, W.RootsEnd, W.MetasOk;
      g := ResumesLast(states, steps, i, c);
      e, from, v0, eff, base := s.wal.log[..c.n], s.wal.first, s.wal.v0, s.txn.eff[..c.n], s.txn.base;
    } else {
      FromNewMeta(s, c);
      ResumesNew(s, c);
      g, e, from, v0, eff, base := s.settled, [], s.wal.ck.m.ckpt, s.wal.cur, [], s.txn.m;
    }
  }

  /** The records recovery replays, as the loops count them. */
  lemma Start(s: State, c: W.Crash, meta: W.Meta, records: seq<Record>, e: seq<Record>, from: nat)
    requires c.n <= |s.wal.log| && records == s.wal.log[..c.n]
    requires (e == records && from == s.wal.first && meta.ckpt <= from)
             || (e == [] && from == meta.ckpt == s.wal.first + c.n)
    ensures var skip := Skipped(records, s.wal.first, meta.ckpt);
            records[skip..] == e == W.Replayed(records, s.wal.first, meta.ckpt) && from == s.wal.first + skip
  {
    ReplayedIsRest(records, s.wal.first, meta.ckpt);
  }
}
