/** Steps of the engine that change no page: latches, locks, flushes, checkpoints,
    markers, and a group being opened or taking hold of a page. */
module EngineSteps {
  import opened Keys
  import opened Nodes
  import opened TxnLog
  import opened PageRedo
  import opened TreeShape
  import opened TreeSplits
  import opened EngineMachine
  import opened EngineInv
  import opened KeptPages
  import L = LatchMachine
  import LP = LatchProof
  import Locks
  import W = WalMachine
  import WP = WalProof
  import T = TxnMachine
  import TT = TxnTheorems

  // ------------------------------------------------------------ what a step need not touch

  predicate SameOp(a: T.OpenOp, b: T.OpenOp) { a.key == b.key && a.value == b.value && a.kind == b.kind }

  /** Job `y`, its thread and its operation are the same in both states. */
  ghost predicate SameJob(s: State, s': State, y: TxId)
  {
    && y in s.jobs && y in s'.jobs && s'.jobs[y] == s.jobs[y]
    && s.jobs[y].tid in s.latch.threads && s.jobs[y].tid in s'.latch.threads
    && s'.latch.threads[s.jobs[y].tid] == s.latch.threads[s.jobs[y].tid]
    && y in s.txn.open && y in s'.txn.open && SameOp(s.txn.open[y], s'.txn.open[y])
    && y in s.wal.ops && y in s'.wal.ops
  }

  ghost predicate SamePage(s: State, s': State, p: PageId)
  {
    && W.At(s'.wal.cur, p).node == W.At(s.wal.cur, p).node
    && TreePage(s'.latch.tree, p) == TreePage(s.latch.tree, p)
  }

  ghost predicate SameTop(s: State, s': State)
  {
    s.latch.tree.Some? == s'.latch.tree.Some?
    && (s.latch.tree.Some? && s'.latch.tree.Some? ==> GrowNode(s'.latch.tree.value) == GrowNode(s.latch.tree.value))
  }

  lemma JobKeeps(s: State, s': State, y: TxId)
    requires JobOk(s, y) && SameJob(s, s', y) && s.wal.ops[y] <= s'.wal.ops[y]
    requires s.jobs[y].stage.Growing? ==> SameTop(s, s')
    ensures JobOk(s', y)
  {
    hide Fits, GrowNode;
  }

  lemma HeldKeeps(s: State, s': State, y: TxId, p: PageId)
    requires HeldOk(s, y, p) && SameJob(s, s', y) && SamePage(s, s', p) && s'.wal.ops[y] == s.wal.ops[y]
    requires s.jobs[y].stage.Growing? ==> SameTop(s, s')
    ensures HeldOk(s', y, p)
  {
    hide GrowNode, SaneBody, TreePage;
  }

  // ------------------------------------------------------------ latch steps

  /** Latches move, the tree stays, and so do the threads that write for a group. */
  lemma OnlyLatch(s: State, s': State, t: L.Tid)
    requires EngineOk(s) && s' == s.(latch := s'.latch) && s'.latch.tree == s.latch.tree && Free(s, t)
    requires forall u :: u in s.latch.threads && u != t ==>
             u in s'.latch.threads && s'.latch.threads[u] == s.latch.threads[u]
    requires L.LatchInv(s'.latch, MapNow(s))
    ensures EngineOk(s')
  {
    hide L.LatchInv, W.Inv, T.Inv, T.CountOk, TreeWith, KeptNow, JobOk, HeldOk, SameJob, SamePage, SameTop, Ahead,
         AllFit, Free;
    forall x ensures JobOk(s', x) {
      assert JobOk(s, x);
      if x in s.jobs {
        FreeOfJob(s, s', t, x);
        JobKeeps(s, s', x);
      } else {
        NoJob(s', x);
      }
    }
    forall x, p ensures HeldOk(s', x, p) {
      assert JobOk(s, x) && HeldOk(s, x, p);
      if x in s.jobs {
        FreeOfJob(s, s', t, x);
        assert SamePage(s, s', p);
        HeldKeeps(s, s', x, p);
      } else {
        NoJob(s', x);
      }
    }
    forall p ensures KeptIs(s', p) {
      assert KeptIs(s, p);
    }
  }

  lemma FreeOfJob(s: State, s': State, t: L.Tid, x: TxId)
    requires s' == s.(latch := s'.latch) && s'.latch.tree == s.latch.tree && Free(s, t) && x in s.jobs && JobOk(s, x)
    requires forall u :: u in s.latch.threads && u != t ==>
             u in s'.latch.threads && s'.latch.threads[u] == s.latch.threads[u]
    ensures SameJob(s, s', x) && SameTop(s, s') && s'.wal.ops == s.wal.ops && x in s.wal.ops
    ensures forall p :: SamePage(s, s', p)
  {
    hide GrowNode, SaneBody, Matches, TreePage, StageOk;
  }

  lemma LatchStays(s: L.State, s': L.State, step: L.Step)
    requires L.Next(s, s', step) && !Mutates(step)
    ensures s'.tree == s.tree && forall u :: u in s.threads && u != step.t ==>
            u in s'.threads && s'.threads[u] == s.threads[u]
    ensures forall m :: L.Effect(s, step, m) == m
  {
    hide Fits, LeafWrite, L.Found, L.MayLatch, L.MayWrite, L.NextChild;
  }

  lemma StepLatch(s: State, s': State, step: L.Step)
    requires EngineOk(s) && DoLatch(s, s', step)
    ensures EngineOk(s')
  {
    hide EngineOk, L.LatchInv, L.Next, L.Effect, Free, Mutates, Coupled, CarrierOk, TreeWith, SaneAll;
    LayersOf(s);
    LatchStays(s.latch, s'.latch, step);
    LP.NextKeeps(s.latch, MapNow(s), s'.latch, step);
    OnlyLatch(s, s', step.t);
  }

  /** A delete that misses changes nothing. */
  lemma MissStays(s: L.State, m: KV, s': L.State, t: L.Tid)
    requires L.LatchInv(s, m) && L.Next(s, s', L.EraseLeaf(t)) && s.threads[t].pc.Down? && s.tree.Some?
    requires s.threads[t].pc.cur in s.tree.value.pages
    requires !Has(s.tree.value.pages[s.threads[t].pc.cur].keys, s.threads[t].op.key)
    ensures s'.tree == s.tree && forall u :: u in s.threads && u != t ==>
            u in s'.threads && s'.threads[u] == s.threads[u]
    ensures L.LatchInv(s', m)
  {
    var x := s.threads[t];
    assert L.ThreadOk(s, x) && L.TreeOk(s, m);
    hide L.LatchInv, Has;
    LP.NextKeeps(s, m, s', L.EraseLeaf(t));
    LP.LeafSays(s, m, x.pc.cur, x.op.key);
    hide L.ThreadOk, L.TreeOk;
    assert m - {x.op.key} == m;
    var g := s.tree.value;
    assert g.pages[x.pc.cur := g.pages[x.pc.cur]] == g.pages;
  }

  lemma StepMiss(s: State, s': State, t: L.Tid)
    requires EngineOk(s) && DoMiss(s, s', t)
    ensures EngineOk(s')
  {
    hide EngineOk, L.LatchInv, LeafErase, L.Found, Free, Coupled, CarrierOk, TreeWith, SaneAll, Has;
    LayersOf(s);
    MissStays(s.latch, MapNow(s), s'.latch, t);
    OnlyLatch(s, s', t);
  }

  // ------------------------------------------------------------ transaction steps

  /** Transactions move, but neither log nor map nor any open group. */
  lemma OnlyTxn(s: State, s': State)
    requires EngineOk(s) && s' == s.(txn := s'.txn) && T.Inv(s'.txn) && T.CountOk(s'.txn)
    requires s'.txn.log == s.txn.log && s'.txn.m == s.txn.m && s'.txn.open == s.txn.open
             && s'.txn.rooted == s.txn.rooted
    requires s'.txn.begunTxns == s.txn.begunTxns
    ensures EngineOk(s')
  {
    hide L.LatchInv, W.Inv, T.Inv, T.CountOk, TreeWith, KeptNow;
    forall x ensures JobOk(s', x) {
      assert JobOk(s, x);
    }
    forall x, p ensures HeldOk(s', x, p) {
      assert HeldOk(s, x, p);
    }
    forall p ensures KeptIs(s', p) {
      assert KeptIs(s, p);
    }
  }

  lemma TxnStays(s: T.State, s': T.State, step: T.Step)
    requires T.Next(s, s', step)
    requires step.BeginTxn? || step.AcquireLock? || step.StartAbort? || step.SkipInverse? || step.ReadKey?
             || ((step.CommitTxn? || step.FinishAbort?) && step.t in s.txns && !s.txns[step.t].begun)
    ensures s'.log == s.log && s'.eff == s.eff && s'.base == s.base && s'.m == s.m && s'.open == s.open
    ensures s'.rooted == s.rooted && s'.begunTxns == s.begunTxns
  {
    hide Locks.Grant, Locks.Blocked, Locks.Holds, Get, Locks.Release;
  }

  lemma StepTxn(s: State, s': State, step: T.Step)
    requires EngineOk(s) && DoTxn(s, s', step)
    ensures EngineOk(s')
  {
    hide EngineOk, T.Next, T.Inv, T.CountOk, Coupled, CarrierOk, TreeWith, SaneAll;
    LayersOf(s);
    TxnStays(s.txn, s'.txn, step);
    TT.NextInv(s.txn, s'.txn, step);
    OnlyTxn(s, s');
  }

  lemma StepMissInverse(s: State, s': State, x: TxId, tid: L.Tid)
    requires EngineOk(s) && DoMissInverse(s, s', x, tid)
    ensures EngineOk(s')
  {
    hide EngineOk, T.Next, T.Inv, T.CountOk, DoMiss;
    var mid := s'.(txn := s.txn);
    StepMiss(s, mid, tid);
    LayersOf(mid);
    hide Coupled, CarrierOk, TreeWith, SaneAll;
    TxnStays(s.txn, s'.txn, T.SkipInverse(x));
    TT.NextInv(s.txn, s'.txn, T.SkipInverse(x));
    OnlyTxn(mid, s');
  }

  lemma StepRead(s: State, s': State, x: TxId, tid: L.Tid)
    requires EngineOk(s) && DoRead(s, s', x, tid)
    ensures EngineOk(s')
  {
    hide EngineOk, T.Next, T.Inv, T.CountOk, L.Next, Free;
    var mid := s'.(txn := s.txn);
    assert DoLatch(s, mid, L.ReadLeaf(tid)) || DoLatch(s, mid, L.FindEmpty(tid));
    if DoLatch(s, mid, L.ReadLeaf(tid)) {
      StepLatch(s, mid, L.ReadLeaf(tid));
    } else {
      StepLatch(s, mid, L.FindEmpty(tid));
    }
    LayersOf(mid);
    hide Coupled, CarrierOk, TreeWith, SaneAll, DoLatch;
    var step := T.ReadKey(x, s.latch.threads[tid].op.key);
    TxnStays(s.txn, s'.txn, step);
    TT.NextInv(s.txn, s'.txn, step);
    OnlyTxn(mid, s');
  }

  // ------------------------------------------------------------ the page and log layer

  ghost predicate QuietWal(w: W.State, w': W.State)
  {
    && w'.log == w.log && w'.first == w.first && w'.v0 == w.v0 && w'.cur == w.cur && w'.ops == w.ops
    && w'.root == w.root && w'.begunTxns == w.begunTxns && w'.last == w.last
  }

  lemma OnlyWal(s: State, s': State)
    requires EngineOk(s) && s' == s.(wal := s'.wal) && W.Inv(s'.wal) && QuietWal(s.wal, s'.wal)
    ensures EngineOk(s')
  {
    hide L.LatchInv, W.Inv, T.Inv, T.CountOk, TreeWith;
    forall x ensures JobOk(s', x) {
      assert JobOk(s, x);
    }
    forall x, p ensures HeldOk(s', x, p) {
      assert HeldOk(s, x, p);
    }
    forall p ensures KeptIs(s', p) {
      assert KeptIs(s, p);
    }
  }

  lemma WalStays(w: W.State, w': W.State, step: W.Step)
    requires W.Next(w, w', step)
    requires step.FlushLog? || step.WriteBack? || step.CkStart? || step.CkSync? || step.CkStop? || step.CkMeta?
             || step.CkMetaSync?
    ensures QuietWal(w, w')
  {
  }

  lemma StepWal(s: State, s': State, step: W.Step)
    requires EngineOk(s) && DoWal(s, s', step)
    ensures EngineOk(s')
  {
    hide EngineOk, W.Next, W.Inv, QuietWal, Coupled, CarrierOk, TreeWith, SaneAll;
    LayersOf(s);
    WalStays(s.wal, s'.wal, step);
    WP.NextInv(s.wal, s'.wal, step);
    OnlyWal(s, s');
  }

  /** A record of its own group, on no page: Begin, Commit, Abort, Checkpoint. */
  ghost predicate Marked(s: State, s': State, r: Record)
  {
    && s' == s.(wal := s'.wal, txn := s'.txn)
    && r.opEnd && (r.body.Begin? || r.body.Commit? || r.body.Abort? || r.body.Checkpoint?) && r.txid !in s.wal.ops
    && s'.wal.log == s.wal.log + [r] && s'.txn.log == s.txn.log + [r]
    && s'.wal.first == s.wal.first && s'.wal.v0 == s.wal.v0 && s'.wal.cur == s.wal.cur && s'.wal.ops == s.wal.ops
    && s'.wal.root == s.wal.root && s'.wal.begunTxns == s'.txn.begunTxns && s'.wal.last == s.wal.last
    && s'.txn.m == s.txn.m && s'.txn.open == s.txn.open && s'.txn.rooted == s.txn.rooted
  }

  lemma MarkedKeeps(s: State, s': State, r: Record)
    requires EngineOk(s) && Marked(s, s', r) && W.Inv(s'.wal) && T.Inv(s'.txn) && T.CountOk(s'.txn)
    ensures EngineOk(s')
  {
    hide L.LatchInv, W.Inv, T.Inv, T.CountOk, TreeWith;
    forall x ensures JobOk(s', x) {
      assert JobOk(s, x);
    }
    forall x, p ensures HeldOk(s', x, p) {
      assert HeldOk(s, x, p);
    }
    forall p ensures KeptIs(s', p) {
      assert KeptIs(s, p);
      assert s'.wal.ops == s.wal.ops - {r.txid};
      hide KeptNow;
      EndRecord(s.wal, s'.wal, r, p);
    }
  }

  lemma MarkerTxn(s: T.State, s': T.State, x: TxId, b: Body)
    requires b.Begin? || b.Commit? || b.Abort?
    requires T.Next(s, s', if b.Begin? then T.LogBegin(x) else if b.Commit? then T.CommitTxn(x) else T.FinishAbort(x))
    requires b.Commit? || b.Abort? ==> x in s.txns && s.txns[x].begun
    ensures s'.log == s.log + [Record(x, true, b)] && s'.eff == s.eff + [None] && s'.base == s.base
    ensures s'.m == s.m && s'.open == s.open && s'.rooted == s.rooted && s'.begunTxns == W.Counted(s.begunTxns, b)
  {
    hide Locks.Release;
  }

  lemma MarkerWal(w: W.State, w': W.State, x: TxId, b: Body)
    requires W.Next(w, w', W.LogOther(x, b, true)) && (b.Begin? || b.Commit? || b.Abort?)
    ensures x !in w.ops && w'.log == w.log + [Record(x, true, b)] && w'.first == w.first && w'.v0 == w.v0
            && w'.cur == w.cur
    ensures w'.ops == w.ops && w'.root == w.root && w'.begunTxns == W.Counted(w.begunTxns, b) && w'.last == w.last
  {
  }

  lemma StepMarker(s: State, s': State, x: TxId, b: Body)
    requires EngineOk(s) && DoMarker(s, s', x, b)
    ensures EngineOk(s')
  {
    hide EngineOk, W.Next, W.Inv, T.Next, T.Inv, T.CountOk, CarrierOk, TreeWith, SaneAll;
    LayersOf(s);
    var step := if b.Begin? then T.LogBegin(x) else if b.Commit? then T.CommitTxn(x) else T.FinishAbort(x);
    MarkerTxn(s.txn, s'.txn, x, b);
    MarkerWal(s.wal, s'.wal, x, b);
    WP.NextInv(s.wal, s'.wal, W.LogOther(x, b, true));
    TT.NextInv(s.txn, s'.txn, step);
    assert Marked(s, s', Record(x, true, b));
    MarkedKeeps(s, s', Record(x, true, b));
  }

  lemma MarkIsMarked(s: State, s': State)
    requires Coupled(s) && DoMark(s, s')
    ensures Marked(s, s', Record(0, true, Checkpoint))
  {
    assert s.wal.ops == map[] by { assert s.txn.open == map[]; }
  }

  lemma StepMark(s: State, s': State)
    requires EngineOk(s) && DoMark(s, s')
    ensures EngineOk(s')
  {
    hide EngineOk, W.Inv, T.Inv, T.CountOk, CarrierOk, TreeWith, SaneAll, Marked;
    LayersOf(s);
    var r := Record(0, true, Checkpoint);
    MarkIsMarked(s, s');
    hide Coupled;
    WP.NextInv(s.wal, s'.wal, W.CkMark);
    TT.NextInv(s.txn, s'.txn, T.MarkCheckpoint);
    MarkedKeeps(s, s', r);
  }

  ghost predicate Restarts(s: State, s': State)
  {
    && s' == s.(wal := s'.wal, txn := s'.txn) && s.wal.ops == map[] && s'.wal.ops == map[] && s'.txn.open == s.txn.open
    && s'.wal.log == [] && s'.txn.log == [] && s'.wal.v0 == s.wal.cur && s'.wal.cur == s.wal.cur
       && s'.wal.root == s.wal.root
    && s'.wal.begunTxns == s'.txn.begunTxns && s'.txn.m == s.txn.m && s'.txn.rooted == s.txn.rooted
  }

  lemma RestartsKeeps(s: State, s': State)
    requires EngineOk(s) && Restarts(s, s') && Layers(s')
    requires forall p {:trigger W.At(s.wal.cur, p)} :: W.At(s.wal.cur, p).node == TreePage(s.settled, p)
    ensures EngineOk(s')
  {
    hide Layers, Coupled, CarrierOk, TreeWith, SaneAll, JobOk, HeldOk, KeptIs;
    NoJobs(s, s');
    RestartParts(s, s');
    RestartSane(s, s');
    forall x ensures JobOk(s', x) {
      NoJob(s', x);
    }
    forall x, p ensures HeldOk(s', x, p) {
      NoJob(s', x);
    }
    forall p ensures KeptIs(s', p) {
      RestartKept(s, s', p);
    }
  }

  lemma NoJobs(s: State, s': State)
    requires Coupled(s) && Restarts(s, s')
    ensures s.jobs == map[]
  {
  }

  lemma RestartParts(s: State, s': State)
    requires Coupled(s) && CarrierOk(s) && TreeWith(s.settled, s.txn.m) && Restarts(s, s')
    ensures Coupled(s') && CarrierOk(s') && TreeWith(s'.settled, s'.txn.m)
  {
    hide TreeWith, Ahead, AllFit;
  }

  lemma RestartSane(s: State, s': State)
    requires TreeWith(s.settled, s.txn.m) && Restarts(s, s')
    requires forall p {:trigger W.At(s.wal.cur, p)} :: W.At(s.wal.cur, p).node == TreePage(s.settled, p)
    ensures SaneAll(s')
  {
    SaneTree(s);
    hide TreeWith, TreePage;
  }

  lemma RestartKept(s: State, s': State, p: PageId)
    requires Restarts(s, s') && W.At(s.wal.cur, p).node == TreePage(s.settled, p)
    ensures KeptIs(s', p)
  {
    assert KeptNow(s'.wal, p) == W.At(s.wal.cur, p);
  }

  lemma NoJob(s: State, x: TxId)
    requires x !in s.jobs
    ensures JobOk(s, x) && forall p :: HeldOk(s, x, p)
  {
  }

  /** The log restarts: with no group open every page is in memory what redo would make
      of it, so the new starting pages are the settled tree's. */
  lemma StepTruncate(s: State, s': State)
    requires EngineOk(s) && DoTruncate(s, s')
    ensures EngineOk(s')
  {
    hide EngineOk, Layers, CarrierOk, TreeWith, SaneAll, W.Inv, T.Inv, T.CountOk, L.LatchInv;
    LayersOf(s);
    RestartFields(s, s');
    hide Coupled, Restarts, DoTruncate;
    assert MapNow(s') == MapNow(s) by { RestartMap(s, s'); }
    TruncateLayers(s, s');
    forall p ensures W.At(s.wal.cur, p).node == TreePage(s.settled, p) {
      NobodyHolds(s, s', p);
    }
    RestartsKeeps(s, s');
  }

  lemma RestartFields(s: State, s': State)
    requires Coupled(s) && DoTruncate(s, s')
    ensures Restarts(s, s')
  {
    assert s.wal.ops == map[] by { assert s.txn.open == map[]; }
  }

  lemma RestartMap(s: State, s': State)
    requires Restarts(s, s')
    ensures MapNow(s') == MapNow(s) && s'.latch == s.latch
  {
  }

  lemma NobodyHolds(s: State, s': State, p: PageId)
    requires EngineOk(s) && Restarts(s, s')
    ensures W.At(s.wal.cur, p).node == TreePage(s.settled, p)
  {
    hide EngineOk;
    UnheldIsTree(s, p);
  }

  lemma TruncateLayers(s: State, s': State)
    requires Layers(s) && DoTruncate(s, s') && MapNow(s') == MapNow(s)
    ensures Layers(s')
  {
    hide W.Inv, T.Inv, T.CountOk, L.LatchInv, MapNow;
    WP.NextInv(s.wal, s'.wal, W.CkTruncate);
    TT.NextInv(s.txn, s'.txn, T.Truncate);
  }

  /** Pages of a lawful tree keep their keys in order. */
  lemma SaneTree(s: State)
    requires TreeWith(s.settled, s.txn.m)
    ensures forall p :: Sane(TreePage(s.settled, p))
  {
    forall p ensures Sane(TreePage(s.settled, p)) {
      if s.settled.Some? && p in s.settled.value.pages {
        NodeFacts(s.settled.value, p);
      }
    }
  }

  // ------------------------------------------------------------ opening and holding

  lemma OpenTxn(s: T.State, s': T.State, x: TxId, key: Key, value: Option<Value>, kind: T.Kind)
    requires T.Next(s, s', match kind
                           case Forward => T.StartWrite(x, key, value)
                           case Auto => T.StartAuto(x, key, value)
                           case Inverse => T.StartInverse(x))
    ensures s'.log == s.log && s'.eff == s.eff && s'.base == s.base && s'.m == s.m && s'.rooted == s.rooted
    ensures s'.begunTxns == s.begunTxns && x in s'.open && s'.open == s.open[x := s'.open[x]]
  {
    hide Locks.Holds, Locks.HoldsX, Get;
  }

  lemma OpenWal(w: W.State, w': W.State, x: TxId)
    requires W.Next(w, w', W.OpenGroup(x))
    ensures x !in w.ops && w'.ops == w.ops[x := {}] && QuietWal(w, w'.(ops := w.ops))
  {
  }

  /** A group opens: what the step did to the three layers. */
  ghost predicate Opens(s: State, s': State, x: TxId, tid: L.Tid)
  {
    && x !in s.wal.ops && tid in s.latch.threads && Free(s, tid)
    && s' == s.(wal := s'.wal, txn := s'.txn, jobs := s.jobs[x := Job(tid, Fresh, [])])
    && s'.txn.log == s.txn.log && s'.txn.m == s.txn.m && s'.txn.rooted == s.txn.rooted
       && s'.txn.begunTxns == s.txn.begunTxns
    && x in s'.txn.open && s'.txn.open == s.txn.open[x := s'.txn.open[x]]
    && Matches(s.latch.threads[tid].op, s'.txn.open[x].key, s'.txn.open[x].value)
    && s'.wal.ops == s.wal.ops[x := {}] && QuietWal(s.wal, s'.wal.(ops := s.wal.ops))
  }

  lemma OpensKeeps(s: State, s': State, x: TxId, tid: L.Tid)
    requires EngineOk(s) && Opens(s, s', x, tid) && Layers(s')
    ensures EngineOk(s')
  {
    hide Layers, TreeWith, KeptNow, Matches, Coupled, CarrierOk;
    OpensCoupled(s, s', x, tid);
    OpensCarrier(s, s', x, tid);
    forall y ensures JobOk(s', y) {
      assert JobOk(s, y);
      OpensJob(s, s', x, tid, y);
    }
    forall y, p ensures HeldOk(s', y, p) {
      assert HeldOk(s, y, p) && JobOk(s, y);
      OpensHeld(s, s', x, tid, y, p);
    }
    hide JobOk, HeldOk;
    forall p ensures KeptIs(s', p) {
      assert KeptIs(s, p);
      SameKept(s.wal, s'.wal, p);
    }
  }

  lemma OpensCoupled(s: State, s': State, x: TxId, tid: L.Tid)
    requires Coupled(s) && Opens(s, s', x, tid)
    ensures Coupled(s')
  {
    hide Matches;
  }

  lemma OpensCarrier(s: State, s': State, x: TxId, tid: L.Tid)
    requires Coupled(s) && CarrierOk(s) && Opens(s, s', x, tid)
    ensures CarrierOk(s')
  {
    hide Matches, Ahead, AllFit, Free, RootOf;
  }

  lemma OpensJob(s: State, s': State, x: TxId, tid: L.Tid, y: TxId)
    requires Opens(s, s', x, tid) && JobOk(s, y)
    ensures JobOk(s', y)
  {
    hide Matches, Free;
  }

  lemma OpensHeld(s: State, s': State, x: TxId, tid: L.Tid, y: TxId, p: PageId)
    requires Opens(s, s', x, tid) && HeldOk(s, y, p) && (y in s.jobs ==> y in s.txn.open && y in s.wal.ops)
    ensures HeldOk(s', y, p)
  {
    hide Matches, Free, GrowNode;
  }

  function OpenStep(x: TxId, op: L.Op, kind: T.Kind): T.Step
  {
    match kind
    case Forward => T.StartWrite(x, op.key, ValueOf(op))
    case Auto => T.StartAuto(x, op.key, ValueOf(op))
    case Inverse => T.StartInverse(x)
  }

  lemma OpenFields(s: State, s': State, x: TxId, tid: L.Tid, kind: T.Kind)
    requires DoOpen(s, s', x, tid, kind)
    ensures Opens(s, s', x, tid) && T.Next(s.txn, s'.txn, OpenStep(x, s.latch.threads[tid].op, kind))
  {
    hide W.Next, T.Next, Ready, QuietWal, Matches;
    assert tid in s.latch.threads by { IsReady(s.latch, tid); }
    var op := s.latch.threads[tid].op;
    OpenTxn(s.txn, s'.txn, x, op.key, ValueOf(op), kind);
    OpenWal(s.wal, s'.wal, x);
  }

  lemma IsReady(s: L.State, tid: L.Tid)
    requires Ready(s, tid)
    ensures tid in s.threads
  {
  }

  lemma StepOpen(s: State, s': State, x: TxId, tid: L.Tid, kind: T.Kind)
    requires EngineOk(s) && DoOpen(s, s', x, tid, kind)
    ensures EngineOk(s')
  {
    hide EngineOk, Opens, OpenStep;
    OpenFields(s, s', x, tid, kind);
    assert W.Next(s.wal, s'.wal, W.OpenGroup(x));
    hide DoOpen, W.Next, T.Next;
    LayersOf(s);
    OpenLayers(s, s', x, tid, OpenStep(x, s.latch.threads[tid].op, kind));
    hide Layers, Coupled, CarrierOk, TreeWith, SaneAll;
    OpensKeeps(s, s', x, tid);
  }

  lemma OpenLayers(s: State, s': State, x: TxId, tid: L.Tid, step: T.Step)
    requires Layers(s) && Coupled(s) && CarrierOk(s) && Opens(s, s', x, tid)
    requires W.Next(s.wal, s'.wal, W.OpenGroup(x)) && T.Next(s.txn, s'.txn, step)
    ensures Layers(s')
  {
    hide W.Next, W.Inv, T.Next, T.Inv, T.CountOk, L.LatchInv;
    hide Coupled, CarrierOk, Opens, MapNow;
    OpenMapNow(s, s', x, tid);
    WP.NextInv(s.wal, s'.wal, W.OpenGroup(x));
    TT.NextInv(s.txn, s'.txn, step);
  }

  lemma OpenMapNow(s: State, s': State, x: TxId, tid: L.Tid)
    requires Coupled(s) && CarrierOk(s) && Opens(s, s', x, tid)
    ensures MapNow(s') == MapNow(s) && s'.latch == s.latch
  {
    hide Matches, QuietWal, Ahead, AllFit, Free;
  }

  lemma SameKept(w: W.State, w': W.State, p: PageId)
    requires w'.log == w.log && w'.first == w.first && W.At(w'.v0, p) == W.At(w.v0, p)
    ensures KeptNow(w', p) == KeptNow(w, p)
  {
  }

  ghost predicate Holding(s: State, s': State, x: TxId, p: PageId)
  {
    && s' == s.(wal := s'.wal) && Between(s, x) && x in s.wal.ops
    && s'.wal.ops == s.wal.ops[x := s.wal.ops[x] + {p}] && QuietWal(s.wal, s'.wal.(ops := s.wal.ops))
    && (OwnedBy(s.latch, s.jobs[x].tid, p) || TreePage(s.latch.tree, p).None?)
  }

  /** Group `x` holds one page more, and that page is in memory what the tree says. */
  lemma HoldsMore(s: State, s': State, x: TxId, p: PageId)
    requires EngineOk(s) && Holding(s, s', x, p) && W.Inv(s'.wal)
    requires p in s.wal.ops[x] || W.At(s.wal.cur, p).node == TreePage(s.latch.tree, p)
    ensures EngineOk(s')
  {
    hide L.LatchInv, W.Inv, T.Inv, T.CountOk, TreeWith, KeptNow, Frame, AllFit, OwnedBy;
    forall y ensures JobOk(s', y) {
      assert JobOk(s, y);
    }
    forall y, q ensures HeldOk(s', y, q) {
      assert HeldOk(s, y, q);
      HoldsPage(s, s', x, p, y, q);
    }
    forall q ensures KeptIs(s', q) {
      assert KeptIs(s, q);
      SameKept(s.wal, s'.wal, q);
    }
    assert CarrierOk(s') by { HoldsAhead(s, s', x, p); }
  }

  lemma HoldsPage(s: State, s': State, x: TxId, p: PageId, y: TxId, q: PageId)
    requires Holding(s, s', x, p) && HeldOk(s, y, q) && x in s.txn.open
    requires p in s.wal.ops[x] || W.At(s.wal.cur, p).node == TreePage(s.latch.tree, p)
    ensures HeldOk(s', y, q)
  {
    hide OwnedBy, GrowNode;
  }

  lemma HoldsAhead(s: State, s': State, x: TxId, p: PageId)
    requires CarrierOk(s) && Coupled(s) && Holding(s, s', x, p)
    ensures CarrierOk(s')
  {
    hide OwnedBy, AllFit;
  }

  lemma StepHold(s: State, s': State, x: TxId, p: PageId)
    requires EngineOk(s) && DoHold(s, s', x, p)
    ensures EngineOk(s')
  {
    LayersOf(s);
    assert JobOk(s, x);
    if p !in s.wal.ops[x] {
      assert W.Unheld(s.wal, p);
      UnheldIsTree(s, p);
    }
    hide EngineOk, W.Inv, T.Inv, T.CountOk, L.LatchInv, Coupled, CarrierOk, TreeWith, SaneAll, JobOk;
    WP.NextInv(s.wal, s'.wal, W.Hold(x, p));
    assert Holding(s, s', x, p);
    HoldsMore(s, s', x, p);
  }

  lemma StepNewPage(s: State, s': State, x: TxId)
    requires EngineOk(s) && DoNewPage(s, s', x)
    ensures EngineOk(s')
  {
    LayersOf(s);
    assert JobOk(s, x);
    var p := s.wal.numPages;
    NewPageUnheld(s.wal);
    UnheldIsTree(s, p);
    hide EngineOk, W.Inv, T.Inv, T.CountOk, L.LatchInv, Coupled, CarrierOk, TreeWith, SaneAll, JobOk, W.Unheld;
    WP.NextInv(s.wal, s'.wal, W.NewPage(x));
    assert Holding(s, s', x, p);
    HoldsMore(s, s', x, p);
  }

  /** A page past the file's end is zeroed and nobody's. */
  lemma NewPageUnheld(w: W.State)
    requires W.Inv(w)
    ensures W.Unheld(w, w.numPages) && W.At(w.cur, w.numPages).node.None?
  {
    assert W.PageInv(w, w.numPages);
    hide W.PageInv, W.FileInv, W.OpenInv, W.RootAfter, W.RootsEnd, W.MetasOk;
    assert W.PageInv(w, w.numPages) ==> W.At(w.cur, w.numPages) == ZEROED by { PastEnd(w, w.numPages); }
  }

  lemma PastEnd(w: W.State, p: PageId)
    requires w.durable <= |w.log| && W.PageInv(w, p) && p >= w.numPages
    ensures W.At(w.cur, p) == ZEROED
  {
  }
}
