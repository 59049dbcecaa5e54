/** For every run of the engine: what redo would make of any prefix of the log is a tree
    holding the effects of its complete groups; a crash at any moment, whatever it leaves
    of log, pages and metas, reopens to such a tree; and undo takes its map to the
    committed one unless a loser leaks the first insert. */
module EngineTheorems {
  import opened Keys
  import opened Nodes
  import opened TxnLog
  import opened PageRedo
  import opened TreeShape
  import opened EngineMachine
  import opened EngineInv
  import opened EngineSteps
  import opened EngineStarts
  import opened EngineEnds
  import opened EngineRoots
  import L = LatchMachine
  import W = WalMachine
  import WP = WalProof
  import T = TxnMachine
  import TT = TxnTheorems

  // ------------------------------------------------------------ every run

  lemma InitOk(s: State)
    requires Init(s)
    ensures EngineOk(s)
  {
    assert L.LatchInv(s.latch, s.txn.m) by { hide W.Init, T.Init, Inv, Holds, AllFit; }
    WP.InitInv(s.wal);
    TT.InitInv(s.txn);
    SaneTree(s);
    hide W.Inv, T.Inv, T.CountOk, L.LatchInv, TreeWith;
    assert KeptPagesAre(s);
  }

  ghost predicate KeptPagesAre(s: State) { forall p {:trigger KeptIs(s, p)} :: KeptIs(s, p) }

  lemma NextOk(s: State, s': State, step: Step)
    requires EngineOk(s) && Next(s, s', step)
    ensures EngineOk(s')
  {
    hide EngineOk, DoLatch, DoMiss, DoMissInverse, DoRead, DoTxn, DoWal, DoMarker, DoMark, DoTruncate, DoOpen, DoHold,
         DoNewPage, DoLog, DoLogImage, DoEndLeaf, DoStartRoot, DoEndRoot, DoStartSplit, DoSplitParent, DoEndAbsorb,
         DoStartGrow, DoEndGrow;
    match step
    case LatchStep(latchStep) => StepLatch(s, s', latchStep);
    case Miss(tid) => StepMiss(s, s', tid);
    case MissInverse(x, tid) => StepMissInverse(s, s', x, tid);
    case Read(x, tid) => StepRead(s, s', x, tid);
    case TxnStep(txnStep) => StepTxn(s, s', txnStep);
    case WalStep(walStep) => StepWal(s, s', walStep);
    case Marker(x, b) => StepMarker(s, s', x, b);
    case Mark => StepMark(s, s');
    case Truncate => StepTruncate(s, s');
    case Open(x, tid, kind) => StepOpen(s, s', x, tid, kind);
    case Hold(x, p) => StepHold(s, s', x, p);
    case NewPage(x) => StepNewPage(s, s', x);
    case Log(x) => StepLog(s, s', x);
    case LogImage(x) => StepLogImage(s, s', x);
    case EndLeaf(x) => StepEndLeaf(s, s', x);
    case StartRoot(x, p) => StepStartRoot(s, s', x, p);
    case EndRoot(x) => StepEndRoot(s, s', x);
    case StartSplit(x, r) => StepStartSplit(s, s', x, r);
    case SplitParent(x, r) => StepSplitParent(s, s', x, r);
    case EndAbsorb(x) => StepEndAbsorb(s, s', x);
    case StartGrow(x, r) => StepStartGrow(s, s', x, r);
    case EndGrow(x) => StepEndGrow(s, s', x);
  }

  ghost predicate Run(states: seq<State>, steps: seq<Step>)
  {
    && |states| == |steps| + 1 && Init(states[0])
    && forall i :: 0 <= i < |steps| ==> Next(states[i], states[i + 1], steps[i])
  }

  lemma {:induction false} RunOk(states: seq<State>, steps: seq<Step>, i: nat)
    requires Run(states, steps) && i < |states|
    ensures EngineOk(states[i])
  {
    hide EngineOk, Next, Init;
    if i == 0 {
      InitOk(states[0]);
    } else {
      RunOk(states, steps, i - 1);
      assert Next(states[i - 1], states[i - 1 + 1], steps[i - 1]);
      NextOk(states[i - 1], states[i], steps[i - 1]);
    }
  }

  // ------------------------------------------------------------ every prefix of the log

  /** From one state to the next the log grows by at most one record and nothing it starts
      from changes; or it restarts empty. */
  ghost predicate Grows(s: State, s': State)
  {
    || s'.wal.log == []
    || (s'.wal.first == s.wal.first && s'.wal.v0 == s.wal.v0 && s'.wal.last == s.wal.last && TT.Grew(s.txn, s'.txn))
  }

  lemma WalFrame(w: W.State, w': W.State, step: W.Step)
    requires W.Next(w, w', step)
    ensures if step.CkTruncate? then w'.log == [] else w'.first == w.first && w'.v0 == w.v0 && w'.last == w.last
  {
  }

  ghost predicate WalMoves(w: W.State, w': W.State) { w' == w || exists step :: W.Next(w, w', step) }

  ghost predicate TxnMoves(t: T.State, t': T.State) { t' == t || exists step :: T.Next(t, t', step) && !step.Truncate? }

  lemma LogsProject(s: State, s': State, x: TxId, b: Body, end: bool)
    requires Logs(s, s', x, b, end)
    ensures WalMoves(s.wal, s'.wal) && TxnMoves(s.txn, s'.txn)
  {
    hide W.Next, T.Next;
    var step := T.AppendRecord(x, Record(x, end, b));
    assert T.Next(s.txn, s'.txn, step) && !step.Truncate?;
  }

  lemma TxnProjects(t: T.State, t': T.State, step: T.Step)
    requires T.Next(t, t', step) && !step.Truncate?
    ensures TxnMoves(t, t')
  {
    hide T.Next;
  }

  lemma MarkerProjects(s: State, s': State, x: TxId, b: Body)
    requires DoMarker(s, s', x, b)
    ensures WalMoves(s.wal, s'.wal) && TxnMoves(s.txn, s'.txn)
  {
    hide W.Next, T.Next;
    TxnProjects(s.txn, s'.txn, if b.Begin? then T.LogBegin(x) else if b.Commit? then T.CommitTxn(x)
      else T.FinishAbort(x));
  }

  lemma OpenProjects(s: State, s': State, x: TxId, tid: L.Tid, kind: T.Kind)
    requires DoOpen(s, s', x, tid, kind)
    ensures WalMoves(s.wal, s'.wal) && TxnMoves(s.txn, s'.txn)
  {
    hide W.Next, T.Next, Ready, Matches;
    OpenFields(s, s', x, tid, kind);
    TxnProjects(s.txn, s'.txn, OpenStep(x, s.latch.threads[tid].op, kind));
  }

  /** Every step of the engine is at most one step of each layer. */
  lemma Projects(s: State, s': State, step: Step)
    requires Next(s, s', step)
    ensures WalMoves(s.wal, s'.wal)
    ensures TxnMoves(s.txn, s'.txn) || (step.Truncate? && s'.wal.log == [])
  {
    hide W.Next, T.Next, L.Next, Ready, SplitPlan, ParentPlan, GrowNode, Above, FirstLeaf, KeyBody, Matches, Fits, Logs,
         DoMarker, DoOpen, DoLog, DoLogImage, DoEndLeaf, DoEndRoot, DoEndAbsorb, DoEndGrow, EditOf, AtEdit, AllFit,
         WalMoves, TxnMoves, Between;
    match step
    case MissInverse(x, _) => TxnProjects(s.txn, s'.txn, T.SkipInverse(x)); Still(s.wal, s.txn);
    case Read(x, tid) => TxnProjects(s.txn, s'.txn, T.ReadKey(x, s.latch.threads[tid].op.key)); Still(s.wal, s.txn);
    case TxnStep(txnStep) => TxnProjects(s.txn, s'.txn, txnStep); Still(s.wal, s.txn);
    case WalStep(walStep) => WalProjects(s.wal, s'.wal, walStep); Still(s.wal, s.txn);
    case Marker(x, b) => MarkerProjects(s, s', x, b);
    case Mark => WalProjects(s.wal, s'.wal, W.CkMark); TxnProjects(s.txn, s'.txn, T.MarkCheckpoint);
    case Truncate => WalProjects(s.wal, s'.wal, W.CkTruncate); WalFrame(s.wal, s'.wal, W.CkTruncate);
    case Open(x, tid, kind) => OpenProjects(s, s', x, tid, kind);
    case Hold(x, p) => WalProjects(s.wal, s'.wal, W.Hold(x, p)); Still(s.wal, s.txn);
    case NewPage(x) => WalProjects(s.wal, s'.wal, W.NewPage(x)); Still(s.wal, s.txn);
    case Log(_) => GroupProjects(s, s', step);
    case LogImage(_) => GroupProjects(s, s', step);
    case EndLeaf(x) => EndLeafProjects(s, s', x);
    case EndRoot(_) => GroupProjects(s, s', step);
    case EndAbsorb(x) => EndAbsorbProjects(s, s', x);
    case EndGrow(_) => GroupProjects(s, s', step);
    case _ => Still(s.wal, s.txn);
  }

  lemma GroupProjects(s: State, s': State, step: Step)
    requires Next(s, s', step) && (step.Log? || step.LogImage? || step.EndRoot? || step.EndGrow?)
    ensures WalMoves(s.wal, s'.wal) && TxnMoves(s.txn, s'.txn)
  {
    hide L.Next, GrowNode, FirstLeaf, Fits, Logs, EditOf, AtEdit, AllFit, WalMoves, TxnMoves;
    match step
    case Log(x) => LogsProject(s, s', x, s.jobs[x].plan[0], false);
    case LogImage(x) => var (p, w) := EditOf(s, x); LogsProject(s, s', x, PageImage(p, w), false);
    case EndRoot(x) => LogsProject(s, s', x, RootChange(s.jobs[x].stage.page), true);
    case EndGrow(x) => LogsProject(s, s', x, RootChange(s.jobs[x].stage.page), true);
  }

  lemma EndAbsorbProjects(s: State, s': State, x: TxId)
    requires DoEndAbsorb(s, s', x)
    ensures WalMoves(s.wal, s'.wal) && TxnMoves(s.txn, s'.txn)
  {
    hide WalMoves, TxnMoves, Logs, Above;
    Absorbing(s, s', x);
    var q := Above(s.latch.tree.value);
    LogsProject(s, s', x, PageImage(q, s'.latch.tree.value.pages[q]), true);
  }

  lemma EndLeafProjects(s: State, s': State, x: TxId)
    requires DoEndLeaf(s, s', x)
    ensures WalMoves(s.wal, s'.wal) && TxnMoves(s.txn, s'.txn)
  {
    hide L.Next, Logs, EditOf, L.AtLeaf, KeyBody, WalMoves, TxnMoves;
    var (p, w) := EditOf(s, x);
    LogsProject(s, s', x, if p in s.wal.imaged then KeyBody(s.txn.open[x], p) else PageImage(p, w), true);
  }

  lemma Still(w: W.State, t: T.State)
    ensures WalMoves(w, w) && TxnMoves(t, t)
  {
  }

  lemma WalProjects(w: W.State, w': W.State, step: W.Step)
    requires W.Next(w, w', step)
    ensures WalMoves(w, w')
  {
    hide W.Next;
  }

  lemma StepGrows(s: State, s': State, step: Step)
    requires EngineOk(s) && Next(s, s', step)
    ensures Grows(s, s')
  {
    hide Next, W.Next, T.Next, WalMoves, TxnMoves;
    Projects(s, s', step);
    hide EngineOk, Coupled, CarrierOk, TreeWith, SaneAll;
    LayersOf(s);
    if s'.wal.log != [] {
      assert s'.wal.first == s.wal.first && s'.wal.v0 == s.wal.v0 && s'.wal.last == s.wal.last by {
        WalMove(s.wal, s'.wal);
      }
      assert T.Inv(s.txn) by { hide W.Inv, L.LatchInv, T.Inv, T.CountOk; }
      hide Layers;
      TxnMove(s.txn, s'.txn);
    }
  }

  lemma WalMove(w: W.State, w': W.State)
    requires WalMoves(w, w') && w'.log != []
    ensures w'.first == w.first && w'.v0 == w.v0 && w'.last == w.last
  {
    hide W.Next;
    if w' != w {
      var step :| W.Next(w, w', step);
      WalFrame(w, w', step);
    }
  }

  lemma TxnMove(t: T.State, t': T.State)
    requires T.Inv(t) && TxnMoves(t, t')
    ensures TT.Grew(t, t')
  {
    hide T.Next;
    if t' == t {
      assert |t.log| == |t.eff| by {
        hide T.OpenOk, T.KeyOk, T.CleanOk, T.DeltaOk, T.ReplayOk, T.FlagsOk, T.LocksOk, T.HistoryOk;
      }
      assert t.log[..|t.log|] == t.log && t.eff[..|t.log|] == t.eff;
    } else {
      var step :| T.Next(t, t', step) && !step.Truncate?;
      TT.StepLog(t, t', step);
    }
  }

  /** Redo of the first `n` records would give tree `g`, which holds `m`. */
  ghost predicate KeptTree(w: W.State, n: nat, g: Option<Shape>, m: KV)
  {
    && n <= |w.log| && TreeWith(g, m) && RootOf(g) == W.RootAfter(w.log[..n], w.last.root)
    && forall p {:trigger W.At(w.v0, p)} :: Kept(w.log[..n], w.first, n, p, W.At(w.v0, p)).node == TreePage(g, p)
  }

  lemma KeptTreeNow(s: State)
    requires EngineOk(s)
    ensures |s.txn.eff| == |s.wal.log| && KeptTree(s.wal, |s.wal.log|, s.settled, Redo(s.txn.base, s.txn.eff))
  {
    LayersOf(s);
    assert s.wal.log[..|s.wal.log|] == s.wal.log;
    assert |s.txn.log| == |s.txn.eff| && s.txn.m == Redo(s.txn.base, s.txn.eff) by { IdsOf(s); }
    assert s.wal.root == W.RootAfter(s.wal.log, s.wal.last.root) by { RootIs(s); }
    hide Layers, TreeWith, SaneAll, W.RootAfter, Redo, CarrierOk, JobOk, HeldOk;
    forall p ensures Kept(s.wal.log, s.wal.first, |s.wal.log|, p, W.At(s.wal.v0, p)).node == TreePage(s.settled, p) {
      assert KeptIs(s, p);
    }
  }

  lemma IdsOf(s: State)
    requires Layers(s)
    ensures |s.txn.log| == |s.txn.eff| && s.txn.m == Redo(s.txn.base, s.txn.eff)
  {
    hide L.LatchInv, W.Inv, T.CountOk, T.OpenOk, T.KeyOk, T.CleanOk, T.DeltaOk, T.ReplayOk, T.FlagsOk, T.LocksOk,
         T.HistoryOk;
  }

  lemma RootIs(s: State)
    requires Layers(s)
    ensures s.wal.root == W.RootAfter(s.wal.log, s.wal.last.root)
  {
    hide L.LatchInv, T.Inv, T.CountOk, W.PageInv, W.FileInv, W.OpenInv, W.RootAfter, W.RootsEnd, W.MetasOk;
  }

  /** Groups are tree operations: cut the log of any run anywhere, and the complete groups
      before the cut leave a lawful tree holding exactly their effects, splits, new roots
      and the first leaf included; and undoing the losers then gives the committed state,
      exactly when none of them leaks. */
  lemma {:induction false} TreeAtEveryCut(states: seq<State>, steps: seq<Step>, i: nat, n: nat)
    returns (g: Option<Shape>)
    requires Run(states, steps) && i < |states| && n <= |states[i].wal.log|
    ensures |states[i].txn.log| == |states[i].txn.eff| && states[i].txn.log == states[i].wal.log
    ensures var (s, log, eff) := (states[i].txn, states[i].txn.log[..n], states[i].txn.eff[..n]);
            && KeptTree(states[i].wal, n, g, Redo(s.base, eff))
            && (Recovered(s.base, log, eff) == Committed(s.base, log, eff) <==> !TT.Leaks(s.base, log, eff))
    decreases i
  {
    hide EngineOk, Next, Init, Recovered, Committed, TT.Leaks, KeptTree, Grows, Redo;
    var s := states[i];
    RunOk(states, steps, i);
    KeptTreeNow(s);
    LogsMatch(s);
    if n == |s.wal.log| {
      g := s.settled;
      assert s.txn.log[..n] == s.txn.log && s.txn.eff[..n] == s.txn.eff;
      assert T.Inv(s.txn) by { TxnOf(s); }
      hide T.Inv;
      TT.RecoveryExact(s.txn);
    } else {
      assert i > 0 by { InitEmpty(states[0]); }
      var p := states[i - 1];
      assert Next(states[i - 1], states[i - 1 + 1], steps[i - 1]);
      RunOk(states, steps, i - 1);
      LogsMatch(p);
      StepGrows(p, s, steps[i - 1]);
      GrownPrefix(p, s, n);
      g := TreeAtEveryCut(states, steps, i - 1, n);
      KeptTreeSame(p.wal, s.wal, n, g, Redo(s.txn.base, s.txn.eff[..n]));
    }
  }

  lemma LogsMatch(s: State)
    requires EngineOk(s)
    ensures s.txn.log == s.wal.log && |s.txn.log| == |s.txn.eff|
  {
    hide EngineOk, TreeWith, SaneAll, CarrierOk;
    LayersOf(s);
    IdsOf(s);
  }

  lemma TxnOf(s: State)
    requires EngineOk(s)
    ensures T.Inv(s.txn) && T.CountOk(s.txn)
  {
    hide EngineOk, L.LatchInv, W.Inv, T.Inv, T.CountOk;
    LayersOf(s);
  }

  lemma InitEmpty(s: State)
    requires Init(s)
    ensures s.wal.log == []
  {
    hide TreeWith;
  }

  lemma GrownPrefix(p: State, s: State, n: nat)
    requires Grows(p, s) && s.txn.log == s.wal.log && p.txn.log == p.wal.log && |s.txn.log| == |s.txn.eff|
             && n < |s.wal.log|
    ensures n <= |p.wal.log| && s.wal.log[..n] == p.wal.log[..n] && s.txn.base == p.txn.base
            && |p.txn.eff| == |p.txn.log|
    ensures s.txn.eff[..n] == p.txn.eff[..n] && s.wal.first == p.wal.first && s.wal.v0 == p.wal.v0
            && s.wal.last == p.wal.last
  {
    assert s.wal.log[..n] == s.txn.log[..|p.txn.log|][..n] && s.txn.eff[..n] == s.txn.eff[..|p.txn.log|][..n];
  }

  lemma KeptTreeSame(a: W.State, b: W.State, n: nat, g: Option<Shape>, m: KV)
    requires KeptTree(a, n, g, m) && n <= |b.log| && b.log[..n] == a.log[..n] && b.first == a.first && b.v0 == a.v0
             && b.last == a.last
    ensures KeptTree(b, n, g, m)
  {
    hide TreeWith, Kept, W.RootAfter;
  }
}
