/** Logging inside a group: one record of the plan at a time, with the pages of the group
    moving towards what they will be when it ends. */
module EngineLogs {
  import opened Keys
  import opened Nodes
  import opened TxnLog
  import opened PageRedo
  import opened TreeShape
  import opened EngineMachine
  import opened EngineInv
  import opened EngineSteps
  import opened KeptPages
  import L = LatchMachine
  import W = WalMachine
  import WP = WalProof
  import T = TxnMachine
  import TT = TxnTheorems

  // ------------------------------------------------------------ one record

  predicate GroupBody(b: Body) { PageBody(b) || b.AllocPage? || b.RootChange? }

  /** What appending a group's record does to pages and log. */
  ghost predicate Appended(w: W.State, w': W.State, x: TxId, b: Body, end: bool)
  {
    && x in w.ops && w'.log == w.log + [Record(x, end, b)] && w'.first == w.first && w'.v0 == w.v0 && w'.last == w.last
    && w'.ops == (if end then w.ops - {x} else w.ops)
    && (forall p :: OnPage(b, p) ==> p in w.ops[x])
    && (forall p {:trigger W.At(w'.cur, p)} {:trigger W.At(w.cur, p)} ::
          W.At(w'.cur, p).node == NodeAfter(W.At(w.cur, p).node, b, p))
    && w'.root == (if b.RootChange? then Some(b.page) else w.root) && w'.begunTxns == w.begunTxns
  }

  lemma AppendsTo(w: W.State, w': W.State, x: TxId, b: Body, end: bool)
    requires W.Next(w, w', LogStep(x, b, end)) && GroupBody(b)
    ensures Appended(w, w', x, b, end)
  {
    hide Fits, Sorted, LeafWrite, LeafErase;
    if PageBody(b) {
      assert W.DoLogPage(w, w', x, b.page, b, end);
      forall p ensures W.At(w'.cur, p).node == NodeAfter(W.At(w.cur, p).node, b, p) {
        SameNode(W.At(w.cur, p), b, w.first + |w.log|);
      }
    }
  }

  lemma SameNode(v: Version, b: Body, lsn: nat)
    ensures AfterRecord(v, b, lsn).node == AfterRecord(Version(v.node, 0), b, 0).node
  {
    hide LeafWrite, LeafErase;
  }

  /** What it does to transactions, inside the group. */
  ghost predicate Noted(t: T.State, t': T.State, x: TxId, b: Body)
  {
    && x in t.open && x in t'.open && t'.log == t.log + [Record(x, false, b)] && t'.eff == t.eff + [None]
       && t'.base == t.base
    && t'.m == t.m && t'.rooted == t.rooted && t'.begunTxns == t.begunTxns
    && SameOp(t.open[x], t'.open[x]) && t'.open == t.open[x := t'.open[x]]
  }

  lemma NotesRecord(t: T.State, t': T.State, x: TxId, b: Body)
    requires T.Next(t, t', T.AppendRecord(x, Record(x, false, b)))
    ensures Noted(t, t', x, b) && GroupBody(b)
  {
  }

  /** And at its end. */
  ghost predicate Closed(t: T.State, t': T.State, x: TxId, b: Body)
  {
    && x in t.open && t'.log == t.log + [Record(x, true, b)] && t'.base == t.base
    && t'.eff == t.eff + [Some(Effect(t.open[x].key, t.open[x].value, t.open[x].creates))]
    && t'.m == Set(t.m, t.open[x].key, t.open[x].value) && t'.rooted && t'.begunTxns == t.begunTxns
    && t'.open == t.open - {x}
  }

  lemma ClosesGroup(t: T.State, t': T.State, x: TxId, b: Body)
    requires T.Next(t, t', T.AppendRecord(x, Record(x, true, b)))
    ensures Closed(t, t', x, b) && GroupBody(b)
  {
    hide Set;
  }

  lemma SaneAppend(s: State, s': State, x: TxId, b: Body, end: bool)
    requires SaneAll(s) && Appended(s.wal, s'.wal, x, b, end) && SaneBody(b)
    ensures SaneAll(s')
  {
    hide Sane;
    forall i | 0 <= i < |s'.wal.log| ensures SaneRecord(s'.wal.log[i]) {
      if i < |s.wal.log| { assert s'.wal.log[i] == s.wal.log[i]; }
    }
  }

  // ------------------------------------------------------------ inside a group

  /** One record inside group `x`: only that job's plan and stage move. */
  ghost predicate Inside(s: State, s': State, x: TxId, b: Body, j: Job)
  {
    && x in s.jobs && Logs(s, s', x, b, false)
    && s' == s.(wal := s'.wal, txn := s'.txn, jobs := s.jobs[x := j])
    && j.tid == s.jobs[x].tid && SaneBody(b) && (forall c :: c in j.plan ==> SaneBody(c))
    && (j.stage == s.jobs[x].stage || (j.stage.Imaged? && s.jobs[x].stage.Fresh?))
       && (j.stage.Fresh? || j.stage.Imaged? ==> j.plan == [])
  }

  /** The pages of `x` move as the record says, towards the same targets. */
  ghost predicate Towards(s: State, x: TxId, b: Body, j: Job)
    requires x in s.jobs && x in s.txn.open && x in s.wal.ops
  {
    forall p {:trigger NodeAfter(W.At(s.wal.cur, p).node, b, p)} :: p in s.wal.ops[x] ==>
      Eventually(NodeAfter(W.At(s.wal.cur, p).node, b, p), j.plan, p) == Target(s.latch.tree, s.txn.open[x], j.stage, p)
  }

  lemma InsideLayers(s: State, s': State, x: TxId, b: Body, j: Job)
    requires Layers(s) && Inside(s, s', x, b, j)
    ensures Layers(s') && Appended(s.wal, s'.wal, x, b, false) && Noted(s.txn, s'.txn, x, b)
  {
    hide W.Next, W.Inv, T.Next, T.Inv, T.CountOk, L.LatchInv, Noted, Appended, SaneBody;
    NotesRecord(s.txn, s'.txn, x, b);
    AppendsTo(s.wal, s'.wal, x, b, false);
    WP.NextInv(s.wal, s'.wal, LogStep(x, b, false));
    TT.NextInv(s.txn, s'.txn, T.AppendRecord(x, Record(x, false, b)));
    assert MapNow(s') == MapNow(s) by { NotedMap(s, s', x, b); }
  }

  lemma NotedMap(s: State, s': State, x: TxId, b: Body)
    requires Noted(s.txn, s'.txn, x, b) && s'.carrier == s.carrier
    ensures MapNow(s') == MapNow(s)
  {
    hide Set;
  }

  lemma InsideCoupled(s: State, s': State, x: TxId, b: Body, j: Job)
    requires Coupled(s) && CarrierOk(s) && Inside(s, s', x, b, j)
    requires Appended(s.wal, s'.wal, x, b, false) && Noted(s.txn, s'.txn, x, b) && !b.RootChange?
    ensures Coupled(s') && CarrierOk(s')
  {
    hide Logs, SaneBody, NodeAfter, Ahead, AllFit;
  }

  lemma InsideJob(s: State, s': State, x: TxId, b: Body, j: Job, y: TxId)
    requires JobOk(s, y) && JobOk(s, x) && Inside(s, s', x, b, j)
    requires Appended(s.wal, s'.wal, x, b, false) && Noted(s.txn, s'.txn, x, b)
    ensures JobOk(s', y)
  {
    hide Logs, SaneBody, NodeAfter, Matches;
    if y == x { assert Matches(s.latch.threads[j.tid].op, s'.txn.open[x].key, s'.txn.open[x].value); }
  }

  lemma InsideHeld(s: State, s': State, x: TxId, b: Body, j: Job, y: TxId, p: PageId)
    requires HeldOk(s, y, p) && Inside(s, s', x, b, j) && Coupled(s)
    requires Appended(s.wal, s'.wal, x, b, false) && Noted(s.txn, s'.txn, x, b)
    requires x in s.txn.open && x in s.wal.ops && Towards(s, x, b, j)
    requires y != x && y in s.wal.ops && p in s.wal.ops[y] ==> p !in s.wal.ops[x]
    ensures HeldOk(s', y, p)
  {
    hide Logs, SaneBody, GrowNode, OwnedBy, Matches;
    if y in s.jobs && p in s.wal.ops[y] {
      if y == x {
        InsideOwn(s, s', x, b, j, p);
      } else {
        assert !OnPage(b, p);
      }
    }
  }

  lemma InsideOwn(s: State, s': State, x: TxId, b: Body, j: Job, p: PageId)
    requires HeldOk(s, x, p) && Inside(s, s', x, b, j) && x in s.txn.open && x in s.wal.ops && p in s.wal.ops[x]
    requires Appended(s.wal, s'.wal, x, b, false) && Noted(s.txn, s'.txn, x, b) && Towards(s, x, b, j)
    ensures HeldOk(s', x, p)
  {
    hide Logs, SaneBody, GrowNode, OwnedBy, NodeAfter, Eventually;
    assert W.At(s'.wal.cur, p).node == NodeAfter(W.At(s.wal.cur, p).node, b, p);
  }

  lemma HoldersApart(w: W.State, x: TxId, y: TxId, p: PageId)
    requires W.Inv(w) && x in w.ops && y in w.ops && x != y && p in w.ops[y]
    ensures p !in w.ops[x]
  {
    hide W.PageInv, W.FileInv, W.OpenInv, W.RootAfter, W.RootsEnd, W.MetasOk;
  }

  lemma InsideKept(s: State, s': State, x: TxId, b: Body, p: PageId)
    requires KeptIs(s, p) && Appended(s.wal, s'.wal, x, b, false) && s'.settled == s.settled
    ensures KeptIs(s', p)
  {
    hide KeptNow, NodeAfter;
    OpenRecord(s.wal, s'.wal, Record(x, false, b), p);
  }

  /** Any record inside a group that moves its pages towards their targets. */
  lemma InsideKeeps(s: State, s': State, x: TxId, b: Body, j: Job)
    requires EngineOk(s) && Inside(s, s', x, b, j) && !b.RootChange? && x in s.txn.open && x in s.wal.ops
             && Towards(s, x, b, j)
    ensures EngineOk(s')
  {
    hide Layers, Inside, Towards, Appended, Noted, Coupled, CarrierOk, SaneAll, TreeWith, JobOk, HeldOk, KeptIs, MapNow;
    LayersOf(s);
    assert JobOk(s, x);
    InsideLayers(s, s', x, b, j);
    InsideRest(s, s', x, b, j);
    forall y ensures JobOk(s', y) {
      assert JobOk(s, y);
      InsideJob(s, s', x, b, j, y);
    }
    forall y, p ensures HeldOk(s', y, p) {
      assert HeldOk(s, y, p);
      if y != x && y in s.wal.ops && p in s.wal.ops[y] { InsideApart(s, x, y, p); }
      InsideHeld(s, s', x, b, j, y, p);
    }
    forall p ensures KeptIs(s', p) {
      assert KeptIs(s, p);
      InsideKept(s, s', x, b, p);
    }
  }

  lemma InsideApart(s: State, x: TxId, y: TxId, p: PageId)
    requires Layers(s) && x in s.wal.ops && y in s.wal.ops && x != y && p in s.wal.ops[y]
    ensures p !in s.wal.ops[x]
  {
    hide W.Inv, T.Inv, L.LatchInv, T.CountOk;
    HoldersApart(s.wal, x, y, p);
  }

  lemma InsideRest(s: State, s': State, x: TxId, b: Body, j: Job)
    requires Coupled(s) && CarrierOk(s) && SaneAll(s) && TreeWith(s.settled, s.txn.m)
    requires Inside(s, s', x, b, j) && Appended(s.wal, s'.wal, x, b, false) && Noted(s.txn, s'.txn, x, b)
             && !b.RootChange?
    ensures Coupled(s') && CarrierOk(s') && SaneAll(s') && TreeWith(s'.settled, s'.txn.m) && s'.settled == s.settled
  {
    hide Coupled, CarrierOk, TreeWith, Logs, Appended, SaneAll, SaneBody;
    InsideCoupled(s, s', x, b, j);
    SaneAppend(s, s', x, b, false);
  }
}
