/** The record that ends a group: in memory the group's pages are the tree's, so redo
    would now rebuild them so, and the settled tree takes the operation's effect. */
module EngineEnds {
  import opened Keys
  import opened Nodes
  import opened TxnLog
  import opened PageRedo
  import opened TreeShape
  import opened TreeEdits
  import opened TreeSplits
  import opened TreeCapacity
  import opened EngineMachine
  import opened EngineInv
  import opened EngineSteps
  import opened EngineLogs
  import opened EngineStarts
  import opened KeptPages
  import L = LatchMachine
  import LP = LatchProof
  import W = WalMachine
  import WP = WalProof
  import T = TxnMachine
  import TT = TxnTheorems

  // ------------------------------------------------------------ any last record

  /** Job `x` ends with record `b`: its thread is done, its pages and the settled tree are
      what the tree now says. */
  ghost predicate Ends(s: State, s': State, x: TxId, b: Body)
  {
    && x in s.jobs && Logs(s, s', x, b, true) && SaneBody(b)
    && s' == State(s'.latch, s'.wal, s'.txn, s'.settled, s.jobs - {x}, s'.carrier)
    && s'.settled.Some? && s'.latch.tree.Some?
    && (s.latch.tree.Some? == s.settled.Some?)
    && (if b.RootChange? then s'.settled.value.root == b.page
       else s.settled.Some? && s'.settled.value.root == s.settled.value.root)
    && (forall u :: u in s.latch.threads && u != s.jobs[x].tid ==>
       u in s'.latch.threads && s'.latch.threads[u] == s.latch.threads[u])
    && (forall p {:trigger TreePage(s'.latch.tree, p)} :: p !in s.wal.ops[x] ==>
       TreePage(s'.latch.tree, p) == TreePage(s.latch.tree, p))
    && (forall p {:trigger TreePage(s'.settled, p)} :: p !in s.wal.ops[x] ==>
       TreePage(s'.settled, p) == TreePage(s.settled, p))
    && (forall p {:trigger NodeAfter(W.At(s.wal.cur, p).node, b, p)} :: p in s.wal.ops[x] ==>
          NodeAfter(W.At(s.wal.cur, p).node, b, p) == TreePage(s'.settled, p))
    && (s'.carrier.Some? ==> s'.carrier == s.carrier && SameTop(s, s'))
  }

  lemma EndLayers(s: State, s': State, x: TxId, b: Body)
    requires Layers(s) && Logs(s, s', x, b, true) && L.LatchInv(s'.latch, MapNow(s'))
    ensures Layers(s') && Appended(s.wal, s'.wal, x, b, true) && Closed(s.txn, s'.txn, x, b)
  {
    hide W.Next, W.Inv, T.Next, T.Inv, T.CountOk, L.LatchInv, Closed, Appended;
    ClosesGroup(s.txn, s'.txn, x, b);
    AppendsTo(s.wal, s'.wal, x, b, true);
    WP.NextInv(s.wal, s'.wal, LogStep(x, b, true));
    TT.NextInv(s.txn, s'.txn, T.AppendRecord(x, Record(x, true, b)));
  }

  lemma EndCoupled(s: State, s': State, x: TxId, b: Body)
    requires Coupled(s) && x in s.jobs && x in s.wal.ops && Ends(s, s', x, b)
    requires Appended(s.wal, s'.wal, x, b, true) && Closed(s.txn, s'.txn, x, b)
    ensures Coupled(s')
  {
    hide Logs, SaneBody, NodeAfter, TreePage, SameTop, Set;
  }

  /** The other groups, their threads and their operations stay as they were. */
  lemma OthersStay(s: State, s': State, x: TxId, b: Body, y: TxId)
    requires JobOk(s, y) && Coupled(s) && CarrierOk(s') && x in s.wal.ops && Ends(s, s', x, b)
    requires Appended(s.wal, s'.wal, x, b, true) && Closed(s.txn, s'.txn, x, b) && y in s.jobs && y != x
    ensures SameJob(s, s', y) && s'.wal.ops[y] == s.wal.ops[y] && (s.jobs[y].stage.Growing? ==> SameTop(s, s'))
  {
    hide Logs, SaneBody, NodeAfter, TreePage, Set, Matches, RootOf, Fits, GrowNode, FirstLeaf, Ahead, AllFit, SameTop,
         OnPage;
    assert s.jobs[y].tid != s.jobs[x].tid;
    assert s.jobs[y].stage.Growing? ==> s'.carrier == Some(y);
  }

  lemma EndJob(s: State, s': State, x: TxId, b: Body, y: TxId)
    requires JobOk(s, y) && Coupled(s) && CarrierOk(s') && x in s.wal.ops && Ends(s, s', x, b)
    requires Appended(s.wal, s'.wal, x, b, true) && Closed(s.txn, s'.txn, x, b)
    ensures JobOk(s', y)
  {
    hide Logs, SaneBody, NodeAfter, TreePage, Closed, Appended, Coupled, CarrierOk, SameJob, SameTop;
    if y in s'.jobs {
      OthersStay(s, s', x, b, y);
      JobKeeps(s, s', y);
    }
  }

  lemma PageStays(s: State, s': State, x: TxId, b: Body, p: PageId)
    requires x in s.wal.ops && Ends(s, s', x, b) && Appended(s.wal, s'.wal, x, b, true) && p !in s.wal.ops[x]
    ensures SamePage(s, s', p)
  {
    hide Logs, SaneBody, TreePage, SameTop;
    assert !OnPage(b, p);
  }

  lemma EndHeld(s: State, s': State, x: TxId, b: Body, y: TxId, p: PageId)
    requires HeldOk(s, y, p) && JobOk(s, y) && Coupled(s) && x in s.wal.ops && Ends(s, s', x, b)
    requires CarrierOk(s')
    requires Appended(s.wal, s'.wal, x, b, true) && Closed(s.txn, s'.txn, x, b)
    requires y != x && y in s.wal.ops && p in s.wal.ops[y] ==> p !in s.wal.ops[x]
    ensures HeldOk(s', y, p)
  {
    hide Logs, SaneBody, NodeAfter, TreePage, Closed, Appended, Coupled, CarrierOk, SameTop, SamePage;
    if y in s'.jobs {
      OthersStay(s, s', x, b, y);
      if p in s.wal.ops[y] {
        PageStays(s, s', x, b, p);
        HeldKeeps(s, s', y, p);
      }
    }
  }

  lemma EndKept(s: State, s': State, x: TxId, b: Body, p: PageId)
    requires KeptIs(s, p) && W.Inv(s.wal) && W.Inv(s'.wal) && x in s.wal.ops && Ends(s, s', x, b)
    requires Appended(s.wal, s'.wal, x, b, true)
    ensures KeptIs(s', p)
  {
    hide W.Inv, KeptNow, Logs, SaneBody, NodeAfter, TreePage, SameTop;
    EndRecord(s.wal, s'.wal, Record(x, true, b), p);
    if p in s.wal.ops[x] {
      assert W.At(s'.wal.cur, p).node == NodeAfter(W.At(s.wal.cur, p).node, b, p);
    }
  }

  lemma EndsKeeps(s: State, s': State, x: TxId, b: Body)
    requires EngineOk(s) && x in s.wal.ops && Ends(s, s', x, b)
    requires L.LatchInv(s'.latch, MapNow(s')) && CarrierOk(s') && TreeWith(s'.settled, s'.txn.m)
    ensures EngineOk(s')
  {
    hide Layers, Coupled, CarrierOk, TreeWith, SaneAll, JobOk, HeldOk, KeptIs, Ends, Appended, Closed, L.LatchInv,
         MapNow, Logs;
    LayersOf(s);
    assert Logs(s, s', x, b, true) && SaneBody(b) && x in s.jobs by { EndsWith(s, s', x, b); }
    EndLayers(s, s', x, b);
    EndCoupled(s, s', x, b);
    SaneAppend(s, s', x, b, true);
    forall y ensures JobOk(s', y) {
      assert JobOk(s, y);
      EndJob(s, s', x, b, y);
    }
    forall y, p ensures HeldOk(s', y, p) {
      assert HeldOk(s, y, p) && JobOk(s, y);
      if y != x && y in s.wal.ops && p in s.wal.ops[y] { InsideApart(s, x, y, p); }
      EndHeld(s, s', x, b, y, p);
    }
    forall p ensures KeptIs(s', p) {
      assert KeptIs(s, p);
      assert W.Inv(s.wal) && W.Inv(s'.wal) by { WalOf(s); WalOf(s'); }
      hide W.Inv;
      EndKept(s, s', x, b, p);
    }
  }

  lemma EndsWith(s: State, s': State, x: TxId, b: Body)
    requires x in s.wal.ops && Ends(s, s', x, b)
    ensures Logs(s, s', x, b, true) && SaneBody(b) && x in s.jobs
  {
    hide Logs, SaneBody, NodeAfter, TreePage, SameTop;
  }

  lemma WalOf(s: State)
    requires Layers(s)
    ensures W.Inv(s.wal) && L.LatchInv(s.latch, MapNow(s))
  {
    hide W.Inv, T.Inv, T.CountOk, L.LatchInv;
  }

  // ------------------------------------------------------------ edits of one leaf

  /** Writing or erasing a key again changes nothing. */
  lemma EditTwice(n: Node, k: Key, v: Option<Value>)
    requires LeafNode(n) && Sorted(n.keys)
    ensures var w := EditLeaf(n, k, v); LeafNode(w) && EditLeaf(w, k, v) == w
  {
    LowerBoundCorrect(n.keys, k);
    var w := EditLeaf(n, k, v);
    var i := LowerBound(n.keys, k);
    if v.Some? {
      if Has(n.keys, k) {
        assert w.vals[i := v.value] == w.vals;
      } else {
        InsertKeepsSorted(n.keys, k);
        LowerBoundUnique(w.keys, k, i) by { LessIrreflexive(k); }
        assert w.vals[i := v.value] == w.vals;
      }
    } else if Has(n.keys, k) {
      EraseKeepsPlace(n.keys, k);
    }
  }

  /** What the acting step of an edit does, seen from the latch layer alone. */
  lemma EditFacts(l: L.State, m: KV, l': L.State, tid: L.Tid, key: Key, value: Option<Value>)
    requires L.LatchInv(l, m) && tid in l.threads && Matches(l.threads[tid].op, key, value)
    requires value.None? || l.threads[tid].pc.Leafed?
    requires L.Next(l, l', if value.Some? then L.WriteLeaf(tid) else L.EraseLeaf(tid))
    ensures l.tree.Some?
    ensures var (g, p) := (l.tree.value, EditPage(l.threads[tid]));
            && p in g.pages && p in g.info && InRange(key, g.info[p]) && LeafNode(g.pages[p]) && Sorted(g.pages[p].keys)
            && (value.Some? ==> Fits(EditLeaf(g.pages[p], key, value)))
            && l'.tree == Some(WithNode(g, p, EditLeaf(g.pages[p], key, value)))
            && L.LatchInv(l', Set(m, key, value))
            && (forall u :: u in l.threads && u != tid ==> u in l'.threads && l'.threads[u] == l.threads[u])
  {
    hide L.LatchInv, L.Next, L.ThreadOk, Fits, LeafWrite, LeafErase, L.Found, Inv, Holds, InRange, LeafOk, PageOk,
         Sorted;
    var y := l.threads[tid];
    var step := if value.Some? then L.WriteLeaf(tid) else L.EraseLeaf(tid);
    ThreadIs(l, m, tid);
    LP.NextKeeps(l, m, l', step);
    LP.OneThread(l, l', step);
    EditedTree(l, l', tid, key, value);
    assert m - {key} == Set(m, key, None);
    EditedLeaf(l, m, EditPage(y), key);
  }

  lemma EditedTree(l: L.State, l': L.State, tid: L.Tid, key: Key, value: Option<Value>)
    requires tid in l.threads && Matches(l.threads[tid].op, key, value) && L.ThreadOk(l, l.threads[tid])
    requires value.None? || l.threads[tid].pc.Leafed?
    requires L.Next(l, l', if value.Some? then L.WriteLeaf(tid) else L.EraseLeaf(tid))
    ensures L.Covers(l, EditPage(l.threads[tid]), key) && tid in l'.threads
    ensures var (g, p) := (l.tree.value, EditPage(l.threads[tid]));
            && LeafNode(g.pages[p])
            && (value.Some? ==> Fits(EditLeaf(g.pages[p], key, value)))
            && l'.tree == Some(WithNode(g, p, EditLeaf(g.pages[p], key, value)))
  {
    hide Fits, LeafWrite, LeafErase, L.Found, InRange, LeafOk;
  }

  lemma EditedLeaf(l: L.State, m: KV, p: PageId, key: Key)
    requires L.TreeOk(l, m) && L.Covers(l, p, key) && LeafNode(l.tree.value.pages[p])
    ensures var g := l.tree.value; p in g.info && InRange(key, g.info[p]) && Sorted(g.pages[p].keys)
  {
    hide Inv, Holds, InRange;
    NodeFacts(l.tree.value, p);
  }

  lemma SettledEdit(g: Shape, m: KV, p: PageId, key: Key, value: Option<Value>)
    requires TreeWith(Some(g), m) && p in g.pages && LeafNode(g.pages[p]) && InRange(key, g.info[p])
    requires value.Some? ==> Fits(EditLeaf(g.pages[p], key, value))
    ensures TreeWith(Some(WithNode(g, p, EditLeaf(g.pages[p], key, value))), Set(m, key, value))
  {
    hide Fits, LeafWrite, LeafErase, LeafOk, InRange;
    NodeFacts(g, p);
    if value.Some? { WriteHolds(g, m, p, key, value.value); } else { EraseHolds(g, m, p, key); }
    hide Inv, Holds;
    EraseFits(g.pages[p], key);
    OnePage(g.pages, p, EditLeaf(g.pages[p], key, value));
    Basics(WithNode(g, p, EditLeaf(g.pages[p], key, value)));
  }

  lemma EditAhead(g: Shape, h: Shape, own: set<PageId>, p: PageId, w: Node)
    requires Ahead(g, h, own) && p !in own && p in g.pages
    ensures Ahead(WithNode(g, p, w), WithNode(h, p, w), own)
  {
    var (a, b) := (WithNode(g, p, w), WithNode(h, p, w));
    forall q | q in a.pages && q !in own
      ensures q in b.pages && q in a.info && q in b.info && b.pages[q] == a.pages[q] && SameRange(a.info[q], b.info[q])
    {
      assert q in g.pages && q in h.pages;
    }
    assert b.pages.Keys == h.pages.Keys + {p} && a.pages.Keys == g.pages.Keys + {p};
  }

  /** The leaf being edited is the same in memory, in the tree and in the settled tree, and
      covers the key there too. */
  lemma EditSettled(s: State, x: TxId)
    requires EngineOk(s) && AtEdit(s, x) && x in s.wal.ops && s.settled.Some? && !Carries(s.jobs[x])
    requires var p := EditOf(s, x).0;
             p in s.wal.ops[x] && p in s.latch.tree.value.info && InRange(s.txn.open[x].key, s.latch.tree.value.info[p])
    ensures var p := EditOf(s, x).0;
            && s.latch.tree.Some? && p in s.settled.value.pages
               && s.settled.value.pages[p] == s.latch.tree.value.pages[p]
            && p in s.settled.value.info && InRange(s.txn.open[x].key, s.settled.value.info[p])
            && (s.carrier.Some? ==> s.carrier.value in s.wal.ops && p !in s.wal.ops[s.carrier.value])
            && (forall q :: q in s.wal.ops[x] ==> TreePage(s.latch.tree, q) == TreePage(s.settled, q))
  {
    hide Layers, SaneAll, KeptIs, HeldOk, JobOk, AtMost, Below, AllFit, EditLeaf, Inv, Holds;
    var p := EditOf(s, x).0;
    LayersOf(s);
    if s.carrier.Some? {
      var c := s.carrier.value;
      assert c != x && c in s.wal.ops;
      forall q | q in s.wal.ops[x] ensures q !in s.wal.ops[c] {
        InsideApart(s, c, x, q);
      }
      forall q | q in s.wal.ops[x] ensures TreePage(s.latch.tree, q) == TreePage(s.settled, q) {
        AheadPages(s.settled.value, s.latch.tree.value, s.wal.ops[c], q);
      }
      assert TreePage(s.latch.tree, p) == TreePage(s.settled, p);
      assert Frame(s.settled.value, s.latch.tree.value, s.wal.ops[c]);
    }
  }

  /** The last record leaves the leaf in memory as edited, whichever form it takes. */
  lemma EditLogged(s: State, x: TxId, b: Body, q: PageId)
    requires EngineOk(s) && AtEdit(s, x) && x in s.wal.ops && s.jobs[x].plan == [] && q in s.wal.ops[x]
    requires Sorted(s.latch.tree.value.pages[EditOf(s, x).0].keys)
    requires var (p, w) := EditOf(s, x);
             && (s.jobs[x].stage == Fresh || s.jobs[x].stage == Imaged(p))
             && (b == PageImage(p, w) || b == KeyBody(s.txn.open[x], p))
    ensures var (p, w) := EditOf(s, x);
            NodeAfter(W.At(s.wal.cur, q).node, b, q) == if q == p then Some(w) else TreePage(s.latch.tree, q)
  {
    hide Layers, Coupled, CarrierOk, TreeWith, SaneAll, KeptIs, JobOk, LeafWrite, LeafErase, OwnedBy, Sorted;
    assert HeldOk(s, x, q);
    var (p, w) := EditOf(s, x);
    var op := s.txn.open[x];
    EditTwice(s.latch.tree.value.pages[p], op.key, op.value);
    Unplanned(W.At(s.wal.cur, q).node, q);
  }

  lemma SetCommutes(m: KV, a: Key, v: Option<Value>, b: Key, w: Option<Value>)
    requires a != b
    ensures Set(Set(m, a, v), b, w) == Set(Set(m, b, w), a, v)
  {
  }

  /** The map the tree holds after an edit ends, beside a split or not. */
  lemma EditMapNow(s: State, s': State, x: TxId, b: Body)
    requires T.OpenOk(s.txn, x) && Closed(s.txn, s'.txn, x, b) && s'.carrier == s.carrier && s.carrier != Some(x)
    ensures MapNow(s') == Set(MapNow(s), s.txn.open[x].key, s.txn.open[x].value)
  {
    hide Set;
    if s.carrier.Some? && s.carrier.value in s.txn.open {
      var c := s.txn.open[s.carrier.value];
      SetCommutes(s.txn.m, s.txn.open[x].key, s.txn.open[x].value, c.key, c.value);
    }
  }

  lemma EditCarrier(s: State, s': State, x: TxId, p: PageId, w: Node)
    requires CarrierOk(s) && Coupled(s) && x in s.jobs && s.settled.Some? && s.latch.tree.Some?
             && s'.wal.ops == s.wal.ops - {x}
    requires s'.settled == Some(WithNode(s.settled.value, p, w))
             && s'.latch.tree == Some(WithNode(s.latch.tree.value, p, w))
    requires s'.jobs == s.jobs - {x} && s'.carrier == s.carrier && s.carrier != Some(x) && Fits(w)
             && p in s.settled.value.pages
    requires s.carrier.Some? ==> s.carrier.value in s.wal.ops && p !in s.wal.ops[s.carrier.value]
    ensures CarrierOk(s')
  {
    hide Fits, RootOf, Ahead;
    OnePage(s.latch.tree.value.pages, p, w);
    if s.carrier.Some? {
      EditAhead(s.settled.value, s.latch.tree.value, s.wal.ops[s.carrier.value], p, w);
    }
  }

  /** Everything the last record of an edit rests on. */
  ghost predicate Editing(s: State, s': State, x: TxId, b: Body, p: PageId, w: Node)
  {
    && x in s.jobs && x in s.txn.open && x in s.wal.ops && p in s.wal.ops[x] && !Carries(s.jobs[x]) && s.settled.Some?
       && s.latch.tree.Some?
    && Logs(s, s', x, b, true) && SaneBody(b) && !b.RootChange?
    && s'.latch.tree == Some(WithNode(s.latch.tree.value, p, w))
    && s' == State(s'.latch, s'.wal, s'.txn, Some(WithNode(s.settled.value, p, w)), s.jobs - {x}, s.carrier)
    && (forall u :: u in s.latch.threads && u != s.jobs[x].tid ==>
       u in s'.latch.threads && s'.latch.threads[u] == s.latch.threads[u])
    && p in s.settled.value.pages
    && (s.carrier.Some? ==> s.carrier.value in s.wal.ops && p !in s.wal.ops[s.carrier.value])
    && (forall q :: q in s.wal.ops[x] ==> TreePage(s.latch.tree, q) == TreePage(s.settled, q))
    && (forall q {:trigger NodeAfter(W.At(s.wal.cur, q).node, b, q)} :: q in s.wal.ops[x] ==>
          NodeAfter(W.At(s.wal.cur, q).node, b, q) == if q == p then Some(w) else TreePage(s.latch.tree, q))
  }

  lemma EditingEnds(s: State, s': State, x: TxId, b: Body, p: PageId, w: Node)
    requires Editing(s, s', x, b, p, w)
    ensures Ends(s, s', x, b)
  {
    hide Logs, SaneBody, NodeAfter;
    assert GrowNode(s'.latch.tree.value) == GrowNode(s.latch.tree.value);
    hide GrowNode;
  }

  lemma Editor(s: State, x: TxId)
    requires AtEdit(s, x) && Coupled(s)
    ensures x in s.jobs && x in s.txn.open && x in s.wal.ops && s.jobs[x].tid in s.latch.threads
  {
    hide RootOf;
  }

  /** The acting step, for the leaf and contents of `EditOf`. */
  ghost predicate Edits(s: State, s': State, x: TxId, p: PageId, w: Node)
    requires x in s.jobs && x in s.txn.open
  {
    var (key, value) := (s.txn.open[x].key, s.txn.open[x].value);
    && s.latch.tree.Some? && p in s.latch.tree.value.pages && p in s.latch.tree.value.info
    && InRange(key, s.latch.tree.value.info[p])
    && LeafNode(s.latch.tree.value.pages[p]) && Sorted(s.latch.tree.value.pages[p].keys)
    && w == EditLeaf(s.latch.tree.value.pages[p], key, value) && (value.Some? ==> Fits(w))
    && s'.latch.tree == Some(WithNode(s.latch.tree.value, p, w))
    && L.LatchInv(s'.latch, Set(MapNow(s), key, value))
    && (forall u :: u in s.latch.threads && u != s.jobs[x].tid ==>
       u in s'.latch.threads && s'.latch.threads[u] == s.latch.threads[u])
  }

  lemma EditActs(s: State, s': State, x: TxId)
    requires Layers(s) && JobOk(s, x) && DoEndLeaf(s, s', x)
    ensures var (p, w) := EditOf(s, x); Edits(s, s', x, p, w)
  {
    hide W.Inv, T.Inv, T.CountOk, L.LatchInv, L.Next, Logs, EditLeaf, InRange, LeafNode, Sorted, Fits, KeyBody, Set,
         MapNow, L.AtLeaf;
    EditFacts(s.latch, MapNow(s), s'.latch, s.jobs[x].tid, s.txn.open[x].key, s.txn.open[x].value);
  }

  /** The frame of the step: what it logs and what it leaves. */
  ghost predicate LastRecord(s: State, s': State, x: TxId, b: Body, p: PageId, w: Node)
  {
    && x in s.jobs && x in s.txn.open && x in s.wal.ops && s.settled.Some? && p in s.wal.ops[x]
    && s.jobs[x].plan == [] && (s.jobs[x].stage == Fresh || s.jobs[x].stage == Imaged(p))
    && Logs(s, s', x, b, true) && (b == PageImage(p, w) || b == KeyBody(s.txn.open[x], p)) && SaneBody(b)
    && s' == State(s'.latch, s'.wal, s'.txn, Some(WithNode(s.settled.value, p, w)), s.jobs - {x}, s.carrier)
    && Appended(s.wal, s'.wal, x, b, true) && Closed(s.txn, s'.txn, x, b)
  }

  lemma LogsAppend(s: State, s': State, x: TxId, b: Body)
    requires Logs(s, s', x, b, true)
    ensures Appended(s.wal, s'.wal, x, b, true) && Closed(s.txn, s'.txn, x, b)
  {
    hide W.Next, T.Next, Appended, Closed;
    ClosesGroup(s.txn, s'.txn, x, b);
    AppendsTo(s.wal, s'.wal, x, b, true);
  }

  lemma EditRecord(s: State, s': State, x: TxId) returns (b: Body)
    requires EngineOk(s) && DoEndLeaf(s, s', x)
    ensures AtEdit(s, x)
    ensures var (p, w) := EditOf(s, x); LastRecord(s, s', x, b, p, w)
  {
    hide EngineOk, Logs, EditOf, KeyBody, L.Next, Appended, Closed, Sane;
    EditSane(s, x);
    LayersOf(s);
    assert AtEdit(s, x);
    assert x in s.wal.ops by { Editor(s, x); }
    hide Layers, Coupled, CarrierOk, TreeWith, SaneAll, AtEdit;
    var (p, w) := EditOf(s, x);
    b := if p in s.wal.imaged then KeyBody(s.txn.open[x], p) else PageImage(p, w);
    assert OnPage(b, p) && SaneBody(b) by { KeyBodyOn(s.txn.open[x], p); }
    LogsAppend(s, s', x, b);
    assert p in s.wal.ops[x] by { AppendsOn(s.wal, s'.wal, x, b, p); }
  }

  lemma KeyBodyOn(op: T.OpenOp, p: PageId)
    ensures OnPage(KeyBody(op, p), p) && SaneBody(KeyBody(op, p)) && !KeyBody(op, p).RootChange?
  {
  }

  lemma AppendsOn(w: W.State, w': W.State, x: TxId, b: Body, p: PageId)
    requires Appended(w, w', x, b, true) && OnPage(b, p)
    ensures x in w.ops && p in w.ops[x]
  {
    hide NodeAfter;
  }

  lemma CarriersCarry(s: State)
    requires EngineOk(s) && s.carrier.Some?
    ensures s.carrier.value in s.jobs && Carries(s.jobs[s.carrier.value])
  {
    hide Layers, Coupled, TreeWith, SaneAll, KeptIs, HeldOk, JobOk;
  }

  lemma EditTrees(s: State, s': State, x: TxId, b: Body, p: PageId, w: Node)
    requires EngineOk(s) && AtEdit(s, x) && EditOf(s, x) == (p, w) && LastRecord(s, s', x, b, p, w)
             && Edits(s, s', x, p, w)
    ensures Editing(s, s', x, b, p, w) && CarrierOk(s') && TreeWith(s'.settled, s'.txn.m)
  {
    hide Layers, Coupled, CarrierOk, TreeWith, SaneAll, KeptIs, HeldOk, JobOk, EditOf, AtEdit, Logs, Appended,
         NodeAfter, EditLeaf, Set, Fits, InRange, Sorted, L.LatchInv, MapNow, KeyBody, SaneBody;
    LayersOf(s);
    if s.carrier.Some? { CarriersCarry(s); }
    EditSettled(s, x);
    forall q | q in s.wal.ops[x]
      ensures NodeAfter(W.At(s.wal.cur, q).node, b, q) == if q == p then Some(w) else TreePage(s.latch.tree, q)
    {
      EditLogged(s, x, b, q);
    }
    KeyBodyOn(s.txn.open[x], p);
    assert s'.wal.ops == s.wal.ops - {x} by { AppendedOps(s, s', x, b); }
    SettledEdit(s.settled.value, s.txn.m, p, s.txn.open[x].key, s.txn.open[x].value);
    EditFitsToo(s, p, s.txn.open[x].key, s.txn.open[x].value);
    hide EngineOk;
    EditCarrier(s, s', x, p, w);
  }

  lemma AppendedOps(s: State, s': State, x: TxId, b: Body)
    requires Appended(s.wal, s'.wal, x, b, true)
    ensures s'.wal.ops == s.wal.ops - {x}
  {
    hide NodeAfter;
  }

  lemma EditFitsToo(s: State, p: PageId, key: Key, value: Option<Value>)
    requires CarrierOk(s) && s.latch.tree.Some? && p in s.latch.tree.value.pages
             && LeafNode(s.latch.tree.value.pages[p])
    requires value.Some? ==> Fits(EditLeaf(s.latch.tree.value.pages[p], key, value))
    ensures Fits(EditLeaf(s.latch.tree.value.pages[p], key, value))
  {
    hide Fits, LeafErase, LeafWrite, Ahead;
    OnePage(s.latch.tree.value.pages, p, s.latch.tree.value.pages[p]);
    EraseFits(s.latch.tree.value.pages[p], key);
  }

  lemma EditLatch(s: State, s': State, x: TxId, b: Body, p: PageId, w: Node)
    requires EngineOk(s) && LastRecord(s, s', x, b, p, w) && Edits(s, s', x, p, w)
    ensures L.LatchInv(s'.latch, MapNow(s'))
  {
    hide Layers, Coupled, CarrierOk, TreeWith, SaneAll, KeptIs, HeldOk, JobOk, Logs, Appended, Closed, EditLeaf, Set,
         Fits, InRange, Sorted, L.LatchInv, MapNow, KeyBody, SaneBody;
    if s.carrier.Some? { CarriersCarry(s); }
    assert T.OpenOk(s.txn, x) by { LayersOf(s); OpenIs(s, x); }
    EditMapNow(s, s', x, b);
  }

  lemma OpenIs(s: State, x: TxId)
    requires Layers(s)
    ensures T.OpenOk(s.txn, x)
  {
    hide L.LatchInv, W.Inv, T.CountOk, T.FlagsOk, T.KeyOk, T.CleanOk, T.DeltaOk, T.ReplayOk, T.OpenOk, T.Ids, T.LocksOk,
         T.HistoryOk;
    assert T.OpenOk(s.txn, x);
  }

  lemma StepEndLeaf(s: State, s': State, x: TxId)
    requires EngineOk(s) && DoEndLeaf(s, s', x)
    ensures EngineOk(s')
  {
    hide EngineOk, Ends, Edits, Editing, EditOf, AtEdit, CarrierOk, TreeWith, SaneAll, Coupled, L.LatchInv, MapNow;
    var b := EditRecord(s, s', x);
    var (p, w) := EditOf(s, x);
    assert x in s.jobs && x in s.txn.open && x in s.wal.ops by { hide Logs, KeyBody, SaneBody, Appended, Closed; }
    hide LastRecord;
    assert Edits(s, s', x, p, w) by { LayersOf(s); assert JobOk(s, x) by { JobIs(s, x); } EditActs(s, s', x); }
    hide DoEndLeaf;
    EditTrees(s, s', x, b, p, w);
    EditLatch(s, s', x, b, p, w);
    EditingEnds(s, s', x, b, p, w);
    EndsKeeps(s, s', x, b);
  }
}
