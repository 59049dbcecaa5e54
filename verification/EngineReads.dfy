/** What a transaction sees through the tree: its reads return the map's value, and the
    before-image it logs is what its leaf holds, also while another operation's split has
    the tree ahead of the map. */
module EngineReads {
  import opened Keys
  import opened Nodes
  import opened TxnLog
  import Locks
  import opened TreeShape
  import opened EngineMachine
  import opened EngineInv
  import opened EngineStarts
  import opened EngineRoots
  import L = LatchMachine
  import LP = LatchProof
  import T = TxnMachine
  import W = WalMachine

  /** Whoever is writing a key keeps everyone else's locks off it. */
  lemma WriterAlone(t: T.State, c: TxId, x: TxId)
    requires T.Inv(t) && c in t.open && c != x
    ensures !Locks.Holds(t.locks, x, t.open[c].key)
  {
    assert T.OpenOk(t, c) && T.KeyOk(t, c, t.open[c].key) && T.FlagsOk(t, c);
    assert Locks.Compatible(t.locks);
    hide T.Inv, T.CleanOk, T.DeltaOk, T.ReplayOk, T.Ids, T.HistoryOk;
    if t.open[c].kind.Inverse? {
      var u := t.txns[c].undo;
      EntryFound(u, t.txns[c].phase.todo - 1);
    }
  }

  lemma {:induction false} EntryFound(u: seq<T.Entry>, i: nat)
    requires i < |u|
    ensures T.FirstBefore(u, u[i].key).Some?
    decreases i
  {
    if i > 0 && u[0].key != u[i].key {
      EntryFound(u[1..], i - 1);
    }
  }

  lemma MapAway(s: State, key: Key)
    requires s.carrier.Some? && s.carrier.value in s.txn.open ==> s.txn.open[s.carrier.value].key != key
    ensures Lookup(MapNow(s), key) == Get(s.txn.m, key)
  {
  }

  /** A read under a lock returns what the transactions' map says. */
  lemma ReadSeesTheMap(s: State, s': State, x: TxId, tid: L.Tid)
    requires EngineOk(s) && DoRead(s, s', x, tid)
    ensures tid in s.latch.threads && tid in s'.latch.threads
    ensures s'.latch.threads[tid].result == Get(s.txn.m, s.latch.threads[tid].op.key)
  {
    hide EngineOk, Layers, L.LatchInv, L.Next, T.Next, Locks.Holds, Coupled, CarrierOk, TreeWith, SaneAll, T.Inv, W.Inv,
         T.CountOk, MapNow;
    var key := s.latch.threads[tid].op.key;
    LayersOf(s);
    LatchOf(s);
    OpensAre(s);
    ReadHolds(s.txn, s'.txn, x, key);
    if s.carrier.Some? && s.carrier.value in s.txn.open { WriterAlone(s.txn, s.carrier.value, x); }
    MapAway(s, key);
    var step := if L.Next(s.latch, s'.latch, L.ReadLeaf(tid)) then L.ReadLeaf(tid) else L.FindEmpty(tid);
    LP.ActsOnItsLeaf(s.latch, MapNow(s), s'.latch, step);
  }

  lemma ReadHolds(t: T.State, t': T.State, x: TxId, key: Key)
    requires T.Next(t, t', T.ReadKey(x, key))
    ensures Locks.Holds(t.locks, x, key) && x !in t.open
  {
    hide Locks.Holds;
  }

  lemma OpensAre(s: State)
    requires EngineOk(s)
    ensures T.Inv(s.txn)
  {
    hide EngineOk, L.LatchInv, W.Inv, T.Inv, T.CountOk;
    LayersOf(s);
  }

  /** When a group opens on a leaf, the value it takes for the key's old one, the
      before-image it will log, is what that leaf holds. */
  lemma BeforeIsInTheLeaf(s: State, s': State, x: TxId, tid: L.Tid, kind: T.Kind)
    requires EngineOk(s) && DoOpen(s, s', x, tid, kind) && !s.latch.threads[tid].pc.Rooted?
    ensures x in s'.txn.open
    ensures var y := s.latch.threads[tid];
            && s.latch.tree.Some? && EditPage(y) in s.latch.tree.value.pages
               && LeafNode(s.latch.tree.value.pages[EditPage(y)])
            && s'.txn.open[x].before == L.Found(s.latch.tree.value.pages[EditPage(y)], y.op.key)
  {
    hide EngineOk, Layers, L.LatchInv, L.ThreadOk, T.Next, W.Next, DoOpen, L.Found, Coupled, CarrierOk, TreeWith,
         SaneAll, T.Inv, W.Inv, T.CountOk, Ready, Fits, Get, MapNow;
    LayersOf(s);
    LatchOf(s);
    OpenedAt(s, s', x, tid, kind);
    var y := s.latch.threads[tid];
    var p := EditPage(y);
    ThreadIs(s.latch, MapNow(s), tid);
    ReadyAt(s.latch, tid);
    LP.LeafSays(s.latch, MapNow(s), p, y.op.key);
    MapAway(s, y.op.key);
  }

  lemma ReadyAt(l: L.State, tid: L.Tid)
    requires tid in l.threads && Ready(l, tid) && !l.threads[tid].pc.Rooted? && L.ThreadOk(l, l.threads[tid])
    ensures L.AtLeaf(l, tid, EditPage(l.threads[tid]))
    ensures L.Covers(l, EditPage(l.threads[tid]), l.threads[tid].op.key)
  {
    hide Fits, InRange, LeafOk;
  }

  lemma OpenedAt(s: State, s': State, x: TxId, tid: L.Tid, kind: T.Kind)
    requires DoOpen(s, s', x, tid, kind)
    ensures tid in s.latch.threads && x in s'.txn.open && s'.txn.open[x].key == s.latch.threads[tid].op.key
    ensures s'.txn.open[x].before == Get(s.txn.m, s.latch.threads[tid].op.key)
    ensures forall u :: u in s.txn.open ==> s.txn.open[u].key != s.latch.threads[tid].op.key
    ensures Ready(s.latch, tid)
  {
    hide Locks.Holds, Locks.HoldsX, W.Next, Get, Fits, LeafWrite;
  }
}
