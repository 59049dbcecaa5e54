/** A transaction handle: locks first, then the tree, with an undo list that Abort plays
    backwards, and the three markers it leaves in the log. Between its calls other
    transactions may change the tree, but not the keys this one has locked exclusively;
    while a call sleeps for a lock they take and release locks. */
module TxnHandle {
  import opened Keys
  import opened TreeShape
  import opened BTree
  import opened TreeCapacity
  import Nodes
  import Locks
  import opened TxnMachine
  import opened TxnAppend

  /** Failed: the handle is poisoned. Unlogged: the begin record could not be written and
      nothing was changed. */
  datatype Reply = Done | Busy | Inactive | Rejected | Missing | Failed | Unlogged

  datatype MarkKind = BeginMark | CommitMark | AbortMark

  datatype Mark = Mark(t: TxId, kind: MarkKind)

  /** The map after undoing entries newest first. */
  function RolledBack(m: map<Key, Value>, undo: seq<Entry>): map<Key, Value>
    decreases |undo|
  {
    if undo == [] then m
    else
      var e := undo[|undo| - 1];
      RolledBack(if e.before.Some? then m[e.key := e.before.value] else m - {e.key}, undo[..|undo| - 1])
  }

  /** Rolling back leaves every written key as it was before the first write to it, and
      every other key alone: also when a key was written many times. */
  lemma {:induction false} RollbackRestores(m: map<Key, Value>, undo: seq<Entry>, k: Key)
    ensures Lookup(RolledBack(m, undo), k) == if FirstBefore(undo, k).Some? then FirstBefore(undo, k).value
            else Lookup(m, k)
    decreases |undo|
  {
    if undo != [] {
      var n := |undo| - 1;
      var e := undo[n];
      RollbackRestores(if e.before.Some? then m[e.key := e.before.value] else m - {e.key}, undo[..n], k);
      assert undo == undo[..n] + [e];
      FirstBeforeAppend(undo[..n], e, k);
    }
  }

  /** One more entry taken back than those after it. */
  lemma {:induction false} RolledBackOne(m: map<Key, Value>, e: Entry, undo: seq<Entry>)
    ensures RolledBack(m, [e] + undo) == RolledBack(RolledBack(m, undo), [e])
    decreases |undo|
  {
    if undo == [] {
      assert [e] + undo == [e];
    } else {
      var n := |undo| - 1;
      var last := undo[n];
      assert ([e] + undo)[..n + 1] == [e] + undo[..n];
      RolledBackOne(if last.before.Some? then m[last.key := last.before.value] else m - {last.key}, e, undo[..n]);
    }
  }

  /** Entry `e` has a before-image that tree `g` has no place for. */
  ghost predicate EntryRefused(g: Option<Shape>, e: Entry)
  {
    e.before.Some? && TreeRoom.Refuses(g, e.key, e.before.value)
  }

  /** The rollback stops at entry `stop`: the tree as it has left it, `stuck`, has no place
      for that entry's before-image. */
  ghost predicate StopsAt(undo: seq<Entry>, m: map<Key, Value>, stop: nat, stuck: Option<Shape>)
  {
    stop < |undo| && TreeWith(stuck, RolledBack(m, undo[stop + 1..])) && EntryRefused(stuck, undo[stop])
  }

  // ------------------------------------------------------------ locks, with waits

  /** The request ends so, and leaves the lock table so, after `n` of the others' events. */
  ghost predicate EndsIn(before: Locks.LockTable, after: Locks.LockTable, others: seq<Locks.Event>, n: nat, t: TxId,
      priority: nat, key: Key, mode: Locks.LockMode, r: Locks.Reply)
  {
    && Locks.Ends(before, others, n, t, priority, key, mode, r)
    && var now := Locks.After(before, others[..n]);
       after == if r == Locks.Taken then Locks.Grant(now, t, priority, key, mode) else now
  }

  /** Granted, at the first look that found nothing in the way. */
  ghost predicate Granted(before: Locks.LockTable, after: Locks.LockTable, others: seq<Locks.Event>, t: TxId,
      priority: nat, key: Key, mode: Locks.LockMode)
  {
    exists n: nat :: EndsIn(before, after, others, n, t, priority, key, mode, Locks.Taken)
  }

  /** Refused, by wait-die at the first look that found an older holder, or because the
      time was up. */
  ghost predicate Refused(before: Locks.LockTable, after: Locks.LockTable, others: seq<Locks.Event>, t: TxId,
      priority: nat, key: Key, mode: Locks.LockMode)
  {
    exists n: nat, r :: r != Locks.Taken && EndsIn(before, after, others, n, t, priority, key, mode, r)
  }

  /** Which of the two is decided by the lock table and what the others do. */
  lemma NeverBoth(before: Locks.LockTable, a: Locks.LockTable, b: Locks.LockTable, others: seq<Locks.Event>, t: TxId,
      priority: nat, key: Key, mode: Locks.LockMode)
    ensures !(Granted(before, a, others, t, priority, key, mode) && Refused(before, b, others, t, priority, key, mode))
  {
    hide Locks.Ends;
    if Granted(before, a, others, t, priority, key, mode) && Refused(before, b, others, t, priority, key, mode) {
      var n: nat :| EndsIn(before, a, others, n, t, priority, key, mode, Locks.Taken);
      var m: nat, r :| r != Locks.Taken && EndsIn(before, b, others, m, t, priority, key, mode, r);
      Locks.OneReply(before, others, n, m, t, priority, key, mode, Locks.Taken, r);
    }
  }

  /** A sleeper releases nothing. */
  predicate NotOwn(others: seq<Locks.Event>, t: TxId) { forall e :: e in others && e.Released? ==> e.u != t }

  /** What the transactions of one database share besides tree and locks: the markers in
      the log, how many of them are flushed, the count of begun transactions, and whether
      the handle is poisoned. `broken`: log appends and flushes fail. */
  class Journal {
    const syncOnWrite: bool
    var marks: seq<Mark>
    var flushed: nat
    var begunTxns: int
    var poisoned: bool
    var broken: bool

    constructor (syncOnWrite: bool)
      ensures marks == [] && flushed == 0 && begunTxns == 0 && !poisoned && !broken && this.syncOnWrite == syncOnWrite
    {
      this.syncOnWrite, marks, flushed, begunTxns, poisoned, broken := syncOnWrite, [], 0, 0, false, false;
    }

    method LogMarker(t: TxId, kind: MarkKind) returns (ok: bool)
      modifies this`marks
      ensures ok == !broken && marks == if ok then old(marks) + [Mark(t, kind)] else old(marks)
    {
      if !broken { marks := marks + [Mark(t, kind)]; }
      return !broken;
    }

    method Flush() returns (ok: bool)
      modifies this`flushed
      ensures ok == !broken && flushed == if ok then |marks| else old(flushed)
    {
      if !broken { flushed := |marks|; }
      return !broken;
    }
  }

  class TxnImpl {
    const tree: BPlusTree
    const locks: Locks.LockManager
    const journal: Journal
    const txid: TxId
    const priority: nat
    var active: bool
    var begun: bool
    var undo: seq<Entry>

    /** Strict two-phase locking: everything written is still locked. Between its first
        write and its end the transaction has its begin marker in the log and no other. */
    ghost predicate Valid()
      reads this, tree, locks, journal
    {
      && tree.Valid() && locks.Valid()
      && (!begun ==> undo == [])
      && (active ==> forall i :: 0 <= i < |undo| ==> Locks.HoldsX(locks.table, txid, undo[i].key))
      && (active ==> MarksOf(journal.marks, txid) == if begun then [BeginMark] else [])
    }

    constructor (tree: BPlusTree, locks: Locks.LockManager, journal: Journal, txid: TxId, priority: nat)
      requires tree.Valid() && locks.Valid() && MarksOf(journal.marks, txid) == []
      ensures Valid() && active && !begun && undo == [] && this.tree == tree && this.locks == locks && this.txid == txid
      ensures this.journal == journal && this.priority == priority
    {
      this.tree, this.locks, this.journal, this.txid, this.priority := tree, locks, journal, txid, priority;
      active, begun, undo := true, false, [];
    }

    /** Others' events take no lock away. */
    method Lock(key: Key, mode: Locks.LockMode, others: seq<Locks.Event>) returns (ok: bool)
      requires Valid() && active && NotOwn(others, txid)
      modifies locks
      ensures Valid()
      ensures ok ==> Granted(old(locks.table), locks.table, others, txid, priority, key, mode)
      ensures !ok ==> Refused(old(locks.table), locks.table, others, txid, priority, key, mode)
      ensures others == [] ==> (ok <==> !Locks.Blocked(old(locks.table), txid, key, mode))
      ensures ok && mode == Locks.Exclusive ==> Locks.HoldsX(locks.table, txid, key)
    {
      hide Locks.Grant, Locks.Blocked, Locks.BlockedByOlder, Locks.HoldsX, Locks.LockManager.Valid, Locks.After,
           Locks.Ends, MarksOf, BPlusTree.Valid;
      ghost var before := locks.table;
      var r, seen := locks.Acquire(txid, priority, key, mode, others);
      ghost var now := Locks.After(before, others[..seen]);
      forall i | 0 <= i < |undo| ensures Locks.HoldsX(now, txid, undo[i].key) {
        Locks.AfterKeeps(before, others[..seen], txid, undo[i].key);
      }
      Locks.GrantHolds(now, txid, priority, key, mode);
      ok := r == Locks.Taken;
      assert EndsIn(before, locks.table, others, seen, txid, priority, key, mode, r);
    }

    method Get(key: Key, others: seq<Locks.Event>) returns (r: Reply, value: Option<Value>)
      requires Valid() && NotOwn(others, txid)
      modifies locks
      ensures Valid() && tree.contents == old(tree.contents)
      ensures r == Inactive || r == Busy || r == Done
      ensures r == Inactive <==> !active
      ensures r == Busy ==> Refused(old(locks.table), locks.table, others, txid, priority, key, Locks.Shared)
      ensures r == Inactive ==> locks.table == old(locks.table)
      ensures r == Done ==>
                value == Lookup(tree.contents, key) && Granted(old(locks.table), locks.table, others, txid, priority,
                  key, Locks.Shared)
      ensures active && others == [] ==> (r == Busy <==> Locks.Blocked(old(locks.table), txid, key, Locks.Shared))
    {
      hide Granted, Refused, Locks.Blocked, Locks.HoldsX, Locks.LockManager.Valid, MarksOf, NotOwn;
      if !active {
        return Inactive, None;
      }
      var ok := Lock(key, Locks.Shared, others);
      if !ok {
        return Busy, None;
      }
      value := tree.Get(key);
      return Done, value;
    }

    /** `Poison`: the transaction ends without undo, its locks go, the handle refuses
        further work; the counter stays up. */
    method Poison()
      requires locks.Valid()
      modifies this`active, locks, journal`poisoned
      ensures !active && journal.poisoned && locks.Valid() && locks.table == Locks.Release(old(locks.table), txid)
    {
      active := false;
      journal.poisoned := true;
      var _ := locks.ReleaseAll(txid);
    }

    /** The begin marker goes with the first write, and the counter with it. */
    method EnsureBegun() returns (ok: bool)
      requires Valid() && active
      modifies this`begun, journal`marks, journal`begunTxns
      ensures Valid() && begun == ok && (ok <==> old(begun) || !journal.broken)
      ensures journal.marks == if ok && !old(begun) then old(journal.marks) + [Mark(txid, BeginMark)]
              else old(journal.marks)
      ensures journal.begunTxns == old(journal.begunTxns) + if ok && !old(begun) then 1 else 0
    {
      hide BPlusTree.Valid, Locks.LockManager.Valid, Locks.HoldsX;
      if begun {
        return true;
      }
      ok := journal.LogMarker(txid, BeginMark);
      if !ok {
        return false;
      }
      MarksAppend(old(journal.marks), Mark(txid, BeginMark), txid);
      begun := true;
      journal.begunTxns := journal.begunTxns + 1;
    }

    /** The marker and the counter of a first write, or nothing. */
    twostate predicate BeganOnce()
      reads this, journal
    {
      && begun
      && journal.marks == (if old(begun) then old(journal.marks) else old(journal.marks) + [Mark(txid, BeginMark)])
      && journal.begunTxns == old(journal.begunTxns) + (if old(begun) then 0 else 1)
    }

    method Put(key: Key, value: Value, others: seq<Locks.Event>) returns (r: Reply)
      requires Valid() && NotOwn(others, txid)
      modifies this, tree, locks, journal`marks, journal`begunTxns, journal`poisoned
      ensures r == Inactive <==> !old(active)
      ensures r == Inactive ==> locks.table == old(locks.table)
      ensures r == Busy ==> Refused(old(locks.table), locks.table, others, txid, priority, key, Locks.Exclusive)
      ensures r == Done || r == Rejected || r == Unlogged ==>
              Granted(old(locks.table), locks.table, others, txid, priority, key, Locks.Exclusive)
      ensures old(active) && others == [] ==>
              (r == Busy <==> Locks.Blocked(old(locks.table), txid, key, Locks.Exclusive))
      ensures r != Inactive && r != Busy ==>
                r == if !old(begun) && journal.broken then Unlogged
                     else if !Nodes.Holdable(key, value) then Rejected
                     else if TreeRoom.PutOverflows(old(tree.pages), old(tree.root), key, value) then Failed
                     else Done
      ensures r != Failed ==> Valid() && active == old(active) && journal.poisoned == old(journal.poisoned)
      ensures r == Done || r == Rejected || r == Failed ==> BeganOnce()
      ensures r == Done ==>
                && tree.contents == old(tree.contents)[key := value]
                && undo == old(undo) + [Entry(key, Lookup(old(tree.contents), key))]
      ensures r == Busy || r == Inactive || r == Rejected || r == Unlogged ==>
              tree.contents == old(tree.contents) && undo == old(undo)
      ensures r == Busy || r == Inactive || r == Unlogged ==>
                begun == old(begun) && journal.marks == old(journal.marks)
                  && journal.begunTxns == old(journal.begunTxns)
      ensures r == Failed ==> !active && journal.poisoned && !Holds(locks, txid)
      ensures SmallRecord(key, value) && AllSmall(old(tree.pages)) ==> r != Failed
    {
      hide Locks.Blocked, Locks.HoldsX, Locks.LockManager.Valid, Locks.Release, BPlusTree.Valid, AllSmall, Granted,
           Refused, MarksOf, TreeRoom.PutOverflows, NotOwn, Nodes.Holdable;
      if !active {
        return Inactive;
      }
      var ok := Lock(key, Locks.Exclusive, others);
      if !ok {
        return Busy;
      }
      r := PutLocked(key, value);
    }

    /** The rest of Put, under the lock. */
    method PutLocked(key: Key, value: Value) returns (r: Reply)
      requires Valid() && active && Locks.HoldsX(locks.table, txid, key)
      modifies this, tree, locks, journal`marks, journal`begunTxns, journal`poisoned
      ensures r == if !old(begun) && journal.broken then Unlogged
                   else if !Nodes.Holdable(key, value) then Rejected
                   else if TreeRoom.PutOverflows(old(tree.pages), old(tree.root), key, value) then Failed
                   else Done
      ensures r != Failed ==> Valid() && active && journal.poisoned == old(journal.poisoned)
      ensures r != Failed ==> locks.table == old(locks.table)
      ensures r != Unlogged ==> BeganOnce()
      ensures r == Done ==>
                && tree.contents == old(tree.contents)[key := value]
                && undo == old(undo) + [Entry(key, Lookup(old(tree.contents), key))]
      ensures r == Rejected || r == Unlogged ==> tree.contents == old(tree.contents) && undo == old(undo)
      ensures r == Unlogged ==>
              begun == old(begun) && journal.marks == old(journal.marks) && journal.begunTxns == old(journal.begunTxns)
      ensures r == Failed ==> !active && journal.poisoned && !Holds(locks, txid)
      ensures SmallRecord(key, value) && AllSmall(old(tree.pages)) ==> r != Failed
    {
      hide Locks.HoldsX, Locks.LockManager.Valid, Locks.Release, BPlusTree.Valid, AllSmall, MarksOf,
           TreeRoom.PutOverflows, Nodes.Holdable;
      var logged := EnsureBegun();
      if !logged {
        return Unlogged;
      }
      var status, before, _ := tree.Put(key, value);
      if status == InvalidArgument {
        return Rejected;
      }
      if status != Ok {
        ghost var table := locks.table;
        Poison();
        ReleasedNothing(table, txid);
        return Failed;
      }
      undo := undo + [Entry(key, before)];
      return Done;
    }

    ghost predicate Holds(locks: Locks.LockManager, t: TxId)
      reads locks
    {
      exists k :: Locks.Holds(locks.table, t, k)
    }

    method Delete(key: Key, others: seq<Locks.Event>) returns (r: Reply)
      requires Valid() && NotOwn(others, txid)
      modifies this, tree, locks, journal`marks, journal`begunTxns
      ensures Valid() && active == old(active)
      ensures r == Inactive <==> !old(active)
      ensures r == Inactive ==> locks.table == old(locks.table)
      ensures r == Busy ==> Refused(old(locks.table), locks.table, others, txid, priority, key, Locks.Exclusive)
      ensures r != Inactive && r != Busy ==>
                && Granted(old(locks.table), locks.table, others, txid, priority, key, Locks.Exclusive)
                && r == if !old(begun) && journal.broken then Unlogged
                        else if key in old(tree.contents) then Done else Missing
      ensures r == Done || r == Missing ==> BeganOnce() && tree.contents == old(tree.contents) - {key}
      ensures undo == if r == Done then old(undo) + [Entry(key, Lookup(old(tree.contents), key))] else old(undo)
      ensures r == Busy || r == Inactive || r == Unlogged ==>
                && tree.contents == old(tree.contents)
                && begun == old(begun) && journal.marks == old(journal.marks)
                   && journal.begunTxns == old(journal.begunTxns)
      ensures old(active) && others == [] ==>
              (r == Busy <==> Locks.Blocked(old(locks.table), txid, key, Locks.Exclusive))
    {
      hide Locks.Blocked, Locks.HoldsX, Locks.LockManager.Valid, BPlusTree.Valid, AllSmall, Granted, Refused, MarksOf,
           NotOwn;
      if !active {
        return Inactive;
      }
      var ok := Lock(key, Locks.Exclusive, others);
      if !ok {
        return Busy;
      }
      var logged := EnsureBegun();
      if !logged {
        return Unlogged;
      }
      var status, before := tree.Delete(key);
      if status == NotFound {
        return Missing;
      }
      undo := undo + [Entry(key, before)];
      return Done;
    }

    /** A begun transaction's commit marker is flushed before anything else; the counter
        goes down with it. Then every lock goes at once, and only now. */
    method Commit() returns (r: Reply)
      requires Valid()
      modifies this`active, locks, journal`marks, journal`flushed, journal`begunTxns, journal`poisoned
      ensures !active && tree.contents == old(tree.contents) && (r == Done || r == Inactive || r == Failed)
      ensures r == Inactive <==> !old(active)
      ensures r == Inactive ==> locks.table == old(locks.table) && journal.marks == old(journal.marks)
      ensures r == Inactive ==> journal.begunTxns == old(journal.begunTxns) && journal.flushed == old(journal.flushed)
      ensures r == Failed <==> old(active) && begun && journal.broken
      ensures r == Done ==>
                && Valid() && locks.table == Locks.Release(old(locks.table), txid)
                   && journal.poisoned == old(journal.poisoned)
                && journal.marks == old(journal.marks) + (if begun then [Mark(txid, CommitMark)] else [])
                && journal.begunTxns == old(journal.begunTxns) - (if begun then 1 else 0)
                && (begun && journal.syncOnWrite ==> journal.flushed == |journal.marks|)
                && (begun ==> MarksOf(journal.marks, txid) == [BeginMark, CommitMark])
      ensures r == Failed ==>
                && journal.poisoned && journal.begunTxns == old(journal.begunTxns)
                && locks.table == Locks.Release(old(locks.table), txid)
    {
      hide Locks.LockManager.Valid, Locks.Release, Locks.HoldsX, BPlusTree.Valid, MarksOf;
      if !active {
        return Inactive;
      }
      active := false;
      if begun {
        var ok := journal.LogMarker(txid, CommitMark);
        if ok && journal.syncOnWrite {
          ok := journal.Flush();
        }
        if !ok {
          Poison();
          return Failed;
        }
        MarksAppend(old(journal.marks), Mark(txid, CommitMark), txid);
        journal.begunTxns := journal.begunTxns - 1;
      }
      var _ := locks.ReleaseAll(txid);
      return Done;
    }

    /** The undo list backwards through the tree, then the abort marker, then the locks. It
        fails only if the log does or a before-image has no place in the tree. */
    method Abort() returns (r: Reply, ghost stop: nat, ghost stuck: Option<Shape>)
      requires Valid()
      modifies this`active, tree, locks, journal`marks, journal`begunTxns, journal`poisoned
      ensures !active && (r == Inactive || r == Done || r == Failed) && (r == Inactive <==> !old(active))
      ensures r == Done ==>
                && Valid() && tree.contents == RolledBack(old(tree.contents), undo)
                   && journal.poisoned == old(journal.poisoned)
                && journal.marks == old(journal.marks) + (if begun then [Mark(txid, AbortMark)] else [])
                && journal.begunTxns == old(journal.begunTxns) - (if begun then 1 else 0)
                && (begun ==> MarksOf(journal.marks, txid) == [BeginMark, AbortMark])
      ensures r == Done && begun ==> !journal.broken
      ensures r == Failed ==>
              begun && journal.poisoned && journal.begunTxns == old(journal.begunTxns)
              && journal.marks == old(journal.marks)
      ensures r == Failed ==> journal.broken || StopsAt(undo, old(tree.contents), stop, stuck)
      ensures r != Inactive ==> locks.table == Locks.Release(old(locks.table), txid)
      ensures r == Inactive ==> tree.contents == old(tree.contents) && locks.table == old(locks.table)
      ensures r == Inactive ==> journal.marks == old(journal.marks) && journal.begunTxns == old(journal.begunTxns)
      ensures AllSmall(old(tree.pages)) && (forall i :: 0 <= i < |undo| ==> SmallEntry(undo[i])) && !journal.broken ==>
              r != Failed
    {
      hide Locks.LockManager.Valid, Locks.Release, Locks.HoldsX, BPlusTree.Valid, AllSmall, SmallEntry, RolledBack,
           MarksOf, StopsAt;
      stop, stuck := 0, None;
      if !active {
        r := Inactive;
        return;
      }
      active := false;
      if begun {
        var ok;
        ok, stop, stuck := UndoAll();
        if ok {
          ok := journal.LogMarker(txid, AbortMark);
        }
        if !ok {
          Poison();
          r := Failed;
          return;
        }
        MarksAppend(old(journal.marks), Mark(txid, AbortMark), txid);
        journal.begunTxns := journal.begunTxns - 1;
      } else {
        assert RolledBack(tree.contents, []) == tree.contents by { NothingToUndo(tree.contents); }
      }
      var _ := locks.ReleaseAll(txid);
      r := Done;
    }

    method UndoAll() returns (ok: bool, ghost stop: nat, ghost stuck: Option<Shape>)
      requires tree.Valid()
      modifies tree
      ensures ok ==> tree.Valid() && tree.contents == RolledBack(old(tree.contents), undo)
      ensures !ok ==> StopsAt(undo, old(tree.contents), stop, stuck)
      ensures AllSmall(old(tree.pages)) && (forall i :: 0 <= i < |undo| ==> SmallEntry(undo[i])) ==> ok
    {
      hide BPlusTree.Valid, AllSmall, SmallEntry, RolledBack, EntryRefused, TreeWith;
      ghost var small := AllSmall(tree.pages) && (forall i :: 0 <= i < |undo| ==> SmallEntry(undo[i]));
      var i := |undo|;
      stop, stuck := 0, None;
      assert undo[i..] == [];
      NothingToUndo(tree.contents);
      while i > 0
        invariant 0 <= i <= |undo| && tree.Valid() && (small ==> AllSmall(tree.pages))
        invariant tree.contents == RolledBack(old(tree.contents), undo[i..])
      {
        i := i - 1;
        assert undo[i..] == [undo[i]] + undo[i + 1..];
        RolledBackOne(old(tree.contents), undo[i], undo[i + 1..]);
        stop, stuck := i, tree.Whole();
        ok := UndoEntry(undo[i]);
        if !ok {
          return;
        }
      }
      assert undo[0..] == undo;
      ok := true;
    }

    method UndoEntry(e: Entry) returns (ok: bool)
      requires tree.Valid()
      modifies tree
      ensures ok <==> !EntryRefused(old(tree.Whole()), e)
      ensures ok ==> tree.Valid() && tree.contents == RolledBack(old(tree.contents), [e])
      ensures AllSmall(old(tree.pages)) && SmallEntry(e) ==> ok && AllSmall(tree.pages)
    {
      hide AllSmall, SmallRecord, TreeRoom.OverflowsOn, Nodes.Holdable, TreeShape.Inv, TreeShape.Holds, AllFit;
      assert [e][..0] == [];
      if e.before.Some? {
        var status, _, _ := tree.Put(e.key, e.before.value);
        return status == Ok;
      }
      var _, _ := tree.Delete(e.key);
      return true;
    }
  }

  predicate SmallEntry(e: Entry) { e.before.Some? ==> SmallRecord(e.key, e.before.value) }

  lemma NothingToUndo(m: map<Key, Value>)
    ensures RolledBack(m, []) == m
  {
  }

  /** The markers of one transaction, in order. */
  function MarksOf(marks: seq<Mark>, t: TxId): seq<MarkKind>
  {
    if marks == [] then []
    else
      var rest := MarksOf(marks[..|marks| - 1], t);
      if marks[|marks| - 1].t == t then rest + [marks[|marks| - 1].kind] else rest
  }

  lemma MarksAppend(marks: seq<Mark>, m: Mark, t: TxId)
    ensures MarksOf(marks + [m], t) == MarksOf(marks, t) + if m.t == t then [m.kind] else []
  {
    assert (marks + [m])[..|marks|] == marks;
  }

  lemma ReleasedNothing(table: Locks.LockTable, t: TxId)
    ensures forall k :: !Locks.Holds(Locks.Release(table, t), t, k)
  {
    Locks.ReleaseHolds(table, t);
  }
}
