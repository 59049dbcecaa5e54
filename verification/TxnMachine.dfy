/** Transactions at run time as a step machine over the tree's map, the log, the lock
    table and the transactions' undo lists. Each step appends at most one record, so
    the machine can be stopped (crash) between any two records.

    A write is an operation group: it is opened under the key's exclusive lock, logs
    any number of page records and, for a transaction, one key record with the
    before-image, and takes effect on the map with the record that ends the group.
    Groups of different owners interleave freely. Autocommit writes are groups of
    their own; by the API's contract they stay off keys that a live transaction has
    locked. */
module TxnMachine {
  import opened Keys
  import opened TxnLog
  import opened Locks

  /** Forward: a transaction's own write. Inverse: one step of its rollback. */
  datatype Kind = Forward | Inverse | Auto

  datatype OpenOp = OpenOp(key: Key, value: Option<Value>, before: Option<Value>, kind: Kind, logged: bool,
    creates: bool)

  datatype Entry = Entry(key: Key, before: Option<Value>)

  /** Rolling back newest first: `undo[..todo]` is still to be inverted. */
  datatype Phase = Running | Aborting(todo: nat)

  datatype Op = ReadOp(key: Key, value: Option<Value>) | WriteOp(key: Key, value: Option<Value>)

  datatype Txn = Txn(priority: nat, phase: Phase, begun: bool, undo: seq<Entry>, ops: seq<Op>)

  /** `begunTxns` is the counter of transactions that have logged their begin record and
      not yet their end. `initial` and `serial` are history: the map at the start, and the operations of
      everything committed so far, whole transactions in commit order. */
  datatype State = State(
    m: KV, base: KV, log: seq<Record>, eff: Effects,
    txns: map<TxId, Txn>, open: map<TxId, OpenOp>, locks: LockTable, nextTx: TxId, rooted: bool,
    begunTxns: nat, initial: KV, serial: seq<Op>)

  datatype Step =
    | BeginTxn(t: TxId, priority: nat)
    | AcquireLock(t: TxId, key: Key, mode: LockMode)
    | ReadKey(t: TxId, key: Key)
    | LogBegin(t: TxId)
    | StartWrite(t: TxId, key: Key, value: Option<Value>)
    | StartAuto(t: TxId, key: Key, value: Option<Value>)
    | AppendRecord(t: TxId, r: Record)
    | StartAbort(t: TxId)
    | StartInverse(t: TxId)
    | SkipInverse(t: TxId)
    | CommitTxn(t: TxId)
    | FinishAbort(t: TxId)
    | MarkCheckpoint
    | Truncate

  ghost predicate Init(s: State)
  {
    && s.m == s.base == s.initial && s.log == [] && s.eff == []
    && s.txns == map[] && s.open == map[] && s.locks == map[] && s.serial == []
    && (!s.rooted ==> s.m == map[]) && s.nextTx > 0 && s.begunTxns == 0
  }

  /** A transaction between operations. */
  predicate Idle(s: State, t: TxId) { t in s.txns && t !in s.open }

  /** The key record an operation logs. Rollbacks and autocommit log no before-image. */
  predicate IsDelta(op: OpenOp, b: Body)
  {
    var before := if op.kind.Forward? then op.before else None;
    if op.value.Some? then b.PutRec? && b.key == op.key && b.value == op.value.value && b.before == before
    else b.DeleteRec? && b.key == op.key && b.before == before
  }

  predicate IsPageRecord(b: Body) { b.AllocPage? || b.RootChange? || b.PageImage? }

  /** Opening a group: nobody else is writing the key, and while the tree is empty the
      first writer makes the root alone (a delete finds nothing there). */
  ghost predicate MayOpen(s: State, key: Key, value: Option<Value>)
  {
    && (value.None? ==> key in s.m)
    && (forall u :: u in s.open ==> s.open[u].key != key && !s.open[u].creates)
  }

  function Opened(s: State, t: TxId, key: Key, value: Option<Value>, kind: Kind): State
  {
    s.(open := s.open[t := OpenOp(key, value, Get(s.m, key), kind, false, !s.rooted)])
  }

  function Append(s: State, r: Record, e: Option<Effect>): State { s.(log := s.log + [r], eff := s.eff + [e]) }

  /** What its end does to the owner: a write is remembered, an inversion is ticked off. */
  function Owner(x: Txn, op: OpenOp): Txn
  {
    match op.kind
    case Forward => x.(undo := x.undo + [Entry(op.key, op.before)], ops := x.ops + [WriteOp(op.key, op.value)])
    case Inverse => x.(phase := Aborting(if x.phase.Aborting? && x.phase.todo > 0 then x.phase.todo - 1 else 0))
    case Auto => x
  }

  /** The operation ends: its effect reaches the map. */
  function Finished(s: State, t: TxId, r: Record): State
    requires t in s.open && (s.open[t].kind.Auto? || t in s.txns)
  {
    var op := s.open[t];
    State(Set(s.m, op.key, op.value), s.base, s.log + [r], s.eff + [Some(Effect(op.key, op.value, op.creates))],
          if op.kind.Auto? then s.txns else s.txns[t := Owner(s.txns[t], op)], s.open - {t}, s.locks, s.nextTx, true,
          s.begunTxns, s.initial, if op.kind.Auto? then s.serial + [WriteOp(op.key, op.value)] else s.serial)
  }

  function Ended(s: State, t: TxId): State { s.(txns := s.txns - {t}, locks := Release(s.locks, t)) }

  /** The end record and the counter go together, under the writer latch. */
  function LogEnd(s: State, t: TxId, b: Body): State
  {
    Append(s, Record(t, true, b), None).(begunTxns := if s.begunTxns > 0 then s.begunTxns - 1 else 0)
  }

  ghost predicate DoBegin(s: State, s': State, t: TxId, priority: nat)
  {
    t == s.nextTx && s' == s.(nextTx := t + 1, txns := s.txns[t := Txn(priority, Running, false, [], [])])
  }

  ghost predicate DoAcquire(s: State, s': State, t: TxId, key: Key, mode: LockMode)
  {
    && Idle(s, t) && s.txns[t].phase.Running?
    && !Blocked(s.locks, t, key, mode)
    && (forall u :: u in s.open && s.open[u].kind.Auto? ==> s.open[u].key != key)
    && s' == s.(locks := Grant(s.locks, t, s.txns[t].priority, key, mode))
  }

  ghost predicate DoRead(s: State, s': State, t: TxId, key: Key)
  {
    && Idle(s, t) && s.txns[t].phase.Running? && Holds(s.locks, t, key)
    && s' == s.(txns := s.txns[t := s.txns[t].(ops := s.txns[t].ops + [ReadOp(key, Get(s.m, key))])])
  }

  ghost predicate DoLogBegin(s: State, s': State, t: TxId)
  {
    && Idle(s, t) && s.txns[t].phase.Running? && !s.txns[t].begun
    && s' == Append(s, Record(t, true, Begin), None).(begunTxns := s.begunTxns + 1,
                                                      txns := s.txns[t := s.txns[t].(begun := true)])
  }

  ghost predicate DoStartWrite(s: State, s': State, t: TxId, key: Key, value: Option<Value>)
  {
    && Idle(s, t) && s.txns[t].phase.Running? && s.txns[t].begun && HoldsX(s.locks, t, key)
    && MayOpen(s, key, value)
    && s' == Opened(s, t, key, value, Forward)
  }

  ghost predicate DoStartAuto(s: State, s': State, t: TxId, key: Key, value: Option<Value>)
  {
    && t == s.nextTx && (forall u :: !Holds(s.locks, u, key)) && MayOpen(s, key, value)
    && s' == Opened(s, t, key, value, Auto).(nextTx := t + 1)
  }

  ghost predicate DoAppend(s: State, s': State, t: TxId, r: Record)
  {
    && t in s.open && (s.open[t].kind.Auto? || t in s.txns) && r.txid == t
    && var op := s.open[t];
       var delta := IsDelta(op, r.body);
       && (IsPageRecord(r.body) || (delta && !op.logged && !op.creates))
       && (r.opEnd && op.kind.Forward? && !op.creates ==> delta || op.logged)
       && if r.opEnd then s' == Finished(s, t, r)
          else s' == Append(s, r, None).(open := s.open[t := op.(logged := op.logged || delta)])
  }

  ghost predicate DoStartAbort(s: State, s': State, t: TxId)
  {
    && Idle(s, t) && s.txns[t].phase.Running?
    && s' == s.(txns := s.txns[t := s.txns[t].(phase := Aborting(|s.txns[t].undo|))])
  }

  ghost predicate DoStartInverse(s: State, s': State, t: TxId)
  {
    && Idle(s, t) && s.txns[t].phase.Aborting? && 0 < s.txns[t].phase.todo <= |s.txns[t].undo|
    && var e := s.txns[t].undo[s.txns[t].phase.todo - 1];
       && MayOpen(s, e.key, e.before)
       && s' == Opened(s, t, e.key, e.before, Inverse)
  }

  ghost predicate DoSkipInverse(s: State, s': State, t: TxId)
  {
    // Deleting a key that is not there: NotFound counts as done.
    && Idle(s, t) && s.txns[t].phase.Aborting? && 0 < s.txns[t].phase.todo <= |s.txns[t].undo|
    && var e := s.txns[t].undo[s.txns[t].phase.todo - 1];
       && e.before.None? && e.key !in s.m
       && s' == s.(txns := s.txns[t := s.txns[t].(phase := Aborting(s.txns[t].phase.todo - 1))])
  }

  ghost predicate DoCommit(s: State, s': State, t: TxId)
  {
    && Idle(s, t) && s.txns[t].phase.Running?
    && var logged := if s.txns[t].begun then LogEnd(s, t, Commit) else s;
       s' == Ended(logged, t).(serial := s.serial + s.txns[t].ops)
  }

  ghost predicate DoFinishAbort(s: State, s': State, t: TxId)
  {
    && Idle(s, t) && s.txns[t].phase == Aborting(0)
    && s' == Ended(if s.txns[t].begun then LogEnd(s, t, Abort) else s, t)
  }

  /** A checkpoint holds the latch exclusively (no group is open). It writes its marker
      and later truncates only while the counter is zero. */
  ghost predicate DoMark(s: State, s': State)
  {
    s.open == map[] && s.begunTxns == 0 && s' == Append(s, Record(0, true, Checkpoint), None)
  }

  ghost predicate DoTruncate(s: State, s': State)
  {
    && s.open == map[] && s.begunTxns == 0
    && s' == s.(base := s.m, log := [], eff := [])
  }

  ghost predicate Next(s: State, s': State, step: Step)
  {
    match step
    case BeginTxn(t, priority) => DoBegin(s, s', t, priority)
    case AcquireLock(t, key, mode) => DoAcquire(s, s', t, key, mode)
    case ReadKey(t, key) => DoRead(s, s', t, key)
    case LogBegin(t) => DoLogBegin(s, s', t)
    case StartWrite(t, key, value) => DoStartWrite(s, s', t, key, value)
    case StartAuto(t, key, value) => DoStartAuto(s, s', t, key, value)
    case AppendRecord(t, r) => DoAppend(s, s', t, r)
    case StartAbort(t) => DoStartAbort(s, s', t)
    case StartInverse(t) => DoStartInverse(s, s', t)
    case SkipInverse(t) => DoSkipInverse(s, s', t)
    case CommitTxn(t) => DoCommit(s, s', t)
    case FinishAbort(t) => DoFinishAbort(s, s', t)
    case MarkCheckpoint => DoMark(s, s')
    case Truncate => DoTruncate(s, s')
  }

  // ------------------------------------------------------------ history

  /** Run operations one after another from `c`; a read that does not return what was
      recorded makes the run fail. */
  ghost function Replay(c: KV, ops: seq<Op>): Option<KV>
  {
    if ops == [] then Some(c)
    else
      var r := Replay(c, ops[..|ops| - 1]);
      if r.None? then None
      else match ops[|ops| - 1]
           case ReadOp(k, v) => if Get(r.value, k) == v then r else None
           case WriteOp(k, v) => Some(Set(r.value, k, v))
  }

  // ------------------------------------------------------------ the invariant

  ghost function C(s: State): KV
    requires |s.log| == |s.eff|
  {
    Committed(s.base, s.log, s.eff)
  }

  /** What the first entry for `k` in an undo list says was there before. */
  function FirstBefore(u: seq<Entry>, k: Key): Option<Option<Value>>
  {
    if u == [] then None else if u[0].key == k then Some(u[0].before) else FirstBefore(u[1..], k)
  }

  predicate Wrote(s: State, t: TxId, k: Key) { t in s.txns && FirstBefore(s.txns[t].undo, k).Some? }

  ghost predicate Ids(s: State)
  {
    && |s.log| == |s.eff| && s.nextTx > 0
    && (forall t :: t in s.txns || t in s.open ==> 0 < t < s.nextTx)
    && (forall i :: 0 <= i < |s.log| ==> s.log[i].txid < s.nextTx)
    && s.m == Redo(s.base, s.eff)
    && (!s.rooted ==> s.m == map[])
  }

  ghost predicate LocksOk(s: State)
  {
    && Compatible(s.locks)
    && (forall t, k :: Holds(s.locks, t, k) ==> t in s.txns)
  }

  ghost predicate FlagsOk(s: State, t: TxId)
  {
    && (t in s.txns ==> (s.txns[t].begun <==> HasBegin(s.log, t)) && !HasEnd(s.log, t))
    && (t !in s.txns ==> (HasBegin(s.log, t) ==> HasEnd(s.log, t)))
    && (t in s.open && s.open[t].kind.Auto? ==> t !in s.txns && !HasBegin(s.log, t))
    && (t in s.open && !s.open[t].kind.Auto? ==> t in s.txns && s.txns[t].begun)
  }

  ghost predicate OpenOk(s: State, t: TxId)
  {
    t in s.open ==>
      var op := s.open[t];
      && (forall u :: u in s.open && u != t ==> s.open[u].key != op.key && !(op.creates && s.open[u].creates))
      && (op.creates ==> !s.rooted) && (!s.rooted ==> op.creates)
      && (op.creates ==> op.value.Some? && op.before == None && !op.kind.Inverse?)
      && (op.kind.Auto? ==> forall u :: !Holds(s.locks, u, op.key))
      && (op.kind.Forward? ==>
            && t in s.txns && s.txns[t].phase.Running? && HoldsX(s.locks, t, op.key) && op.before == Get(s.m, op.key)
            && (op.value.None? ==> op.before.Some?))
      && (op.creates ==> !op.logged)
      && (op.kind.Inverse? ==>
            && t in s.txns && s.txns[t].phase.Aborting? && 0 < s.txns[t].phase.todo <= |s.txns[t].undo|
            && var e := s.txns[t].undo[s.txns[t].phase.todo - 1]; op.key == e.key && op.value == e.before)
  }

  /** A live transaction still holds every key it wrote, and the map and the committed
      state stand in the relation its phase says. */
  ghost predicate KeyOk(s: State, t: TxId, k: Key)
    requires |s.log| == |s.eff|
  {
    t in s.txns ==>
      var x := s.txns[t];
      && (Wrote(s, t, k) ==>
         HoldsX(s.locks, t, k) && Some(Get(C(s), k)) == FirstBefore(x.undo, k) && x.begun && s.rooted)
      && (x.phase.Running? ==>
            var w := Writes(s.log, s.eff, t);
            (k in w <==> Wrote(s, t, k)) && (k in w ==> w[k] == Get(s.m, k)))
      && (x.phase.Aborting? ==>
            && x.phase.todo <= |x.undo|
            && (FirstBefore(x.undo[x.phase.todo..], k).Some? ==>
                  Some(Get(s.m, k)) == FirstBefore(x.undo[x.phase.todo..], k)))
  }

  /** A key no live transaction wrote is as committed. */
  ghost predicate CleanOk(s: State, k: Key)
    requires |s.log| == |s.eff|
  {
    (forall t :: !Wrote(s, t, k)) ==> Get(C(s), k) == Get(s.m, k)
  }

  /** The root-making write of `t`, if its group is complete in this log. */
  ghost predicate Made(log: seq<Record>, eff: Effects, t: TxId, k: Key)
    requires |log| == |eff|
  {
    exists i :: 0 <= i < |log| && log[i].txid == t && eff[i].Some? && eff[i].value.creates && eff[i].value.key == k
  }

  predicate OnlyOnce(u: seq<Entry>, k: Key) { forall j :: 0 < j < |u| ==> u[j].key != k }

  /** What undo will find in the log for key `k` of live transaction `t`: the
      before-image of its first write, except that the root-making write left none. */
  ghost predicate DeltaOk(s: State, t: TxId, k: Key)
    requires |s.log| == |s.eff|
  {
    t in s.txns ==>
      var x := s.txns[t];
      var (f, d) := (FirstTouch(s.log, t, k), FirstUndo(s.log, t, k));
      && (!Wrote(s, t, k) ==> d.None? && !Made(s.log, s.eff, t, k))
      && (Wrote(s, t, k) && !Made(s.log, s.eff, t, k) ==> d == FirstBefore(x.undo, k))
      && (Made(s.log, s.eff, t, k) ==>
            && x.undo != [] && x.undo[0] == Entry(k, None)
            && (OnlyOnce(x.undo, k) ==> d.None? && (x.phase.Running? ==> k in s.m))
            && (!OnlyOnce(x.undo, k) ==> d.Some? && d.value.Some?))
      && (if d.None? && t in s.open && s.open[t].logged && s.open[t].kind.Forward? && s.open[t].key == k
             && (s.open[t].value.Some? || s.open[t].before.Some?)
          then f == Some(s.open[t].before) else f == d)
  }

  /** Committed history replays to the committed state, and so does every running
      transaction from it, over keys it has locked. */
  ghost predicate HistoryOk(s: State)
    requires |s.log| == |s.eff|
  {
    Replay(s.initial, s.serial) == Some(C(s))
  }

  ghost predicate ReplayOk(s: State, t: TxId)
    requires |s.log| == |s.eff|
  {
    t in s.txns && s.txns[t].phase.Running? ==>
      var x := s.txns[t];
      var r := Replay(C(s), x.ops);
      && (forall i :: 0 <= i < |x.ops| ==> Holds(s.locks, t, x.ops[i].key))
      && r.Some?
      && (forall k :: if Wrote(s, t, k) then Get(r.value, k) == Get(s.m, k) else Get(r.value, k) == Get(C(s), k))
  }

  function BegunSet(s: State): set<TxId> { set t | t in s.txns && s.txns[t].begun }

  /** The counter counts: begun and unended transactions, no more, no fewer. */
  ghost predicate CountOk(s: State) { s.begunTxns == |BegunSet(s)| }

  ghost predicate Inv(s: State)
  {
    && Ids(s) && LocksOk(s) && HistoryOk(s)
    && (forall t {:trigger FlagsOk(s, t)} :: FlagsOk(s, t))
    && (forall t {:trigger OpenOk(s, t)} :: OpenOk(s, t))
    && (forall t, k {:trigger KeyOk(s, t, k)} :: KeyOk(s, t, k))
    && (forall k {:trigger CleanOk(s, k)} :: CleanOk(s, k))
    && (forall t, k {:trigger DeltaOk(s, t, k)} :: DeltaOk(s, t, k))
    && (forall t {:trigger ReplayOk(s, t)} :: ReplayOk(s, t))
  }
}
