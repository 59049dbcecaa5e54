/** Every step keeps the transaction invariant. */
module TxnSteps {
  import opened Keys
  import opened TxnLog
  import opened Locks
  import opened TxnMachine
  import opened TxnAppend

  // ------------------------------------------------------------ steps that leave log and map alone

  // ------------------------------------------------------------ which step it is

  lemma AppendIs(s: State, s': State, t: TxId, r: Record)
    requires Next(s, s', AppendRecord(t, r))
    ensures DoAppend(s, s', t, r)
  {
    hide DoBegin, DoAcquire, DoRead, DoLogBegin, DoStartWrite, DoStartAuto, DoAppend, DoStartAbort, DoStartInverse,
         DoSkipInverse, DoCommit, DoFinishAbort, DoMark, DoTruncate;
  }

  lemma ReadIs(s: State, s': State, t: TxId, key: Key)
    requires Next(s, s', ReadKey(t, key))
    ensures DoRead(s, s', t, key)
  {
    hide DoBegin, DoAcquire, DoRead, DoLogBegin, DoStartWrite, DoStartAuto, DoAppend, DoStartAbort, DoStartInverse,
         DoSkipInverse, DoCommit, DoFinishAbort, DoMark, DoTruncate;
  }

  lemma PhaseIs(s: State, s': State, step: Step)
    requires Next(s, s', step) && (step.StartAbort? || step.SkipInverse?)
    ensures if step.StartAbort? then DoStartAbort(s, s', step.t) else DoSkipInverse(s, s', step.t)
  {
    hide DoBegin, DoAcquire, DoRead, DoLogBegin, DoStartWrite, DoStartAuto, DoAppend, DoStartAbort, DoStartInverse,
         DoSkipInverse, DoCommit, DoFinishAbort, DoMark, DoTruncate;
  }

  lemma StartIs(s: State, s': State, step: Step)
    requires Next(s, s', step) && (step.StartWrite? || step.StartAuto? || step.StartInverse?)
    ensures match step
            case StartWrite(t, key, value) => DoStartWrite(s, s', t, key, value)
            case StartAuto(t, key, value) => DoStartAuto(s, s', t, key, value)
            case _ => DoStartInverse(s, s', step.t)
  {
    hide DoBegin, DoAcquire, DoRead, DoLogBegin, DoStartWrite, DoStartAuto, DoAppend, DoStartAbort, DoStartInverse,
         DoSkipInverse, DoCommit, DoFinishAbort, DoMark, DoTruncate;
  }

  /** Log, map and history are the same in both states. */
  ghost predicate Quiet(s: State, s': State)
  {
    && s'.m == s.m && s'.base == s.base && s'.log == s.log && s'.eff == s.eff && s'.rooted == s.rooted
    && s'.initial == s.initial && s'.serial == s.serial
  }

  lemma BeginInv(s: State, s': State, t: TxId, priority: nat)
    requires Inv(s) && Next(s, s', BeginTxn(t, priority))
    ensures Inv(s')
  {
    hide Writes, FirstTouch, FirstUndo, Committed, Redo, Made, HasBegin, HasEnd, Get, Compatible;
    assert Quiet(s, s') && C(s') == C(s);
    forall u ensures FlagsOk(s', u) && OpenOk(s', u) && ReplayOk(s', u) {
      assert FlagsOk(s, u) && OpenOk(s, u) && ReplayOk(s, u);
      NoRecords(s.log, s.eff, t, []);
    }
    forall u, k ensures KeyOk(s', u, k) && DeltaOk(s', u, k) {
      assert KeyOk(s, u, k) && DeltaOk(s, u, k);
      NoRecords(s.log, s.eff, t, k);
    }
    forall k ensures CleanOk(s', k) {
      assert CleanOk(s, k);
      assert forall u :: Wrote(s, u, k) ==> Wrote(s', u, k);
    }
  }

  lemma AcquireInv(s: State, s': State, t: TxId, key: Key, mode: LockMode)
    requires Inv(s) && Next(s, s', AcquireLock(t, key, mode))
    ensures Inv(s')
  {
    hide Writes, FirstTouch, FirstUndo, FirstBefore, Replay, Committed, Redo, Made, HasBegin, HasEnd, Get, Compatible;
    assert Quiet(s, s') && C(s') == C(s);
    GrantCompatible(s.locks, t, s.txns[t].priority, key, mode);
    GrantHolds(s.locks, t, s.txns[t].priority, key, mode);
    forall u ensures FlagsOk(s', u) && OpenOk(s', u) && ReplayOk(s', u) {
      assert FlagsOk(s, u) && OpenOk(s, u) && ReplayOk(s, u);
      AcquireReplay(s, s', u);
    }
    forall u, k ensures KeyOk(s', u, k) && DeltaOk(s', u, k) {
      assert KeyOk(s, u, k) && DeltaOk(s, u, k);
    }
    forall k ensures CleanOk(s', k) {
      assert CleanOk(s, k);
      assert forall u :: Wrote(s, u, k) ==> Wrote(s', u, k);
    }
  }

  /** More locks never hurt a replay. */
  lemma AcquireReplay(s: State, s': State, u: TxId)
    requires |s.log| == |s.eff| && Quiet(s, s') && s'.txns == s.txns && ReplayOk(s, u)
    requires forall x, k :: Holds(s.locks, x, k) ==> Holds(s'.locks, x, k)
    ensures ReplayOk(s', u)
  {
    assert C(s') == C(s);
    assert forall k :: Wrote(s', u, k) == Wrote(s, u, k);
  }

  lemma ReadInv(s: State, s': State, t: TxId, key: Key)
    requires Inv(s) && Next(s, s', ReadKey(t, key))
    ensures Inv(s')
  {
    hide Writes, FirstTouch, FirstUndo, FirstBefore, Replay, Committed, Redo, Made, HasBegin, HasEnd, Get, Compatible;
    assert Quiet(s, s') && C(s') == C(s);
    assert forall u, k :: Wrote(s', u, k) == Wrote(s, u, k);
    forall u ensures FlagsOk(s', u) && OpenOk(s', u) && ReplayOk(s', u) {
      assert FlagsOk(s, u) && OpenOk(s, u) && ReplayOk(s, u);
      if u == t { ReadReplay(s, s', t, key); } else { SameReplay(s, s', u); }
    }
    forall u, k ensures KeyOk(s', u, k) && DeltaOk(s', u, k) {
      assert KeyOk(s, u, k) && DeltaOk(s, u, k);
    }
    forall k ensures CleanOk(s', k) { assert CleanOk(s, k); }
  }

  lemma SameReplay(s: State, s': State, u: TxId)
    requires |s.log| == |s.eff| && Quiet(s, s') && s'.locks == s.locks && ReplayOk(s, u)
    requires u in s.txns <==> u in s'.txns
    requires u in s.txns ==> s'.txns[u] == s.txns[u]
    ensures ReplayOk(s', u)
  {
    assert C(s') == C(s);
    assert forall k :: Wrote(s', u, k) == Wrote(s, u, k);
  }

  /** The value read is the one the replay has: the transaction's own last write, or
      the committed value, which nobody can change while the lock is held. */
  lemma ReadReplay(s: State, s': State, t: TxId, key: Key)
    requires Inv(s) && Next(s, s', ReadKey(t, key))
    ensures |s'.log| == |s'.eff| && ReplayOk(s', t)
  {
    hide Next, FlagsOk, OpenOk, KeyOk, DeltaOk, CleanOk, Committed, Get, Replay, FirstBefore, Compatible;
    ReadIs(s, s', t, key);
    var x := s.txns[t];
    assert ReplayOk(s, t);
    ReplayAppend(C(s), x.ops, ReadOp(key, Get(s.m, key)));
    ReadsCommitted(s, t, key);
    assert C(s') == C(s);
    assert forall k :: Wrote(s', t, k) == Wrote(s, t, k);
  }

  lemma ReadsCommitted(s: State, t: TxId, key: Key)
    requires Inv(s) && Holds(s.locks, t, key)
    ensures !Wrote(s, t, key) ==> Get(C(s), key) == Get(s.m, key)
  {
    if !Wrote(s, t, key) {
      forall u ensures !Wrote(s, u, key) {
        assert KeyOk(s, u, key);
      }
      assert CleanOk(s, key);
    }
  }

  // ------------------------------------------------------------ opening a group, starting to abort

  lemma StartInv(s: State, s': State, step: Step)
    requires Inv(s) && Next(s, s', step)
    requires step.StartWrite? || step.StartAuto? || step.StartInverse?
    ensures Inv(s')
  {
    hide Next;
    StartQuiet(s, s', step);
    hide Writes, FirstTouch, FirstUndo, FirstBefore, Replay, Committed, Redo, Made, HasBegin, HasEnd, Compatible,
         OpenOk, Next;
    forall u ensures OpenOk(s', u) && FlagsOk(s', u) {
      StartOpenOk(s, s', step, u);
      StartFlagsOk(s, s', step, u);
    }
    forall u ensures ReplayOk(s', u) {
      assert ReplayOk(s, u);
      SameReplay(s, s', u);
    }
    forall u, k ensures KeyOk(s', u, k) && DeltaOk(s', u, k) {
      assert KeyOk(s, u, k) && DeltaOk(s, u, k);
    }
    forall k ensures CleanOk(s', k) {
      assert CleanOk(s, k);
      assert forall u :: Wrote(s, u, k) == Wrote(s', u, k);
    }
  }

  lemma StartQuiet(s: State, s': State, step: Step)
    requires Ids(s) && Next(s, s', step) && LocksOk(s)
    requires step.StartWrite? || step.StartAuto? || step.StartInverse?
    ensures Quiet(s, s') && Ids(s') && C(s') == C(s) && s'.txns == s.txns && s'.locks == s.locks && LocksOk(s')
    ensures s'.open.Keys == s.open.Keys + {step.t} && step.t !in s.open
    ensures !s'.open[step.t].logged && forall u :: u in s.open ==> s'.open[u] == s.open[u]
  {
  }

  lemma StartFlagsOk(s: State, s': State, step: Step, u: TxId)
    requires Inv(s) && Next(s, s', step)
    requires step.StartWrite? || step.StartAuto? || step.StartInverse?
    ensures FlagsOk(s', u)
  {
    hide Writes, FirstTouch, FirstUndo, Replay, Committed, Redo, Made, HasBegin, HasEnd, Get, Compatible, OpenOk;
    assert FlagsOk(s, u);
    if step.StartAuto? {
      NoRecords(s.log, s.eff, step.t, []);
    }
    if step.StartInverse? {
      var x := s.txns[step.t];
      FirstBeforeSuffix(x.undo, x.phase.todo - 1, []);
      assert KeyOk(s, step.t, x.undo[x.phase.todo - 1].key);
    }
  }

  lemma StartOpenOk(s: State, s': State, step: Step, u: TxId)
    requires Inv(s) && Next(s, s', step)
    requires step.StartWrite? || step.StartAuto? || step.StartInverse?
    ensures OpenOk(s', u)
  {
    hide Writes, FirstTouch, FirstUndo, FirstBefore, Replay, Committed, Redo, Made, HasBegin, HasEnd, Compatible,
         FlagsOk, DeltaOk, ReplayOk, DoStartInverse, Next;
    StartIs(s, s', step);
    assert OpenOk(s, u);
    if step.StartInverse? {
      StartInverseOk(s, s', step.t, u);
    }
  }

  lemma StartInverseOk(s: State, s': State, t: TxId, u: TxId)
    requires Inv(s) && OpenOk(s, u) && DoStartInverse(s, s', t)
    ensures OpenOk(s', u)
  {
    hide Writes, FirstTouch, FirstUndo, FirstBefore, Replay, Committed, Redo, Made, HasBegin, HasEnd, Compatible,
         FlagsOk, DeltaOk, ReplayOk, Next;
    var x := s.txns[t];
    var e := x.undo[x.phase.todo - 1];
    FirstBeforeSuffix(x.undo, x.phase.todo - 1, e.key);
    assert KeyOk(s, t, e.key);
  }

  lemma PhaseInv(s: State, s': State, step: Step)
    requires Inv(s) && Next(s, s', step) && (step.StartAbort? || step.SkipInverse?)
    ensures Inv(s')
  {
    hide Writes, FirstTouch, FirstUndo, Replay, Committed, Redo, Made, HasBegin, HasEnd, Compatible;
    var t := step.t;
    assert Quiet(s, s') && C(s') == C(s);
    assert forall u, k :: Wrote(s', u, k) == Wrote(s, u, k);
    forall u ensures FlagsOk(s', u) && OpenOk(s', u) && ReplayOk(s', u) {
      assert FlagsOk(s, u) && OpenOk(s, u) && ReplayOk(s, u);
      if u != t { SameReplay(s, s', u); }
    }
    forall u, k ensures KeyOk(s', u, k) && DeltaOk(s', u, k) {
      PhaseKeyOk(s, s', step, u, k);
    }
    forall k ensures CleanOk(s', k) { assert CleanOk(s, k); }
  }

  lemma PhaseKeyOk(s: State, s': State, step: Step, u: TxId, k: Key)
    requires Inv(s) && Next(s, s', step) && (step.StartAbort? || step.SkipInverse?)
    ensures |s'.log| == |s'.eff| && KeyOk(s', u, k) && DeltaOk(s', u, k)
  {
    hide Writes, FirstTouch, FirstUndo, Replay, Committed, Redo, Made, HasBegin, HasEnd, Compatible, OpenOk, FlagsOk,
         Next;
    PhaseIs(s, s', step);
    if step.StartAbort? {
      AbortKeyOk(s, s', step.t, u, k);
    } else {
      SkipKeyOk(s, s', step.t, u, k);
    }
  }

  lemma AbortKeyOk(s: State, s': State, t: TxId, u: TxId, k: Key)
    requires Inv(s) && DoStartAbort(s, s', t)
    ensures |s'.log| == |s'.eff| && KeyOk(s', u, k) && DeltaOk(s', u, k)
  {
    hide Writes, FirstTouch, FirstUndo, Replay, Committed, Redo, Made, HasBegin, HasEnd, Compatible, OpenOk, FlagsOk,
         ReplayOk, Next;
    assert KeyOk(s, u, k) && DeltaOk(s, u, k);
    assert s.txns[t].undo[|s.txns[t].undo|..] == [];
  }

  lemma SkipKeyOk(s: State, s': State, t: TxId, u: TxId, k: Key)
    requires Inv(s) && DoSkipInverse(s, s', t)
    ensures |s'.log| == |s'.eff| && KeyOk(s', u, k) && DeltaOk(s', u, k)
  {
    hide Writes, FirstTouch, FirstUndo, Replay, Committed, Redo, Made, HasBegin, HasEnd, Compatible, OpenOk, FlagsOk,
         ReplayOk, Next;
    assert KeyOk(s, u, k) && DeltaOk(s, u, k);
    FirstBeforeStep(s.txns[t].undo, s.txns[t].phase.todo, k);
  }
}
