/** Recovery and isolation, for every run and every place the log can be cut. */
module TxnTheorems {
  import opened Keys
  import opened TxnLog
  import opened Locks
  import opened TxnMachine
  import opened TxnSteps
  import opened TxnLogSteps
  import opened TxnEndSteps

  // ------------------------------------------------------------ the invariant holds

  lemma InitInv(s: State)
    requires Init(s)
    ensures Inv(s) && CountOk(s)
  {
    assert BegunSet(s) == {};
    forall u ensures FlagsOk(s, u) && OpenOk(s, u) && ReplayOk(s, u) {}
    forall u, k ensures KeyOk(s, u, k) && DeltaOk(s, u, k) {}
    forall k ensures CleanOk(s, k) {}
    assert LocksOk(s) && Ids(s);
  }

  lemma NextInv(s: State, s': State, step: Step)
    requires Inv(s) && CountOk(s) && Next(s, s', step)
    ensures Inv(s') && CountOk(s')
  {
    assert Ids(s);
    hide Inv, CountOk;
    CountNext(s, s', step);
    match step
    case BeginTxn(t, priority) => BeginInv(s, s', t, priority);
    case AcquireLock(t, key, mode) => AcquireInv(s, s', t, key, mode);
    case ReadKey(t, key) => ReadInv(s, s', t, key);
    case LogBegin(t) => LogBeginInv(s, s', t);
    case StartWrite(_, _, _) => StartInv(s, s', step);
    case StartAuto(_, _, _) => StartInv(s, s', step);
    case AppendRecord(t, r) => if r.opEnd { EndGroupInv(s, s', t, r); } else { GroupRecordInv(s, s', t, r); }
    case StartAbort(_) => PhaseInv(s, s', step);
    case StartInverse(_) => StartInv(s, s', step);
    case SkipInverse(_) => PhaseInv(s, s', step);
    case CommitTxn(t) => CommitInv(s, s', t);
    case FinishAbort(t) => FinishAbortInv(s, s', t);
    case MarkCheckpoint => MarkInv(s, s');
    case Truncate => TruncateInv(s, s');
  }

  ghost predicate Run(states: seq<State>, steps: seq<Step>)
  {
    && |states| == |steps| + 1 && Init(states[0])
    && forall i :: 0 <= i < |steps| ==> Next(states[i], states[i + 1], steps[i])
  }

  lemma {:induction false} RunInv(states: seq<State>, steps: seq<Step>, i: nat)
    requires Run(states, steps) && i < |states|
    ensures Inv(states[i]) && CountOk(states[i])
  {
    hide Inv, Next, Init, CountOk;
    if i == 0 {
      InitInv(states[0]);
    } else {
      RunInv(states, steps, i - 1);
      assert Next(states[i - 1], states[i - 1 + 1], steps[i - 1]);
      NextInv(states[i - 1], states[i], steps[i - 1]);
    }
  }

  // ------------------------------------------------------------ recovery

  /** The write that makes the root leaf logs no key record, so undo cannot see it.
      A loser that made the root leaks its key when the key is still there after redo
      (nothing rolled it back), or when a later write of the same key logged its first
      value as a before-image. */
  ghost predicate LeaksKey(base: KV, log: seq<Record>, eff: Effects, t: TxId, k: Key)
    requires |log| == |eff|
  {
    Made(log, eff, t, k) && Loser(log, t) && (k in Redo(base, eff) || FirstUndo(log, t, k).Some?)
  }

  ghost predicate Leaks(base: KV, log: seq<Record>, eff: Effects)
    requires |log| == |eff|
  {
    exists t, k :: LeaksKey(base, log, eff, t, k)
  }

  /** What recovery makes of one key. */
  lemma RecoveredKey(s: State, t: TxId, k: Key)
    requires Inv(s) && Wrote(s, t, k)
    ensures Get(Recovered(s.base, s.log, s.eff), k) ==
            (if FirstUndo(s.log, t, k).Some? then FirstUndo(s.log, t, k).value else Get(s.m, k))
    ensures Loser(s.log, t)
  {
    hide Writes, FirstBefore, Get, Committed, Redo, HasBegin, HasEnd, Undo, FirstUndo, FirstTouch, Made;
    assert KeyOk(s, t, k) && FlagsOk(s, t);
    forall u | u != t && Loser(s.log, u) ensures FirstUndo(s.log, u, k).None? {
      assert FlagsOk(s, u) && DeltaOk(s, u, k);
      WritersDiffer(s, t, u, k);
    }
    UndoneKey(s.log, s.m, t, k);
  }

  lemma RecoveredCleanKey(s: State, k: Key)
    requires Inv(s) && forall t :: !Wrote(s, t, k)
    ensures Get(Recovered(s.base, s.log, s.eff), k) == Get(s.m, k) == Get(C(s), k)
  {
    hide Writes, FirstBefore, Get, Committed, Redo, HasBegin, HasEnd, Undo, FirstUndo, FirstTouch, Made;
    assert CleanOk(s, k);
    forall u | Loser(s.log, u) ensures FirstUndo(s.log, u, k).None? {
      assert FlagsOk(s, u) && DeltaOk(s, u, k);
    }
    UntouchedKey(s.log, s.m, k);
  }

  /** Key by key: recovery restores the committed value, except a leaked one. */
  lemma RecoveredOrLeaked(s: State, k: Key)
    requires Inv(s)
    ensures Get(Recovered(s.base, s.log, s.eff), k) == Get(C(s), k) <==>
            forall t :: !LeaksKey(s.base, s.log, s.eff, t, k)
  {
    hide Writes, FirstBefore, Committed, Redo, HasBegin, HasEnd, Undo, FirstUndo, FirstTouch, Made;
    forall t | Made(s.log, s.eff, t, k) && Loser(s.log, t) ensures Wrote(s, t, k) {
      assert FlagsOk(s, t) && DeltaOk(s, t, k);
    }
    if t :| Wrote(s, t, k) {
      RecoveredKey(s, t, k);
      assert KeyOk(s, t, k) && DeltaOk(s, t, k);
      forall u | u != t ensures !Wrote(s, u, k) { WritersDiffer(s, t, u, k); }
      if Made(s.log, s.eff, t, k) { MadeFirst(s, t, k); }
      assert forall u :: LeaksKey(s.base, s.log, s.eff, u, k) ==> u == t;
      assert LeaksKey(s.base, s.log, s.eff, t, k) <==>
               Made(s.log, s.eff, t, k) && (Get(s.m, k).Some? || FirstUndo(s.log, t, k).Some?);
    } else {
      RecoveredCleanKey(s, k);
    }
  }

  lemma MadeFirst(s: State, t: TxId, k: Key)
    requires |s.log| == |s.eff| && DeltaOk(s, t, k) && t in s.txns && Made(s.log, s.eff, t, k)
    ensures FirstBefore(s.txns[t].undo, k) == Some(None)
  {
  }

  /** Recovery of the log as it stands gives exactly the committed state, if and only
      if no loser leaks the root-making write. */
  lemma RecoveryExact(s: State)
    requires Inv(s)
    ensures Recovered(s.base, s.log, s.eff) == Committed(s.base, s.log, s.eff) <==> !Leaks(s.base, s.log, s.eff)
  {
    hide Writes, FirstBefore, Get, Committed, Redo, Loser, Undo, FirstUndo, FirstTouch, Made, Recovered, LeaksKey;
    forall k ensures Get(Recovered(s.base, s.log, s.eff), k) == Get(C(s), k) <==>
            forall t :: !LeaksKey(s.base, s.log, s.eff, t, k) {
      RecoveredOrLeaked(s, k);
    }
    assert s.m == Redo(s.base, s.eff);
    if Leaks(s.base, s.log, s.eff) {
      var t, k :| LeaksKey(s.base, s.log, s.eff, t, k);
      assert Get(Recovered(s.base, s.log, s.eff), k) != Get(C(s), k);
    } else {
      SameMap(Recovered(s.base, s.log, s.eff), C(s));
    }
  }

  // ------------------------------------------------------------ every prefix

  /** The log grew by at most one record. */
  ghost predicate Grew(s: State, s': State)
  {
    && s'.base == s.base && |s.log| == |s.eff| && |s'.log| == |s'.eff|
    && |s.log| <= |s'.log| <= |s.log| + 1
    && s'.log[..|s.log|] == s.log && s'.eff[..|s.log|] == s.eff
  }

  lemma GrewBy(s: State, s': State, r: Record, e: Option<Effect>)
    requires |s.log| == |s.eff| && s'.base == s.base
    requires (s'.log == s.log && s'.eff == s.eff) || (s'.log == s.log + [r] && s'.eff == s.eff + [e])
    ensures Grew(s, s')
  {
  }

  lemma QuietLog(s: State, s': State, step: Step)
    requires Next(s, s', step)
    requires !step.AppendRecord? && !step.CommitTxn? && !step.FinishAbort? && !step.Truncate? && !step.LogBegin?
             && !step.MarkCheckpoint?
    ensures s'.base == s.base && s'.log == s.log && s'.eff == s.eff
  {
    hide Grant, Blocked, MayOpen, Holds, HoldsX, Get;
  }

  /** A step appends at most one record, or empties the log. */
  lemma StepLog(s: State, s': State, step: Step)
    requires Next(s, s', step) && Inv(s)
    ensures if step.Truncate? then s'.log == [] && s'.eff == [] else Grew(s, s')
  {
    assert |s.log| == |s.eff|;
    hide Inv, Grew, DoCommit, DoFinishAbort, DoBegin, DoAcquire, DoRead, DoStartWrite, DoStartAuto, DoStartAbort,
         DoStartInverse, DoSkipInverse, DoAppend;
    match step
    case AppendRecord(t, r) =>
      if r.opEnd {
        EndFields(s, s', t, r);
        GrewBy(s, s', r, Some(Effect(s.open[t].key, s.open[t].value, s.open[t].creates)));
      } else {
        GroupRecordShape(s, s', t, r);
        InsideBase(s, s', t, r);
        GrewBy(s, s', r, None);
      }
    case CommitTxn(t) =>
      CommitFields(s, s', t);
      GrewBy(s, s', Record(t, true, Commit), None);
    case FinishAbort(t) =>
      AbortFields(s, s', t);
      GrewBy(s, s', Record(t, true, Abort), None);
    case LogBegin(t) =>
      GrewBy(s, s', Record(t, true, Begin), None);
    case MarkCheckpoint =>
      GrewBy(s, s', Record(0, true, Checkpoint), None);
    case Truncate =>
    case _ =>
      QuietLog(s, s', step);
      GrewBy(s, s', Record(0, true, Begin), None);
  }

  lemma InsideBase(s: State, s': State, t: TxId, r: Record)
    requires DoAppend(s, s', t, r) && !r.opEnd
    ensures s'.base == s.base && s'.rooted == s.rooted
  {
  }

  /** The central theorem: cut the log of any run anywhere. Redoing the complete
      groups and undoing the losers newest first gives the state of the transactions
      committed before the cut, exactly when no loser leaks. */
  lemma {:induction false} RecoveryExactAtEveryCut(states: seq<State>, steps: seq<Step>, i: nat, n: nat)
    requires Run(states, steps) && i < |states| && n <= |states[i].log| == |states[i].eff|
    ensures var (s, log, eff) := (states[i], states[i].log[..n], states[i].eff[..n]);
            Recovered(s.base, log, eff) == Committed(s.base, log, eff) <==> !Leaks(s.base, log, eff)
    decreases i
  {
    hide Inv, Next, Init, Recovered, Committed, Leaks;
    var s := states[i];
    RunInv(states, steps, i);
    if n == |s.log| {
      assert s.log[..n] == s.log && s.eff[..n] == s.eff;
      RecoveryExact(s);
    } else {
      assert i > 0 by { InitEmpty(states[0]); }
      var p := states[i - 1];
      assert Next(states[i - 1], states[i - 1 + 1], steps[i - 1]);
      RunInv(states, steps, i - 1);
      StepLog(p, s, steps[i - 1]);
      assert s.log[..n] == p.log[..n] && s.eff[..n] == p.eff[..n] by {
        assert s.log[..n] == s.log[..|p.log|][..n] && s.eff[..n] == s.eff[..|p.log|][..n];
      }
      RecoveryExactAtEveryCut(states, steps, i - 1, n);
    }
  }

  lemma InitEmpty(s: State)
    requires Init(s)
    ensures s.log == []
  {
  }

  /** A database opened with a root never leaks: every cut of every run recovers to
      exactly the committed state. */
  lemma {:induction false} RootedNeverLeaks(states: seq<State>, steps: seq<Step>, i: nat, n: nat)
    requires Run(states, steps) && states[0].rooted && i < |states| && n <= |states[i].log| == |states[i].eff|
    ensures var (s, log, eff) := (states[i], states[i].log[..n], states[i].eff[..n]);
            Recovered(s.base, log, eff) == Committed(s.base, log, eff)
  {
    hide Inv, Next, Init, Recovered, Committed;
    NoRootMade(states, steps, i);
    RecoveryExactAtEveryCut(states, steps, i, n);
    var (log, eff) := (states[i].log[..n], states[i].eff[..n]);
    forall t, k ensures !Made(log, eff, t, k) {
      assert forall j :: 0 <= j < n ==> eff[j] == states[i].eff[j];
    }
  }

  lemma {:induction false} NoRootMade(states: seq<State>, steps: seq<Step>, i: nat)
    requires Run(states, steps) && states[0].rooted && i < |states|
    ensures states[i].rooted
    ensures forall j :: 0 <= j < |states[i].eff| && states[i].eff[j].Some? ==> !states[i].eff[j].value.creates
  {
    hide Inv, Init, Next;
    if i == 0 {
      InitEmptyEff(states[0]);
    } else {
      NoRootMade(states, steps, i - 1);
      RunInv(states, steps, i - 1);
      assert Next(states[i - 1], states[i - 1 + 1], steps[i - 1]);
      RootedStep(states[i - 1], states[i], steps[i - 1]);
    }
  }

  lemma InitEmptyEff(s: State)
    requires Init(s)
    ensures s.eff == []
  {
  }

  lemma RootedAppend(s: State, s': State, t: TxId, r: Record)
    requires Inv(s) && Next(s, s', AppendRecord(t, r)) && s.rooted
    ensures s'.rooted
    ensures forall j :: 0 <= j < |s'.eff| && s'.eff[j].Some? ==>
              !s'.eff[j].value.creates || (j < |s.eff| && s'.eff[j] == s.eff[j])
  {
    assert OpenOk(s, t);
    hide Inv, DoAppend, OpenOk;
    if r.opEnd {
      EndFields(s, s', t, r);
      CreatesNot(s, t);
    } else {
      GroupRecordShape(s, s', t, r);
      InsideBase(s, s', t, r);
    }
  }

  lemma RootedStep(s: State, s': State, step: Step)
    requires Inv(s) && Next(s, s', step) && s.rooted
    ensures s'.rooted
    ensures forall j :: 0 <= j < |s'.eff| && s'.eff[j].Some? ==>
              !s'.eff[j].value.creates || (j < |s.eff| && s'.eff[j] == s.eff[j])
  {
    hide Inv, DoCommit, DoFinishAbort, DoBegin, DoAcquire, DoRead, DoStartWrite, DoStartAuto, DoStartAbort,
         DoStartInverse, DoSkipInverse, DoAppend, OpenOk;
    match step
    case AppendRecord(t, r) => RootedAppend(s, s', t, r);
    case CommitTxn(t) => CommitFields(s, s', t);
    case FinishAbort(t) => AbortFields(s, s', t);
    case LogBegin(t) =>
    case MarkCheckpoint =>
    case Truncate =>
    case _ =>
      QuietLog(s, s', step);
      QuietRooted(s, s', step);
  }

  lemma CreatesNot(s: State, t: TxId)
    requires OpenOk(s, t) && t in s.open && s.rooted
    ensures !s.open[t].creates
  {
  }

  lemma QuietRooted(s: State, s': State, step: Step)
    requires Next(s, s', step)
    requires !step.AppendRecord? && !step.CommitTxn? && !step.FinishAbort? && !step.Truncate? && !step.LogBegin?
             && !step.MarkCheckpoint?
    ensures s'.rooted == s.rooted
  {
    hide Grant, Blocked, MayOpen, Holds, HoldsX, Get;
  }

  // ------------------------------------------------------------ isolation

  /** Explicit transactions are serializable in commit order: running everything
      committed so far one transaction after another from the initial map, every read
      returns what it returned, and the result is the committed state. */
  lemma SerializableInCommitOrder(states: seq<State>, steps: seq<Step>, i: nat)
    requires Run(states, steps) && i < |states|
    ensures |states[i].log| == |states[i].eff|
    ensures Replay(states[i].initial, states[i].serial) == Some(Committed(states[i].base, states[i].log, states[i].eff))
  {
    RunInv(states, steps, i);
  }

  /** With no transaction in flight the tree's map is that serial state. */
  lemma QuiescentMapIsSerial(states: seq<State>, steps: seq<Step>, i: nat)
    requires Run(states, steps) && i < |states| && states[i].txns == map[]
    ensures Replay(states[i].initial, states[i].serial) == Some(states[i].m)
  {
    RunInv(states, steps, i);
    CleanWhenNoneBegun(states[i]);
  }

  /** An aborted transaction leaves no trace: its end moves neither the committed state
      nor history, and every key it wrote reads as committed again. */
  lemma AbortLeavesNoTrace(states: seq<State>, steps: seq<Step>, i: nat, t: TxId)
    requires Run(states, steps) && i < |steps| && steps[i] == FinishAbort(t)
    ensures |states[i].log| == |states[i].eff| && |states[i + 1].log| == |states[i + 1].eff|
    ensures C(states[i + 1]) == C(states[i]) && states[i + 1].serial == states[i].serial
    ensures forall k :: Wrote(states[i], t, k) ==> Get(states[i + 1].m, k) == Get(C(states[i]), k)
  {
    RunInv(states, steps, i);
    assert Next(states[i], states[i + 1], steps[i]);
    hide Inv;
    AbortShape(states[i], states[i + 1], t);
  }

  lemma NoLosers(s: State)
    requires Inv(s) && forall t :: t in s.txns ==> !s.txns[t].begun
    ensures forall t :: !Loser(s.log, t)
  {
    hide HasBegin, HasEnd, OpenOk, KeyOk, DeltaOk, CleanOk, ReplayOk;
    forall t ensures !Loser(s.log, t) {
      assert FlagsOk(s, t);
    }
  }

  /** In every run the counter is the number of transactions that have begun and not
      ended. */
  lemma CounterCounts(states: seq<State>, steps: seq<Step>, i: nat)
    requires Run(states, steps) && i < |states|
    ensures states[i].begunTxns == |BegunSet(states[i])|
    ensures states[i].begunTxns == 0 ==> forall t :: !Loser(states[i].log, t)
  {
    RunInv(states, steps, i);
    if states[i].begunTxns == 0 {
      ZeroMeansNone(states[i]);
      NoLosers(states[i]);
    }
  }

  /** Truncating never discards a record of a transaction that has begun and not ended. */
  lemma TruncationKeepsLosers(states: seq<State>, steps: seq<Step>, i: nat, t: TxId)
    requires Run(states, steps) && i < |steps| && steps[i].Truncate?
    ensures !Loser(states[i].log, t)
  {
    RunInv(states, steps, i);
    assert Next(states[i], states[i + 1], steps[i]);
    ZeroMeansNone(states[i]);
    assert FlagsOk(states[i], t);
  }
}
