/** A run whose crash recovery keeps an uncommitted key. Transaction 1 inserts the first
    key of an empty database and the machine stops before any commit: the group that
    made the root is complete, so redo applies it, and it holds no key record, so undo
    has nothing to take back. */
module TxnLeak {
  import opened Keys
  import opened Nodes
  import opened TxnLog
  import opened Locks
  import opened TxnMachine
  import opened TxnAppend
  import opened TxnTheorems

  function LeakLog(k: Key, v: Value, n: nat): seq<Record>
    requires n <= 4
  {
    [Record(1, true, Begin), Record(1, false, AllocPage(2)),
     Record(1, false, PageImage(2, Leaf([k], [v], None, None))), Record(1, true, RootChange(2))][..n]
  }

  function LeakEffects(k: Key, v: Value, n: nat): Effects
    requires n <= 4
  {
    [None, None, None, Some(Effect(k, Some(v), true))][..n]
  }

  function LeakOp(k: Key, v: Value): OpenOp { OpenOp(k, Some(v), None, Forward, false, true) }

  function LeakTable(k: Key): LockTable { map[k := map[1 := Holder(Exclusive, 1)]] }

  /** Begin, lock, log begin, open the write, then its three records. */
  function LeakState(k: Key, v: Value, i: nat): State
    requires i <= 7
  {
    var n := if i < 3 then 0 else if i == 3 || i == 4 then 1 else i - 3;
    var x := Txn(1, Running, i >= 3, if i < 7 then [] else [Entry(k, None)], if i < 7 then []
      else [WriteOp(k, Some(v))]);
    State(if i < 7 then map[] else map[k := v], map[], LeakLog(k, v, n), LeakEffects(k, v, n),
          if i == 0 then map[] else map[1 := x], if 4 <= i < 7 then map[1 := LeakOp(k, v)] else map[],
          if i < 2 then map[] else LeakTable(k), if i == 0 then 1 else 2, i == 7,
          if i < 3 then 0 else 1, map[], [])
  }

  function LeakStep(k: Key, v: Value, i: nat): Step
    requires i < 7
  {
    if i == 0 then BeginTxn(1, 1)
    else if i == 1 then AcquireLock(1, k, Exclusive)
    else if i == 2 then LogBegin(1)
    else if i == 3 then StartWrite(1, k, Some(v))
    else AppendRecord(1, LeakLog(k, v, i - 2)[i - 3])
  }

  lemma LeakStart(k: Key, v: Value, i: nat)
    requires i < 4
    ensures Next(LeakState(k, v, i), LeakState(k, v, i + 1), LeakStep(k, v, i))
  {
    var (s, s') := (LeakState(k, v, i), LeakState(k, v, i + 1));
    if i == 0 {
      assert s'.txns == s.txns[1 := Txn(1, Running, false, [], [])];
    } else if i == 1 {
      assert s'.locks == Grant(s.locks, 1, 1, k, Exclusive);
    } else if i == 2 {
      assert s'.log == s.log + [Record(1, true, Begin)] && s'.eff == s.eff + [None];
      assert s'.txns == s.txns[1 := s.txns[1].(begun := true)];
    } else {
      assert s'.open == s.open[1 := LeakOp(k, v)];
    }
  }

  lemma LeakRecords(k: Key, v: Value, i: nat)
    requires 4 <= i < 7
    ensures Next(LeakState(k, v, i), LeakState(k, v, i + 1), LeakStep(k, v, i))
  {
    var (s, s') := (LeakState(k, v, i), LeakState(k, v, i + 1));
    var r := LeakLog(k, v, i - 2)[i - 3];
    assert s'.log == s.log + [r];
    assert s'.eff == s.eff + [if i < 6 then None else Some(Effect(k, Some(v), true))];
    if i == 6 {
      assert s'.open == s.open - {1};
      var x := s.txns[1];
      assert x.undo + [Entry(k, None)] == [Entry(k, None)] && x.ops + [WriteOp(k, Some(v))] == [WriteOp(k, Some(v))];
      assert s'.txns[1] == x.(undo := x.undo + [Entry(k, None)], ops := x.ops + [WriteOp(k, Some(v))]);
      assert s'.txns == s.txns[1 := s'.txns[1]];
    } else {
      assert s'.open == s.open[1 := LeakOp(k, v)];
    }
  }

  lemma LeakIsRun(k: Key, v: Value)
    ensures Run(seq(8, (i: nat) requires i < 8 => LeakState(k, v, i)),
            seq(7, (i: nat) requires i < 7 => LeakStep(k, v, i)))
  {
    var states := seq(8, (i: nat) requires i < 8 => LeakState(k, v, i));
    var steps := seq(7, (i: nat) requires i < 7 => LeakStep(k, v, i));
    hide Next;
    forall i | 0 <= i < |steps| ensures Next(states[i], states[i + 1], steps[i]) {
      if i < 4 { LeakStart(k, v, i); } else { LeakRecords(k, v, i); }
    }
  }

  lemma LeakLeaks(k: Key, v: Value)
    ensures Leaks(map[], LeakLog(k, v, 4), LeakEffects(k, v, 4))
  {
    var (log, eff) := (LeakLog(k, v, 4), LeakEffects(k, v, 4));
    assert log[0].body.Begin? && log[0].txid == 1;
    assert eff[3] == Some(Effect(k, Some(v), true)) && log[3].txid == 1;
    assert Made(log, eff, 1, k);
    RedoAppend(map[], eff[..3], eff[3]);
    assert eff == eff[..3] + [eff[3]];
    assert k in Redo(map[], eff);
    assert LeaksKey(map[], log, eff, 1, k);
  }

  /** After that run, recovery does not give the committed state: for any first key and
      value, the uncommitted insert survives the crash. */
  lemma RecoveryCanLeak(k: Key, v: Value)
    ensures var states := seq(8, (i: nat) requires i < 8 => LeakState(k, v, i));
            && Run(states, seq(7, (i: nat) requires i < 7 => LeakStep(k, v, i)))
            && var s := states[7];
               |s.log| == |s.eff| && Recovered(s.base, s.log, s.eff) != Committed(s.base, s.log, s.eff)
  {
    LeakIsRun(k, v);
    LeakLeaks(k, v);
    hide Run, Recovered, Committed, Leaks, LeakLog, LeakEffects;
    var states := seq(8, (i: nat) requires i < 8 => LeakState(k, v, i));
    var steps := seq(7, (i: nat) requires i < 7 => LeakStep(k, v, i));
    var s := states[7];
    RunInv(states, steps, 7);
    RecoveryExact(s);
  }
}
