/** The leak in the whole engine: a run, from an empty database, of the first insert of a
    transaction that never ends, and a crash of it from which recovery keeps the key. */
module EngineLeak {
  import opened Keys
  import opened Nodes
  import opened TxnLog
  import opened PageRedo
  import opened TreeShape
  import opened EngineMachine
  import opened BTree
  import opened EngineTheorems
  import opened Recovery
  import opened EndToEnd
  import opened TxnAppend
  import opened TxnLeak
  import Locks
  import L = LatchMachine
  import W = WalMachine
  import T = TxnMachine
  import TT = TxnTheorems

  const LEAF := 2
  const EMPTY_META := W.Meta(0, 1, LEAF, None)

  /** The record fits an empty page, so the engine accepts it. */
  predicate Accepted(k: Key, v: Value) { LeafCost([k], [v]) <= PAGE_PAYLOAD }

  // ------------------------------------------------------------ the layers, moment by moment

  function Putter(k: Key, v: Value, pc: L.Pc, full: bool, root: Option<L.Mode>): L.Thread
  {
    L.Thread(L.PutOp(k, v), pc, full, root, {}, {}, None)
  }

  function FirstTree(k: Key, v: Value): Shape
  {
    Shape(map[LEAF := Leaf([k], [v], None, None)], LEAF, map[LEAF := Info([], None, 0, LEAF)], NoSplit)
  }

  /** The Put goes down optimistically, finds no tree, and starts over to make one. */
  function LatchAt(k: Key, v: Value, i: nat): L.State
  {
    if i < 4 then L.State(None, map[])
    else if i == 4 then L.State(None, map[0 := Putter(k, v, L.Start, false, None)])
    else if i == 5 then L.State(None, map[0 := Putter(k, v, L.Rooted, false, Some(L.Shared))])
    else if i == 6 then L.State(None, map[0 := Putter(k, v, L.Start, true, None)])
    else if i < 13 then L.State(None, map[0 := Putter(k, v, L.Rooted, true, Some(L.Exclusive))])
    else L.State(Some(FirstTree(k, v)), map[0 := Putter(k, v, L.Done, true, None)])
  }

  function Logged(i: nat): (n: nat)
    ensures n <= 4
  {
    if i < 3 then 0 else if i < 11 then 1 else if i < 13 then i - 9 else 4
  }

  function WalAt(k: Key, v: Value, i: nat): W.State
  {
    var zeros := map[0 := {Readable(ZEROED)}, 1 := {Readable(ZEROED)}];
    W.State(LeakLog(k, v, Logged(i)), 1, 0,
            if i < 12 then map[] else map[LEAF := Version(Some(Leaf([k], [v], None, None)), 3)],
            if i < 12 then {} else {LEAF},
            if i < 9 then map[] else map[LEAF := ZEROED],
            if i < 9 then zeros else zeros[LEAF := {Readable(ZEROED), Torn}],
            if i < 8 || i > 12 then map[] else map[1 := if i == 8 then {} else {LEAF}],
            if i < 12 then {} else {LEAF},
            if i < 9 then LEAF else LEAF + 1, if i < 13 then None else Some(LEAF), if i < 3 then 0 else 1,
            {W.GoodMeta(EMPTY_META)}, {W.TornMeta}, W.Idle, EMPTY_META, map[])
  }

  function TxnAt(k: Key, v: Value, i: nat): T.State
  {
    LeakState(k, v, if i < 3 then i else if i < 8 then 3 else if i < 11 then 4 else if i < 13 then i - 6 else 7)
  }

  function JobsAt(k: Key, v: Value, i: nat): map<TxId, Job>
  {
    if i < 8 || i > 12 then map[]
    else if i < 10 then map[1 := Job(0, Fresh, [])]
    else map[1 := Job(0, Rooting(LEAF), [AllocPage(LEAF), PageImage(LEAF, Leaf([k], [v], None, None))][i - 10..])]
  }

  function StateAt(k: Key, v: Value, i: nat): State
  {
    State(LatchAt(k, v, i), WalAt(k, v, i), TxnAt(k, v, i), if i < 13 then None else Some(FirstTree(k, v)),
          JobsAt(k, v, i), None)
  }

  function StepAt(k: Key, v: Value, i: nat): Step
  {
    match i
    case 0 => TxnStep(T.BeginTxn(1, 1))
    case 1 => TxnStep(T.AcquireLock(1, k, Locks.Exclusive))
    case 2 => Marker(1, Begin)
    case 3 => LatchStep(L.Spawn(0, L.PutOp(k, v)))
    case 4 => LatchStep(L.LatchRoot(0))
    case 5 => LatchStep(L.FindEmpty(0))
    case 6 => LatchStep(L.LatchRoot(0))
    case 7 => Open(1, 0, T.Forward)
    case 8 => NewPage(1)
    case 9 => StartRoot(1, LEAF)
    case 10 => Log(1)
    case 11 => Log(1)
    case _ => EndRoot(1)
  }

  // ------------------------------------------------------------ each layer's own steps

  lemma LatchStays(k: Key, v: Value, i: nat)
    requires i < 3 || 7 <= i < 12
    ensures LatchAt(k, v, i + 1) == LatchAt(k, v, i)
  {
  }

  lemma LatchMoves(k: Key, v: Value, i: nat)
    requires 3 <= i < 7
    ensures L.Next(LatchAt(k, v, i), LatchAt(k, v, i + 1), StepAt(k, v, i).latchStep)
  {
    var (s, s') := (LatchAt(k, v, i), LatchAt(k, v, i + 1));
    assert s'.threads == s.threads[0 := s'.threads[0]];
  }

  lemma LatchRoots(k: Key, v: Value)
    ensures L.Next(LatchAt(k, v, 12), LatchAt(k, v, 13), L.MakeRoot(0, LEAF))
    ensures LatchAt(k, v, 13).tree == Some(FirstTree(k, v))
  {
    var (s, s') := (LatchAt(k, v, 12), LatchAt(k, v, 13));
    assert s'.threads == s.threads[0 := s'.threads[0]];
  }

  lemma WalStays(k: Key, v: Value, i: nat)
    requires i < 2 || 3 <= i < 7 || i == 9
    ensures WalAt(k, v, i + 1) == WalAt(k, v, i)
  {
    hide LeakLog;
  }

  function WalStepAt(k: Key, v: Value, i: nat): W.Step
  {
    match i
    case 2 => W.LogOther(1, Begin, true)
    case 7 => W.OpenGroup(1)
    case 8 => W.NewPage(1)
    case 10 => W.LogOther(1, AllocPage(LEAF), false)
    case 11 => W.LogPage(1, LEAF, PageImage(LEAF, Leaf([k], [v], None, None)), false)
    case _ => W.LogOther(1, RootChange(LEAF), true)
  }

  lemma WalLogs(k: Key, v: Value, i: nat)
    requires i == 2 || i == 10 || i == 12
    ensures W.Next(WalAt(k, v, i), WalAt(k, v, i + 1), WalStepAt(k, v, i))
  {
    var (s, s', step) := (WalAt(k, v, i), WalAt(k, v, i + 1), WalStepAt(k, v, i));
    assert s'.log == s.log + [Record(1, step.end, step.b)];
    assert s'.ops == if step.end then s.ops - {1} else s.ops;
  }

  lemma WalImages(k: Key, v: Value)
    ensures W.Next(WalAt(k, v, 11), WalAt(k, v, 12), WalStepAt(k, v, 11))
  {
    var (s, s', b) := (WalAt(k, v, 11), WalAt(k, v, 12), WalStepAt(k, v, 11).b);
    assert s'.log == s.log + [Record(1, false, b)];
    assert |s.log| == 2 && W.At(s.cur, LEAF) == ZEROED;
    assert s'.cur == s.cur[LEAF := AfterRecord(ZEROED, b, 3)];
    assert s'.dirty == s.dirty + {LEAF} && s'.imaged == s.imaged + {LEAF};
  }

  lemma WalTakes(k: Key, v: Value, i: nat)
    requires i == 7 || i == 8
    ensures W.Next(WalAt(k, v, i), WalAt(k, v, i + 1), WalStepAt(k, v, i))
  {
    hide LeakLog;
    var (s, s') := (WalAt(k, v, i), WalAt(k, v, i + 1));
    assert W.MayFind(s.file, LEAF) + {Readable(ZEROED), Torn} == {Readable(ZEROED), Torn};
    assert i == 7 ==> s'.ops == s.ops[1 := {}];
    assert i == 8 ==> {} + {LEAF} == {LEAF} && s'.ops == s.ops[1 := s.ops[1] + {LEAF}];
    assert i == 8 ==> s'.latest == s.latest[LEAF := ZEROED];
  }

  lemma TxnStays(k: Key, v: Value, i: nat)
    requires 3 <= i < 7 || 8 <= i < 10
    ensures TxnAt(k, v, i + 1) == TxnAt(k, v, i)
  {
    hide LeakState;
  }

  function TxnStepAt(k: Key, v: Value, i: nat): T.Step
    requires i < 3 || i == 7 || 10 <= i < 13
  {
    LeakStep(k, v, if i < 3 then i else if i == 7 then 3 else i - 6)
  }

  lemma TxnMoves(k: Key, v: Value, i: nat)
    requires i < 3 || i == 7 || 10 <= i < 13
    ensures T.Next(TxnAt(k, v, i), TxnAt(k, v, i + 1), TxnStepAt(k, v, i))
  {
    hide LeakState, LeakStep, T.Next;
    if i < 3 {
      LeakStart(k, v, i);
    } else if i == 7 {
      LeakStart(k, v, 3);
    } else {
      LeakRecords(k, v, i - 6);
    }
  }

  lemma TxnStepsAre(k: Key, v: Value)
    ensures TxnStepAt(k, v, 0) == T.BeginTxn(1, 1) && TxnStepAt(k, v, 1) == T.AcquireLock(1, k, Locks.Exclusive)
    ensures TxnStepAt(k, v, 2) == T.LogBegin(1) && TxnStepAt(k, v, 7) == T.StartWrite(1, k, Some(v))
    ensures TxnStepAt(k, v, 10) == T.AppendRecord(1, Record(1, false, WalStepAt(k, v, 10).b))
    ensures TxnStepAt(k, v, 11) == T.AppendRecord(1, Record(1, false, WalStepAt(k, v, 11).b))
    ensures TxnStepAt(k, v, 12) == T.AppendRecord(1, Record(1, true, WalStepAt(k, v, 12).b))
  {
  }

  lemma OpenIs(k: Key, v: Value, i: nat)
    requires 8 <= i < 13
    ensures TxnAt(k, v, i).open == map[1 := LeakOp(k, v)]
  {
    hide LeakLog, LeakEffects;
  }

  lemma WalIs(k: Key, v: Value, i: nat)
    requires i == 9 || i == 12
    ensures WalAt(k, v, i).ops == map[1 := {LEAF}] && (i == 9 ==> WalAt(k, v, i).cur == map[])
  {
    hide LeakLog;
  }

  // ------------------------------------------------------------ and together

  lemma TxnStarts(k: Key, v: Value, i: nat)
    requires i < 3
    ensures Next(StateAt(k, v, i), StateAt(k, v, i + 1), StepAt(k, v, i))
  {
    hide L.Next, W.Next, T.Next, LatchAt, WalAt, TxnAt, TxnStepAt;
    LatchStays(k, v, i);
    TxnMoves(k, v, i);
    TxnStepsAre(k, v);
    if i < 2 { WalStays(k, v, i); } else { WalLogs(k, v, 2); }
  }

  /** Down to the empty root, and once more with the root latch exclusive. */
  lemma GoesDown(k: Key, v: Value, i: nat)
    requires 3 <= i < 7
    ensures Next(StateAt(k, v, i), StateAt(k, v, i + 1), StepAt(k, v, i))
  {
    hide L.Next, W.Next, T.Next, LatchAt, WalAt, TxnAt;
    LatchMoves(k, v, i);
    WalStays(k, v, i);
    TxnStays(k, v, i);
  }

  lemma RootAwaits(k: Key, v: Value)
    ensures var l := LatchAt(k, v, 7); Ready(l, 0) && l.tree.None? && l.threads[0].op == L.PutOp(k, v)
  {
  }

  lemma OpensGroup(k: Key, v: Value)
    ensures Next(StateAt(k, v, 7), StateAt(k, v, 8), StepAt(k, v, 7))
  {
    hide L.Next, W.Next, T.Next, LatchAt, WalAt, TxnAt, TxnStepAt, Ready;
    LatchStays(k, v, 7);
    RootAwaits(k, v);
    WalTakes(k, v, 7);
    TxnMoves(k, v, 7);
    TxnStepsAre(k, v);
    OpenIs(k, v, 8);
  }

  lemma TakesPage(k: Key, v: Value)
    ensures Next(StateAt(k, v, 8), StateAt(k, v, 9), StepAt(k, v, 8))
  {
    hide W.Next, WalAt, TxnAt, LatchAt;
    LatchStays(k, v, 8);
    WalTakes(k, v, 8);
    TxnStays(k, v, 8);
  }

  lemma PlansRoot(k: Key, v: Value)
    requires Accepted(k, v)
    ensures Next(StateAt(k, v, 9), StateAt(k, v, 10), StepAt(k, v, 9))
  {
    hide WalAt, TxnAt, LeafCost;
    LatchStays(k, v, 9);
    WalStays(k, v, 9);
    TxnStays(k, v, 9);
    OpenIs(k, v, 9);
    WalIs(k, v, 9);
    var (s, s') := (StateAt(k, v, 9), StateAt(k, v, 10));
    assert s'.jobs == s.jobs[1 := s'.jobs[1]];
  }

  lemma JobsMove(k: Key, v: Value, i: nat)
    requires 10 <= i < 12
    ensures var (jobs, jobs') := (JobsAt(k, v, i), JobsAt(k, v, i + 1));
            && 1 in jobs && jobs[1].plan != [] && jobs[1].plan[0] == WalStepAt(k, v, i).b
            && jobs' == jobs[1 := jobs[1].(plan := jobs[1].plan[1..])]
  {
    var (job, job') := (JobsAt(k, v, i)[1], JobsAt(k, v, i + 1)[1]);
    assert job'.plan == job.plan[1..];
    assert JobsAt(k, v, i + 1) == JobsAt(k, v, i)[1 := job.(plan := job'.plan)];
  }

  lemma LogsRoot(k: Key, v: Value, i: nat)
    requires 10 <= i < 12
    ensures Next(StateAt(k, v, i), StateAt(k, v, i + 1), StepAt(k, v, i))
  {
    hide L.Next, W.Next, T.Next, LatchAt, WalAt, TxnAt, TxnStepAt, JobsAt;
    LatchStays(k, v, i);
    TxnMoves(k, v, i);
    TxnStepsAre(k, v);
    JobsMove(k, v, i);
    if i == 10 { WalLogs(k, v, 10); } else { WalImages(k, v); }
  }

  lemma MakesRoot(k: Key, v: Value)
    ensures Next(StateAt(k, v, 12), StateAt(k, v, 13), StepAt(k, v, 12))
  {
    hide L.Next, W.Next, T.Next, LatchAt, WalAt, TxnAt, TxnStepAt;
    LatchRoots(k, v);
    TxnMoves(k, v, 12);
    TxnStepsAre(k, v);
    WalLogs(k, v, 12);
    assert JobsAt(k, v, 13) == JobsAt(k, v, 12) - {1};
  }

  lemma StartsEmpty(k: Key, v: Value)
    ensures Init(StateAt(k, v, 0))
  {
    hide LeakLog, W.Init, T.Init;
    WalInits(k, v);
    TxnInits(k, v);
  }

  lemma WalInits(k: Key, v: Value)
    ensures W.Init(WalAt(k, v, 0))
  {
    assert LeakLog(k, v, 0) == [];
    var s := WalAt(k, v, 0);
    assert W.MetasOk(s) && s.numPages == LEAF;
    forall p: PageId | p < LEAF
      ensures p in s.file && W.At(s.latest, p) == W.At(s.v0, p) && s.file[p] == {Readable(W.At(s.v0, p))}
    {
      assert p == 0 || p == 1;
    }
  }

  lemma TxnInits(k: Key, v: Value)
    ensures T.Init(TxnAt(k, v, 0))
  {
    assert LeakLog(k, v, 0) == [] && LeakEffects(k, v, 0) == [];
  }

  // ------------------------------------------------------------ the run and its crash

  function LeakStates(k: Key, v: Value): (states: seq<State>) { seq(14, (i: nat) requires i < 14 => StateAt(k, v, i)) }

  function LeakSteps(k: Key, v: Value): (steps: seq<Step>) { seq(13, (i: nat) requires i < 13 => StepAt(k, v, i)) }

  /** The whole log survives, the new page is torn. */
  function LeakCrash(): W.Crash
  {
    W.Crash(4, map[0 := Readable(ZEROED), 1 := Readable(ZEROED), LEAF := Torn], W.GoodMeta(EMPTY_META), W.TornMeta)
  }

  lemma LeakIsEngineRun(k: Key, v: Value)
    requires Accepted(k, v)
    ensures Run(LeakStates(k, v), LeakSteps(k, v))
  {
    hide Next, Init, StateAt, StepAt, Accepted;
    var (states, steps) := (LeakStates(k, v), LeakSteps(k, v));
    StartsEmpty(k, v);
    forall i | 0 <= i < |steps| ensures Next(states[i], states[i + 1], steps[i]) {
      if i < 3 { TxnStarts(k, v, i); }
      else if i < 7 { GoesDown(k, v, i); }
      else if i == 7 { OpensGroup(k, v); }
      else if i == 8 { TakesPage(k, v); }
      else if i == 9 { PlansRoot(k, v); }
      else if i < 12 { LogsRoot(k, v, i); }
      else { MakesRoot(k, v); }
    }
  }

  /** For every first key and value the engine accepts there is such a run, and a crash of
      it that leaves a log and a meta from which a loser leaks: what recovery brings back
      is not the committed state. */
  lemma EngineCanLeak(k: Key, v: Value)
    requires Accepted(k, v)
    ensures Run(LeakStates(k, v), LeakSteps(k, v))
    ensures var (s, c) := (LeakStates(k, v)[13], LeakCrash());
            && W.MayLeave(s.wal, c) && W.Choose(c.even, c.odd) == Some(s.wal.last)
            && c.n == |s.wal.log| == |s.txn.eff| && s.txn.log == s.wal.log
            && TT.Leaks(s.txn.base, s.wal.log, s.txn.eff)
            && Recovered(s.txn.base, s.wal.log, s.txn.eff) != Committed(s.txn.base, s.wal.log, s.txn.eff)
  {
    hide Run, Recovered, Committed, TT.Leaks, W.MayLeave;
    LeakIsEngineRun(k, v);
    RecoveryCanLeak(k, v);
    LeakLeaks(k, v);
    LeavesIt(k, v);
    var s := LeakStates(k, v)[13];
    assert s.txn == LeakState(k, v, 7);
  }

  lemma LeavesIt(k: Key, v: Value)
    ensures W.MayLeave(WalAt(k, v, 13), LeakCrash())
  {
  }

  // ------------------------------------------------------------ and its recovery

  lemma {:induction false} NothingCommitted(k: Key, v: Value, n: nat)
    requires n <= 4
    ensures Committed(map[], LeakLog(k, v, n), LeakEffects(k, v, n)) == map[]
  {
    if n > 0 {
      NothingCommitted(k, v, n - 1);
      var (log, eff) := (LeakLog(k, v, n), LeakEffects(k, v, n));
      assert log == LeakLog(k, v, n - 1) + [log[n - 1]] && eff == LeakEffects(k, v, n - 1) + [eff[n - 1]];
      assert n > 1 ==> LeakLog(k, v, n - 1)[0] == Record(1, true, Begin);
      CommittedAppend(map[], LeakLog(k, v, n - 1), LeakEffects(k, v, n - 1), log[n - 1], eff[n - 1]);
    }
  }

  lemma {:induction false} NothingUndone(k: Key, v: Value, n: nat, m: KV)
    requires n <= 4
    ensures Undo(LeakLog(k, v, 4), n, m) == m
  {
    if n > 0 {
      NothingUndone(k, v, n - 1, m);
    }
  }

  lemma KeyRedone(k: Key, v: Value)
    ensures Redo(map[], LeakEffects(k, v, 4)) == map[k := v]
  {
    var e := Some(Effect(k, Some(v), true));
    assert LeakEffects(k, v, 4) == [None] + [None] + [None] + [e];
    RedoAppend(map[], [], None);
    RedoAppend(map[], [None], None);
    RedoAppend(map[], [None] + [None], None);
    RedoAppend(map[], [None] + [None] + [None], e);
  }

  /** Recovery of that crash by the code's own loops: nothing was committed, and the key is
      there. */
  method LeakComesBack(k: Key, v: Value) returns (tree: BPlusTree)
    requires Accepted(k, v)
    ensures tree.Valid() && tree.contents == map[k := v]
    ensures Committed(map[], LeakLog(k, v, 4), LeakEffects(k, v, 4)) == map[]
  {
    hide Run, W.MayLeave, Committed, TT.Leaks, LeakLog, LeakEffects, StateAt, Accepted, Undo, Redo,
         StopsAt;
    LeakIsEngineRun(k, v);
    LeavesIt(k, v);
    NothingCommitted(k, v, 4);
    NothingUndone(k, v, 4, map[k := v]);
    KeyRedone(k, v);
    LastMoment(k, v);
    var recovered, t, stop, stuck := RecoverAfterCrash(LeakCrash(), LeakLog(k, v, 4), 1, LeakStates(k, v),
                                                       LeakSteps(k, v), 13);
    NothingStops(k, v, Redo(map[], LeakEffects(k, v, 4)), stop, stuck);
    tree := t;
  }

  lemma LastMoment(k: Key, v: Value)
    ensures var s := LeakStates(k, v)[13];
            && s == StateAt(k, v, 13) && s.wal == WalAt(k, v, 13) && s.wal.first == 1 && s.txn.base == map[]
            && s.wal.log == s.wal.log[..4] == LeakLog(k, v, 4) && |s.txn.eff| == 4
            && s.txn.eff[..4] == LeakEffects(k, v, 4)
  {
  }

  /** There is no before-image to give back. */
  lemma NothingStops(k: Key, v: Value, m: KV, stop: nat, stuck: Option<Shape>)
    ensures !StopsAt(LeakLog(k, v, 4), m, stop, stuck)
  {
  }
}
