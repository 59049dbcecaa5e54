/** The steps that end something: a write group, a commit, a rollback. */
module TxnEndSteps {
  import opened Keys
  import opened TxnLog
  import opened Locks
  import opened TxnMachine
  import opened TxnAppend
  import opened TxnSteps
  import opened TxnLogSteps

  // ------------------------------------------------------------ ending a group

  ghost predicate EndsGroup(s: State, s': State, t: TxId, r: Record)
  {
    Next(s, s', AppendRecord(t, r)) && r.opEnd
  }

  /** What ending a group does, whoever owns it. */
  lemma EndShape(s: State, s': State, t: TxId, r: Record)
    requires Inv(s) && EndsGroup(s, s', t, r)
    ensures t in s.open && r.txid == t && r.opEnd
    ensures var op := s.open[t]; var e := Some(Effect(op.key, op.value, op.creates));
            && s'.log == s.log + [r] && s'.eff == s.eff + [e]
            && s'.m == Set(s.m, op.key, op.value) && s'.open == s.open - {t} && s'.rooted
            && s'.locks == s.locks && s'.base == s.base && s'.nextTx == s.nextTx && s'.initial == s.initial
            && (IsPageRecord(r.body) || (IsDelta(op, r.body) && !op.logged && !op.creates))
            && (op.kind.Forward? && !op.creates ==> IsDelta(op, r.body) || op.logged)
    ensures Ids(s') && LocksOk(s')
    ensures !r.body.Begin? && !r.body.Commit? && !r.body.Abort?
    ensures C(s') == if s.open[t].kind.Auto? then Set(C(s), s.open[t].key, s.open[t].value) else C(s)
  {
    assert Ids(s) && LocksOk(s) && FlagsOk(s, t);
    hide Writes, Replay, Committed, Redo, HasBegin, HasEnd, Compatible, DeltaOk, KeyOk, ReplayOk, CleanOk, Inv, OpenOk;
    EndFields(s, s', t, r);
    var op := s.open[t];
    var e := Some(Effect(op.key, op.value, op.creates));
    RedoAppend(s.base, s.eff, e);
    CommittedAppend(s.base, s.log, s.eff, r, e);
  }

  lemma EndFields(s: State, s': State, t: TxId, r: Record)
    requires EndsGroup(s, s', t, r)
    ensures t in s.open && r.txid == t && r.opEnd
    ensures var op := s.open[t]; var e := Some(Effect(op.key, op.value, op.creates));
            && s'.log == s.log + [r] && s'.eff == s.eff + [e]
            && s'.m == Set(s.m, op.key, op.value) && s'.open == s.open - {t} && s'.rooted
            && s'.locks == s.locks && s'.base == s.base && s'.nextTx == s.nextTx && s'.initial == s.initial
            && (IsPageRecord(r.body) || (IsDelta(op, r.body) && !op.logged && !op.creates))
            && (op.kind.Forward? && !op.creates ==> IsDelta(op, r.body) || op.logged)
            && s'.txns.Keys == s.txns.Keys && (forall u :: u != t && u in s.txns ==> s'.txns[u] == s.txns[u])
    ensures !r.body.Begin? && !r.body.Commit? && !r.body.Abort?
  {
    hide Set, Next, IsDelta, IsPageRecord, Finished;
    AppendIs(s, s', t, r);
    assert s' == Finished(s, t, r);
    DeltaBody(s.open[t], r.body);
    hide DoAppend;
    FinishedFields(s, t, r);
  }

  lemma DeltaBody(op: OpenOp, b: Body)
    requires IsPageRecord(b) || IsDelta(op, b)
    ensures !b.Begin? && !b.Commit? && !b.Abort?
  {
  }

  lemma FinishedFields(s: State, t: TxId, r: Record)
    requires t in s.open && (s.open[t].kind.Auto? || t in s.txns)
    ensures var (op, s') := (s.open[t], Finished(s, t, r));
            && s'.log == s.log + [r] && s'.eff == s.eff + [Some(Effect(op.key, op.value, op.creates))]
            && s'.m == Set(s.m, op.key, op.value) && s'.open == s.open - {t} && s'.rooted
            && s'.locks == s.locks && s'.base == s.base && s'.nextTx == s.nextTx && s'.initial == s.initial
            && s'.begunTxns == s.begunTxns
            && s'.txns.Keys == s.txns.Keys && (forall u :: u != t && u in s.txns ==> s'.txns[u] == s.txns[u])
  {
    hide Set;
    FinishedTxns(s, t, r);
    hide Finished;
    FinishedRest(s, t, r);
  }

  lemma FinishedTxns(s: State, t: TxId, r: Record)
    requires t in s.open && (s.open[t].kind.Auto? || t in s.txns)
    ensures var s' := Finished(s, t, r); s'.txns == if s.open[t].kind.Auto? then s.txns else s.txns[t := s'.txns[t]]
    ensures t in s.txns ==> t in Finished(s, t, r).txns
  {
    hide Set;
  }

  lemma FinishedRest(s: State, t: TxId, r: Record)
    requires t in s.open && (s.open[t].kind.Auto? || t in s.txns)
    ensures var (op, s') := (s.open[t], Finished(s, t, r));
            && s'.log == s.log + [r] && s'.eff == s.eff + [Some(Effect(op.key, op.value, op.creates))]
            && s'.m == Set(s.m, op.key, op.value) && s'.open == s.open - {t} && s'.rooted
            && s'.locks == s.locks && s'.base == s.base && s'.nextTx == s.nextTx && s'.initial == s.initial
            && s'.begunTxns == s.begunTxns
  {
    hide Set;
  }

  /** Nobody else has written, or holds a lock that lets them write, the group's key. */
  lemma OthersOff(s: State, t: TxId, u: TxId)
    requires Inv(s) && t in s.open && u != t
    ensures !Wrote(s, u, s.open[t].key)
    ensures s.open[t].kind.Auto? ==> !Wrote(s, t, s.open[t].key)
    ensures s.open[t].kind.Inverse? ==> Wrote(s, t, s.open[t].key) && HoldsX(s.locks, t, s.open[t].key)
    ensures !s.open[t].kind.Auto? ==> !Holds(s.locks, u, s.open[t].key)
  {
    hide Writes, Replay, Committed, Redo, HasBegin, HasEnd, DeltaOk, ReplayOk, CleanOk, FirstBefore, Get;
    var op := s.open[t];
    assert OpenOk(s, t) && FlagsOk(s, t) && KeyOk(s, u, op.key) && KeyOk(s, t, op.key);
    assert HoldsX(s.locks, u, op.key) ==> Holds(s.locks, u, op.key);
    if op.kind.Inverse? {
      FirstBeforeSuffix(s.txns[t].undo, s.txns[t].phase.todo - 1, op.key);
    }
  }

  lemma EndFlags(s: State, s': State, t: TxId, r: Record, u: TxId)
    requires Inv(s) && EndsGroup(s, s', t, r)
    ensures FlagsOk(s', u)
  {
    EndShape(s, s', t, r);
    hide Writes, Replay, Committed, Redo, HasBegin, HasEnd, Compatible, DeltaOk, KeyOk, ReplayOk, CleanOk, OpenOk;
    assert FlagsOk(s, u) && FlagsOk(s, t);
    HasBeginAppend(s.log, r, u);
    HasEndAppend(s.log, r, u);
  }

  lemma EndOpen(s: State, s': State, t: TxId, r: Record, u: TxId)
    requires Inv(s) && EndsGroup(s, s', t, r)
    ensures OpenOk(s', u)
  {
    EndShape(s, s', t, r);
    assert OpenOk(s, u) && OpenOk(s, t);
    if u in s'.open {
      SetAt(s.m, s.open[t].key, s.open[t].value, s.open[u].key);
    }
    hide Writes, Replay, Committed, Redo, HasBegin, HasEnd, Compatible, DeltaOk, KeyOk, ReplayOk, CleanOk, FlagsOk, Get,
         Set;
  }

  /** Transactions other than the owner see no change on their keys. */
  lemma EndOtherKey(s: State, s': State, t: TxId, r: Record, u: TxId, k: Key)
    requires Inv(s) && EndsGroup(s, s', t, r) && u != t
    ensures |s'.log| == |s'.eff| && KeyOk(s', u, k) && DeltaOk(s', u, k)
  {
    hide Next, EndsGroup, Committed, Writes, Redo, FirstTouch, FirstUndo, Made;
    EndShape(s, s', t, r);
    EndOthers(s, s', t, r, u);
    assert KeyOk(s, u, k) && DeltaOk(s, u, k);
    var op := s.open[t];
    var e := Some(Effect(op.key, op.value, op.creates));
    OthersOff(s, t, u);
    if u in s.txns && s.txns[u].phase.Aborting? {
      FirstBeforeSuffix(s.txns[u].undo, s.txns[u].phase.todo, k);
    }
    hide Writes, Replay, Committed, Redo, HasBegin, HasEnd, Compatible, ReplayOk, CleanOk, FlagsOk, OpenOk, Get, Set,
         FirstTouch, FirstUndo, FirstBefore, Made, EndsGroup, Inv;
    SetAt(s.m, op.key, op.value, k);
    SetAt(C(s), op.key, op.value, k);
    WritesAppend(s.log, s.eff, r, e, u);
    TouchAppend(s.log, r, u, k);
    MadeAppend(s.log, s.eff, r, e, u, k);
  }

  lemma EndOthers(s: State, s': State, t: TxId, r: Record, u: TxId)
    requires Inv(s) && EndsGroup(s, s', t, r) && u != t
    ensures u in s'.txns <==> u in s.txns
    ensures u in s.txns ==> s'.txns[u] == s.txns[u]
    ensures forall k :: Wrote(s', u, k) == Wrote(s, u, k)
  {
    hide Inv;
    EndFields(s, s', t, r);
  }

  /** Replays of other running transactions are untouched, even when the committed
      state moves under an autocommit write. */
  lemma EndOtherReplay(s: State, s': State, t: TxId, r: Record, u: TxId)
    requires Inv(s) && EndsGroup(s, s', t, r) && u != t
    ensures |s'.log| == |s'.eff| && ReplayOk(s', u)
  {
    EndShape(s, s', t, r);
    EndOthers(s, s', t, r, u);
    assert ReplayOk(s, u) && OpenOk(s, t);
    OthersOff(s, t, u);
    if u in s.txns && s.txns[u].phase.Running? {
      var ops := s.txns[u].ops;
      var op := s.open[t];
      hide Writes, Replay, Committed, Redo, HasBegin, HasEnd, Compatible, CleanOk, FlagsOk, OpenOk, Get, Set,
           FirstTouch, FirstUndo, FirstBefore, Made, EndsGroup, Inv, Wrote;
      forall k ensures Get(s'.m, k) == (if k == op.key then op.value else Get(s.m, k))
                    && Get(Set(C(s), op.key, op.value), k) == (if k == op.key then op.value else Get(C(s), k)) {
        SetAt(s.m, op.key, op.value, k);
        SetAt(C(s), op.key, op.value, k);
      }
      ReplayFrame(C(s), C(s'), ops);
    }
  }

  // ------------------------------------------------------------ ending one's own write

  lemma ForwardKey(s: State, s': State, t: TxId, r: Record, k: Key)
    requires Inv(s) && EndsGroup(s, s', t, r) && s.open[t].kind.Forward?
    ensures |s'.log| == |s'.eff| && KeyOk(s', t, k)
  {
    EndShape(s, s', t, r);
    var op := s.open[t];
    var e := Some(Effect(op.key, op.value, op.creates));
    assert KeyOk(s, t, k) && OpenOk(s, t) && FlagsOk(s, t) && CleanOk(s, op.key);
    forall u | u != t ensures !Wrote(s, u, op.key) { OthersOff(s, t, u); }
    var x := s.txns[t];
    assert s'.txns[t] == x.(undo := x.undo + [Entry(op.key, op.before)], ops := x.ops + [WriteOp(op.key, op.value)]);
    hide Writes, Replay, Committed, Redo, HasBegin, HasEnd, Compatible, ReplayOk, FlagsOk, Get, Set, FirstTouch,
         FirstUndo, FirstBefore, Made, EndsGroup, Inv, DeltaOk;
    SetAt(s.m, op.key, op.value, k);
    WritesAppend(s.log, s.eff, r, e, t);
    FirstBeforeAppend(x.undo, Entry(op.key, op.before), k);
    assert Wrote(s', t, k) <==> Wrote(s, t, k) || k == op.key;
  }

  lemma ForwardDelta(s: State, s': State, t: TxId, r: Record, k: Key)
    requires Inv(s) && EndsGroup(s, s', t, r) && s.open[t].kind.Forward?
    ensures |s'.log| == |s'.eff| && DeltaOk(s', t, k)
  {
    EndShape(s, s', t, r);
    var op := s.open[t];
    assert DeltaOk(s, t, k) && OpenOk(s, t) && KeyOk(s, t, k);
    var x := s.txns[t];
    assert s'.txns[t] == x.(undo := x.undo + [Entry(op.key, op.before)], ops := x.ops + [WriteOp(op.key, op.value)]);
    assert KeyOk(s, t, if x.undo == [] then k else x.undo[0].key);
    assert op.creates ==> x.undo == [];
    hide EndsGroup, Inv, KeyOk, DeltaOk, Ids, LocksOk;
    ForwardDeltaAt(s, s', t, r, k);
  }

  lemma ForwardDeltaAt(s: State, s': State, t: TxId, r: Record, k: Key)
    requires |s.log| == |s.eff| && t in s.open && t in s.txns && s.open[t].kind.Forward? && r.txid == t && r.opEnd
    requires DeltaOk(s, t, k) && OpenOk(s, t)
    requires s.open[t].creates ==> s.txns[t].undo == []
    requires var op := s.open[t]; var x := s.txns[t];
             && s'.log == s.log + [r] && s'.eff == s.eff + [Some(Effect(op.key, op.value, op.creates))]
             && s'.m == Set(s.m, op.key, op.value) && s'.open == s.open - {t} && t in s'.txns
             && s'.txns[t] == x.(undo := x.undo + [Entry(op.key, op.before)],
                ops := x.ops + [WriteOp(op.key, op.value)])
             && (IsPageRecord(r.body) || (IsDelta(op, r.body) && !op.logged && !op.creates))
             && (!op.creates ==> IsDelta(op, r.body) || op.logged)
    ensures DeltaOk(s', t, k)
  {
    var op := s.open[t];
    var x := s.txns[t];
    var entry := Entry(op.key, op.before);
    hide FirstTouch, FirstUndo, FirstBefore, Made, OnlyOnce, Set, Holds, HoldsX;
    TouchAppend(s.log, r, t, k);
    MadeAppend(s.log, s.eff, r, Some(Effect(op.key, op.value, op.creates)), t, k);
    FirstBeforeAppend(x.undo, entry, k);
    SetAt(s.m, op.key, op.value, k);
    assert Wrote(s', t, k) <==> Wrote(s, t, k) || k == op.key;
    OnceMore(x.undo, entry, k);
    if Wrote(s, t, k) {
      FirstNonEmpty(x.undo, k);
    }
  }

  lemma FirstNonEmpty(u: seq<Entry>, k: Key)
    requires FirstBefore(u, k).Some?
    ensures u != []
  {
  }

  lemma OnceMore(u: seq<Entry>, e: Entry, k: Key)
    ensures u != [] ==> (OnlyOnce(u + [e], k) <==> OnlyOnce(u, k) && e.key != k)
    ensures OnlyOnce([e], k)
  {
    var w := u + [e];
    if u != [] {
      assert w[|u|] == e;
      forall j | 0 < j < |u| ensures w[j] == u[j] {}
    }
  }

  lemma ForwardReplay(s: State, s': State, t: TxId, r: Record)
    requires Inv(s) && EndsGroup(s, s', t, r) && s.open[t].kind.Forward?
    ensures |s'.log| == |s'.eff| && ReplayOk(s', t)
  {
    EndShape(s, s', t, r);
    var op := s.open[t];
    var x := s.txns[t];
    assert ReplayOk(s, t) && OpenOk(s, t);
    assert s'.txns[t] == x.(undo := x.undo + [Entry(op.key, op.before)], ops := x.ops + [WriteOp(op.key, op.value)]);
    hide Writes, Replay, Committed, Redo, HasBegin, HasEnd, Compatible, FlagsOk, Get, Set, KeyOk, CleanOk, FirstTouch,
         FirstUndo, FirstBefore, Made, EndsGroup, Inv, DeltaOk;
    ReplayAppend(C(s), x.ops, WriteOp(op.key, op.value));
    var before := Replay(C(s), x.ops).value;
    forall k ensures (Wrote(s', t, k) <==> Wrote(s, t, k) || k == op.key)
                  && Get(Set(before, op.key, op.value), k) == (if k == op.key then op.value else Get(before, k))
                  && Get(s'.m, k) == (if k == op.key then op.value else Get(s.m, k)) {
      FirstBeforeAppend(x.undo, Entry(op.key, op.before), k);
      SetAt(before, op.key, op.value, k);
      SetAt(s.m, op.key, op.value, k);
    }
  }

  // ------------------------------------------------------------ ending one rollback write

  lemma InverseKey(s: State, s': State, t: TxId, r: Record, k: Key)
    requires Inv(s) && EndsGroup(s, s', t, r) && s.open[t].kind.Inverse?
    ensures |s'.log| == |s'.eff| && KeyOk(s', t, k) && DeltaOk(s', t, k)
  {
    EndShape(s, s', t, r);
    var op := s.open[t];
    var e := Some(Effect(op.key, op.value, op.creates));
    var x := s.txns[t];
    assert KeyOk(s, t, k) && OpenOk(s, t) && DeltaOk(s, t, k) && KeyOk(s, t, op.key) && DeltaOk(s, t, op.key);
    assert s'.txns[t] == x.(phase := Aborting(x.phase.todo - 1));
    InverseAlreadyFixed(s, t);
    hide Writes, Replay, Committed, Redo, HasBegin, HasEnd, Compatible, ReplayOk, FlagsOk, Get, Set, CleanOk,
         FirstTouch, FirstUndo, FirstBefore, Made, EndsGroup, Inv;
    SetAt(s.m, op.key, op.value, k);
    TouchAppend(s.log, r, t, k);
    MadeAppend(s.log, s.eff, r, e, t, k);
    FirstBeforeStep(x.undo, x.phase.todo, k);
  }

  // ------------------------------------------------------------ clean keys, history

  lemma EndClean(s: State, s': State, t: TxId, r: Record, k: Key)
    requires Inv(s) && EndsGroup(s, s', t, r)
    ensures |s'.log| == |s'.eff| && CleanOk(s', k)
  {
    EndShape(s, s', t, r);
    var op := s.open[t];
    assert CleanOk(s, k);
    OwnWrote(s, s', t, r, k);
    forall u | u != t ensures Wrote(s', u, k) == Wrote(s, u, k) { EndOthers(s, s', t, r, u); }
    hide Committed, Get, Set, Wrote, EndsGroup, Inv;
    SetAt(s.m, op.key, op.value, k);
    SetAt(C(s), op.key, op.value, k);
  }

  /** The owner has written its group's key afterwards, unless it is an autocommit. */
  lemma OwnWrote(s: State, s': State, t: TxId, r: Record, k: Key)
    requires Inv(s) && EndsGroup(s, s', t, r)
    ensures Wrote(s, t, k) ==> Wrote(s', t, k)
    ensures !s.open[t].kind.Auto? ==> Wrote(s', t, s.open[t].key)
    ensures Wrote(s', t, k) ==> Wrote(s, t, k) || (k == s.open[t].key && s.open[t].kind.Forward?)
  {
    var op := s.open[t];
    assert FlagsOk(s, t);
    hide FirstBefore, Get, Set, Redo, KeyOk, DeltaOk, ReplayOk, CleanOk;
    if op.kind.Inverse? {
      OthersOff(s, t, t + 1);
    } else if op.kind.Forward? {
      FirstBeforeAppend(s.txns[t].undo, Entry(op.key, op.before), k);
      FirstBeforeAppend(s.txns[t].undo, Entry(op.key, op.before), op.key);
    }
  }

  lemma EndHistory(s: State, s': State, t: TxId, r: Record)
    requires Inv(s) && EndsGroup(s, s', t, r)
    ensures |s'.log| == |s'.eff| && HistoryOk(s')
  {
    EndShape(s, s', t, r);
    hide Writes, Committed, Redo, HasBegin, HasEnd, Compatible, DeltaOk, KeyOk, ReplayOk, CleanOk, OpenOk, FlagsOk,
         Replay;
    var op := s.open[t];
    if op.kind.Auto? {
      ReplayAppend(s.initial, s.serial, WriteOp(op.key, op.value));
    }
  }

  lemma EndGroupInv(s: State, s': State, t: TxId, r: Record)
    requires Inv(s) && EndsGroup(s, s', t, r)
    ensures Inv(s')
  {
    EndShape(s, s', t, r);
    EndHistory(s, s', t, r);
    assert FlagsOk(s, t);
    assert s.open[t].kind.Auto? ==> t !in s'.txns;
    assert s.open[t].kind.Inverse? ==> s'.txns[t].phase.Aborting?;
    hide Writes, Replay, Committed, Redo, HasBegin, HasEnd, Compatible, DeltaOk, KeyOk, ReplayOk, CleanOk, OpenOk,
         FlagsOk, Get, Set, EndsGroup;
    forall u ensures FlagsOk(s', u) && OpenOk(s', u) {
      EndFlags(s, s', t, r, u);
      EndOpen(s, s', t, r, u);
    }
    forall u ensures ReplayOk(s', u) {
      if u != t { EndOtherReplay(s, s', t, r, u); } else { OwnReplay(s, s', t, r); }
    }
    forall u, k ensures KeyOk(s', u, k) && DeltaOk(s', u, k) {
      if u != t { EndOtherKey(s, s', t, r, u, k); } else { OwnKey(s, s', t, r, k); }
    }
    forall k ensures CleanOk(s', k) { EndClean(s, s', t, r, k); }
  }

  lemma OwnReplay(s: State, s': State, t: TxId, r: Record)
    requires Inv(s) && EndsGroup(s, s', t, r)
    ensures |s'.log| == |s'.eff| && ReplayOk(s', t)
  {
    EndShape(s, s', t, r);
    assert FlagsOk(s, t);
    if s.open[t].kind.Forward? { ForwardReplay(s, s', t, r); }
  }

  lemma OwnKey(s: State, s': State, t: TxId, r: Record, k: Key)
    requires Inv(s) && EndsGroup(s, s', t, r)
    ensures |s'.log| == |s'.eff| && KeyOk(s', t, k) && DeltaOk(s', t, k)
  {
    EndShape(s, s', t, r);
    assert FlagsOk(s, t);
    if s.open[t].kind.Forward? {
      ForwardKey(s, s', t, r, k);
      ForwardDelta(s, s', t, r, k);
    } else if s.open[t].kind.Inverse? {
      InverseKey(s, s', t, r, k);
    }
  }

  // ------------------------------------------------------------ commit

  /** An ended transaction's records: nothing changes for anybody else. */
  lemma EndedLog(s: State, s': State, t: TxId, u: TxId, k: Key, r: Record)
    requires |s.log| == |s.eff| && u != t && r.txid == t
    requires (s'.log == s.log && s'.eff == s.eff) || (s'.log == s.log + [r] && s'.eff == s.eff + [None])
    requires r.body.Commit? || r.body.Abort?
    ensures Writes(s'.log, s'.eff, u) == Writes(s.log, s.eff, u)
    ensures FirstTouch(s'.log, u, k) == FirstTouch(s.log, u, k) && FirstUndo(s'.log, u, k) == FirstUndo(s.log, u, k)
    ensures Made(s'.log, s'.eff, u, k) == Made(s.log, s.eff, u, k)
    ensures HasBegin(s'.log, u) == HasBegin(s.log, u) && HasEnd(s'.log, u) == HasEnd(s.log, u)
  {
    WritesAppend(s.log, s.eff, r, None, u);
    TouchAppend(s.log, r, u, k);
    MadeAppend(s.log, s.eff, r, None, u, k);
    HasBeginAppend(s.log, r, u);
    HasEndAppend(s.log, r, u);
  }

  /** The step ends `t`: committed, or rolled back. */
  ghost predicate Ends(s: State, s': State, t: TxId, step: Step)
  {
    Next(s, s', step) && (step == CommitTxn(t) || step == FinishAbort(t))
  }

  ghost predicate EndFieldsOk(s: State, s': State, t: TxId, r: Record)
  {
    && t in s.txns && t !in s.open
    && (if s.txns[t].begun then s'.log == s.log + [r] && s'.eff == s.eff + [None]
       else s'.log == s.log && s'.eff == s.eff)
    && s'.m == s.m && s'.txns == s.txns - {t} && s'.locks == Release(s.locks, t) && s'.open == s.open
    && s'.rooted == s.rooted && s'.nextTx == s.nextTx && s'.base == s.base
  }

  lemma CommitFields(s: State, s': State, t: TxId)
    requires DoCommit(s, s', t)
    ensures EndFieldsOk(s, s', t, Record(t, true, Commit))
  {
    hide Release;
  }

  lemma AbortFields(s: State, s': State, t: TxId)
    requires DoFinishAbort(s, s', t)
    ensures EndFieldsOk(s, s', t, Record(t, true, Abort))
  {
    hide Release;
  }

  lemma EndsLog(s: State, s': State, t: TxId, step: Step) returns (r: Record)
    requires Ends(s, s', t, step)
    ensures r.txid == t && r.opEnd && r.body == (if step.CommitTxn? then Commit else Abort)
    ensures EndFieldsOk(s, s', t, r)
  {
    hide EndFieldsOk, DoCommit, DoFinishAbort;
    r := Record(t, true, if step.CommitTxn? then Commit else Abort);
    if step.CommitTxn? { CommitFields(s, s', t); } else { AbortFields(s, s', t); }
  }

  lemma EndsLocks(s: State, s': State, t: TxId, r: Record)
    requires LocksOk(s) && EndFieldsOk(s, s', t, r)
    ensures LocksOk(s')
  {
    hide Compatible, Release, Holds;
    ReleaseCompatible(s.locks, t);
    ReleaseHolds(s.locks, t);
  }

  lemma EndsMaps(s: State, s': State, t: TxId, r: Record)
    requires Ids(s) && EndFieldsOk(s, s', t, r) && r.txid == t && (r.body.Commit? || r.body.Abort?)
    ensures Ids(s')
    ensures C(s') == if r.body.Commit? && s.txns[t].begun then Apply(C(s), Writes(s.log, s.eff, t)) else C(s)
  {
    hide Writes, Committed, Redo, HasBegin, Apply, Release;
    RedoAppend(s.base, s.eff, None);
    CommittedAppend(s.base, s.log, s.eff, r, None);
  }

  lemma EndsShape(s: State, s': State, t: TxId, step: Step)
    requires Inv(s) && Ends(s, s', t, step)
    ensures Ids(s') && LocksOk(s')
    ensures C(s') == if step.CommitTxn? && s.txns[t].begun then Apply(C(s), Writes(s.log, s.eff, t)) else C(s)
  {
    assert Ids(s) && LocksOk(s);
    hide Ends, Inv, Writes, Committed, Redo, HasBegin, Apply, Compatible, Release, LocksOk, Ids;
    var r := EndsLog(s, s', t, step);
    EndsLocks(s, s', t, r);
    EndsMaps(s, s', t, r);
  }

  /** After a commit every key reads as committed exactly what the transaction left. */
  lemma CommitShape(s: State, s': State, t: TxId)
    requires Inv(s) && Next(s, s', CommitTxn(t))
    ensures Ids(s') && LocksOk(s') && t in s.txns && s.txns[t].phase.Running?
    ensures s'.initial == s.initial && s'.serial == s.serial + s.txns[t].ops
    ensures forall k :: Get(C(s'), k) == if Wrote(s, t, k) then Get(s.m, k) else Get(C(s), k)
  {
    hide Finished, Opened, MayOpen, Grant, Blocked, IsDelta, Holds, HoldsX, Get, Release, Writes, Committed, Redo,
         Compatible, DeltaOk, ReplayOk, CleanOk, OpenOk, FlagsOk;
    EndsShape(s, s', t, CommitTxn(t));
    hide Next;
    forall k ensures Get(C(s'), k) == if Wrote(s, t, k) then Get(s.m, k) else Get(C(s), k) {
      assert KeyOk(s, t, k);
      ApplyAt(C(s), Writes(s.log, s.eff, t), k);
    }
  }

  lemma EndsFlags(s: State, s': State, t: TxId, step: Step, u: TxId)
    requires Inv(s) && Ends(s, s', t, step)
    ensures FlagsOk(s', u) && OpenOk(s', u)
  {
    hide Next, Ends, Release, Committed, Redo, Writes;
    var r := EndsLog(s, s', t, step);
    assert FlagsOk(s, u) && OpenOk(s, u);
    ReleaseHolds(s.locks, t);
    hide Writes, Replay, Committed, Redo, HasBegin, HasEnd, Compatible, DeltaOk, ReplayOk, CleanOk, KeyOk, Get, Inv,
         Ends;
    HasBeginAppend(s.log, r, u);
    HasEndAppend(s.log, r, u);
  }

  /** Keys of other live transactions, given that `t`'s end moved the committed state
      only on keys `t` wrote. */
  lemma EndedTxn(s: State, s': State, t: TxId, step: Step, k: Key)
    requires Ends(s, s', t, step) && |s'.log| == |s'.eff|
    ensures KeyOk(s', t, k) && DeltaOk(s', t, k)
  {
    hide Ends;
    var r := EndsLog(s, s', t, step);
  }

  lemma EndsOtherKey(s: State, s': State, t: TxId, step: Step, u: TxId, k: Key)
    requires Inv(s) && Ends(s, s', t, step) && |s'.log| == |s'.eff| && u != t
    requires !Wrote(s, t, k) ==> Get(C(s'), k) == Get(C(s), k)
    ensures KeyOk(s', u, k) && DeltaOk(s', u, k)
  {
    WritersDiffer(s, t, u, k);
    assert KeyOk(s, u, k) && DeltaOk(s, u, k);
    hide Inv, Ends, KeyOk, DeltaOk, Get, Committed, Wrote, EndFieldsOk;
    var r := EndsLog(s, s', t, step);
    EndsOtherKeyAt(s, s', t, r, u, k);
  }

  /** Exclusive locks: a key has one writer at a time. */
  lemma WritersDiffer(s: State, t: TxId, u: TxId, k: Key)
    requires Inv(s) && t != u
    ensures Wrote(s, t, k) ==> !Wrote(s, u, k)
  {
    hide Writes, FirstBefore, Get, Committed;
    assert KeyOk(s, u, k) && KeyOk(s, t, k);
    assert HoldsX(s.locks, u, k) ==> Holds(s.locks, u, k);
  }

  lemma EndsOtherKeyAt(s: State, s': State, t: TxId, r: Record, u: TxId, k: Key)
    requires |s.log| == |s.eff| && |s'.log| == |s'.eff| && EndFieldsOk(s, s', t, r)
    requires r.txid == t && (r.body.Commit? || r.body.Abort?)
    requires KeyOk(s, u, k) && DeltaOk(s, u, k)
    requires u != t && Wrote(s, t, k) ==> !Wrote(s, u, k)
    requires !Wrote(s, t, k) ==> Get(C(s'), k) == Get(C(s), k)
    ensures KeyOk(s', u, k) && DeltaOk(s', u, k)
  {
    hide Writes, Committed, Get, FirstTouch, FirstUndo, FirstBefore, Made, OnlyOnce, Release, HasBegin, HasEnd;
    ReleaseHolds(s.locks, t);
    if u != t {
      EndedLog(s, s', t, u, k, r);
      assert Wrote(s', u, k) == Wrote(s, u, k);
    }
  }

  lemma EndsOtherReplay(s: State, s': State, t: TxId, step: Step, u: TxId)
    requires Inv(s) && Ends(s, s', t, step) && |s'.log| == |s'.eff|
    requires forall k :: !Wrote(s, t, k) ==> Get(C(s'), k) == Get(C(s), k)
    ensures ReplayOk(s', u)
  {
    hide Next, Ends, Release, Committed, Redo, Writes, Replay, FirstBefore;
    var r := EndsLog(s, s', t, step);
    assert ReplayOk(s, u);
    ReleaseHolds(s.locks, t);
    if u in s'.txns && s'.txns[u].phase.Running? {
      var ops := s.txns[u].ops;
      forall k | Holds(s.locks, u, k) ensures !Wrote(s, t, k) {
        assert KeyOk(s, t, k);
      }
      forall k ensures Wrote(s', u, k) == Wrote(s, u, k) && (Wrote(s, u, k) ==> Holds(s.locks, u, k)) {
        assert KeyOk(s, u, k);
      }
      hide Writes, Replay, Committed, Redo, HasBegin, HasEnd, Compatible, CleanOk, Get, Inv, Ends, KeyOk, DeltaOk,
           FirstTouch, FirstUndo, FirstBefore, Made, FlagsOk, OpenOk, Wrote, Release, Holds;
      ReplayFrame(C(s), C(s'), ops);
      forall k ensures if Wrote(s', u, k) then Get(Replay(C(s'), ops).value, k) == Get(s'.m, k)
                       else Get(Replay(C(s'), ops).value, k) == Get(C(s'), k) {
        if !Wrote(s, t, k) {
          assert Get(C(s'), k) == Get(C(s), k);
        }
      }
    }
  }

  /** The committed transaction's own replay becomes the last piece of history. */
  lemma CommitHistory(s: State, s': State, t: TxId)
    requires Inv(s) && Next(s, s', CommitTxn(t))
    ensures |s'.log| == |s'.eff| && HistoryOk(s')
  {
    CommitShape(s, s', t);
    assert ReplayOk(s, t);
    hide Writes, Replay, Committed, Redo, HasBegin, HasEnd, Compatible, DeltaOk, CleanOk, KeyOk, OpenOk, FlagsOk, Get;
    ReplayConcat(s.initial, s.serial, s.txns[t].ops);
    SameMap(Replay(C(s), s.txns[t].ops).value, C(s'));
  }

  lemma EndsClean(s: State, s': State, t: TxId, step: Step, k: Key)
    requires Inv(s) && Ends(s, s', t, step) && |s'.log| == |s'.eff|
    requires if Wrote(s, t, k) then Get(C(s'), k) == Get(s.m, k) else Get(C(s'), k) == Get(C(s), k)
    ensures CleanOk(s', k)
  {
    var r := EndsLog(s, s', t, step);
    assert CleanOk(s, k);
    assert forall u :: u != t ==> Wrote(s', u, k) == Wrote(s, u, k);
  }

  lemma CommitInv(s: State, s': State, t: TxId)
    requires Inv(s) && Next(s, s', CommitTxn(t))
    ensures Inv(s')
  {
    CommitShape(s, s', t);
    CommitHistory(s, s', t);
    var step := CommitTxn(t);
    hide Writes, Replay, Committed, Redo, HasBegin, HasEnd, Compatible, DeltaOk, KeyOk, ReplayOk, CleanOk, OpenOk,
         FlagsOk, Get, Wrote, Next;
    assert Ends(s, s', t, step);
    forall u ensures FlagsOk(s', u) && OpenOk(s', u) && ReplayOk(s', u) {
      EndsFlags(s, s', t, step, u);
      EndsOtherReplay(s, s', t, step, u);
    }
    forall u, k ensures KeyOk(s', u, k) && DeltaOk(s', u, k) {
      if u == t { EndedTxn(s, s', t, step, k); } else { EndsOtherKey(s, s', t, step, u, k); }
    }
    forall k ensures CleanOk(s', k) { EndsClean(s, s', t, step, k); }
  }

  // ------------------------------------------------------------ rollback complete

  /** A finished rollback has put every key the transaction wrote back to its
      committed value; the committed state does not move. */
  lemma AbortShape(s: State, s': State, t: TxId)
    requires Inv(s) && Next(s, s', FinishAbort(t))
    ensures Ids(s') && LocksOk(s') && C(s') == C(s) && HistoryOk(s')
    ensures forall k :: Wrote(s, t, k) ==> Get(C(s), k) == Get(s.m, k)
  {
    hide Finished, Opened, MayOpen, Grant, Blocked, IsDelta, Holds, HoldsX, Get, Release, Writes, Committed, Redo,
         Compatible, DeltaOk, ReplayOk, CleanOk, OpenOk, FlagsOk, Replay;
    EndsShape(s, s', t, FinishAbort(t));
    forall k | Wrote(s, t, k) ensures Get(C(s), k) == Get(s.m, k) {
      assert KeyOk(s, t, k);
      assert s.txns[t].undo[0..] == s.txns[t].undo;
    }
  }

  lemma FinishAbortInv(s: State, s': State, t: TxId)
    requires Inv(s) && Next(s, s', FinishAbort(t))
    ensures Inv(s')
  {
    AbortShape(s, s', t);
    var step := FinishAbort(t);
    hide Writes, Replay, Committed, Redo, HasBegin, HasEnd, Compatible, DeltaOk, KeyOk, ReplayOk, CleanOk, OpenOk,
         FlagsOk, Get, Wrote, Next;
    assert Ends(s, s', t, step);
    forall u ensures FlagsOk(s', u) && OpenOk(s', u) && ReplayOk(s', u) {
      EndsFlags(s, s', t, step, u);
      EndsOtherReplay(s, s', t, step, u);
    }
    forall u, k ensures KeyOk(s', u, k) && DeltaOk(s', u, k) {
      if u == t { EndedTxn(s, s', t, step, k); } else { EndsOtherKey(s, s', t, step, u, k); }
    }
    forall k ensures CleanOk(s', k) { EndsClean(s, s', t, step, k); }
  }
}
