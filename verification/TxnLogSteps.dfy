/** The steps that log without ending a write: begin markers, page and key records
    inside a group, and the truncation of the log. */
module TxnLogSteps {
  import opened Keys
  import opened TxnLog
  import opened Locks
  import opened TxnMachine
  import opened TxnAppend
  import opened TxnSteps

  lemma SameMap(a: KV, b: KV)
    requires forall k :: Get(a, k) == Get(b, k)
    ensures a == b
  {
    forall k ensures (k in a <==> k in b) && (k in a ==> a[k] == b[k]) {
      assert Get(a, k) == Get(b, k);
    }
  }

  /** Appending a record without effect that is no commit leaves both maps alone. */
  lemma NoEffect(s: State, r: Record)
    requires Ids(s) && r.txid < s.nextTx && !r.body.Commit?
    ensures var a := Append(s, r, None); Ids(a) && C(a) == C(s)
  {
    RedoAppend(s.base, s.eff, None);
    CommittedAppend(s.base, s.log, s.eff, r, None);
  }

  // ------------------------------------------------------------ begin

  lemma LogBeginInv(s: State, s': State, t: TxId)
    requires Inv(s) && Next(s, s', LogBegin(t))
    ensures Inv(s')
  {
    hide Writes, FirstTouch, FirstUndo, FirstBefore, Replay, Committed, Redo, Made, HasBegin, HasEnd, Compatible, Get;
    var r := Record(t, true, Begin);
    NoEffect(s, r);
    assert C(s') == C(s);
    assert forall u, k :: Wrote(s', u, k) == Wrote(s, u, k);
    forall u ensures FlagsOk(s', u) && OpenOk(s', u) {
      assert FlagsOk(s, u) && OpenOk(s, u);
      HasBeginAppend(s.log, r, u);
      HasEndAppend(s.log, r, u);
    }
    forall u ensures ReplayOk(s', u) { assert ReplayOk(s, u); }
    forall u, k ensures KeyOk(s', u, k) && DeltaOk(s', u, k) {
      assert KeyOk(s, u, k) && DeltaOk(s, u, k);
      WritesAppend(s.log, s.eff, r, None, u);
      TouchAppend(s.log, r, u, k);
      MadeAppend(s.log, s.eff, r, None, u, k);
    }
    forall k ensures CleanOk(s', k) { assert CleanOk(s, k); }
  }

  // ------------------------------------------------------------ the checkpoint's marker

  lemma MarkInv(s: State, s': State)
    requires Inv(s) && Next(s, s', MarkCheckpoint)
    ensures Inv(s') && C(s') == C(s)
  {
    hide Writes, FirstTouch, FirstUndo, FirstBefore, Replay, Committed, Redo, Made, HasBegin, HasEnd, Compatible, Get;
    var r := Record(0, true, Checkpoint);
    NoEffect(s, r);
    assert forall u, k :: Wrote(s', u, k) == Wrote(s, u, k);
    forall u ensures FlagsOk(s', u) && OpenOk(s', u) {
      assert FlagsOk(s, u) && OpenOk(s, u);
      HasBeginAppend(s.log, r, u);
      HasEndAppend(s.log, r, u);
    }
    forall u ensures ReplayOk(s', u) { assert ReplayOk(s, u); }
    forall u, k ensures KeyOk(s', u, k) && DeltaOk(s', u, k) {
      assert KeyOk(s, u, k) && DeltaOk(s, u, k);
      WritesAppend(s.log, s.eff, r, None, u);
      TouchAppend(s.log, r, u, k);
      MadeAppend(s.log, s.eff, r, None, u, k);
    }
    forall k ensures CleanOk(s', k) { assert CleanOk(s, k); }
  }

  // ------------------------------------------------------------ a record inside a group

  ghost predicate InsideGroup(s: State, s': State, t: TxId, r: Record)
  {
    Next(s, s', AppendRecord(t, r)) && !r.opEnd
  }

  lemma GroupRecordInv(s: State, s': State, t: TxId, r: Record)
    requires Inv(s) && InsideGroup(s, s', t, r)
    ensures Inv(s')
  {
    GroupRecordShape(s, s', t, r);
    hide Writes, FirstTouch, FirstUndo, FirstBefore, Replay, Committed, Redo, Made, HasBegin, HasEnd, Compatible, Get,
         InsideGroup;
    assert forall u, k :: Wrote(s', u, k) == Wrote(s, u, k);
    forall u ensures FlagsOk(s', u) && OpenOk(s', u) {
      GroupRecordOpen(s, s', t, r, u);
    }
    hide OpenOk, FlagsOk, DeltaOk;
    forall u ensures ReplayOk(s', u) { assert ReplayOk(s, u); }
    forall u, k ensures KeyOk(s', u, k) && DeltaOk(s', u, k) {
      assert KeyOk(s, u, k);
      WritesAppend(s.log, s.eff, r, None, u);
      GroupRecordDelta(s, s', t, r, u, k);
    }
    forall k ensures CleanOk(s', k) { assert CleanOk(s, k); }
  }

  lemma GroupRecordOpen(s: State, s': State, t: TxId, r: Record, u: TxId)
    requires Inv(s) && InsideGroup(s, s', t, r)
    ensures FlagsOk(s', u) && OpenOk(s', u)
  {
    GroupRecordShape(s, s', t, r);
    assert FlagsOk(s, u) && OpenOk(s, u);
    hide Writes, Replay, Committed, Redo, HasBegin, HasEnd, Compatible, Get, InsideGroup, Next, Inv;
    HasBeginAppend(s.log, r, u);
    HasEndAppend(s.log, r, u);
  }

  lemma GroupRecordShape(s: State, s': State, t: TxId, r: Record)
    requires Inv(s) && InsideGroup(s, s', t, r)
    ensures Ids(s') && C(s') == C(s) && LocksOk(s') && HistoryOk(s')
    ensures s'.log == s.log + [r] && s'.eff == s.eff + [None] && s'.m == s.m && s'.txns == s.txns && s'.locks == s.locks
    ensures s'.rooted == s.rooted && r.txid == t && t in s.open
    ensures s'.open == s.open[t := s.open[t].(logged := s.open[t].logged || IsDelta(s.open[t], r.body))]
    ensures IsPageRecord(r.body) || (IsDelta(s.open[t], r.body) && !s.open[t].logged && !s.open[t].creates)
    ensures !r.body.Begin? && !r.body.Commit? && !r.body.Abort?
  {
    hide Writes, Replay, Committed, Redo, Next, Compatible, FlagsOk, KeyOk, DeltaOk, CleanOk, ReplayOk, Finished;
    AppendIs(s, s', t, r);
    NoEffect(s, r);
    assert OpenOk(s, t);
  }

  /** The undo value a rollback record would touch is already fixed by an earlier
      record of the transaction. */
  lemma InverseAlreadyFixed(s: State, t: TxId)
    requires |s.log| == |s.eff| && t in s.open && s.open[t].kind.Inverse? && OpenOk(s, t)
    requires KeyOk(s, t, s.open[t].key) && DeltaOk(s, t, s.open[t].key)
    ensures s.open[t].value.Some? ==> FirstUndo(s.log, t, s.open[t].key).Some?
  {
    var op := s.open[t];
    var x := s.txns[t];
    FirstBeforeSuffix(x.undo, x.phase.todo - 1, op.key);
  }

  lemma GroupRecordDelta(s: State, s': State, t: TxId, r: Record, u: TxId, k: Key)
    requires Inv(s) && InsideGroup(s, s', t, r)
    ensures |s'.log| == |s'.eff| && DeltaOk(s', u, k)
  {
    hide Writes, Committed, Redo, Made, HasBegin, HasEnd, Compatible, Next, FirstTouch, FirstUndo, Replay;
    GroupRecordShape(s, s', t, r);
    assert DeltaOk(s, u, k) && OpenOk(s, t) && FlagsOk(s, t) && DeltaOk(s, t, s.open[t].key)
           && KeyOk(s, t, s.open[t].key);
    hide Writes, FirstBefore, Replay, Committed, Redo, Made, HasBegin, HasEnd, Compatible, InsideGroup, Inv, Next,
         KeyOk, FirstTouch, FirstUndo;
    TouchAppend(s.log, r, u, k);
    MadeAppend(s.log, s.eff, r, None, u, k);
    if s.open[t].kind.Inverse? {
      InverseAlreadyFixed(s, t);
    }
  }

  // ------------------------------------------------------------ truncation

  lemma NothingWritten(s: State, t: TxId, k: Key)
    requires Inv(s) && (forall u :: u in s.txns ==> !s.txns[u].begun)
    ensures !Wrote(s, t, k)
  {
    assert KeyOk(s, t, k);
  }

  /** With no transaction begun, the map is the committed state: truncating forgets
      nothing a rollback could need. */
  lemma CleanWhenNoneBegun(s: State)
    requires Inv(s) && (forall u :: u in s.txns ==> !s.txns[u].begun)
    ensures C(s) == s.m
  {
    forall k ensures Get(C(s), k) == Get(s.m, k) {
      assert CleanOk(s, k);
      forall t ensures !Wrote(s, t, k) { NothingWritten(s, t, k); }
    }
    SameMap(C(s), s.m);
  }

  /** A zero counter means nobody has begun. */
  lemma ZeroMeansNone(s: State)
    requires CountOk(s) && s.begunTxns == 0
    ensures forall t :: t in s.txns ==> !s.txns[t].begun
  {
    assert BegunSet(s) == {};
    forall t | t in s.txns ensures !s.txns[t].begun {
      assert t !in BegunSet(s);
    }
  }

  lemma TruncateInv(s: State, s': State)
    requires Inv(s) && CountOk(s) && Next(s, s', Truncate)
    ensures Inv(s') && C(s') == C(s)
  {
    ZeroMeansNone(s);
    CleanWhenNoneBegun(s);
    assert C(s') == s.m;
    assert forall u, k :: Wrote(s', u, k) == Wrote(s, u, k);
    forall u ensures FlagsOk(s', u) && OpenOk(s', u) {
      assert FlagsOk(s, u) && OpenOk(s, u);
    }
    forall u ensures ReplayOk(s', u) { assert ReplayOk(s, u); }
    forall u, k ensures KeyOk(s', u, k) && DeltaOk(s', u, k) {
      assert KeyOk(s, u, k);
      NothingWritten(s, u, k);
      NoRecords([], [], u, k);
    }
    forall k ensures CleanOk(s', k) { assert CleanOk(s, k); }
  }

  // ------------------------------------------------------------ the counter

  lemma CountSame(s: State, s': State)
    requires CountOk(s) && s'.begunTxns == s.begunTxns
    requires forall t :: (t in s'.txns && s'.txns[t].begun) <==> (t in s.txns && s.txns[t].begun)
    ensures CountOk(s')
  {
    assert BegunSet(s') == BegunSet(s);
  }

  /** A begun transaction ends: one fewer. */
  lemma CountEnds(s: State, s': State, t: TxId)
    requires CountOk(s) && t in s.txns && s.txns[t].begun && s'.txns == s.txns - {t}
    requires s'.begunTxns == if s.begunTxns > 0 then s.begunTxns - 1 else 0
    ensures CountOk(s')
  {
    assert BegunSet(s) == BegunSet(s') + {t};
  }

  /** Every step keeps the counter right. */
  lemma CountNext(s: State, s': State, step: Step)
    requires Ids(s) && CountOk(s) && Next(s, s', step)
    ensures CountOk(s')
  {
    hide CountOk, Redo, Grant, Release, Blocked, MayOpen, IsDelta, Holds, HoldsX, Get, Set, DoLogBegin, DoCommit,
         DoFinishAbort, DoAppend;
    match step
    case LogBegin(t) => CountBegins(s, s', t);
    case CommitTxn(t) => CountCommit(s, s', t);
    case FinishAbort(t) => CountAbort(s, s', t);
    case AppendRecord(t, r) => CountAppend(s, s', t, r);
    case _ => CountSame(s, s');
  }

  lemma CountAppend(s: State, s': State, t: TxId, r: Record)
    requires CountOk(s) && DoAppend(s, s', t, r)
    ensures CountOk(s')
  {
    hide CountOk, IsDelta, Set, IsPageRecord, Finished;
    if r.opEnd {
      FinishedBegun(s, t, r);
    }
    CountSame(s, s');
  }

  lemma FinishedBegun(s: State, t: TxId, r: Record)
    requires t in s.open && (s.open[t].kind.Auto? || t in s.txns)
    ensures var s' := Finished(s, t, r);
            s'.begunTxns == s.begunTxns && forall u :: (u in s'.txns && s'.txns[u].begun) <==>
              (u in s.txns && s.txns[u].begun)
  {
    hide Set;
  }

  lemma CountCommit(s: State, s': State, t: TxId)
    requires CountOk(s) && DoCommit(s, s', t)
    ensures CountOk(s')
  {
    hide CountOk, Release;
    if s.txns[t].begun { CountEnds(s, s', t); } else { CountSame(s, s'); }
  }

  lemma CountAbort(s: State, s': State, t: TxId)
    requires CountOk(s) && DoFinishAbort(s, s', t)
    ensures CountOk(s')
  {
    hide CountOk, Release;
    if s.txns[t].begun { CountEnds(s, s', t); } else { CountSame(s, s'); }
  }

  lemma CountBegins(s: State, s': State, t: TxId)
    requires CountOk(s) && DoLogBegin(s, s', t)
    ensures CountOk(s')
  {
    assert BegunSet(s') == BegunSet(s) + {t};
  }
}
