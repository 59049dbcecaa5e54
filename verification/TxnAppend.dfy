/** What one more record does to everything read off the log. */
module TxnAppend {
  import opened Keys
  import opened TxnLog
  import opened Locks
  import opened TxnMachine

  lemma RedoAppend(base: KV, eff: Effects, e: Option<Effect>)
    ensures Redo(base, eff + [e]) ==
            if e.Some? then Set(Redo(base, eff), e.value.key, e.value.value) else Redo(base, eff)
  {
    assert (eff + [e])[..|eff|] == eff;
  }

  lemma WritesAppend(log: seq<Record>, eff: Effects, r: Record, e: Option<Effect>, t: TxId)
    requires |log| == |eff|
    ensures Writes(log + [r], eff + [e], t) ==
            if r.txid == t && e.Some? then Writes(log, eff, t)[e.value.key := e.value.value] else Writes(log, eff, t)
  {
    assert (log + [r])[..|log|] == log && (eff + [e])[..|eff|] == eff;
  }

  lemma CommittedAppend(base: KV, log: seq<Record>, eff: Effects, r: Record, e: Option<Effect>)
    requires |log| == |eff|
    ensures Committed(base, log + [r], eff + [e]) ==
            var c := Committed(base, log, eff);
            if r.body.Commit? then Apply(c, Writes(log, eff, r.txid))
            else if e.Some? && !HasBegin(log, r.txid) then Set(c, e.value.key, e.value.value)
            else c
  {
    assert (log + [r])[..|log|] == log && (eff + [e])[..|eff|] == eff;
  }

  lemma TouchAppend(log: seq<Record>, r: Record, t: TxId, k: Key)
    ensures FirstTouch(log + [r], t, k) ==
            if FirstTouch(log, t, k).Some? then FirstTouch(log, t, k)
            else if r.txid == t && Touches(r, k) then Some(BeforeOf(r)) else None
    ensures FirstUndo(log + [r], t, k) ==
            if r.txid == t && r.opEnd then FirstTouch(log + [r], t, k) else FirstUndo(log, t, k)
    ensures FirstUndo(log, t, k).Some? ==> FirstTouch(log, t, k) == FirstUndo(log, t, k)
  {
    assert (log + [r])[..|log|] == log;
    FirstUndoIsFirstTouch(log, t, k);
  }

  lemma MadeAppend(log: seq<Record>, eff: Effects, r: Record, e: Option<Effect>, t: TxId, k: Key)
    requires |log| == |eff|
    ensures Made(log + [r], eff + [e], t, k) <==>
              Made(log, eff, t, k) || (r.txid == t && e.Some? && e.value.creates && e.value.key == k)
  {
    var (l, f) := (log + [r], eff + [e]);
    if Made(log, eff, t, k) {
      var i :| 0 <= i < |log| && log[i].txid == t && eff[i].Some? && eff[i].value.creates && eff[i].value.key == k;
      assert l[i].txid == t && f[i].Some?;
    }
    if r.txid == t && e.Some? && e.value.creates && e.value.key == k {
      assert l[|log|].txid == t && f[|log|].Some?;
    }
  }

  /** A transaction without records has no writes, no undo and no root. */
  lemma {:induction false} NoRecords(log: seq<Record>, eff: Effects, t: TxId, k: Key)
    requires |log| == |eff| && forall i :: 0 <= i < |log| ==> log[i].txid != t
    ensures Writes(log, eff, t) == map[]
    ensures FirstTouch(log, t, k).None? && FirstUndo(log, t, k).None?
    ensures !HasBegin(log, t) && !HasEnd(log, t) && !Made(log, eff, t, k)
  {
    if log != [] {
      NoRecords(log[..|log| - 1], eff[..|log| - 1], t, k);
    }
  }

  lemma {:induction false} FirstBeforeAppend(u: seq<Entry>, e: Entry, k: Key)
    ensures FirstBefore(u + [e], k) ==
            if FirstBefore(u, k).Some? then FirstBefore(u, k) else if e.key == k then Some(e.before) else None
  {
    if u != [] {
      FirstBeforeAppend(u[1..], e, k);
      assert (u + [e])[1..] == u[1..] + [e];
    }
  }

  /** One more entry inverted: its key is now governed by it. */
  lemma FirstBeforeStep(u: seq<Entry>, todo: nat, k: Key)
    requires 0 < todo <= |u|
    ensures FirstBefore(u[todo - 1..], k) ==
            if u[todo - 1].key == k then Some(u[todo - 1].before) else FirstBefore(u[todo..], k)
  {
    assert u[todo - 1..][1..] == u[todo..];
  }

  /** Keys of a suffix are keys of the whole list. */
  lemma {:induction false} FirstBeforeSuffix(u: seq<Entry>, i: nat, k: Key)
    requires i <= |u|
    ensures FirstBefore(u[i..], k).Some? ==> FirstBefore(u, k).Some?
    ensures i < |u| ==> FirstBefore(u, u[i].key).Some?
  {
    if i > 0 {
      FirstBeforeSuffix(u[1..], i - 1, k);
      assert u[1..][i - 1..] == u[i..];
    } else {
      assert u[0..] == u;
    }
  }

  lemma ApplyAt(c: KV, w: map<Key, Option<Value>>, k: Key)
    ensures Get(Apply(c, w), k) == if k in w then w[k] else Get(c, k)
  {
  }

  lemma SetAt(m: KV, k: Key, v: Option<Value>, x: Key)
    ensures Get(Set(m, k, v), x) == if x == k then v else Get(m, x)
  {
  }

  // ------------------------------------------------------------ replay

  lemma ReplayAppend(c: KV, ops: seq<Op>, op: Op)
    ensures Replay(c, ops + [op]) ==
            var r := Replay(c, ops);
            if r.None? then None
            else match op
                 case ReadOp(k, v) => if Get(r.value, k) == v then r else None
                 case WriteOp(k, v) => Some(Set(r.value, k, v))
  {
    assert (ops + [op])[..|ops|] == ops;
  }

  lemma {:induction false} ReplayConcat(c: KV, a: seq<Op>, b: seq<Op>)
    requires Replay(c, a).Some?
    ensures Replay(c, a + b) == Replay(Replay(c, a).value, b)
    decreases |b|
  {
    if b == [] {
      assert a + b == a;
    } else {
      var n := |b| - 1;
      ReplayConcat(c, a, b[..n]);
      assert (a + b)[..|a + b| - 1] == a + b[..n];
    }
  }

  /** Replaying depends only on the keys it uses; other keys pass through. */
  lemma {:induction false} ReplayFrame(c: KV, d: KV, ops: seq<Op>)
    requires Replay(c, ops).Some?
    requires forall i :: 0 <= i < |ops| ==> Get(c, ops[i].key) == Get(d, ops[i].key)
    ensures Replay(d, ops).Some?
    ensures forall k :: Get(c, k) == Get(d, k) ==> Get(Replay(c, ops).value, k) == Get(Replay(d, ops).value, k)
    ensures forall k :: (forall i :: 0 <= i < |ops| ==> ops[i].key != k) ==> Get(Replay(d, ops).value, k) == Get(d, k)
  {
    if ops != [] {
      var n := |ops| - 1;
      ReplayFrame(c, d, ops[..n]);
      var (x, y) := (Replay(c, ops[..n]).value, Replay(d, ops[..n]).value);
      assert Get(c, ops[n].key) == Get(d, ops[n].key);
      if ops[n].WriteOp? {
        forall k ensures Get(Set(x, ops[n].key, ops[n].value), k)
          == (if k == ops[n].key then ops[n].value else Get(x, k))
                      && Get(Set(y, ops[n].key, ops[n].value), k)
                         == (if k == ops[n].key then ops[n].value else Get(y, k)) {
          SetAt(x, ops[n].key, ops[n].value, k);
          SetAt(y, ops[n].key, ops[n].value, k);
        }
      }
    }
  }
}
