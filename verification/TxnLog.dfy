/** What the write-ahead log means to transactions: which records count (complete
    operation groups), who lost (begun, never ended), what redo and undo make of a
    log, and which state the committed transactions alone would have left.

    Records carry no explicit LSN here: a record's place in the sequence is its
    order, and the sequence is the log since the last truncation. */
module TxnLog {
  import opened Keys
  import opened Nodes

  datatype Body =
    | Begin
    | Commit
    | Abort
    | Checkpoint
    | AllocPage(page: PageId)
    | RootChange(page: PageId)
    | PageImage(page: PageId, node: Node)
    | PutRec(page: PageId, key: Key, value: Value, before: Option<Value>)
    | DeleteRec(page: PageId, key: Key, before: Option<Value>)

  datatype Record = Record(txid: TxId, opEnd: bool, body: Body)

  /** What completing an operation does to the tree's map: recorded beside the record
      that ends its group. `creates` marks the very first insert, which makes the
      root leaf and logs no key record. */
  datatype Effect = Effect(key: Key, value: Option<Value>, creates: bool)

  type Effects = seq<Option<Effect>>

  type KV = map<Key, Value>

  function Get(m: KV, k: Key): Option<Value> { if k in m then Some(m[k]) else None }

  function Set(m: KV, k: Key, v: Option<Value>): KV { if v.Some? then m[k := v.value] else m - {k} }

  // ------------------------------------------------------------ groups, losers

  /** Record `i` belongs to a completed group: some later (or the same) record of its
      transaction ends an operation. */
  ghost predicate Applicable(log: seq<Record>, i: nat)
  {
    i < |log| && exists j :: i <= j < |log| && log[j].txid == log[i].txid && log[j].opEnd
  }

  ghost predicate HasBegin(log: seq<Record>, t: TxId) {
    exists i :: 0 <= i < |log| && log[i].txid == t && log[i].body.Begin?
  }

  ghost predicate HasEnd(log: seq<Record>, t: TxId)
  {
    exists i :: 0 <= i < |log| && log[i].txid == t && (log[i].body.Commit? || log[i].body.Abort?)
  }

  ghost predicate Loser(log: seq<Record>, t: TxId) { HasBegin(log, t) && !HasEnd(log, t) }

  lemma HasBeginAppend(log: seq<Record>, r: Record, t: TxId)
    ensures HasBegin(log + [r], t) <==> HasBegin(log, t) || (r.txid == t && r.body.Begin?)
  {
    var l := log + [r];
    if HasBegin(log, t) {
      var i :| 0 <= i < |log| && log[i].txid == t && log[i].body.Begin?;
      assert l[i].txid == t && l[i].body.Begin?;
    }
    if r.txid == t && r.body.Begin? {
      assert l[|log|].txid == t && l[|log|].body.Begin?;
    }
  }

  lemma HasEndAppend(log: seq<Record>, r: Record, t: TxId)
    ensures HasEnd(log + [r], t) <==> HasEnd(log, t) || (r.txid == t && (r.body.Commit? || r.body.Abort?))
  {
    var l := log + [r];
    if HasEnd(log, t) {
      var i :| 0 <= i < |log| && log[i].txid == t && (log[i].body.Commit? || log[i].body.Abort?);
      assert l[i].txid == t && (l[i].body.Commit? || l[i].body.Abort?);
    }
    if r.txid == t && (r.body.Commit? || r.body.Abort?) {
      assert l[|log|].txid == t && (l[|log|].body.Commit? || l[|log|].body.Abort?);
    }
  }

  // ------------------------------------------------------------ redo and undo

  function Redo(base: KV, eff: Effects): KV
  {
    if eff == [] then base
    else
      var m := Redo(base, eff[..|eff| - 1]);
      var e := eff[|eff| - 1];
      if e.Some? then Set(m, e.value.key, e.value.value) else m
  }

  /** Undoing this record writes key `k`: any put, or a delete with a before-image. */
  predicate Touches(r: Record, k: Key)
  {
    match r.body
    case PutRec(_, key, _, _) => key == k
    case DeleteRec(_, key, before) => key == k && before.Some?
    case _ => false
  }

  function BeforeOf(r: Record): Option<Value>
  {
    if r.body.PutRec? || r.body.DeleteRec? then r.body.before else None
  }

  function UndoRecord(r: Record, m: KV): KV
  {
    match r.body
    case PutRec(_, key, _, before) => Set(m, key, before)
    case DeleteRec(_, key, before) => if before.Some? then Set(m, key, before) else m
    case _ => m
  }

  ghost predicate Undone(log: seq<Record>, i: nat) { Applicable(log, i) && Loser(log, log[i].txid) }

  /** The undo pass: newest record first. */
  ghost function Undo(log: seq<Record>, n: nat, m: KV): KV
    requires n <= |log|
    decreases n
  {
    if n == 0 then m
    else Undo(log, n - 1, if Undone(log, n - 1) then UndoRecord(log[n - 1], m) else m)
  }

  /** The map when the pass has gone back to record `n`. */
  ghost function UndoneFrom(log: seq<Record>, n: nat, m: KV): KV
    requires n <= |log|
    decreases |log| - n
  {
    if n == |log| then m
    else
      var x := UndoneFrom(log, n + 1, m);
      if Undone(log, n) then UndoRecord(log[n], x) else x
  }

  /** What is left to undo then leads where the whole pass leads. */
  lemma {:induction false} UndoResumes(log: seq<Record>, n: nat, m: KV)
    requires n <= |log|
    ensures Undo(log, n, UndoneFrom(log, n, m)) == Undo(log, |log|, m)
    decreases |log| - n
  {
    hide Undone, UndoRecord;
    if n < |log| {
      UndoResumes(log, n + 1, m);
    }
  }

  ghost function Recovered(base: KV, log: seq<Record>, eff: Effects): KV
  {
    Undo(log, |log|, Redo(base, eff))
  }

  // ------------------------------------------------------------ committed state

  /** The last value transaction `t` gave each key it wrote. */
  function Writes(log: seq<Record>, eff: Effects, t: TxId): map<Key, Option<Value>>
    requires |log| == |eff|
  {
    if log == [] then map[]
    else
      var n := |log| - 1;
      var w := Writes(log[..n], eff[..n], t);
      if log[n].txid == t && eff[n].Some? then w[eff[n].value.key := eff[n].value.value] else w
  }

  ghost function Apply(m: KV, w: map<Key, Option<Value>>): KV
  {
    map k | k in m.Keys + w.Keys && (if k in w then w[k].Some? else true) :: if k in w then w[k].value else m[k]
  }

  /** The map left by the transactions committed in this log, in commit order. A
      commit record applies its transaction's writes; an operation outside any
      transaction commits by completing. */
  ghost function Committed(base: KV, log: seq<Record>, eff: Effects): KV
    requires |log| == |eff|
  {
    if log == [] then base
    else
      var n := |log| - 1;
      var (p, f) := (log[..n], eff[..n]);
      var c := Committed(base, p, f);
      if log[n].body.Commit? then Apply(c, Writes(p, f, log[n].txid))
      else if eff[n].Some? && !HasBegin(p, log[n].txid) then Set(c, eff[n].value.key, eff[n].value.value)
      else c
  }

  // ------------------------------------------------------------ first undo record of a key

  /** The before-image in the first record of `t` whose undo writes `k`. */
  function FirstTouch(log: seq<Record>, t: TxId, k: Key): Option<Option<Value>>
  {
    if log == [] then None
    else
      var n := |log| - 1;
      var f := FirstTouch(log[..n], t, k);
      if f.Some? then f
      else if log[n].txid == t && Touches(log[n], k) then Some(BeforeOf(log[n]))
      else None
  }

  /** The same among `t`'s completed groups. */
  function FirstUndo(log: seq<Record>, t: TxId, k: Key): Option<Option<Value>>
  {
    if log == [] then None
    else
      var n := |log| - 1;
      if log[n].txid == t && log[n].opEnd then FirstTouch(log, t, k) else FirstUndo(log[..n], t, k)
  }

  lemma {:induction false} FirstUndoIsFirstTouch(log: seq<Record>, t: TxId, k: Key)
    ensures FirstUndo(log, t, k).Some? ==> FirstTouch(log, t, k) == FirstUndo(log, t, k)
  {
    if log != [] {
      FirstUndoIsFirstTouch(log[..|log| - 1], t, k);
    }
  }

  /** `i` is the first index below `n` at which `t` touches `k`, restricted to `ok`. */
  ghost predicate IsFirst(log: seq<Record>, t: TxId, k: Key, i: nat)
  {
    && i < |log| && log[i].txid == t && Touches(log[i], k)
    && forall j :: 0 <= j < i ==> !(log[j].txid == t && Touches(log[j], k))
  }

  lemma {:induction false} FirstTouchIndex(log: seq<Record>, t: TxId, k: Key)
    ensures FirstTouch(log, t, k).None? ==> forall i :: 0 <= i < |log| ==> !(log[i].txid == t && Touches(log[i], k))
    ensures FirstTouch(log, t, k).Some? ==>
      exists i: nat :: IsFirst(log, t, k, i) && Some(BeforeOf(log[i])) == FirstTouch(log, t, k)
  {
    if log != [] {
      var n := |log| - 1;
      var p := log[..n];
      FirstTouchIndex(p, t, k);
      if FirstTouch(p, t, k).Some? {
        var i: nat :| IsFirst(p, t, k, i) && Some(BeforeOf(p[i])) == FirstTouch(p, t, k);
        assert IsFirst(log, t, k, i) && log[i] == p[i];
      } else if log[n].txid == t && Touches(log[n], k) {
        assert IsFirst(log, t, k, n);
      }
    }
  }

  /** The last place `t` completed an operation. */
  function LastEnd(log: seq<Record>, t: TxId): (e: nat)
    ensures e <= |log|
    ensures e > 0 ==> log[e - 1].txid == t && log[e - 1].opEnd
    ensures forall j :: e <= j < |log| ==> !(log[j].txid == t && log[j].opEnd)
  {
    if log == [] then 0
    else if log[|log| - 1].txid == t && log[|log| - 1].opEnd then |log|
    else LastEnd(log[..|log| - 1], t)
  }

  lemma {:induction false} FirstUndoIsPrefixTouch(log: seq<Record>, t: TxId, k: Key)
    ensures FirstUndo(log, t, k) == FirstTouch(log[..LastEnd(log, t)], t, k)
  {
    if log != [] {
      var n := |log| - 1;
      if log[n].txid == t && log[n].opEnd {
        assert log[..|log|] == log;
      } else {
        FirstUndoIsPrefixTouch(log[..n], t, k);
        assert log[..n][..LastEnd(log[..n], t)] == log[..LastEnd(log, t)];
      }
    }
  }

  /** A record of `t` counts exactly when it lies before `t`'s last completed end. */
  lemma ApplicableIsBeforeLastEnd(log: seq<Record>, i: nat)
    requires i < |log|
    ensures Applicable(log, i) <==> i < LastEnd(log, log[i].txid)
  {
    var e := LastEnd(log, log[i].txid);
    if i < e {
      assert log[e - 1].txid == log[i].txid && log[e - 1].opEnd;
    }
  }

  // ------------------------------------------------------------ what undo does to a key

  ghost predicate UndoneOn(log: seq<Record>, i: nat, k: Key) { i < |log| && Undone(log, i) && Touches(log[i], k) }

  ghost predicate OldestUndoneOn(log: seq<Record>, i: nat, k: Key)
  {
    UndoneOn(log, i, k) && forall j: nat :: j < i ==> !UndoneOn(log, j, k)
  }

  lemma UndoRecordAt(r: Record, m: KV, k: Key)
    ensures Get(UndoRecord(r, m), k) == if Touches(r, k) then BeforeOf(r) else Get(m, k)
  {
  }

  /** Undo going down from `n` leaves `k` as the oldest undone record on it says, or
      untouched when there is none. */
  lemma {:induction false} UndoAt(log: seq<Record>, n: nat, m: KV, k: Key)
    requires n <= |log|
    ensures (forall i: nat :: i < n ==> !UndoneOn(log, i, k)) ==> Get(Undo(log, n, m), k) == Get(m, k)
    ensures forall i: nat :: i < n && OldestUndoneOn(log, i, k) ==> Get(Undo(log, n, m), k) == BeforeOf(log[i])
    decreases n
  {
    hide Get, Touches, Undone, UndoRecord;
    if n > 0 {
      var r := log[n - 1];
      var m' := if Undone(log, n - 1) then UndoRecord(r, m) else m;
      UndoAt(log, n - 1, m', k);
      UndoRecordAt(r, m, k);
      assert UndoneOn(log, n - 1, k) <==> Undone(log, n - 1) && Touches(r, k);
      forall i: nat | i < n && OldestUndoneOn(log, i, k) ensures Get(Undo(log, n, m), k) == BeforeOf(log[i]) {
        if i == n - 1 {
          assert forall j: nat :: j < n - 1 ==> !UndoneOn(log, j, k);
        }
      }
    }
  }

  /** If `t` is the only loser with records on `k`, undo restores what `t`'s first
      completed record on `k` says was there before; with no such loser, nothing. */
  lemma UndoneKey(log: seq<Record>, m: KV, t: TxId, k: Key)
    requires Loser(log, t)
    requires forall u :: u != t && Loser(log, u) ==> FirstUndo(log, u, k).None?
    ensures Get(Undo(log, |log|, m), k) ==
            (if FirstUndo(log, t, k).Some? then FirstUndo(log, t, k).value else Get(m, k))
  {
    hide Get, Touches, Loser, Undo;
    UndoAt(log, |log|, m, k);
    forall i: nat | UndoneOn(log, i, k) ensures log[i].txid == t && i < LastEnd(log, t) {
      UndoneHasFirst(log, i, k);
      ApplicableIsBeforeLastEnd(log, i);
    }
    OldestOfLoser(log, t, k);
  }

  /** The first completed record of loser `t` on `k` is undone, and the earlier ones
      of `t` do not touch `k`. */
  lemma OldestOfLoser(log: seq<Record>, t: TxId, k: Key)
    requires Loser(log, t)
    requires forall i: nat :: UndoneOn(log, i, k) ==> log[i].txid == t && i < LastEnd(log, t)
    ensures FirstUndo(log, t, k).None? ==> forall i: nat :: !UndoneOn(log, i, k)
    ensures FirstUndo(log, t, k).Some? ==>
              exists i: nat :: i < |log| && OldestUndoneOn(log, i, k) && BeforeOf(log[i]) == FirstUndo(log, t, k).value
  {
    hide Touches, Loser;
    FirstUndoIsPrefixTouch(log, t, k);
    var e := LastEnd(log, t);
    var p := log[..e];
    FirstTouchIndex(p, t, k);
    if FirstUndo(log, t, k).Some? {
      var i: nat :| IsFirst(p, t, k, i) && Some(BeforeOf(p[i])) == FirstUndo(log, t, k);
      assert p[i] == log[i];
      ApplicableIsBeforeLastEnd(log, i);
      forall j: nat | j < i ensures !UndoneOn(log, j, k) {
        assert p[j] == log[j];
      }
      assert OldestUndoneOn(log, i, k);
    } else {
      forall i: nat ensures !UndoneOn(log, i, k) {
        if i < e { assert p[i] == log[i]; }
      }
    }
  }

  /** An undone record makes its transaction's first undo record of that key exist. */
  lemma UndoneHasFirst(log: seq<Record>, i: nat, k: Key)
    requires i < |log| && Undone(log, i) && Touches(log[i], k)
    ensures FirstUndo(log, log[i].txid, k).Some?
  {
    var t := log[i].txid;
    ApplicableIsBeforeLastEnd(log, i);
    FirstUndoIsPrefixTouch(log, t, k);
    var e := LastEnd(log, t);
    FirstTouchIndex(log[..e], t, k);
    assert log[..e][i] == log[i];
  }

  lemma UntouchedKey(log: seq<Record>, m: KV, k: Key)
    requires forall u :: Loser(log, u) ==> FirstUndo(log, u, k).None?
    ensures Get(Undo(log, |log|, m), k) == Get(m, k)
  {
    forall i: nat ensures !UndoneOn(log, i, k) {
      if UndoneOn(log, i, k) {
        UndoneHasFirst(log, i, k);
      }
    }
    UndoAt(log, |log|, m, k);
  }
}
