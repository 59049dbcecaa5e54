/** Dropping unfinished groups is the same as never having started them: the pages
    redo rebuilds are those left by running the complete operations one after another,
    in the order in which they ended, however their records interleave in the log. */
module OpGroups {
  import opened Keys
  import opened Nodes
  import opened TxnLog
  import opened PageRedo

  /** Page `p` after transaction `t`'s records among those from `b` up to `n`. */
  function GroupOn(log: seq<Record>, first: nat, b: nat, n: nat, t: TxId, p: PageId, v: Version): Version
    requires n <= |log|
    decreases n
  {
    if n <= b then v
    else
      var w := GroupOn(log, first, b, n - 1, t, p, v);
      if log[n - 1].txid == t && OnPage(log[n - 1].body, p) then AfterRecord(w, log[n - 1].body, first + n - 1) else w
  }

  /** Page `p` after running whole groups in the order of their last records. A group
      is what its transaction logged since its previous one. */
  function Serial(log: seq<Record>, first: nat, n: nat, p: PageId, v0: Version): Version
    requires n <= |log|
    decreases n
  {
    if n == 0 then v0
    else
      var v := Serial(log, first, n - 1, p, v0);
      var t := log[n - 1].txid;
      if log[n - 1].opEnd then GroupOn(log, first, LastEnd(log[..n - 1], t), n, t, p, v) else v
  }

  /** One more record completes exactly what its transaction left open. */
  lemma ApplicableStep(log: seq<Record>, n: nat, i: nat)
    requires 0 < n <= |log| && i < n
    ensures Applicable(log[..n], i) <==>
              (i < n - 1 && Applicable(log[..n - 1], i)) || (log[n - 1].opEnd && log[i].txid == log[n - 1].txid)
  {
    var a, b := log[..n - 1], log[..n];
    if Applicable(b, i) {
      var j :| i <= j < |b| && b[j].txid == b[i].txid && b[j].opEnd;
      assert j < n - 1 ==> a[j] == b[j] && a[i] == b[i];
    }
    if i < n - 1 && Applicable(a, i) {
      var j :| i <= j < |a| && a[j].txid == a[i].txid && a[j].opEnd;
      assert b[j] == a[j];
    }
    if log[n - 1].opEnd && log[i].txid == log[n - 1].txid {
      assert b[n - 1].opEnd;
    }
  }

  lemma {:induction false} KeptSame(a: seq<Record>, b: seq<Record>, first: nat, n: nat, p: PageId, v0: Version)
    requires n <= |a| && a <= b
    requires forall i :: 0 <= i < n && OnPage(a[i].body, p) ==> (Applicable(a, i) <==> Applicable(b, i))
    ensures Kept(a, first, n, p, v0) == Kept(b, first, n, p, v0)
    decreases n
  {
    hide Applicable, AfterRecord;
    if n > 0 {
      KeptSame(a, b, first, n - 1, p, v0);
    }
  }

  lemma {:induction false} KeptStalls(log: seq<Record>, first: nat, f: nat, n: nat, p: PageId, v0: Version)
    requires f <= n <= |log|
    requires forall i :: f <= i < n && OnPage(log[i].body, p) ==> !Applicable(log, i)
    ensures Kept(log, first, n, p, v0) == Kept(log, first, f, p, v0)
    decreases n
  {
    hide Applicable, AfterRecord;
    if f < n {
      KeptStalls(log, first, f, n - 1, p, v0);
    }
  }

  lemma {:induction false} GroupSkips(log: seq<Record>, first: nat, b: nat, n: nat, t: TxId, p: PageId, v: Version)
    requires n <= |log|
    requires forall i :: b <= i < n && log[i].txid == t ==> !OnPage(log[i].body, p)
    ensures GroupOn(log, first, b, n, t, p, v) == v
    decreases n
  {
    hide AfterRecord;
    if b < n {
      GroupSkips(log, first, b, n - 1, t, p, v);
    }
  }

  /** While the group of `t` is open from record `f` on page `p`, nobody else writes
      that page. */
  lemma OnlyOwner(log: seq<Record>, n: nat, t: TxId, p: PageId, f: nat, j: nat)
    requires GroupsOrdered(log) && 0 < n <= |log| && LastEnd(log[..n - 1], t) <= f < j < n
    requires log[f].txid == t && OnPage(log[f].body, p) && OnPage(log[j].body, p)
    ensures log[j].txid == t
  {
  }

  /** From its first record on, the group's records are all the page gets. */
  lemma {:induction false} GroupTail(log: seq<Record>, first: nat, n: nat, m: nat, p: PageId, v0: Version, f: nat)
    requires GroupsOrdered(log) && 0 < n <= |log| && log[n - 1].opEnd
    requires var t := log[n - 1].txid;
             var start := LastEnd(log[..n - 1], t);
             && start <= f <= m <= n && f < n
             && log[f].txid == t && OnPage(log[f].body, p)
             && forall i :: start <= i < f && log[i].txid == t ==> !OnPage(log[i].body, p)
    ensures var t := log[n - 1].txid;
            Kept(log[..n], first, m, p, v0) ==
            GroupOn(log, first, LastEnd(log[..n - 1], t), m, t, p, Kept(log[..n], first, f, p, v0))
    decreases m
  {
    var t := log[n - 1].txid;
    var start := LastEnd(log[..n - 1], t);
    if m == f {
      GroupSkips(log, first, start, f, t, p, Kept(log[..n], first, f, p, v0));
    } else {
      GroupTail(log, first, n, m - 1, p, v0, f);
      hide GroupsOrdered, AfterRecord;
      ApplicableStep(log, n, m - 1);
      if OnPage(log[m - 1].body, p) && m - 1 > f {
        OnlyOwner(log, n, t, p, f, m - 1);
      }
    }
  }

  lemma FirstOfGroup(log: seq<Record>, start: nat, n: nat, t: TxId, p: PageId) returns (f: nat)
    requires start <= n <= |log|
    ensures start <= f <= n
    ensures f < n ==> log[f].txid == t && OnPage(log[f].body, p)
    ensures forall i :: start <= i < f && log[i].txid == t ==> !OnPage(log[i].body, p)
  {
    f := start;
    while f < n && !(log[f].txid == t && OnPage(log[f].body, p))
      invariant start <= f <= n
      invariant forall i :: start <= i < f && log[i].txid == t ==> !OnPage(log[i].body, p)
    {
      f := f + 1;
    }
  }

  /** What completing `t`'s group changes: its records from `start` on, nothing else. */
  lemma CompletedSet(log: seq<Record>, n: nat, i: nat)
    requires 0 < n <= |log| && log[n - 1].opEnd && i < n
    ensures var t := log[n - 1].txid;
            var start := LastEnd(log[..n - 1], t);
            && start <= n - 1
            && (Applicable(log[..n], i) <==> (i < n - 1 && Applicable(log[..n - 1], i)) || log[i].txid == t)
            && (i < n - 1 && log[i].txid == t ==> (Applicable(log[..n - 1], i) <==> i < start))
  {
    ApplicableStep(log, n, i);
    if i < n - 1 {
      ApplicableIsBeforeLastEnd(log[..n - 1], i);
    }
  }

  /** The record that ends a group applies it, whole, to the pages as they stand. */
  lemma GroupCompletes(log: seq<Record>, first: nat, n: nat, p: PageId, v0: Version)
    requires GroupsOrdered(log) && 0 < n <= |log| && log[n - 1].opEnd
    ensures var t := log[n - 1].txid;
            Kept(log[..n], first, n, p, v0) ==
            GroupOn(log, first, LastEnd(log[..n - 1], t), n, t, p, Kept(log[..n - 1], first, n - 1, p, v0))
  {
    hide GroupsOrdered, Applicable, AfterRecord, Kept, GroupOn, LastEnd;
    var t := log[n - 1].txid;
    var a, b := log[..n - 1], log[..n];
    var start := LastEnd(a, t);
    var f := FirstOfGroup(log, start, n, t, p);
    assert a <= b;
    forall i | 0 <= i < n ensures
        && (Applicable(b, i) <==> (i < n - 1 && Applicable(a, i)) || log[i].txid == t)
        && (i < n - 1 && log[i].txid == t ==> (Applicable(a, i) <==> i < start)) {
      CompletedSet(log, n, i);
    }
    if f < n {
      forall i | f <= i < n && OnPage(log[i].body, p) ensures log[i].txid == t {
        if f < i { OnlyOwner(log, n, t, p, f, i); }
      }
      GroupTail(log, first, n, n, p, v0, f);
      KeptStalls(a, first, f, n - 1, p, v0);
      KeptSame(a, b, first, f, p, v0);
    } else {
      GroupSkips(log, first, start, n, t, p, Kept(a, first, n - 1, p, v0));
      KeptSame(a, b, first, n - 1, p, v0);
      KeptStalls(b, first, n - 1, n, p, v0);
    }
  }

  /** A record that ends nothing is dropped for now. */
  lemma OpenRecordDropped(log: seq<Record>, first: nat, n: nat, p: PageId, v0: Version)
    requires 0 < n <= |log| && !log[n - 1].opEnd
    ensures Kept(log[..n], first, n, p, v0) == Kept(log[..n - 1], first, n - 1, p, v0)
  {
    hide Applicable, Kept;
    var a, b := log[..n - 1], log[..n];
    forall i | 0 <= i < n ensures Applicable(b, i) <==> (i < n - 1 && Applicable(a, i)) { ApplicableStep(log, n, i); }
    assert a <= b;
    KeptSame(a, b, first, n - 1, p, v0);
    KeptStalls(b, first, n - 1, n, p, v0);
  }

  /** Redo of the complete groups is serial execution of the complete operations, for
      every cut of the log and every page. */
  lemma {:induction false} KeptIsSerial(log: seq<Record>, first: nat, n: nat, p: PageId, v0: Version)
    requires GroupsOrdered(log) && n <= |log|
    ensures Kept(log[..n], first, n, p, v0) == Serial(log, first, n, p, v0)
    decreases n
  {
    hide GroupsOrdered, Kept, GroupOn, LastEnd;
    if n > 0 {
      KeptIsSerial(log, first, n - 1, p, v0);
      if log[n - 1].opEnd {
        GroupCompletes(log, first, n, p, v0);
      } else {
        OpenRecordDropped(log, first, n, p, v0);
      }
    } else {
      assert Kept(log[..0], first, 0, p, v0) == v0 by { KeptNone(log[..0], first, p, v0); }
    }
  }

  lemma KeptNone(log: seq<Record>, first: nat, p: PageId, v0: Version)
    ensures Kept(log, first, 0, p, v0) == v0
  {
  }
}
