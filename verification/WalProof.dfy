/** Every step keeps the invariant of the page and log machine, and a crash in any
    reachable state, whatever it leaves of log, pages and metas, is recovered from. */
module WalProof {
  import opened Keys
  import opened Nodes
  import opened TxnLog
  import opened PageRedo
  import opened WalMachine

  // ------------------------------------------------------------ prefixes of a log

  lemma {:induction false} HistPrefix(a: seq<Record>, b: seq<Record>, first: nat, n: nat, p: PageId, v0: Version)
    requires a <= b && n <= |a|
    ensures Hist(a, first, n, p, v0) == Hist(b, first, n, p, v0)
    decreases n
  {
    hide AfterRecord;
    if n > 0 {
      HistPrefix(a, b, first, n - 1, p, v0);
    }
  }

  lemma ApplicableGrows(a: seq<Record>, b: seq<Record>, i: nat)
    requires a <= b && Applicable(a, i)
    ensures Applicable(b, i)
  {
    var j :| i <= j < |a| && a[j].txid == a[i].txid && a[j].opEnd;
    assert b[j] == a[j] && b[i] == a[i];
  }

  lemma OrderedPrefix(a: seq<Record>, b: seq<Record>)
    requires a <= b && GroupsOrdered(b)
    ensures GroupsOrdered(a)
  {
    forall i, j, p | 0 <= i < j < |a| && OnPage(a[i].body, p) && OnPage(a[j].body, p) && a[i].txid != a[j].txid
      ensures EndsBetween(a, i, j)
    {
      assert a[i] == b[i] && a[j] == b[j];
      assert OnPage(b[i].body, p) && OnPage(b[j].body, p);
      var e :| i <= e < j && e < |b| && b[e].txid == b[i].txid && b[e].opEnd;
      assert a[e] == b[e];
    }
  }

  /** Well-formedness of record `i` depends only on the log up to it. */
  lemma RecordOkPrefix(a: seq<Record>, b: seq<Record>, first: nat, i: nat, p: PageId, v0: Version)
    requires a <= b && i < |a|
    ensures RecordOk(a, first, i, p, v0) <==> RecordOk(b, first, i, p, v0)
  {
    hide Hist, AfterRecord, Fits;
    HistPrefix(a, b, first, i, p, v0);
    assert a[i] == b[i];
    assert forall j :: 0 <= j < i ==> a[j] == b[j];
  }

  lemma PageLogPrefix(a: seq<Record>, b: seq<Record>, first: nat, p: PageId, v0: Version)
    requires a <= b && PageLogOk(b, first, p, v0)
    ensures PageLogOk(a, first, p, v0)
  {
    OrderedPrefix(a, b);
    hide RecordOk, GroupsOrdered;
    forall i | 0 <= i < |a| ensures RecordOk(a, first, i, p, v0) {
      assert RecordOk(b, first, i, p, v0);
      RecordOkPrefix(a, b, first, i, p, v0);
    }
  }

  /** At a complete record, complete groups and all records agree on the page. */
  lemma KeptAtComplete(log: seq<Record>, first: nat, p: PageId, v0: Version, j: nat)
    requires GroupsOrdered(log) && j < |log| && OnPage(log[j].body, p) && Applicable(log, j)
    ensures Kept(log, first, j + 1, p, v0) == Hist(log, first, j + 1, p, v0)
  {
    hide AfterRecord, GroupsOrdered;
    KeptIsHist(log, first, j, p, v0, j);
  }

  /** What may be on disk for a durable log may be there for a longer one. */
  lemma DiskGrows(a: seq<Record>, b: seq<Record>, first: nat, p: PageId, v0: Version, d: Disk)
    requires a <= b && GroupsOrdered(b) && DiskOk(a, first, p, v0, d)
    ensures DiskOk(b, first, p, v0, d)
  {
    OrderedPrefix(a, b);
    hide GroupsOrdered, Kept, Hist, Applicable;
    if d == Readable(v0) {
    } else if d.Torn? {
      var j: nat :| IsCompleteImage(a, p, j);
      ApplicableGrows(a, b, j);
      assert IsCompleteImage(b, p, j);
    } else {
      var j: nat :| IsAt(a, first, p, v0, d, j);
      ApplicableGrows(a, b, j);
      KeptAtComplete(a, first, p, v0, j);
      KeptAtComplete(b, first, p, v0, j);
      HistPrefix(a, b, first, j + 1, p, v0);
      assert IsAt(b, first, p, v0, d, j);
    }
  }

  // ------------------------------------------------------------ appending one record

  lemma AppendOrdered(log: seq<Record>, r: Record)
    requires GroupsOrdered(log)
    requires forall i, p :: 0 <= i < |log| && OnPage(log[i].body, p) && OnPage(r.body, p) && log[i].txid != r.txid ==>
             Applicable(log, i)
    ensures GroupsOrdered(log + [r])
  {
    var l := log + [r];
    forall i, j, p | 0 <= i < j < |l| && OnPage(l[i].body, p) && OnPage(l[j].body, p) && l[i].txid != l[j].txid
      ensures EndsBetween(l, i, j)
    {
      assert l[i] == log[i];
      if j < |log| {
        assert l[j] == log[j];
        assert OnPage(log[i].body, p) && OnPage(log[j].body, p);
        var e :| i <= e < j && e < |log| && log[e].txid == log[i].txid && log[e].opEnd;
        assert l[e] == log[e];
      } else {
        var e :| i <= e < |log| && log[e].txid == log[i].txid && log[e].opEnd;
        assert l[e] == log[e];
      }
    }
  }

  lemma AppendPageLog(log: seq<Record>, r: Record, first: nat, p: PageId, v0: Version)
    requires PageLogOk(log, first, p, v0) && GroupsOrdered(log + [r])
    requires RecordOk(log + [r], first, |log|, p, v0)
    ensures PageLogOk(log + [r], first, p, v0)
  {
    hide GroupsOrdered, RecordOk;
    var l := log + [r];
    forall i | 0 <= i < |l| ensures RecordOk(l, first, i, p, v0) {
      if i < |log| {
        assert RecordOk(log, first, i, p, v0);
        RecordOkPrefix(log, l, first, i, p, v0);
      }
    }
  }

  /** A record elsewhere changes nothing about page `p`. */
  lemma AppendElsewhere(log: seq<Record>, r: Record, first: nat, p: PageId, v0: Version)
    requires PageLogOk(log, first, p, v0) && GroupsOrdered(log + [r]) && !OnPage(r.body, p)
    ensures PageLogOk(log + [r], first, p, v0)
    ensures Hist(log + [r], first, |log| + 1, p, v0) == Hist(log, first, |log|, p, v0)
  {
    hide GroupsOrdered, PageLogOk;
    HistPrefix(log, log + [r], first, |log|, p, v0);
    assert RecordOk(log + [r], first, |log|, p, v0);
    AppendPageLog(log, r, first, p, v0);
  }

  lemma TouchedGrows(log: seq<Record>, r: Record, p: PageId)
    ensures HasImage(log, p) ==> HasImage(log + [r], p)
    ensures Touched(log, p) ==> Touched(log + [r], p)
    ensures OnPage(r.body, p) ==> Touched(log + [r], p)
    ensures OnPage(r.body, p) && r.body.PageImage? ==> HasImage(log + [r], p)
  {
    var l := log + [r];
    assert l[|log|] == r;
    if HasImage(log, p) {
      var j :| 0 <= j < |log| && log[j].body.PageImage? && log[j].body.page == p;
      assert l[j] == log[j];
    }
    if Touched(log, p) {
      var j :| 0 <= j < |log| && OnPage(log[j].body, p);
      assert l[j] == log[j];
    }
  }

  lemma AppendRoot(log: seq<Record>, r: Record, root: Option<PageId>)
    ensures RootAfter(log + [r], root) == if r.body.RootChange? then Some(r.body.page) else RootAfter(log, root)
    ensures RootsEnd(log) && (r.body.RootChange? ==> r.opEnd) ==> RootsEnd(log + [r])
  {
    assert (log + [r])[..|log|] == log;
  }

  /** What is left unfinished after appending `r`: what was, less a group `r` ends. */
  lemma AppendOpen(log: seq<Record>, r: Record, i: nat)
    requires i < |log| + 1 && !Applicable(log + [r], i)
    ensures i < |log| ==> !Applicable(log, i)
    ensures !(r.opEnd && (log + [r])[i].txid == r.txid)
  {
    var l := log + [r];
    if i < |log| && Applicable(log, i) {
      ApplicableGrows(log, l, i);
    }
    assert l[|log|] == r;
  }

  // ------------------------------------------------------------ pages nobody holds

  /** The last record on a page. */
  lemma {:induction false} LastOn(log: seq<Record>, first: nat, n: nat, p: PageId, v0: Version) returns (j: nat)
    requires n <= |log| && exists i :: 0 <= i < n && OnPage(log[i].body, p)
    ensures j < n && OnPage(log[j].body, p) && Hist(log, first, n, p, v0) == Hist(log, first, j + 1, p, v0)
    decreases n
  {
    hide AfterRecord;
    if OnPage(log[n - 1].body, p) {
      j := n - 1;
    } else {
      j := LastOn(log, first, n - 1, p, v0);
    }
  }

  /** A page whose records are all complete is, as it stands, one redo could find. */
  lemma SettledPage(log: seq<Record>, first: nat, p: PageId, v0: Version)
    requires PageLogOk(log, first, p, v0)
    requires forall i :: 0 <= i < |log| && OnPage(log[i].body, p) ==> Applicable(log, i)
    ensures DiskOk(log, first, p, v0, Readable(Hist(log, first, |log|, p, v0)))
    ensures Touched(log, p) ==> DiskOk(log, first, p, v0, Torn)
  {
    hide Hist, Applicable, GroupsOrdered, Kept;
    if Touched(log, p) {
      var j := LastOn(log, first, |log|, p, v0);
      KeptAtComplete(log, first, p, v0, j);
      assert IsAt(log, first, p, v0, Readable(Hist(log, first, |log|, p, v0)), j);
      assert RecordOk(log, first, j, p, v0);
      if log[j].body.PageImage? {
        assert IsCompleteImage(log, p, j);
      } else {
        var i :| 0 <= i < j && log[i].body.PageImage? && log[i].body.page == p;
        assert IsCompleteImage(log, p, i);
      }
    } else {
      UntouchedHist(log, first, |log|, p, v0);
    }
  }

  lemma {:induction false} UntouchedHist(log: seq<Record>, first: nat, n: nat, p: PageId, v0: Version)
    requires n <= |log| && !Touched(log, p)
    ensures Hist(log, first, n, p, v0) == v0
    decreases n
  {
    if n > 0 {
      UntouchedHist(log, first, n - 1, p, v0);
    }
  }

  // ------------------------------------------------------------ steps that only move bookkeeping

  /** Pages keep their invariant when neither log nor contents change. */
  lemma SamePages(s: State, s': State, p: PageId)
    requires s.durable <= |s.log| && s'.durable <= |s'.log| && PageInv(s, p)
    requires s'.log == s.log && s'.first == s.first && s'.cur == s.cur && s'.v0 == s.v0 && s'.imaged == s.imaged
    requires s'.dirty == s.dirty && s'.latest == s.latest && s'.numPages == s.numPages && s'.last == s.last
    ensures PageInv(s', p)
  {
    hide Hist, PageLogOk;
  }

  /** So does the file, when more of the log becomes durable. */
  lemma SameFile(s: State, s': State, p: PageId)
    requires s.durable <= s'.durable <= |s'.log| && s.durable <= |s.log| && s.log <= s'.log && FileInv(s, p)
             && GroupsOrdered(s'.log)
    requires s'.first == s.first && s'.cur == s.cur && s'.v0 == s.v0
    requires s'.latest == s.latest && s'.file == s.file && s'.numPages == s.numPages && s'.last == s.last
    requires s'.ck.Idle? || s'.ck.Flushing? || !(s.ck.Idle? || s.ck.Flushing?)
    ensures FileInv(s', p)
  {
    hide GroupsOrdered;
    var a, b := s.log[..s.durable], s'.log[..s'.durable];
    assert a <= b;
    OrderedPrefix(b, s'.log);
    if p < s.numPages {
      DiskGrows(a, b, s.first, p, At(s.v0, p), Readable(At(s.latest, p)));
    }
    if p < s.last.numPages {
      forall d | d in MayFind(s'.file, p) ensures DiskOk(b, s.first, p, At(s.v0, p), d) {
        DiskGrows(a, b, s.first, p, At(s.v0, p), d);
      }
    }
  }

  lemma SomePage(s: State)
    requires Inv(s)
    ensures GroupsOrdered(s.log)
  {
    assert PageInv(s, 0);
  }

  lemma StepQuiet(s: State, s': State, step: Step)
    requires Inv(s) && Next(s, s', step)
    requires step.OpenGroup? || step.Hold? || step.FlushLog? || step.CkStart? || step.CkStop? || step.CkMeta?
             || step.CkMetaSync?
    ensures Inv(s')
  {
    QuietGlobal(s, s', step);
    SomePage(s);
    hide GlobalInv, PageInv, FileInv, OpenInv, GroupsOrdered;
    forall p ensures PageInv(s', p) {
      assert PageInv(s, p);
      SamePages(s, s', p);
    }
    forall p ensures FileInv(s', p) {
      assert FileInv(s, p);
      SameFile(s, s', p);
    }
    forall i ensures OpenInv(s', i) {
      assert OpenInv(s, i);
      QuietOpen(s, s', step, i);
    }
  }

  lemma QuietOpen(s: State, s': State, step: Step, i: nat)
    requires OpenInv(s, i) && Next(s, s', step)
    requires step.OpenGroup? || step.Hold? || step.FlushLog? || step.CkStart? || step.CkStop? || step.CkMeta?
             || step.CkMetaSync?
    ensures OpenInv(s', i)
  {
    hide Applicable;
  }

  lemma QuietGlobal(s: State, s': State, step: Step)
    requires GlobalInv(s) && Next(s, s', step)
    requires step.OpenGroup? || step.Hold? || step.FlushLog? || step.CkStart? || step.CkStop? || step.CkMeta?
             || step.CkMetaSync?
    ensures GlobalInv(s')
    ensures s.durable <= s'.durable <= |s'.log| && s'.log == s.log
    ensures s'.ck.Idle? || s'.ck.Flushing? || !(s.ck.Idle? || s.ck.Flushing?)
  {
    hide RootAfter, RootsEnd, MetasOk;
    if step.CkMeta? || step.CkMetaSync? {
      QuietMetas(s, s', step);
    } else {
      QuietElse(s, s', step);
    }
  }

  lemma QuietElse(s: State, s': State, step: Step)
    requires GlobalInv(s) && Next(s, s', step)
    requires step.OpenGroup? || step.Hold? || step.FlushLog? || step.CkStart? || step.CkStop?
    ensures MetasOk(s')
  {
    hide RootAfter, RootsEnd;
  }

  /** Writing the new meta leaves the slot of the last checkpoint alone. */
  lemma QuietMetas(s: State, s': State, step: Step)
    requires GlobalInv(s) && Next(s, s', step) && (step.CkMeta? || step.CkMetaSync?)
    ensures MetasOk(s')
  {
    hide RootAfter, RootsEnd;
    var m := NewMeta(s);
    assert m.gen == s.last.gen + 1;
  }

  // ------------------------------------------------------------ appending

  lemma StepNewPage(s: State, s': State, t: TxId)
    requires Inv(s) && DoNewPage(s, s', t)
    ensures Inv(s')
  {
    hide RootAfter, RootsEnd, Hist, PageLogOk, Applicable, DiskOk;
    forall p ensures PageInv(s', p) {
      assert PageInv(s, p);
    }
    forall p ensures FileInv(s', p) {
      assert FileInv(s, p);
      assert PageInv(s, p);
      if p == s.numPages {
        ZeroedOnDisk(s.log[..s.durable], s.first, p, At(s.v0, p));
      }
    }
    forall i ensures OpenInv(s', i) {
      assert OpenInv(s, i);
    }
  }

  lemma ZeroedOnDisk(log: seq<Record>, first: nat, p: PageId, v0: Version)
    ensures DiskOk(log, first, p, v0, Readable(v0))
  {
  }

  /** Pages are held by one group at a time, so groups do not overlap on a page. */
  lemma HoldersOrder(s: State, r: Record)
    requires Inv(s)
    requires forall p :: OnPage(r.body, p) ==> r.txid in s.ops && p in s.ops[r.txid]
    ensures GroupsOrdered(s.log + [r])
  {
    SomePage(s);
    hide PageInv, FileInv, GroupsOrdered, Applicable;
    forall i, p | 0 <= i < |s.log| && OnPage(s.log[i].body, p) && OnPage(r.body, p) && s.log[i].txid != r.txid
      ensures Applicable(s.log, i)
    {
      assert OpenInv(s, i);
    }
    AppendOrdered(s.log, r);
  }

  /** A page other than those the record is about. */
  lemma OtherPage(s: State, s': State, r: Record, p: PageId)
    requires s.durable <= |s.log| && s'.durable <= |s'.log| && PageInv(s, p) && !OnPage(r.body, p)
    requires s'.log == s.log + [r] && GroupsOrdered(s'.log) && s'.first == s.first && At(s'.cur, p) == At(s.cur, p)
    requires s'.v0 == s.v0 && (p in s'.imaged <==> p in s.imaged) && (p in s'.dirty <==> p in s.dirty)
    requires s'.latest == s.latest && s'.numPages == s.numPages && s'.last == s.last
    ensures PageInv(s', p)
  {
    hide Hist, PageLogOk, GroupsOrdered;
    AppendElsewhere(s.log, r, s.first, p, At(s.v0, p));
    TouchedGrows(s.log, r, p);
  }

  /** The file does not notice an append. */
  lemma AppendFile(s: State, s': State, r: Record, p: PageId)
    requires s.durable <= |s.log| && FileInv(s, p) && s.ck.Idle? && s'.ck.Idle?
    requires s'.log == s.log + [r] && s'.durable == s.durable && s'.first == s.first && s'.v0 == s.v0
    requires s'.latest == s.latest && s'.file == s.file && s'.numPages == s.numPages && s'.last == s.last
    ensures FileInv(s', p)
  {
    hide DiskOk;
    assert s'.log[..s.durable] == s.log[..s.durable];
  }

  /** The record `DoLogPage` writes is well formed, and makes of the page what the
      page became. */
  lemma LoggedRecord(log: seq<Record>, first: nat, p: PageId, v0: Version, r: Record)
    requires OnPage(r.body, p)
    requires var v := Hist(log, first, |log|, p, v0);
             !r.body.PageImage? ==>
               HasImage(log, p) && IsLeafNode(v.node) && Sorted(v.node.value.keys)
               && Fits(AfterRecord(v, r.body, first + |log|).node.value)
    ensures RecordOk(log + [r], first, |log|, p, v0)
    ensures Hist(log + [r], first, |log| + 1, p, v0) == AfterRecord(Hist(log, first, |log|, p, v0), r.body,
            first + |log|)
  {
    hide Sorted, Fits, LeafWrite, LeafErase;
    var l := log + [r];
    assert l[|log|] == r;
    HistPrefix(log, l, first, |log|, p, v0);
    if !r.body.PageImage? {
      var j :| 0 <= j < |log| && log[j].body.PageImage? && log[j].body.page == p;
      assert l[j] == log[j];
    }
  }

  lemma LoggedPage(s: State, s': State, t: TxId, p: PageId, b: Body, end: bool)
    requires s.durable <= |s.log| && PageInv(s, p) && p < s.numPages && DoLogPage(s, s', t, p, b, end)
             && GroupsOrdered(s'.log)
    ensures s'.durable <= |s'.log| && PageInv(s', p)
  {
    hide GroupsOrdered, Sorted, Fits, AfterRecord, Hist, RecordOk, PageLogOk, HasImage, Touched;
    var r := Record(t, end, b);
    var v0 := At(s.v0, p);
    TouchedGrows(s.log, r, p);
    LoggedRecord(s.log, s.first, p, v0, r);
    AppendPageLog(s.log, r, s.first, p, v0);
  }

  lemma AppendOpenInv(s: State, s': State, r: Record, i: nat)
    requires OpenInv(s, i) && s'.log == s.log + [r]
    requires s'.ops == (if r.opEnd then s.ops - {r.txid} else s.ops)
    requires r.opEnd || (r.txid in s.ops && forall p :: OnPage(r.body, p) ==> p in s.ops[r.txid])
    ensures OpenInv(s', i)
  {
    if i < |s'.log| && !Applicable(s'.log, i) {
      AppendOpen(s.log, r, i);
    }
  }

  lemma LogPageGlobal(s: State, s': State, t: TxId, p: PageId, b: Body, end: bool)
    requires GlobalInv(s) && DoLogPage(s, s', t, p, b, end)
    ensures GlobalInv(s') && p < s.numPages
  {
    AppendRoot(s.log, Record(t, end, b), s.last.root);
    hide RootAfter, RootsEnd, Fits, AfterRecord;
  }

  lemma StepLogPage(s: State, s': State, t: TxId, p: PageId, b: Body, end: bool)
    requires Inv(s) && DoLogPage(s, s', t, p, b, end)
    ensures Inv(s')
  {
    hide FileInv, OpenInv, GroupsOrdered, Fits, AfterRecord, Sorted;
    var r := Record(t, end, b);
    LogPageGlobal(s, s', t, p, b, end);
    HoldersOrder(s, r);
    assert PageInv(s, p);
    LoggedPage(s, s', t, p, b, end);
    hide GlobalInv, PageInv;
    assert s.durable <= |s.log| && s'.durable <= |s'.log| by { LogPageBounds(s, s', t, p, b, end); }
    forall q ensures PageInv(s', q) {
      assert PageInv(s, q);
      if q != p { OtherPage(s, s', r, q); }
    }
    forall q ensures FileInv(s', q) {
      assert FileInv(s, q);
      AppendFile(s, s', r, q);
    }
    forall i ensures OpenInv(s', i) {
      assert OpenInv(s, i);
      AppendOpenInv(s, s', r, i);
    }
  }

  lemma LogPageBounds(s: State, s': State, t: TxId, p: PageId, b: Body, end: bool)
    requires GlobalInv(s) && DoLogPage(s, s', t, p, b, end)
    ensures s.durable <= |s.log| && s'.durable <= |s'.log|
  {
  }

  lemma LogOtherGlobal(s: State, s': State, t: TxId, b: Body, end: bool)
    requires GlobalInv(s) && DoLogOther(s, s', t, b, end)
    ensures GlobalInv(s') && s.durable <= |s.log| && s'.durable <= |s'.log|
  {
    AppendRoot(s.log, Record(t, end, b), s.last.root);
    hide RootAfter, RootsEnd;
  }

  lemma StepLogOther(s: State, s': State, t: TxId, b: Body, end: bool)
    requires Inv(s) && DoLogOther(s, s', t, b, end)
    ensures Inv(s')
  {
    var r := Record(t, end, b);
    LogOtherGlobal(s, s', t, b, end);
    HoldersOrder(s, r);
    hide GlobalInv, PageInv, FileInv, OpenInv, GroupsOrdered;
    forall q ensures PageInv(s', q) {
      assert PageInv(s, q);
      OtherPage(s, s', r, q);
    }
    forall q ensures FileInv(s', q) {
      assert FileInv(s, q);
      AppendFile(s, s', r, q);
    }
    forall i ensures OpenInv(s', i) {
      assert OpenInv(s, i);
      AppendOpenInv(s, s', r, i);
    }
  }

  lemma CkMarkGlobal(s: State, s': State)
    requires GlobalInv(s) && Next(s, s', CkMark)
    ensures GlobalInv(s') && s.durable <= |s.log| && s'.durable <= |s'.log| && s.durable == |s.log|
  {
    AppendRoot(s.log, Record(0, true, Checkpoint), s.last.root);
    hide RootAfter, RootsEnd;
  }

  lemma StepCkMark(s: State, s': State)
    requires Inv(s) && Next(s, s', CkMark)
    ensures Inv(s')
  {
    var r := Record(0, true, Checkpoint);
    CkMarkGlobal(s, s');
    HoldersOrder(s, r);
    assert s.ops == map[];
    hide GlobalInv, PageInv, FileInv, OpenInv, GroupsOrdered;
    forall q ensures PageInv(s', q) {
      assert PageInv(s, q);
      OtherPage(s, s', r, q);
    }
    forall q ensures FileInv(s', q) {
      assert FileInv(s, q);
      SameFile(s, s', q);
    }
    forall i ensures OpenInv(s', i) {
      assert OpenInv(s, i);
      assert s'.ops == s.ops - {0};
      AppendOpenInv(s, s', r, i);
    }
  }

  // ------------------------------------------------------------ write-back and checkpoint

  /** A page nobody holds has only complete records. */
  lemma UnheldComplete(s: State, p: PageId)
    requires Inv(s) && Unheld(s, p)
    ensures forall i :: 0 <= i < |s.log| && OnPage(s.log[i].body, p) ==> Applicable(s.log, i)
  {
    hide GlobalInv, PageInv, FileInv, Applicable;
    forall i | 0 <= i < |s.log| && OnPage(s.log[i].body, p) ensures Applicable(s.log, i) {
      assert OpenInv(s, i);
    }
  }

  lemma WriteBackFile(s: State, s': State, p: PageId)
    requires Inv(s) && DoWriteBack(s, s', p)
    ensures FileInv(s', p)
  {
    assert PageInv(s, p) && FileInv(s, p);
    UnheldComplete(s, p);
    assert s.log[..|s.log|] == s.log;
    hide Inv, OpenInv, Applicable, Hist, RecordOk, GroupsOrdered;
    var v0 := At(s.v0, p);
    SettledPage(s.log, s.first, p, v0);
    if p < s.last.numPages {
      forall d | d in MayFind(s'.file, p) ensures DiskOk(s.log, s.first, p, v0, d) {
        if d in MayFind(s.file, p) {
          DiskGrows(s.log[..s.durable], s.log, s.first, p, v0, d);
        }
      }
    }
  }

  lemma StepWriteBack(s: State, s': State, p: PageId)
    requires Inv(s) && DoWriteBack(s, s', p)
    ensures Inv(s')
  {
    WriteBackFile(s, s', p);
    SomePage(s);
    assert s'.log == s.log && s'.durable == |s.log|;
    assert GlobalInv(s') by { hide PageInv, FileInv, OpenInv, RootAfter, RootsEnd, GroupsOrdered, Unheld; }
    hide RootAfter, RootsEnd, Hist, PageLogOk, Applicable, DiskOk, GroupsOrdered, Unheld;
    forall q ensures PageInv(s', q) {
      assert PageInv(s, q);
    }
    forall q ensures FileInv(s', q) {
      assert FileInv(s, q);
      if q != p { WriteBackOther(s, s', p, q); }
    }
    forall i ensures OpenInv(s', i) {
      assert OpenInv(s, i);
    }
  }

  lemma WriteBackOther(s: State, s': State, p: PageId, q: PageId)
    requires s.durable <= |s.log| && FileInv(s, q) && DoWriteBack(s, s', p) && q != p && GroupsOrdered(s.log)
    ensures FileInv(s', q)
  {
    hide GroupsOrdered, Unheld, DiskOk;
    var mid := s'.(latest := s.latest, file := s.file, dirty := s.dirty);
    SameFile(s, mid, q);
    assert FileInv(mid, q);
  }

  lemma StepCkSync(s: State, s': State)
    requires Inv(s) && DoCkSync(s, s')
    ensures Inv(s')
  {
    assert GlobalInv(s') by { hide PageInv, FileInv, OpenInv, RootAfter, RootsEnd; }
    hide RootAfter, RootsEnd, Hist, PageLogOk, Applicable, DiskOk;
    forall p ensures PageInv(s', p) {
      assert PageInv(s, p);
    }
    forall p ensures FileInv(s', p) {
      assert FileInv(s, p) && PageInv(s, p);
      assert MayFind(s'.file, p) == if p in s.file then {Readable(At(s.latest, p))} else {};
      assert s.last.numPages <= s.numPages;
    }
    forall i ensures OpenInv(s', i) {
      assert OpenInv(s, i);
    }
  }

  lemma EmptyPageLog(first: nat, p: PageId, v: Version)
    requires v.lsn < first
    ensures PageLogOk([], first, p, v)
  {
  }

  lemma {:induction false} HistLsn(log: seq<Record>, first: nat, n: nat, p: PageId, v0: Version)
    requires n <= |log| && v0.lsn < first
    ensures Hist(log, first, n, p, v0).lsn < first + n
    decreases n
  {
    if n > 0 {
      HistLsn(log, first, n - 1, p, v0);
    }
  }

  lemma TruncateGlobal(s: State, s': State)
    requires GlobalInv(s) && DoCkTruncate(s, s')
    ensures GlobalInv(s')
  {
    hide RootsEnd;
    assert s'.last.gen == s.last.gen + 1;
    TruncateMetas(s, s');
    assert RootsEnd(s'.log) by { EmptyRoots(); }
  }

  lemma EmptyRoots()
    ensures RootsEnd([])
  {
  }

  lemma TruncateMetas(s: State, s': State)
    requires GlobalInv(s) && DoCkTruncate(s, s')
    ensures MetasOk(s')
  {
    hide RootsEnd, RootAfter;
    var g := s.last.gen;
    assert Slot(s', s'.last.gen) == Slot(s, g + 1);
    assert Slot(s', s'.last.gen + 1) == Slot(s, g);
  }

  lemma StepCkTruncate(s: State, s': State)
    requires Inv(s) && DoCkTruncate(s, s')
    ensures Inv(s')
  {
    TruncateGlobal(s, s');
    hide Hist, Applicable, RootAfter, RootsEnd;
    forall p ensures PageInv(s', p) {
      assert PageInv(s, p);
      TruncatePage(s, s', p);
    }
    hide PageLogOk;
    forall p ensures FileInv(s', p) {
      assert FileInv(s, p) && PageInv(s, p);
      ZeroedOnDisk([], s'.first, p, At(s'.v0, p));
      hide DiskOk;
      assert s'.log[..0] == [];
    }
  }

  lemma TruncatePage(s: State, s': State, p: PageId)
    requires GlobalInv(s) && GlobalInv(s') && PageInv(s, p) && DoCkTruncate(s, s')
    ensures PageInv(s', p)
  {
    hide RootAfter, RootsEnd, RecordOk, GroupsOrdered;
    HistLsn(s.log, s.first, |s.log|, p, At(s.v0, p));
    EmptyPageLog(s'.first, p, At(s'.v0, p));
    hide PageLogOk;
  }

  // ------------------------------------------------------------ every run

  lemma NextInv(s: State, s': State, step: Step)
    requires Inv(s) && Next(s, s', step)
    ensures Inv(s')
  {
    hide Inv;
    match step
    case NewPage(t) => StepNewPage(s, s', t);
    case LogPage(t, p, b, end) => StepLogPage(s, s', t, p, b, end);
    case LogOther(t, b, end) => StepLogOther(s, s', t, b, end);
    case WriteBack(p) => StepWriteBack(s, s', p);
    case CkSync => StepCkSync(s, s');
    case CkMark => StepCkMark(s, s');
    case CkTruncate => StepCkTruncate(s, s');
    case _ => StepQuiet(s, s', step);
  }

  lemma InitInv(s: State)
    requires Init(s)
    ensures Inv(s)
  {
    EmptyRoots();
    forall p ensures PageInv(s, p) {
      EmptyPageLog(s.first, p, At(s.v0, p));
    }
    forall p ensures FileInv(s, p) {
      ZeroedOnDisk([], s.first, p, At(s.v0, p));
      assert s.log[..0] == [];
    }
  }

  /** A run: each state follows from the one before by some step. */
  ghost predicate Run(states: seq<State>, steps: seq<Step>)
  {
    && |states| == |steps| + 1 && Init(states[0])
    && forall i :: 0 <= i < |steps| ==> Next(states[i], states[i + 1], steps[i])
  }

  lemma {:induction false} RunInv(states: seq<State>, steps: seq<Step>, n: nat)
    requires Run(states, steps) && n < |states|
    ensures Inv(states[n])
    decreases n
  {
    hide Inv, Next, Init;
    if n == 0 {
      InitInv(states[0]);
    } else {
      RunInv(states, steps, n - 1);
      assert Next(states[n - 1], states[n], steps[n - 1]);
      NextInv(states[n - 1], states[n], steps[n - 1]);
    }
  }

  // ------------------------------------------------------------ crashes

  lemma PageParts(s: State, p: PageId)
    requires Inv(s)
    ensures PageInv(s, p) && FileInv(s, p) && s.durable <= |s.log|
  {
    hide PageInv, FileInv, OpenInv, MetasOk, RootAfter, RootsEnd;
  }

  /** The write-ahead rule with whole groups: a page LSN found in the data file names a
      record whose group is in the durable log up to and including its last record. */
  lemma WriteAhead(s: State, p: PageId, v: Version)
    requires Inv(s) && v.lsn >= s.first
    requires (p < s.numPages && v == At(s.latest, p)) || (p < s.last.numPages && Readable(v) in MayFind(s.file, p))
    ensures var d := s.log[..s.durable];
            && v.lsn - s.first < |d| && OnPage(d[v.lsn - s.first].body, p) && Applicable(d, v.lsn - s.first)
            && v == Hist(s.log, s.first, v.lsn - s.first + 1, p, At(s.v0, p))
  {
    hide Inv, GlobalInv, OpenInv, RecordOk, GroupsOrdered, Hist, Kept, Applicable;
    PageParts(s, p);
    var d := s.log[..s.durable];
    var v0 := At(s.v0, p);
    PageLogPrefix(d, s.log, s.first, p, v0);
    var j: nat :| IsAt(d, s.first, p, v0, Readable(v), j);
    KeptRecordLsn(d, s.first, j, p, v0);
    KeptAtComplete(d, s.first, p, v0, j);
    HistPrefix(d, s.log, s.first, j + 1, p, v0);
  }

  /** Whatever the crash leaves of the two metas, recovery starts from the last complete
      checkpoint or from the one just written. */
  lemma MetaChoice(s: State, c: Crash)
    requires GlobalInv(s) && MayLeave(s, c)
    ensures Choose(c.even, c.odd) == Some(s.last) ||
            ((s.ck.MetaWritten? || s.ck.MetaSynced?) && Choose(c.even, c.odd) == Some(s.ck.m))
    ensures s.ck.MetaSynced? ==> Choose(c.even, c.odd) == Some(s.ck.m)
  {
    hide RootAfter, RootsEnd;
    assert Slot(s, s.last.gen) == {GoodMeta(s.last)};
    if s.last.gen % 2 == 0 {
      assert c.even == GoodMeta(s.last);
    } else {
      assert c.odd == GoodMeta(s.last);
    }
  }

  /** Every page a crash leaves is one redo can start from. */
  lemma CrashLeaves(s: State, c: Crash, p: PageId)
    requires Inv(s) && MayLeave(s, c)
    ensures PageLogOk(s.log[..c.n], s.first, p, At(s.v0, p))
    ensures DiskOk(s.log[..c.n], s.first, p, At(s.v0, p), Found(c, s.last, p))
  {
    assert PageInv(s, p) && FileInv(s, p);
    assert s.last.numPages <= s.numPages;
    hide Inv, GlobalInv, OpenInv, RecordOk, GroupsOrdered, Hist, Kept, Applicable, DiskOk;
    var v0 := At(s.v0, p);
    var l := s.log[..c.n];
    var d := Found(c, s.last, p);
    PageLogPrefix(l, s.log, s.first, p, v0);
    if p < s.last.numPages {
      assert d in MayFind(s.file, p);
      assert s.log[..s.durable] <= l;
      DiskGrows(s.log[..s.durable], l, s.first, p, v0, d);
    } else {
      ZeroedOnDisk(l, s.first, p, v0);
    }
  }

  /** Recovery from the last checkpoint. */
  lemma FromLast(s: State, c: Crash, p: PageId)
    requires Inv(s) && MayLeave(s, c)
    ensures RecoversTo(s.log, s.first, c, s.last, p, Kept(s.log[..c.n], s.first, c.n, p, At(s.v0, p)))
  {
    assert s.last.ckpt <= s.first;
    hide Inv, Kept, Hist, PageLogOk, DiskOk;
    CrashLeaves(s, c, p);
    RedoRebuilds(s.log[..c.n], s.first, p, At(s.v0, p), Found(c, s.last, p));
  }

  lemma {:induction false} KeptWhenComplete(log: seq<Record>, first: nat, n: nat, p: PageId, v0: Version)
    requires n <= |log| && forall i :: 0 <= i < |log| ==> Applicable(log, i)
    ensures Kept(log, first, n, p, v0) == Hist(log, first, n, p, v0)
    decreases n
  {
    if n > 0 {
      KeptWhenComplete(log, first, n - 1, p, v0);
    }
  }

  /** Recovery from the checkpoint just written: nothing is left to replay. */
  lemma FromNew(s: State, c: Crash, p: PageId)
    requires Inv(s) && MayLeave(s, c) && (s.ck.MetaWritten? || s.ck.MetaSynced?)
    ensures RecoversTo(s.log, s.first, c, s.ck.m, p, Kept(s.log[..c.n], s.first, c.n, p, At(s.v0, p)))
  {
    assert PageInv(s, p) && FileInv(s, p);
    assert s.log[..c.n] == s.log;
    assert s.ops == map[] && s.ck.m == NewMeta(s);
    forall i | 0 <= i < |s.log| ensures Applicable(s.log, i) {
      assert OpenInv(s, i);
    }
    KeptWhenComplete(s.log, s.first, |s.log|, p, At(s.v0, p));
    hide Inv, GlobalInv, OpenInv, PageLogOk, Hist, Kept, Applicable, DiskOk;
  }

  lemma {:induction false} RootRedoneIsRootAfter(log: seq<Record>, n: nat, root: Option<PageId>)
    requires RootsEnd(log) && n <= |log|
    ensures RootRedone(log, n, root) == RootAfter(log[..n], root)
    decreases n
  {
    if n > 0 {
      RootRedoneIsRootAfter(log, n - 1, root);
      assert log[..n][..n - 1] == log[..n - 1];
    }
  }

  /** A crash at any moment, also between any two steps of a checkpoint and with torn
      page or meta writes: recovery finds a meta, and redo from it gives every page the
      contents the complete groups of the surviving log describe, and their root. Which
      meta was chosen makes no difference. */
  lemma CrashSafe(s: State, c: Crash, p: PageId)
    requires Inv(s) && MayLeave(s, c)
    ensures Choose(c.even, c.odd).Some?
    ensures var m := Choose(c.even, c.odd).value;
            && RecoversTo(s.log, s.first, c, m, p, Kept(s.log[..c.n], s.first, c.n, p, At(s.v0, p)))
            && var e := Replayed(s.log[..c.n], s.first, m.ckpt);
               RootRedone(e, |e|, m.root) == RootAfter(s.log[..c.n], s.last.root)
  {
    MetaChoice(s, c);
    var m := Choose(c.even, c.odd).value;
    var l := s.log[..c.n];
    assert RootsEnd(s.log) && s.root == RootAfter(s.log, s.last.root);
    if m == s.last {
      FromLast(s, c, p);
      hide PageInv, FileInv, OpenInv, Kept, RecoversTo;
      RootRedoneIsRootAfter(l, c.n, s.last.root);
      assert l[..c.n] == l;
    } else {
      FromNew(s, c, p);
      assert l == s.log;
    }
  }

  /** The same for every run: the safety theorem of the page and log layer. */
  lemma EveryRunIsCrashSafe(states: seq<State>, steps: seq<Step>, n: nat, c: Crash, p: PageId)
    requires Run(states, steps) && n < |states| && MayLeave(states[n], c)
    ensures Choose(c.even, c.odd).Some?
    ensures var s := states[n];
            var m := Choose(c.even, c.odd).value;
            && RecoversTo(s.log, s.first, c, m, p, Kept(s.log[..c.n], s.first, c.n, p, At(s.v0, p)))
            && var e := Replayed(s.log[..c.n], s.first, m.ckpt);
               RootRedone(e, |e|, m.root) == RootAfter(s.log[..c.n], s.last.root)
  {
    hide Inv, RecoversTo, RootRedone, RootAfter, Kept, MayLeave;
    RunInv(states, steps, n);
    CrashSafe(states[n], c, p);
  }
}
