/** Page-level redo. A page's contents are determined by the log: the first record a
    page gets after a checkpoint is a full image, later ones are images or key records.
    Redo repeats the records of complete groups in log order, skipping what a page's
    own LSN says it already has.

    The log here is the sequence of records since the checkpoint; record `i` has LSN
    `first + i`. */
module PageRedo {
  import opened Keys
  import opened Nodes
  import opened TxnLog

  /** Contents and page LSN; no contents is a zeroed page. */
  datatype Version = Version(node: Option<Node>, lsn: nat)

  const ZEROED := Version(None, 0)

  /** What a page read finds on disk: contents with a good checksum, or damage. */
  datatype Disk = Readable(v: Version) | Torn

  predicate OnPage(b: Body, p: PageId)
  {
    (b.PageImage? || b.PutRec? || b.DeleteRec?) && b.page == p
  }

  predicate IsLeafNode(n: Option<Node>) { n.Some? && n.value.Leaf? && |n.value.keys| == |n.value.vals| }

  /** The page after one record. A key record needs a leaf to work on. */
  function AfterRecord(v: Version, b: Body, lsn: nat): Version
  {
    match b
    case PageImage(_, node) => Version(Some(node), lsn)
    case PutRec(_, k, val, _) =>
      if IsLeafNode(v.node) then Version(Some(LeafWrite(v.node.value, k, val)), lsn) else v
    case DeleteRec(_, k, _) =>
      if IsLeafNode(v.node) then Version(Some(LeafErase(v.node.value, k)), lsn) else v
    case _ => v
  }

  // ------------------------------------------------------------ pages in order

  /** Pages the engine wrote keep their keys in order. */
  predicate Sane(n: Option<Node>)
  {
    n.Some? && n.value.Leaf? ==> |n.value.keys| == |n.value.vals| && Sorted(n.value.keys)
  }

  predicate SaneBody(b: Body) { b.PageImage? ==> Sane(Some(b.node)) }

  predicate SaneRecord(r: Record) { SaneBody(r.body) }

  lemma SaneWrite(n: Node, k: Key, v: Value)
    requires n.Leaf? && |n.keys| == |n.vals| && Sorted(n.keys)
    ensures Sane(Some(LeafWrite(n, k, v))) && Sane(Some(LeafErase(n, k)))
  {
    hide Sorted;
    var i := LowerBound(n.keys, k);
    LowerBoundCorrect(n.keys, k);
    if Has(n.keys, k) {
      RemoveKeepsSorted(n.keys, i);
    } else {
      InsertKeepsSorted(n.keys, k);
    }
  }

  // ------------------------------------------------------------ a page along the log

  /** Page `p` after the first `n` records. */
  function Hist(log: seq<Record>, first: nat, n: nat, p: PageId, v0: Version): Version
    requires n <= |log|
    decreases n
  {
    if n == 0 then v0
    else
      var v := Hist(log, first, n - 1, p, v0);
      if OnPage(log[n - 1].body, p) then AfterRecord(v, log[n - 1].body, first + n - 1) else v
  }

  /** Page `p` after the complete groups among the first `n` records. */
  ghost function Kept(log: seq<Record>, first: nat, n: nat, p: PageId, v0: Version): Version
    requires n <= |log|
    decreases n
  {
    if n == 0 then v0
    else
      var v := Kept(log, first, n - 1, p, v0);
      if OnPage(log[n - 1].body, p) && Applicable(log, n - 1) then AfterRecord(v, log[n - 1].body, first + n - 1) else v
  }

  // ------------------------------------------------------------ logs the tree writes

  /** A page is held exclusively from a group's first record on it to the group's end,
      so on one page groups do not overlap. */
  ghost predicate GroupsOrdered(log: seq<Record>)
  {
    forall i, j, p {:trigger OnPage(log[i].body, p), OnPage(log[j].body, p)} ::
      0 <= i < j < |log| && OnPage(log[i].body, p) && OnPage(log[j].body, p) && log[i].txid != log[j].txid ==>
      EndsBetween(log, i, j)
  }

  ghost predicate EndsBetween(log: seq<Record>, i: nat, j: nat)
  {
    i < |log| && exists e :: i <= e < j && e < |log| && log[e].txid == log[i].txid && log[e].opEnd
  }

  /** Key records come after an image of their page and fit the leaf they change. */
  ghost predicate RecordOk(log: seq<Record>, first: nat, i: nat, p: PageId, v0: Version)
    requires i < |log|
  {
    OnPage(log[i].body, p) && !log[i].body.PageImage? ==>
      var v := Hist(log, first, i, p, v0);
      && (exists j :: 0 <= j < i && log[j].body.PageImage? && log[j].body.page == p)
      && IsLeafNode(v.node) && Sorted(v.node.value.keys)
      && Fits(AfterRecord(v, log[i].body, first + i).node.value)
  }

  ghost predicate PageLogOk(log: seq<Record>, first: nat, p: PageId, v0: Version)
  {
    && v0.lsn < first
    && GroupsOrdered(log)
    && forall i {:trigger RecordOk(log, first, i, p, v0)} :: 0 <= i < |log| ==> RecordOk(log, first, i, p, v0)
  }

  /** On one page the complete records come first. */
  lemma CompleteFirst(log: seq<Record>, p: PageId, i: nat, j: nat)
    requires GroupsOrdered(log) && i < j < |log| && OnPage(log[i].body, p) && OnPage(log[j].body, p)
    requires Applicable(log, j)
    ensures Applicable(log, i)
  {
    if log[i].txid == log[j].txid {
      var e :| j <= e < |log| && log[e].txid == log[j].txid && log[e].opEnd;
      assert i <= e < |log| && log[e].txid == log[i].txid && log[e].opEnd;
    } else {
      assert EndsBetween(log, i, j);
    }
  }

  /** Up to a complete record, keeping only complete groups drops nothing. */
  lemma {:induction false} KeptIsHist(log: seq<Record>, first: nat, n: nat, p: PageId, v0: Version, j: nat)
    requires GroupsOrdered(log) && n <= j < |log| && OnPage(log[j].body, p) && Applicable(log, j)
    ensures Kept(log, first, n, p, v0) == Hist(log, first, n, p, v0)
    decreases n
  {
    if n > 0 {
      KeptIsHist(log, first, n - 1, p, v0, j);
      if OnPage(log[n - 1].body, p) {
        CompleteFirst(log, p, n - 1, j);
      }
    }
  }

  /** A page's LSN never exceeds what has been applied. */
  lemma {:induction false} KeptLsn(log: seq<Record>, first: nat, n: nat, p: PageId, v0: Version)
    requires n <= |log| && v0.lsn < first
    ensures Kept(log, first, n, p, v0).lsn < first + n
    decreases n
  {
    if n > 0 {
      KeptLsn(log, first, n - 1, p, v0);
    }
  }

  // ------------------------------------------------------------ what may be on disk

  /** Page `p` may be found as of the checkpoint, as of any record of a complete group,
      or torn, provided a complete image in the log can heal it. */
  ghost predicate DiskOk(log: seq<Record>, first: nat, p: PageId, v0: Version, d: Disk)
  {
    || d == Readable(v0)
    || (d.Torn? && exists j :: IsCompleteImage(log, p, j))
    || (exists j :: IsAt(log, first, p, v0, d, j))
  }

  /** The page is as complete record `j` left it. */
  ghost predicate IsAt(log: seq<Record>, first: nat, p: PageId, v0: Version, d: Disk, j: nat)
  {
    && j < |log| && OnPage(log[j].body, p) && Applicable(log, j)
    && d == Readable(Kept(log, first, j + 1, p, v0))
  }

  predicate NoneBefore(log: seq<Record>, n: nat, p: PageId)
    requires n <= |log|
  {
    forall i :: 0 <= i < n ==> !OnPage(log[i].body, p)
  }

  ghost predicate IsCompleteImage(log: seq<Record>, p: PageId, j: nat)
  {
    j < |log| && log[j].body.PageImage? && log[j].body.page == p && Applicable(log, j)
  }

  // ------------------------------------------------------------ redo of one page

  /** Redo of record `b` against a page as found. None is a reported corruption. */
  function RedoOn(d: Disk, b: Body, lsn: nat): Option<Disk>
  {
    match b
    case PageImage(_, node) =>
      if d.Torn? || lsn > d.v.lsn then Some(Readable(Version(Some(node), lsn))) else Some(d)
    case PutRec(_, k, val, _) =>
      if d.Torn? then None
      else if lsn <= d.v.lsn then Some(d)
      else if IsLeafNode(d.v.node) && Fits(LeafWrite(d.v.node.value, k, val)) then
        Some(Readable(Version(Some(LeafWrite(d.v.node.value, k, val)), lsn)))
      else None
    case DeleteRec(_, k, _) =>
      if d.Torn? then None
      else if lsn <= d.v.lsn then Some(d)
      else if IsLeafNode(d.v.node) then Some(Readable(Version(Some(LeafErase(d.v.node.value, k)), lsn)))
      else if d.v.node.None? then Some(Readable(Version(None, lsn))) // nothing to delete on a zeroed page
      else None
    case _ => Some(d)
  }

  /** Redo of the first `n` records on page `p`, found as `d`. */
  ghost function RedoPage(log: seq<Record>, first: nat, n: nat, p: PageId, d: Disk): Option<Disk>
    requires n <= |log|
    decreases n
  {
    if n == 0 then Some(d)
    else
      var r := RedoPage(log, first, n - 1, p, d);
      if r.Some? && OnPage(log[n - 1].body, p) && Applicable(log, n - 1)
        then RedoOn(r.value, log[n - 1].body, first + n - 1)
      else r
  }

  /** Where redo of a page stands after `n` records: at what the complete groups make of
      it, or still as found because the page was ahead of the log position, or torn and
      waiting for its image. */
  ghost predicate RedoStand(log: seq<Record>, first: nat, n: nat, p: PageId, v0: Version, d: Disk, r: Disk)
    requires n <= |log|
  {
    || r == Readable(Kept(log, first, n, p, v0))
    || (r == d && exists j :: n <= j && IsAt(log, first, p, v0, d, j))
    || (r == d && d.Torn? && NoneBefore(log, n, p) && exists j :: n <= j && IsCompleteImage(log, p, j))
  }

  lemma RedoStart(log: seq<Record>, first: nat, p: PageId, v0: Version, d: Disk)
    requires DiskOk(log, first, p, v0, d)
    ensures RedoStand(log, first, 0, p, v0, d, d)
  {
  }

  /** A complete record sets the page LSN to its own. */
  lemma KeptRecordLsn(log: seq<Record>, first: nat, j: nat, p: PageId, v0: Version)
    requires PageLogOk(log, first, p, v0) && j < |log| && OnPage(log[j].body, p) && Applicable(log, j)
    ensures Kept(log, first, j + 1, p, v0).lsn == first + j
    ensures RedoOn(Readable(Kept(log, first, j, p, v0)), log[j].body, first + j)
            == Some(Readable(Kept(log, first, j + 1, p, v0)))
  {
    assert RecordOk(log, first, j, p, v0);
    KeptIsHist(log, first, j, p, v0, j);
    KeptLsn(log, first, j, p, v0);
  }

  /** The first record a page gets is an image, and complete if any later one is. */
  lemma FirstIsImage(log: seq<Record>, first: nat, n: nat, p: PageId, v0: Version, j: nat)
    requires PageLogOk(log, first, p, v0) && n < |log| && OnPage(log[n].body, p) && NoneBefore(log, n, p)
    requires n <= j && IsCompleteImage(log, p, j)
    ensures log[n].body.PageImage? && Applicable(log, n)
  {
    assert RecordOk(log, first, n, p, v0);
    if n < j {
      CompleteFirst(log, p, n, j);
    }
  }

  lemma RedoStep(log: seq<Record>, first: nat, n: nat, p: PageId, v0: Version, d: Disk, r: Disk)
    requires PageLogOk(log, first, p, v0) && n < |log| && RedoStand(log, first, n, p, v0, d, r)
    ensures OnPage(log[n].body, p) && Applicable(log, n) ==>
              var r' := RedoOn(r, log[n].body, first + n);
              r'.Some? && RedoStand(log, first, n + 1, p, v0, d, r'.value)
    ensures !(OnPage(log[n].body, p) && Applicable(log, n)) ==> RedoStand(log, first, n + 1, p, v0, d, r)
  {
    hide PageLogOk, Applicable, Hist, RecordOk;
    if OnPage(log[n].body, p) && Applicable(log, n) {
      KeptRecordLsn(log, first, n, p, v0);
    }
    if r == Readable(Kept(log, first, n, p, v0)) {
    } else if r == d && exists j :: n <= j && IsAt(log, first, p, v0, d, j) {
      var j :| n <= j && IsAt(log, first, p, v0, d, j);
      KeptRecordLsn(log, first, j, p, v0);
      assert j > n ==> n + 1 <= j && IsAt(log, first, p, v0, d, j);
    } else {
      var j :| n <= j && IsCompleteImage(log, p, j);
      if OnPage(log[n].body, p) {
        FirstIsImage(log, first, n, p, v0, j);
      } else {
        assert n + 1 <= j && IsCompleteImage(log, p, j);
      }
    }
  }

  lemma {:induction false} RedoStands(log: seq<Record>, first: nat, n: nat, p: PageId, v0: Version, d: Disk)
    requires PageLogOk(log, first, p, v0) && DiskOk(log, first, p, v0, d) && n <= |log|
    ensures RedoPage(log, first, n, p, d).Some?
    ensures RedoStand(log, first, n, p, v0, d, RedoPage(log, first, n, p, d).value)
    decreases n
  {
    hide PageLogOk, Applicable, Hist, RecordOk, Kept, DiskOk, RedoStand, RedoOn;
    if n == 0 {
      RedoStart(log, first, p, v0, d);
    } else {
      RedoStands(log, first, n - 1, p, v0, d);
      RedoStep(log, first, n - 1, p, v0, d, RedoPage(log, first, n - 1, p, d).value);
    }
  }

  /** Redo rebuilds every page, from whatever a crash left of it, to its contents after
      the last record of a complete group, and reports no corruption on the way. */
  lemma RedoRebuilds(log: seq<Record>, first: nat, p: PageId, v0: Version, d: Disk)
    requires PageLogOk(log, first, p, v0) && DiskOk(log, first, p, v0, d)
    ensures RedoPage(log, first, |log|, p, d) == Some(Readable(Kept(log, first, |log|, p, v0)))
  {
    hide PageLogOk, Hist, RecordOk, Kept, DiskOk, RedoOn;
    RedoStands(log, first, |log|, p, v0, d);
  }

  /** What a second crash, after `n` records of redo, may find of a page found as `d` by
      the first: that, any version redo gave it, or damage if redo has written it. */
  ghost predicate MidRedo(log: seq<Record>, first: nat, n: nat, p: PageId, d: Disk, again: Disk)
    requires n <= |log|
  {
    || again == d
    || (exists k: nat :: k <= n && RedoPage(log, first, k, p, d) == Some(again))
    || (again.Torn? && exists k: nat :: k < n && OnPage(log[k].body, p) && Applicable(log, k))
  }

  /** Redo can start from it as well. */
  lemma MidRedoIsDisk(log: seq<Record>, first: nat, n: nat, p: PageId, v0: Version, d: Disk, again: Disk)
    requires PageLogOk(log, first, p, v0) && DiskOk(log, first, p, v0, d) && n <= |log|
             && MidRedo(log, first, n, p, d, again)
    ensures DiskOk(log, first, p, v0, again)
  {
    hide Applicable, Hist, Kept, RedoOn, GroupsOrdered;
    if again == d {
    } else if k: nat :| k <= n && RedoPage(log, first, k, p, d) == Some(again) {
      hide PageLogOk, DiskOk, RedoStand;
      RedoStands(log, first, k, p, v0, d);
      StandIsDisk(log, first, k, p, v0, d, again);
    } else {
      var k: nat :| k < n && OnPage(log[k].body, p) && Applicable(log, k);
      assert RecordOk(log, first, k, p, v0);
      if log[k].body.PageImage? {
        assert IsCompleteImage(log, p, k);
      } else {
        var j :| 0 <= j < k && log[j].body.PageImage? && log[j].body.page == p;
        CompleteFirst(log, p, j, k);
        assert IsCompleteImage(log, p, j);
      }
    }
  }

  lemma StandIsDisk(log: seq<Record>, first: nat, n: nat, p: PageId, v0: Version, d: Disk, r: Disk)
    requires n <= |log| && DiskOk(log, first, p, v0, d) && RedoStand(log, first, n, p, v0, d, r)
    ensures DiskOk(log, first, p, v0, r)
  {
    hide Kept, DiskOk;
    if r == Readable(Kept(log, first, n, p, v0)) {
      KeptIsDisk(log, first, n, p, v0);
    }
  }

  lemma {:induction false} KeptIsDisk(log: seq<Record>, first: nat, n: nat, p: PageId, v0: Version)
    requires n <= |log|
    ensures DiskOk(log, first, p, v0, Readable(Kept(log, first, n, p, v0)))
    decreases n
  {
    if n > 0 {
      KeptIsDisk(log, first, n - 1, p, v0);
      if OnPage(log[n - 1].body, p) && Applicable(log, n - 1) {
        assert IsAt(log, first, p, v0, Readable(Kept(log, first, n, p, v0)), n - 1);
      }
    }
  }

  /** Redo interrupted anywhere, with the page flushed at any moment, torn or not at all,
      and run again from the same log, ends the same. */
  lemma RedoRestarts(log: seq<Record>, first: nat, n: nat, p: PageId, v0: Version, d: Disk, again: Disk)
    requires PageLogOk(log, first, p, v0) && DiskOk(log, first, p, v0, d) && n <= |log|
             && MidRedo(log, first, n, p, d, again)
    ensures RedoPage(log, first, |log|, p, again) == RedoPage(log, first, |log|, p, d)
            == Some(Readable(Kept(log, first, |log|, p, v0)))
  {
    hide PageLogOk, DiskOk, MidRedo, RedoPage, Kept;
    MidRedoIsDisk(log, first, n, p, v0, d, again);
    RedoRebuilds(log, first, p, v0, again);
    RedoRebuilds(log, first, p, v0, d);
  }
}
