/** Recovery as the code runs it: mark the records of complete groups, redo them in log
    order against the data file, note who began and who ended, and undo the losers'
    records newest first through the tree.

    Each pass is proved to compute what the log theory says: `Applicable`, `RedoPage`
    and `RootRedone`, `Loser`, and `Undo`. */
module Recovery {
  import opened Keys
  import opened Nodes
  import opened TxnLog
  import opened PageRedo
  import opened WalMachine
  import opened BTree
  import opened TreeShape
  import TreeCapacity
  import TreeRoom

  /** How many of the records lie before the checkpoint. */
  function Skipped(records: seq<Record>, first: nat, ckpt: nat): (n: nat)
    ensures n <= |records|
    ensures forall i {:trigger records[i]} :: 0 <= i < |records| ==> (i < n <==> first + i < ckpt)
  {
    if ckpt <= first then 0 else if ckpt <= first + |records| then ckpt - first else |records|
  }

  lemma ReplayedIsRest(records: seq<Record>, first: nat, ckpt: nat)
    ensures Replayed(records, first, ckpt) == records[Skipped(records, first, ckpt)..]
  {
  }

  // ------------------------------------------------------------ complete groups

  /** The marking pass: `open[t]` collects the records of the group transaction `t` is
      in; an op-end record marks them all. */
  method MarkApplicable(records: seq<Record>, first: nat, ckpt: nat) returns (applicable: array<bool>)
    ensures fresh(applicable) && applicable.Length == |records|
    ensures var skip := Skipped(records, first, ckpt);
            forall i :: 0 <= i < |records| ==>
              (applicable[i] <==> i >= skip && Applicable(records[skip..], i - skip))
  {
    hide OpenAt, Applicable, Tracked, Marked;
    applicable := new bool[|records|](_ => false);
    ghost var skip := Skipped(records, first, ckpt);
    var open: map<TxId, seq<nat>> := map[];
    TrackNone(records, skip, applicable[..]);
    for i := 0 to |records|
      invariant Tracked(records, open, skip, i) && Marked(records, applicable[..], skip, i)
    {
      if first + i < ckpt {
        TrackSkip(records, open, skip, i, applicable[..]);
        continue;
      }
      assert records[i] == records[i] && i >= skip;
      var t := records[i].txid;
      var group := (if t in open then open[t] else []) + [i];
      if records[i].opEnd {
        ghost var marks := applicable[..];
        TrackEnd(records, open, skip, i, marks);
        MarkAll(applicable, group);
        MarksEnd(records, open, skip, i, marks, applicable[..]);
        open := open[t := []];
      } else {
        TrackMore(records, open, skip, i, applicable[..]);
        open := open[t := group];
      }
    }
    forall i | 0 <= i < |records| ensures applicable[i] <==> i >= skip && Applicable(records[skip..], i - skip) {
      MarkedAt(records, applicable[..], skip, i);
    }
  }

  predicate InOpen(open: map<TxId, seq<nat>>, t: TxId, k: nat) { t in open && k in open[t] }

  /** Record `k`'s group has not ended before position `n`. */
  predicate OpenAt(records: seq<Record>, k: nat, n: nat)
    requires k < |records| && n <= |records|
  {
    forall j :: k <= j < n ==> !(records[j].txid == records[k].txid && records[j].opEnd)
  }

  /** `open` lists exactly the records whose group is still open. */
  ghost predicate Tracked(records: seq<Record>, open: map<TxId, seq<nat>>, skip: nat, i: nat)
  {
    && i <= |records|
    && (forall t: TxId, k: nat :: InOpen(open, t, k) ==> skip <= k < i && records[k].txid == t && OpenAt(records, k, i))
    && (forall k: nat :: skip <= k < i && OpenAt(records, k, i) ==> InOpen(open, records[k].txid, k))
  }

  /** The marks name exactly the records whose group has ended. */
  ghost predicate Marked(records: seq<Record>, marks: seq<bool>, skip: nat, i: nat)
  {
    && i <= |records| == |marks|
    && (forall k :: 0 <= k < |marks| ==> (marks[k] <==> skip <= k < i && !OpenAt(records, k, i)))
  }

  lemma OpenStep(records: seq<Record>, k: nat, i: nat)
    requires k <= i < |records|
    ensures OpenAt(records, k, i + 1) <==>
            OpenAt(records, k, i) && !(records[i].txid == records[k].txid && records[i].opEnd)
    ensures OpenAt(records, i, i)
  {
  }

  lemma TrackNone(records: seq<Record>, skip: nat, marks: seq<bool>)
    requires |marks| == |records| && forall k :: 0 <= k < |marks| ==> !marks[k]
    ensures Tracked(records, map[], skip, 0) && Marked(records, marks, skip, 0)
  {
  }

  lemma TrackSkip(records: seq<Record>, open: map<TxId, seq<nat>>, skip: nat, i: nat, marks: seq<bool>)
    requires i < skip && i < |records| && Tracked(records, open, skip, i) && Marked(records, marks, skip, i)
    ensures Tracked(records, open, skip, i + 1) && Marked(records, marks, skip, i + 1)
  {
    hide OpenAt;
  }

  /** The group of record `i` as the pass has it: the open records of its transaction. */
  lemma GroupIs(records: seq<Record>, open: map<TxId, seq<nat>>, skip: nat, i: nat, k: nat)
    requires skip <= i < |records| && Tracked(records, open, skip, i)
    ensures var t := records[i].txid;
            k in (if t in open then open[t] else []) + [i] <==>
              (skip <= k <= i && records[k].txid == t && OpenAt(records, k, i))
  {
    OpenStep(records, i, i);
    hide OpenAt;
    var t := records[i].txid;
    assert k in (if t in open then open[t] else []) + [i] <==> InOpen(open, t, k) || k == i;
  }

  lemma TrackEnd(records: seq<Record>, open: map<TxId, seq<nat>>, skip: nat, i: nat, marks: seq<bool>)
    requires skip <= i < |records| && records[i].opEnd && Tracked(records, open, skip, i)
             && Marked(records, marks, skip, i)
    ensures Tracked(records, open[records[i].txid := []], skip, i + 1)
    ensures var t := records[i].txid;
            var group := (if t in open then open[t] else []) + [i];
            forall k: nat :: k in group ==> k < |records|
  {
    hide OpenAt;
    var t := records[i].txid;
    var after := open[t := []];
    var group := (if t in open then open[t] else []) + [i];
    forall k: nat | k in group ensures k < |records| {
      GroupIs(records, open, skip, i, k);
    }
    forall u: TxId, k: nat | InOpen(after, u, k)
      ensures skip <= k < i && records[k].txid == u && OpenAt(records, k, i + 1)
    {
      assert u != t && InOpen(open, u, k);
      OpenStep(records, k, i);
    }
    forall k: nat | skip <= k < i + 1 && OpenAt(records, k, i + 1) ensures InOpen(after, records[k].txid, k) {
      OpenStep(records, k, i);
      assert k < i && InOpen(open, records[k].txid, k);
    }
  }

  lemma MarksEnd(records: seq<Record>, open: map<TxId, seq<nat>>, skip: nat, i: nat, marks: seq<bool>,
      marks': seq<bool>)
    requires skip <= i < |records| && records[i].opEnd && Tracked(records, open, skip, i)
             && Marked(records, marks, skip, i)
    requires |marks'| == |marks|
    requires var t := records[i].txid;
             var group := (if t in open then open[t] else []) + [i];
             forall k :: 0 <= k < |marks| ==> (marks'[k] <==> marks[k] || k in group)
    ensures Marked(records, marks', skip, i + 1)
  {
    hide OpenAt, Tracked;
    forall k: nat | k < |marks| ensures marks'[k] <==> skip <= k < i + 1 && !OpenAt(records, k, i + 1) {
      GroupIs(records, open, skip, i, k);
      if k <= i { OpenStep(records, k, i); }
    }
  }

  lemma TrackMore(records: seq<Record>, open: map<TxId, seq<nat>>, skip: nat, i: nat, marks: seq<bool>)
    requires skip <= i < |records| && !records[i].opEnd && Tracked(records, open, skip, i)
             && Marked(records, marks, skip, i)
    ensures var t := records[i].txid;
            var group := (if t in open then open[t] else []) + [i];
            Tracked(records, open[t := group], skip, i + 1)
    ensures Marked(records, marks, skip, i + 1)
  {
    hide OpenAt;
    var t := records[i].txid;
    var group := (if t in open then open[t] else []) + [i];
    var after := open[t := group];
    assert forall k: nat :: k in group <==> InOpen(open, t, k) || k == i;
    forall k: nat | k <= i ensures OpenAt(records, k, i + 1) <==> OpenAt(records, k, i) {
      OpenStep(records, k, i);
    }
    OpenStep(records, i, i);
    forall u: TxId, k: nat | InOpen(after, u, k)
      ensures skip <= k < i + 1 && records[k].txid == u && OpenAt(records, k, i + 1)
    {
      assert InOpen(open, u, k) || k == i;
    }
    forall k: nat | skip <= k < i + 1 && OpenAt(records, k, i + 1) ensures InOpen(after, records[k].txid, k) {
      assert k < i ==> InOpen(open, records[k].txid, k);
    }
  }

  lemma MarkedAt(records: seq<Record>, marks: seq<bool>, skip: nat, i: nat)
    requires Marked(records, marks, skip, |records|) && i < |records|
    ensures marks[i] <==> i >= skip && Applicable(records[skip..], i - skip)
  {
    hide OpenAt, Applicable;
    if skip <= i { OpenIsNotApplicable(records, skip, i); }
  }

  lemma OpenIsNotApplicable(records: seq<Record>, skip: nat, i: nat)
    requires skip <= i < |records|
    ensures !OpenAt(records, i, |records|) <==> Applicable(records[skip..], i - skip)
  {
    var e := records[skip..];
    if !OpenAt(records, i, |records|) {
      var j :| i <= j < |records| && records[j].txid == records[i].txid && records[j].opEnd;
      assert e[j - skip] == records[j];
    }
    if Applicable(e, i - skip) {
      var j :| i - skip <= j < |e| && e[j].txid == e[i - skip].txid && e[j].opEnd;
      assert records[j + skip] == e[j];
    }
  }

  method MarkAll(a: array<bool>, group: seq<nat>)
    requires forall k: nat :: k in group ==> k < a.Length
    modifies a
    ensures forall k :: 0 <= k < a.Length ==> (a[k] <==> old(a[k]) || k in group)
  {
    for j := 0 to |group|
      invariant forall k :: 0 <= k < a.Length ==> (a[k] <==> old(a[k]) || k in group[..j])
    {
      assert group[j] in group && group[..j + 1] == group[..j] + [group[j]];
      a[group[j]] := true;
    }
    assert group[..|group|] == group;
  }

  // ------------------------------------------------------------ redo

  /** `RedoPut`: update in place, or delete and reinsert when the new value does not
      fit. The reinsertion never helps: the branch only ever reports failure. */
  method RedoPut(n: Node, key: Key, value: Value) returns (r: Option<Node>)
    requires n.Leaf? && |n.keys| == |n.vals| && Sorted(n.keys)
    ensures r == if Fits(LeafWrite(n, key, value)) then Some(LeafWrite(n, key, value)) else None
  {
    var index, found := FindKeyIndex(n.keys, key);
    if found {
      if Fits(LeafWrite(n, key, value)) {
        return Some(n.(vals := n.vals[index := value]));
      }
      var w := LeafWrite(LeafErase(n, key), key, value);
      r := if Fits(w) then Some(w) else None; // None: "WAL put redo failed (update)"
      UpdateCost(n, key, value);
      return;
    }
    if Fits(LeafWrite(n, key, value)) {
      return Some(LeafWrite(n, key, value));
    }
    return None; // "WAL put redo failed (insert)"
  }

  predicate SaneDisk(d: Disk) { d.Readable? ==> Sane(d.v.node) }

  /** A page as the file has it, or as it would be allocated. */
  function PageIn(disk: map<PageId, Disk>, p: PageId): Disk { if p in disk then disk[p] else Readable(ZEROED) }

  /** The data file seen through pager and pool. */
  class DataFile {
    var disk: map<PageId, Disk>
    var numPages: nat
    var root: Option<PageId>

    ghost predicate Valid()
      reads this
    {
      && (forall p: PageId :: p in disk <==> p < numPages)
      && (forall p: PageId :: p in disk ==> SaneDisk(disk[p]))
    }

    constructor (disk: map<PageId, Disk>, numPages: nat, root: Option<PageId>)
      ensures this.disk == disk && this.numPages == numPages && this.root == root
    {
      this.disk, this.numPages, this.root := disk, numPages, root;
    }

    function Page(p: PageId): Disk
      reads this
    {
      PageIn(disk, p)
    }

    /** `ensure_page_exists`: extend the file with zeroed pages. */
    method EnsurePageExists(p: PageId)
      requires Valid()
      modifies this
      ensures Valid() && p < numPages && root == old(root) && old(numPages) <= numPages
      ensures forall q :: Page(q) == old(Page(q))
    {
      while numPages <= p
        invariant Valid() && root == old(root) && old(numPages) <= numPages
        invariant forall q :: Page(q) == old(Page(q))
      {
        disk := disk[numPages := Readable(ZEROED)];
        numPages := numPages + 1;
      }
    }

    /** Redo of one record. Fails on a key record for a page that does not exist, is
        unreadable, or cannot take it. */
    method ApplyRecord(r: Record, lsn: nat) returns (ok: bool)
      requires Valid() && SaneRecord(r)
      modifies this
      ensures ok ==> Valid() && old(numPages) <= numPages
      ensures ok ==> root == if r.body.RootChange? then Some(r.body.page) else old(root)
      ensures ok ==> forall p: PageId :: OnPage(r.body, p) ==>
              p < numPages && RedoOn(old(Page(p)), r.body, lsn) == Some(Page(p))
      ensures ok ==> forall p: PageId :: !OnPage(r.body, p) ==> Page(p) == old(Page(p))
      ensures !ok ==> (r.body.PutRec? || r.body.DeleteRec?) &&
                      (r.body.page >= old(numPages) || RedoOn(old(Page(r.body.page)), r.body, lsn) == None)
    {
      hide LeafWrite, LeafErase, Sorted, Fits, LowerBound, Has;
      match r.body {
        case AllocPage(p) =>
          EnsurePageExists(p);
        case PageImage(p, node) =>
          EnsurePageExists(p);
          if disk[p].Torn? || lsn > disk[p].v.lsn {
            disk := disk[p := Readable(Version(Some(node), lsn))];
          }
        case PutRec(p, k, v, _) =>
          if p >= numPages || disk[p].Torn? {
            return false;
          }
          if lsn > disk[p].v.lsn {
            if !IsLeafNode(disk[p].v.node) {
              return false;
            }
            var n := RedoPut(disk[p].v.node.value, k, v);
            if n.None? {
              return false;
            }
            SaneWrite(disk[p].v.node.value, k, v);
            disk := disk[p := Readable(Version(n, lsn))];
          }
        case DeleteRec(p, k, _) =>
          if p >= numPages || disk[p].Torn? {
            return false;
          }
          if lsn > disk[p].v.lsn {
            if disk[p].v.node.None? {
              disk := disk[p := Readable(Version(None, lsn))];
            } else if IsLeafNode(disk[p].v.node) {
              SaneWrite(disk[p].v.node.value, k, []);
              disk := disk[p := Readable(Version(Some(LeafErase(disk[p].v.node.value, k)), lsn))];
            } else {
              return false;
            }
          }
        case RootChange(p) =>
          root := Some(p);
        case _ =>
      }
      return true;
    }

    /** The redo pass over the marked records. */
    method Redo(records: seq<Record>, first: nat, ckpt: nat, applicable: array<bool>) returns (ok: bool)
      requires Valid() && applicable.Length == |records|
      requires forall i :: 0 <= i < |records| ==> SaneRecord(records[i])
      requires var skip := Skipped(records, first, ckpt);
               forall i :: 0 <= i < |records| ==>
                 (applicable[i] <==> i >= skip && Applicable(records[skip..], i - skip))
      modifies this
      ensures var skip := Skipped(records, first, ckpt);
              var e := records[skip..];
              ok ==>
                && Valid() && old(numPages) <= numPages && root == RootRedone(e, |e|, old(root))
                && (forall p :: RedoPage(e, first + skip, |e|, p, old(Page(p))) == Some(Page(p)))
                && Exist(e, |e|, numPages)
      ensures var skip := Skipped(records, first, ckpt);
              var e := records[skip..];
              !ok ==> AnyStuck(e, first + skip, old(disk))
    {
      hide RedoOn, Sane, Applicable;
      ghost var skip := Skipped(records, first, ckpt);
      ghost var e := records[skip..];
      ghost var n: nat := 0;
      for i := 0 to |records|
        invariant Valid() && old(numPages) <= numPages
        invariant n == if i < skip then 0 else i - skip
        invariant root == RootRedone(e, n, old(root))
        invariant forall p :: RedoPage(e, first + skip, n, p, old(Page(p))) == Some(Page(p))
        invariant Exist(e, n, numPages)
      {
        if applicable[i] {
          assert e[n] == records[i] && first + skip + n == first + i;
          ghost var had := numPages;
          ok := ApplyRecord(records[i], first + i);
          if !ok {
            ghost var p := records[i].body.page;
            assert OnPage(e[n].body, p);
            assert RedoPage(e, first + skip, n, p, old(Page(p))).Some?;
            StuckHere(e, first + skip, n, p, old(disk), had);
            return;
          }
        }
        if i >= skip {
          n := n + 1;
        }
      }
      return true;
    }
  }

  /** Every page an applied record is about exists. */
  ghost predicate Exist(log: seq<Record>, n: nat, numPages: nat)
  {
    forall i: nat, p: PageId {:trigger OnPage(log[i].body, p)} ::
      0 <= i < n && i < |log| && Applicable(log, i) && OnPage(log[i].body, p) ==> p < numPages
  }

  /** Redo fails at complete record `n` on page `p`: the page is neither
      in the file nor made by an earlier record, or it cannot take the record. */
  ghost predicate Stuck(log: seq<Record>, first: nat, n: nat, p: PageId, disk: map<PageId, Disk>)
  {
    && n < |log| && Applicable(log, n) && OnPage(log[n].body, p) && !log[n].body.PageImage?
    && ((p !in disk && forall i :: 0 <= i < n && Applicable(log, i) ==> !OnPage(log[i].body, p))
        || RedoPage(log, first, n + 1, p, PageIn(disk, p)).None?)
  }

  ghost predicate AnyStuck(log: seq<Record>, first: nat, disk: map<PageId, Disk>)
  {
    exists n: nat, p: PageId :: Stuck(log, first, n, p, disk)
  }

  lemma StuckHere(log: seq<Record>, first: nat, n: nat, p: PageId, disk: map<PageId, Disk>, had: nat)
    requires n < |log| && Applicable(log, n) && OnPage(log[n].body, p) && !log[n].body.PageImage?
    requires Exist(log, n, had) && RedoPage(log, first, n, p, PageIn(disk, p)).Some? && (p in disk ==> p < had)
    requires p >= had || RedoOn(RedoPage(log, first, n, p, PageIn(disk, p)).value, log[n].body, first + n) == None
    ensures AnyStuck(log, first, disk)
  {
    hide RedoOn, Applicable;
    assert Stuck(log, first, n, p, disk);
  }

  /** A page a crash may leave, with a log the tree wrote. */
  ghost predicate Crashed(log: seq<Record>, first: nat, p: PageId, v0: Version, d: Disk)
  {
    PageLogOk(log, first, p, v0) && DiskOk(log, first, p, v0, d)
  }

  /** On a log the tree wrote, from whatever a crash left, redo never fails. */
  lemma NeverStuck(log: seq<Record>, first: nat, v0: map<PageId, Version>, disk: map<PageId, Disk>)
    requires forall p {:trigger PageIn(disk, p)} :: Crashed(log, first, p, At(v0, p), PageIn(disk, p))
    ensures !AnyStuck(log, first, disk)
  {
    hide RedoPage, Applicable, DiskOk, Hist, GroupsOrdered, RedoStand;
    forall n: nat, p: PageId | Stuck(log, first, n, p, disk) ensures false {
      var v0, d := At(v0, p), PageIn(disk, p);
      assert RecordOk(log, first, n, p, v0);
      var j :| 0 <= j < n && log[j].body.PageImage? && log[j].body.page == p;
      CompleteFirst(log, p, j, n);
      RedoStands(log, first, n + 1, p, v0, d);
    }
  }

  /** Redo of a crashed file: the pass succeeds and leaves every page as the complete
      groups of the surviving log make it. */
  method RedoCrashed(f: DataFile, records: seq<Record>, first: nat, ckpt: nat, ghost v0: map<PageId, Version>)
    returns (ok: bool, applicable: array<bool>)
    requires f.Valid() && forall i :: 0 <= i < |records| ==> SaneRecord(records[i])
    requires var skip := Skipped(records, first, ckpt);
             forall p {:trigger f.Page(p)} :: Crashed(records[skip..], first + skip, p, At(v0, p), f.Page(p))
    modifies f
    ensures ok && f.Valid() && fresh(applicable)
    ensures var skip := Skipped(records, first, ckpt);
            var e := records[skip..];
            && f.root == RootRedone(e, |e|, old(f.root))
            && (forall p {:trigger f.Page(p)} :: f.Page(p) == Readable(Kept(e, first + skip, |e|, p, At(v0, p))))
            && applicable.Length == |records|
            && (forall i :: 0 <= i < |records| ==> (applicable[i] <==> i >= skip && Applicable(e, i - skip)))
  {
    hide RedoPage, Applicable, DiskOk, PageLogOk, Kept, RootRedone, AnyStuck, SaneRecord, Exist;
    applicable := MarkApplicable(records, first, ckpt);
    ghost var skip := Skipped(records, first, ckpt);
    ghost var e := records[skip..];
    forall p
      ensures RedoPage(e, first + skip, |e|, p, f.Page(p)) == Some(Readable(Kept(e, first + skip, |e|, p, At(v0, p))))
    {
      RedoRebuilds(e, first + skip, p, At(v0, p), f.Page(p));
    }
    ghost var disk := f.disk;
    assert forall p {:trigger PageIn(disk, p)} :: PageIn(disk, p) == f.Page(p);
    NeverStuck(e, first + skip, v0, disk);
    ok := f.Redo(records, first, ckpt, applicable);
  }

  // ------------------------------------------------------------ undo

  /** The two bits kept per transaction. */
  datatype Flags = Flags(began: bool, ended: bool)

  function FlagsOf(flags: map<TxId, Flags>, t: TxId): Flags { if t in flags then flags[t] else Flags(false, false) }

  predicate IsLoser(flags: map<TxId, Flags>, t: TxId) { FlagsOf(flags, t).began && !FlagsOf(flags, t).ended }

  /** The flags say what the first `n` of the records say. */
  ghost predicate Noted(e: seq<Record>, n: nat, flags: map<TxId, Flags>)
    requires n <= |e|
  {
    forall t {:trigger FlagsOf(flags, t)} :: FlagsOf(flags, t).began == HasBegin(e[..n], t)
      && FlagsOf(flags, t).ended == HasEnd(e[..n], t)
  }

  lemma NoteOne(e: seq<Record>, n: nat, flags: map<TxId, Flags>, flags': map<TxId, Flags>)
    requires n < |e| && Noted(e, n, flags)
    requires var (u, b, f) := (e[n].txid, e[n].body, FlagsOf(flags, e[n].txid));
             flags' == if b.Begin? then flags[u := f.(began := true)]
                       else if b.Commit? || b.Abort? then flags[u := f.(ended := true)] else flags
    ensures Noted(e, n + 1, flags')
  {
    var (a, b) := (e[..n], e[..n + 1]);
    assert b == a + [e[n]];
    forall t ensures FlagsOf(flags', t).began == HasBegin(b, t) && FlagsOf(flags', t).ended == HasEnd(b, t) {
      assert FlagsOf(flags, t).began == HasBegin(a, t) && FlagsOf(flags, t).ended == HasEnd(a, t);
      HasBeginAppend(a, e[n], t);
      HasEndAppend(a, e[n], t);
    }
  }

  /** Who began and who ended: losers are exactly those that began and did not end. */
  method NoteOutcomes(records: seq<Record>, first: nat, ckpt: nat) returns (flags: map<TxId, Flags>)
    ensures forall t {:trigger IsLoser(flags, t)} :: IsLoser(flags, t) <==>
            Loser(records[Skipped(records, first, ckpt)..], t)
  {
    hide HasBegin, HasEnd;
    ghost var skip := Skipped(records, first, ckpt);
    ghost var e := records[skip..];
    flags := map[];
    assert Noted(e, 0, flags) by { NotedNone(e); }
    for i := 0 to |records|
      invariant Noted(e, if i < skip then 0 else i - skip, flags)
    {
      assert records[i] == records[i];
      if first + i < ckpt {
        continue;
      }
      assert e[i - skip] == records[i];
      ghost var before := flags;
      var t := records[i].txid;
      var f := FlagsOf(flags, t);
      if records[i].body.Begin? {
        flags := flags[t := f.(began := true)];
      } else if records[i].body.Commit? || records[i].body.Abort? {
        flags := flags[t := f.(ended := true)];
      }
      NoteOne(e, i - skip, before, flags);
    }
    assert e[..|e|] == e && Noted(e, |e|, flags);
    forall t ensures IsLoser(flags, t) <==> Loser(e, t) {
      assert FlagsOf(flags, t).began == HasBegin(e, t) && FlagsOf(flags, t).ended == HasEnd(e, t);
    }
  }

  lemma NotedNone(e: seq<Record>)
    ensures Noted(e, 0, map[])
  {
  }

  /** A before-image that any tree of small records takes back without fail. */
  ghost predicate SmallBefore(r: Record)
  {
    (r.body.PutRec? || r.body.DeleteRec?) && r.body.before.Some? ==>
      TreeCapacity.SmallRecord(r.body.key, r.body.before.value)
  }

  /** Record `r` has a before-image that tree `g` has no place for. */
  ghost predicate UndoRefused(g: Option<Shape>, r: Record)
  {
    BeforeOf(r).Some? && TreeRoom.Refuses(g, r.body.key, BeforeOf(r).value)
  }

  /** Undo of one record through the tree; "not found" on a delete counts as done. It
      fails exactly when the before-image has no place. */
  method UndoOne(tree: BPlusTree, r: Record) returns (ok: bool)
    requires tree.Valid()
    modifies tree
    ensures ok <==> !UndoRefused(old(tree.Whole()), r)
    ensures ok ==> tree.Valid() && tree.contents == UndoRecord(r, old(tree.contents))
    ensures TreeCapacity.AllSmall(old(tree.pages)) && SmallBefore(r) ==> ok && TreeCapacity.AllSmall(tree.pages)
  {
    hide TreeCapacity.AllSmall, TreeCapacity.SmallRecord, Holdable, TreeRoom.OverflowsOn, TreeShape.Inv, Holds, AllFit;
    if r.body.PutRec? {
      if r.body.before.Some? {
        var status, _, _ := tree.Put(r.body.key, r.body.before.value);
        return status == Ok;
      } else {
        var _, _ := tree.Delete(r.body.key);
        return true;
      }
    } else if r.body.DeleteRec? && r.body.before.Some? {
      var status, _, _ := tree.Put(r.body.key, r.body.before.value);
      return status == Ok;
    }
    return true;
  }

  /** The pass over `e` stops at record `stop`: that record is to be undone, and the tree
      as undo has left it, `stuck`, has no place for its before-image. */
  ghost predicate StopsAt(e: seq<Record>, m: KV, stop: nat, stuck: Option<Shape>)
  {
    stop < |e| && Undone(e, stop) && TreeWith(stuck, UndoneFrom(e, stop + 1, m)) && UndoRefused(stuck, e[stop])
  }

  /** The undo pass: on success the tree's map is what the log theory's undo makes of
      it; it fails only where a before-image has no place, with small records never. */
  method UndoLosers(tree: BPlusTree, records: seq<Record>, first: nat, ckpt: nat, applicable: array<bool>,
      flags: map<TxId, Flags>)
    returns (ok: bool, ghost stop: nat, ghost stuck: Option<Shape>)
    requires tree.Valid() && applicable.Length == |records|
    requires var skip := Skipped(records, first, ckpt);
             && (forall i :: 0 <= i < |records| ==> (applicable[i] <==>
                i >= skip && Applicable(records[skip..], i - skip)))
             && (forall t {:trigger IsLoser(flags, t)} :: IsLoser(flags, t) <==> Loser(records[skip..], t))
    modifies tree
    ensures var e := records[Skipped(records, first, ckpt)..];
            && (ok ==> tree.Valid() && tree.contents == Undo(e, |e|, old(tree.contents)))
            && (!ok ==> StopsAt(e, old(tree.contents), stop, stuck))
    ensures TreeCapacity.AllSmall(old(tree.pages)) && (forall i :: 0 <= i < |records| ==> SmallBefore(records[i])) ==>
              ok && TreeCapacity.AllSmall(tree.pages)
  {
    hide UndoRecord, Loser, Applicable, TreeCapacity.AllSmall, SmallBefore, UndoRefused, TreeWith, BPlusTree.Valid,
         IsLoser;
    ghost var skip := Skipped(records, first, ckpt);
    ghost var e := records[skip..];
    stop, stuck := 0, None;
    ghost var n := |e|;
    for i := |records| downto 0
      invariant tree.Valid() && n == if i < skip then 0 else i - skip
      invariant tree.contents == UndoneFrom(e, n, old(tree.contents))
      invariant TreeCapacity.AllSmall(old(tree.pages)) && (forall i :: 0 <= i < |records| ==>
                SmallBefore(records[i])) ==>
                  TreeCapacity.AllSmall(tree.pages)
    {
      if applicable[i] {
        var r := records[i];
        assert r == e[i - skip];
        if first + i >= ckpt && IsLoser(flags, r.txid) {
          stop, stuck := i - skip, tree.Whole();
          ok := UndoOne(tree, r);
          if !ok {
            return;
          }
        }
      }
      if i >= skip {
        n := n - 1;
      }
    }
    UndoResumes(e, 0, old(tree.contents));
    return true, 0, None;
  }
}
