/** Pages, log and checkpoints as a step machine with a crash possible everywhere.

    A group's owner holds (latches and pins) every page it rewrites until the group's
    last record is appended; a page is written back only when nobody holds it, and only
    after the whole log has been flushed. Write-backs reach stable storage at a sync;
    until then a crash may find the page as it was, as written, or torn. The same goes
    for the two meta slots. The log file is synced on flush; a crash may leave more of
    the unflushed log than was promised, cut anywhere. */
module WalMachine {
  import opened Keys
  import opened Nodes
  import opened TxnLog
  import opened PageRedo

  datatype Meta = Meta(gen: nat, ckpt: nat, numPages: nat, root: Option<PageId>)

  datatype MetaDisk = GoodMeta(m: Meta) | TornMeta

  /** Where a checkpoint stands; writers are shut out unless `Idle`. */
  datatype Ck = Idle | Flushing | Flushed | Marked | MetaWritten(m: Meta) | MetaSynced(m: Meta)

  /** `cur`: every page as the process sees it (absent: zeroed). `latest`: the data file
      as the process would read it. `file`: what a crash may find. `begunTxns`
      counts transactions begun and not ended. `last` and `v0`: the last complete
      checkpoint's meta and page contents. */
  datatype State = State(
    log: seq<Record>, first: nat, durable: nat,
    cur: map<PageId, Version>, dirty: set<PageId>, latest: map<PageId, Version>, file: map<PageId, set<Disk>>,
    ops: map<TxId, set<PageId>>, imaged: set<PageId>,
    numPages: nat, root: Option<PageId>, begunTxns: nat,
    even: set<MetaDisk>, odd: set<MetaDisk>, ck: Ck,
    last: Meta, v0: map<PageId, Version>)

  function At(m: map<PageId, Version>, p: PageId): Version { if p in m then m[p] else ZEROED }

  function MayFind(file: map<PageId, set<Disk>>, p: PageId): set<Disk> { if p in file then file[p] else {} }

  datatype Step =
    | OpenGroup(t: TxId)
    | Hold(t: TxId, p: PageId)
    | NewPage(t: TxId)
    | LogPage(t: TxId, p: PageId, b: Body, end: bool)
    | LogOther(t: TxId, b: Body, end: bool)
    | FlushLog(n: nat)
    | WriteBack(p: PageId)
    | CkStart
    | CkSync
    | CkStop
    | CkMark
    | CkMeta
    | CkMetaSync
    | CkTruncate

  // ------------------------------------------------------------ steps

  ghost predicate Unheld(s: State, p: PageId) { forall t :: t in s.ops ==> p !in s.ops[t] }

  ghost predicate DoHold(s: State, s': State, t: TxId, p: PageId)
  {
    && s.ck.Idle? && t in s.ops && p < s.numPages && (forall u :: u in s.ops && u != t ==> p !in s.ops[u])
    && s' == s.(ops := s.ops[t := s.ops[t] + {p}])
  }

  /** A fresh page: the file is extended with zeros at once, the group's owner holds it. */
  ghost predicate DoNewPage(s: State, s': State, t: TxId)
  {
    && s.ck.Idle? && t in s.ops
    && var p := s.numPages;
       s' == s.(numPages := p + 1, ops := s.ops[t := s.ops[t] + {p}],
                latest := s.latest[p := ZEROED], file := s.file[p := MayFind(s.file, p) + {Readable(ZEROED), Torn}])
  }

  /** A page record: an image, or (once the page has been imaged in this epoch) a key
      record whose change fits the leaf. The page LSN becomes the record's. */
  ghost predicate DoLogPage(s: State, s': State, t: TxId, p: PageId, b: Body, end: bool)
  {
    && s.ck.Idle? && t in s.ops && p in s.ops[t] && OnPage(b, p)
    && var v := At(s.cur, p);
       var v' := AfterRecord(v, b, s.first + |s.log|);
       && (!b.PageImage? ==>
             && p in s.imaged && IsLeafNode(v.node) && Sorted(v.node.value.keys)
             && Fits(v'.node.value))
       && s' == s.(log := s.log + [Record(t, end, b)], cur := s.cur[p := v'], dirty := s.dirty + {p},
                   imaged := if b.PageImage? then s.imaged + {p} else s.imaged,
                   ops := if end then s.ops - {t} else s.ops)
  }

  /** `EnsureBegun`, `Commit` and `Abort` move the counter together with their record. */
  function Counted(begunTxns: nat, b: Body): nat
  {
    if b.Begin? then begunTxns + 1
    else if (b.Commit? || b.Abort?) && begunTxns > 0 then begunTxns - 1
    else begunTxns
  }

  /** Allocation and root records inside a group, transaction markers as groups of
      their own. A root change always ends its group. */
  ghost predicate DoLogOther(s: State, s': State, t: TxId, b: Body, end: bool)
  {
    && s.ck.Idle? && (b.AllocPage? || b.RootChange? || b.Begin? || b.Commit? || b.Abort?)
    && (b.AllocPage? || b.RootChange? ==> t in s.ops)
    && (b.Begin? || b.Commit? || b.Abort? ==> end && t !in s.ops)
    && (b.RootChange? ==> end)
    && s' == s.(log := s.log + [Record(t, end, b)], root := if b.RootChange? then Some(b.page) else s.root,
                begunTxns := Counted(s.begunTxns, b), ops := if end then s.ops - {t} else s.ops)
  }

  /** The write-ahead rule: flush everything, then write. */
  ghost predicate DoWriteBack(s: State, s': State, p: PageId)
  {
    && (s.ck.Idle? || s.ck.Flushing?) && p in s.dirty && Unheld(s, p)
    && s' == s.(durable := |s.log|, dirty := s.dirty - {p}, latest := s.latest[p := At(s.cur, p)],
                file := s.file[p := MayFind(s.file, p) + {Readable(At(s.cur, p)), Torn}])
  }

  ghost predicate DoCkSync(s: State, s': State)
  {
    && s.ck.Flushing? && s.dirty == {}
    && s' == s.(ck := Flushed, file := map p | p in s.file :: {Readable(At(s.latest, p))})
  }

  function NewMeta(s: State): Meta { Meta(s.last.gen + 1, s.first + |s.log|, s.numPages, s.root) }

  ghost predicate DoCkMeta(s: State, s': State)
  {
    && s.ck.Marked?
    && var m := NewMeta(s);
       var seen := {GoodMeta(m), TornMeta};
       s' == s.(ck := MetaWritten(m),
                even := if m.gen % 2 == 0 then s.even + seen else s.even,
                odd := if m.gen % 2 == 1 then s.odd + seen else s.odd)
  }

  ghost predicate DoCkMetaSync(s: State, s': State)
  {
    && s.ck.MetaWritten?
    && var m := s.ck.m;
       s' == s.(ck := MetaSynced(m),
                even := if m.gen % 2 == 0 then {GoodMeta(m)} else s.even,
                odd := if m.gen % 2 == 1 then {GoodMeta(m)} else s.odd)
  }

  /** The log restarts at the checkpoint; a new image epoch begins. */
  ghost predicate DoCkTruncate(s: State, s': State)
  {
    && s.ck.MetaSynced?
    && s' == s.(ck := Idle, log := [], first := s.first + |s.log|, durable := 0, imaged := {}, last := s.ck.m,
       v0 := s.cur)
  }

  ghost predicate Next(s: State, s': State, step: Step)
  {
    match step
    case OpenGroup(t) => s.ck.Idle? && t !in s.ops && s' == s.(ops := s.ops[t := {}])
    case Hold(t, p) => DoHold(s, s', t, p)
    case NewPage(t) => DoNewPage(s, s', t)
    case LogPage(t, p, b, end) => DoLogPage(s, s', t, p, b, end)
    case LogOther(t, b, end) => DoLogOther(s, s', t, b, end)
    case FlushLog(n) => s.durable <= n <= |s.log| && s' == s.(durable := n)
    case WriteBack(p) => DoWriteBack(s, s', p)
    case CkStart => s.ck.Idle? && s.ops == map[] && s' == s.(ck := Flushing, durable := |s.log|)
    case CkSync => DoCkSync(s, s')
    case CkStop => s.ck.Flushed? && s' == s.(ck := Idle)
    case CkMark =>
      // While a begun transaction is in flight the log is kept: no marker, no new meta.
      s.ck.Flushed? && s.begunTxns == 0 && s' == s.(ck := Marked, log := s.log + [Record(0, true, Checkpoint)],
        durable := |s.log| + 1)
    case CkMeta => DoCkMeta(s, s')
    case CkMetaSync => DoCkMetaSync(s, s')
    case CkTruncate => DoCkTruncate(s, s')
  }

  /** A freshly opened (or recovered and checkpointed) database: every page is in the
      file, the log is empty, one meta slot holds the checkpoint and the other nothing
      newer. */
  ghost predicate Init(s: State)
  {
    && s.log == [] && s.durable == 0 && s.ops == map[] && s.imaged == {} && s.dirty == {} && s.ck == Idle
       && s.begunTxns == 0
    && s.first > 0 && s.last.ckpt <= s.first
    && s.cur == s.v0 && s.numPages == s.last.numPages && s.root == s.last.root
    && (forall p :: p in s.v0 ==> p < s.numPages && s.v0[p].lsn < s.first)
    && (forall p: PageId :: p < s.numPages ==>
       p in s.file && At(s.latest, p) == At(s.v0, p) && s.file[p] == {Readable(At(s.v0, p))})
    && MetasOk(s)
  }

  // ------------------------------------------------------------ metas

  function Slot(s: State, gen: nat): set<MetaDisk> { if gen % 2 == 0 then s.even else s.odd }

  /** The slot of the last checkpoint is intact; the other may hold anything older,
      the same, damage, or the meta being written. */
  ghost predicate MetasOk(s: State)
  {
    && Slot(s, s.last.gen) == {GoodMeta(s.last)}
    && (forall x :: x in Slot(s, s.last.gen + 1) ==>
          || x.TornMeta? || x == GoodMeta(s.last) || x.m.gen < s.last.gen
          || (s.ck.MetaWritten? && x == GoodMeta(s.ck.m)) || (s.ck.MetaSynced? && x == GoodMeta(s.ck.m)))
    && (s.ck.MetaSynced? ==> Slot(s, s.last.gen + 1) == {GoodMeta(s.ck.m)})
  }

  /** `Pager::Open`: of the readable slots take the newer generation, slot 0 on a tie. */
  function Choose(even: MetaDisk, odd: MetaDisk): Option<Meta>
  {
    if even.TornMeta? && odd.TornMeta? then None
    else if even.TornMeta? then Some(odd.m)
    else if odd.TornMeta? then Some(even.m)
    else if odd.m.gen > even.m.gen then Some(odd.m)
    else Some(even.m)
  }

  // ------------------------------------------------------------ invariant

  ghost function RootAfter(log: seq<Record>, root: Option<PageId>): Option<PageId>
  {
    if log == [] then root
    else if log[|log| - 1].body.RootChange? then Some(log[|log| - 1].body.page)
    else RootAfter(log[..|log| - 1], root)
  }

  ghost predicate RootsEnd(log: seq<Record>) { forall i :: 0 <= i < |log| && log[i].body.RootChange? ==> log[i].opEnd }

  ghost predicate HasImage(log: seq<Record>, p: PageId)
  {
    exists j :: 0 <= j < |log| && log[j].body.PageImage? && log[j].body.page == p
  }

  ghost predicate Touched(log: seq<Record>, p: PageId) { exists j :: 0 <= j < |log| && OnPage(log[j].body, p) }

  ghost predicate PageInv(s: State, p: PageId)
    requires s.durable <= |s.log|
  {
    && At(s.cur, p) == Hist(s.log, s.first, |s.log|, p, At(s.v0, p))
    && PageLogOk(s.log, s.first, p, At(s.v0, p))
    && (p in s.imaged ==> HasImage(s.log, p))
    && (p in s.dirty ==> Touched(s.log, p))
    && (p !in s.dirty && p < s.numPages ==> At(s.latest, p) == At(s.cur, p))
    && (p >= s.last.numPages ==> At(s.v0, p) == ZEROED)
    && (p >= s.numPages ==> At(s.cur, p) == ZEROED && p !in s.dirty)
  }

  /** Write-ahead with whole groups: whatever a crash may find of a page is covered by
      complete groups of the durable log. */
  ghost predicate FileInv(s: State, p: PageId)
    requires s.durable <= |s.log|
  {
    && (p < s.numPages ==> p in s.file && DiskOk(s.log[..s.durable], s.first, p, At(s.v0, p),
       Readable(At(s.latest, p))))
    && (p < s.last.numPages ==>
          forall d :: d in MayFind(s.file, p) ==> DiskOk(s.log[..s.durable], s.first, p, At(s.v0, p), d))
    && ((s.ck.Flushed? || s.ck.Marked? || s.ck.MetaWritten? || s.ck.MetaSynced?) && p < s.numPages ==>
          p in s.file && s.file[p] == {Readable(At(s.cur, p))})
  }

  /** Records of an unfinished group only touch pages its owner still holds. */
  ghost predicate OpenInv(s: State, i: nat)
  {
    i < |s.log| && !Applicable(s.log, i) ==>
      && s.log[i].txid in s.ops
      && (forall p :: OnPage(s.log[i].body, p) ==> p in s.ops[s.log[i].txid])
  }

  ghost predicate GlobalInv(s: State)
  {
    && s.durable <= |s.log| && s.first > 0 && s.last.ckpt <= s.first && s.last.numPages <= s.numPages
    && MetasOk(s)
    && s.root == RootAfter(s.log, s.last.root) && RootsEnd(s.log)
    && (forall t, u, p :: t in s.ops && u in s.ops && p in s.ops[t] && p in s.ops[u] ==> t == u)
    && (forall t, p :: t in s.ops && p in s.ops[t] ==> p < s.numPages)
    && (!s.ck.Idle? ==> s.ops == map[] && s.durable == |s.log|)
    && (s.ck.Flushed? || s.ck.Marked? || s.ck.MetaWritten? || s.ck.MetaSynced? ==> s.dirty == {})
    && (s.ck.MetaWritten? || s.ck.MetaSynced? ==> s.ck.m == NewMeta(s))
    && (s.ck.Marked? || s.ck.MetaWritten? || s.ck.MetaSynced? ==> s.begunTxns == 0)
  }

  ghost predicate Inv(s: State)
  {
    && GlobalInv(s)
    && (forall p {:trigger PageInv(s, p)} :: PageInv(s, p))
    && (forall p {:trigger FileInv(s, p)} :: FileInv(s, p))
    && (forall i {:trigger OpenInv(s, i)} :: OpenInv(s, i))
  }

  // ------------------------------------------------------------ crash and recovery

  /** What a crash leaves: `n` records of the log, one of the values each page and each
      meta slot may hold. */
  datatype Crash = Crash(n: nat, disk: map<PageId, Disk>, even: MetaDisk, odd: MetaDisk)

  ghost predicate MayLeave(s: State, c: Crash)
  {
    && s.durable <= c.n <= |s.log| && c.even in s.even && c.odd in s.odd
    && (forall p :: p in c.disk <==> p in s.file)
    && (forall p :: p in c.disk ==> c.disk[p] in s.file[p])
  }

  /** The records recovery looks at: those at or past the chosen meta's checkpoint. */
  function Replayed(log: seq<Record>, first: nat, ckpt: nat): seq<Record>
  {
    if ckpt <= first then log else if ckpt <= first + |log| then log[ckpt - first..] else []
  }

  /** A page as recovery starts from it: pages past the chosen meta's count are zeroed
      when they are allocated again. */
  function Found(c: Crash, m: Meta, p: PageId): Disk
  {
    if p < m.numPages && p in c.disk then c.disk[p] else Readable(ZEROED)
  }

  ghost function RootRedone(log: seq<Record>, n: nat, root: Option<PageId>): Option<PageId>
    requires n <= |log|
  {
    if n == 0 then root
    else if Applicable(log, n - 1) && log[n - 1].body.RootChange? then Some(log[n - 1].body.page)
    else RootRedone(log, n - 1, root)
  }

  /** Recovery from crash `c` leaves page `p` as `v`. */
  ghost predicate RecoversTo(log: seq<Record>, first: nat, c: Crash, m: Meta, p: PageId, v: Version)
  {
    c.n <= |log| &&
    var e := Replayed(log[..c.n], first, m.ckpt);
    RedoPage(e, if m.ckpt <= first then first else m.ckpt, |e|, p, Found(c, m, p)) == Some(Readable(v))
  }
}
