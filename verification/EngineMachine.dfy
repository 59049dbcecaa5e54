/** The engine in one machine: the latch protocol, the page and log layer and the
    transactions of LatchMachine, WalMachine and TxnMachine take their steps together.

    A write is a job. It opens its group when its thread has reached the place it will
    write at, logs the records the tree code logs for that case, in that order, and ends
    with the record that makes the thread let go, the group complete and the effect
    visible, all at once. A splitting Put changes the tree in memory when it splits and
    logs the pages afterwards, one record at a time; it carries its separator up under
    the exclusive root latch until a parent absorbs it or a new root is made.

    Steps in which the code would find a half with no room (and poison the handle) do
    not occur. */
module EngineMachine {
  import opened Keys
  import opened Nodes
  import opened TxnLog
  import opened TreeShape
  import opened TreeEdits
  import opened TreeSplits
  import opened TreeCapacity
  import L = LatchMachine
  import W = WalMachine
  import T = TxnMachine

  /** Fresh: nothing logged yet. Imaged: the leaf's image is logged, its key record is
      not. Rooting: the first leaf is being logged. Carrying: a split is on its way up.
      Growing: it has passed the root and the new root is being logged. */
  datatype Stage = Fresh | Imaged(page: PageId) | Rooting(page: PageId) | Carrying | Growing(page: PageId)

  /** A group being written: by which thread, how far, and which records come next. */
  datatype Job = Job(tid: L.Tid, stage: Stage, plan: seq<Body>)

  /** `settled`: the tree of the complete operations, without the split that `carrier`
      has under way. */
  datatype State = State(
    latch: L.State, wal: W.State, txn: T.State,
    settled: Option<Shape>, jobs: map<TxId, Job>, carrier: Option<TxId>)

  datatype Step =
    | LatchStep(latchStep: L.Step)
    | Miss(tid: L.Tid)
    | MissInverse(x: TxId, tid: L.Tid)
    | Read(x: TxId, tid: L.Tid)
    | TxnStep(txnStep: T.Step)
    | WalStep(walStep: W.Step)
    | Marker(x: TxId, b: Body)
    | Mark
    | Truncate
    | Open(x: TxId, tid: L.Tid, kind: T.Kind)
    | Hold(x: TxId, page: PageId)
    | NewPage(x: TxId)
    | Log(x: TxId)
    | LogImage(x: TxId)
    | EndLeaf(x: TxId)
    | StartRoot(x: TxId, page: PageId)
    | EndRoot(x: TxId)
    | StartSplit(x: TxId, page: PageId)
    | SplitParent(x: TxId, page: PageId)
    | EndAbsorb(x: TxId)
    | StartGrow(x: TxId, page: PageId)
    | EndGrow(x: TxId)

  // ------------------------------------------------------------ threads without a group

  /** The thread is not writing for any group. */
  ghost predicate Free(s: State, tid: L.Tid) { forall x :: x in s.jobs ==> s.jobs[x].tid != tid }

  /** Steps that change the tree. */
  predicate Mutates(step: L.Step)
  {
    || step.MakeRoot? || step.EraseLeaf? || step.WriteLeaf? || step.SplitLeaf? || step.Absorb? || step.SplitInner?
    || step.NewRoot?
  }

  ghost predicate DoLatch(s: State, s': State, step: L.Step)
  {
    Free(s, step.t) && !Mutates(step) && L.Next(s.latch, s'.latch, step) && s' == s.(latch := s'.latch)
  }

  /** A delete that finds no such key: NotFound, and nothing is logged. */
  ghost predicate DoMiss(s: State, s': State, tid: L.Tid)
  {
    && Free(s, tid) && L.Next(s.latch, s'.latch, L.EraseLeaf(tid)) && s' == s.(latch := s'.latch)
    && var y := s.latch.threads[tid];
       !Has(s.latch.tree.value.pages[y.pc.cur].keys, y.op.key)
  }

  /** The same met by a rollback, for which it counts as done. */
  ghost predicate DoMissInverse(s: State, s': State, x: TxId, tid: L.Tid)
  {
    && T.Next(s.txn, s'.txn, T.SkipInverse(x))
    && DoMiss(s, s'.(txn := s.txn), tid)
    && var t := s.txn.txns[x];
       s.latch.threads[tid].op == L.DeleteOp(t.undo[t.phase.todo - 1].key)
  }

  /** A transaction's read, under its lock, of whatever the leaf says. */
  ghost predicate DoRead(s: State, s': State, x: TxId, tid: L.Tid)
  {
    && Free(s, tid) && tid in s.latch.threads && s.latch.threads[tid].op.GetOp?
    && (L.Next(s.latch, s'.latch, L.ReadLeaf(tid)) || L.Next(s.latch, s'.latch, L.FindEmpty(tid)))
    && T.Next(s.txn, s'.txn, T.ReadKey(x, s.latch.threads[tid].op.key))
    && s' == s.(latch := s'.latch, txn := s'.txn)
  }

  // ------------------------------------------------------------ transactions and checkpoints

  /** Steps of a transaction that log nothing. */
  ghost predicate DoTxn(s: State, s': State, step: T.Step)
  {
    && (step.BeginTxn? || step.AcquireLock? || step.StartAbort? || step.CommitTxn? || step.FinishAbort?)
    && T.Next(s.txn, s'.txn, step)
    && (step.CommitTxn? || step.FinishAbort? ==> step.t in s.txn.txns && !s.txn.txns[step.t].begun)
    && s' == s.(txn := s'.txn)
  }

  ghost predicate DoWal(s: State, s': State, step: W.Step)
  {
    && (step.FlushLog? || step.WriteBack? || step.CkStart? || step.CkSync? || step.CkStop? || step.CkMeta?
       || step.CkMetaSync?)
    && W.Next(s.wal, s'.wal, step) && s' == s.(wal := s'.wal)
  }

  /** `kBegin`, `kCommit`, `kAbort`: groups of one record. */
  ghost predicate DoMarker(s: State, s': State, x: TxId, b: Body)
  {
    && (b.Begin? || b.Commit? || b.Abort?)
    && W.Next(s.wal, s'.wal, W.LogOther(x, b, true))
    && T.Next(s.txn, s'.txn, if b.Begin? then T.LogBegin(x) else if b.Commit? then T.CommitTxn(x) else T.FinishAbort(x))
    && (b.Commit? || b.Abort? ==> x in s.txn.txns && s.txn.txns[x].begun)
    && s' == s.(wal := s'.wal, txn := s'.txn)
  }

  ghost predicate DoMark(s: State, s': State)
  {
    && W.Next(s.wal, s'.wal, W.CkMark) && T.Next(s.txn, s'.txn, T.MarkCheckpoint)
    && s' == s.(wal := s'.wal, txn := s'.txn)
  }

  ghost predicate DoTruncate(s: State, s': State)
  {
    && W.Next(s.wal, s'.wal, W.CkTruncate) && T.Next(s.txn, s'.txn, T.Truncate)
    && s' == s.(wal := s'.wal, txn := s'.txn)
  }

  // ------------------------------------------------------------ opening a group

  predicate Matches(op: L.Op, key: Key, value: Option<Value>)
  {
    match op
    case GetOp(_) => false
    case DeleteOp(k) => k == key && value.None?
    case PutOp(k, v) => k == key && value == Some(v)
  }

  function ValueOf(op: L.Op): Option<Value> { if op.PutOp? then Some(op.value) else None }

  /** Where a thread that is about to write a leaf writes. */
  function EditPage(y: L.Thread): PageId { if y.pc.Down? then y.pc.cur else L.PutLeaf(y) }

  predicate LeafNode(n: Node) { n.Leaf? && |n.keys| == |n.vals| }

  /** At the point of writing: a delete on the leaf that has its key, a Put on a leaf
      with room and nothing else held, a Put on a full leaf with path and right
      neighbour held, or a Put on an empty tree. */
  ghost predicate Ready(s: L.State, tid: L.Tid)
  {
    && tid in s.threads
    && var y := s.threads[tid];
       if y.pc.Rooted? then s.tree.None? && y.full && y.op.PutOp?
       else
         && L.AtLeaf(s, tid, EditPage(y))
         && var n := s.tree.value.pages[EditPage(y)];
            || (y.op.DeleteOp? && y.pc.Down? && Has(n.keys, y.op.key))
            || (y.op.PutOp? && y.pc.Leafed? && Fits(LeafWrite(n, y.op.key, y.op.value)))
            || (y.op.PutOp? && y.pc.Path? && !Fits(LeafWrite(n, y.op.key, y.op.value))
                && (n.next.Some? ==> n.next.value in y.owned))
  }

  ghost predicate DoOpen(s: State, s': State, x: TxId, tid: L.Tid, kind: T.Kind)
  {
    && Free(s, tid) && Ready(s.latch, tid) && W.Next(s.wal, s'.wal, W.OpenGroup(x))
    && var op := s.latch.threads[tid].op;
       && T.Next(s.txn, s'.txn,
                 match kind
                 case Forward => T.StartWrite(x, op.key, ValueOf(op))
                 case Auto => T.StartAuto(x, op.key, ValueOf(op))
                 case Inverse => T.StartInverse(x))
       && x in s'.txn.open && Matches(op, s'.txn.open[x].key, s'.txn.open[x].value)
       && s' == s.(wal := s'.wal, txn := s'.txn, jobs := s.jobs[x := Job(tid, Fresh, [])])
  }

  /** Between the records of one case and those of the next. */
  ghost predicate Between(s: State, x: TxId)
  {
    x in s.jobs && s.jobs[x].plan == [] && (s.jobs[x].stage.Fresh? || s.jobs[x].stage.Carrying?)
  }

  /** The group keeps a page its thread has latched exclusively until it ends. */
  ghost predicate DoHold(s: State, s': State, x: TxId, p: PageId)
  {
    && Between(s, x) && s.jobs[x].tid in s.latch.threads && p in s.latch.threads[s.jobs[x].tid].owned
    && W.Next(s.wal, s'.wal, W.Hold(x, p)) && s' == s.(wal := s'.wal)
  }

  ghost predicate DoNewPage(s: State, s': State, x: TxId)
  {
    Between(s, x) && W.Next(s.wal, s'.wal, W.NewPage(x)) && s' == s.(wal := s'.wal)
  }

  // ------------------------------------------------------------ logging

  predicate PageBody(b: Body) { b.PageImage? || b.PutRec? || b.DeleteRec? }

  function LogStep(x: TxId, b: Body, end: bool): W.Step
  {
    if PageBody(b) then W.LogPage(x, b.page, b, end) else W.LogOther(x, b, end)
  }

  /** One record goes into the log, for pages and for transactions alike. */
  ghost predicate Logs(s: State, s': State, x: TxId, b: Body, end: bool)
  {
    && W.Next(s.wal, s'.wal, LogStep(x, b, end))
    && T.Next(s.txn, s'.txn, T.AppendRecord(x, Record(x, end, b)))
  }

  /** The next record of the plan. */
  ghost predicate DoLog(s: State, s': State, x: TxId)
  {
    && x in s.jobs && s.jobs[x].plan != []
    && var plan := s.jobs[x].plan;
       && Logs(s, s', x, plan[0], false)
       && s' == s.(wal := s'.wal, txn := s'.txn, jobs := s.jobs[x := s.jobs[x].(plan := plan[1..])])
  }

  function EditLeaf(n: Node, k: Key, v: Option<Value>): (r: Node)
  {
    if !LeafNode(n) then n else if v.Some? then LeafWrite(n, k, v.value) else LeafErase(n, k)
  }

  /** The key record. Only a transaction's own write carries its before-image. */
  function KeyBody(op: T.OpenOp, p: PageId): Body
  {
    var before := if op.kind.Forward? then op.before else None;
    if op.value.Some? then PutRec(p, op.key, op.value.value, before) else DeleteRec(p, op.key, before)
  }

  ghost predicate AtEdit(s: State, x: TxId)
  {
    && x in s.jobs && x in s.txn.open && s.jobs[x].tid in s.latch.threads
    && var y := s.latch.threads[s.jobs[x].tid];
       (y.op.DeleteOp? || y.pc.Leafed?) && L.AtLeaf(s.latch, s.jobs[x].tid, EditPage(y))
  }

  /** The leaf job `x` edits, and what becomes of it. */
  ghost function EditOf(s: State, x: TxId): (PageId, Node)
    requires AtEdit(s, x)
  {
    var p := EditPage(s.latch.threads[s.jobs[x].tid]);
    (p, EditLeaf(s.latch.tree.value.pages[p], s.txn.open[x].key, s.txn.open[x].value))
  }

  /** The page's first record since the checkpoint must be a full image; when the key
      record has to follow, the image does not end the group. */
  ghost predicate DoLogImage(s: State, s': State, x: TxId)
  {
    && AtEdit(s, x) && s.jobs[x].stage.Fresh? && s.jobs[x].plan == []
    && var (p, w) := EditOf(s, x);
       && s.txn.open[x].kind.Forward? && p !in s.wal.imaged
       && Logs(s, s', x, PageImage(p, w), false)
       && s' == s.(wal := s'.wal, txn := s'.txn, jobs := s.jobs[x := s.jobs[x].(stage := Imaged(p))])
  }

  /** The record that ends an edit of one leaf. */
  ghost predicate DoEndLeaf(s: State, s': State, x: TxId)
  {
    && AtEdit(s, x) && s.jobs[x].plan == [] && s.settled.Some?
    && var (p, w) := EditOf(s, x);
       && (s.jobs[x].stage == Fresh || s.jobs[x].stage == Imaged(p))
       && (s.txn.open[x].kind.Forward? ==> p in s.wal.imaged)
       && Logs(s, s', x, if p in s.wal.imaged then KeyBody(s.txn.open[x], p) else PageImage(p, w), true)
       && L.Next(s.latch, s'.latch, if s.txn.open[x].value.Some? then L.WriteLeaf(s.jobs[x].tid)
          else L.EraseLeaf(s.jobs[x].tid))
       && s' == State(s'.latch, s'.wal, s'.txn, Some(WithNode(s.settled.value, p, w)), s.jobs - {x}, s.carrier)
  }

  // ------------------------------------------------------------ the first leaf

  function FirstLeaf(op: T.OpenOp): Node { Leaf([op.key], [if op.value.Some? then op.value.value else []], None, None) }

  /** A record too large for an empty page was rejected before anything changed. */
  ghost predicate DoStartRoot(s: State, s': State, x: TxId, p: PageId)
  {
    && x in s.jobs && x in s.txn.open && x in s.wal.ops && s.jobs[x].stage.Fresh? && s.jobs[x].plan == []
    && s.latch.tree.None? && s.jobs[x].tid in s.latch.threads && s.latch.threads[s.jobs[x].tid].pc.Rooted?
    && p in s.wal.ops[x] && W.At(s.wal.cur, p).node.None? && Fits(FirstLeaf(s.txn.open[x]))
    && s' == s.(jobs := s.jobs[x := s.jobs[x].(stage := Rooting(p),
       plan := [AllocPage(p), PageImage(p, FirstLeaf(s.txn.open[x]))])])
  }

  ghost predicate DoEndRoot(s: State, s': State, x: TxId)
  {
    && x in s.jobs && s.jobs[x].stage.Rooting? && s.jobs[x].plan == []
    && var p := s.jobs[x].stage.page;
       && Logs(s, s', x, RootChange(p), true)
       && L.Next(s.latch, s'.latch, L.MakeRoot(s.jobs[x].tid, p))
       && s' == State(s'.latch, s'.wal, s'.txn, s'.latch.tree, s.jobs - {x}, s.carrier)
  }

  // ------------------------------------------------------------ splits

  /** What a leaf split logs: the allocation, both halves, the right neighbour, and the
      key record on the half the record went to. */
  function SplitPlan(pages: map<PageId, Node>, p: PageId, r: PageId, op: T.OpenOp): (plan: seq<Body>)
    requires p in pages && LeafNode(pages[p]) && LeafErase(pages[p], op.key).keys != []
  {
    var n := LeafErase(pages[p], op.key);
    var at := |n.keys| / 2;
    [AllocPage(r), PageImage(p, LeftLeaf(n, at, r)), PageImage(r, RightLeaf(n, at, p))]
    + (if n.next.Some? && n.next.value in pages then [PageImage(n.next.value, RelinkPrev(pages[n.next.value], r))]
      else [])
    + [KeyBody(op, if Less(op.key, n.keys[at]) then p else r)]
  }

  /** The full leaf splits and takes the record, in memory; the log follows. */
  ghost predicate DoStartSplit(s: State, s': State, x: TxId, r: PageId)
  {
    && x in s.jobs && x in s.txn.open && x in s.wal.ops && s.jobs[x].stage.Fresh? && s.jobs[x].plan == []
    && var tid := s.jobs[x].tid;
       && L.Next(s.latch, s'.latch, L.SplitLeaf(tid, r))
       && var p := L.PutLeaf(s.latch.threads[tid]);
          var pages := s.latch.tree.value.pages;
          && p in s.wal.ops[x] && r in s.wal.ops[x] && (pages[p].next.Some? ==> pages[p].next.value in s.wal.ops[x])
          && s.txn.open[x].key == s.latch.threads[tid].op.key && LeafErase(pages[p], s.txn.open[x].key).keys != []
          && AllFit(s'.latch.tree.value.pages)
          && s' == s.(latch := s'.latch, carrier := Some(x),
                      jobs := s.jobs[x := Job(tid, Carrying, SplitPlan(pages, p, r, s.txn.open[x]))])
  }

  /** The page the pending pair hangs under. */
  ghost function Above(g: Shape): PageId
  {
    if g.pend.Split? && g.pend.left in g.info then g.info[g.pend.left].parent else 0
  }

  ghost function PendKey(g: Shape): Key {
    if g.pend.Split? && g.pend.right in g.info then g.info[g.pend.right].lo else []
  }

  /** What the split of a full parent logs: the allocation, both halves, and once more
      the half that takes the separator. */
  ghost function ParentPlan(g: Shape, r: PageId): (plan: seq<Body>)
    requires g.pend.Split? && Above(g) in g.pages && IsInner(g.pages[Above(g)]) && g.pages[Above(g)].keys != []
  {
    var (q, sep) := (Above(g), PendKey(g));
    var n := g.pages[q];
    var at := |n.keys| / 2;
    var (a, b) := HalvesWith(n, at, sep, g.pend.left, g.pend.right);
    [AllocPage(r), PageImage(q, LeftInner(n, at)), PageImage(r, RightInner(n, at)),
     if Less(sep, n.keys[at]) then PageImage(q, a) else PageImage(r, b)]
  }

  ghost predicate DoSplitParent(s: State, s': State, x: TxId, r: PageId)
  {
    && x in s.jobs && x in s.wal.ops && s.jobs[x].stage.Carrying? && s.jobs[x].plan == []
    && L.Next(s.latch, s'.latch, L.SplitInner(s.jobs[x].tid, r))
    && var g := s.latch.tree.value;
       && Above(g) in s.wal.ops[x] && r in s.wal.ops[x]
       && AllFit(s'.latch.tree.value.pages)
       && s' == s.(latch := s'.latch, jobs := s.jobs[x := s.jobs[x].(plan := ParentPlan(g, r))])
  }

  /** A parent with room takes the separator: its image ends the group. */
  ghost predicate DoEndAbsorb(s: State, s': State, x: TxId)
  {
    && x in s.jobs && s.jobs[x].stage.Carrying? && s.jobs[x].plan == []
    && L.Next(s.latch, s'.latch, L.Absorb(s.jobs[x].tid))
    && var q := Above(s.latch.tree.value);
       && q in s'.latch.tree.value.pages
       && Logs(s, s', x, PageImage(q, s'.latch.tree.value.pages[q]), true)
       && s' == State(s'.latch, s'.wal, s'.txn, s'.latch.tree, s.jobs - {x}, None)
  }

  ghost function GrowNode(g: Shape): Node
  {
    if g.pend.Split? then Internal([PendKey(g)], [g.pend.left, g.pend.right]) else Internal([], [])
  }

  ghost predicate DoStartGrow(s: State, s': State, x: TxId, r: PageId)
  {
    && x in s.jobs && x in s.wal.ops && s.jobs[x].stage.Carrying? && s.jobs[x].plan == [] && s.latch.tree.Some?
    && s.jobs[x].tid in s.latch.threads
    && var (g, y) := (s.latch.tree.value, s.latch.threads[s.jobs[x].tid]);
       && y.pc.Splitting? && |y.pc.stack| == 1
       && r in s.wal.ops[x] && r !in g.pages && Fits(GrowNode(g))
       && s' == s.(jobs := s.jobs[x := s.jobs[x].(stage := Growing(r),
          plan := [AllocPage(r), PageImage(r, GrowNode(g))])])
  }

  ghost predicate DoEndGrow(s: State, s': State, x: TxId)
  {
    && x in s.jobs && s.jobs[x].stage.Growing? && s.jobs[x].plan == []
    && var r := s.jobs[x].stage.page;
       && Logs(s, s', x, RootChange(r), true)
       && L.Next(s.latch, s'.latch, L.NewRoot(s.jobs[x].tid, r))
       && s' == State(s'.latch, s'.wal, s'.txn, s'.latch.tree, s.jobs - {x}, None)
  }

  ghost predicate Next(s: State, s': State, step: Step)
  {
    match step
    case LatchStep(latchStep) => DoLatch(s, s', latchStep)
    case Miss(tid) => DoMiss(s, s', tid)
    case MissInverse(x, tid) => DoMissInverse(s, s', x, tid)
    case Read(x, tid) => DoRead(s, s', x, tid)
    case TxnStep(txnStep) => DoTxn(s, s', txnStep)
    case WalStep(walStep) => DoWal(s, s', walStep)
    case Marker(x, b) => DoMarker(s, s', x, b)
    case Mark => DoMark(s, s')
    case Truncate => DoTruncate(s, s')
    case Open(x, tid, kind) => DoOpen(s, s', x, tid, kind)
    case Hold(x, p) => DoHold(s, s', x, p)
    case NewPage(x) => DoNewPage(s, s', x)
    case Log(x) => DoLog(s, s', x)
    case LogImage(x) => DoLogImage(s, s', x)
    case EndLeaf(x) => DoEndLeaf(s, s', x)
    case StartRoot(x, p) => DoStartRoot(s, s', x, p)
    case EndRoot(x) => DoEndRoot(s, s', x)
    case StartSplit(x, r) => DoStartSplit(s, s', x, r)
    case SplitParent(x, r) => DoSplitParent(s, s', x, r)
    case EndAbsorb(x) => DoEndAbsorb(s, s', x)
    case StartGrow(x, r) => DoStartGrow(s, s', x, r)
    case EndGrow(x) => DoEndGrow(s, s', x)
  }

  // ------------------------------------------------------------ at rest

  function TreePage(g: Option<Shape>, p: PageId): Option<Node>
  {
    if g.Some? && p in g.value.pages then Some(g.value.pages[p]) else None
  }

  function RootOf(g: Option<Shape>): Option<PageId> { if g.Some? then Some(g.value.root) else None }

  /** A freshly opened or recovered database: no thread, no transaction, an empty log,
      and pages that hold the tree. */
  ghost predicate Init(s: State)
  {
    && s.latch.threads == map[] && s.latch.tree == s.settled && TreeWith(s.settled, s.txn.m)
    && W.Init(s.wal) && T.Init(s.txn)
    && s.jobs == map[] && s.carrier.None?
    && s.txn.rooted == s.settled.Some? && s.wal.root == RootOf(s.settled)
    && (forall p {:trigger W.At(s.wal.v0, p)} :: W.At(s.wal.v0, p).node == TreePage(s.settled, p))
  }
}
