/** The latch protocol of the tree as a step machine: any number of Gets, Deletes and
    Puts, each advancing one latch operation at a time.

    A step is one latch acquired or released together with what the thread then does to
    pages it holds exclusively. Readers latch shared and couple downwards; a delete
    couples downwards exclusively; a Put first goes down shared under the shared root
    latch, drops the leaf and latches it again exclusively, and only if the leaf is full
    starts over with the root latch and its whole path held exclusively.

    The shape carries the ghost ranges of TreeShape, and the split on its way up, if
    there is one. Nothing here says what map the tree holds. */
module LatchMachine {
  import opened Keys
  import opened Nodes
  import opened TreeShape
  import opened TreeEdits
  import opened TreeSplits
  import opened TreeCapacity

  type Tid = nat

  datatype Mode = Shared | Exclusive

  datatype Op = GetOp(key: Key) | DeleteOp(key: Key) | PutOp(key: Key, value: Value)

  datatype Pc =
    | Start                                         // no latch yet
    | Rooted                                        // root latch held
    | Down(cur: PageId)                             // coupling down, `cur` latched
    | Dropped(cur: PageId)                          // between the leaf's two latches
    | Leafed(cur: PageId)                           // leaf latched exclusively
    | Path(stack: seq<PageId>)                      // pessimistic: whole path held
    | Splitting(stack: seq<PageId>, right: PageId)  // last of `stack` has split off `right`
    | Done

  /** `full`: the optimistic attempt found the leaf full. `result`: what the key held
      when the operation took effect. */
  datatype Thread = Thread(op: Op, pc: Pc, full: bool, root: Option<Mode>, shared: set<PageId>, owned: set<PageId>,
    result: Option<Value>)

  datatype State = State(tree: Option<Shape>, threads: map<Tid, Thread>)

  datatype Step =
    | Spawn(t: Tid, op: Op)
    | LatchRoot(t: Tid)
    | FindEmpty(t: Tid)
    | MakeRoot(t: Tid, page: PageId)
    | Enter(t: Tid)
    | UnlatchRoot(t: Tid)
    | CoupleDown(t: Tid)
    | Unlatch(t: Tid, page: PageId)
    | ReadLeaf(t: Tid)
    | EraseLeaf(t: Tid)
    | DropLeaf(t: Tid)
    | Relatch(t: Tid)
    | WriteLeaf(t: Tid)
    | GiveUp(t: Tid)
    | Descend(t: Tid)
    | KeepLeaf(t: Tid)
    | LatchNext(t: Tid)
    | SplitLeaf(t: Tid, page: PageId)
    | Absorb(t: Tid)
    | SplitInner(t: Tid, page: PageId)
    | NewRoot(t: Tid, page: PageId)

  // ------------------------------------------------------------ latches

  ghost predicate MayRead(s: State, t: Tid, p: PageId) {
    forall u :: u in s.threads && u != t ==> p !in s.threads[u].owned
  }

  ghost predicate MayWrite(s: State, t: Tid, p: PageId)
  {
    forall u :: u in s.threads && u != t ==> p !in s.threads[u].owned && p !in s.threads[u].shared
  }

  /** The page latch an operation takes on its way down. */
  function PageMode(x: Thread): Mode { if x.op.GetOp? || (x.op.PutOp? && !x.full) then Shared else Exclusive }

  ghost predicate MayLatch(s: State, t: Tid, p: PageId, m: Mode) {
    if m.Shared? then MayRead(s, t, p) else MayWrite(s, t, p)
  }

  function Latched(x: Thread, p: PageId): Thread
  {
    if PageMode(x).Shared? then x.(shared := x.shared + {p}) else x.(owned := x.owned + {p})
  }

  function Finished(x: Thread, result: Option<Value>): Thread
  {
    x.(pc := Done, root := None, shared := {}, owned := {}, result := result)
  }

  function WithThread(s: State, t: Tid, x: Thread): State { s.(threads := s.threads[t := x]) }

  function Last(stack: seq<PageId>): PageId { if stack == [] then 0 else stack[|stack| - 1] }

  /** The leaf a thread is about to act on. */
  ghost predicate AtLeaf(s: State, t: Tid, p: PageId)
  {
    && t in s.threads && s.tree.Some? && p in s.tree.value.pages
    && var n := s.tree.value.pages[p]; n.Leaf? && |n.keys| == |n.vals|
  }

  /** What the leaf says of the key. */
  function Found(n: Node, k: Key): Option<Value>
    requires n.Leaf? && |n.keys| == |n.vals|
  {
    if Has(n.keys, k) then Some(n.vals[LowerBound(n.keys, k)]) else None
  }

  /** The child a descent goes to next. */
  ghost predicate NextChild(s: State, p: PageId, k: Key, c: PageId)
  {
    && s.tree.Some? && p in s.tree.value.pages
    && var n := s.tree.value.pages[p];
       n.Internal? && |n.children| == |n.keys| + 1 && c == n.children[ChildIndex(n.keys, k)]
  }

  // ------------------------------------------------------------ steps

  ghost predicate DoLatchRoot(s: State, s': State, t: Tid)
  {
    && t in s.threads && s.threads[t].pc.Start?
    && var x := s.threads[t];
       var m := if x.full then Exclusive else Shared;
       && (forall u :: u in s.threads && u != t ==>
             s.threads[u].root != Some(Exclusive) && (m.Exclusive? ==> s.threads[u].root.None?))
       && s' == WithThread(s, t, x.(pc := Rooted, root := Some(m)))
  }

  /** An empty tree: nothing to read or delete; a Put starts over to make the root. */
  ghost predicate DoFindEmpty(s: State, s': State, t: Tid)
  {
    && t in s.threads && s.threads[t].pc.Rooted? && s.tree.None? && !s.threads[t].full
    && var x := s.threads[t];
       s' == WithThread(s, t, if x.op.PutOp? then x.(pc := Start, root := None, full := true) else Finished(x, None))
  }

  ghost predicate DoMakeRoot(s: State, s': State, t: Tid, p: PageId)
  {
    && t in s.threads && s.threads[t].pc.Rooted? && s.tree.None? && s.threads[t].full && s.threads[t].op.PutOp?
    && var x := s.threads[t];
       var g := Shape(map[p := Leaf([x.op.key], [x.op.value], None, None)], p, map[p := Info([], None, 0, p)], NoSplit);
       s' == State(Some(g), s.threads[t := Finished(x, None)])
  }

  ghost predicate DoEnter(s: State, s': State, t: Tid)
  {
    && t in s.threads && s.threads[t].pc.Rooted? && s.tree.Some?
    && var x := s.threads[t];
       var p := s.tree.value.root;
       && MayLatch(s, t, p, PageMode(x))
       && s' == WithThread(s, t, Latched(x, p).(pc := if x.full then Path([p]) else Down(p)))
  }

  /** Gets and deletes let go of the root latch once the root page is latched; an
      optimistic Put once its leaf is latched exclusively. */
  ghost predicate DoUnlatchRoot(s: State, s': State, t: Tid)
  {
    && t in s.threads
    && var x := s.threads[t];
       && ((x.pc.Down? && !x.op.PutOp?) || x.pc.Leafed?)
       && s' == WithThread(s, t, x.(root := None))
  }

  ghost predicate DoCoupleDown(s: State, s': State, t: Tid)
  {
    && t in s.threads && s.threads[t].pc.Down?
    && var x := s.threads[t];
       exists c :: NextChild(s, x.pc.cur, x.op.key, c) && MayLatch(s, t, c, PageMode(x))
         && s' == WithThread(s, t, Latched(x, c).(pc := Down(c)))
  }

  /** Letting go of a page above the one being worked on. */
  ghost predicate DoUnlatch(s: State, s': State, t: Tid, p: PageId)
  {
    && t in s.threads && s.threads[t].pc.Down? && p != s.threads[t].pc.cur
    && var x := s.threads[t];
       s' == WithThread(s, t, x.(shared := x.shared - {p}, owned := x.owned - {p}))
  }

  ghost predicate DoReadLeaf(s: State, s': State, t: Tid)
  {
    && t in s.threads && s.threads[t].pc.Down? && s.threads[t].op.GetOp? && AtLeaf(s, t, s.threads[t].pc.cur)
    && var x := s.threads[t];
       s' == WithThread(s, t, Finished(x, Found(s.tree.value.pages[x.pc.cur], x.op.key)))
  }

  ghost predicate DoEraseLeaf(s: State, s': State, t: Tid)
  {
    && t in s.threads && s.threads[t].pc.Down? && s.threads[t].op.DeleteOp? && AtLeaf(s, t, s.threads[t].pc.cur)
    && var x := s.threads[t];
       var n := s.tree.value.pages[x.pc.cur];
       s' == State(Some(WithNode(s.tree.value, x.pc.cur, LeafErase(n, x.op.key))),
         s.threads[t := Finished(x, Found(n, x.op.key))])
  }

  ghost predicate DoDropLeaf(s: State, s': State, t: Tid)
  {
    && t in s.threads && s.threads[t].pc.Down? && s.threads[t].op.PutOp? && AtLeaf(s, t, s.threads[t].pc.cur)
    && var x := s.threads[t];
       s' == WithThread(s, t, x.(pc := Dropped(x.pc.cur), shared := {}))
  }

  ghost predicate DoRelatch(s: State, s': State, t: Tid)
  {
    && t in s.threads && s.threads[t].pc.Dropped?
    && var x := s.threads[t];
       MayWrite(s, t, x.pc.cur) && s' == WithThread(s, t, x.(pc := Leafed(x.pc.cur), owned := {x.pc.cur}))
  }

  /** The leaf a Put holds exclusively. */
  function PutLeaf(x: Thread): PageId { if x.pc.Leafed? then x.pc.cur else if x.pc.Path? then Last(x.pc.stack) else 0 }

  /** The write fits: done, without any change of shape. */
  ghost predicate DoWriteLeaf(s: State, s': State, t: Tid)
  {
    && t in s.threads && s.threads[t].op.PutOp? && (s.threads[t].pc.Leafed? || s.threads[t].pc.Path?)
    && AtLeaf(s, t, PutLeaf(s.threads[t]))
    && var x := s.threads[t];
       var p := PutLeaf(x);
       var n := s.tree.value.pages[p];
       && Fits(LeafWrite(n, x.op.key, x.op.value))
       && s' == State(Some(WithNode(s.tree.value, p, LeafWrite(n, x.op.key, x.op.value))),
          s.threads[t := Finished(x, Found(n, x.op.key))])
  }

  ghost predicate DoGiveUp(s: State, s': State, t: Tid)
  {
    && t in s.threads && s.threads[t].pc.Leafed? && s.threads[t].op.PutOp? && AtLeaf(s, t, s.threads[t].pc.cur)
    && var x := s.threads[t];
       && !Fits(LeafWrite(s.tree.value.pages[x.pc.cur], x.op.key, x.op.value))
       && s' == WithThread(s, t, Thread(x.op, Start, true, None, {}, {}, None))
  }

  ghost predicate DoDescend(s: State, s': State, t: Tid)
  {
    && t in s.threads && s.threads[t].pc.Path?
    && var x := s.threads[t];
       exists c :: NextChild(s, Last(x.pc.stack), x.op.key, c) && MayWrite(s, t, c)
         && s' == WithThread(s, t, Latched(x, c).(pc := Path(x.pc.stack + [c])))
  }

  /** The write fits the leaf: everything above it is let go. */
  ghost predicate DoKeepLeaf(s: State, s': State, t: Tid)
  {
    && t in s.threads && s.threads[t].pc.Path? && s.threads[t].op.PutOp? && AtLeaf(s, t, PutLeaf(s.threads[t]))
    && var x := s.threads[t];
       var p := PutLeaf(x);
       && Fits(LeafWrite(s.tree.value.pages[p], x.op.key, x.op.value))
       && s' == WithThread(s, t, x.(pc := Leafed(p), root := None, owned := x.owned * {p}))
  }

  /** The leaf is full: its right neighbour is latched too, to relink it. */
  ghost predicate DoLatchNext(s: State, s': State, t: Tid)
  {
    && t in s.threads && s.threads[t].pc.Path? && AtLeaf(s, t, PutLeaf(s.threads[t]))
    && var x := s.threads[t];
       var next := s.tree.value.pages[PutLeaf(x)].next;
       && next.Some? && MayWrite(s, t, next.value)
       && s' == WithThread(s, t, x.(owned := x.owned + {next.value}))
  }

  function Written(n: Node, k: Key, v: Value): Node {
    if n.Leaf? && |n.keys| == |n.vals| then LeafWrite(n, k, v) else n
  }

  /** The tree with the record on its way into a full leaf: the old record, if any, out,
      the leaf split, the new record in its half. */
  ghost function AfterPutSplit(g: Shape, p: PageId, r: PageId, k: Key, v: Value): Shape
    requires p in g.pages && g.pages[p].Leaf? && |g.pages[p].keys| == |g.pages[p].vals|
    requires CanSplitLeaf(WithNode(g, p, LeafErase(g.pages[p], k)), p, r)
  {
    var n := LeafErase(g.pages[p], k);
    var h := AfterSplitLeaf(WithNode(g, p, n), p, r);
    var q := if Less(k, n.keys[|n.keys| / 2]) then p else r;
    WithNode(h, q, Written(h.pages[q], k, v))
  }

  /** The leaf is full and its right neighbour held: split and insert. */
  ghost predicate DoSplitLeaf(s: State, s': State, t: Tid, r: PageId)
  {
    && t in s.threads && s.threads[t].pc.Path? && s.threads[t].op.PutOp? && AtLeaf(s, t, PutLeaf(s.threads[t]))
    && var x := s.threads[t];
       var p := PutLeaf(x);
       var g := s.tree.value;
       var next := g.pages[p].next;
       && !Fits(LeafWrite(g.pages[p], x.op.key, x.op.value))
       && (next.Some? ==> next.value in x.owned) && MayWrite(s, t, r)
       && CanSplitLeaf(WithNode(g, p, LeafErase(g.pages[p], x.op.key)), p, r)
       && s' == State(Some(AfterPutSplit(g, p, r, x.op.key, x.op.value)),
                      s.threads[t := x.(pc := Splitting(x.pc.stack, r), result := Found(g.pages[p], x.op.key),
                                        owned := x.owned + {r})])
  }

  /** The parent takes the separator: done. */
  ghost predicate DoAbsorb(s: State, s': State, t: Tid)
  {
    && t in s.threads && s.threads[t].pc.Splitting? && |s.threads[t].pc.stack| > 1 && s.tree.Some?
    && CanAbsorb(s.tree.value)
    && Fits(AfterAbsorb(s.tree.value).pages[s.tree.value.info[s.tree.value.pend.left].parent])
    && s' == State(Some(AfterAbsorb(s.tree.value)), s.threads[t := Finished(s.threads[t], s.threads[t].result)])
  }

  /** The parent is full and splits too. */
  ghost predicate DoSplitInner(s: State, s': State, t: Tid, r: PageId)
  {
    && t in s.threads && s.threads[t].pc.Splitting? && |s.threads[t].pc.stack| > 1 && s.tree.Some? && MayWrite(s, t, r)
    && var x := s.threads[t];
       var g := s.tree.value;
       && CanAbsorb(g) && r !in g.pages
       && var q := g.info[g.pend.left].parent;
          var at := |g.pages[q].keys| / 2;
          && IsInner(g.pages[q]) && g.pages[q].keys != [] && !Fits(AfterAbsorb(g).pages[q])
          && CanSplitInner(AfterAbsorb(g), q, r, CutWith(g.pages[q], at, g.info[g.pend.right].lo))
          && s' == State(Some(AfterInnerStep(g, at, r)),
                         s.threads[t := x.(pc := Splitting(x.pc.stack[..|x.pc.stack| - 1], r), owned := x.owned + {r})])
  }

  /** The root itself has split. */
  ghost predicate DoNewRoot(s: State, s': State, t: Tid, r: PageId)
  {
    && t in s.threads && s.threads[t].pc.Splitting? && |s.threads[t].pc.stack| == 1 && s.tree.Some?
    && CanGrow(s.tree.value, r)
    && s' == State(Some(AfterGrow(s.tree.value, r)), s.threads[t := Finished(s.threads[t], s.threads[t].result)])
  }

  ghost predicate Next(s: State, s': State, step: Step)
  {
    match step
    case Spawn(t, op) => t !in s.threads && s' == WithThread(s, t, Thread(op, Start, false, None, {}, {}, None))
    case LatchRoot(t) => DoLatchRoot(s, s', t)
    case FindEmpty(t) => DoFindEmpty(s, s', t)
    case MakeRoot(t, p) => DoMakeRoot(s, s', t, p)
    case Enter(t) => DoEnter(s, s', t)
    case UnlatchRoot(t) => DoUnlatchRoot(s, s', t)
    case CoupleDown(t) => DoCoupleDown(s, s', t)
    case Unlatch(t, p) => DoUnlatch(s, s', t, p)
    case ReadLeaf(t) => DoReadLeaf(s, s', t)
    case EraseLeaf(t) => DoEraseLeaf(s, s', t)
    case DropLeaf(t) => DoDropLeaf(s, s', t)
    case Relatch(t) => DoRelatch(s, s', t)
    case WriteLeaf(t) => DoWriteLeaf(s, s', t)
    case GiveUp(t) => DoGiveUp(s, s', t)
    case Descend(t) => DoDescend(s, s', t)
    case KeepLeaf(t) => DoKeepLeaf(s, s', t)
    case LatchNext(t) => DoLatchNext(s, s', t)
    case SplitLeaf(t, p) => DoSplitLeaf(s, s', t, p)
    case Absorb(t) => DoAbsorb(s, s', t)
    case SplitInner(t, p) => DoSplitInner(s, s', t, p)
    case NewRoot(t, p) => DoNewRoot(s, s', t, p)
  }

  // ------------------------------------------------------------ what steps do to the map

  /** The map after a step that takes effect; the others leave it alone. */
  ghost function Effect(s: State, step: Step, m: map<Key, Value>): map<Key, Value>
  {
    if step.t !in s.threads then m
    else
      var op := s.threads[step.t].op;
      if step.EraseLeaf? then m - {op.key}
      else if (step.WriteLeaf? || step.SplitLeaf? || step.MakeRoot?) && op.PutOp? then m[op.key := op.value]
      else m
  }

  /** The steps at which an operation looks at, or changes, its key. */
  predicate Acts(step: Step)
  {
    step.ReadLeaf? || step.EraseLeaf? || step.WriteLeaf? || step.SplitLeaf? || step.MakeRoot? || step.FindEmpty?
  }

  // ------------------------------------------------------------ invariant

  ghost predicate TreeOk(s: State, m: map<Key, Value>)
  {
    if s.tree.None? then m == map[] else Domains(s.tree.value) && Inv(s.tree.value) && Holds(s.tree.value, m)
  }

  ghost predicate NoConflict(a: Thread, b: Thread)
  {
    a.owned !! b.owned && a.owned !! b.shared && b.owned !! a.shared && (a.root == Some(Exclusive) ==> b.root.None?)
      && (b.root == Some(Exclusive) ==> a.root.None?)
  }

  /** `p` is a page of the tree whose range holds the thread's key. */
  ghost predicate Covers(s: State, p: PageId, k: Key)
  {
    s.tree.Some? && p in s.tree.value.pages && p in s.tree.value.info && InRange(k, s.tree.value.info[p])
  }

  ghost predicate HeldPath(s: State, x: Thread, stack: seq<PageId>)
  {
    && s.tree.Some? && stack != [] && stack[0] == s.tree.value.root && PathOf(s.tree.value.info, stack)
    && (forall i :: 0 <= i < |stack| ==> stack[i] in x.owned && stack[i] in s.tree.value.pages)
  }

  ghost predicate ThreadOk(s: State, x: Thread)
  {
    match x.pc
    case Start => x.root.None? && x.shared == {} && x.owned == {} && (x.full ==> x.op.PutOp?)
    case Rooted => x.root == Some(if x.full then Exclusive else Shared) && x.shared == {} && x.owned == {}
      && (x.full ==> x.op.PutOp?)
    case Down(cur) =>
      && !x.full && Covers(s, cur, x.op.key) && x.root != Some(Exclusive)
      && (if x.op.DeleteOp? then cur in x.owned && x.shared == {} else cur in x.shared && x.owned == {})
      && (x.op.PutOp? ==> x.root == Some(Shared))
    case Dropped(cur) =>
      && !x.full && x.op.PutOp? && x.root == Some(Shared) && Covers(s, cur, x.op.key) && s.tree.value.pages[cur].Leaf?
      && x.shared == {} && x.owned == {}
    case Leafed(cur) =>
      && x.op.PutOp? && x.root != Some(Exclusive) && Covers(s, cur, x.op.key) && s.tree.value.pages[cur].Leaf?
      && x.shared == {} && cur in x.owned
    case Path(stack) =>
      && x.full && x.op.PutOp? && x.root == Some(Exclusive) && HeldPath(s, x, stack) && Covers(s, Last(stack), x.op.key)
         && x.shared == {}
    case Splitting(stack, right) =>
      && x.full && x.op.PutOp? && x.root == Some(Exclusive) && HeldPath(s, x, stack) && right in x.owned
         && x.shared == {}
      && s.tree.value.pend == Split(Last(stack), right)
    case Done => x.root.None? && x.shared == {} && x.owned == {}
  }

  /** A split on its way up belongs to a thread that is carrying it. */
  ghost predicate PendingOwned(s: State)
  {
    s.tree.Some? && s.tree.value.pend.Split? ==> exists t :: t in s.threads && s.threads[t].pc.Splitting?
  }

  ghost predicate LatchInv(s: State, m: map<Key, Value>)
  {
    && TreeOk(s, m)
    && PendingOwned(s)
    && (forall t, u {:trigger NoConflict(s.threads[t], s.threads[u])} :: t in s.threads && u in s.threads && t != u ==>
       NoConflict(s.threads[t], s.threads[u]))
    && (forall t {:trigger ThreadOk(s, s.threads[t])} :: t in s.threads ==> ThreadOk(s, s.threads[t]))
  }
}
