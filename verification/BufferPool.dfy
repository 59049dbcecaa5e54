/** The buffer pool: pages cached in frames, evicted least recently used first, written
    back before their frame is reused. Through any sequence of fetches, writes, releases,
    evictions, flushes and failed writes it is indistinguishable from a plain page store.

    Before a logged page reaches the data file the whole log is flushed.

    Reads and writes of the data file may fail; whether they do is a parameter. */
module Buffers {
  import opened Keys
  import opened Nodes

  type FrameId = nat

  // ------------------------------------------------------------ LRU replacer

  /** The order lists exactly the tracked frames, oldest access first. */
  ghost predicate Tracks(order: seq<FrameId>, tracked: set<FrameId>, stamp: map<FrameId, nat>, clock: nat)
  {
    && (forall f :: f in order <==> f in tracked)
    && tracked == stamp.Keys
    && (forall f :: f in stamp ==> stamp[f] < clock)
    && (forall i, j :: 0 <= i < j < |order| ==> stamp[order[i]] < stamp[order[j]])
  }

  lemma TrackedKeys(order: seq<FrameId>, tracked: set<FrameId>, stamp: map<FrameId, nat>, clock: nat)
    requires Tracks(order, tracked, stamp, clock)
    ensures tracked == stamp.Keys
  {
  }

  lemma TracksWithout(order: seq<FrameId>, tracked: set<FrameId>, stamp: map<FrameId, nat>, clock: nat, f: FrameId)
    requires Tracks(order, tracked, stamp, clock)
    ensures Tracks(Without(order, f), tracked - {f}, stamp - {f}, clock)
  {
    WithoutOrdered(order, stamp, f);
    var r := Without(order, f);
    forall i, j | 0 <= i < j < |r|
      ensures r[i] in stamp - {f} && r[j] in stamp - {f} && (stamp - {f})[r[i]] < (stamp - {f})[r[j]]
    {
      assert r[i] in r && r[j] in r;
    }
  }

  lemma TracksNewest(order: seq<FrameId>, tracked: set<FrameId>, stamp: map<FrameId, nat>, clock: nat, f: FrameId)
    requires Tracks(order, tracked, stamp, clock) && f !in tracked
    ensures Tracks(order + [f], tracked + {f}, stamp[f := clock], clock + 1)
  {
    var r := order + [f];
    forall i | 0 <= i < |order| ensures order[i] in stamp && order[i] != f {
      assert order[i] in order;
    }
  }

  /** `stamp` is when a frame was last accessed. */
  class LruReplacer {
    var order: seq<FrameId>
    var evictable: map<FrameId, bool>
    ghost var stamp: map<FrameId, nat>
    ghost var clock: nat

    ghost predicate Valid()
      reads this
    {
      Tracks(order, evictable.Keys, stamp, clock)
    }

    constructor ()
      ensures Valid() && evictable == map[]
    {
      order, evictable, stamp, clock := [], map[], map[], 0;
    }

    /** Most recently used from now on; a new frame starts out pinned. */
    method RecordAccess(f: FrameId)
      requires Valid()
      modifies this
      ensures Valid()
      ensures evictable == if f in old(evictable) then old(evictable) else old(evictable)[f := false]
      ensures stamp == old(stamp)[f := old(clock)] && clock == old(clock) + 1
    {
      hide Tracks;
      TracksWithout(order, evictable.Keys, stamp, clock, f);
      TracksNewest(Without(order, f), evictable.Keys - {f}, stamp - {f}, clock, f);
      assert (stamp - {f})[f := clock] == stamp[f := clock];
      order := Without(order, f) + [f];
      if f !in evictable {
        evictable := evictable[f := false];
      }
      assert evictable.Keys == old(evictable.Keys) - {f} + {f};
      stamp := stamp[f := clock];
      clock := clock + 1;
    }

    method SetEvictable(f: FrameId, e: bool)
      requires Valid()
      modifies this`evictable
      ensures Valid() && evictable == if f in old(evictable) then old(evictable)[f := e] else old(evictable)
    {
      if f in evictable {
        evictable := evictable[f := e];
      }
    }

    /** A victim that could not be written is tracked again, as just used. */
    method PutBack(f: FrameId)
      requires Valid()
      modifies this
      ensures Valid() && evictable == old(evictable)[f := true]
      ensures stamp == old(stamp)[f := old(clock)] && clock == old(clock) + 1
    {
      RecordAccess(f);
      SetEvictable(f, true);
    }

    method Remove(f: FrameId)
      requires Valid()
      modifies this`order, this`evictable, this`stamp
      ensures Valid() && evictable == old(evictable) - {f} && stamp == old(stamp) - {f}
    {
      hide Tracks;
      TracksWithout(order, evictable.Keys, stamp, clock, f);
      order := Without(order, f);
      evictable := evictable - {f};
      stamp := stamp - {f};
      assert evictable.Keys == old(evictable.Keys) - {f};
    }

    /** The least recently used evictable frame, if there is one. */
    method Evict() returns (victim: Option<FrameId>)
      requires Valid()
      modifies this`order, this`evictable, this`stamp
      ensures Valid()
      ensures victim.None? <==> forall f :: f in old(evictable) ==> !old(evictable)[f]
      ensures victim.None? ==> evictable == old(evictable) && stamp == old(stamp)
      ensures victim.Some? ==>
                && victim.value in old(evictable) && old(evictable)[victim.value]
                && evictable == old(evictable) - {victim.value} && stamp == old(stamp) - {victim.value}
                && forall f :: f in old(evictable) && old(evictable)[f] ==> old(stamp)[victim.value] <= old(stamp)[f]
    {
      for i := 0 to |order|
        invariant Valid() && evictable == old(evictable) && stamp == old(stamp) && order == old(order)
        invariant forall j :: 0 <= j < i ==> !evictable[order[j]]
      {
        var f := order[i];
        if evictable[f] {
          forall g | g in evictable && evictable[g] ensures stamp[f] <= stamp[g] {
            var j :| 0 <= j < |order| && order[j] == g;
          }
          Remove(f);
          return Some(f);
        }
      }
      return None;
    }
  }

  function Without(s: seq<FrameId>, f: FrameId): (r: seq<FrameId>)
    ensures forall g :: g in r <==> g in s && g != f
  {
    if s == [] then [] else if s[0] == f then Without(s[1..], f) else [s[0]] + Without(s[1..], f)
  }

  lemma {:induction false} WithoutOrdered(s: seq<FrameId>, stamp: map<FrameId, nat>, f: FrameId)
    requires forall g :: g in s ==> g in stamp
    requires forall i, j :: 0 <= i < j < |s| ==> stamp[s[i]] < stamp[s[j]]
    ensures forall i, j :: 0 <= i < j < |Without(s, f)| ==> stamp[Without(s, f)[i]] < stamp[Without(s, f)[j]]
  {
    if s != [] {
      WithoutOrdered(s[1..], stamp, f);
      if s[0] != f {
        var r := Without(s[1..], f);
        forall j | 0 <= j < |r| ensures stamp[s[0]] < stamp[r[j]] {
          assert r[j] in s[1..];
        }
      }
    }
  }

  // ------------------------------------------------------------ the pool as values

  /** `page` is None for an unused frame. */
  datatype Frame = Frame(page: Option<PageId>, content: Bytes, pins: nat, dirty: bool)

  datatype Pool = Pool(frames: seq<Frame>, table: map<PageId, FrameId>, free: seq<FrameId>, disk: map<PageId, Bytes>)

  const UNUSED := Frame(None, [], 0, false)

  /** A page as a plain store would give it. */
  function Page(s: Pool, p: PageId): Option<Bytes>
  {
    if p in s.table && s.table[p] < |s.frames| then Some(s.frames[s.table[p]].content)
    else if p in s.disk then Some(s.disk[p]) else None
  }

  /** Two pools a caller cannot tell apart. */
  ghost predicate SamePages(a: Pool, b: Pool) { forall p {:trigger Page(b, p)} :: Page(a, p) == Page(b, p) }

  /** The table sends each resident page to the frame that holds it. */
  ghost predicate TableOk(s: Pool, p: PageId) {
    p in s.table ==> s.table[p] < |s.frames| && s.frames[s.table[p]].page == Some(p)
  }

  /** `out` is the frame in hand: neither resident nor free. */
  ghost predicate FrameOk(s: Pool, ev: map<FrameId, bool>, out: Option<FrameId>, f: FrameId)
  {
    && (f in ev <==> f < |s.frames| && s.frames[f].page.Some?)
    && (f in s.free ==> f < |s.frames| && out != Some(f))
    && (f < |s.frames| ==>
          var x := s.frames[f];
          && (x.page.None? <==> f in s.free || out == Some(f))
          && (x.page.None? ==> x.pins == 0 && !x.dirty)
          && (x.page.Some? ==>
                && x.page.value in s.table && s.table[x.page.value] == f && x.page.value in s.disk
                && (ev[f] <==> x.pins == 0)
                && (!x.dirty ==> x.content == s.disk[x.page.value])))
  }

  predicate Distinct(s: seq<FrameId>) { forall i, j :: 0 <= i < j < |s| ==> s[i] != s[j] }

  ghost predicate PoolOk(s: Pool, ev: map<FrameId, bool>, out: Option<FrameId>)
  {
    && (out.Some? ==> out.value < |s.frames|)
    && Distinct(s.free)
    && (forall p {:trigger TableOk(s, p)} :: TableOk(s, p))
    && (forall f {:trigger FrameOk(s, ev, out, f)} :: FrameOk(s, ev, out, f))
  }

  /** Frames in use keep their page, contents and pins. */
  ghost predicate PinnedKept(a: Pool, b: Pool)
  {
    |a.frames| == |b.frames| && forall f :: 0 <= f < |a.frames| && a.frames[f].pins > 0 ==> b.frames[f] == a.frames[f]
  }

  // ------------------------------------------------------------ moves between pools

  /** The last free frame is taken in hand. */
  lemma TakeFree(s: Pool, ev: map<FrameId, bool>)
    requires PoolOk(s, ev, None) && s.free != []
    ensures var n := |s.free| - 1;
            && PoolOk(s.(free := s.free[..n]), ev, Some(s.free[n])) && SamePages(s, s.(free := s.free[..n]))
            && s.free[n] < |s.frames| && s.frames[s.free[n]].pins == 0
  {
    var n := |s.free| - 1;
    var t := s.(free := s.free[..n]);
    assert FrameOk(s, ev, None, s.free[n]);
    forall p ensures TableOk(t, p) { assert TableOk(s, p); }
    forall f ensures FrameOk(t, ev, Some(s.free[n]), f) { assert FrameOk(s, ev, None, f); }
  }

  /** An unused frame in hand goes back on the free list. */
  lemma GiveBack(s: Pool, ev: map<FrameId, bool>, f: FrameId)
    requires PoolOk(s, ev, Some(f))
    ensures PoolOk(s.(free := s.free + [f]), ev, None) && SamePages(s, s.(free := s.free + [f]))
  {
    var t := s.(free := s.free + [f]);
    assert FrameOk(s, ev, Some(f), f);
    forall i | 0 <= i < |s.free| ensures s.free[i] != f { assert s.free[i] in s.free; }
    forall p ensures TableOk(t, p) { assert TableOk(s, p); }
    forall g ensures FrameOk(t, ev, None, g) { assert FrameOk(s, ev, Some(f), g); }
  }

  /** A dirty page is written back. */
  function Cleaned(s: Pool, f: FrameId): Pool
    requires f < |s.frames| && s.frames[f].page.Some?
  {
    s.(frames := s.frames[f := s.frames[f].(dirty := false)],
      disk := s.disk[s.frames[f].page.value := s.frames[f].content])
  }

  lemma CleanedOk(s: Pool, ev: map<FrameId, bool>, f: FrameId)
    requires PoolOk(s, ev, None) && f < |s.frames| && s.frames[f].page.Some?
    ensures PoolOk(Cleaned(s, f), ev, None) && SamePages(s, Cleaned(s, f))
  {
    var t := Cleaned(s, f);
    assert FrameOk(s, ev, None, f);
    forall p ensures TableOk(t, p) { assert TableOk(s, p); }
    forall g ensures FrameOk(t, ev, None, g) { assert FrameOk(s, ev, None, g); }
    forall p ensures Page(s, p) == Page(t, p) { assert TableOk(s, p); }
  }

  /** A clean, unpinned page leaves its frame. */
  function Evicted(s: Pool, f: FrameId): Pool
    requires f < |s.frames| && s.frames[f].page.Some?
  {
    s.(frames := s.frames[f := s.frames[f].(page := None)], table := s.table - {s.frames[f].page.value})
  }

  lemma EvictedOk(s: Pool, ev: map<FrameId, bool>, f: FrameId)
    requires PoolOk(s, ev, None) && f < |s.frames| && s.frames[f].page.Some? && !s.frames[f].dirty
             && s.frames[f].pins == 0
    ensures PoolOk(Evicted(s, f), ev - {f}, Some(f)) && SamePages(s, Evicted(s, f))
  {
    var t := Evicted(s, f);
    assert FrameOk(s, ev, None, f);
    forall p ensures TableOk(t, p) { assert TableOk(s, p); }
    forall g ensures FrameOk(t, ev - {f}, Some(f), g) { assert FrameOk(s, ev, None, g); }
    forall p ensures Page(s, p) == Page(t, p) { assert TableOk(s, p); }
  }

  /** Write back if dirty, then evict. */
  lemma DepartedOk(s: Pool, ev: map<FrameId, bool>, f: FrameId)
    requires PoolOk(s, ev, None) && f < |s.frames| && s.frames[f].page.Some? && s.frames[f].pins == 0
    ensures var t := Evicted(if s.frames[f].dirty then Cleaned(s, f) else s, f);
            && PoolOk(t, ev - {f}, Some(f)) && SamePages(s, t) && PinnedKept(s, t)
            && t.disk.Keys == s.disk.Keys && t.table.Keys <= s.table.Keys
  {
    assert FrameOk(s, ev, None, f);
    hide FrameOk, TableOk, Page;
    SamePagesRefl(s);
    CleanedOk(s, ev, f);
    var c := if s.frames[f].dirty then Cleaned(s, f) else s;
    EvictedOk(c, ev, f);
    SamePagesChain(s, c, Evicted(c, f));
  }

  lemma CleanedFrame(s: Pool, f: FrameId)
    requires f < |s.frames| && s.frames[f].page.Some?
    ensures var t := if s.frames[f].dirty then Cleaned(s, f) else s;
            f < |t.frames| && t.frames[f].page.Some? && Evicted(t, f).disk == t.disk
              && |Evicted(t, f).frames| == |t.frames| == |s.frames|
              && Evicted(t, f).table == s.table - {s.frames[f].page.value}
  {
  }

  lemma PinnedKeptRefl(s: Pool)
    ensures PinnedKept(s, s)
  {
  }

  /** Page `p` moves into the frame in hand, pinned once. */
  function Loaded(s: Pool, f: FrameId, p: PageId, content: Bytes): Pool
    requires f < |s.frames|
  {
    s.(frames := s.frames[f := Frame(Some(p), content, 1, false)], table := s.table[p := f],
      disk := s.disk[p := content])
  }

  lemma LoadedOk(s: Pool, ev: map<FrameId, bool>, f: FrameId, p: PageId, content: Bytes)
    requires PoolOk(s, ev, Some(f)) && p !in s.table && (p in s.disk ==> s.disk[p] == content)
    ensures f < |s.frames| && PoolOk(Loaded(s, f, p, content), ev[f := false], None)
    ensures forall q {:trigger Page(Loaded(s, f, p, content), q)} ::
              Page(Loaded(s, f, p, content), q) == if q == p then Some(content) else Page(s, q)
  {
    var t := Loaded(s, f, p, content);
    assert FrameOk(s, ev, Some(f), f);
    forall q ensures TableOk(t, q) { assert TableOk(s, q); }
    var ev' := ev[f := false];
    forall g ensures FrameOk(t, ev', None, g) { assert FrameOk(s, ev, Some(f), g); }
    forall q ensures Page(t, q) == if q == p then Some(content) else Page(s, q) { assert TableOk(s, q); }
  }

  /** The pins of a resident frame change. */
  lemma PinsOk(s: Pool, ev: map<FrameId, bool>, f: FrameId, pins: nat)
    requires PoolOk(s, ev, None) && f < |s.frames| && s.frames[f].page.Some?
    ensures var t := s.(frames := s.frames[f := s.frames[f].(pins := pins)]);
            PoolOk(t, ev[f := pins == 0], None) && SamePages(s, t)
  {
    var t := s.(frames := s.frames[f := s.frames[f].(pins := pins)]);
    assert FrameOk(s, ev, None, f);
    forall p ensures TableOk(t, p) { assert TableOk(s, p); }
    var ev' := ev[f := pins == 0];
    forall g ensures FrameOk(t, ev', None, g) { assert FrameOk(s, ev, None, g); }
    forall p ensures Page(s, p) == Page(t, p) { assert TableOk(s, p); }
  }

  /** A write through a guard. */
  lemma WrittenOk(s: Pool, ev: map<FrameId, bool>, f: FrameId, content: Bytes)
    requires PoolOk(s, ev, None) && f < |s.frames| && s.frames[f].page.Some?
    ensures var t := s.(frames := s.frames[f := s.frames[f].(content := content, dirty := true)]);
            && PoolOk(t, ev, None)
            && forall q: PageId {:trigger Page(t, q)} :: Page(t, q) == if Some(q) == s.frames[f].page then Some(content)
               else Page(s, q)
  {
    var t := s.(frames := s.frames[f := s.frames[f].(content := content, dirty := true)]);
    assert FrameOk(s, ev, None, f);
    forall p ensures TableOk(t, p) { assert TableOk(s, p); }
    forall g ensures FrameOk(t, ev, None, g) { assert FrameOk(s, ev, None, g); }
    forall q: PageId
      ensures Page(t, q) == if Some(q) == s.frames[f].page then Some(content) else Page(s, q)
    {
      assert TableOk(s, q);
    }
  }

  lemma SamePagesChain(a: Pool, b: Pool, c: Pool)
    requires SamePages(a, b) && SamePages(b, c)
    ensures SamePages(a, c)
  {
    forall p ensures Page(a, p) == Page(c, p) {
      assert Page(a, p) == Page(b, p);
    }
  }

  // ------------------------------------------------------------ the pool

  /** What reached the data file did so behind the log: a page that carries an LSN is
      written only when everything appended so far is durable. */
  ghost predicate WrittenBehindLog(lsnOf: Bytes -> nat, before: map<PageId, Bytes>, after: map<PageId, Bytes>,
      flushed: bool)
  {
    forall p {:trigger p in after} :: p in after && p in before && after[p] != before[p] && lsnOf(after[p]) != 0 ==>
      flushed
  }

  /** A dirty page that cannot be written: the write fails, or the log's flush before it. */
  ghost predicate Stuck(lsnOf: Bytes -> nat, x: Frame, fails: bool, logBroken: bool)
  {
    x.dirty && (fails || (logBroken && lsnOf(x.content) != 0))
  }

  /** No frame can be had: none is free, and all are pinned or the one used least recently
      is stuck. */
  ghost predicate NoFrame(s: Pool, stamp: map<FrameId, nat>, lsnOf: Bytes -> nat, fails: bool, logBroken: bool)
  {
    && s.free == []
    && (AllPinned(s) || exists f: FrameId ::
          OldestUnpinned(s, stamp, f) && Stuck(lsnOf, s.frames[f], fails, logBroken))
  }

  /** The page table without the page of the frame taken. */
  function Vacated(table: map<PageId, FrameId>, x: Frame): map<PageId, FrameId>
  {
    if x.page.Some? then table - {x.page.value} else table
  }

  /** Frame `f` has been taken: the last free one, or with none free the one used least
      recently; its page, if any, is no longer resident. */
  ghost predicate Took(s: Pool, stamp: map<FrameId, nat>, s': Pool, stamp': map<FrameId, nat>, f: FrameId)
  {
    && f < |s.frames| && s.frames[f].pins == 0 && s'.table == Vacated(s.table, s.frames[f]) && stamp' == stamp - {f}
    && if s.free != [] then f == s.free[|s.free| - 1] && s.frames[f].page.None? else OldestUnpinned(s, stamp, f)
  }

  /** Page `p` is now in frame `f`, which was taken for it. */
  ghost predicate Filled(s: Pool, stamp: map<FrameId, nat>, s': Pool, p: PageId, f: FrameId)
  {
    && f < |s.frames| && s.frames[f].pins == 0 && s'.table == Vacated(s.table, s.frames[f])[p := f]
    && if s.free != [] then f == s.free[|s.free| - 1] && s.frames[f].page.None? else OldestUnpinned(s, stamp, f)
  }

  /** `logEnd`: where the log ends; `logDurable`: how much of it is flushed. `logBroken`:
      flushes of the log fail. */
  class BufferPool {
    var s: Pool
    const replacer: LruReplacer
    const lsnOf: Bytes -> nat
    var logEnd: nat
    var logDurable: nat
    var logBroken: bool

    ghost predicate Holding(out: Option<FrameId>)
      reads this, replacer
    {
      replacer.Valid() && PoolOk(s, replacer.evictable, out)
    }

    ghost predicate Valid()
      reads this, replacer
    {
      Holding(None)
    }

    /** Every frame is free, low numbers handed out first. */
    constructor (numFrames: nat, disk: map<PageId, Bytes>, lsnOf: Bytes -> nat)
      ensures this.lsnOf == lsnOf && logEnd == logDurable == 0 && !logBroken
      ensures Valid() && fresh(replacer) && |s.frames| == numFrames && s.disk == disk
      ensures forall p {:trigger Page(s, p)} :: Page(s, p) == if p in disk then Some(disk[p]) else None
    {
      replacer := new LruReplacer();
      this.lsnOf, logEnd, logDurable, logBroken := lsnOf, 0, 0, false;
      s := Pool(seq(numFrames, _ => UNUSED), map[], seq(numFrames, i requires 0 <= i < numFrames => numFrames - 1 - i),
        disk);
      new;
      forall f: FrameId ensures FrameOk(s, replacer.evictable, None, f) {
        if f < numFrames { assert s.free[numFrames - 1 - f] == f; }
      }
    }

    /** `EnforceWalRule`: before a page that was ever logged is written, all of the log. */
    method EnforceWalRule(f: FrameId) returns (ok: bool)
      requires f < |s.frames|
      modifies this`logDurable
      ensures ok <==> lsnOf(s.frames[f].content) == 0 || !logBroken
      ensures logDurable == if ok && lsnOf(s.frames[f].content) != 0 then logEnd else old(logDurable)
    {
      if lsnOf(s.frames[f].content) == 0 {
        return true;
      }
      if logBroken {
        return false;
      }
      logDurable := logEnd;
      return true;
    }

    /** A frame to fill: a free one, or the least recently used unpinned one after writing
        its page back. */
    method AcquireFrame(writeFails: bool) returns (r: Option<FrameId>)
      requires Valid()
      modifies this`s, this`logDurable, replacer
      ensures Holding(r) && SamePages(old(s), s) && PinnedKept(old(s), s) && s.disk.Keys == old(s.disk.Keys)
      ensures r.None? <==> NoFrame(old(s), old(replacer.stamp), lsnOf, writeFails, logBroken)
      ensures r.None? ==> s == old(s)
      ensures r.Some? ==> Took(old(s), old(replacer.stamp), s, replacer.stamp, r.value)
      ensures r.Some? ==> replacer.clock == old(replacer.clock)
      ensures WrittenBehindLog(lsnOf, old(s.disk), s.disk, logDurable == logEnd)
    {
      hide Page, FrameOk, TableOk, SamePages, Tracks, OldestUnpinned, AllPinned, WrittenBehindLog;
      NothingWritten(lsnOf, s.disk, logDurable == logEnd);
      if s.free != [] {
        TakeFree(s, replacer.evictable);
        FreeUnstamped(s, replacer.evictable, replacer.order, replacer.stamp, replacer.clock);
        var n := |s.free| - 1;
        r := Some(s.free[n]);
        s := s.(free := s.free[..n]);
        return;
      }
      r := EvictFrame(writeFails);
    }

    /** A dirty page goes to the file, behind the log. */
    method WriteBack(f: FrameId, fails: bool) returns (ok: bool)
      requires f < |s.frames| && s.frames[f].page.Some?
      modifies this`s, this`logDurable
      ensures s == if ok && old(s.frames)[f].dirty then Cleaned(old(s), f) else old(s)
      ensures !ok <==> Stuck(lsnOf, old(s.frames)[f], fails, logBroken)
      ensures WrittenBehindLog(lsnOf, old(s.disk), s.disk, logDurable == logEnd)
    {
      hide WrittenBehindLog;
      NothingWritten(lsnOf, s.disk, logDurable == logEnd);
      if !s.frames[f].dirty {
        return true;
      }
      ok := EnforceWalRule(f);
      NothingWritten(lsnOf, s.disk, logDurable == logEnd);
      ok := ok && !fails;
      if ok {
        WroteOne(lsnOf, s.disk, s.disk, s.frames[f].page.value, s.frames[f].content, logDurable == logEnd);
        s := Cleaned(s, f);
      }
    }

    /** The victim's page is written back if dirty and leaves its frame; if the write fails
        it stays. */
    method Depart(f: FrameId, fails: bool, ghost ev: map<FrameId, bool>) returns (written: bool)
      requires PoolOk(s, ev, None) && f < |s.frames| && s.frames[f].page.Some? && s.frames[f].pins == 0
      modifies this`s, this`logDurable
      ensures !written <==> Stuck(lsnOf, old(s.frames)[f], fails, logBroken)
      ensures !written ==> s == old(s)
      ensures written ==> s.table == old(s.table) - {old(s.frames)[f].page.value}
      ensures written ==> PoolOk(s, ev - {f}, Some(f)) && SamePages(old(s), s) && PinnedKept(old(s), s)
      ensures s.disk.Keys == old(s.disk.Keys) && s.table.Keys <= old(s.table.Keys) && |s.frames| == |old(s.frames)|
      ensures WrittenBehindLog(lsnOf, old(s.disk), s.disk, logDurable == logEnd)
    {
      hide PoolOk, SamePages, PinnedKept, WrittenBehindLog, Cleaned, Evicted;
      ghost var s0 := s;
      written := WriteBack(f, fails);
      if written {
        DepartedOk(s0, ev, f);
        CleanedFrame(s0, f);
        s := Evicted(s, f);
      }
    }

    /** Eviction. A failed write-back loses nothing: the victim is tracked again. */
    method EvictFrame(writeFails: bool) returns (r: Option<FrameId>)
      requires Valid() && s.free == []
      modifies this`s, this`logDurable, replacer
      ensures Holding(r) && SamePages(old(s), s) && PinnedKept(old(s), s) && s.disk.Keys == old(s.disk.Keys)
      ensures r.None? <==> NoFrame(old(s), old(replacer.stamp), lsnOf, writeFails, logBroken)
      ensures r.None? ==> s == old(s)
      ensures r.Some? ==> Took(old(s), old(replacer.stamp), s, replacer.stamp, r.value)
      ensures r.Some? ==> replacer.clock == old(replacer.clock)
      ensures WrittenBehindLog(lsnOf, old(s.disk), s.disk, logDurable == logEnd)
    {
      ghost var s0, ev, stamp := s, replacer.evictable, replacer.stamp;
      hide PoolOk, SamePages, Tracks, OldestUnpinned, AllPinned, PinnedKept, WrittenBehindLog, Stuck, NoFrame;
      NothingWritten(lsnOf, s.disk, logDurable == logEnd);
      TrackedKeys(replacer.order, ev.Keys, stamp, replacer.clock);
      SamePagesRefl(s);
      PinnedKeptRefl(s);
      ghost var order, clock := replacer.order, replacer.clock;
      var victim := replacer.Evict();
      if victim.None? {
        NoneUnpinned(s, ev);
        AllPinnedIsNoFrame(s0, stamp, lsnOf, writeFails, logBroken);
        return None;
      }
      var f := victim.value;
      VictimOk(s, ev, f);
      VictimIsOldest(s, ev, stamp, f);
      VictimDecides(s, ev, order, stamp, clock, f, lsnOf, writeFails, logBroken);
      var written := Depart(f, writeFails, ev);
      if !written {
        PutBackSame(ev, f);
        replacer.PutBack(f);
        return None;
      }
      return Some(f);
    }

    /** Fetch and pin a page. Fails when every frame is pinned, a write-back or the read
        fails, or there is no such page; a resident page is always found. */
    method FetchPage(p: PageId, writeFails: bool, readFails: bool) returns (r: Option<FrameId>)
      requires Valid()
      modifies this`s, this`logDurable, replacer
      ensures Valid() && SamePages(old(s), s) && s.disk.Keys == old(s.disk.Keys)
      ensures r.Some? ==> Pinned(s, r.value, p) && Some(s.frames[r.value].content) == Page(old(s), p)
      ensures p in old(s.table) ==>
              r == Some(old(s.table[p])) && r.value < |old(s.frames)| && s == WithPins(old(s), r.value, 1)
      ensures p !in old(s.table) ==> PinnedKept(old(s), s)
      ensures p !in old(s.table) && r.Some? ==> s.frames[r.value].pins == 1
      ensures r.None? <==>
                && p !in old(s.table)
                && (NoFrame(old(s), old(replacer.stamp), lsnOf, writeFails, logBroken) || readFails
                    || p !in old(s.disk))
      ensures r.Some? && p !in old(s.table) ==> Filled(old(s), old(replacer.stamp), s, p, r.value)
      ensures r.Some? ==> replacer.stamp == old(replacer.stamp)[r.value := old(replacer.clock)]
      ensures WrittenBehindLog(lsnOf, old(s.disk), s.disk, logDurable == logEnd)
    {
      hide FrameOk, SamePages, Tracks, WrittenBehindLog, NoFrame, OldestUnpinned;
      ghost var s0 := s;
      NothingWritten(lsnOf, s.disk, logDurable == logEnd);
      SamePagesRefl(s);
      assert TableOk(s, p);
      if p in s.table {
        var f := s.table[p];
        PinsOk(s, replacer.evictable, f, s.frames[f].pins + 1);
        Tracked(s, replacer.evictable, None, f);
        ghost var ev := replacer.evictable;
        replacer.RecordAccess(f);
        replacer.SetEvictable(f, false);
        s := WithPins(s, f, 1);
        return Some(f);
      }
      r := AcquireFrame(writeFails);
      if r.None? {
        return;
      }
      var f := r.value;
      if readFails || p !in s.disk {
        GiveBack(s, replacer.evictable, f);
        SamePagesChain(s0, s, s.(free := s.free + [f]));
        s := s.(free := s.free + [f]);
        return None;
      }
      ghost var mid := s;
      Tracked(s, replacer.evictable, r, f);
      assert s.disk[p := s.disk[p]] == s.disk;
      Load(f, p, s.disk[p]);
      LoadedSame(s0, mid, s, p);
    }

    /** A fresh zeroed page in a pinned frame. The frame is found before the file grows. */
    method NewPage(p: PageId, zeros: Bytes, writeFails: bool, growFails: bool) returns (r: Option<FrameId>)
      requires Valid() && p !in s.disk
      modifies this`s, this`logDurable, replacer
      ensures Valid() && PinnedKept(old(s), s)
      ensures r.Some? ==> Pinned(s, r.value, p) && s.frames[r.value] == Frame(Some(p), zeros, 1, false)
      ensures r.Some? ==> forall q {:trigger Page(s, q)} :: Page(s, q) == if q == p then Some(zeros)
              else Page(old(s), q)
      ensures r.None? ==> SamePages(old(s), s)
      ensures WrittenBehindLog(lsnOf, old(s.disk), s.disk, logDurable == logEnd)
      ensures r.None? <==> NoFrame(old(s), old(replacer.stamp), lsnOf, writeFails, logBroken) || growFails
      ensures r.Some? ==> Filled(old(s), old(replacer.stamp), s, p, r.value)
      ensures r.Some? ==> replacer.stamp == old(replacer.stamp)[r.value := old(replacer.clock)]
    {
      hide FrameOk, Tracks, SamePages, NoFrame, OldestUnpinned;
      ghost var s0 := s;
      SamePagesRefl(s);
      ResidentOnDisk(s, replacer.evictable, p);
      r := AcquireFrame(writeFails);
      if r.None? {
        return;
      }
      var f := r.value;
      if growFails {
        GiveBack(s, replacer.evictable, f);
        SamePagesChain(s0, s, s.(free := s.free + [f]));
        s := s.(free := s.free + [f]);
        return None;
      }
      ghost var mid := s;
      Tracked(s, replacer.evictable, r, f);
      Load(f, p, zeros);
      forall q ensures Page(s, q) == if q == p then Some(zeros) else Page(s0, q) {
        SamePageAt(s0, mid, q);
      }
    }

    /** Put page `p` into the frame in hand. */
    method Load(f: FrameId, p: PageId, content: Bytes)
      requires Holding(Some(f)) && p !in s.table && (p in s.disk ==> s.disk[p] == content)
      modifies this`s, replacer
      ensures Valid() && f < |s.frames| && s == Loaded(old(s), f, p, content)
      ensures replacer.stamp == old(replacer.stamp)[f := old(replacer.clock)]
      ensures forall q {:trigger Page(s, q)} :: Page(s, q) == if q == p then Some(content) else Page(old(s), q)
    {
      hide FrameOk, Tracks, TableOk, Page;
      LoadedOk(s, replacer.evictable, f, p, content);
      Tracked(s, replacer.evictable, Some(f), f);
      ghost var ev := replacer.evictable;
      s := Loaded(s, f, p, content);
      replacer.RecordAccess(f);
      replacer.SetEvictable(f, false);
      assert replacer.evictable == ev[f := false];
    }

    /** A write through a guard: the page changes, and no other. */
    method Write(f: FrameId, content: Bytes)
      requires Valid() && f < |s.frames| && s.frames[f].page.Some? && s.frames[f].pins > 0
      modifies this`s
      ensures Valid()
      ensures s == old(s).(frames := old(s.frames)[f := old(s.frames)[f].(content := content, dirty := true)])
      ensures forall q: PageId {:trigger Page(s, q)} ::
                Page(s, q) == if Some(q) == old(s.frames)[f].page then Some(content) else Page(old(s), q)
    {
      hide FrameOk, TableOk, Page, Tracks;
      WrittenOk(s, replacer.evictable, f, content);
      s := s.(frames := s.frames[f := s.frames[f].(content := content, dirty := true)]);
    }

    /** A guard goes: with the last pin the frame becomes evictable. */
    method ReleaseGuard(f: FrameId)
      requires Valid() && f < |s.frames| && s.frames[f].pins > 0
      modifies this`s, replacer`evictable
      ensures Valid() && SamePages(old(s), s) && s == WithPins(old(s), f, -1) && s.table == old(s.table)
    {
      hide FrameOk, TableOk, Page, Tracks;
      PinnedResident(s, replacer.evictable, f);
      ghost var ev := replacer.evictable;
      PinsOk(s, ev, f, s.frames[f].pins - 1);
      s := WithPins(s, f, -1);
      if s.frames[f].pins == 0 {
        replacer.SetEvictable(f, true);
      } else {
        assert ev[f := false] == ev;
      }
    }

    /** Pins every resident page, then writes back the dirty ones behind the log, letting
        each go again; stops writing at the first failure. On success the file is the page
        store. */
    method FlushAll(failAt: nat) returns (ok: bool)
      requires Valid()
      modifies this`s, this`logDurable, replacer`evictable
      ensures Valid() && SamePages(old(s), s) && s.table == old(s.table) && |s.frames| == old(|s.frames|)
      ensures forall f :: 0 <= f < |s.frames| ==>
              s.frames[f] == old(s.frames)[f] || s.frames[f] == old(s.frames)[f].(dirty := false)
      ensures ok <==> forall f: nat :: f < |s.frames| ==> !Stuck(lsnOf, old(s.frames)[f], f == failAt, logBroken)
      ensures ok ==> forall f :: 0 <= f < |s.frames| ==> !s.frames[f].dirty
      ensures ok ==> forall p {:trigger Page(s, p)} :: Page(s, p) == if p in s.disk then Some(s.disk[p]) else None
      ensures WrittenBehindLog(lsnOf, old(s.disk), s.disk, logDurable == logEnd)
    {
      hide FrameOk, TableOk, Page, Tracks, SamePages, WrittenBehindLog, Stuck;
      ghost var s0 := s;
      PinAll();
      ok := true;
      NothingWritten(lsnOf, s.disk, logDurable == logEnd);
      for f := 0 to |s.frames|
        invariant Valid() && SamePages(s0, s) && s.table == s0.table && |s.frames| == |s0.frames|
        invariant forall g :: 0 <= g < f ==> s.frames[g] == s0.frames[g] || s.frames[g] == s0.frames[g].(dirty := false)
        invariant forall g :: f <= g < |s.frames| ==> s.frames[g] == Kept(s0.frames[g])
        invariant ok ==> forall g :: 0 <= g < f ==> !s.frames[g].dirty
        invariant ok <==> forall g: nat :: g < f ==> !Stuck(lsnOf, s0.frames[g], g == failAt, logBroken)
        invariant WrittenBehindLog(lsnOf, s0.disk, s.disk, logDurable == logEnd)
      {
        KeptStuck(lsnOf, s0.frames[f], f == failAt, logBroken);
        if s.frames[f].page.Some? {
          ghost var mid := s;
          ok := FlushOne(f, ok, f == failAt, s0.disk);
          SamePagesChain(s0, mid, s);
        } else {
          NotDirty(s, replacer.evictable, f);
        }
      }
      if ok {
        FlushedIsStore(s, replacer.evictable);
      }
    }

    /** A transient pin on every resident frame. */
    method PinAll()
      requires Valid()
      modifies this`s, replacer`evictable
      ensures Valid() && SamePages(old(s), s) && s.table == old(s.table) && s.disk == old(s.disk)
      ensures |s.frames| == |old(s.frames)|
      ensures forall g :: 0 <= g < |s.frames| ==> s.frames[g] == Kept(old(s.frames)[g])
    {
      hide FrameOk, TableOk, Page, Tracks, SamePages;
      ghost var s0 := s;
      SamePagesRefl(s);
      for f := 0 to |s.frames|
        invariant Valid() && SamePages(s0, s) && s.table == s0.table && s.disk == s0.disk && |s.frames| == |s0.frames|
        invariant forall g :: 0 <= g < |s.frames| ==> s.frames[g] == if g < f then Kept(s0.frames[g]) else s0.frames[g]
      {
        if s.frames[f].page.Some? {
          ghost var mid := s;
          PinOne(f);
          SamePagesChain(s0, mid, s);
        }
      }
    }

    /** The transient pin. */
    method PinOne(f: FrameId)
      requires Valid() && f < |s.frames| && s.frames[f].page.Some?
      modifies this`s, replacer`evictable
      ensures Valid() && SamePages(old(s), s) && s == WithPins(old(s), f, 1)
    {
      hide FrameOk, TableOk, Page, Tracks, SamePages;
      PinsOk(s, replacer.evictable, f, s.frames[f].pins + 1);
      Tracked(s, replacer.evictable, None, f);
      ghost var ev := replacer.evictable;
      replacer.SetEvictable(f, false);
      assert replacer.evictable == ev[f := false];
      s := WithPins(s, f, 1);
    }

    /** One pinned page: write it back if it is dirty and nothing has failed; let it go. */
    method FlushOne(f: FrameId, ok: bool, fails: bool, ghost disk: map<PageId, Bytes>) returns (still: bool)
      requires Valid() && f < |s.frames| && s.frames[f].page.Some? && s.frames[f].pins > 0
      requires WrittenBehindLog(lsnOf, disk, s.disk, logDurable == logEnd)
      modifies this`s, this`logDurable, replacer`evictable
      ensures Valid() && SamePages(old(s), s) && s.table == old(s.table) && |s.frames| == |old(s.frames)|
      ensures still <==> ok && !Stuck(lsnOf, old(s.frames)[f], fails, logBroken)
      ensures var was := old(s.frames)[f].(pins := old(s.frames)[f].pins - 1);
              && (s.frames[f] == was || s.frames[f] == was.(dirty := false)) && (still ==> !s.frames[f].dirty)
      ensures forall g :: 0 <= g < |s.frames| && g != f ==> s.frames[g] == old(s.frames)[g]
      ensures WrittenBehindLog(lsnOf, disk, s.disk, logDurable == logEnd)
    {
      hide FrameOk, TableOk, Page, Tracks, SamePages, WrittenBehindLog;
      still := ok;
      ghost var s0 := s;
      SamePagesRefl(s);
      if still && s.frames[f].dirty {
        ghost var was := logDurable;
        still := EnforceWalRule(f);
        MoreFlushed(lsnOf, disk, s.disk, was == logEnd, logDurable == logEnd);
        still := still && !fails;
        if still {
          CleanedOk(s, replacer.evictable, f);
          WroteOne(lsnOf, disk, s.disk, s.frames[f].page.value, s.frames[f].content, logDurable == logEnd);
          s := Cleaned(s, f);
        }
      }
      ghost var mid := s;
      ReleaseGuard(f);
      SamePagesChain(s0, mid, s);
    }
  }

  /** A resident frame with its transient pin. */
  function Kept(f: Frame): Frame { if f.page.Some? then f.(pins := f.pins + 1) else f }

  /** The transient pin changes nothing about that. */
  lemma KeptStuck(lsnOf: Bytes -> nat, x: Frame, fails: bool, logBroken: bool)
    ensures Stuck(lsnOf, Kept(x), fails, logBroken) <==> Stuck(lsnOf, x, fails, logBroken)
    ensures !x.dirty ==> !Stuck(lsnOf, x, fails, logBroken)
  {
  }

  lemma NotDirty(s: Pool, ev: map<FrameId, bool>, f: FrameId)
    requires PoolOk(s, ev, None) && f < |s.frames| && s.frames[f].page.None?
    ensures !s.frames[f].dirty
  {
    assert FrameOk(s, ev, None, f);
  }

  lemma NothingWritten(lsnOf: Bytes -> nat, disk: map<PageId, Bytes>, flushed: bool)
    ensures WrittenBehindLog(lsnOf, disk, disk, flushed)
  {
  }

  lemma MoreFlushed(lsnOf: Bytes -> nat, before: map<PageId, Bytes>, after: map<PageId, Bytes>, was: bool, now: bool)
    requires WrittenBehindLog(lsnOf, before, after, was) && (was ==> now)
    ensures WrittenBehindLog(lsnOf, before, after, now)
  {
  }

  lemma WroteOne(lsnOf: Bytes -> nat, before: map<PageId, Bytes>, after: map<PageId, Bytes>, p: PageId,
      content: Bytes, flushed: bool)
    requires WrittenBehindLog(lsnOf, before, after, flushed) && (lsnOf(content) != 0 ==> flushed)
    ensures WrittenBehindLog(lsnOf, before, after[p := content], flushed)
  {
  }

  // ------------------------------------------------------------ facts the methods use

  predicate Pinned(s: Pool, f: FrameId, p: PageId) {
    f < |s.frames| && s.frames[f].page == Some(p) && s.frames[f].pins > 0
  }

  /** Of the unpinned resident frames, the one used least recently. */
  ghost predicate OldestUnpinned(s: Pool, stamp: map<FrameId, nat>, f: FrameId)
  {
    && f in stamp && f < |s.frames| && s.frames[f].pins == 0
    && forall g :: 0 <= g < |s.frames| && s.frames[g].pins == 0 ==> g in stamp && stamp[f] <= stamp[g]
  }

  lemma VictimIsOldest(s: Pool, ev: map<FrameId, bool>, stamp: map<FrameId, nat>, f: FrameId)
    requires PoolOk(s, ev, None) && s.free == [] && f in ev && ev[f] && ev.Keys == stamp.Keys
    requires forall g :: g in ev && ev[g] ==> stamp[f] <= stamp[g]
    ensures OldestUnpinned(s, stamp, f)
  {
    assert FrameOk(s, ev, None, f);
    forall g | 0 <= g < |s.frames| && s.frames[g].pins == 0 ensures g in stamp && stamp[f] <= stamp[g] {
      assert FrameOk(s, ev, None, g);
    }
  }

  predicate AllPinned(s: Pool) { forall f :: 0 <= f < |s.frames| ==> s.frames[f].pins > 0 }

  function WithPins(s: Pool, f: FrameId, d: int): Pool
    requires f < |s.frames| && s.frames[f].pins + d >= 0
  {
    s.(frames := s.frames[f := s.frames[f].(pins := s.frames[f].pins + d)])
  }

  lemma SamePagesRefl(s: Pool)
    ensures SamePages(s, s)
  {
  }

  lemma SamePageAt(a: Pool, b: Pool, p: PageId)
    requires SamePages(a, b)
    ensures Page(a, p) == Page(b, p)
  {
  }

  /** The replacer tracks exactly the resident frames. */
  lemma Tracked(s: Pool, ev: map<FrameId, bool>, out: Option<FrameId>, f: FrameId)
    requires PoolOk(s, ev, out) && f < |s.frames|
    ensures f in ev <==> s.frames[f].page.Some?
    ensures out == Some(f) ==> f !in ev
    ensures f in ev ==> (ev[f] <==> s.frames[f].pins == 0)
  {
    assert FrameOk(s, ev, out, f);
  }

  lemma ResidentOnDisk(s: Pool, ev: map<FrameId, bool>, p: PageId)
    requires PoolOk(s, ev, None)
    ensures p in s.table ==> p in s.disk
  {
    assert TableOk(s, p);
    if p in s.table { assert FrameOk(s, ev, None, s.table[p]); }
  }

  lemma PinnedResident(s: Pool, ev: map<FrameId, bool>, f: FrameId)
    requires PoolOk(s, ev, None) && f < |s.frames| && s.frames[f].pins > 0
    ensures s.frames[f].page.Some? && f in ev && !ev[f]
  {
    assert FrameOk(s, ev, None, f);
  }

  /** With no free frame, an unpinned frame is one the replacer would give up. */
  lemma NoneUnpinned(s: Pool, ev: map<FrameId, bool>)
    requires PoolOk(s, ev, None) && s.free == [] && forall f :: f in ev ==> !ev[f]
    ensures AllPinned(s)
  {
    forall f | 0 <= f < |s.frames| ensures s.frames[f].pins > 0 {
      assert FrameOk(s, ev, None, f);
    }
  }

  lemma AllPinnedIsNoFrame(s: Pool, stamp: map<FrameId, nat>, lsnOf: Bytes -> nat, fails: bool, logBroken: bool)
    requires s.free == [] && AllPinned(s)
    ensures NoFrame(s, stamp, lsnOf, fails, logBroken)
  {
  }

  /** No two frames were last used at the same time. */
  lemma StampsDiffer(order: seq<FrameId>, tracked: set<FrameId>, stamp: map<FrameId, nat>, clock: nat, f: FrameId,
      g: FrameId)
    requires Tracks(order, tracked, stamp, clock) && f in stamp && g in stamp && stamp[f] == stamp[g]
    ensures f == g
  {
    var i :| 0 <= i < |order| && order[i] == f;
    var j :| 0 <= j < |order| && order[j] == g;
  }

  /** So it is the victim alone that decides. */
  lemma VictimDecides(s: Pool, ev: map<FrameId, bool>, order: seq<FrameId>, stamp: map<FrameId, nat>, clock: nat,
      f: FrameId, lsnOf: Bytes -> nat, fails: bool, logBroken: bool)
    requires Tracks(order, ev.Keys, stamp, clock) && s.free == [] && OldestUnpinned(s, stamp, f)
    ensures NoFrame(s, stamp, lsnOf, fails, logBroken) <==> Stuck(lsnOf, s.frames[f], fails, logBroken)
  {
    hide Tracks, Stuck;
    assert !AllPinned(s);
    if g: FrameId :| OldestUnpinned(s, stamp, g) && Stuck(lsnOf, s.frames[g], fails, logBroken) {
      StampsDiffer(order, ev.Keys, stamp, clock, f, g);
    }
  }

  lemma FreeUnstamped(s: Pool, ev: map<FrameId, bool>, order: seq<FrameId>, stamp: map<FrameId, nat>, clock: nat)
    requires PoolOk(s, ev, None) && Tracks(order, ev.Keys, stamp, clock) && s.free != []
    ensures var f := s.free[|s.free| - 1];
            f < |s.frames| && s.frames[f].page.None? && s.frames[f].pins == 0 && stamp - {f} == stamp
  {
    assert FrameOk(s, ev, None, s.free[|s.free| - 1]);
  }

  lemma PutBackSame(ev: map<FrameId, bool>, f: FrameId)
    requires f in ev && ev[f]
    ensures (ev - {f})[f := true] == ev
  {
  }

  lemma VictimOk(s: Pool, ev: map<FrameId, bool>, f: FrameId)
    requires PoolOk(s, ev, None) && f in ev && ev[f]
    ensures f < |s.frames| && s.frames[f].page.Some? && s.frames[f].pins == 0 && s.frames[f].page.value in s.disk
  {
    assert FrameOk(s, ev, None, f);
  }

  lemma LoadedSame(s0: Pool, mid: Pool, s: Pool, p: PageId)
    requires SamePages(s0, mid) && p !in mid.table && p in mid.disk
    requires forall q {:trigger Page(s, q)} :: Page(s, q) == if q == p then Some(mid.disk[p]) else Page(mid, q)
    ensures SamePages(s0, s) && Page(s, p) == Page(s0, p)
  {
    forall q ensures Page(s0, q) == Page(s, q) {
      assert Page(s0, q) == Page(mid, q);
    }
  }

  /** With nothing dirty, the file says what the pool says. */
  lemma FlushedIsStore(s: Pool, ev: map<FrameId, bool>)
    requires PoolOk(s, ev, None) && forall f :: 0 <= f < |s.frames| ==> !s.frames[f].dirty
    ensures forall p {:trigger Page(s, p)} :: Page(s, p) == if p in s.disk then Some(s.disk[p]) else None
  {
    forall p ensures Page(s, p) == if p in s.disk then Some(s.disk[p]) else None {
      assert TableOk(s, p);
      if p in s.table { assert FrameOk(s, ev, None, s.table[p]); }
    }
  }
}
