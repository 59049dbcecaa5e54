/** Per-key shared/exclusive locks with wait-die: the table, the lock manager that
    maintains it, and what every run of requests, sleeps and releases keeps. */
module Locks {
  import opened Keys

  datatype LockMode = Shared | Exclusive

  datatype Holder = Holder(mode: LockMode, priority: nat)

  type LockTable = map<Key, map<TxId, Holder>>

  /** Shared/shared is the only compatible pair; one never conflicts with oneself. */
  predicate Conflicts(requester: TxId, want: LockMode, holder: TxId, held: LockMode)
  {
    holder != requester && (want == Exclusive || held == Exclusive)
  }

  function Holders(table: LockTable, key: Key): map<TxId, Holder> { if key in table then table[key] else map[] }

  predicate Blocks(table: LockTable, t: TxId, key: Key, want: LockMode, h: TxId)
  {
    h in Holders(table, key) && Conflicts(t, want, h, Holders(table, key)[h].mode)
  }

  ghost predicate Blocked(table: LockTable, t: TxId, key: Key, want: LockMode)
  {
    exists h :: Blocks(table, t, key, want, h)
  }

  ghost predicate BlockedByOlder(table: LockTable, t: TxId, priority: nat, key: Key, want: LockMode)
  {
    exists h :: Blocks(table, t, key, want, h) && Holders(table, key)[h].priority < priority
  }

  /** The holder entry after a grant: new, kept, or upgraded to exclusive. */
  function Granted(hs: map<TxId, Holder>, t: TxId, priority: nat, mode: LockMode): map<TxId, Holder>
  {
    if t !in hs then hs[t := Holder(mode, priority)]
    else if mode == Exclusive then hs[t := hs[t].(mode := Exclusive)]
    else hs
  }

  function Grant(table: LockTable, t: TxId, priority: nat, key: Key, mode: LockMode): LockTable
  {
    table[key := Granted(Holders(table, key), t, priority, mode)]
  }

  function Release(table: LockTable, t: TxId): LockTable
  {
    map k | k in table && table[k] - {t} != map[] :: table[k] - {t}
  }

  predicate Holds(table: LockTable, t: TxId, key: Key) { t in Holders(table, key) }

  predicate HoldsX(table: LockTable, t: TxId, key: Key)
  {
    t in Holders(table, key) && Holders(table, key)[t].mode == Exclusive
  }

  /** No two holders of one key conflict. */
  ghost predicate Compatible(table: LockTable)
  {
    forall k, t, u :: HoldsX(table, t, k) && Holds(table, u, k) ==> t == u
  }

  /** A request is blocked exactly when granting it would let holders conflict. */
  lemma GrantCompatible(table: LockTable, t: TxId, priority: nat, key: Key, mode: LockMode)
    requires Compatible(table)
    ensures Compatible(Grant(table, t, priority, key, mode)) <==> !Blocked(table, t, key, mode)
  {
    var after := Grant(table, t, priority, key, mode);
    if h :| Blocks(table, t, key, mode, h) {
      assert Holds(after, t, key) && Holds(after, h, key) && t != h;
      assert HoldsX(after, if mode == Exclusive then t else h, key);
    } else {
      StaysCompatible(table, t, priority, key, mode);
    }
  }

  lemma StaysCompatible(table: LockTable, t: TxId, priority: nat, key: Key, mode: LockMode)
    requires Compatible(table) && !Blocked(table, t, key, mode)
    ensures Compatible(Grant(table, t, priority, key, mode))
  {
    var after := Grant(table, t, priority, key, mode);
    assert forall h :: !Blocks(table, t, key, mode, h);
    forall k, a, b | HoldsX(after, a, k) && Holds(after, b, k) ensures a == b {
      assert !Blocks(table, t, key, mode, a) && !Blocks(table, t, key, mode, b);
      assert HoldsX(table, a, k) || (a == t && k == key && mode == Exclusive);
      assert Holds(table, b, k) || (b == t && k == key);
    }
  }

  lemma GrantHolds(table: LockTable, t: TxId, priority: nat, key: Key, mode: LockMode)
    ensures var after := Grant(table, t, priority, key, mode);
            && Holds(after, t, key) && (mode == Exclusive ==> HoldsX(after, t, key))
            && (forall u, k :: Holds(table, u, k) ==> Holds(after, u, k))
            && (forall u, k :: HoldsX(table, u, k) ==> HoldsX(after, u, k))
            && (forall u, k :: Holds(after, u, k) ==> Holds(table, u, k) || (u == t && k == key))
  {
  }

  lemma ReleaseHolds(table: LockTable, t: TxId)
    ensures var after := Release(table, t);
            && (forall u, k :: Holds(after, u, k) <==> Holds(table, u, k) && u != t)
            && (forall u, k :: HoldsX(after, u, k) <==> HoldsX(table, u, k) && u != t)
  {
    var after := Release(table, t);
    forall u, k
      ensures Holds(after, u, k) <==> Holds(table, u, k) && u != t
      ensures HoldsX(after, u, k) <==> HoldsX(table, u, k) && u != t
    {
      if k in table && u in table[k] && u != t {
        assert u in table[k] - {t};
      }
    }
  }

  lemma ReleaseCompatible(table: LockTable, t: TxId)
    requires Compatible(table)
    ensures Compatible(Release(table, t))
  {
    ReleaseHolds(table, t);
  }

  // ------------------------------------------------------------ the lock manager

  datatype Outcome = Ok | Die | Wait

  /** What happens to the table while a requester sleeps: another transaction releases
      everything, or asks for a lock; or the wait is over. */
  datatype Event = Released(u: TxId) | Requested(u: TxId, priority: nat, key: Key, mode: LockMode) | TimesUp

  datatype Reply = Taken | Died | TimedOut

  ghost function Happens(table: LockTable, e: Event): LockTable
  {
    match e
    case Released(u) => Release(table, u)
    case Requested(u, priority, key, mode) => if Blocked(table, u, key, mode) then table
      else Grant(table, u, priority, key, mode)
    case TimesUp => table
  }

  ghost function After(table: LockTable, events: seq<Event>): LockTable
  {
    if events == [] then table else Happens(After(table, events[..|events| - 1]), events[|events| - 1])
  }

  /** Blocked, but by nobody older. */
  ghost predicate MustWait(table: LockTable, t: TxId, priority: nat, key: Key, mode: LockMode)
  {
    Blocked(table, t, key, mode) && !BlockedByOlder(table, t, priority, key, mode)
  }

  /** When a requester looks: at once, and after every event that takes a lock away. */
  ghost predicate LooksAt(table: LockTable, events: seq<Event>, k: nat)
  {
    k <= |events| &&
    (k > 0 ==> events[k - 1].Released? && After(table, events[..k]) != After(table, events[..k - 1]))
  }

  /** At every look before the `n`-th event it had to wait, and its time was not up. */
  ghost predicate Slept(table: LockTable, events: seq<Event>, n: nat, t: TxId, priority: nat, key: Key, mode: LockMode)
  {
    && n <= |events|
    && (forall k: nat {:trigger LooksAt(table, events, k)} :: k < n && LooksAt(table, events, k) ==>
          MustWait(After(table, events[..k]), t, priority, key, mode))
    && (forall k :: 0 <= k < n ==> events[k] != TimesUp)
  }

  /** And at the look after the `n`-th event, if there is one. */
  ghost predicate StillWaits(table: LockTable, events: seq<Event>, n: nat, t: TxId, priority: nat, key: Key,
      mode: LockMode)
  {
    && Slept(table, events, n, t, priority, key, mode)
    && (LooksAt(table, events, n) ==> MustWait(After(table, events[..n]), t, priority, key, mode))
  }

  /** One more event slept through. */
  lemma SleptOn(table: LockTable, events: seq<Event>, n: nat, t: TxId, priority: nat, key: Key, mode: LockMode)
    requires StillWaits(table, events, n, t, priority, key, mode) && n < |events| && events[n] != TimesUp
    ensures Slept(table, events, n + 1, t, priority, key, mode)
    ensures After(table, events[..n + 1]) == Happens(After(table, events[..n]), events[n])
    ensures LooksAt(table, events, n + 1) <==>
            events[n].Released? && Happens(After(table, events[..n]), events[n]) != After(table, events[..n])
  {
    hide Blocked, BlockedByOlder, Happens;
    assert events[..n + 1][..n] == events[..n];
  }

  lemma FirstLook(table: LockTable, events: seq<Event>, t: TxId, priority: nat, key: Key, mode: LockMode)
    ensures After(table, events[..0]) == table && LooksAt(table, events, 0)
    ensures Slept(table, events, 0, t, priority, key, mode)
  {
  }

  lemma LookedAndWaits(table: LockTable, events: seq<Event>, n: nat, t: TxId, priority: nat, key: Key, mode: LockMode)
    requires Slept(table, events, n, t, priority, key, mode)
    requires MustWait(After(table, events[..n]), t, priority, key, mode)
    ensures StillWaits(table, events, n, t, priority, key, mode)
  {
  }

  lemma NotLooking(table: LockTable, events: seq<Event>, n: nat, t: TxId, priority: nat, key: Key, mode: LockMode)
    requires Slept(table, events, n, t, priority, key, mode)
    ensures !LooksAt(table, events, n) ==> StillWaits(table, events, n, t, priority, key, mode)
  {
  }

  /** What a request comes to after `n` of the events: the first look that need not wait
      grants or, an older holder being in the way, refuses; or the time is up first. */
  ghost predicate Ends(table: LockTable, events: seq<Event>, n: nat, t: TxId, priority: nat, key: Key, mode: LockMode,
      r: Reply)
  {
    n <= |events| &&
    var now := After(table, events[..n]);
    match r
    case Taken => Slept(table, events, n, t, priority, key, mode) && LooksAt(table, events, n)
      && !Blocked(now, t, key, mode)
    case Died => Slept(table, events, n, t, priority, key, mode) && LooksAt(table, events, n)
      && BlockedByOlder(now, t, priority, key, mode)
    case TimedOut =>
      if n > 0 && events[n - 1] == TimesUp then StillWaits(table, events, n - 1, t, priority, key, mode)
      else n == |events| && StillWaits(table, events, n, t, priority, key, mode)
  }

  lemma DiedIsBlocked(table: LockTable, t: TxId, priority: nat, key: Key, mode: LockMode)
    ensures BlockedByOlder(table, t, priority, key, mode) ==> Blocked(table, t, key, mode)
  {
  }

  /** The reply is decided by the table and what happens, whenever it falls. */
  lemma OneReply(table: LockTable, events: seq<Event>, n: nat, m: nat, t: TxId, priority: nat, key: Key,
      mode: LockMode, r: Reply, q: Reply)
    requires Ends(table, events, n, t, priority, key, mode, r) && Ends(table, events, m, t, priority, key, mode, q)
    ensures r == q && n == m
  {
    hide Blocked, BlockedByOlder, After;
    DiedIsBlocked(After(table, events[..n]), t, priority, key, mode);
    DiedIsBlocked(After(table, events[..m]), t, priority, key, mode);
  }

  /** With nothing else going on the table decides. */
  lemma Alone(table: LockTable, events: seq<Event>, n: nat, t: TxId, priority: nat, key: Key, mode: LockMode, r: Reply)
    requires Ends(table, events, n, t, priority, key, mode, r) && events == []
    ensures r == Taken <==> !Blocked(table, t, key, mode)
  {
    assert events[..n] == [] && LooksAt(table, events, 0);
    DiedIsBlocked(table, t, priority, key, mode);
  }

  lemma TimeIsUp(table: LockTable, events: seq<Event>, n: nat, t: TxId, priority: nat, key: Key, mode: LockMode)
    requires StillWaits(table, events, n, t, priority, key, mode) && (n == |events| || events[n] == TimesUp)
    ensures var m := if n < |events| then n + 1 else n;
            && Ends(table, events, m, t, priority, key, mode, TimedOut)
            && After(table, events[..m]) == After(table, events[..n])
  {
    hide Blocked, BlockedByOlder;
    if n < |events| {
      assert events[..n + 1][..n] == events[..n];
    }
  }

  /** Others can neither take nor weaken a lock one holds. */
  lemma {:induction false} AfterKeeps(table: LockTable, events: seq<Event>, t: TxId, k: Key)
    requires HoldsX(table, t, k) && forall e :: e in events && e.Released? ==> e.u != t
    ensures HoldsX(After(table, events), t, k)
    decreases |events|
  {
    hide Release, Grant, Blocked, HoldsX;
    if events != [] {
      var n := |events| - 1;
      AfterKeeps(table, events[..n], t, k);
      var now := After(table, events[..n]);
      match events[n] {
        case Released(u) => ReleaseHolds(now, u);
        case Requested(u, priority, key, mode) => GrantHolds(now, u, priority, key, mode);
        case TimesUp =>
      }
    }
  }

  lemma GrantNonEmpty(table: LockTable, t: TxId, priority: nat, key: Key, mode: LockMode)
    requires forall k :: k in table ==> table[k] != map[]
    ensures var after := Grant(table, t, priority, key, mode); forall k :: k in after ==> after[k] != map[]
  {
    assert t in Granted(Holders(table, key), t, priority, mode);
  }

  /** The scan over a key's holders: is there a conflict, and with an older one? */
  method ScanHolders(holders: map<TxId, Holder>, t: TxId, priority: nat, key: Key, mode: LockMode,
      ghost table: LockTable)
      returns (conflict: bool, older: bool)
    requires holders == Holders(table, key)
    ensures older <==> BlockedByOlder(table, t, priority, key, mode)
    ensures !older ==> (conflict <==> Blocked(table, t, key, mode))
    ensures older ==> Blocked(table, t, key, mode)
  {
    conflict, older := false, false;
    var rest := holders;
    while rest != map[]
      invariant rest.Keys <= holders.Keys && forall h :: h in rest ==> rest[h] == holders[h]
      invariant forall h :: h in holders && h !in rest && Blocks(table, t, key, mode, h) ==>
                  conflict && holders[h].priority >= priority
      invariant conflict ==> Blocked(table, t, key, mode)
      decreases |rest|
    {
      var h :| h in rest;
      if Conflicts(t, mode, h, rest[h].mode) {
        assert Blocks(table, t, key, mode, h);
        conflict := true;
        if rest[h].priority < priority {
          return true, true;
        }
      }
      assert rest.Keys == (rest - {h}).Keys + {h};
      rest := rest - {h};
    }
  }

  class LockManager {
    var table: LockTable
    var held: map<TxId, seq<Key>>

    /** `held` lists exactly the keys of each transaction; no key has an empty entry. */
    ghost predicate Valid()
      reads this
    {
      && Compatible(table)
      && (forall k :: k in table ==> table[k] != map[])
      && (forall t, k :: Holds(table, t, k) <==> t in held && k in held[t])
      && (forall t :: t in held ==> held[t] != [])
    }

    constructor ()
      ensures Valid() && table == map[]
    {
      table, held := map[], map[];
    }

    /** One look at the table: grant, die because a conflicting holder is older, or
        (older than every conflicting holder) go to sleep until a release. */
    method Look(t: TxId, priority: nat, key: Key, mode: LockMode) returns (r: Outcome)
      requires Valid()
      modifies this
      ensures Valid()
      ensures r == Ok <==> !Blocked(old(table), t, key, mode)
      ensures r == Die <==> BlockedByOlder(old(table), t, priority, key, mode)
      ensures r == Ok ==> table == Grant(old(table), t, priority, key, mode)
      ensures r != Ok ==> table == old(table) && held == old(held)
    {
      hide Compatible, Blocked, BlockedByOlder, Grant;
      var conflict, older := ScanHolders(Holders(table, key), t, priority, key, mode, table);
      if older {
        return Die;
      }
      if conflict {
        return Wait;
      }
      GrantCompatible(table, t, priority, key, mode);
      GrantHolds(table, t, priority, key, mode);
      GrantNonEmpty(table, t, priority, key, mode);
      if !Holds(table, t, key) {
        held := held[t := (if t in held then held[t] else []) + [key]];
      }
      table := Grant(table, t, priority, key, mode);
      return Ok;
    }

    /** What another thread does while one sleeps. */
    method Happen(e: Event) returns (woken: bool)
      requires Valid()
      modifies this
      ensures Valid() && table == Happens(old(table), e) && (woken <==> e.Released? && table != old(table))
    {
      hide Compatible, Blocked, BlockedByOlder, Grant, Release;
      match e {
        case Released(u) => woken := ReleaseAll(u);
        case Requested(u, priority, key, mode) =>
          var _ := Look(u, priority, key, mode);
          woken := false;
        case TimesUp => woken := false;
      }
    }

    /** Look, and as long as the answer is to wait, sleep until some release and look
        again, or until the second is over. `others` is what the rest of the system does
        meanwhile; `seen` of it happens before this returns. */
    method Acquire(t: TxId, priority: nat, key: Key, mode: LockMode, others: seq<Event>)
      returns (r: Reply, ghost seen: nat)
      requires Valid()
      modifies this
      ensures Valid() && seen <= |others| && Ends(old(table), others, seen, t, priority, key, mode, r)
      ensures var now := After(old(table), others[..seen]);
              table == if r == Taken then Grant(now, t, priority, key, mode) else now
      ensures others == [] ==> (r == Taken <==> !Blocked(old(table), t, key, mode))
    {
      hide Compatible, Blocked, BlockedByOlder, Grant, Release, Happens, Slept, LooksAt, StillWaits;
      ghost var before := table;
      var i := 0;
      seen := 0;
      FirstLook(table, others, t, priority, key, mode);
      while true
        invariant Valid() && 0 <= i <= |others| && seen == i && table == After(before, others[..i])
        invariant Slept(before, others, i, t, priority, key, mode) && LooksAt(before, others, i)
        decreases |others| - i, 1
      {
        var outcome := Look(t, priority, key, mode);
        if outcome != Wait {
          r := if outcome == Ok then Taken else Died;
          if others == [] { Alone(before, others, seen, t, priority, key, mode, r); }
          return;
        }
        LookedAndWaits(before, others, i, t, priority, key, mode);
        ghost var j := i;
        var woken := false;
        while !woken
          invariant Valid() && j <= i <= |others| && seen == i && table == After(before, others[..i])
                    && (woken ==> i > j)
          invariant if woken then Slept(before, others, i, t, priority, key, mode) && LooksAt(before, others, i)
                    else StillWaits(before, others, i, t, priority, key, mode)
          decreases |others| - i
        {
          if i == |others| || others[i] == TimesUp {
            TimeIsUp(before, others, i, t, priority, key, mode);
            seen := if i < |others| then i + 1 else i;
            r := TimedOut;
            if others == [] { Alone(before, others, seen, t, priority, key, mode, r); }
            return;
          }
          SleptOn(before, others, i, t, priority, key, mode);
          woken := Happen(others[i]);
          NotLooking(before, others, i + 1, t, priority, key, mode);
          i := i + 1;
          seen := i;
        }
      }
    }

    /** Drop every lock of `t`; `notify` says whether sleepers are woken. */
    method ReleaseAll(t: TxId) returns (notify: bool)
      requires Valid()
      modifies this
      ensures Valid()
      ensures table == Release(old(table), t)
      ensures held == old(held) - {t}
      ensures notify <==> table != old(table)
    {
      if t !in held {
        NothingToRelease(table, t);
        assert held - {t} == held;
        return false;
      }
      var keys := held[t];
      ghost var before := table;
      var i := 0;
      while i < |keys|
        invariant 0 <= i <= |keys|
        invariant table == ReleaseKeys(before, t, keys[..i]) && held == old(held)
      {
        ReleaseOneMore(before, t, keys, i);
        if keys[i] in table {
          var hs := table[keys[i]] - {t};
          table := if hs == map[] then table - {keys[i]} else table[keys[i] := hs];
        }
        i := i + 1;
      }
      assert keys[..|keys|] == keys;
      ReleaseAllKeys(before, t, keys);
      ReleaseCompatible(before, t);
      ReleaseHolds(before, t);
      assert table == Release(before, t);
      assert Holds(before, t, keys[0]);
      held := held - {t};
      return true;
    }
  }

  /** The table with `t` dropped from the listed keys only. */
  function ReleaseKeys(table: LockTable, t: TxId, keys: seq<Key>): LockTable
  {
    map k | k in table && (k in keys ==> table[k] - {t} != map[]) :: if k in keys then table[k] - {t} else table[k]
  }

  lemma NothingToRelease(table: LockTable, t: TxId)
    requires forall k :: k in table ==> table[k] != map[]
    requires forall k :: !Holds(table, t, k)
    ensures Release(table, t) == table
  {
    forall k | k in table ensures table[k] - {t} == table[k] {
      assert !Holds(table, t, k);
    }
  }

  lemma ReleaseOneMore(table: LockTable, t: TxId, keys: seq<Key>, i: nat)
    requires i < |keys|
    ensures var now := ReleaseKeys(table, t, keys[..i]);
            ReleaseKeys(table, t, keys[..i + 1]) ==
              (if keys[i] !in now then now
               else if now[keys[i]] - {t} == map[] then now - {keys[i]}
               else now[keys[i] := now[keys[i]] - {t}])
  {
    assert keys[..i + 1] == keys[..i] + [keys[i]];
    assert forall m: map<TxId, Holder> :: m - {t} - {t} == m - {t};
  }

  lemma ReleaseAllKeys(table: LockTable, t: TxId, keys: seq<Key>)
    requires forall k :: k in table ==> table[k] != map[]
    requires forall k :: Holds(table, t, k) <==> k in keys
    ensures ReleaseKeys(table, t, keys) == Release(table, t)
  {
    forall k | k in table && k !in keys ensures table[k] - {t} == table[k] {
      assert !Holds(table, t, k);
    }
  }
}
