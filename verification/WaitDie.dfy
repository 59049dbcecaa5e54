/** Progress under wait-die. The state is everything the lock manager and its
    sleepers share: the table, the live transactions with their ages, who sleeps on
    what, and who has been woken since its last look.

    Whoever sleeps unwoken waits for a strictly younger live holder. That alone does not
    keep the waits-for graph acyclic: an older transaction can be granted a shared lock
    while a younger exclusive requester sleeps on that key, and a grant wakes nobody. Such
    an overtaken sleeper is on every cycle; where there is none, there is no cycle. */
module WaitDie {
  import opened Keys
  import opened Locks

  datatype Want = Want(key: Key, mode: LockMode)

  datatype State = State(table: LockTable, age: map<TxId, nat>, asleep: map<TxId, Want>, woken: set<TxId>)

  datatype Step =
    | Arrive(t: TxId, priority: nat)
    | Request(t: TxId, want: Want)
    | Recheck(t: TxId)
    | Timeout(t: TxId)
    | Finish(t: TxId)

  ghost predicate Init(s: State) { s == State(map[], map[], map[], {}) }

  /** One look at the table: granted, told to die, or (back) to sleep. A dying
      transaction stays live, holding its locks, until its owner aborts it. */
  ghost predicate Look(s: State, s': State, t: TxId, w: Want)
    requires t in s.age
  {
    if !Blocked(s.table, t, w.key, w.mode) then
      s' == State(Grant(s.table, t, s.age[t], w.key, w.mode), s.age, s.asleep - {t}, s.woken - {t})
    else if BlockedByOlder(s.table, t, s.age[t], w.key, w.mode) then
      s' == State(s.table, s.age, s.asleep - {t}, s.woken - {t})
    else
      s' == State(s.table, s.age, s.asleep[t := w], s.woken - {t})
  }

  ghost predicate Next(s: State, s': State, step: Step)
  {
    match step
    case Arrive(t, priority) =>
      // Fresh id, and an age no live transaction has.
      && t !in s.age && (forall u :: u in s.age ==> s.age[u] != priority)
      && s' == s.(age := s.age[t := priority])
    case Request(t, w) =>
      t in s.age && t !in s.asleep && Look(s, s', t, w)
    case Recheck(t) =>
      t in s.age && t in s.asleep && t in s.woken && Look(s, s', t, s.asleep[t])
    case Timeout(t) =>
      t in s.asleep && s' == s.(asleep := s.asleep - {t}, woken := s.woken - {t})
    case Finish(t) =>
      // ReleaseAll wakes every sleeper unless there was nothing to release.
      && t in s.age && t !in s.asleep
      && s' == State(Release(s.table, t), s.age - {t}, s.asleep,
                     if exists k :: Locks.Holds(s.table, t, k) then s.asleep.Keys else s.woken)
  }

  ghost predicate AgesDiffer(age: map<TxId, nat>) { forall t, u :: t in age && u in age && t != u ==> age[t] != age[u] }

  ghost predicate HoldersLive(s: State)
  {
    forall k, h :: Locks.Holds(s.table, h, k) ==> h in s.age && Holders(s.table, k)[h].priority == s.age[h]
  }

  /** `h` is a live, strictly younger holder in the way of sleeper `t`. */
  ghost predicate YoungerBlocker(s: State, t: TxId, h: TxId)
    requires t in s.asleep
  {
    && t in s.age && h in s.age && s.age[t] < s.age[h]
    && Blocks(s.table, t, s.asleep[t].key, s.asleep[t].mode, h)
  }

  ghost predicate Inv(s: State)
  {
    && Compatible(s.table)
    && AgesDiffer(s.age)
    && HoldersLive(s)
    && s.asleep.Keys <= s.age.Keys
    && (forall t :: t in s.asleep && t !in s.woken ==> exists h :: YoungerBlocker(s, t, h))
  }

  lemma InitInv(s: State)
    requires Init(s)
    ensures Inv(s)
  {
  }

  lemma NextInv(s: State, s': State, step: Step)
    requires Inv(s) && Next(s, s', step)
    ensures Inv(s')
  {
    match step
    case Arrive(t, priority) =>
      forall x | x in s'.asleep && x !in s'.woken ensures exists h :: YoungerBlocker(s', x, h) {
        var h :| YoungerBlocker(s, x, h);
        assert YoungerBlocker(s', x, h);
      }
    case Request(t, w) => LookInv(s, s', t, w);
    case Recheck(t) => LookInv(s, s', t, s.asleep[t]);
    case Timeout(t) =>
      forall x | x in s'.asleep && x !in s'.woken ensures exists h :: YoungerBlocker(s', x, h) {
        var h :| YoungerBlocker(s, x, h);
        assert YoungerBlocker(s', x, h);
      }
    case Finish(t) => FinishInv(s, s', t);
  }

  lemma LookInv(s: State, s': State, t: TxId, w: Want)
    requires Inv(s) && t in s.age && Look(s, s', t, w)
    ensures Inv(s')
  {
    if !Blocked(s.table, t, w.key, w.mode) {
      GrantCompatible(s.table, t, s.age[t], w.key, w.mode);
      GrantHolds(s.table, t, s.age[t], w.key, w.mode);
    }
    forall x | x in s'.asleep && x !in s'.woken ensures exists h :: YoungerBlocker(s', x, h) {
      if x == t {
        var h :| Blocks(s.table, t, w.key, w.mode, h);
        assert !(Holders(s.table, w.key)[h].priority < s.age[t]);
        assert Locks.Holds(s.table, h, w.key);
        assert YoungerBlocker(s', x, h);
      } else {
        var h :| YoungerBlocker(s, x, h);
        assert YoungerBlocker(s', x, h);
      }
    }
  }

  lemma FinishInv(s: State, s': State, t: TxId)
    requires Inv(s) && Next(s, s', Finish(t))
    ensures Inv(s')
  {
    ReleaseHolds(s.table, t);
    ReleaseCompatible(s.table, t);
    forall k, h | Locks.Holds(s'.table, h, k) ensures h in s'.age && Holders(s'.table, k)[h].priority == s'.age[h] {
      assert Locks.Holds(s.table, h, k);
    }
    forall x | x in s'.asleep && x !in s'.woken ensures exists h :: YoungerBlocker(s', x, h) {
      var h :| YoungerBlocker(s, x, h);
      assert Locks.Holds(s.table, h, s.asleep[x].key);
      assert YoungerBlocker(s', x, h);
    }
  }

  // ------------------------------------------------------------ runs

  ghost predicate Run(states: seq<State>, steps: seq<Step>)
  {
    && |states| == |steps| + 1 && Init(states[0])
    && forall i :: 0 <= i < |steps| ==> Next(states[i], states[i + 1], steps[i])
  }

  lemma {:induction false} RunInv(states: seq<State>, steps: seq<Step>, i: nat)
    requires Run(states, steps) && i < |states|
    ensures Inv(states[i])
  {
    if i == 0 {
      InitInv(states[0]);
    } else {
      RunInv(states, steps, i - 1);
      assert Next(states[i - 1], states[i - 1 + 1], steps[i - 1]);
      NextInv(states[i - 1], states[i], steps[i - 1]);
    }
  }

  /** In every reachable state the youngest live transaction is awake or woken, so
      somebody can always move: no deadlock persists. */
  lemma SomebodyCanMove(states: seq<State>, steps: seq<Step>, i: nat) returns (youngest: TxId)
    requires Run(states, steps) && i < |states| && states[i].age != map[]
    ensures youngest in states[i].age
    ensures forall u :: u in states[i].age ==> states[i].age[u] <= states[i].age[youngest]
    ensures youngest in states[i].asleep ==> youngest in states[i].woken
  {
    RunInv(states, steps, i);
    youngest := Youngest(states[i].age);
  }

  lemma {:induction false} Youngest(age: map<TxId, nat>) returns (y: TxId)
    requires age != map[]
    ensures y in age && forall u :: u in age ==> age[u] <= age[y]
    decreases |age|
  {
    var t :| t in age;
    var rest := age - {t};
    assert age.Keys == rest.Keys + {t};
    y := t;
    if rest != map[] {
      var z := Youngest(rest);
      if age[z] > age[t] { y := z; }
    }
  }

  /** The oldest live transaction is never told to die. */
  lemma OldestNeverDies(states: seq<State>, steps: seq<Step>, i: nat, t: TxId, w: Want)
    requires Run(states, steps) && i < |states| && t in states[i].age
    requires forall u :: u in states[i].age ==> states[i].age[t] <= states[i].age[u]
    ensures !BlockedByOlder(states[i].table, t, states[i].age[t], w.key, w.mode)
  {
    RunInv(states, steps, i);
    var s := states[i];
    if BlockedByOlder(s.table, t, s.age[t], w.key, w.mode) {
      var h :| Blocks(s.table, t, w.key, w.mode, h) && Holders(s.table, w.key)[h].priority < s.age[t];
      assert Locks.Holds(s.table, h, w.key);
    }
  }

  // ------------------------------------------------------------ waits-for

  /** Unwoken sleeper `x` waits for holder `h`. */
  ghost predicate WaitsFor(s: State, x: TxId, h: TxId)
  {
    x in s.asleep && x !in s.woken && Blocks(s.table, x, s.asleep[x].key, s.asleep[x].mode, h)
  }

  ghost predicate WaitsForOlder(s: State, x: TxId, h: TxId)
  {
    WaitsFor(s, x, h) && x in s.age && h in s.age && s.age[h] < s.age[x]
  }

  /** An older transaction has got in the way since the sleeper last looked. */
  ghost predicate Overtaken(s: State, x: TxId) { exists h :: WaitsForOlder(s, x, h) }

  /** In every run an older holder in a sleeper's way holds the key shared, and the sleeper
      wants it exclusively. */
  lemma OvertakenBySharing(states: seq<State>, steps: seq<Step>, i: nat, x: TxId, h: TxId)
    requires Run(states, steps) && i < |states| && WaitsForOlder(states[i], x, h)
    ensures Holders(states[i].table, states[i].asleep[x].key)[h].mode == Shared && states[i].asleep[x].mode == Exclusive
  {
    hide Run, Next;
    RunInv(states, steps, i);
    var s := states[i];
    var (key, want) := (s.asleep[x].key, s.asleep[x].mode);
    var b :| YoungerBlocker(s, x, b);
    assert b != h && Locks.Holds(s.table, b, key) && Locks.Holds(s.table, h, key);
    assert !HoldsX(s.table, h, key);
  }

  /** Going to sleep, nobody has an older transaction in the way; only a shared grant to an
      older one on the very key changes that. */
  lemma OnlySharingOvertakes(s: State, s': State, step: Step, x: TxId)
    requires Inv(s) && Inv(s') && Next(s, s', step) && Overtaken(s', x)
    requires !(x in s.asleep && x !in s.woken && Overtaken(s, x))
    ensures x in s.asleep && x !in s.woken && x in s.age && s'.asleep[x] == s.asleep[x]
    ensures (step.Request? || step.Recheck?) && step.t in s.age && s.age[step.t] < s.age[x] && step.t !in s'.asleep
    ensures WaitsForOlder(s', x, step.t) && Holders(s'.table, s.asleep[x].key)[step.t].mode == Shared
  {
    var h :| WaitsForOlder(s', x, h);
    assert Locks.Holds(s'.table, h, s'.asleep[x].key);
    match step
    case Arrive(t, priority) => assert WaitsForOlder(s, x, h);
    case Timeout(t) => assert WaitsForOlder(s, x, h);
    case Finish(t) =>
      ReleaseHolds(s.table, t);
      assert Locks.Holds(s.table, h, s.asleep[x].key);
      assert WaitsForOlder(s, x, h);
    case Request(t, w) => LookOvertakes(s, s', t, w, x, h);
    case Recheck(t) => LookOvertakes(s, s', t, s.asleep[t], x, h);
  }

  lemma LookOvertakes(s: State, s': State, t: TxId, w: Want, x: TxId, h: TxId)
    requires Inv(s) && Inv(s') && t in s.age && (t in s.asleep ==> t in s.woken) && Look(s, s', t, w)
             && WaitsForOlder(s', x, h)
    requires !(x in s.asleep && x !in s.woken && Overtaken(s, x))
    ensures x in s.asleep && x !in s.woken && x in s.age && s'.asleep[x] == s.asleep[x]
    ensures h == t && t !in s'.asleep && Holders(s'.table, s.asleep[x].key)[t].mode == Shared
  {
    LookFindsNoOlder(s, s', t, w, h);
    assert Locks.Holds(s'.table, h, s'.asleep[x].key);
    assert !WaitsForOlder(s, x, h);
    var b :| YoungerBlocker(s', x, b);
    assert Locks.Holds(s'.table, b, s'.asleep[x].key);
    assert !HoldsX(s'.table, h, s'.asleep[x].key);
  }

  /** Who looks and goes to sleep has nobody older in the way. */
  lemma LookFindsNoOlder(s: State, s': State, t: TxId, w: Want, h: TxId)
    requires Inv(s) && t in s.age && Look(s, s', t, w)
    ensures !WaitsForOlder(s', t, h)
  {
    if t in s'.asleep && Blocks(s.table, t, w.key, w.mode, h) {
      assert Locks.Holds(s.table, h, w.key);
    }
  }

  ghost predicate Cycle(s: State, c: seq<TxId>)
  {
    c != [] && forall i {:trigger c[i]} :: 0 <= i < |c| ==> WaitsFor(s, c[i], c[if i + 1 < |c| then i + 1 else 0])
  }

  lemma AgesRise(s: State, c: seq<TxId>, i: nat)
    requires Inv(s) && Cycle(s, c) && i < |c| && !Overtaken(s, c[i])
    ensures var next := c[if i + 1 < |c| then i + 1 else 0]; c[i] in s.age && next in s.age && s.age[c[i]] < s.age[next]
  {
    var (x, h) := (c[i], c[if i + 1 < |c| then i + 1 else 0]);
    assert WaitsFor(s, x, h);
    assert Locks.Holds(s.table, h, s.asleep[x].key) && h != x;
    assert !WaitsForOlder(s, x, h);
  }

  lemma {:induction false} AgesClimb(s: State, c: seq<TxId>, i: nat)
    requires Inv(s) && Cycle(s, c) && i < |c| && forall j :: 0 <= j < |c| ==> !Overtaken(s, c[j])
    ensures c[0] in s.age && c[i] in s.age && s.age[c[0]] <= s.age[c[i]]
    decreases i
  {
    hide WaitsFor, Overtaken, Inv, Cycle;
    AgesRise(s, c, i);
    if i > 0 {
      AgesClimb(s, c, i - 1);
      AgesRise(s, c, i - 1);
    }
  }

  /** Every cycle of the waits-for graph, in every state of every run, passes through an
      overtaken sleeper. */
  lemma CyclesAreOvertaken(states: seq<State>, steps: seq<Step>, i: nat, c: seq<TxId>) returns (j: nat)
    requires Run(states, steps) && i < |states| && Cycle(states[i], c)
    ensures j < |c| && Overtaken(states[i], c[j])
  {
    hide Run, Next, Inv, Cycle;
    RunInv(states, steps, i);
    j := 0;
    assert c != [] by { assert Cycle(states[i], c); CycleNotEmpty(states[i], c); }
    if j' :| 0 <= j' < |c| && Overtaken(states[i], c[j']) {
      j := j';
    } else {
      AgesClimb(states[i], c, |c| - 1);
      AgesRise(states[i], c, |c| - 1);
    }
  }

  lemma CycleNotEmpty(s: State, c: seq<TxId>)
    requires Cycle(s, c)
    ensures c != []
  {
  }

  /** The documented acyclicity, where it holds: no overtaken sleeper, no cycle. */
  lemma NobodyOvertakenNoCycle(states: seq<State>, steps: seq<Step>, i: nat, c: seq<TxId>)
    requires Run(states, steps) && i < |states| && forall x :: !Overtaken(states[i], x)
    ensures !Cycle(states[i], c)
  {
    hide Run;
    if Cycle(states[i], c) {
      var j := CyclesAreOvertaken(states, steps, i, c);
    }
  }

  // ------------------------------------------------------------ a momentary cycle

  const READS_3: Holder := Holder(Shared, 3)
  const READS_1: Holder := Holder(Shared, 1)
  const WRITES_2: Holder := Holder(Exclusive, 2)

  /** 3 reads `a`, 2 writes `b`, 2 asks to write `a` and sleeps behind the younger 3;
      1 is granted `a` shared, which wakes nobody; 1 asks for `b` and sleeps. */
  ghost function CycleTable(a: Key, b: Key, i: nat): LockTable
  {
    if i < 4 then map[]
    else if i == 4 then map[a := map[3 := READS_3]]
    else if i < 7 then map[a := map[3 := READS_3], b := map[2 := WRITES_2]]
    else map[a := map[3 := READS_3, 1 := READS_1], b := map[2 := WRITES_2]]
  }

  ghost function CycleState(a: Key, b: Key, i: nat): State
  {
    var age: map<TxId, nat> :=
      if i == 0 then map[] else if i == 1 then map[1 := 1] else if i == 2 then map[1 := 1, 2 := 2]
      else map[1 := 1, 2 := 2, 3 := 3];
    var asleep: map<TxId, Want> :=
      if i < 6 then map[] else if i < 8 then map[2 := Want(a, Exclusive)]
      else map[2 := Want(a, Exclusive), 1 := Want(b, Shared)];
    State(CycleTable(a, b, i), age, asleep, {})
  }

  ghost function CycleStep(a: Key, b: Key, i: nat): Step
  {
    if i == 0 then Arrive(1, 1) else if i == 1 then Arrive(2, 2) else if i == 2 then Arrive(3, 3)
    else if i == 3 then Request(3, Want(a, Shared)) else if i == 4 then Request(2, Want(b, Exclusive))
    else if i == 5 then Request(2, Want(a, Exclusive)) else if i == 6 then Request(1, Want(a, Shared))
    else Request(1, Want(b, Shared))
  }

  lemma CycleArrives(a: Key, b: Key, i: nat)
    requires i < 3
    ensures Next(CycleState(a, b, i), CycleState(a, b, i + 1), CycleStep(a, b, i))
  {
    assert CycleState(a, b, i + 1).age == CycleState(a, b, i).age[i + 1 := i + 1];
  }

  lemma CycleGrants(a: Key, b: Key, i: nat)
    requires a != b && (i == 3 || i == 4 || i == 6)
    ensures Next(CycleState(a, b, i), CycleState(a, b, i + 1), CycleStep(a, b, i))
  {
    var (s, s') := (CycleState(a, b, i), CycleState(a, b, i + 1));
    var (t, w) := (CycleStep(a, b, i).t, CycleStep(a, b, i).want);
    CycleFree(a, b, i);
    assert s.asleep - {t} == s.asleep;
  }

  lemma CycleFree(a: Key, b: Key, i: nat)
    requires a != b && (i == 3 || i == 4 || i == 6)
    ensures var s := CycleState(a, b, i); var (t, w) := (CycleStep(a, b, i).t, CycleStep(a, b, i).want);
            && t in s.age && !Blocked(s.table, t, w.key, w.mode)
            && CycleTable(a, b, i + 1) == Grant(s.table, t, s.age[t], w.key, w.mode)
  {
  }

  lemma CycleSleeps(a: Key, b: Key, i: nat)
    requires a != b && (i == 5 || i == 7)
    ensures Next(CycleState(a, b, i), CycleState(a, b, i + 1), CycleStep(a, b, i))
  {
    var (s, s') := (CycleState(a, b, i), CycleState(a, b, i + 1));
    var (t, w) := (CycleStep(a, b, i).t, CycleStep(a, b, i).want);
    assert Blocks(s.table, t, w.key, w.mode, if i == 5 then 3 else 2);
    assert s'.asleep == s.asleep[t := w];
  }

  /** The documented claim that the waits-for graph never has a cycle is not true of
      every instant: here 1 sleeps behind 2 and 2 behind 1, nobody woken. (2 also
      waits for the younger 3, whose release will wake both.) */
  lemma WaitsCanCycle(a: Key, b: Key)
    requires a != b
    ensures var states := seq(9, (i: nat) => CycleState(a, b, i)); var steps := seq(8, (i: nat) => CycleStep(a, b, i));
            && Run(states, steps)
            && var s := states[8];
               && 1 in s.asleep && 2 in s.asleep && s.woken == {}
               && Cycle(s, [1, 2]) && WaitsForOlder(s, 2, 1)
  {
    var states := seq(9, (i: nat) => CycleState(a, b, i));
    var steps := seq(8, (i: nat) => CycleStep(a, b, i));
    forall i | 0 <= i < |steps| ensures Next(states[i], states[i + 1], steps[i]) {
      if i < 3 { CycleArrives(a, b, i); }
      else if i == 5 || i == 7 { CycleSleeps(a, b, i); }
      else { CycleGrants(a, b, i); }
    }
  }
}
