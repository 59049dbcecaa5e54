/** The documented record limit and the real one. A leaf is cut in half by count, so a
    record well under the documented "about 1 KB" can find both the leaf and its half
    full, and the Put fails half-way. When it does is `TreeRoom.PutOverflows`. */
module TreeOverflow {
  import opened Keys
  import opened Nodes
  import opened TreeShape
  import opened TreeRoom
  import opened BTree

  // ------------------------------------------------------------ a leaf that overflows

  function OneByte(b: Byte): Key { [b] }

  /** 975 bytes of value: with its key, length fields and slot, a record of 988 bytes. */
  function LongValue(): (v: Value)
    ensures |v| == 975
  {
    seq(975, _ => 0)
  }

  function UnluckyKeys(): seq<Key> {
    [OneByte(1), OneByte(2), OneByte(3), OneByte(4), OneByte(5), OneByte(6), OneByte(7), OneByte(8)]
  }

  function UnluckyValues(): seq<Value> { [[], [], [], [], LongValue(), LongValue(), LongValue(), LongValue()] }

  function UnluckyLeaf(): Node { Leaf(UnluckyKeys(), UnluckyValues(), None, None) }

  lemma FourAlike(ks: seq<Key>, v: Value)
    requires |ks| == 4 && forall i :: 0 <= i < 4 ==> |ks[i]| == 1
    ensures LeafCost(ks, [v, v, v, v]) == 4 * (13 + |v|)
  {
    hide LeafCost;
    assert ks == [ks[0]] + [ks[1]] + [ks[2]] + [ks[3]] && [v, v, v, v] == [v] + [v] + [v] + [v];
    LeafCostConcat([ks[0]] + [ks[1]] + [ks[2]], [v] + [v] + [v], [ks[3]], [v]);
    LeafCostConcat([ks[0]] + [ks[1]], [v] + [v], [ks[2]], [v]);
    LeafCostConcat([ks[0]], [v], [ks[1]], [v]);
    LeafCostOne(ks[0], v);
    LeafCostOne(ks[1], v);
    LeafCostOne(ks[2], v);
    LeafCostOne(ks[3], v);
  }

  lemma UnluckyCosts()
    ensures var n := UnluckyLeaf();
            && LeafCost(n.keys, n.vals) == 4004
            && n.keys[4..] == [OneByte(5), OneByte(6), OneByte(7), OneByte(8)]
               && LeafCost(n.keys[4..], n.vals[4..]) == 3952
  {
    var (k, v) := (UnluckyKeys(), UnluckyValues());
    var w := LongValue();
    hide LeafCost, LongValue;
    assert k == k[..4] + k[4..] && v == v[..4] + v[4..];
    assert v[..4] == [[], [], [], []] && v[4..] == [w, w, w, w];
    FourAlike(k[..4], []);
    FourAlike(k[4..], w);
    LeafCostConcat(k[..4], v[..4], k[4..], v[4..]);
  }

  lemma UnluckyHalf()
    ensures var (n, k, v) := (UnluckyLeaf(), OneByte(9), LongValue());
            && |n.keys| == |n.vals| == 8 && !LeafHalfHasRoom(n, k, v)
            && (forall i :: 0 <= i < |n.keys| ==> |n.keys[i]| + |n.vals[i]| < 1000)
  {
    hide LongValue, LeafCost;
    var n := UnluckyLeaf();
    UnluckyCosts();
    assert n.keys[4] == OneByte(5) && !Less(OneByte(9), OneByte(5));
  }

  lemma UnluckyOk()
    ensures LeafOk(UnluckyLeaf(), Info([], None, 0, 0)) && Sorted(UnluckyKeys()) && OneByte(9) !in UnluckyKeys()
  {
    var k := UnluckyKeys();
    forall i | 0 <= i < 8 ensures k[i] == OneByte((i + 1) as Byte) && k[i] != [] { }
    forall i, j | 0 <= i < j < 8 ensures Less(k[i], k[j]) { }
    forall i | 0 <= i < 8 ensures AtMost([], k[i]) { }
  }

  /** A lawful leaf of records under 1000 bytes that fits its page, and a record under 1000
      bytes that a Put cannot place in the tree made of it. */
  lemma OneKilobyteOverflows(p: PageId)
    ensures var (n, k, v) := (UnluckyLeaf(), OneByte(9), LongValue());
            && LeafOk(n, Info([], None, 0, 0)) && Fits(n) && |n.keys| == |n.vals|
            && (forall i :: 0 <= i < |n.keys| ==> |n.keys[i]| + |n.vals[i]| < 1000) && |k| + |v| < 1000
            && PutOverflows(map[p := n], Some(p), k, v)
  {
    hide LeafCost, LongValue, LeafOk, UnluckyKeys, UnluckyValues, CarryFits, LeafHalfHasRoom, Descends, Sorted;
    var (n, k, v) := (UnluckyLeaf(), OneByte(9), LongValue());
    UnluckyCosts();
    UnluckyOk();
    UnluckyHalf();
    LowerBoundCorrect(n.keys, k);
    assert LeafErase(n, k) == n;
    assert Overflows(map[p := n], [], n, k, v);
    assert Descends(map[p := n], p, k, [p]) by { OneLeaf(p, n, k); }
    assert [p][..0] == [];
    OverflowsThere(map[p := n], p, k, v, [p]);
  }

  lemma OneLeaf(p: PageId, n: Node, k: Key)
    requires n.Leaf?
    ensures Descends(map[p := n], p, k, [p])
  {
  }

  /** The map of one leaf. */
  function RecordsOf(ks: seq<Key>, vs: seq<Value>): (m: map<Key, Value>)
    requires |ks| == |vs|
    ensures forall k :: k in m <==> k in ks
  {
    if ks == [] then map[] else RecordsOf(ks[..|ks| - 1], vs[..|vs| - 1])[ks[|ks| - 1] := vs[|vs| - 1]]
  }

  lemma {:induction false} RecordsAre(ks: seq<Key>, vs: seq<Value>, i: nat)
    requires |ks| == |vs| && Sorted(ks) && i < |ks|
    ensures RecordsOf(ks, vs)[ks[i]] == vs[i]
  {
    var n := |ks| - 1;
    if i < n {
      RecordsAre(ks[..n], vs[..n], i);
      LessIrreflexive(ks[i]);
      assert ks[..n][i] == ks[i] && ks[i] in ks[..n];
    }
  }

  lemma OneLeafTree(p: PageId, n: Node)
    requires n.Leaf? && LeafOk(n, Info([], None, 0, p)) && n.next == None && n.prev == None
    ensures var g := Shape(map[p := n], p, map[p := Info([], None, 0, p)], NoSplit);
            Domains(g) && Inv(g) && Holds(g, RecordsOf(n.keys, n.vals))
  {
    var g := Shape(map[p := n], p, map[p := Info([], None, 0, p)], NoSplit);
    assert PageOk(g, p) && BelowRoot(g, p);
    forall i | 0 <= i < |n.keys| ensures RecordsOf(n.keys, n.vals)[n.keys[i]] == n.vals[i] {
      RecordsAre(n.keys, n.vals, i);
    }
    assert PageHolds(g, RecordsOf(n.keys, n.vals), p);
  }

  /** So a Put of a record under 1000 bytes into a lawful tree of such records fails, with
      the handle poisoned. */
  method OneKilobytePoisons(p: PageId) returns (status: Status)
    ensures status == Poisoned
  {
    hide LeafCost, LongValue, LeafOk, UnluckyKeys, UnluckyValues, PutOverflows, Sorted, Inv, Holds;
    OneKilobyteOverflows(p);
    UnluckyOk();
    var n := UnluckyLeaf();
    OneLeafTree(p, n) by { UnluckyAt(p); }
    assert AllFit(map[p := n]);
    var tree := new BPlusTree.Over(map[p := n], Some(p), p + 1, map[p := Info([], None, 0, p)],
      RecordsOf(n.keys, n.vals));
    assert |OneByte(9)| + |LongValue()| < 1000;
    HoldableIs(OneByte(9), LongValue());
    var before;
    ghost var held;
    status, before, held := tree.Put(OneByte(9), LongValue());
  }

  lemma UnluckyAt(p: PageId)
    ensures LeafOk(UnluckyLeaf(), Info([], None, 0, p))
  {
    UnluckyOk();
    hide LongValue, UnluckyKeys, UnluckyValues, Sorted, AtMost, Less;
  }
}
