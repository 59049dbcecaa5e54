/** Byte strings and the order the engine compares keys by.

    Keys and values are arbitrary byte strings. `std::string_view::compare`
    orders them lexicographically by unsigned byte, with a proper prefix
    sorting first; `Less` is that order. */
module Keys {

  newtype Byte = x: int | 0 <= x < 256

  type Bytes = seq<Byte>

  type Key = Bytes

  type Value = Bytes

  type TxId = nat

  datatype Option<+T> = None | Some(value: T)

  predicate Less(a: Key, b: Key)
  {
    b != [] && (a == [] || a[0] < b[0] || (a[0] == b[0] && Less(a[1..], b[1..])))
  }

  /** `a` and `b` agree on their first `i` bytes, and there `a` ends or has the smaller
      byte. */
  predicate LessAt(a: Key, b: Key, i: nat)
  {
    i <= |a| && i < |b| && a[..i] == b[..i] && (i == |a| || a[i] < b[i])
  }

  /** The order of `memcmp` with a proper prefix first: decided at the first place where
      the two differ. */
  lemma {:induction false} LessIsLexicographic(a: Key, b: Key)
    ensures Less(a, b) <==> exists i: nat :: LessAt(a, b, i)
  {
    if a == [] || b == [] || a[0] != b[0] {
      assert b != [] ==> (LessAt(a, b, 0) <==> a == [] || a[0] < b[0]);
      forall i: nat | i > 0 ensures !LessAt(a, b, i) {
        assert i <= |a| && i < |b| ==> a[..i][0] == a[0] && b[..i][0] == b[0];
      }
    } else {
      LessIsLexicographic(a[1..], b[1..]);
      forall i: nat ensures LessAt(a[1..], b[1..], i) <==> LessAt(a, b, i + 1) {
        LessAtNext(a, b, i);
      }
      assert !LessAt(a, b, 0);
      if i: nat :| LessAt(a, b, i) { assert LessAt(a[1..], b[1..], i - 1) by { LessAtNext(a, b, i - 1); } }
      if i: nat :| LessAt(a[1..], b[1..], i) { assert LessAt(a, b, i + 1); }
    }
  }

  lemma LessAtNext(a: Key, b: Key, i: nat)
    requires a != [] && b != [] && a[0] == b[0]
    ensures LessAt(a[1..], b[1..], i) <==> LessAt(a, b, i + 1)
  {
    if i < |a| && i + 1 < |b| {
      assert a[..i + 1] == [a[0]] + a[1..][..i] && b[..i + 1] == [b[0]] + b[1..][..i];
      assert a[1..][..i] == a[..i + 1][1..] && b[1..][..i] == b[..i + 1][1..];
    }
  }

  predicate AtMost(a: Key, b: Key)
  {
    a == b || Less(a, b)
  }

  lemma {:induction false} LessIrreflexive(a: Key)
    ensures !Less(a, a)
  {
    if a != [] {
      LessIrreflexive(a[1..]);
    }
  }

  lemma {:induction false} LessTransitive(a: Key, b: Key, c: Key)
    requires Less(a, b) && Less(b, c)
    ensures Less(a, c)
  {
    if a != [] && a[0] == b[0] && b[0] == c[0] {
      LessTransitive(a[1..], b[1..], c[1..]);
    }
  }

  lemma {:induction false} LessTotal(a: Key, b: Key)
    ensures Less(a, b) || a == b || Less(b, a)
  {
    if a != [] && b != [] && a[0] == b[0] {
      LessTotal(a[1..], b[1..]);
      assert a == [a[0]] + a[1..] && b == [b[0]] + b[1..];
    }
  }

  /** Strictly ascending: the order every node keeps its keys in. */
  predicate Sorted(ks: seq<Key>)
  {
    forall i, j :: 0 <= i < j < |ks| ==> Less(ks[i], ks[j])
  }

  /** `i` is the position `FindKeyIndex` must return for `k`: everything before
      it is smaller, everything from it on is at least `k`. */
  predicate IsLowerBound(ks: seq<Key>, k: Key, i: nat)
  {
    && i <= |ks|
    && (forall j :: 0 <= j < i ==> Less(ks[j], k))
    && (forall j :: i <= j < |ks| ==> ks[j] == k || Less(k, ks[j]))
  }
}
