/** The order of the one-indexed array heap, and the path bits that lead to a slot. */
module LinkedHeapOrder {
  import opened Powers

  ghost predicate StrictWeakOrder<K(!new)>(less: (K, K) -> bool) {
    && (forall a :: !less(a, a))
    && (forall a, b, c :: less(a, b) && less(b, c) ==> less(a, c))
    && (forall a, b, c :: !less(a, b) && !less(b, c) ==> !less(a, c))
  }

  /** The element in slot k. */
  function Key<K>(ks: seq<K>, k: int): K
    requires 1 <= k <= |ks|
  {
    ks[k - 1]
  }

  /** No element is less than its parent, except that slot up may be and the children of slot down may be. */
  ghost predicate OrderedBut<K>(less: (K, K) -> bool, ks: seq<K>, up: int, down: int) {
    forall k :: 2 <= k <= |ks| && k != up && k / 2 != down ==> !less(Key(ks, k), Key(ks, k / 2))
  }

  /** The children of slot i are no less than the parent of slot i. */
  ghost predicate Bridged<K>(less: (K, K) -> bool, ks: seq<K>, i: int) {
    forall k :: 2 <= k <= |ks| && k / 2 == i && 2 <= i ==> !less(Key(ks, k), Key(ks, i / 2))
  }

  ghost predicate Ordered<K>(less: (K, K) -> bool, ks: seq<K>) {
    OrderedBut(less, ks, 0, 0)
  }

  ghost function SwappedKeys<K>(ks: seq<K>, i: int, j: int): (r: seq<K>)
    requires 1 <= i <= |ks| && 1 <= j <= |ks|
    ensures |r| == |ks|
    ensures forall k :: 1 <= k <= |ks| ==> Key(r, k) == Key(ks, if k == i then j else if k == j then i else k)
  {
    ks[i - 1 := ks[j - 1]][j - 1 := ks[i - 1]]
  }

  /** Moving a too small element up one level. */
  lemma SiftedUp<K(!new)>(less: (K, K) -> bool, ks: seq<K>, i: int)
    requires StrictWeakOrder(less) && 2 <= i <= |ks|
    requires OrderedBut(less, ks, i, 0) && Bridged(less, ks, i) && less(Key(ks, i), Key(ks, i / 2))
    ensures OrderedBut(less, SwappedKeys(ks, i / 2, i), i / 2, 0) && Bridged(less, SwappedKeys(ks, i / 2, i), i / 2)
  {
  }

  /** Moving a too big element down one level, below its smallest child j. */
  lemma SiftedDown<K(!new)>(less: (K, K) -> bool, ks: seq<K>, i: int, j: int)
    requires StrictWeakOrder(less) && 1 <= i < j <= |ks| && j / 2 == i
    requires OrderedBut(less, ks, i, i) && Bridged(less, ks, i)
    requires less(Key(ks, j), Key(ks, i))
    requires forall k :: 2 <= k <= |ks| && k / 2 == i ==> !less(Key(ks, k), Key(ks, j))
    ensures OrderedBut(less, SwappedKeys(ks, i, j), j, j) && Bridged(less, SwappedKeys(ks, i, j), j)
  {
  }

  lemma {:induction false} RootIsLeast<K(!new)>(less: (K, K) -> bool, ks: seq<K>, k: int)
    requires StrictWeakOrder(less) && Ordered(less, ks) && 1 <= k <= |ks|
    ensures !less(Key(ks, k), Key(ks, 1))
  {
    if k >= 2 {
      RootIsLeast(less, ks, k / 2);
    }
  }

  // ---- path bits ----

  const WORD: nat := 0x1_0000_0000

  /** n >> k. */
  function Shifted(n: nat, k: nat): nat { if k == 0 then n else Shifted(n, k - 1) / 2 }

  /** The low k bits of n, last bit first. */
  function Path(n: nat, k: nat): nat {
    if k == 0 then 0 else 2 * Path(n, k - 1) + Shifted(n, k - 1) % 2
  }

  /** While there is a bit left to shift out, the path so far is less than n. */
  lemma {:induction false} PathFits(n: nat, k: nat)
    requires Shifted(n, k) >= 1
    ensures Path(n, k) < Pow2(k) <= n
    ensures Pow2(k) * Shifted(n, k) <= n
  {
    if k > 0 {
      PathFits(n, k - 1);
      Halve(Pow2(k - 1), Shifted(n, k - 1));
      Halve(Pow2(k), 2 * Shifted(n, k));
    }
  }

  lemma Halve(p: nat, s: nat)
    ensures (2 * p) * (s / 2) <= p * s
    ensures s >= 2 ==> p <= p * (s / 2)
  {
    var h := s / 2;
    assert p * s == p * (2 * h) + p * (s - 2 * h);
    assert h >= 1 ==> p * h == p + p * (h - 1);
  }

  lemma {:induction false} ShiftedShrinks(n: nat, k: nat)
    ensures Shifted(n, k) <= n && (k > 0 ==> 2 * Shifted(n, k) <= n)
  {
    if k > 0 {
      ShiftedShrinks(n, k - 1);
    }
  }

  // ---- a new last element, and the last element in place of another ----

  lemma AppendedOrder<K>(less: (K, K) -> bool, ks: seq<K>, x: K)
    requires Ordered(less, ks)
    ensures OrderedBut(less, ks + [x], |ks| + 1, 0) && Bridged(less, ks + [x], |ks| + 1)
  {
    assert forall k :: 1 <= k <= |ks| ==> Key(ks + [x], k) == Key(ks, k);
  }

  lemma PrefixOrder<K>(less: (K, K) -> bool, ks: seq<K>, x: K)
    requires Ordered(less, ks + [x])
    ensures Ordered(less, ks)
  {
    assert forall k :: 1 <= k <= |ks| ==> Key(ks + [x], k) == Key(ks, k);
  }

  ghost function LastTo<T>(s: seq<T>, i: int): seq<T>
    requires 1 <= i < |s|
  {
    s[..|s| - 1][i - 1 := s[|s| - 1]]
  }

  lemma LastToOrder<K(!new)>(less: (K, K) -> bool, ks: seq<K>, i: int)
    requires StrictWeakOrder(less) && Ordered(less, ks) && 1 <= i < |ks|
    ensures OrderedBut(less, LastTo(ks, i), i, i) && Bridged(less, LastTo(ks, i), i)
  {
    var r := LastTo(ks, i);
    assert forall k :: 1 <= k <= |r| && k != i ==> Key(r, k) == Key(ks, k);
    forall k | 2 <= k <= |r| && k / 2 == i && 2 <= i ensures !less(Key(r, k), Key(r, i / 2)) {
      assert !less(Key(ks, k), Key(ks, i)) && !less(Key(ks, i), Key(ks, i / 2));
    }
  }
}
