/**
  The linked binary heap of 3rd/libuv/src/heap-inl.h.

  The heap is a complete binary tree of nodes. The sequence of its slots is the one-indexed array
  heap it stands for: the node in slot k has its children in slots 2k and 2k + 1.
*/
module LinkedHeapSlots {

  class Node<K> {
    var left: Node?<K>
    var right: Node?<K>
    var parent: Node?<K>
    var key: K

    constructor (key: K)
      ensures this.key == key
    {
      this.key := key;
    }
  }

  /** The links of one struct heap_node. */
  datatype Links<K> = Links(left: Node?<K>, right: Node?<K>, parent: Node?<K>)

  type Memory<K> = map<Node<K>, Links<K>>

  /** Slot k of the array heap; the slots outside the array are empty. */
  function Slot<K>(s: seq<Node<K>>, k: int): Node?<K> {
    if 1 <= k <= |s| then s[k - 1] else null
  }

  ghost function Members<K>(s: seq<Node<K>>): set<Node<K>> { set n | n in s }

  ghost function Swapped<K>(s: seq<Node<K>>, i: int, j: int): (t: seq<Node<K>>)
    requires 1 <= i <= |s| && 1 <= j <= |s|
    ensures |t| == |s|
    ensures forall k :: Slot(t, k) == Slot(s, if k == i then j else if k == j then i else k)
  {
    s[i - 1 := s[j - 1]][j - 1 := s[i - 1]]
  }

  lemma SwappedMembers<K>(s: seq<Node<K>>, i: int, j: int)
    requires 1 <= i <= |s| && 1 <= j <= |s|
    ensures Members(Swapped(s, i, j)) == Members(s)
  {
    var t := Swapped(s, i, j);
    assert t[i - 1] == s[j - 1] && t[j - 1] == s[i - 1];
    assert forall k :: 0 <= k < |s| && k != i - 1 && k != j - 1 ==> t[k] == s[k];
  }

  lemma ReplacedMembers<K>(s: seq<Node<K>>, i: int, c: Node<K>)
    requires 1 <= i <= |s| && Distinct(s)
    ensures Members(s[i - 1 := c]) == Members(s) - {s[i - 1]} + {c}
  {
    var t := s[i - 1 := c];
    assert t[i - 1] == c;
    assert forall k :: 0 <= k < |s| && k != i - 1 ==> t[k] == s[k] && Slot(s, k + 1) == s[k];
    assert Slot(s, i) == s[i - 1];
    assert forall k :: 0 <= k < |s| && k != i - 1 ==> s[k] != s[i - 1];
  }

  lemma LastMember<K>(s: seq<Node<K>>)
    requires s != [] && Distinct(s)
    ensures s[|s| - 1] !in s[..|s| - 1] && Members(s) == Members(s[..|s| - 1]) + {s[|s| - 1]}
  {
    assert forall k :: 0 <= k < |s| ==> s[k] == Slot(s, k + 1);
    assert forall k :: 0 <= k < |s| - 1 ==> s[k] != s[|s| - 1];
    assert s == s[..|s| - 1] + [s[|s| - 1]];
  }

  ghost predicate Distinct<K>(s: seq<Node<K>>) {
    forall i, j :: 1 <= i <= |s| && 1 <= j <= |s| && Slot(s, i) == Slot(s, j) ==> i == j
  }

  ghost predicate Placed<K>(m: Memory<K>, s: seq<Node<K>>, k: int)
    requires 1 <= k <= |s|
  {
    s[k - 1] in m && m[s[k - 1]] == Links(Slot(s, 2 * k), Slot(s, 2 * k + 1), Slot(s, k / 2))
  }

  ghost predicate Linked<K>(m: Memory<K>, min: Node?<K>, s: seq<Node<K>>) {
    min == Slot(s, 1) && Distinct(s) && forall k :: 1 <= k <= |s| ==> Placed(m, s, k)
  }

  // ---- heap_node_swap ----

  ghost predicate CanSwap<K>(m: Memory<K>, p: Node<K>, c: Node<K>) {
    && p in m && c in m && p != c && (m[p].left == c || m[p].right == c)
    && var sibling, up, a, b := if m[p].left == c then m[p].right else m[p].left, m[p].parent, m[c].left, m[c].right;
    && (sibling == null || sibling in m) && (up == null || up in m) && (a == null || a in m) && (b == null || b in m)
    && (sibling == null || sibling != p) && (sibling == null || sibling != c) && (sibling == null || sibling != up)
    && (sibling == null || sibling != a) && (sibling == null || sibling != b)
    && (up == null || up != p) && (up == null || up != c) && (up == null || up != a) && (up == null || up != b)
    && (a == null || a != p) && (a == null || a != c) && (a == null || a != b) && (b == null || b != p) && (b == null || b != c)
  }

  ghost function Adopted<K>(m: Memory<K>, child: Node?<K>, parent: Node<K>): Memory<K>
    requires child == null || child in m
  {
    if child == null then m else m[child := m[child].(parent := parent)]
  }

  ghost function Hung<K>(m: Memory<K>, up: Node?<K>, was: Node<K>, now: Node<K>): Memory<K>
    requires up == null || up in m
  {
    if up == null then m
    else m[up := if m[up].left == was then m[up].(left := now) else m[up].(right := now)]
  }

  ghost function Exchanged<K>(m: Memory<K>, p: Node<K>, c: Node<K>): Memory<K>
    requires p in m && c in m
  {
    var left := m[p].left == c;
    m[c := Links(if left then p else m[p].left, if left then m[p].right else p, m[p].parent)]
     [p := Links(m[c].left, m[c].right, c)]
  }

  ghost predicate Swaps<K>(m: Memory<K>, m': Memory<K>, min: Node?<K>, min': Node?<K>, p: Node<K>, c: Node<K>)
    requires CanSwap(m, p, c)
  {
    && m'.Keys == m.Keys
    && var left, up := m[p].left == c, m[p].parent;
    && var sibling := if left then m[p].right else m[p].left;
    && m'[c] == Links(if left then p else sibling, if left then sibling else p, up)
    && m'[p] == Links(m[c].left, m[c].right, c)
    && (sibling != null ==> m'[sibling] == m[sibling].(parent := c))
    && (m[c].left != null ==> m'[m[c].left] == m[m[c].left].(parent := p))
    && (m[c].right != null ==> m'[m[c].right] == m[m[c].right].(parent := p))
    && (if up == null then min' == c else min' == min)
    && (up != null ==> m'[up] == if m[up].left == p then m[up].(left := c) else m[up].(right := c))
    && forall n :: n in m && n != p && n != c && n != sibling && n != m[c].left && n != m[c].right && n != up ==>
      m'[n] == m[n]
  }

  ghost function Relinked<K>(m: Memory<K>, p: Node<K>, c: Node<K>): Memory<K>
    requires CanSwap(m, p, c)
  {
    var sibling := if m[p].left == c then m[p].right else m[p].left;
    var m1 := Adopted(Exchanged(m, p, c), sibling, c);
    Hung(Adopted(Adopted(m1, m[c].left, p), m[c].right, p), m[p].parent, p, c)
  }

  lemma RelinkedSwaps<K>(m: Memory<K>, min: Node?<K>, p: Node<K>, c: Node<K>)
    requires CanSwap(m, p, c)
    ensures Swaps(m, Relinked(m, p, c), min, if m[p].parent == null then c else min, p, c)
  {
  }

  lemma MaySwap<K>(m: Memory<K>, min: Node?<K>, s: seq<Node<K>>, i: int, j: int)
    requires Linked(m, min, s) && 1 <= i < j <= |s| && j / 2 == i
    ensures CanSwap(m, s[i - 1], s[j - 1])
  {
    assert Placed(m, s, i) && Placed(m, s, j);
    assert 1 <= i / 2 ==> Placed(m, s, i / 2);
    assert 2 * i <= |s| ==> Placed(m, s, 2 * i);
    assert 2 * i + 1 <= |s| ==> Placed(m, s, 2 * i + 1);
    assert 2 * j <= |s| ==> Placed(m, s, 2 * j);
    assert 2 * j + 1 <= |s| ==> Placed(m, s, 2 * j + 1);
  }

  lemma SwappedLinked<K>(m: Memory<K>, m': Memory<K>, min: Node?<K>, min': Node?<K>, s: seq<Node<K>>, i: int, j: int)
    requires Linked(m, min, s) && 1 <= i < j <= |s| && j / 2 == i
    requires CanSwap(m, s[i - 1], s[j - 1]) && Swaps(m, m', min, min', s[i - 1], s[j - 1])
    ensures Linked(m', min', Swapped(s, i, j))
  {
    var t := Swapped(s, i, j);
    assert Placed(m, s, i) && Placed(m, s, j);
    forall k | 1 <= k <= |t| ensures Placed(m', t, k) {
      SwappedPlaced(m, m', min, min', s, i, j, k);
    }
  }

  lemma SwappedPlaced<K>(m: Memory<K>, m': Memory<K>, min: Node?<K>, min': Node?<K>, s: seq<Node<K>>, i: int, j: int, k: int)
    requires Linked(m, min, s) && 1 <= i < j <= |s| && j / 2 == i
    requires CanSwap(m, s[i - 1], s[j - 1]) && Swaps(m, m', min, min', s[i - 1], s[j - 1])
    requires 1 <= k <= |s|
    ensures Placed(m', Swapped(s, i, j), k)
  {
    var t, n := Swapped(s, i, j), s[k - 1];
    assert Placed(m, s, i) && Placed(m, s, j) && Placed(m, s, k);
    assert Slot(s, k) == n && Slot(s, i) == s[i - 1] && Slot(s, j) == s[j - 1];
    var o := if j == 2 * i then 2 * i + 1 else 2 * i;
    if k == i || k == j {
      assert Slot(t, k) == t[k - 1];
    } else {
      assert t[k - 1] == Slot(t, k) == n;
      assert n == Slot(s, o) ==> k == o;
      assert n == Slot(s, i / 2) ==> k == i / 2;
      assert n == Slot(s, 2 * j) ==> k == 2 * j;
      assert n == Slot(s, 2 * j + 1) ==> k == 2 * j + 1;
      if k == i / 2 {
        assert (Slot(s, 2 * k) == Slot(s, i)) <==> i == 2 * k;
      }
    }
  }

  // ---- a new last slot, one slot fewer, another node in a slot ----

  lemma Appended<K>(m: Memory<K>, m': Memory<K>, min: Node?<K>, min': Node?<K>, s: seq<Node<K>>, n: Node<K>)
    requires Linked(m, min, s) && n !in s
    requires var up := Slot(s, (|s| + 1) / 2);
             && n in m' && m'[n] == Links(null, null, up)
             && (if up == null then min' == n else min' == min)
             && (up != null ==> up in m' && up in m && m'[up] == if (|s| + 1) % 2 == 0 then m[up].(left := n) else m[up].(right := n))
             && forall x :: x in s && x != up ==> x in m && x in m' && m'[x] == m[x]
    ensures Linked(m', min', s + [n])
  {
    var t := s + [n];
    assert forall k :: 1 <= k <= |s| ==> Slot(t, k) == Slot(s, k);
    assert Slot(t, |t|) == n;
    forall k | 1 <= k <= |t| ensures Placed(m', t, k) {
      if k < |t| {
        assert Placed(m, s, k) && t[k - 1] == s[k - 1] && Slot(s, k) == s[k - 1];
      }
    }
  }

  lemma Shortened<K>(m: Memory<K>, m': Memory<K>, min: Node?<K>, min': Node?<K>, s: seq<Node<K>>)
    requires Linked(m, min, s) && |s| > 0
    requires var up := Slot(s, |s| / 2);
             && (if up == null then min' == null else min' == min)
             && (up != null ==> up in m' && up in m && m'[up] == if |s| % 2 == 0 then m[up].(left := null) else m[up].(right := null))
             && forall x :: x in s && x != up ==> x in m && x in m' && m'[x] == m[x]
    ensures Linked(m', min', s[..|s| - 1])
  {
    var t := s[..|s| - 1];
    assert forall k :: k != |s| ==> Slot(t, k) == Slot(s, k);
    forall k | 1 <= k <= |t| ensures Placed(m', t, k) {
      assert Placed(m, s, k) && t[k - 1] == s[k - 1] && Slot(s, k) == s[k - 1];
      assert |s| / 2 != 0 && Slot(s, k) == Slot(s, |s| / 2) ==> k == |s| / 2;
    }
  }

  ghost predicate CanReplace<K>(m: Memory<K>, n: Node<K>, c: Node<K>) {
    && n in m && c in m && n != c
    && var l, r, up := m[n].left, m[n].right, m[n].parent;
    && (l == null || l in m) && (r == null || r in m) && (up == null || up in m)
    && (l == null || l != n) && (l == null || l != c) && (l == null || l != r) && (l == null || l != up)
    && (r == null || r != n) && (r == null || r != c) && (r == null || r != up) && (up == null || up != n) && (up == null || up != c)
  }

  ghost predicate Replaces<K>(m: Memory<K>, m': Memory<K>, min: Node?<K>, min': Node?<K>, n: Node<K>, c: Node<K>)
    requires CanReplace(m, n, c)
  {
    && m'.Keys == m.Keys && m'[c] == m[n]
    && var l, r, up := m[n].left, m[n].right, m[n].parent;
    && (l != null ==> m'[l] == m[l].(parent := c))
    && (r != null ==> m'[r] == m[r].(parent := c))
    && (if up == null then min' == c else min' == min)
    && (up != null ==> m'[up] == if m[up].left == n then m[up].(left := c) else m[up].(right := c))
    && forall x :: x in m && x != c && x != l && x != r && x != up ==> m'[x] == m[x]
  }

  lemma MayReplace<K>(m: Memory<K>, min: Node?<K>, s: seq<Node<K>>, i: int, c: Node<K>)
    requires Linked(m, min, s) && 1 <= i <= |s| && c !in s && c in m
    ensures CanReplace(m, s[i - 1], c)
  {
    assert Placed(m, s, i);
    assert 1 <= i / 2 ==> Placed(m, s, i / 2);
    assert 2 * i <= |s| ==> Placed(m, s, 2 * i);
    assert 2 * i + 1 <= |s| ==> Placed(m, s, 2 * i + 1);
    assert Slot(s, i) == s[i - 1];
  }

  lemma Replaced<K>(m: Memory<K>, m': Memory<K>, min: Node?<K>, min': Node?<K>, s: seq<Node<K>>, i: int, c: Node<K>)
    requires Linked(m, min, s) && 1 <= i <= |s| && c !in s
    requires CanReplace(m, s[i - 1], c) && Replaces(m, m', min, min', s[i - 1], c)
    ensures Linked(m', min', s[i - 1 := c])
  {
    var t := s[i - 1 := c];
    assert forall k :: Slot(t, k) == if k == i then c else Slot(s, k);
    assert Placed(m, s, i) && Slot(s, i) == s[i - 1];
    forall k | 1 <= k <= |t| ensures Placed(m', t, k) {
      assert Placed(m, s, k) && Slot(s, k) == s[k - 1];
      assert t[k - 1] == Slot(t, k);
      if k != i {
        assert Slot(s, k) == Slot(s, 2 * i) ==> k == 2 * i;
        assert Slot(s, k) == Slot(s, 2 * i + 1) ==> k == 2 * i + 1;
        assert Slot(s, k) == Slot(s, i / 2) ==> k == i / 2;
        assert Slot(s, 2 * k) == Slot(s, i) ==> i == 2 * k;
      }
    }
  }

  /** Links only matter for the nodes in slots. */
  lemma SameLinked<K>(m: Memory<K>, m': Memory<K>, min: Node?<K>, s: seq<Node<K>>)
    requires Linked(m, min, s)
    requires forall n :: n in s ==> n in m' && n in m && m'[n] == m[n]
    ensures Linked(m', min, s)
  {
    forall k | 1 <= k <= |s| ensures Placed(m', s, k) {
      assert Placed(m, s, k);
    }
  }
}
