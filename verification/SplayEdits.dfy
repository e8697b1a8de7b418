/** What SPLAY_INSERT and SPLAY_REMOVE do around their splays. */
module SplayEdits {
  import opened Sequences
  import opened Sides
  import opened SplayShapes
  import opened SplaySteps

  lemma {:induction false} Narrow(t: Shape, m: Memory, lo: int, hi: int, lo': int, hi': int)
    requires t.In(m, lo, hi) && forall n :: n in t.Seq() ==> lo' < n.key < hi'
    ensures t.In(m, lo', hi')
  {
    if t.Branch? {
      assert t.node in t.Seq();
      Narrow(t.left, m, lo, t.node.key, lo', t.node.key) by {
        ShapeRange(t.left, m, lo, t.node.key);
      }
      Narrow(t.right, m, t.node.key, hi, t.node.key, hi') by {
        ShapeRange(t.right, m, t.node.key, hi);
      }
    }
  }

  /** elm takes the root's place; the root keeps the subtree of the other side. */
  ghost function Topped(t: Shape, elm: Node, s: Side): Shape
    requires t.Branch?
  {
    Join(s, t.Kid(s), elm, Join(s, Leaf, t.node, t.Kid(s.Other())))
  }

  /** The subtree beyond the root's neighbour place fits on elm's side. */
  lemma NarrowSide(m: Memory, t: Shape, elm: Node, s: Side, lo: int, hi: int)
    requires t.In(m, lo, hi) && t.Branch? && lo < elm.key < hi
    requires Nearest(t.Seq(), t.node, elm.key) && (if s.Left? then elm.key < t.node.key else elm.key > t.node.key)
    ensures if s.Left? then t.left.In(m, lo, elm.key) else t.right.In(m, elm.key, hi)
  {
    if s.Left? {
      ShapeRange(t.left, m, lo, t.node.key);
      Narrow(t.left, m, lo, t.node.key, lo, elm.key);
    } else {
      ShapeRange(t.right, m, t.node.key, hi);
      Narrow(t.right, m, t.node.key, hi, elm.key, hi);
    }
  }

  lemma ToppedIn(m: Memory, m': Memory, t: Shape, elm: Node, s: Side, lo: int, hi: int)
    requires t.In(m, lo, hi) && t.Branch? && elm !in m && lo < elm.key < hi
    requires Nearest(t.Seq(), t.node, elm.key) && (if s.Left? then elm.key < t.node.key else elm.key > t.node.key)
    requires m' == m[elm := if s.Left? then Cell(m[t.node].left, t.node) else Cell(t.node, m[t.node].right)]
                    [t.node := m[t.node].WithKid(s, null)]
    ensures Topped(t, elm, s).In(m', lo, hi)
  {
    NarrowSide(m, t, elm, s, lo, hi);
    if s.Left? {
      ShapeFrame(t.left, m, m', lo, elm.key);
      ShapeFrame(t.right, m, m', t.node.key, hi);
    } else {
      ShapeFrame(t.right, m, m', elm.key, hi);
      ShapeFrame(t.left, m, m', lo, t.node.key);
    }
  }

  lemma ToppedSeq(t: Shape, elm: Node, s: Side)
    requires t.Branch?
    ensures Adds(t.Seq(), Topped(t, elm, s).Seq(), elm)
    ensures forall n :: n in Topped(t, elm, s).Seq() <==> n in t.Seq() || n == elm
  {
    AddsRoot(t.left.Seq(), t.node, t.right.Seq(), elm);
    assert Branch(Leaf, t.node, t.right).Seq() == [] + [t.node] + t.right.Seq();
    assert Branch(t.left, t.node, Leaf).Seq() == t.left.Seq() + [t.node] + [];
    AddsMembers(t.Seq(), Topped(t, elm, s).Seq(), elm);
  }

  lemma AddsRoot(l: seq<Node>, n: Node, r: seq<Node>, e: Node)
    ensures Adds(l + [n] + r, l + [e] + ([] + [n] + r), e)
    ensures Adds(l + [n] + r, (l + [n] + []) + [e] + r, e)
  {
    AddsMiddle(l, e, [n] + r);
    assert l + ([n] + r) == l + [n] + r && [] + [n] + r == [n] + r;
    AddsMiddle(l + [n], e, r);
    assert l + [n] + [] == l + [n];
  }

  lemma RootIsMember(t: Shape)
    ensures t.Branch? ==> t.node in t.Seq() && forall n :: n in t.right.Seq() ==> n in t.Seq()
  {
  }

  /** After a splay for a key above all others the root is the last element. */
  lemma LastAtRoot(m: Memory, t: Shape, key: int, lo: int, hi: int)
    requires t.In(m, lo, hi) && t.Branch? && Nearest(t.Seq(), t.node, key)
    requires forall n :: n in t.Seq() ==> n.key < key
    ensures t.right.Leaf?
  {
    RootIsMember(t);
    RootIsMember(t.right);
    ShapeRange(t.right, m, t.node.key, hi);
  }

  /** The left subtree, its last element at its root, takes the right subtree. */
  lemma Merged(m: Memory, m': Memory, l: Shape, r: Shape, key: int, lo: int, hi: int)
    requires l.Branch? && l.right.Leaf? && l.In(m, lo, key) && r.In(m, key, hi) && key < hi
    requires m' == m[l.node := m[l.node].(right := r.Root())]
    ensures Branch(l.left, l.node, r).In(m', lo, hi)
  {
    ShapeFrame(l.left, m, m', lo, l.node.key);
    ShapeFrame(r, m, m', key, hi);
    Widen(r, m', key, hi, l.node.key, hi);
  }

  lemma MergedSeq(l: Shape, r: Shape)
    requires l.Branch? && l.right.Leaf?
    ensures Branch(l.left, l.node, r).Seq() == l.Seq() + r.Seq()
  {
    assert l.Seq() == l.left.Seq() + [l.node];
  }

  ghost predicate Ascending(s: seq<Node>) {
    forall i, j :: 0 <= i < j < |s| ==> s[i].key < s[j].key
  }

  lemma {:induction false} ShapeAscends(t: Shape, m: Memory, lo: int, hi: int)
    requires t.In(m, lo, hi)
    ensures Ascending(t.Seq())
  {
    if t.Branch? {
      ShapeAscends(t.left, m, lo, t.node.key);
      ShapeAscends(t.right, m, t.node.key, hi);
      ShapeRange(t.left, m, lo, t.node.key);
      ShapeRange(t.right, m, t.node.key, hi);
      AscendingJoin(t.left.Seq(), t.node, t.right.Seq());
    }
  }

  lemma AscendingJoin(a: seq<Node>, n: Node, b: seq<Node>)
    requires Ascending(a) && Ascending(b)
    requires forall x :: x in a ==> x.key < n.key
    requires forall x :: x in b ==> n.key < x.key
    ensures Ascending(a + [n] + b)
  {
    var s := a + [n] + b;
    forall i, j | 0 <= i < j < |s| ensures s[i].key < s[j].key {
      assert s[i] == if i < |a| then a[i] else if i == |a| then n else b[i - |a| - 1];
      assert s[j] == if j < |a| then a[j] else if j == |a| then n else b[j - |a| - 1];
      assert i < |a| ==> a[i] in a;
      assert j > |a| ==> b[j - |a| - 1] in b;
    }
  }

  /** A tree does not depend on nodes that are not its own. */
  lemma {:induction false} Forget(t: Shape, m: Memory, n: Node, lo: int, hi: int)
    requires t.In(m, lo, hi) && n !in t.Seq()
    ensures t.In(m - {n}, lo, hi)
  {
    if t.Branch? {
      Forget(t.left, m, n, lo, t.node.key);
      Forget(t.right, m, n, t.node.key, hi);
    }
  }

  /** What is left after a removal is the tree without the element. */
  lemma Removed(m: Memory, t0: Shape, t: Shape, gone: Node, m0: Memory, lo: int, hi: int)
    requires t0.In(m0, lo, hi) && t.In(m, lo, hi) && Drops(t0.Seq(), t.Seq(), gone)
    ensures t.In(m - {gone}, lo, hi) && forall n :: n in t.Seq() <==> n in t0.Seq() && n != gone
  {
    ShapeAscends(t0, m0, lo, hi);
    DropsMembers(t0.Seq(), t.Seq(), gone);
    Forget(t, m, gone, lo, hi);
  }

  lemma Narrowed(m: Memory, m': Memory, l: Shape, r: Shape, key: int, lo: int, hi: int)
    requires l.In(m', lo, key + 1) && l.Branch? && Nearest(l.Seq(), l.node, key)
    requires forall n :: n in l.Seq() ==> lo < n.key < key
    requires r.In(m, key, hi) && SameOutside(m, m', lo, key + 1)
    ensures l.In(m', lo, key) && r.In(m', key, hi) && l.right.Leaf?
  {
    Narrow(l, m', lo, key + 1, lo, key);
    ShapeFrame(r, m, m', key, hi);
    LastAtRoot(m', l, key, lo, key);
  }
}
