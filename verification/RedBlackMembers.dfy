/** Order, membership and height of the trees of RedBlackShapes. */
module RedBlackMembers {
  import opened Sequences
  import opened Sides
  import opened Powers
  import opened RedBlackShapes

  ghost predicate Ascending(s: seq<Node>) {
    forall i, j :: 0 <= i < j < |s| ==> s[i].key < s[j].key
  }

  lemma DropsWithin(b: seq<Node>, l: seq<Node>, e: Node, r: seq<Node>, a: seq<Node>)
    ensures Drops(b + (l + [e] + r) + a, b + (l + r) + a, e)
  {
    assert b + (l + [e] + r) + a == (b + l) + [e] + (r + a);
    assert b + (l + r) + a == (b + l) + (r + a);
    DropsMiddle(b + l, e, r + a);
  }

  lemma DropsBefore(b: seq<Node>, l: seq<Node>, e: Node, n: seq<Node>, c: seq<Node>, i: seq<Node>, a: seq<Node>)
    ensures Drops(b + (l + [e] + ([] + ([] + n + c) + i)) + a, ((b + l + n) + []) + c + (i + a), e)
  {
    var z := n + c + i;
    assert [] + ([] + n + c) + i == z;
    assert ((b + l + n) + []) + c + (i + a) == b + (l + z) + a;
    DropsWithin(b, l, e, z, a);
  }

  lemma AscendingHead(n: Node, c: seq<Node>, a: seq<Node>)
    requires Ascending([] + ([] + [n] + c) + a)
    ensures forall x :: x in [] + c + a ==> n.key < x.key
  {
    var s := [] + ([] + [n] + c) + a;
    assert s == [n] + (c + a) && [] + c + a == c + a;
    assert forall i :: 0 <= i < |c + a| ==> s[i + 1] == (c + a)[i];
    assert s[0] == n;
  }

  /** In an ascending sequence there is no second e. */
  lemma DropsFrom(s: seq<Node>, s': seq<Node>, e: Node)
    requires Ascending(s) && Drops(s, s', e)
    ensures e !in s' && forall n :: n in s' <==> n in s && n != e
  {
    var i :| 0 <= i < |s| && s[i] == e && s' == s[..i] + s[i + 1..];
    assert s == s[..i] + [e] + s[i + 1..];
    assert forall j :: 0 <= j < |s| && j != i ==> s[j].key != e.key;
    assert e !in s[..i] && e !in s[i + 1..];
  }

  /** All of t's nodes are in memory and within its range. */
  lemma {:induction false} ShapeRange(t: Shape, m: Memory, parent: Node?, lo: int, hi: int)
    requires t.In(m, parent, lo, hi)
    ensures forall n :: n in t.Seq() ==> n in m && lo < n.key < hi
  {
    if t.Branch? {
      ShapeRange(t.left, m, t.node, lo, t.node.key);
      ShapeRange(t.right, m, t.node, t.node.key, hi);
    }
  }

  /** Everything before the hole is below its range, everything after is above. */
  lemma {:induction false} PathRange(p: Path, m: Memory, root: Node?, hole: Node?, lo: int, hi: int)
    requires p.In(m, root, hole, lo, hi)
    ensures forall n :: n in p.Before() ==> n in m && n.key <= p.Lo(lo)
    ensures forall n :: n in p.After() ==> n in m && p.Hi(hi) <= n.key
  {
    if p.Under? {
      PathRange(p.up, m, root, p.node, lo, hi);
      if p.side.Left? {
        ShapeRange(p.sibling, m, p.node, p.node.key, p.up.Hi(hi));
      } else {
        ShapeRange(p.sibling, m, p.node, p.up.Lo(lo), p.node.key);
      }
    }
  }

  lemma {:induction false} ShapeAscends(t: Shape, m: Memory, parent: Node?, lo: int, hi: int)
    requires t.In(m, parent, lo, hi)
    ensures Ascending(t.Seq())
  {
    if t.Branch? {
      ShapeAscends(t.left, m, t.node, lo, t.node.key);
      ShapeAscends(t.right, m, t.node, t.node.key, hi);
      ShapeRange(t.left, m, t.node, lo, t.node.key);
      ShapeRange(t.right, m, t.node, t.node.key, hi);
      AscendingJoin(t.left.Seq(), t.node, t.right.Seq());
    }
  }

  lemma AscendingJoin(a: seq<Node>, n: Node, b: seq<Node>)
    requires Ascending(a) && Ascending(b)
    requires forall x :: x in a ==> x.key < n.key
    requires forall x :: x in b ==> n.key < x.key
    ensures Ascending(a + [n] + b)
  {
    var s := a + [n] + b;
    forall i, j | 0 <= i < j < |s| ensures s[i].key < s[j].key {
      assert s[i] == if i < |a| then a[i] else if i == |a| then n else b[i - |a| - 1];
      assert s[j] == if j < |a| then a[j] else if j == |a| then n else b[j - |a| - 1];
      assert i < |a| ==> a[i] in a;
      assert j > |a| ==> b[j - |a| - 1] in b;
    }
  }

  lemma {:induction false} Widen(t: Shape, m: Memory, parent: Node?, lo: int, hi: int, lo': int, hi': int)
    requires t.In(m, parent, lo, hi) && lo' <= lo && hi <= hi'
    ensures t.In(m, parent, lo', hi')
  {
    if t.Branch? {
      Widen(t.left, m, t.node, lo, t.node.key, lo', t.node.key);
      Widen(t.right, m, t.node, t.node.key, hi, t.node.key, hi');
    }
  }

  /** A tree does not depend on nodes that are not its own. */
  lemma {:induction false} Forget(t: Shape, m: Memory, n: Node, parent: Node?, lo: int, hi: int)
    requires t.In(m, parent, lo, hi) && n !in t.Seq()
    ensures t.In(m - {n}, parent, lo, hi)
  {
    if t.Branch? {
      Forget(t.left, m, n, t.node, lo, t.node.key);
      Forget(t.right, m, n, t.node, t.node.key, hi);
    }
  }

  /** Walking down a red-black tree: t is the part below p. */
  ghost predicate Descending(p: Path, t: Shape, h: int) {
    t.Calm() && t.Black(h) && p.Black(h) && p.Calm(t.Red()) && p.RootBlack() && (p.Top? ==> !t.Red())
  }

  lemma DescendingDown(p: Path, t: Shape, h: int, s: Side) returns (h': int)
    requires Descending(p, t, h) && t.Branch?
    ensures h' == (if t.red then h else h - 1)
    ensures Descending(Under(p, t.node, t.red, s, t.Kid(s.Other())), t.Kid(s), h')
  {
    h' := if t.red then h else h - 1;
  }

  lemma ForgetAt(m: Memory, root: Node?, t: Shape, n: Node, lo: int, hi: int)
    requires At(m, root, Top, t, lo, hi) && n !in t.Seq()
    ensures At(m - {n}, root, Top, t, lo, hi)
  {
    Forget(t, m, n, null, lo, hi);
  }

  /** Every member has a place: some path leads to it. */
  lemma {:induction false} Locate(m: Memory, root: Node?, p0: Path, t0: Shape, h0: int, n: Node, lo: int, hi: int)
    returns (p: Path, t: Shape, h: int)
    requires At(m, root, p0, t0, lo, hi) && Descending(p0, t0, h0) && n in t0.Seq()
    ensures At(m, root, p, t, lo, hi) && Descending(p, t, h) && t.Root() == n
    ensures p.Around(t.Seq()) == p0.Around(t0.Seq())
    decreases t0
  {
    if t0.node == n {
      p, t, h := p0, t0, h0;
    } else {
      var s := if n in t0.left.Seq() then Left else Right;
      var h' := DescendingDown(p0, t0, h0, s);
      var q := Down(m, root, p0, t0, s, lo, hi);
      AroundUp(q, t0.Kid(s));
      p, t, h := Locate(m, root, q, t0.Kid(s), h', n, lo, hi);
    }
  }

  lemma LocateMember(m: Memory, root: Node?, t0: Shape, n: Node, lo: int, hi: int)
    returns (p: Path, t: Shape, h: int)
    requires At(m, root, Top, t0, lo, hi) && t0.RedBlack() && n in t0.Seq()
    ensures At(m, root, p, t, lo, hi) && Descending(p, t, h) && t.Root() == n
    ensures p.Around(t.Seq()) == t0.Seq() && Ascending(t0.Seq())
  {
    p, t, h := Locate(m, root, Top, t0, t0.BlackHeight(), n, lo, hi);
    assert Top.Around(t0.Seq()) == t0.Seq();
    ShapeAscends(t0, m, null, lo, hi);
  }

  lemma {:induction false} BlackIsHeight(t: Shape, h: int)
    requires t.Black(h)
    ensures t.BlackHeight() == h
  {
    if t.Branch? {
      BlackIsHeight(t.left, if t.red then h else h - 1);
    }
  }

  /** A subtree that fits its hole makes a red-black tree. */
  lemma {:induction false} PluggedRedBlack(p: Path, t: Shape, h: int)
    requires t.Calm() && t.Black(h) && p.Black(h) && p.Calm(t.Red())
    requires if p.Top? then !t.Red() else p.RootBlack()
    ensures p.Plug(t).RedBlack()
    decreases p
  {
    if p.Top? {
      BlackIsHeight(t, h);
    } else {
      var k := if p.red then h else h + 1;
      JoinColors(p.side, t, p.node, p.red, p.sibling, k);
      PluggedRedBlack(p.up, Join(p.side, t, p.node, p.red, p.sibling), k);
    }
  }

  lemma {:induction false} Pow2Double(n: nat)
    ensures Pow2(2 * n) == Pow2(n) * Pow2(n)
  {
    if n > 0 {
      Pow2Double(n - 1);
      assert Pow2(2 * n) == 2 * Pow2(2 * n - 1) == 4 * Pow2(2 * (n - 1));
    }
  }

  /** A tree of black height h has at least 2^h - 1 nodes, and height at most 2h, 2h + 1 under a red root. */
  lemma {:induction false} BlackBounds(t: Shape, h: nat)
    requires t.Black(h) && t.Calm()
    ensures Pow2(h) <= |t.Seq()| + 1
    ensures t.Height() <= 2 * h + if t.Red() then 1 else 0
  {
    if t.Branch? {
      var below := if t.red then h else h - 1;
      BlackBounds(t.left, below);
      BlackBounds(t.right, below);
    }
  }

  /** The bound tree.h documents: the height is at most 2 lg(n + 1). */
  lemma HeightBound(t: Shape)
    requires t.RedBlack()
    ensures Pow2(t.Height()) <= (|t.Seq()| + 1) * (|t.Seq()| + 1)
  {
    var h := t.BlackHeight();
    BlackBounds(t, h);
    Pow2Grows(t.Height(), 2 * h);
    Pow2Double(h);
    Square(Pow2(h), |t.Seq()| + 1);
  }

  lemma Square(a: nat, b: nat)
    requires a <= b
    ensures a * a <= b * b
  {
    assert a * a <= a * b <= b * b;
  }
}
