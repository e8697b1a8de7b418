/** Paths inside a subtree, and one node standing in for another. */
module RedBlackGraft {
  import opened Sides
  import opened RedBlackShapes
  import opened RedBlackRotations
  import opened RedBlackMembers

  /** inner leads from a subtree's root down to the hole, outer from the root of all to that subtree. */
  ghost function Graft(inner: Path, outer: Path): Path {
    if inner.Top? then outer else inner.(up := Graft(inner.up, outer))
  }

  lemma {:induction false} GraftUp(m: Memory, root: Node?, inner: Path, outer: Path, t: Shape, lo: int, hi: int)
    requires At(m, root, Graft(inner, outer), t, lo, hi)
    ensures At(m, root, outer, inner.Plug(t), lo, hi)
    decreases inner
  {
    if inner.Under? {
      var t' := Up(m, root, Graft(inner, outer), t, lo, hi);
      GraftUp(m, root, inner.up, outer, t', lo, hi);
    }
  }

  lemma {:induction false} GraftDown(m: Memory, root: Node?, inner: Path, outer: Path, t: Shape, lo: int, hi: int)
    requires At(m, root, outer, inner.Plug(t), lo, hi)
    ensures At(m, root, Graft(inner, outer), t, lo, hi)
    decreases inner
  {
    if inner.Under? {
      var whole := Join(inner.side, t, inner.node, inner.red, inner.sibling);
      GraftDown(m, root, inner.up, outer, whole, lo, hi);
      var p := Down(m, root, Graft(inner.up, outer), whole, inner.side, lo, hi);
    }
  }

  /** Colours do not depend on which node sits where. */
  lemma {:induction false} GraftColors(inner: Path, outer: Path, n: Node, h: int, hole: bool)
    requires outer.Under?
    ensures Graft(inner, outer.(node := n)).Black(h) == Graft(inner, outer).Black(h)
    ensures Graft(inner, outer.(node := n)).Calm(hole) == Graft(inner, outer).Calm(hole)
    ensures Graft(inner, outer.(node := n)).RootBlack() == Graft(inner, outer).RootBlack()
  {
    if inner.Under? {
      GraftColors(inner.up, outer, n, if inner.red then h else h + 1, inner.red);
    }
  }

  lemma {:induction false} GraftSeq(inner: Path, outer: Path)
    ensures Graft(inner, outer).Before() == outer.Before() + inner.Before()
    ensures Graft(inner, outer).After() == inner.After() + outer.After()
  {
    if inner.Under? {
      GraftSeq(inner.up, outer);
    }
  }

  lemma {:induction false} Narrow(t: Shape, m: Memory, parent: Node?, lo: int, hi: int, lo': int, hi': int)
    requires t.In(m, parent, lo, hi)
    requires forall n :: n in t.Seq() ==> lo' < n.key < hi'
    ensures t.In(m, parent, lo', hi')
  {
    if t.Branch? {
      ShapeRange(t.left, m, t.node, lo, t.node.key);
      ShapeRange(t.right, m, t.node, t.node.key, hi);
      assert t.node in t.Seq();
      Narrow(t.left, m, t.node, lo, t.node.key, lo', t.node.key);
      Narrow(t.right, m, t.node, t.node.key, hi, t.node.key, hi');
    }
  }

  /** What hanging child where n was changes. */
  ghost predicate Unlinks(m: Memory, m': Memory, root: Node?, root': Node?, n: Node, child: Node?) {
    && m'.Keys == m.Keys && n in m
    && var above := m[n].parent;
    && (above == null ==> root' == child)
    && (above != null ==> root' == root && above in m)
    && (above != null ==> m'[above] == m[above].WithKid(if m[above].left == n then Left else Right, child))
    && (child != null ==> child in m && m'[child] == m[child].(parent := above))
    && forall x :: x in m && x != above && x != child ==> m'[x] == m[x]
  }

  ghost predicate CanUnlink(m: Memory, n: Node, child: Node?) {
    && n in m && m[n].parent != n && child != n && (child != null ==> child in m && child != m[n].parent)
    && (m[n].parent != null ==> m[n].parent in m)
  }

  lemma MayUnlink(m: Memory, root: Node?, p: Path, t: Shape, child: Shape, lo: int, hi: int)
    requires At(m, root, p, t, lo, hi) && t.Branch?
    requires (t.left == Leaf && child == t.right) || (t.right == Leaf && child == t.left)
    ensures CanUnlink(m, t.node, child.Root())
  {
    Neighbours(m, root, p, t, lo, hi);
    if t.left == Leaf && child == t.right {
      assert child.In(m, t.node, t.node.key, p.Hi(hi));
    } else {
      assert child.In(m, t.node, p.Lo(lo), t.node.key);
    }
  }

  lemma Unlinked(m: Memory, m': Memory, root: Node?, root': Node?, p: Path, t: Shape, child: Shape, lo: int, hi: int)
    requires At(m, root, p, t, lo, hi) && t.Branch?
    requires (t.left == Leaf && child == t.right) || (t.right == Leaf && child == t.left)
    requires Unlinks(m, m', root, root', t.node, child.Root())
    ensures At(m', root', p, child, lo, hi)
  {
    var n := t.node;
    Neighbours(m, root, p, t, lo, hi);
    var l, h := if t.left == Leaf then n.key else p.Lo(lo), if t.left == Leaf then p.Hi(hi) else n.key;
    if t.left == Leaf && child == t.right {
      Widen(child, m, n, n.key, p.Hi(hi), p.Lo(lo), p.Hi(hi));
    } else {
      Widen(child, m, n, p.Lo(lo), n.key, p.Lo(lo), p.Hi(hi));
    }
    assert child.Branch? ==> p.Lo(lo) < child.node.key < p.Hi(hi);
    PathRelink(p, m, m', root, root', n, child.Root(), lo, hi);
    ShapeAdopt(child, m, m', n, p.Parent(), p.Lo(lo), p.Hi(hi));
  }

  /** What letting n take old's place changes. */
  ghost predicate Replaces(m: Memory, m': Memory, root: Node?, root': Node?, old_: Node, n: Node) {
    && m'.Keys == m.Keys && old_ in m && n in m
    && var above, l, r := m[old_].parent, m[old_].left, m[old_].right;
    && (above == null ==> root' == n)
    && (above != null ==> root' == root && above in m)
    && (above != null ==> m'[above] == m[above].WithKid(if m[above].left == old_ then Left else Right, n))
    && m'[n] == m[old_]
    && (l != null ==> l in m && m'[l] == m[l].(parent := n))
    && (r != null ==> r in m && m'[r] == m[r].(parent := n))
    && forall x :: x in m && x != above && x != n && x != l && x != r ==> m'[x] == m[x]
  }

  ghost predicate CanReplace(m: Memory, old_: Node, n: Node) {
    && old_ in m && n in m && n != old_
    && var above, l, r := m[old_].parent, m[old_].left, m[old_].right;
    && l != null && l in m && l != old_ && l != n && l != above && l != r
    && (r != null ==> r in m && r != old_ && r != n && r != above)
    && above != n && above != old_ && (above != null ==> above in m)
  }

  lemma MayReplace(m: Memory, root: Node?, p: Path, t: Shape, n: Node, lo: int, hi: int)
    requires At(m, root, p, t, lo, hi) && t.Branch? && t.left.Branch? && n in m && t.node.key < n.key < p.Hi(hi)
    requires t.right.In(m, t.node, n.key, p.Hi(hi))
    ensures CanReplace(m, t.node, n)
  {
    Neighbours(m, root, p, t, lo, hi);
    assert t.left.In(m, t.node, p.Lo(lo), t.node.key);
    assert p.Lo(lo) < t.left.node.key < t.node.key;
    assert t.right.Branch? ==> t.right.node in m && n.key < t.right.node.key < p.Hi(hi);
  }

  lemma Replaced(m: Memory, m': Memory, root: Node?, root': Node?, p: Path, t: Shape, n: Node, lo: int, hi: int)
    requires At(m, root, p, t, lo, hi) && t.Branch? && t.node.key < n.key < p.Hi(hi)
    requires t.right.In(m, t.node, n.key, p.Hi(hi))
    requires Replaces(m, m', root, root', t.node, n)
    ensures At(m', root', p, t.(node := n), lo, hi)
  {
    var o := t.node;
    Neighbours(m, root, p, t, lo, hi);
    assert t.left.In(m, o, p.Lo(lo), o.key);
    assert t.left.Branch? ==> t.left.node.key < o.key;
    assert t.right.Branch? ==> n.key < t.right.node.key < p.Hi(hi);
    assert t.left.Branch? ==> p.Lo(lo) < t.left.node.key;
    PathRelink(p, m, m', root, root', o, n, lo, hi);
    ShapeAdopt(t.left, m, m', o, n, p.Lo(lo), o.key);
    Widen(t.left, m', n, p.Lo(lo), o.key, p.Lo(lo), n.key);
    ShapeAdopt(t.right, m, m', o, n, n.key, p.Hi(hi));
  }
}
