/** RB_ROTATE_LEFT, RB_ROTATE_RIGHT and the colour assignments, and what they do to the tree. */
module RedBlackRotations {
  import opened Sides
  import opened RedBlackShapes

  /** The links that rotating x towards side s rewrites, and no others. */
  ghost predicate Rotates(m: Memory, m': Memory, root: Node?, root': Node?, x: Node, y: Node, s: Side) {
    && m'.Keys == m.Keys && x in m && y in m
    && var b, above := m[y].Kid(s), m[x].parent;
    && (above == null ==> root' == y)
    && (above != null ==> root' == root && above in m)
    && (above != null ==> m'[above] == m[above].WithKid(if m[above].left == x then Left else Right, y))
    && m'[x] == m[x].WithKid(s.Other(), b).(parent := y)
    && m'[y] == m[y].WithKid(s, x).(parent := above)
    && (b != null ==> b in m && m'[b] == m[b].(parent := x))
    && forall n :: n in m && n != above && n != x && n != y && n != b ==> m'[n] == m[n]
  }

  /** x has a child to rotate up, and the nodes involved are known and distinct. */
  ghost predicate CanRotate(m: Memory, x: Node, s: Side) {
    && x in m && m[x].Kid(s.Other()) != null
    && var y: Node, above := m[x].Kid(s.Other()), m[x].parent;
    && y in m && y != x && above != x && above != y && (above != null ==> above in m)
    && var b := m[y].Kid(s);
    b != null ==> b in m && b != x && b != y && b != above
  }

  /** What a member's own cell and its parent's say about each other. */
  lemma Neighbours(m: Memory, root: Node?, p: Path, t: Shape, lo: int, hi: int)
    requires At(m, root, p, t, lo, hi)
    ensures t.Branch? ==> t.node in m && m[t.node] == Cell(t.left.Root(), t.right.Root(), p.Parent(), t.red)
                          && p.Lo(lo) < t.node.key < p.Hi(hi)
    ensures p.Top? ==> root == t.Root()
    ensures p.Under? ==> p.node in m && m[p.node].Kid(p.side) == t.Root() && m[p.node].red == p.red
                         && m[p.node].Kid(p.side.Other()) == p.sibling.Root()
                         && p.node.key == (if p.side.Left? then p.Hi(hi) else p.Lo(lo))
    ensures p.Under? && t.Branch? ==> (m[p.node].left == t.node <==> p.side.Left?)
  {
  }

  /** Parent, grandparent and uncle of t's root. */
  lemma Family(m: Memory, root: Node?, p: Path, t: Shape, lo: int, hi: int)
    requires At(m, root, p, t, lo, hi) && t.Branch? && p.Under? && p.up.Under?
    ensures t.node in m && m[t.node].parent == p.node
    ensures p.node in m && m[p.node].parent == p.up.node && m[p.node].Kid(p.side) == t.node != m[p.node].Kid(p.side.Other())
    ensures p.up.node in m && (m[p.up.node].left == p.node <==> p.up.side.Left?)
    ensures m[p.up.node].Kid(p.up.side.Other()) == p.up.sibling.Root()
    ensures p.up.sibling.Branch? ==> p.up.sibling.node in m && m[p.up.sibling.node].red == p.up.sibling.red
  {
    Neighbours(m, root, p, t, lo, hi);
    var whole := Up(m, root, p, t, lo, hi);
    Neighbours(m, root, p.up, whole, lo, hi);
  }

  /** Parent, sibling and nephews of t's root, which may be missing. */
  lemma Kin(m: Memory, root: Node?, p: Path, t: Shape, lo: int, hi: int)
    requires At(m, root, p, t, lo, hi) && p.Under? && p.sibling.Branch?
    ensures p.node in m && m[p.node] == Cell(m[p.node].left, m[p.node].right, p.up.Parent(), p.red)
    ensures m[p.node].Kid(p.side) == t.Root() && m[p.node].Kid(p.side.Other()) == p.sibling.node != t.Root()
    ensures p.sibling.node in m
    ensures m[p.sibling.node] == Cell(p.sibling.left.Root(), p.sibling.right.Root(), p.node, p.sibling.red)
    ensures p.sibling.left.Branch? ==> p.sibling.left.node in m && m[p.sibling.left.node].red == p.sibling.left.red
    ensures p.sibling.right.Branch? ==> p.sibling.right.node in m && m[p.sibling.right.node].red == p.sibling.right.red
  {
    var l := if p.side.Left? then p.node.key else p.up.Lo(lo);
    var h := if p.side.Left? then p.up.Hi(hi) else p.node.key;
    assert p.sibling.In(m, p.node, l, h);
    assert p.sibling.left.In(m, p.sibling.node, l, p.sibling.node.key);
    assert p.sibling.right.In(m, p.sibling.node, p.sibling.node.key, h);
  }

  lemma Rotated(m: Memory, m': Memory, root: Node?, root': Node?, p: Path, s: Side,
                a: Shape, x: Node, xr: bool, b: Shape, y: Node, yr: bool, d: Shape, lo: int, hi: int)
    requires At(m, root, p, Join(s, a, x, xr, Join(s, b, y, yr, d)), lo, hi)
    requires Rotates(m, m', root, root', x, y, s)
    ensures At(m', root', p, Join(s, Join(s, a, x, xr, b), y, yr, d), lo, hi)
  {
    RotatedPath(m, m', root, root', p, s, a, x, xr, b, y, yr, d, lo, hi);
    var t, t' := Join(s, a, x, xr, Join(s, b, y, yr, d)), Join(s, Join(s, a, x, xr, b), y, yr, d);
    assert t.In(m, p.Parent(), p.Lo(lo), p.Hi(hi)) && t'.Root() == y;
    if s.Left? {
      RotatedLeft(m, m', root, root', p.Parent(), a, x, xr, b, y, yr, d, p.Lo(lo), p.Hi(hi));
    } else {
      RotatedRight(m, m', root, root', p.Parent(), a, x, xr, b, y, yr, d, p.Lo(lo), p.Hi(hi));
    }
  }

  lemma BelowKid(m: Memory, t: Shape, s: Side, parent: Node?, lo: int, hi: int)
    requires t.Branch? && t.In(m, parent, lo, hi)
    ensures t.node in m && m[t.node].Kid(s) == t.Kid(s).Root() && lo < t.node.key < hi
    ensures t.Kid(s).Branch? ==> t.Kid(s).node in m && lo < t.Kid(s).node.key < hi && t.Kid(s).node.key != t.node.key
  {
  }

  lemma RotateSeq(s: Side, a: Shape, x: Node, xr: bool, b: Shape, y: Node, yr: bool, d: Shape)
    ensures Join(s, Join(s, a, x, xr, b), y, yr, d).Seq() == Join(s, a, x, xr, Join(s, b, y, yr, d)).Seq()
  {
    var sa, sb, sd := a.Seq(), b.Seq(), d.Seq();
    if s.Left? {
      assert (sa + [x] + sb) + [y] + sd == sa + [x] + (sb + [y] + sd);
    } else {
      assert sd + [y] + (sb + [x] + sa) == (sd + [y] + sb) + [x] + sa;
    }
  }

  lemma MayRotate(m: Memory, root: Node?, p: Path, s: Side,
                  a: Shape, x: Node, xr: bool, b: Shape, y: Node, yr: bool, d: Shape, lo: int, hi: int)
    requires At(m, root, p, Join(s, a, x, xr, Join(s, b, y, yr, d)), lo, hi)
    ensures CanRotate(m, x, s) && m[x].Kid(s.Other()) == y
  {
    var low := Join(s, b, y, yr, d);
    var t := Join(s, a, x, xr, low);
    assert t.Branch? && t.node == x && t.Kid(s.Other()) == low && low.Kid(s) == b;
    Neighbours(m, root, p, t, lo, hi);
    var l, h := if s.Left? then x.key else p.Lo(lo), if s.Left? then p.Hi(hi) else x.key;
    assert low.In(m, x, l, h);
    BelowKid(m, low, s, x, l, h);
    assert b.Branch? ==> b.node in m && l < b.node.key < h && b.node.key != y.key;
  }

  lemma RotatedPath(m: Memory, m': Memory, root: Node?, root': Node?, p: Path, s: Side,
                    a: Shape, x: Node, xr: bool, b: Shape, y: Node, yr: bool, d: Shape, lo: int, hi: int)
    requires At(m, root, p, Join(s, a, x, xr, Join(s, b, y, yr, d)), lo, hi)
    requires Rotates(m, m', root, root', x, y, s)
    ensures p.In(m', root', y, lo, hi)
    ensures p.Under? ==> p.node.key == p.Lo(lo) || p.node.key == p.Hi(hi)
  {
    var low := Join(s, b, y, yr, d);
    Neighbours(m, root, p, Join(s, a, x, xr, low), lo, hi);
    var l, h := if s.Left? then x.key else p.Lo(lo), if s.Left? then p.Hi(hi) else x.key;
    assert low.In(m, x, l, h);
    assert b.In(m, y, if s.Left? then x.key else y.key, if s.Left? then y.key else x.key);
    assert b.Branch? ==> b.node in m && p.Lo(lo) < b.node.key < p.Hi(hi);
    PathRelink(p, m, m', root, root', x, y, lo, hi);
  }

  lemma RotatedLeft(m: Memory, m': Memory, root: Node?, root': Node?, above: Node?,
                    a: Shape, x: Node, xr: bool, b: Shape, y: Node, yr: bool, d: Shape, lo: int, hi: int)
    requires Branch(a, x, xr, Branch(b, y, yr, d)).In(m, above, lo, hi)
    requires Rotates(m, m', root, root', x, y, Left)
    requires above != null ==> above.key <= lo || hi <= above.key
    ensures Branch(Branch(a, x, xr, b), y, yr, d).In(m', above, lo, hi)
  {
    assert Branch(b, y, yr, d).In(m, x, x.key, hi);
    assert b.In(m, y, x.key, y.key);
    assert b.Branch? ==> b.node in m && x.key < b.node.key < y.key;
    ShapeFrame(a, m, m', x, lo, x.key);
    ShapeFrame(d, m, m', y, y.key, hi);
    ShapeAdopt(b, m, m', y, x, x.key, y.key);
    assert Branch(a, x, xr, b).In(m', y, lo, y.key);
  }

  lemma RotatedRight(m: Memory, m': Memory, root: Node?, root': Node?, above: Node?,
                     a: Shape, x: Node, xr: bool, b: Shape, y: Node, yr: bool, d: Shape, lo: int, hi: int)
    requires Branch(Branch(d, y, yr, b), x, xr, a).In(m, above, lo, hi)
    requires Rotates(m, m', root, root', x, y, Right)
    requires above != null ==> above.key <= lo || hi <= above.key
    ensures Branch(d, y, yr, Branch(b, x, xr, a)).In(m', above, lo, hi)
  {
    assert Branch(d, y, yr, b).In(m, x, lo, x.key);
    assert b.In(m, y, y.key, x.key);
    assert b.Branch? ==> b.node in m && y.key < b.node.key < x.key;
    ShapeFrame(a, m, m', x, x.key, hi);
    ShapeFrame(d, m, m', y, lo, y.key);
    ShapeAdopt(b, m, m', y, x, y.key, x.key);
    assert Branch(b, x, xr, a).In(m', y, y.key, hi);
  }

  lemma Painted(m: Memory, m': Memory, root: Node?, p: Path, t: Shape, red: bool, lo: int, hi: int)
    requires At(m, root, p, t, lo, hi) && t.Branch?
    requires m' == m[t.node := m[t.node].(red := red)]
    ensures At(m', root, p, t.(red := red), lo, hi)
  {
    Neighbours(m, root, p, t, lo, hi);
    PathFrame(p, m, m', root, t.node, lo, hi);
    ShapeFrame(t.left, m, m', t.node, p.Lo(lo), t.node.key);
    ShapeFrame(t.right, m, m', t.node, t.node.key, p.Hi(hi));
  }
}
