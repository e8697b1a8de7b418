/** The colour argument of RB_REMOVE_COLOR, on trees as values. */
module RedBlackRemoval {
  import opened Sequences
  import opened Sides
  import opened RedBlackShapes
  import opened RedBlackRotations
  import opened RedBlackMembers
  import opened RedBlackGraft

  ghost function Blackened(t: Shape): Shape { if t.Leaf? then t else t.(red := false) }

  /** Through the hole of p there is one black node too few; but for that, and t's colour, all is in order. */
  ghost predicate Removing(p: Path, t: Shape, h: int) {
    Blackened(t).Calm() && t.Black(h) && p.Black(h + 1) && p.Calm(false) && p.RootBlack()
  }

  /** The sibling the code looks at is never NULL. */
  lemma SiblingThere(p: Path, t: Shape, h: int)
    requires Removing(p, t, h) && p.Under?
    ensures p.sibling.Branch?
  {
    BlackNonNegative(t, h);
  }

  lemma {:induction false} BlackNonNegative(t: Shape, h: int)
    requires t.Black(h)
    ensures 0 <= h
  {
  }

  // ---- a red sibling is rotated above the parent ----

  ghost function SiblingRaised(p: Path): Path
    requires p.Under? && p.sibling.Branch?
  {
    var far, near := p.sibling.Kid(p.side.Other()), p.sibling.Kid(p.side);
    Under(Under(p.up, p.sibling.node, false, p.side, far), p.node, true, p.side, near)
  }

  lemma SiblingRaisedRemoving(p: Path, t: Shape, h: int)
    requires Removing(p, t, h) && p.Under? && p.sibling.Red()
    ensures var q := SiblingRaised(p);
            Removing(q, t, h) && q.red && q.sibling.Branch? && !q.sibling.red
  {
    BlackNonNegative(t, h);
    var far, near := p.sibling.Kid(p.side.Other()), p.sibling.Kid(p.side);
    assert far.Black(h + 1) && near.Black(h + 1) && p.up.Black(h + 2) && p.up.Calm(false);
    assert near.Branch?;
  }

  lemma SiblingRaisedSeq(p: Path, t: Shape)
    requires p.Under? && p.sibling.Branch?
    ensures SiblingRaised(p).Around(t.Seq()) == p.Around(t.Seq())
  {
    var s, far, near := p.side, p.sibling.Kid(p.side.Other()), p.sibling.Kid(p.side);
    var low := Join(s, t, p.node, true, near);
    AroundUp(p, t);
    AroundUp(SiblingRaised(p), t);
    AroundUp(SiblingRaised(p).up, low);
    RotateSeq(s, t, p.node, true, near, p.sibling.node, false, far);
    JoinSeq(s, t, p.node, p.red, p.sibling);
    JoinSeq(s, t, p.node, true, Join(s, near, p.sibling.node, false, far));
    JoinSeq(s, near, p.sibling.node, false, far);
    JoinSeq(s, near, p.sibling.node, p.sibling.red, far);
  }

  // ---- a black sibling without red children is painted red ----

  ghost function SiblingReddened(p: Path, t: Shape): Shape
    requires p.Under? && p.sibling.Branch?
  {
    Join(p.side, t, p.node, p.red, p.sibling.(red := true))
  }

  lemma SiblingReddenedRemoving(p: Path, t: Shape, h: int)
    requires Removing(p, t, h) && !t.Red() && p.Under?
    requires p.sibling.Branch? && !p.sibling.red && !p.sibling.left.Red() && !p.sibling.right.Red()
    ensures Removing(p.up, SiblingReddened(p, t), if p.red then h else h + 1)
  {
    BlackNonNegative(t, h);
    JoinColors(p.side, t, p.node, p.red, p.sibling.(red := true), if p.red then h else h + 1);
    JoinColors(p.side, t, p.node, false, p.sibling.(red := true), h + 1);
    assert p.sibling.(red := true).Black(h);
    assert p.up.Calm(p.red) && p.up.Calm(false) && p.up.RootBlack();
  }

  lemma SiblingReddenedSeq(p: Path, t: Shape)
    requires p.Under? && p.sibling.Branch?
    ensures p.up.Around(SiblingReddened(p, t).Seq()) == p.Around(t.Seq())
  {
    AroundUp(p, t);
    JoinSeq(p.side, t, p.node, p.red, p.sibling);
    JoinSeq(p.side, t, p.node, p.red, p.sibling.(red := true));
    assert p.sibling.(red := true).Seq() == p.sibling.Seq();
  }

  // ---- a red near nephew is rotated above the sibling ----

  ghost function NephewRaised(p: Path): Path
    requires p.Under? && p.sibling.Branch? && p.sibling.Kid(p.side).Branch?
  {
    var s, far, near := p.side, p.sibling.Kid(p.side.Other()), p.sibling.Kid(p.side);
    p.(sibling := Join(s, near.Kid(s), near.node, false, Join(s, near.Kid(s.Other()), p.sibling.node, true, far)))
  }

  lemma NephewRaisedRemoving(p: Path, t: Shape, h: int)
    requires Removing(p, t, h) && p.Under? && p.sibling.Branch? && !p.sibling.red
    requires p.sibling.Kid(p.side).Red() && !p.sibling.Kid(p.side.Other()).Red()
    ensures Removing(NephewRaised(p), t, h) && NephewRaised(p).sibling.Kid(p.side.Other()).Red()
    ensures !NephewRaised(p).sibling.red
  {
    BlackNonNegative(t, h);
    var s, far, near := p.side, p.sibling.Kid(p.side.Other()), p.sibling.Kid(p.side);
    assert p.sibling.Calm() && near.Calm() && far.Calm();
    assert near.Kid(s).Calm() && near.Kid(s.Other()).Calm() && !near.Kid(s).Red() && !near.Kid(s.Other()).Red();
    assert far.Black(h) && near.Black(h) && near.Kid(s).Black(h) && near.Kid(s.Other()).Black(h);
    var low := Join(s, near.Kid(s.Other()), p.sibling.node, true, far);
    JoinColors(s, near.Kid(s.Other()), p.sibling.node, true, far, h);
    JoinColors(s, near.Kid(s), near.node, false, low, h + 1);
  }

  lemma NephewRaisedSeq(p: Path, t: Shape)
    requires p.Under? && p.sibling.Branch? && p.sibling.Kid(p.side).Branch?
    ensures NephewRaised(p).Around(t.Seq()) == p.Around(t.Seq())
  {
    var s, far, near := p.side, p.sibling.Kid(p.side.Other()), p.sibling.Kid(p.side);
    RotateSeq(s.Other(), far, p.sibling.node, true, near.Kid(s.Other()), near.node, false, near.Kid(s));
    JoinSeq(s.Other(), far, p.sibling.node, true, Join(s.Other(), near.Kid(s.Other()), near.node, false, near.Kid(s)));
    JoinSeq(s.Other(), far, p.sibling.node, p.sibling.red, near);
    JoinSeq(s.Other(), near.Kid(s.Other()), near.node, false, near.Kid(s));
    JoinSeq(s.Other(), near.Kid(s.Other()), near.node, near.red, near.Kid(s));
  }

  // ---- a red far nephew ends it ----

  ghost function Repaired(p: Path, t: Shape): Shape
    requires p.Under? && p.sibling.Branch? && p.sibling.Kid(p.side.Other()).Branch?
  {
    var s, far, near := p.side, p.sibling.Kid(p.side.Other()), p.sibling.Kid(p.side);
    Join(s, Join(s, t, p.node, false, near), p.sibling.node, p.red, far.(red := false))
  }

  lemma RepairedRedBlack(p: Path, t: Shape, h: int)
    requires Removing(p, t, h) && !t.Red() && p.Under? && p.sibling.Branch? && !p.sibling.red
    requires p.sibling.Kid(p.side.Other()).Red()
    ensures p.up.Plug(Repaired(p, t)).RedBlack()
  {
    BlackNonNegative(t, h);
    var s, far, near := p.side, p.sibling.Kid(p.side.Other()), p.sibling.Kid(p.side);
    var k := if p.red then h + 1 else h + 2;
    assert p.sibling.Calm() && near.Calm() && far.Calm();
    assert far.(red := false).Calm();
    assert far.Black(h) && near.Black(h) && far.(red := false).Black(h + 1);
    JoinColors(s, t, p.node, false, near, h + 1);
    JoinColors(s, Join(s, t, p.node, false, near), p.sibling.node, p.red, far.(red := false), k);
    PluggedRedBlack(p.up, Repaired(p, t), k);
  }

  lemma RepairedSeq(p: Path, t: Shape)
    requires p.Under? && p.sibling.Branch? && p.sibling.Kid(p.side.Other()).Branch?
    ensures p.up.Around(Repaired(p, t).Seq()) == p.Around(t.Seq())
  {
    var s, far, near := p.side, p.sibling.Kid(p.side.Other()), p.sibling.Kid(p.side);
    AroundUp(p, t);
    RotateSeq(s, t, p.node, false, near, p.sibling.node, p.red, far.(red := false));
    JoinSeq(s, t, p.node, p.red, p.sibling);
    JoinSeq(s, t, p.node, false, Join(s, near, p.sibling.node, p.red, far.(red := false)));
    JoinSeq(s, near, p.sibling.node, p.red, far.(red := false));
    JoinSeq(s, near, p.sibling.node, p.sibling.red, far);
  }

  /** Once t's root is red, or t is all there is, painting that root black ends it. */
  lemma RemovedRedBlack(p: Path, t: Shape, h: int)
    requires Removing(p, t, h) && (t.Red() || p.Top?)
    ensures p.Plug(Blackened(t)).RedBlack()
  {
    BlackNonNegative(t, h);
    PluggedRedBlack(p, Blackened(t), if t.Red() then h + 1 else h);
  }

  // ---- taking an element out ----

  /** A node of the given colour is missing just above c. */
  ghost predicate Taken(q: Path, c: Shape, k: int, red: bool) {
    && c.Calm() && c.Black(k) && q.Black(if red then k else k + 1) && q.Calm(false)
    && q.RootBlack() && (red ==> !c.Red())
  }

  lemma {:induction false} CalmWeaken(p: Path, hole: bool)
    requires p.Calm(hole)
    ensures p.Calm(false)
  {
  }

  lemma TakenColors(p: Path, t: Shape, c: Shape, h: int) returns (k: int)
    requires Descending(p, t, h) && t.Branch?
    requires (t.left == Leaf && c == t.right) || (t.right == Leaf && c == t.left)
    ensures k == (if t.red then h else h - 1) && Taken(p, c, k, t.red)
  {
    k := if t.red then h else h - 1;
    CalmWeaken(p, t.red);
  }

  lemma TakenOuterSeq(p: Path, t: Shape, c: Shape)
    requires t.Branch?
    requires (t.left == Leaf && c == t.right) || (t.right == Leaf && c == t.left)
    ensures Drops(p.Around(t.Seq()), p.Around(c.Seq()), t.node)
  {
    assert c.Seq() == t.left.Seq() + t.right.Seq();
    DropsWithin(p.Before(), t.left.Seq(), t.node, t.right.Seq(), p.After());
  }

  /** u is where the successor of t's root sits; o is the way to t's right side. */
  ghost predicate AtSuccessor(p: Path, t: Shape, inner: Path, u: Shape, o: Path) {
    && t.Branch? && u.Branch? && u.left == Leaf
    && o == Under(p, t.node, t.red, Right, t.left)
    && inner.Before() == [] && inner.Plug(u) == t.right
  }

  lemma TakenInner(p: Path, t: Shape, inner: Path, u: Shape, o: Path, h: int) returns (k: int)
    requires AtSuccessor(p, t, inner, u, o) && Descending(Graft(inner, o), u, h)
    ensures Taken(Graft(inner, o.(node := u.node)), u.right, k, u.red)
  {
    k := TakenColors(Graft(inner, o), u, u.right, h);
    GraftColors(inner, o, u.node, if u.red then k else k + 1, false);
  }

  lemma TakenInnerSeq(p: Path, t: Shape, inner: Path, u: Shape, o: Path)
    requires AtSuccessor(p, t, inner, u, o)
    ensures Drops(p.Around(t.Seq()), Graft(inner, o.(node := u.node)).Around(u.right.Seq()), t.node)
  {
    PlugSeq(inner, u);
    GraftSeq(inner, o.(node := u.node));
    DropsBefore(p.Before(), t.left.Seq(), t.node, [u.node], u.right.Seq(), inner.After(), p.After());
  }

  /** The keys right of t's root, its successor's first. */
  lemma SuccessorKeys(m: Memory, p: Path, t: Shape, inner: Path, u: Shape, o: Path, hi: int)
    requires AtSuccessor(p, t, inner, u, o) && t.right.In(m, t.node, t.node.key, hi)
    ensures Ascending(t.right.Seq()) && t.node.key < u.node.key < hi && u.node in m
  {
    PlugSeq(inner, u);
    assert t.right.Seq()[0] == u.node;
    ShapeAscends(t.right, m, t.node, t.node.key, hi);
    ShapeRange(t.right, m, t.node, t.node.key, hi);
  }

  /** What is left right of the removed element lies above its successor. */
  lemma TakenRange(m: Memory, inner: Path, u: Shape, parent: Node, lo: int, hi: int)
    requires u.Branch? && u.left == Leaf && inner.Before() == [] && Ascending(inner.Plug(u).Seq())
    requires inner.Plug(u.right).In(m, parent, lo, hi)
    ensures inner.Plug(u.right).In(m, parent, u.node.key, hi)
  {
    PlugSeq(inner, u);
    PlugSeq(inner, u.right);
    AscendingHead(u.node, u.right.Seq(), inner.After());
    ShapeRange(inner.Plug(u.right), m, parent, lo, hi);
    Narrow(inner.Plug(u.right), m, parent, lo, hi, u.node.key, hi);
  }
}
