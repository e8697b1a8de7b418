/** The colour argument of RB_INSERT_COLOR, on trees as values. */
module RedBlackInsertion {
  import opened Sequences
  import opened Sides
  import opened RedBlackShapes
  import opened RedBlackRotations
  import opened RedBlackMembers

  /** The subtree t is red at its root; but for a red parent of that root all is in order. */
  ghost predicate Inserting(p: Path, t: Shape, h: int) {
    t.Red() && t.Calm() && t.Black(h) && p.Black(h) && p.Calm(false) && p.RootBlack()
  }

  lemma NotThere(p: Path, m: Memory, root: Node?, lo: int, hi: int, key: int)
    requires p.In(m, root, null, lo, hi) && p.Lo(lo) < key < p.Hi(hi)
    ensures forall n :: n in p.Around([]) ==> n.key != key
  {
    PathRange(p, m, root, null, lo, hi);
  }

  lemma AddsAround(p: Path, e: Node)
    ensures Adds(p.Around([]), p.Around([e]), e)
    ensures forall n :: n in p.Around([e]) <==> n in p.Around([]) || n == e
  {
    var i, s := |p.Before()|, p.Around([]);
    assert s == p.Before() + p.After();
    assert s[..i] == p.Before() && s[i..] == p.After();
  }

  ghost function PushedUp(p: Path, t: Shape): Shape
    requires p.Under? && p.up.Under? && p.up.sibling.Branch?
  {
    Join(p.up.side, Join(p.side, t, p.node, false, p.sibling), p.up.node, true, p.up.sibling.(red := false))
  }

  lemma PushedUpInserting(p: Path, t: Shape, h: int)
    requires Inserting(p, t, h) && p.Under? && p.red && p.up.Under? && p.up.sibling.Red()
    ensures Inserting(p.up.up, PushedUp(p, t), h + 1)
  {
    var par := Join(p.side, t, p.node, false, p.sibling);
    JoinColors(p.side, t, p.node, false, p.sibling, h + 1);
    JoinColors(p.up.side, par, p.up.node, true, p.up.sibling.(red := false), h + 1);
    assert p.up.Black(h) && p.up.Calm(true) && p.up.RootBlack();
    assert p.up.up.RootBlack();
  }

  lemma PushedUpSeq(p: Path, t: Shape)
    requires p.Under? && p.up.Under? && p.up.sibling.Branch?
    ensures p.up.up.Around(PushedUp(p, t).Seq()) == p.Around(t.Seq())
  {
    AroundUp(p, t);
    AroundUp(p.up, Join(p.side, t, p.node, false, p.sibling));
  }

  lemma TurnedOutInserting(p: Path, t: Shape, h: int)
    requires Inserting(p, t, h) && p.Under? && p.red
    ensures Inserting(Under(p.up, t.node, t.red, p.side.Other(), t.Kid(p.side)),
                      Join(p.side.Other(), p.sibling, p.node, p.red, t.Kid(p.side.Other())), h)
  {
    JoinColors(p.side.Other(), p.sibling, p.node, p.red, t.Kid(p.side.Other()), h);
  }

  lemma TurnedOutSeq(p: Path, t: Shape)
    requires p.Under? && t.Branch?
    ensures Under(p.up, t.node, t.red, p.side.Other(), t.Kid(p.side))
            .Around(Join(p.side.Other(), p.sibling, p.node, p.red, t.Kid(p.side.Other())).Seq()) == p.Around(t.Seq())
  {
    var s, a, b, d := p.side.Other(), p.sibling, t.Kid(p.side.Other()), t.Kid(p.side);
    var low := Join(s, a, p.node, p.red, b);
    AroundUp(p, t);
    AroundUp(Under(p.up, t.node, t.red, s, d), low);
    RotateSeq(s, a, p.node, p.red, b, t.node, t.red, d);
  }

  ghost function TurnedUp(p: Path): Path
    requires p.Under? && p.up.Under?
  {
    Under(p.up.up, p.node, false, p.side, Join(p.side, p.sibling, p.up.node, true, p.up.sibling))
  }

  lemma TurnedUpInserting(p: Path, t: Shape, h: int)
    requires Inserting(p, t, h) && p.Under? && p.red && p.up.Under? && p.up.side == p.side && !p.up.sibling.Red()
    ensures Inserting(TurnedUp(p), t, h)
  {
    JoinColors(p.side, p.sibling, p.up.node, true, p.up.sibling, h);
    assert p.up.Black(h) && p.up.Calm(true) && p.up.RootBlack();
    assert p.up.up.RootBlack();
  }

  lemma TurnedUpSeq(p: Path, t: Shape)
    requires p.Under? && p.up.Under? && p.up.side == p.side
    ensures TurnedUp(p).Around(t.Seq()) == p.Around(t.Seq())
  {
    var o, low := p.side.Other(), Join(p.side, t, p.node, false, p.sibling);
    AroundUp(p, t);
    AroundUp(p.up, Join(p.side, t, p.node, p.red, p.sibling));
    AroundUp(TurnedUp(p), t);
    RotateSeq(o, p.up.sibling, p.up.node, true, p.sibling, p.node, false, t);
  }

  /** Where the parent of the red node is black or absent, all that can be wrong is a red root. */
  lemma Settled(p: Path, t: Shape, h: int)
    requires Inserting(p, t, h) && (p.Under? ==> !p.red)
    ensures p.Plug(t).Branch? && p.Plug(t).(red := false).RedBlack()
  {
    if p.Top? {
      PluggedRedBlack(p, t.(red := false), h + 1);
    } else {
      PluggedRedBlack(p, t, h);
      PlugBranch(p, t);
    }
  }

  lemma {:induction false} PlugBranch(p: Path, t: Shape)
    requires t.Branch?
    ensures p.Plug(t).Branch?
  {
    if p.Under? {
      PlugBranch(p.up, Join(p.side, t, p.node, p.red, p.sibling));
    }
  }
}
