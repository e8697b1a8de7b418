/** What rotations, links and the final assembly of a top-down splay do to the trees in memory. */
module SplaySteps {
  import opened Sides
  import opened SplayShapes

  /** The subtree a splay still works on, between the pieces it has cut off. */
  ghost predicate At(m: Memory, header: Cell, p: Path, t: Shape, lo: int, hi: int) {
    p.In(m, header, lo, hi) && t.In(m, p.Lo(lo), p.Hi(hi))
  }

  ghost function Turned(s: Side, t: Shape): Shape
    requires t.Branch? && t.Kid(s).Branch?
  {
    var low := t.Kid(s);
    Join(s, low.Kid(s), low.node, Join(s, low.Kid(s.Other()), t.node, t.Kid(s.Other())))
  }

  /** The links after SPLAY_ROTATE_RIGHT (s == Left) and SPLAY_ROTATE_LEFT (s == Right). */
  ghost predicate Rotates(m: Memory, m': Memory, top: Node, tmp: Node, s: Side) {
    && top in m && tmp in m && top != tmp
    && m' == m[top := m[top].WithKid(s, m[tmp].Kid(s.Other()))][tmp := m[tmp].WithKid(s.Other(), top)]
  }

  lemma RotatedShape(m: Memory, m': Memory, t: Shape, s: Side, a: int, b: int)
    requires t.In(m, a, b) && t.Branch? && t.Kid(s).Branch? && Rotates(m, m', t.node, t.Kid(s).node, s)
    ensures Turned(s, t).In(m', a, b) && a < t.Kid(s).node.key < b
  {
    var top, low := t.node, t.Kid(s);
    assert if s.Left? then low.In(m, a, top.key) else low.In(m, top.key, b);
    if s.Left? {
      ShapeFrame(low.left, m, m', a, low.node.key);
      ShapeFrame(low.right, m, m', low.node.key, top.key);
      ShapeFrame(t.right, m, m', top.key, b);
    } else {
      ShapeFrame(t.left, m, m', a, top.key);
      ShapeFrame(low.left, m, m', top.key, low.node.key);
      ShapeFrame(low.right, m, m', low.node.key, b);
    }
  }

  lemma Rotated(m: Memory, m': Memory, header: Cell, p: Path, t: Shape, s: Side, lo: int, hi: int)
    requires At(m, header, p, t, lo, hi) && t.Branch? && t.Kid(s).Branch?
    requires Rotates(m, m', t.node, t.Kid(s).node, s)
    ensures At(m', header, p, Turned(s, t), lo, hi)
  {
    RotatedShape(m, m', t, s, p.Lo(lo), p.Hi(hi));
    PathFrame(p, m, m', header, lo, hi);
  }

  lemma TurnedSeq(s: Side, t: Shape)
    requires t.Branch? && t.Kid(s).Branch?
    ensures Turned(s, t).Seq() == t.Seq()
  {
    var low := t.Kid(s);
    if s.Left? {
      Associate(low.left.Seq(), [low.node], low.right.Seq(), [t.node], t.right.Seq());
    } else {
      Associate(t.left.Seq(), [t.node], low.left.Seq(), [low.node], low.right.Seq());
    }
  }

  lemma Associate(a: seq<Node>, b: seq<Node>, c: seq<Node>, d: seq<Node>, e: seq<Node>)
    ensures (a + b + c) + d + e == a + b + (c + d + e)
  {
  }

  /** The search goes to side s: the root and its other subtree become the newest piece. */
  ghost function Cut(p: Path, t: Shape, s: Side): Path
    requires t.Branch?
  {
    Under(p, s, t.node, t.Kid(s.Other()))
  }

  lemma Linked(m: Memory, header: Cell, p: Path, t: Shape, s: Side, lo: int, hi: int)
    requires At(m, header, p, t, lo, hi) && t.Branch?
    ensures At(Relinked(m, p.Tail(s), s, t.node), HeaderRelinked(header, p.Tail(s), s, t.node), Cut(p, t, s), t.Kid(s), lo, hi)
  {
    TailBounds(p, s, m, header, lo, hi);
    PathRelink(p, m, s, t.node, header, lo, hi);
    ShapeFrame(t, m, Relinked(m, p.Tail(s), s, t.node), p.Lo(lo), p.Hi(hi));
  }

  lemma CutAround(p: Path, t: Shape, s: Side)
    requires t.Branch?
    ensures Cut(p, t, s).Around(t.Kid(s).Seq()) == p.Around(t.Seq())
  {
    Regroup(p.Before(), t.left.Seq(), [t.node], t.right.Seq(), p.After());
  }

  lemma Regroup(b: seq<Node>, l: seq<Node>, n: seq<Node>, r: seq<Node>, a: seq<Node>)
    ensures b + l + (n + r + a) == b + (l + n + r) + a
    ensures (b + l + n) + r + a == b + (l + n + r) + a
    ensures (b + l) + n + (r + a) == b + (l + n + r) + a
  {
  }

  /** Once its tail links to inner, the pieces of a side are a tree. */
  lemma {:induction false} HangIn(p: Path, s: Side, inner: Shape, m: Memory, header: Cell, lo: int, hi: int, bound: int)
    requires p.In(m, header, lo, hi) && LinkOf(m, header, p.Tail(s), s) == inner.Root()
    requires if s.Left? then inner.In(m, bound, p.Hi(hi)) && bound < p.Hi(hi) else inner.In(m, p.Lo(lo), bound) && p.Lo(lo) < bound
    ensures header.Kid(s) == p.Hang(s, inner).Root()
    ensures if s.Left? then p.Hang(s, inner).In(m, bound, hi) else p.Hang(s, inner).In(m, lo, bound)
    decreases p
  {
    if p.Under? {
      HangIn(p.up, s, if p.side == s then Join(s, inner, p.node, p.far) else inner, m, header, lo, hi, bound);
    }
  }

  lemma {:induction false} HangSeq(p: Path, s: Side, inner: Shape)
    ensures p.Hang(s, inner).Seq() == if s.Left? then inner.Seq() + p.After() else p.Before() + inner.Seq()
    decreases p
  {
    if p.Under? && p.side == s {
      HangSeq(p.up, s, Join(s, inner, p.node, p.far));
      Chain(inner.Seq(), [p.node], p.far.Seq(), p.up.After());
      Chain(p.up.Before(), p.far.Seq(), [p.node], inner.Seq());
    } else if p.Under? {
      HangSeq(p.up, s, inner);
    }
  }

  lemma Chain(a: seq<Node>, b: seq<Node>, c: seq<Node>, d: seq<Node>)
    ensures (a + b + c) + d == a + (b + c + d)
  {
  }

  ghost function Assembly(p: Path, t: Shape): Shape
    requires t.Branch?
  {
    Branch(p.Hang(Right, t.left), t.node, p.Hang(Left, t.right))
  }

  /** The links before and after SPLAY_ASSEMBLE; top is the root. */
  ghost predicate Assembles(m: Memory, m': Memory, header: Cell, p: Path, top: Node) {
    && top in m
    && var m1 := Relinked(m, p.Tail(Right), Right, m[top].left);
       var h1 := HeaderRelinked(header, p.Tail(Right), Right, m[top].left);
       var m2 := Relinked(m1, p.Tail(Left), Left, m[top].right);
       var h2 := HeaderRelinked(h1, p.Tail(Left), Left, m[top].right);
       m' == m2[top := Cell(h2.right, h2.left)]
  }

  lemma Assembled(m: Memory, m': Memory, header: Cell, p: Path, t: Shape, lo: int, hi: int)
    requires At(m, header, p, t, lo, hi) && t.Branch? && Assembles(m, m', header, p, t.node)
    ensures Assembly(p, t).In(m', lo, hi) && SameOutside(m, m', lo, hi)
  {
    var top := t.node;
    var m1 := Relinked(m, p.Tail(Right), Right, m[top].left);
    var h1 := HeaderRelinked(header, p.Tail(Right), Right, m[top].left);
    var m2 := Relinked(m1, p.Tail(Left), Left, m[top].right);
    var h2 := HeaderRelinked(h1, p.Tail(Left), Left, m[top].right);
    TailBounds(p, Right, m, header, lo, hi);
    TailBounds(p, Left, m, header, lo, hi);
    PathRelink(p, m, Right, m[top].left, header, lo, hi);
    PathRelink(p, m1, Left, m[top].right, h1, lo, hi);
    ShapeFrame(t, m, m2, p.Lo(lo), p.Hi(hi));
    HungOn(p, t, m2, h2, m', lo, hi);
  }

  lemma HungOn(p: Path, t: Shape, m: Memory, header: Cell, m': Memory, lo: int, hi: int)
    requires At(m, header, p, t, lo, hi) && t.Branch?
    requires LinkOf(m, header, p.Tail(Right), Right) == t.left.Root() && LinkOf(m, header, p.Tail(Left), Left) == t.right.Root()
    requires m' == m[t.node := Cell(header.right, header.left)]
    ensures Assembly(p, t).In(m', lo, hi)
  {
    TailBounds(p, Right, m, header, lo, hi);
    HangIn(p, Right, t.left, m, header, lo, hi, t.node.key);
    HangIn(p, Left, t.right, m, header, lo, hi, t.node.key);
    ShapeFrame(p.Hang(Right, t.left), m, m', lo, t.node.key);
    ShapeFrame(p.Hang(Left, t.right), m, m', t.node.key, hi);
  }

  lemma AssemblySeq(p: Path, t: Shape)
    requires t.Branch?
    ensures Assembly(p, t).Seq() == p.Around(t.Seq())
  {
    HangSeq(p, Right, t.left);
    HangSeq(p, Left, t.right);
    Regroup(p.Before(), t.left.Seq(), [t.node], t.right.Seq(), p.After());
  }

  /** The pieces lie on their side of the hole. */
  lemma {:induction false} PathRange(p: Path, m: Memory, header: Cell, lo: int, hi: int)
    requires p.In(m, header, lo, hi)
    ensures forall n :: n in p.Before() ==> n in m && n.key <= p.Lo(lo)
    ensures forall n :: n in p.After() ==> n in m && p.Hi(hi) <= n.key
  {
    if p.Under? {
      PathRange(p.up, m, header, lo, hi);
      if p.side.Left? {
        ShapeRange(p.far, m, p.node.key, p.up.Hi(hi));
      } else {
        ShapeRange(p.far, m, p.up.Lo(lo), p.node.key);
      }
    }
  }

  /** No key lies between the given one and the root's: the root is the element sought or a neighbour of its place. */
  ghost predicate Nearest(s: seq<Node>, root: Node, key: int) {
    && root in s
    && (forall n :: n in s && n.key > root.key && root.key < key ==> n.key > key)
    && (forall n :: n in s && n.key < root.key && key < root.key ==> n.key < key)
    && (forall n :: n in s && n.key == key ==> n == root)
  }

  /** Where the search stops, the root is nearest. */
  lemma Stops(m: Memory, header: Cell, p: Path, t: Shape, key: int, lo: int, hi: int)
    requires At(m, header, p, t, lo, hi) && t.Branch? && p.Lo(lo) < key < p.Hi(hi)
    requires key < t.node.key ==> t.left.Leaf?
    requires key > t.node.key ==> t.right.Leaf?
    ensures Nearest(p.Around(t.Seq()), t.node, key)
  {
    PathRange(p, m, header, lo, hi);
    ShapeRange(t.left, m, p.Lo(lo), t.node.key);
    ShapeRange(t.right, m, t.node.key, p.Hi(hi));
    forall n | n in p.Around(t.Seq())
      ensures n in p.Before() || n in p.After() || n in t.left.Seq() || n in t.right.Seq() || n == t.node
    {
    }
    assert t.node in t.Seq();
    if t.node.key == key {
      assert forall n :: n in p.Around(t.Seq()) && n.key == key ==> n == t.node;
    }
  }

  /** The root's links are those of the tree. */
  lemma Relatives(m: Memory, header: Cell, p: Path, t: Shape, s: Side, lo: int, hi: int)
    requires At(m, header, p, t, lo, hi) && t.Branch?
    ensures t.node in m && m[t.node].Kid(s) == t.Kid(s).Root() && lo < t.node.key < hi
    ensures t.Kid(s).Branch? ==> t.Kid(s).node in m && t.Kid(s).node != t.node && lo < t.Kid(s).node.key < hi
  {
    TailBounds(p, s, m, header, lo, hi);
    assert if s.Left? then t.Kid(s).In(m, p.Lo(lo), t.node.key) else t.Kid(s).In(m, t.node.key, p.Hi(hi));
  }

  lemma TailsApart(m: Memory, header: Cell, p: Path, t: Shape, lo: int, hi: int)
    requires At(m, header, p, t, lo, hi) && t.Branch?
    ensures t.node in m && p.Tail(Left) != t.node && p.Tail(Right) != t.node
    ensures p.Tail(Left) != null ==> p.Tail(Left) in m
    ensures p.Tail(Right) != null ==> p.Tail(Right) in m
    ensures m[t.node] == Cell(t.left.Root(), t.right.Root())
  {
    TailBounds(p, Left, m, header, lo, hi);
    TailBounds(p, Right, m, header, lo, hi);
  }
}
