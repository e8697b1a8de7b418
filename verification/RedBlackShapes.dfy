/**
  The node links of 3rd/libuv/include/uv/tree.h and the trees they spell out.

  Every half of a red-black routine in tree.h is written twice, once for each side. Here the
  side is a value, and the two halves are the two instances of one text.
*/
module RedBlackShapes {
  import opened Sides

  /** A tree element with its RB_ENTRY. The key is the element's rank in the order of cmp. */
  class Node {
    var left: Node?
    var right: Node?
    var parent: Node?
    var red: bool
    const key: int

    constructor (key: int)
      ensures this.key == key
    {
      this.key := key;
    }

    function Kid(s: Side): Node?
      reads this
    {
      if s.Left? then left else right
    }
  }

  /** The four RB_ENTRY fields of one node. */
  datatype Cell = Cell(left: Node?, right: Node?, parent: Node?, red: bool) {
    function Kid(s: Side): Node? { if s.Left? then left else right }

    function WithKid(s: Side, kid: Node?): Cell {
      if s.Left? then this.(left := kid) else this.(right := kid)
    }
  }

  type Memory = map<Node, Cell>

  /** A red-black tree as a value; In says that a memory holds exactly this tree. */
  datatype Shape = Leaf | Branch(left: Shape, node: Node, red: bool, right: Shape) {
    ghost function Root(): Node? { if Leaf? then null else node }

    ghost function Kid(s: Side): Shape
      requires Branch?
    {
      if s.Left? then left else right
    }

    /** The links below parent are this tree's, parent links mirror child links, keys ascend. */
    ghost predicate In(m: Memory, parent: Node?, lo: int, hi: int) {
      match this
      case Leaf => true
      case Branch(l, n, red, r) =>
        && n in m && m[n] == Cell(l.Root(), r.Root(), parent, red)
        && lo < n.key < hi && l.In(m, n, lo, n.key) && r.In(m, n, n.key, hi)
    }

    ghost function Seq(): seq<Node> {
      match this
      case Leaf => []
      case Branch(l, n, _, r) => l.Seq() + [n] + r.Seq()
    }

    ghost predicate Red() { Branch? && red }

    /** Every path from here to a leaf has h black nodes. */
    ghost predicate Black(h: int) {
      match this
      case Leaf => h == 0
      case Branch(l, _, red, r) =>
        var below := if red then h else h - 1;
        0 <= below && l.Black(below) && r.Black(below)
    }

    /** No red node has a red child. */
    ghost predicate Calm() {
      match this
      case Leaf => true
      case Branch(l, _, red, r) => l.Calm() && r.Calm() && (red ==> !l.Red() && !r.Red())
    }

    ghost function Height(): nat {
      match this
      case Leaf => 0
      case Branch(l, _, _, r) => 1 + if l.Height() < r.Height() then r.Height() else l.Height()
    }

    ghost function BlackHeight(): nat {
      match this
      case Leaf => 0
      case Branch(l, _, red, _) => l.BlackHeight() + if red then 0 else 1
    }

    ghost predicate RedBlack() {
      Black(BlackHeight()) && Calm() && !Red()
    }
  }

  /** near is the subtree on side s. */
  ghost function Join(s: Side, near: Shape, n: Node, red: bool, far: Shape): Shape {
    if s.Left? then Branch(near, n, red, far) else Branch(far, n, red, near)
  }

  lemma JoinColors(s: Side, near: Shape, n: Node, red: bool, far: Shape, h: int)
    ensures Join(s, near, n, red, far).Calm() <==>
            near.Calm() && far.Calm() && (red ==> !near.Red() && !far.Red())
    ensures var below := if red then h else h - 1;
            Join(s, near, n, red, far).Black(h) <==> 0 <= below && near.Black(below) && far.Black(below)
  {
  }

  lemma JoinSeq(s: Side, near: Shape, n: Node, red: bool, far: Shape)
    ensures Join(s, near, n, red, far).Seq() ==
            if s.Left? then near.Seq() + [n] + far.Seq() else far.Seq() + [n] + near.Seq()
  {
  }

  /** What surrounds a subtree: the way from it up to the root. The hole is on the given side of node. */
  datatype Path = Top | Under(up: Path, node: Node, red: bool, side: Side, sibling: Shape) {
    ghost function Parent(): Node? { if Top? then null else node }

    ghost function Lo(lo: int): int {
      if Top? then lo else if side.Left? then up.Lo(lo) else node.key
    }

    ghost function Hi(hi: int): int {
      if Top? then hi else if side.Left? then node.key else up.Hi(hi)
    }

    ghost predicate In(m: Memory, root: Node?, hole: Node?, lo: int, hi: int) {
      match this
      case Top => root == hole
      case Under(up, n, red, side, sib) =>
        && n in m
        && m[n] == Cell(if side.Left? then hole else sib.Root(), if side.Left? then sib.Root() else hole, up.Parent(), red)
        && up.Lo(lo) < n.key < up.Hi(hi)
        && (if side.Left? then sib.In(m, n, n.key, up.Hi(hi)) else sib.In(m, n, up.Lo(lo), n.key))
        && up.In(m, root, n, lo, hi)
    }

    ghost function Plug(t: Shape): Shape {
      match this
      case Top => t
      case Under(up, n, red, side, sib) => up.Plug(Join(side, t, n, red, sib))
    }

    ghost function Before(): seq<Node> {
      match this
      case Top => []
      case Under(up, n, _, side, sib) => if side.Left? then up.Before() else up.Before() + sib.Seq() + [n]
    }

    ghost function After(): seq<Node> {
      match this
      case Top => []
      case Under(up, n, _, side, sib) => if side.Left? then [n] + sib.Seq() + up.After() else up.After()
    }

    /** The whole in-order sequence, given the hole's part of it. */
    ghost function Around(middle: seq<Node>): seq<Node> { Before() + middle + After() }

    /** A subtree of black height h in the hole makes all paths of the whole tree equally black. */
    ghost predicate Black(h: int) {
      match this
      case Top => true
      case Under(up, _, red, _, sib) => 0 <= h && sib.Black(h) && up.Black(if red then h else h + 1)
    }

    /** The whole tree has no red node under a red one if the hole's root is red as told. */
    ghost predicate Calm(hole: bool) {
      match this
      case Top => true
      case Under(up, _, red, _, sib) => sib.Calm() && (red ==> !hole && !sib.Red()) && up.Calm(red)
    }

    ghost predicate RootBlack() {
      match this
      case Top => true
      case Under(up, _, red, _, _) => if up.Top? then !red else up.RootBlack()
    }

    ghost function Depth(): nat { if Top? then 0 else 1 + up.Depth() }
  }

  /** Memory m with this root holds p.Plug(t), and t's own part hangs at the hole of p. */
  ghost predicate At(m: Memory, root: Node?, p: Path, t: Shape, lo: int, hi: int) {
    p.In(m, root, t.Root(), lo, hi) && t.In(m, p.Parent(), p.Lo(lo), p.Hi(hi))
  }

  // ---- frames: a tree only depends on the nodes with keys in its range ----

  ghost predicate SameInside(m: Memory, m': Memory, lo: int, hi: int) {
    forall n :: n in m && lo < n.key < hi ==> n in m' && m'[n] == m[n]
  }

  ghost predicate SameOutside(m: Memory, m': Memory, lo: int, hi: int) {
    forall n :: n in m && (n.key <= lo || hi <= n.key) ==> n in m' && m'[n] == m[n]
  }

  lemma {:induction false} ShapeFrame(t: Shape, m: Memory, m': Memory, parent: Node?, lo: int, hi: int)
    requires t.In(m, parent, lo, hi) && SameInside(m, m', lo, hi)
    ensures t.In(m', parent, lo, hi)
  {
    match t
    case Leaf =>
    case Branch(l, n, _, r) =>
      ShapeFrame(l, m, m', n, lo, n.key);
      ShapeFrame(r, m, m', n, n.key, hi);
  }

  lemma {:induction false} PathFrame(p: Path, m: Memory, m': Memory, root: Node?, hole: Node?, lo: int, hi: int)
    requires p.In(m, root, hole, lo, hi) && SameOutside(m, m', p.Lo(lo), p.Hi(hi))
    ensures p.In(m', root, hole, lo, hi)
  {
    match p
    case Top =>
    case Under(up, n, _, side, sib) =>
      if side.Left? {
        ShapeFrame(sib, m, m', n, n.key, up.Hi(hi));
      } else {
        ShapeFrame(sib, m, m', n, up.Lo(lo), n.key);
      }
      PathFrame(up, m, m', root, n, lo, hi);
  }

  /** Only the link to the hole changed: the path is as before, around another occupant. */
  lemma PathRelink(p: Path, m: Memory, m': Memory, root: Node?, root': Node?, hole: Node?, hole': Node?, lo: int, hi: int)
    requires p.In(m, root, hole, lo, hi)
    requires p.Top? ==> root' == hole'
    requires p.Under? ==> root' == root && p.node in m' && m'[p.node] == m[p.node].WithKid(p.side, hole')
    requires forall n :: n in m && n != p.Parent() && (n.key <= p.Lo(lo) || p.Hi(hi) <= n.key) ==> n in m' && m'[n] == m[n]
    ensures p.In(m', root', hole', lo, hi)
  {
    match p
    case Top =>
    case Under(up, n, _, side, sib) =>
      if side.Left? {
        ShapeFrame(sib, m, m', n, n.key, up.Hi(hi));
      } else {
        ShapeFrame(sib, m, m', n, up.Lo(lo), n.key);
      }
      PathFrame(up, m, m', root, n, lo, hi);
  }

  /** Only t's root cell changed, and in nothing but its parent. */
  lemma ShapeAdopt(t: Shape, m: Memory, m': Memory, parent: Node?, parent': Node?, lo: int, hi: int)
    requires t.In(m, parent, lo, hi)
    requires t.Branch? ==> t.node in m' && m'[t.node] == m[t.node].(parent := parent')
    requires forall n :: n in m && n != t.Root() && lo < n.key < hi ==> n in m' && m'[n] == m[n]
    ensures t.In(m', parent', lo, hi)
  {
    match t
    case Leaf =>
    case Branch(l, n, _, r) =>
      ShapeFrame(l, m, m', n, lo, n.key);
      ShapeFrame(r, m, m', n, n.key, hi);
  }

  // ---- moving the focus ----

  lemma Down(m: Memory, root: Node?, p: Path, t: Shape, s: Side, lo: int, hi: int) returns (p': Path)
    requires At(m, root, p, t, lo, hi) && t.Branch?
    ensures p' == Under(p, t.node, t.red, s, t.Kid(s.Other()))
    ensures At(m, root, p', t.Kid(s), lo, hi)
  {
    p' := Under(p, t.node, t.red, s, t.Kid(s.Other()));
  }

  lemma Up(m: Memory, root: Node?, p: Path, t: Shape, lo: int, hi: int) returns (t': Shape)
    requires At(m, root, p, t, lo, hi) && p.Under?
    ensures t' == Join(p.side, t, p.node, p.red, p.sibling)
    ensures At(m, root, p.up, t', lo, hi)
  {
    t' := Join(p.side, t, p.node, p.red, p.sibling);
  }

  lemma {:induction false} PlugIn(m: Memory, root: Node?, p: Path, t: Shape, lo: int, hi: int)
    requires At(m, root, p, t, lo, hi)
    ensures At(m, root, Top, p.Plug(t), lo, hi)
    decreases p
  {
    if p.Under? {
      var t' := Up(m, root, p, t, lo, hi);
      PlugIn(m, root, p.up, t', lo, hi);
    }
  }

  lemma AroundUp(p: Path, t: Shape)
    requires p.Under?
    ensures p.Around(t.Seq()) == p.up.Around(Join(p.side, t, p.node, p.red, p.sibling).Seq())
  {
    var b, m, a, n, o := p.up.Before(), t.Seq(), p.up.After(), [p.node], p.sibling.Seq();
    if p.side.Left? {
      assert b + m + (n + o + a) == b + (m + n + o) + a;
    } else {
      assert (b + o + n) + m + a == b + (o + n + m) + a;
    }
  }

  lemma {:induction false} PlugSeq(p: Path, t: Shape)
    ensures p.Plug(t).Seq() == p.Around(t.Seq())
  {
    if p.Under? {
      AroundUp(p, t);
      PlugSeq(p.up, Join(p.side, t, p.node, p.red, p.sibling));
    }
  }

  /** The root lies outside the range of any proper subtree. */
  lemma {:induction false} RootOutside(p: Path, m: Memory, root: Node?, hole: Node?, lo: int, hi: int)
    requires p.In(m, root, hole, lo, hi) && p.Under?
    ensures root != null && root in m && (root.key <= p.Lo(lo) || p.Hi(hi) <= root.key)
  {
    if p.up.Under? {
      RootOutside(p.up, m, root, p.node, lo, hi);
    }
  }
}
