/** The node links of the splay trees of 3rd/libuv/include/uv/tree.h and the trees they spell out. */
module SplayShapes {
  import opened Sides

  /** A tree element with its SPLAY_ENTRY. The key is the element's rank in the order of cmp. */
  class Node {
    var left: Node?
    var right: Node?
    const key: int

    constructor (key: int)
      ensures this.key == key && left == null && right == null
    {
      this.key := key;
      left, right := null, null;
    }

    function Kid(s: Side): Node?
      reads this
    {
      if s.Left? then left else right
    }

    method SetKid(s: Side, n: Node?)
      modifies this
      ensures Kid(s) == n && Kid(s.Other()) == old(Kid(s.Other()))
    {
      if s.Left? {
        left := n;
      } else {
        right := n;
      }
    }
  }

  datatype Cell = Cell(left: Node?, right: Node?) {
    function Kid(s: Side): Node? { if s.Left? then left else right }

    function WithKid(s: Side, kid: Node?): Cell {
      if s.Left? then this.(left := kid) else this.(right := kid)
    }
  }

  type Memory = map<Node, Cell>

  /** A search tree as a value; In says that a memory holds exactly this tree, its keys between lo and hi. */
  datatype Shape = Leaf | Branch(left: Shape, node: Node, right: Shape) {
    ghost function Root(): Node? { if Leaf? then null else node }

    ghost function Kid(s: Side): Shape
      requires Branch?
    {
      if s.Left? then left else right
    }

    ghost predicate In(m: Memory, lo: int, hi: int) {
      match this
      case Leaf => true
      case Branch(l, n, r) =>
        && n in m && m[n] == Cell(l.Root(), r.Root())
        && lo < n.key < hi && l.In(m, lo, n.key) && r.In(m, n.key, hi)
    }

    ghost function Seq(): seq<Node> {
      match this
      case Leaf => []
      case Branch(l, n, r) => l.Seq() + [n] + r.Seq()
    }
  }

  /** near is the subtree on side s. */
  ghost function Join(s: Side, near: Shape, n: Node, far: Shape): Shape {
    if s.Left? then Branch(near, n, far) else Branch(far, n, near)
  }

  /**
    What a top-down splay has cut off so far, the newest piece first: when the search went to side s of
    node, node and its other subtree were linked to the tree that collects the pieces of that side.
  */
  datatype Path = Top | Under(up: Path, side: Side, node: Node, far: Shape) {
    ghost function Lo(lo: int): int {
      if Top? then lo else if side.Left? then up.Lo(lo) else node.key
    }

    ghost function Hi(hi: int): int {
      if Top? then hi else if side.Left? then node.key else up.Hi(hi)
    }

    /** The newest piece of a side, null while there is none. */
    ghost function Tail(s: Side): Node? {
      if Top? then null else if side == s then node else up.Tail(s)
    }

    /** The pieces of each side are chained from the header's cell, and what the last one links to does not matter yet. */
    ghost predicate In(m: Memory, header: Cell, lo: int, hi: int) {
      match this
      case Top => true
      case Under(up, s, n, far) =>
        && n in m && up.Lo(lo) < n.key < up.Hi(hi)
        && LinkOf(m, header, up.Tail(s), s) == n && m[n].Kid(s.Other()) == far.Root()
        && (if s.Left? then far.In(m, n.key, up.Hi(hi)) else far.In(m, up.Lo(lo), n.key))
        && up.In(m, header, lo, hi)
    }

    ghost function Before(): seq<Node> {
      match this
      case Top => []
      case Under(up, s, n, far) => if s.Left? then up.Before() else up.Before() + far.Seq() + [n]
    }

    ghost function After(): seq<Node> {
      match this
      case Top => []
      case Under(up, s, n, far) => if s.Left? then [n] + far.Seq() + up.After() else up.After()
    }

    ghost function Around(middle: seq<Node>): seq<Node> { Before() + middle + After() }

    /** The tree of the pieces of side s, with inner at its tail. */
    ghost function Hang(s: Side, inner: Shape): Shape {
      match this
      case Top => inner
      case Under(up, e, n, far) => up.Hang(s, if e == s then Join(s, inner, n, far) else inner)
    }
  }

  ghost predicate SameInside(m: Memory, m': Memory, lo: int, hi: int) {
    forall n :: n in m && lo < n.key < hi ==> n in m' && m'[n] == m[n]
  }

  ghost predicate SameOutside(m: Memory, m': Memory, lo: int, hi: int) {
    forall n :: n in m && (n.key <= lo || hi <= n.key) ==> n in m' && m'[n] == m[n]
  }

  lemma {:induction false} ShapeFrame(t: Shape, m: Memory, m': Memory, lo: int, hi: int)
    requires t.In(m, lo, hi) && SameInside(m, m', lo, hi)
    ensures t.In(m', lo, hi)
  {
    match t
    case Leaf =>
    case Branch(l, n, r) =>
      ShapeFrame(l, m, m', lo, n.key);
      ShapeFrame(r, m, m', n.key, hi);
  }

  lemma {:induction false} Widen(t: Shape, m: Memory, lo: int, hi: int, lo': int, hi': int)
    requires t.In(m, lo, hi) && lo' <= lo && hi <= hi'
    ensures t.In(m, lo', hi')
  {
    if t.Branch? {
      Widen(t.left, m, lo, t.node.key, lo', t.node.key);
      Widen(t.right, m, t.node.key, hi, t.node.key, hi');
    }
  }

  lemma {:induction false} ShapeRange(t: Shape, m: Memory, lo: int, hi: int)
    requires t.In(m, lo, hi)
    ensures forall n :: n in t.Seq() ==> n in m && lo < n.key < hi
  {
    if t.Branch? {
      ShapeRange(t.left, m, lo, t.node.key);
      ShapeRange(t.right, m, t.node.key, hi);
    }
  }

  /** What the newest piece of a side, or the header in its stead, links to. */
  ghost function LinkOf(m: Memory, header: Cell, tail: Node?, s: Side): Node? {
    if tail == null then header.Kid(s) else if tail in m then m[tail].Kid(s) else null
  }

  ghost function Relinked(m: Memory, tail: Node?, s: Side, kid: Node?): Memory {
    if tail != null && tail in m then m[tail := m[tail].WithKid(s, kid)] else m
  }

  ghost function HeaderRelinked(header: Cell, tail: Node?, s: Side, kid: Node?): Cell {
    if tail == null then header.WithKid(s, kid) else header
  }

  /** The newest piece of a side bounds the hole. */
  lemma {:induction false} TailBounds(p: Path, s: Side, m: Memory, header: Cell, lo: int, hi: int)
    requires p.In(m, header, lo, hi)
    ensures lo <= p.Lo(lo) && p.Hi(hi) <= hi
    ensures var t := p.Tail(s); t != null ==> t in m && lo < t.key < hi && (t.key <= p.Lo(lo) || p.Hi(hi) <= t.key)
  {
    if p.Under? {
      TailBounds(p.up, s, m, header, lo, hi);
    }
  }

  /** The pieces do not depend on the nodes of the hole. */
  lemma {:induction false} PathFrame(p: Path, m: Memory, m': Memory, header: Cell, lo: int, hi: int)
    requires p.In(m, header, lo, hi) && SameOutside(m, m', p.Lo(lo), p.Hi(hi))
    ensures p.In(m', header, lo, hi)
  {
    if p.Under? {
      if p.side.Left? {
        ShapeFrame(p.far, m, m', p.node.key, p.up.Hi(hi));
      } else {
        ShapeFrame(p.far, m, m', p.up.Lo(lo), p.node.key);
      }
      TailBounds(p.up, p.side, m, header, lo, hi);
      PathFrame(p.up, m, m', header, lo, hi);
    }
  }

  lemma FarFrame(p: Path, m: Memory, m': Memory, header: Cell, lo: int, hi: int)
    requires p.Under? && p.In(m, header, lo, hi)
    requires if p.side.Left? then SameInside(m, m', p.node.key, p.up.Hi(hi)) else SameInside(m, m', p.up.Lo(lo), p.node.key)
    ensures if p.side.Left? then p.far.In(m', p.node.key, p.up.Hi(hi)) else p.far.In(m', p.up.Lo(lo), p.node.key)
  {
    if p.side.Left? {
      ShapeFrame(p.far, m, m', p.node.key, p.up.Hi(hi));
    } else {
      ShapeFrame(p.far, m, m', p.up.Lo(lo), p.node.key);
    }
  }

  lemma RelinkNewest(p: Path, m: Memory, kid: Node?, header: Cell, lo: int, hi: int)
    requires p.Under? && p.In(m, header, lo, hi)
    ensures p.In(Relinked(m, p.node, p.side, kid), header, lo, hi)
  {
    var m' := Relinked(m, p.node, p.side, kid);
    TailBounds(p.up, p.side, m, header, lo, hi);
    FarFrame(p, m, m', header, lo, hi);
    PathFrame(p.up, m, m', header, lo, hi);
  }

  /** Where the tail of a side links to does not matter to the pieces. */
  lemma {:induction false} PathRelink(p: Path, m: Memory, s: Side, kid: Node?, header: Cell, lo: int, hi: int)
    requires p.In(m, header, lo, hi)
    ensures p.In(Relinked(m, p.Tail(s), s, kid), HeaderRelinked(header, p.Tail(s), s, kid), lo, hi)
  {
    if p.Under? && p.side == s {
      RelinkNewest(p, m, kid, header, lo, hi);
    } else if p.Under? {
      var m' := Relinked(m, p.Tail(s), s, kid);
      TailBounds(p.up, s, m, header, lo, hi);
      FarFrame(p, m, m', header, lo, hi);
      PathRelink(p.up, m, s, kid, header, lo, hi);
    }
  }
}
