/** RB_INSERT, RB_REMOVE and the look-ups of 3rd/libuv/include/uv/tree.h on linked nodes. */
module RedBlackTree {
  import opened Powers
  import opened Sequences
  import opened Sides
  import opened RedBlackShapes
  import opened RedBlackRotations
  import opened RedBlackMembers
  import opened RedBlackInsertion
  import opened RedBlackRemoval
  import opened RedBlackGraft

  class Tree {
    var root: Node?
    ghost var nodes: set<Node>
    ghost var lo: int
    ghost var hi: int
    ghost var shape: Shape

    constructor ()
      ensures Valid() && Contents() == []
    {
      root, nodes, shape := null, {}, Leaf;
    }

    ghost predicate Valid()
      reads this, nodes
    {
      && Focus(Top, shape) && shape.RedBlack()
      && (forall n :: n in nodes ==> n in shape.Seq())
      && (forall n :: n in shape.Seq() ==> n in nodes)
    }

    ghost function Contents(): seq<Node>
      reads this
    {
      shape.Seq()
    }

    ghost function Memory(): Memory
      reads this`nodes, nodes
    {
      map n | n in nodes :: Cell(n.left, n.right, n.parent, n.red)
    }

    ghost predicate Focus(p: Path, t: Shape)
      reads this`root, this`nodes, this`lo, this`hi, nodes
    {
      At(Memory(), root, p, t, lo, hi)
    }

    // RB_ROTATE_LEFT (s == Left) and RB_ROTATE_RIGHT (s == Right).
    method RotateLinks(elm: Node, s: Side)
      requires CanRotate(Memory(), elm, s)
      modifies this`root, nodes
      ensures Rotates(old(Memory()), Memory(), old(root), root, elm, old(elm.Kid(s.Other())), s)
    {
      if s.Left? {
        var tmp := elm.right;
        elm.right := tmp.left;
        if elm.right != null {
          tmp.left.parent := elm;
        }
        tmp.parent := elm.parent;
        if tmp.parent != null {
          if elm == elm.parent.left {
            elm.parent.left := tmp;
          } else {
            elm.parent.right := tmp;
          }
        } else {
          root := tmp;
        }
        tmp.left := elm;
        elm.parent := tmp;
      } else {
        var tmp := elm.left;
        elm.left := tmp.right;
        if elm.left != null {
          tmp.right.parent := elm;
        }
        tmp.parent := elm.parent;
        if tmp.parent != null {
          if elm == elm.parent.left {
            elm.parent.left := tmp;
          } else {
            elm.parent.right := tmp;
          }
        } else {
          root := tmp;
        }
        tmp.right := elm;
        elm.parent := tmp;
      }
    }

    method Rotate(elm: Node, s: Side, ghost p: Path, ghost a: Shape, ghost b: Shape, ghost low: Shape, ghost red: bool)
      requires low.Branch? && Focus(p, Join(s, a, elm, red, low)) && b == low.Kid(s)
      modifies this`root, nodes
      ensures Focus(p, Join(s, Join(s, a, elm, red, b), low.node, low.red, low.Kid(s.Other())))
    {
      ghost var m, r := Memory(), root;
      MayRotate(m, r, p, s, a, elm, red, b, low.node, low.red, low.Kid(s.Other()), lo, hi);
      RotateLinks(elm, s);
      Rotated(m, Memory(), r, root, p, s, a, elm, red, b, low.node, low.red, low.Kid(s.Other()), lo, hi);
    }

    method Paint(n: Node, red: bool, ghost p: Path, ghost t: Shape)
      requires Focus(p, t) && t.Branch? && t.node == n
      modifies nodes
      ensures Focus(p, t.(red := red))
    {
      ghost var m := Memory();
      Neighbours(m, root, p, t, lo, hi);
      n.red := red;
      assert Memory() == m[n := m[n].(red := red)];
      Painted(m, Memory(), root, p, t, red, lo, hi);
    }

    method PaintParent(n: Node, red: bool, ghost p: Path, ghost t: Shape)
      requires Focus(p, t) && p.Under? && p.node == n
      modifies nodes
      ensures Focus(p.(red := red), t)
    {
      ghost var whole := Up(Memory(), root, p, t, lo, hi);
      Paint(n, red, p.up, whole);
      ghost var q := Down(Memory(), root, p.up, whole.(red := red), p.side, lo, hi);
    }

    method PaintSibling(n: Node, red: bool, ghost p: Path, ghost t: Shape)
      requires Focus(p, t) && p.Under? && p.sibling.Branch? && p.sibling.node == n
      modifies nodes
      ensures Focus(p.(sibling := p.sibling.(red := red)), t)
    {
      ghost var whole := Up(Memory(), root, p, t, lo, hi);
      ghost var q := Down(Memory(), root, p.up, whole, p.side.Other(), lo, hi);
      Paint(n, red, q, p.sibling);
      whole := Up(Memory(), root, q, p.sibling.(red := red), lo, hi);
      q := Down(Memory(), root, p.up, whole, p.side, lo, hi);
    }

    method PaintGrandparent(n: Node, red: bool, ghost p: Path, ghost t: Shape)
      requires Focus(p, t) && p.Under? && p.up.Under? && p.up.node == n
      modifies nodes
      ensures Focus(p.(up := p.up.(red := red)), t)
    {
      ghost var whole := Up(Memory(), root, p, t, lo, hi);
      PaintParent(n, red, p.up, whole);
      ghost var q := Down(Memory(), root, p.up.(red := red), whole, p.side, lo, hi);
    }

    // The RB_INSERT_COLOR loop body under a red uncle.
    method PushRedUp(parent: Node, gparent: Node, uncle: Node, ghost p: Path, ghost t: Shape) returns (ghost t': Shape)
      requires Focus(p, t) && p.Under? && p.node == parent && p.up.Under? && p.up.node == gparent
      requires p.up.sibling.Branch? && p.up.sibling.node == uncle
      modifies nodes
      ensures t' == PushedUp(p, t) && Focus(p.up.up, t')
    {
      ghost var q := p.up;
      ghost var u := Up(Memory(), root, p, t, lo, hi);
      PaintSibling(uncle, false, q, u);
      q := q.(sibling := q.sibling.(red := false));
      Paint(parent, false, q, u);
      u := u.(red := false);
      PaintParent(gparent, true, q, u);
      t' := Up(Memory(), root, q.(red := true), u, lo, hi);
    }

    // The rotation of RB_INSERT_COLOR that turns an inner grandchild into an outer one.
    method TurnOut(parent: Node, s: Side, ghost p: Path, ghost t: Shape) returns (ghost p': Path, ghost t': Shape)
      requires Focus(p, t) && t.Branch? && p.Under? && p.node == parent && p.side == s.Other()
      modifies this`root, nodes
      ensures p' == Under(p.up, t.node, t.red, p.side.Other(), t.Kid(p.side))
      ensures t' == Join(p.side.Other(), p.sibling, parent, p.red, t.Kid(p.side.Other()))
      ensures Focus(p', t')
    {
      ghost var a, b := p.sibling, t.Kid(s);
      ghost var whole := Up(Memory(), root, p, t, lo, hi);
      Rotate(parent, s, p.up, a, b, t, p.red);
      whole := Join(s, Join(s, a, parent, p.red, b), t.node, t.red, t.Kid(s.Other()));
      p' := Down(Memory(), root, p.up, whole, s, lo, hi);
      t' := Join(s, a, parent, p.red, b);
    }

    // The last step of RB_INSERT_COLOR: an outer grandchild's parent takes the grandparent's place.
    method TurnUp(parent: Node, gparent: Node, s: Side, ghost p: Path, ghost t: Shape) returns (ghost p': Path)
      requires Focus(p, t) && p.Under? && p.node == parent && p.side == s
      requires p.up.Under? && p.up.node == gparent && p.up.side == s
      modifies this`root, nodes
      ensures p' == TurnedUp(p) && Focus(p', t)
    {
      PaintParent(parent, false, p, t);
      PaintGrandparent(gparent, true, p.(red := false), t);
      var o := s.Other();
      ghost var top := p.up.up;
      ghost var q := p.(red := false, up := p.up.(red := true));
      ghost var par := Up(Memory(), root, q, t, lo, hi);
      ghost var whole := Up(Memory(), root, q.up, par, lo, hi);
      assert whole == Join(o, p.up.sibling, gparent, true, par) && par == Join(o, p.sibling, parent, false, t);
      Rotate(gparent, o, top, p.up.sibling, p.sibling, par, true);
      ghost var low := Join(s, p.sibling, gparent, true, p.up.sibling);
      p' := Down(Memory(), root, top, Join(s, t, parent, false, low), s, lo, hi);
    }

    // One round of the RB_INSERT_COLOR loop.
    method InsertRound(elm0: Node, ghost p0: Path, ghost t0: Shape, ghost h0: int)
      returns (elm: Node, ghost p: Path, ghost t: Shape, ghost h: int)
      requires Focus(p0, t0) && t0.Root() == elm0 && Inserting(p0, t0, h0) && p0.Under? && p0.red
      modifies this`root, nodes
      ensures Focus(p, t) && t.Root() == elm && Inserting(p, t, h) && p.Depth() < p0.Depth()
      ensures p.Around(t.Seq()) == p0.Around(t0.Seq())
    {
      assert p0.up.Under?;
      Family(Memory(), root, p0, t0, lo, hi);
      elm, p, t, h := elm0, p0, t0, h0;
      var parent := elm.parent;
      var gparent := parent.parent;
      var s := if parent == gparent.left then Left else Right;
      var tmp := gparent.Kid(s.Other());
      if tmp != null && tmp.red {
        PushedUpInserting(p, t, h);
        PushedUpSeq(p, t);
        t := PushRedUp(parent, gparent, tmp, p, t);
        elm, p, h := gparent, p.up.up, h + 1;
      } else {
        if parent.Kid(s.Other()) == elm {
          TurnedOutInserting(p, t, h);
          TurnedOutSeq(p, t);
          p, t := TurnOut(parent, s, p, t);
          parent, elm := elm, parent;
        }
        TurnedUpInserting(p, t, h);
        TurnedUpSeq(p, t);
        p := TurnUp(parent, gparent, s, p, t);
      }
    }

    method InsertColor(elm0: Node, ghost p0: Path, ghost t0: Shape, ghost h0: int) returns (ghost shape: Shape)
      requires Focus(p0, t0) && t0.Root() == elm0 && Inserting(p0, t0, h0)
      modifies this`root, nodes
      ensures Focus(Top, shape) && shape.RedBlack()
      ensures shape.Seq() == p0.Around(t0.Seq())
    {
      var elm := elm0;
      ghost var p, t, h := p0, t0, h0;
      Neighbours(Memory(), root, p, t, lo, hi);
      while elm.parent != null && elm.parent.red
        invariant Focus(p, t) && t.Root() == elm && Inserting(p, t, h)
        invariant elm.parent == p.Parent() && (p.Under? ==> p.node.red == p.red)
        invariant p.Around(t.Seq()) == p0.Around(t0.Seq())
        decreases p.Depth()
      {
        elm, p, t, h := InsertRound(elm, p, t, h);
        Neighbours(Memory(), root, p, t, lo, hi);
      }
      PlugIn(Memory(), root, p, t, lo, hi);
      PlugSeq(p, t);
      shape := p.Plug(t);
      Settled(p, t, h);
      Paint(root, false, Top, shape);
      shape := shape.(red := false);
    }

    // The search loop of RB_INSERT: an element with the same key, or the place for a new one.
    method Search(key: int) returns (found: Node?, parent: Node?, side: Side, ghost p: Path, ghost rounds: nat)
      requires Valid() && lo < key < hi
      ensures rounds <= shape.Height()
      ensures found != null ==> found in nodes && found.key == key
      ensures found == null ==> Focus(p, Leaf) && p.Parent() == parent && (p.Under? ==> p.side == side)
      ensures found == null ==> p.Around([]) == Contents() && p.Lo(lo) < key < p.Hi(hi)
      ensures found == null ==> p.Black(0) && p.Calm(false) && p.RootBlack()
    {
      var tmp := root;
      ghost var t, h := shape, shape.BlackHeight();
      p, parent, side, found, rounds := Top, null, Left, null, 0;
      while tmp != null
        invariant rounds + t.Height() <= shape.Height()
        invariant Focus(p, t) && t.Root() == tmp && p.Parent() == parent && (p.Under? ==> p.side == side)
        invariant p.Around(t.Seq()) == Contents() && p.Lo(lo) < key < p.Hi(hi)
        invariant Descending(p, t, h)
        decreases t
      {
        rounds := rounds + 1;
        Neighbours(Memory(), root, p, t, lo, hi);
        parent := tmp;
        if key < tmp.key {
          tmp, side := tmp.left, Left;
        } else if key > tmp.key {
          tmp, side := tmp.right, Right;
        } else {
          return tmp, parent, side, p, rounds;
        }
        h := DescendingDown(p, t, h, side);
        p := Down(Memory(), root, p, t, side, lo, hi);
        t := t.Kid(side);
        AroundUp(p, t);
      }
    }

    // RB_SET and the link from the parent.
    method Attach(elm: Node, parent: Node?, side: Side, ghost p: Path) returns (ghost t: Shape)
      requires Focus(p, Leaf) && p.Parent() == parent && (p.Under? ==> p.side == side)
      requires elm !in nodes && p.Lo(lo) < elm.key < p.Hi(hi)
      modifies this`root, this`nodes, nodes, elm
      ensures nodes == old(nodes) + {elm}
      ensures t == Branch(Leaf, elm, true, Leaf) && Focus(p, t)
    {
      ghost var m, r := Memory(), root;
      Neighbours(m, root, p, Leaf, lo, hi);
      elm.parent := parent;
      elm.left, elm.right := null, null;
      elm.red := true;
      if parent != null {
        if side.Left? {
          parent.left := elm;
        } else {
          parent.right := elm;
        }
      } else {
        root := elm;
      }
      nodes := nodes + {elm};
      t := Branch(Leaf, elm, true, Leaf);
      assert Memory()[elm] == Cell(null, null, parent, true);
      PathRelink(p, m, Memory(), r, root, null, elm, lo, hi);
      LoneIn(Memory(), elm, parent, p.Lo(lo), p.Hi(hi));
      assert p.In(Memory(), root, elm, lo, hi);
    }

    static lemma LoneIn(m: Memory, n: Node, parent: Node?, lo: int, hi: int)
      requires n in m && m[n] == Cell(null, null, parent, true) && lo < n.key < hi
      ensures Branch(Leaf, n, true, Leaf).In(m, parent, lo, hi)
    {
      assert Leaf.In(m, n, lo, n.key) && Leaf.In(m, n, n.key, hi) && Leaf.Root() == null;
    }

    // What RB_INSERT does once it has found the place.
    method Place(elm: Node, parent: Node?, side: Side, ghost p: Path)
      requires Focus(p, Leaf) && p.Parent() == parent && (p.Under? ==> p.side == side)
      requires elm !in nodes && p.Lo(lo) < elm.key < p.Hi(hi)
      requires p.Black(0) && p.Calm(false) && p.RootBlack()
      requires forall n :: n in nodes ==> n in p.Around([])
      requires forall n :: n in p.Around([]) ==> n in nodes
      modifies this, nodes, elm
      ensures Valid() && nodes == old(nodes) + {elm} && Contents() == p.Around([elm])
    {
      ghost var t := Attach(elm, parent, side, p);
      assert t.Seq() == [elm];
      AddsAround(p, elm);
      shape := InsertColor(elm, p, t, 0);
      assert Focus(Top, shape);
    }

    // RB_INSERT.
    method Insert(elm: Node) returns (dup: Node?)
      requires Valid()
      modifies this, nodes, elm
      ensures Valid()
      ensures dup != null ==> dup in old(nodes) && dup.key == elm.key
      ensures dup != null ==> root == old(root) && nodes == old(nodes) && Contents() == old(Contents())
                              && Memory() == old(Memory()) && unchanged(elm)
      ensures dup == null ==> (forall n :: n in old(nodes) ==> n.key != elm.key)
      ensures dup == null ==> nodes == old(nodes) + {elm} && Adds(old(Contents()), Contents(), elm)
    {
      MakeRoom(elm.key);
      ghost var m := Memory();
      var parent, side;
      ghost var p, rounds;
      dup, parent, side, p, rounds := Search(elm.key);
      if dup == null {
        NotThere(p, m, root, lo, hi, elm.key);
        AddsAround(p, elm);
        Place(elm, parent, side, p);
      }
    }

    // The bounds of the keys are auxiliary.
    ghost method MakeRoom(key: int)
      requires Valid()
      modifies this`lo, this`hi
      ensures Valid() && lo < key < hi
    {
      ghost var lo', hi' := if key <= lo then key - 1 else lo, if hi <= key then key + 1 else hi;
      Widen(shape, Memory(), null, lo, hi, lo', hi');
      lo, hi := lo', hi';
    }

    // RB_REMOVE_COLOR, red sibling: it takes the parent's place.
    method RaiseSibling(tmp: Node, parent: Node, s: Side, ghost p: Path, ghost t: Shape)
      requires Focus(p, t) && p.Under? && p.node == parent && p.side == s && p.sibling.Root() == tmp
      modifies this`root, nodes
      ensures Focus(SiblingRaised(p), t)
    {
      PaintSibling(tmp, false, p, t);
      ghost var q := p.(sibling := p.sibling.(red := false));
      PaintParent(parent, true, q, t);
      q := q.(red := true);
      ghost var near, far := p.sibling.Kid(s), p.sibling.Kid(s.Other());
      ghost var whole := Up(Memory(), root, q, t, lo, hi);
      Rotate(parent, s, p.up, t, near, q.sibling, true);
      whole := Join(s, Join(s, t, parent, true, near), tmp, false, far);
      q := Down(Memory(), root, p.up, whole, s, lo, hi);
      q := Down(Memory(), root, q, Join(s, t, parent, true, near), s, lo, hi);
    }

    // RB_REMOVE_COLOR, red near nephew: it takes the sibling's place.
    method RaiseNephew(tmp: Node, nephew: Node, s: Side, ghost p: Path, ghost t: Shape)
      requires Focus(p, t) && p.Under? && p.side == s && p.sibling.Root() == tmp && p.sibling.Kid(s).Root() == nephew
      modifies this`root, nodes
      ensures Focus(NephewRaised(p), t)
    {
      ghost var near, far := p.sibling.Kid(s), p.sibling.Kid(s.Other());
      ghost var whole := Up(Memory(), root, p, t, lo, hi);
      ghost var q := Down(Memory(), root, p.up, whole, s.Other(), lo, hi);
      ghost var r := Down(Memory(), root, q, p.sibling, s, lo, hi);
      Paint(nephew, false, r, near);
      PaintParent(tmp, true, r, near.(red := false));
      whole := Up(Memory(), root, r.(red := true), near.(red := false), lo, hi);
      Rotate(tmp, s.Other(), q, far, near.Kid(s.Other()), near.(red := false), true);
      ghost var sib := NephewRaised(p).sibling;
      whole := Up(Memory(), root, q, sib, lo, hi);
      q := Down(Memory(), root, p.up, whole, s, lo, hi);
    }

    // RB_REMOVE_COLOR, red far nephew: the last rotation.
    method Repair(tmp: Node, parent: Node, nephew: Node, s: Side, ghost p: Path, ghost t: Shape)
      requires Focus(p, t) && p.Under? && p.node == parent && p.side == s && p.sibling.Root() == tmp
      requires p.sibling.Kid(s.Other()).Root() == nephew
      modifies this`root, nodes
      ensures Focus(p.up, Repaired(p, t))
    {
      Kin(Memory(), root, p, t, lo, hi);
      ghost var near, far := p.sibling.Kid(s), p.sibling.Kid(s.Other());
      PaintSibling(tmp, parent.red, p, t);
      ghost var q := p.(sibling := p.sibling.(red := p.red));
      PaintParent(parent, false, q, t);
      q := q.(red := false);
      ghost var whole := Up(Memory(), root, q, t, lo, hi);
      ghost var r := Down(Memory(), root, q.up, whole, s.Other(), lo, hi);
      ghost var f := Down(Memory(), root, r, q.sibling, s.Other(), lo, hi);
      Paint(nephew, false, f, far);
      ghost var sib := Up(Memory(), root, f, far.(red := false), lo, hi);
      whole := Up(Memory(), root, r, sib, lo, hi);
      Rotate(parent, s, p.up, t, near, sib, false);
    }

    static predicate IsBlack(n: Node?)
      reads n
    {
      n == null || !n.red
    }

    // RB_REMOVE_COLOR, black nephews: the trouble moves up to the parent.
    method ReddenSibling(tmp: Node, ghost p: Path, ghost t: Shape, ghost h: int) returns (ghost t': Shape, ghost h': int)
      requires Focus(p, t) && Removing(p, t, h) && !t.Red() && p.Under?
      requires p.sibling.Root() == tmp && !p.sibling.red && !p.sibling.left.Red() && !p.sibling.right.Red()
      modifies nodes
      ensures Focus(p.up, t') && Removing(p.up, t', h') && t'.Root() == p.node && t'.red == p.red
      ensures p.up.Around(t'.Seq()) == p.Around(t.Seq())
    {
      SiblingReddenedRemoving(p, t, h);
      SiblingReddenedSeq(p, t);
      PaintSibling(tmp, true, p, t);
      t', h' := SiblingReddened(p, t), if p.red then h else h + 1;
      ghost var whole := Up(Memory(), root, p.(sibling := p.sibling.(red := true)), t, lo, hi);
    }

    // The branch of RB_REMOVE_COLOR that ends in break.
    method RemoveLast(parent: Node, tmp: Node, s: Side, ghost p0: Path, ghost t: Shape, ghost h: int)
      returns (ghost shape: Shape)
      requires Focus(p0, t) && Removing(p0, t, h) && !t.Red()
      requires p0.Under? && p0.node == parent && p0.side == s && p0.sibling.Root() == tmp && !p0.sibling.red
      requires p0.sibling.left.Red() || p0.sibling.right.Red()
      modifies this`root, nodes
      ensures Focus(Top, shape) && shape.Seq() == p0.Around(t.Seq()) && shape.RedBlack()
    {
      ghost var p := p0;
      Kin(Memory(), root, p, t, lo, hi);
      var sib := tmp;
      if IsBlack(tmp.Kid(s.Other())) {
        NephewRaisedRemoving(p, t, h);
        NephewRaisedSeq(p, t);
        sib := tmp.Kid(s);
        RaiseNephew(tmp, sib, s, p, t);
        p := NephewRaised(p);
        Kin(Memory(), root, p, t, lo, hi);
      }
      RepairedRedBlack(p, t, h);
      RepairedSeq(p, t);
      Repair(sib, parent, sib.Kid(s.Other()), s, p, t);
      PlugIn(Memory(), root, p.up, Repaired(p, t), lo, hi);
      PlugSeq(p.up, Repaired(p, t));
      shape := p.up.Plug(Repaired(p, t));
    }

    method RedNephew(tmp: Node, ghost p: Path, ghost t: Shape) returns (r: bool)
      requires Focus(p, t) && p.Under? && p.sibling.Root() == tmp
      ensures r <==> p.sibling.left.Red() || p.sibling.right.Red()
    {
      Kin(Memory(), root, p, t, lo, hi);
      assert IsBlack(tmp.left) <==> !p.sibling.left.Red();
      assert IsBlack(tmp.right) <==> !p.sibling.right.Red();
      r := !IsBlack(tmp.left) || !IsBlack(tmp.right);
    }

    // The part of an RB_REMOVE_COLOR round after the sibling is known to be black.
    method RemoveBelowBlack(parent: Node, tmp: Node, s: Side, ghost p0: Path, ghost t0: Shape, ghost h0: int)
      returns (done: bool, ghost p: Path, ghost t: Shape, ghost h: int)
      requires Focus(p0, t0) && Removing(p0, t0, h0) && !t0.Red()
      requires p0.Under? && p0.node == parent && p0.side == s && p0.sibling.Root() == tmp && !p0.sibling.red
      modifies this`root, nodes
      ensures Focus(p, t) && p.Around(t.Seq()) == p0.Around(t0.Seq()) && p == if done then Top else p0.up
      ensures if done then t.RedBlack() else Removing(p, t, h) && t.Root() == parent && t.red == p0.red
    {
      done := RedNephew(tmp, p0, t0);
      if done {
        t := RemoveLast(parent, tmp, s, p0, t0, h0);
        p, h := Top, 0;
      } else {
        t, h := ReddenSibling(tmp, p0, t0, h0);
        p := p0.up;
      }
    }

    // One round of the RB_REMOVE_COLOR loop; done stands for its break.
    method RemoveRound(parent: Node, elm: Node?, ghost p0: Path, ghost t0: Shape, ghost h0: int)
      returns (done: bool, ghost p: Path, ghost t: Shape, ghost h: int)
      requires Focus(p0, t0) && Removing(p0, t0, h0) && !t0.Red()
      requires p0.Under? && p0.node == parent && t0.Root() == elm
      modifies this`root, nodes
      ensures Focus(p, t) && p.Around(t.Seq()) == p0.Around(t0.Seq())
      ensures done ==> p == Top && t.RedBlack()
      ensures !done ==> Removing(p, t, h) && t.Root() == parent && (t.red || p.Depth() < p0.Depth())
    {
      ghost var q := p0;
      SiblingThere(q, t0, h0);
      Kin(Memory(), root, q, t0, lo, hi);
      var s := if parent.left == elm then Left else Right;
      var tmp := parent.Kid(s.Other());
      if tmp.red {
        SiblingRaisedRemoving(q, t0, h0);
        SiblingRaisedSeq(q, t0);
        RaiseSibling(tmp, parent, s, q, t0);
        q := SiblingRaised(q);
        Kin(Memory(), root, q, t0, lo, hi);
        tmp := parent.Kid(s.Other());
      }
      done, p, t, h := RemoveBelowBlack(parent, tmp, s, q, t0, h0);
    }

    // RB_REMOVE_COLOR.
    method RemoveColor(parent0: Node?, elm0: Node?, ghost p0: Path, ghost t0: Shape, ghost h0: int)
      returns (ghost shape: Shape)
      requires Focus(p0, t0) && Removing(p0, t0, h0) && p0.Parent() == parent0 && t0.Root() == elm0
      modifies this`root, nodes
      ensures Focus(Top, shape) && shape.RedBlack() && shape.Seq() == p0.Around(t0.Seq())
    {
      var parent, elm := parent0, elm0;
      ghost var p, t, h, done := p0, t0, h0, false;
      Facing(Memory(), root, p, t, lo, hi);
      while IsBlack(elm) && elm != root
        invariant Focus(p, t) && Removing(p, t, h) && p.Parent() == parent && t.Root() == elm
        invariant p.Around(t.Seq()) == p0.Around(t0.Seq())
        invariant (elm == root <==> p.Top?) && (elm != null ==> elm.red == t.red)
        decreases if t.Red() then 0 else 1 + p.Depth()
      {
        var stop;
        stop, p, t, h := RemoveRound(parent, elm, p, t, h);
        Facing(Memory(), root, p, t, lo, hi);
        if stop {
          elm := root;
          done := true;
          break;
        }
        elm := parent;
        parent := elm.parent;
      }
      if !done {
        RemovedRedBlack(p, t, h);
      }
      shape := PaintLast(elm, p, t);
    }

    // The line after the loop of RB_REMOVE_COLOR.
    method PaintLast(elm: Node?, ghost p: Path, ghost t: Shape) returns (ghost shape: Shape)
      requires Focus(p, t) && t.Root() == elm && p.Plug(Blackened(t)).RedBlack()
      modifies nodes
      ensures Focus(Top, shape) && shape.RedBlack() && shape.Seq() == p.Around(t.Seq())
    {
      PlugSeq(p, Blackened(t));
      if elm != null {
        Paint(elm, false, p, t);
      }
      PlugIn(Memory(), root, p, Blackened(t), lo, hi);
      shape := p.Plug(Blackened(t));
    }

    // Hangs child, elm's only child or NULL, where elm was.
    method UnlinkLinks(elm: Node, child: Node?)
      requires CanUnlink(Memory(), elm, child)
      modifies this`root, nodes
      ensures Unlinks(old(Memory()), Memory(), old(root), root, elm, child)
    {
      var parent := elm.parent;
      if child != null {
        child.parent := parent;
      }
      if parent != null {
        if parent.left == elm {
          parent.left := child;
        } else {
          parent.right := child;
        }
      } else {
        root := child;
      }
    }

    method Unlink(elm: Node, child: Node?, ghost p: Path, ghost t: Shape, ghost c: Shape)
      requires Focus(p, t) && t.Root() == elm && c.Root() == child
      requires (t.left == Leaf && c == t.right) || (t.right == Leaf && c == t.left)
      modifies this`root, nodes
      ensures Focus(p, c) && Unlinks(old(Memory()), Memory(), old(root), root, elm, child)
    {
      ghost var m, r := Memory(), root;
      MayUnlink(m, r, p, t, c, lo, hi);
      UnlinkLinks(elm, child);
      Unlinked(m, Memory(), r, root, p, t, c, lo, hi);
    }

    // Lets elm, unlinked before, take the place and the colour of removed.
    method ReplaceLinks(removed: Node, elm: Node)
      requires CanReplace(Memory(), removed, elm)
      modifies this`root, nodes
      ensures Replaces(old(Memory()), Memory(), old(root), root, removed, elm)
    {
      elm.left, elm.right, elm.parent, elm.red := removed.left, removed.right, removed.parent, removed.red;
      if removed.parent != null {
        if removed.parent.left == removed {
          removed.parent.left := elm;
        } else {
          removed.parent.right := elm;
        }
      } else {
        root := elm;
      }
      removed.left.parent := elm;
      if removed.right != null {
        removed.right.parent := elm;
      }
    }

    method Replace(removed: Node, elm: Node, ghost p: Path, ghost t: Shape)
      requires Focus(p, t) && t.Root() == removed && t.left.Branch? && elm in nodes
      requires removed.key < elm.key < p.Hi(hi) && t.right.In(Memory(), removed, elm.key, p.Hi(hi))
      modifies this`root, nodes
      ensures Focus(p, t.(node := elm))
    {
      ghost var m, r := Memory(), root;
      MayReplace(m, r, p, t, elm, lo, hi);
      ReplaceLinks(removed, elm);
      Replaced(m, Memory(), r, root, p, t, elm, lo, hi);
    }

    // RB_REMOVE up to its label, for an element with a free side.
    method RemoveOuter(elm: Node, child: Node?, ghost p: Path, ghost t: Shape, ghost c: Shape, ghost h: int)
      returns (ghost k: int)
      requires Focus(p, t) && Descending(p, t, h) && t.Root() == elm && c.Root() == child
      requires (t.left == Leaf && c == t.right) || (t.right == Leaf && c == t.left)
      modifies this`root, nodes
      ensures Focus(p, c) && Taken(p, c, k, t.red) && Drops(p.Around(t.Seq()), p.Around(c.Seq()), elm)
    {
      k := TakenColors(p, t, c, h);
      TakenOuterSeq(p, t, c);
      Unlink(elm, child, p, t, c);
    }

    // The loop of RB_REMOVE that walks to the successor.
    method Successor(removed: Node, ghost p: Path, ghost t: Shape, ghost h: int)
      returns (elm: Node, ghost inner: Path, ghost u: Shape, ghost o: Path, ghost k: int)
      requires Focus(p, t) && Descending(p, t, h) && t.Root() == removed && t.right.Branch?
      ensures AtSuccessor(p, t, inner, u, o) && u.node == elm
      ensures Focus(Graft(inner, o), u) && Descending(Graft(inner, o), u, k)
    {
      Neighbours(Memory(), root, p, t, lo, hi);
      elm := removed.right;
      o := Down(Memory(), root, p, t, Right, lo, hi);
      k := DescendingDown(p, t, h, Right);
      inner, u := Top, t.right;
      Neighbours(Memory(), root, o, u, lo, hi);
      while elm.left != null
        invariant u.Root() == elm && elm in nodes && elm.left == u.left.Root()
        invariant inner.Before() == [] && inner.Plug(u) == t.right
        invariant Focus(Graft(inner, o), u) && Descending(Graft(inner, o), u, k)
        decreases u
      {
        ghost var q := Down(Memory(), root, Graft(inner, o), u, Left, lo, hi);
        k := DescendingDown(Graft(inner, o), u, k, Left);
        elm := elm.left;
        inner, u := Under(inner, u.node, u.red, Left, u.right), u.left;
        assert q == Graft(inner, o);
        Neighbours(Memory(), root, q, u, lo, hi);
      }
    }

    // RB_REMOVE up to its label, for an element with two children: its successor takes its place.
    method RemoveInner(removed: Node, ghost p: Path, ghost t: Shape, ghost h: int)
      returns (parent: Node, child: Node?, red: bool, ghost q: Path, ghost c: Shape, ghost k: int)
      requires Focus(p, t) && Descending(p, t, h) && t.Root() == removed && t.left.Branch? && t.right.Branch?
      modifies this`root, nodes
      ensures Focus(q, c) && Taken(q, c, k, red) && q.Parent() == parent && c.Root() == child
      ensures Drops(p.Around(t.Seq()), q.Around(c.Seq()), removed)
    {
      var elm;
      ghost var inner, u, o;
      elm, inner, u, o, k := Successor(removed, p, t, h);
      c := u.right;
      ghost var from := Graft(inner, o);
      Neighbours(Memory(), root, from, u, lo, hi);
      child, parent, red := elm.right, elm.parent, elm.red;
      k := TakenInner(p, t, inner, u, o, k);
      TakenInnerSeq(p, t, inner, u, o);
      SuccessorKeys(Memory(), p, t, inner, u, o, p.Hi(hi));
      Unlink(elm, child, from, u, c);
      if elm.parent == removed {
        parent := elm;
      }
      TakePlace(removed, elm, p, t, inner, u, o);
      q := Graft(inner, o.(node := elm));
    }

    method TakePlace(removed: Node, elm: Node, ghost p: Path, ghost t: Shape, ghost inner: Path, ghost u: Shape, ghost o: Path)
      requires AtSuccessor(p, t, inner, u, o) && u.node == elm && t.node == removed && t.left.Branch? && elm in nodes
      requires Focus(Graft(inner, o), u.right) && Ascending(t.right.Seq()) && removed.key < elm.key < p.Hi(hi)
      modifies this`root, nodes
      ensures Focus(Graft(inner, o.(node := elm)), u.right)
    {
      GraftUp(Memory(), root, inner, o, u.right, lo, hi);
      ghost var whole := Up(Memory(), root, o, inner.Plug(u.right), lo, hi);
      TakenRange(Memory(), inner, u, removed, removed.key, p.Hi(hi));
      Replace(removed, elm, p, whole);
      ghost var o' := Down(Memory(), root, p, whole.(node := elm), Right, lo, hi);
      GraftDown(Memory(), root, inner, o', u.right, lo, hi);
    }

    // RB_REMOVE up to its label.
    method TakeOut(elm: Node, ghost p: Path, ghost t: Shape, ghost h: int)
      returns (parent: Node?, child: Node?, red: bool, ghost q: Path, ghost c: Shape, ghost k: int)
      requires Focus(p, t) && Descending(p, t, h) && t.Root() == elm
      modifies this`root, nodes
      ensures Focus(q, c) && Taken(q, c, k, red) && q.Parent() == parent && c.Root() == child
      ensures Drops(p.Around(t.Seq()), q.Around(c.Seq()), elm)
    {
      Neighbours(Memory(), root, p, t, lo, hi);
      q := p;
      if elm.left == null {
        parent, child, red, c := elm.parent, elm.right, elm.red, t.right;
        k := RemoveOuter(elm, child, p, t, c, h);
      } else if elm.right == null {
        parent, child, red, c := elm.parent, elm.left, elm.red, t.left;
        k := RemoveOuter(elm, child, p, t, c, h);
      } else {
        parent, child, red, q, c, k := RemoveInner(elm, p, t, h);
      }
    }

    // RB_REMOVE.
    method Remove(elm: Node) returns (removed: Node)
      requires Valid() && elm in nodes
      modifies this, nodes
      ensures Valid() && removed == elm
      ensures nodes == old(nodes) - {elm} && Drops(old(Contents()), Contents(), elm)
    {
      removed := elm;
      ghost var p, t, h := LocateMember(Memory(), root, shape, elm, lo, hi);
      var parent, child, red;
      ghost var q, c, k;
      parent, child, red, q, c, k := TakeOut(elm, p, t, h);
      DropsFrom(Contents(), q.Around(c.Seq()), elm);
      ghost var left := Recolor(parent, child, red, q, c, k);
      Release(elm, left);
    }

    // RB_REMOVE from its label on.
    method Recolor(parent: Node?, child: Node?, red: bool, ghost q: Path, ghost c: Shape, ghost k: int)
      returns (ghost left: Shape)
      requires Focus(q, c) && Taken(q, c, k, red) && q.Parent() == parent && c.Root() == child
      modifies this`root, nodes
      ensures Focus(Top, left) && left.RedBlack() && left.Seq() == q.Around(c.Seq())
    {
      if !red {
        left := RemoveColor(parent, child, q, c, k);
      } else {
        left := q.Plug(c);
        PluggedRedBlack(q, c, k);
        PlugIn(Memory(), root, q, c, lo, hi);
        PlugSeq(q, c);
      }
    }

    ghost method Release(elm: Node, left: Shape)
      requires Focus(Top, left) && left.RedBlack()
      requires elm !in left.Seq()
      requires forall n :: n in nodes && n != elm ==> n in left.Seq()
      requires forall n :: n in left.Seq() ==> n in nodes
      modifies this`nodes, this`shape
      ensures Valid() && nodes == old(nodes) - {elm} && shape == left
    {
      ForgetAt(Memory(), root, left, elm, lo, hi);
      ghost var m := Memory() - {elm};
      nodes, shape := nodes - {elm}, left;
      assert Memory() == m;
    }

    // RB_FIND.
    method Find(key: int) returns (found: Node?, ghost rounds: nat)
      requires Valid()
      ensures found != null ==> found in nodes && found.key == key
      ensures found == null ==> forall n :: n in nodes ==> n.key != key
      ensures rounds <= shape.Height()
    {
      var tmp := root;
      ghost var p, t := Top, shape;
      rounds := 0;
      while tmp != null
        invariant Focus(p, t) && t.Root() == tmp && p.Around(t.Seq()) == Contents() && Splits(p, key)
        invariant rounds + t.Height() <= shape.Height()
        decreases t
      {
        rounds := rounds + 1;
        Neighbours(Memory(), root, p, t, lo, hi);
        if tmp.key == key {
          return tmp, rounds;
        }
        var s := if key < tmp.key then Left else Right;
        tmp := tmp.Kid(s);
        p, t := SplitsDown(Memory(), root, p, t, s, key, lo, hi);
      }
      return null, rounds;
    }

    /** Every search takes at most 2 lg(n + 1) rounds. */
    lemma SearchBound(rounds: nat)
      requires Valid() && rounds <= shape.Height()
      ensures Pow2(rounds) <= (|Contents()| + 1) * (|Contents()| + 1)
    {
      HeightBound(shape);
      Pow2Grows(rounds, shape.Height());
    }

    // RB_NFIND: the least element not below the key.
    method NFind(key: int) returns (res: Node?, ghost rounds: nat)
      requires Valid()
      ensures rounds <= shape.Height()
      ensures res == null ==> forall n :: n in nodes ==> n.key < key
      ensures res != null ==> res in nodes && key <= res.key
      ensures res != null ==> forall n :: n in nodes && key <= n.key ==> res.key <= n.key
    {
      var tmp := root;
      ghost var p, t := Top, shape;
      res, rounds := null, 0;
      while tmp != null
        invariant rounds + t.Height() <= shape.Height()
        invariant Focus(p, t) && t.Root() == tmp && p.Around(t.Seq()) == Contents() && Splits(p, key)
        invariant if res == null then p.After() == [] else p.After() != [] && p.After()[0] == res
        decreases t
      {
        rounds := rounds + 1;
        Neighbours(Memory(), root, p, t, lo, hi);
        if tmp.key == key {
          return tmp, rounds;
        }
        var s := if key < tmp.key then Left else Right;
        if s.Left? {
          res := tmp;
        }
        tmp := tmp.Kid(s);
        p, t := SplitsDown(Memory(), root, p, t, s, key, lo, hi);
      }
      NearestAfter(p, key, res);
    }

    /** Where the search ends, the next element is the least one above the key. */
    lemma NearestAfter(p: Path, key: int, res: Node?)
      requires Valid() && Splits(p, key) && p.Around([]) == Contents()
      requires if res == null then p.After() == [] else p.After() != [] && p.After()[0] == res
      ensures if res == null then forall n :: n in nodes ==> n.key < key
              else res in nodes && key <= res.key && forall n :: n in nodes && key <= n.key ==> res.key <= n.key
    {
      ShapeAscends(shape, Memory(), null, lo, hi);
      FirstAfter(p.Before(), p.After());
    }

    // RB_NEXT: the in-order successor, found through parent links.
    method Next(elm0: Node) returns (elm: Node?)
      requires Valid() && elm0 in nodes
      ensures Follows(Contents(), elm0, elm)
    {
      ghost var p, t, h := LocateMember(Memory(), root, shape, elm0, lo, hi);
      Neighbours(Memory(), root, p, t, lo, hi);
      if elm0.right != null {
        ghost var inner, u, o, k;
        elm, inner, u, o, k := Successor(elm0, p, t, h);
        PlugSeq(inner, u);
        FollowsInner(p.Before(), t.left.Seq(), elm0, elm, u.right.Seq(), inner.After(), p.After());
      } else {
        elm := Ascend(elm0, p, t);
      }
    }

    lemma UpFromRight(p: Path, t: Shape, b: seq<Node>, x: Node) returns (t': Shape)
      requires Focus(p, t) && p.Under? && p.side.Right? && p.sibling.Seq() + [p.node] + t.Seq() == b + [x]
      ensures Focus(p.up, t') && t'.Root() == p.node && t'.Seq() == b + [x] && p.up.Around(t'.Seq()) == p.Around(t.Seq())
    {
      AroundUp(p, t);
      t' := Up(Memory(), root, p, t, lo, hi);
    }

    method Ascend(elm0: Node, ghost p0: Path, ghost t0: Shape) returns (elm: Node?)
      requires Focus(p0, t0) && t0.Root() == elm0 && t0.right == Leaf
      ensures Follows(p0.Around(t0.Seq()), elm0, elm)
    {
      elm := elm0;
      ghost var p, t, b := p0, t0, t0.left.Seq();
      SidesOf(Memory(), root, p, t, lo, hi);
      while elm.parent != null && elm == elm.parent.right
        invariant t.Root() == elm && Focus(p, t) && t.Seq() == b + [elm0]
        invariant p.Around(t.Seq()) == p0.Around(t0.Seq())
        invariant elm in nodes && elm.parent == p.Parent()
        invariant p.Under? ==> p.node in nodes && (p.node.right == elm <==> p.side.Right?)
        decreases p
      {
        elm := elm.parent;
        b := p.sibling.Seq() + [p.node] + b;
        t := UpFromRight(p, t, b, elm0);
        p := p.up;
        SidesOf(Memory(), root, p, t, lo, hi);
      }
      FollowsAround(p, b, elm0);
      elm := elm.parent;
    }
  }

  /** Everything before the hole is below the key, everything after is above it. */
  ghost predicate Splits(p: Path, key: int) {
    (forall n :: n in p.Before() ==> n.key < key) && (forall n :: n in p.After() ==> key < n.key)
  }

  lemma SplitsDown(m: Memory, root: Node?, p: Path, t: Shape, s: Side, key: int, lo: int, hi: int)
    returns (p': Path, t': Shape)
    requires At(m, root, p, t, lo, hi) && t.Branch? && Splits(p, key)
    requires if s.Left? then key < t.node.key else t.node.key < key
    ensures t' == t.Kid(s) && p' == Under(p, t.node, t.red, s, t.Kid(s.Other()))
    ensures At(m, root, p', t', lo, hi) && Splits(p', key)
    ensures p'.Around(t'.Seq()) == p.Around(t.Seq()) && t'.Height() < t.Height()
    ensures p'.After() == if s.Left? then [t.node] + t.right.Seq() + p.After() else p.After()
  {
    t' := t.Kid(s);
    p' := Down(m, root, p, t, s, lo, hi);
    AroundUp(p', t');
    if s.Left? {
      ShapeRange(t.right, m, t.node, t.node.key, p.Hi(hi));
    } else {
      ShapeRange(t.left, m, t.node, p.Lo(lo), t.node.key);
    }
  }

  lemma FirstAfter(b: seq<Node>, a: seq<Node>)
    requires Ascending(b + [] + a)
    ensures a != [] ==> forall n :: n in a ==> a[0].key <= n.key
  {
    var s := b + [] + a;
    assert forall i :: 0 <= i < |a| ==> a[i] == s[|b| + i];
  }

  /** r comes right after x in s, and is null if x is last. */
  ghost predicate Follows(s: seq<Node>, x: Node, r: Node?) {
    exists i {:trigger s[i]} :: 0 <= i < |s| && s[i] == x && r == if i + 1 < |s| then s[i + 1] else null
  }

  lemma FollowsWithin(b: seq<Node>, x: Node, r: Node, a: seq<Node>)
    ensures Follows(b + [x] + [r] + a, x, r)
  {
    var s := b + [x] + [r] + a;
    assert s[|b|] == x && s[|b| + 1] == r;
  }

  lemma FollowsInner(b: seq<Node>, l: seq<Node>, x: Node, r: Node, c: seq<Node>, i: seq<Node>, a: seq<Node>)
    ensures Follows(b + (l + [x] + ([] + ([] + [r] + c) + i)) + a, x, r)
  {
    assert [] + ([] + [r] + c) + i == [r] + (c + i);
    assert b + (l + [x] + ([r] + (c + i))) + a == (b + l) + [x] + [r] + (c + i + a);
    FollowsWithin(b + l, x, r, c + i + a);
  }

  lemma FollowsAround(p: Path, b: seq<Node>, x: Node)
    requires p.Under? ==> p.side.Left?
    ensures Follows(p.Around(b + [x]), x, p.Parent())
  {
    var s := p.Around(b + [x]);
    var i := |p.Before()| + |b|;
    assert s[i] == x;
  }

  lemma SidesOf(m: Memory, root: Node?, p: Path, t: Shape, lo: int, hi: int)
    requires At(m, root, p, t, lo, hi) && t.Branch?
    ensures t.node in m && m[t.node].parent == p.Parent()
    ensures p.Under? ==> p.node in m && (m[p.node].right == t.node <==> p.side.Right?)
  {
    Neighbours(m, root, p, t, lo, hi);
  }

  /** How the focus shows in memory. */
  lemma Facing(m: Memory, root: Node?, p: Path, t: Shape, lo: int, hi: int)
    requires At(m, root, p, t, lo, hi)
    ensures t.Root() == root <==> p.Top?
    ensures t.Branch? ==> t.node in m && m[t.node].red == t.red && m[t.node].parent == p.Parent()
  {
    Neighbours(m, root, p, t, lo, hi);
    if p.Under? {
      RootOutside(p, m, root, t.Root(), lo, hi);
    }
  }
}
