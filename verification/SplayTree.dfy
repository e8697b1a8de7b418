/** The top-down splay tree of 3rd/libuv/include/uv/tree.h on linked nodes. */
module SplayTree {
  import opened Sequences
  import opened Sides
  import opened SplayShapes
  import opened SplaySteps
  import opened SplayEdits

  ghost function MemoryOf(ns: set<Node>): Memory
    reads ns
  {
    map n | n in ns :: Cell(n.left, n.right)
  }

  class Tree {
    var root: Node?
    ghost var nodes: set<Node>
    ghost var lo: int
    ghost var hi: int
    ghost var shape: Shape

    constructor ()
      ensures Valid() && Contents() == []
    {
      root, nodes, shape := null, {}, Leaf;
    }

    ghost predicate Valid()
      reads this, nodes
    {
      && root == shape.Root() && shape.In(MemoryOf(nodes), lo, hi)
      && (forall n :: n in nodes ==> n in shape.Seq())
      && (forall n :: n in shape.Seq() ==> n in nodes)
    }

    /** The elements in the order of cmp. */
    ghost function Contents(): seq<Node>
      reads this`shape
    {
      shape.Seq()
    }

    /** A splay at work: t is at the root, p is cut off. */
    ghost predicate Working(ns: set<Node>, header: Node, p: Path, t: Shape, lo: int, hi: int)
      reads this`root, ns, header
    {
      header !in ns && root == t.Root() && At(MemoryOf(ns), Cell(header.left, header.right), p, t, lo, hi)
    }

    // SPLAY_ROTATE_RIGHT (s == Left) and SPLAY_ROTATE_LEFT (s == Right).
    method RotateLinks(tmp: Node, s: Side, ghost ns: set<Node>)
      requires root != null && root in ns && tmp in ns && tmp != root
      modifies this`root, ns
      ensures root == tmp && Rotates(old(MemoryOf(ns)), MemoryOf(ns), old(root), tmp, s)
    {
      if s.Left? {
        root.left := tmp.right;
        tmp.right := root;
      } else {
        root.right := tmp.left;
        tmp.left := root;
      }
      root := tmp;
    }

    method Rotate(tmp: Node, s: Side, ghost ns: set<Node>, header: Node, ghost p: Path, ghost t: Shape, ghost lo: int, ghost hi: int)
      requires Working(ns, header, p, t, lo, hi) && t.Branch? && t.Kid(s).Root() == tmp
      modifies this`root, ns
      ensures Working(ns, header, p, Turned(s, t), lo, hi) && root == tmp
      ensures SameOutside(old(MemoryOf(ns)), MemoryOf(ns), lo, hi)
    {
      ghost var m, h := MemoryOf(ns), Cell(header.left, header.right);
      Relatives(m, h, p, t, s, lo, hi);
      RotateLinks(tmp, s, ns);
      Rotated(m, MemoryOf(ns), h, p, t, s, lo, hi);
    }

    // SPLAY_LINKLEFT (s == Left, tail == right) and SPLAY_LINKRIGHT (s == Right, tail == left).
    method Link(tail0: Node, s: Side, ghost ns: set<Node>, header: Node, ghost p: Path, ghost t: Shape, ghost lo: int, ghost hi: int)
      returns (tail: Node)
      requires Working(ns, header, p, t, lo, hi) && t.Branch? && Tail(tail0, s, header, p)
      modifies this`root, ns, header
      ensures Working(ns, header, Cut(p, t, s), t.Kid(s), lo, hi) && tail == old(root)
      ensures SameOutside(old(MemoryOf(ns)), MemoryOf(ns), lo, hi)
    {
      ghost var m, h := MemoryOf(ns), Cell(header.left, header.right);
      TailBounds(p, s, m, h, lo, hi);
      Relatives(m, h, p, t, s, lo, hi);
      tail0.SetKid(s, root);
      tail := root;
      root := root.Kid(s);
      assert MemoryOf(ns) == Relinked(m, p.Tail(s), s, tail);
      Linked(m, h, p, t, s, lo, hi);
    }
  
    /** The pointer that SPLAY keeps to the newest piece. */
    ghost predicate Tail(tail: Node, s: Side, header: Node, p: Path) { tail == if p.Tail(s) == null then header else p.Tail(s) }

    // The first two assignments of SPLAY_ASSEMBLE; a and b are the newest pieces, null for the header.
    method LinkTails(header: Node, left: Node, right: Node, ghost ns: set<Node>, ghost a: Node?, ghost b: Node?)
      requires root != null && root in ns && header !in ns && a != header && b != header
      requires left == (if a == null then header else a) && right == if b == null then header else b
      requires left in ns + {header} && right in ns + {header} && left != root && right != root
      modifies ns, header
      ensures MemoryOf(ns) == old(Relinked(Relinked(MemoryOf(ns), a, Right, root.left), b, Left, root.right))
      ensures header.right == if a == null then old(root.left) else old(header.right)
      ensures header.left == if b == null then old(root.right) else old(header.left)
      ensures root.left == old(root.left) && root.right == old(root.right)
    {
      left.right := root.left;
      right.left := root.right;
    }

    // The last two assignments.
    method LinkRoot(header: Node, ghost ns: set<Node>)
      requires root != null && root in ns && header !in ns
      modifies ns
      ensures MemoryOf(ns) == old(MemoryOf(ns))[root := Cell(header.right, header.left)]
    {
      root.left := header.right;
      root.right := header.left;
    }

    // SPLAY_ASSEMBLE.
    method Assemble(header: Node, left: Node, right: Node, ghost ns: set<Node>, ghost p: Path, ghost t: Shape, ghost lo: int, ghost hi: int)
      requires Working(ns, header, p, t, lo, hi) && t.Branch? && Tail(left, Right, header, p) && Tail(right, Left, header, p)
      modifies ns, header
      ensures Assembly(p, t).In(MemoryOf(ns), lo, hi)
      ensures SameOutside(old(MemoryOf(ns)), MemoryOf(ns), lo, hi)
    {
      ghost var m, h := MemoryOf(ns), Cell(header.left, header.right);
      TailsApart(m, h, p, t, lo, hi);
      LinkTails(header, left, right, ns, p.Tail(Right), p.Tail(Left));
      LinkRoot(header, ns);
      Assembled(m, MemoryOf(ns), h, p, t, lo, hi);
    }

    /** The key belongs to side s of the tree t. */
    ghost predicate Towards(key: int, t: Shape, s: Side) {
      t.Branch? && if s.Left? then key < t.node.key else key > t.node.key
    }

    // The part of the loop of SPLAY in front of the link: a rotation if the search goes on to the same side.
    method Turn(key: int, s: Side, tmp: Node, header: Node, ghost ns: set<Node>, ghost p: Path, ghost t0: Shape, ghost lo: int, ghost hi: int)
      returns (stop: bool, ghost t: Shape)
      requires Working(ns, header, p, t0, lo, hi) && Towards(key, t0, s) && t0.Kid(s).Root() == tmp
      modifies this`root, ns
      ensures Working(ns, header, p, t, lo, hi) && Towards(key, t, s) && t.Seq() == t0.Seq()
      ensures stop <==> t.Kid(s).Leaf?
      ensures SameOutside(old(MemoryOf(ns)), MemoryOf(ns), lo, hi)
    {
      t := t0;
      Relatives(MemoryOf(ns), Cell(header.left, header.right), p, t, s, lo, hi);
      if if s.Left? then key < tmp.key else key > tmp.key {
        TurnedSeq(s, t);
        Rotate(tmp, s, ns, header, p, t, lo, hi);
        t := Turned(s, t);
        Relatives(MemoryOf(ns), Cell(header.left, header.right), p, t, s, lo, hi);
        if root.Kid(s) == null {
          return true, t;
        }
      }
      stop := false;
    }

    // The loop of SPLAY.
    method Descend(key: int, header: Node, ghost ns: set<Node>, ghost t0: Shape, ghost lo: int, ghost hi: int)
      returns (left: Node, right: Node, ghost p: Path, ghost t: Shape)
      requires Working(ns, header, Top, t0, lo, hi) && t0.Branch? && lo < key < hi
      modifies this`root, ns, header
      ensures Working(ns, header, p, t, lo, hi) && t.Branch? && p.Around(t.Seq()) == t0.Seq()
      ensures Tail(left, Right, header, p) && Tail(right, Left, header, p)
      ensures p.Lo(lo) < key < p.Hi(hi)
      ensures key < t.node.key ==> t.left.Leaf?
      ensures key > t.node.key ==> t.right.Leaf?
      ensures SameOutside(old(MemoryOf(ns)), MemoryOf(ns), lo, hi)
    {
      left, right, p, t := header, header, Top, t0;
      while key != root.key
        invariant Working(ns, header, p, t, lo, hi) && t.Branch? && p.Around(t.Seq()) == t0.Seq()
        invariant Tail(left, Right, header, p) && Tail(right, Left, header, p)
        invariant p.Lo(lo) < key < p.Hi(hi)
        invariant SameOutside(old(MemoryOf(ns)), MemoryOf(ns), lo, hi)
        decreases |t.Seq()|
      {
        var s := if key < root.key then Left else Right;
        Relatives(MemoryOf(ns), Cell(header.left, header.right), p, t, s, lo, hi);
        var tmp := root.Kid(s);
        if tmp == null {
          break;
        }
        var stop;
        stop, t := Turn(key, s, tmp, header, ns, p, t, lo, hi);
        if stop {
          break;
        }
        CutAround(p, t, s);
        if s.Left? {
          right := Link(right, s, ns, header, p, t, lo, hi);
        } else {
          left := Link(left, s, ns, header, p, t, lo, hi);
        }
        p, t := Cut(p, t, s), t.Kid(s);
      }
    }

    // SPLAY of the tree at the root, which may be a part of the whole.
    method Splay(key: int, ghost t0: Shape, ghost lo: int, ghost hi: int) returns (ghost t: Shape)
      requires root == t0.Root() && t0.Branch? && t0.In(MemoryOf(nodes), lo, hi) && lo < key < hi
      modifies this`root, nodes
      ensures root == t.Root() && t.Branch? && t.In(MemoryOf(nodes), lo, hi)
      ensures t.Seq() == t0.Seq() && Nearest(t.Seq(), t.node, key)
      ensures SameOutside(old(MemoryOf(nodes)), MemoryOf(nodes), lo, hi)
    {
      var header := new Node(0);
      var left, right;
      ghost var p;
      left, right, p, t := Descend(key, header, nodes, t0, lo, hi);
      Stops(MemoryOf(nodes), Cell(header.left, header.right), p, t, key, lo, hi);
      AssemblySeq(p, t);
      Assemble(header, left, right, nodes, p, t, lo, hi);
      t := Assembly(p, t);
    }
  
    /** A splay of the whole tree. */
    method SplayAll(key: int)
      requires Valid() && root != null
      modifies this, nodes
      ensures Valid() && nodes == old(nodes) && Contents() == old(Contents())
      ensures root != null && Nearest(Contents(), root, key) && lo < key < hi
    {
      ghost var a, b := if key <= lo then key - 1 else lo, if hi <= key then key + 1 else hi;
      Widen(shape, MemoryOf(nodes), lo, hi, a, b);
      lo, hi := a, b;
      shape := Splay(key, shape, lo, hi);
    }

    // SPLAY_FIND.
    method Find(key: int) returns (found: Node?)
      requires Valid()
      modifies this, nodes
      ensures Valid() && nodes == old(nodes) && Contents() == old(Contents())
      ensures found == null ==> forall n :: n in nodes ==> n.key != key
      ensures found != null ==> found in nodes && found.key == key && found == root
    {
      if root == null {
        return null;
      }
      SplayAll(key);
      return if key == root.key then root else null;
    }

    // The links that SPLAY_INSERT writes behind the splay, on the side s of the root where the element belongs.
    method PutLinks(elm: Node, s: Side)
      requires root != null && root in nodes && elm !in nodes
      modifies nodes, elm
      ensures MemoryOf(nodes + {elm}) ==
              old(MemoryOf(nodes)[elm := if s.Left? then Cell(root.left, root) else Cell(root, root.right)]
                                 [root := Cell(root.left, root.right).WithKid(s, null)])
    {
      if s.Left? {
        elm.left := root.left;
        elm.right := root;
        root.left := null;
      } else {
        elm.right := root.right;
        elm.left := root;
        root.right := null;
      }
    }

    method PutOnTop(elm: Node, s: Side)
      requires Valid() && root != null && Nearest(Contents(), root, elm.key) && lo < elm.key < hi
      requires if s.Left? then elm.key < root.key else elm.key > root.key
      modifies this, nodes, elm
      ensures Valid() && nodes == old(nodes) + {elm} && Adds(old(Contents()), Contents(), elm) && root == elm
    {
      ghost var m, t := MemoryOf(nodes), shape;
      NotMember(elm);
      PutLinks(elm, s);
      ToppedIn(m, MemoryOf(nodes + {elm}), t, elm, s, lo, hi);
      ToppedSeq(t, elm, s);
      nodes, shape, root := nodes + {elm}, Topped(t, elm, s), elm;
    }

    lemma NotMember(elm: Node)
      requires Valid() && root != null && Nearest(Contents(), root, elm.key) && elm.key != root.key
      ensures elm !in nodes && forall n :: n in nodes ==> n.key != elm.key
    {
    }

    // SPLAY_INSERT into an empty tree.
    method InsertFirst(elm: Node)
      requires Valid() && root == null
      modifies this, elm
      ensures Valid() && nodes == {elm} && Contents() == [elm] && root == elm
    {
      elm.left, elm.right := null, null;
      root := elm;
      nodes, shape, lo, hi := {elm}, Branch(Leaf, elm, Leaf), elm.key - 1, elm.key + 1;
    }

    // SPLAY_INSERT.
    method Insert(elm: Node) returns (dup: Node?)
      requires Valid()
      modifies this, nodes, elm
      ensures Valid()
      ensures dup != null ==> dup in old(nodes) && dup.key == elm.key && nodes == old(nodes) && Contents() == old(Contents())
      ensures dup == null ==> forall n :: n in old(nodes) ==> n.key != elm.key
      ensures dup == null ==> nodes == old(nodes) + {elm} && Adds(old(Contents()), Contents(), elm) && root == elm
    {
      if root == null {
        InsertFirst(elm);
        AddsMiddle<Node>([], elm, []);
        assert [] + [elm] + [] == [elm] && [] + [] == old(Contents());
        return null;
      }
      SplayAll(elm.key);
      if elm.key < root.key {
        NotMember(elm);
        PutOnTop(elm, Left);
      } else if elm.key > root.key {
        NotMember(elm);
        PutOnTop(elm, Right);
      } else {
        return root;
      }
      return null;
    }

    /** The root and its subtrees, whose nodes are on their sides. */
    lemma RootSplit(m: Memory)
      requires Valid() && root != null && m == MemoryOf(nodes)
      ensures shape.Branch? && root == shape.node && root in nodes && lo < root.key < hi
      ensures root.left == shape.left.Root() && root.right == shape.right.Root()
      ensures shape.left.In(m, lo, root.key) && shape.right.In(m, root.key, hi)
      ensures Drops(Contents(), shape.left.Seq() + shape.right.Seq(), root)
    {
      DropsMiddle(shape.left.Seq(), shape.node, shape.right.Seq());
    }

    // The part of SPLAY_REMOVE that brings the last element of the left subtree to the top.
    method SplayLeft(key: int, ghost l0: Shape, ghost r: Shape) returns (tmp: Node?, ghost l: Shape)
      requires root != null && root in nodes && root.left != null && root.left == l0.Root() && root.right == r.Root()
      requires l0.In(MemoryOf(nodes), lo, key) && r.In(MemoryOf(nodes), key, hi) && lo < key < hi
      modifies this`root, nodes
      ensures root == l.Root() && l.Branch? && l.right.Leaf? && l.Seq() == l0.Seq() && tmp == r.Root()
      ensures l.In(MemoryOf(nodes), lo, key) && r.In(MemoryOf(nodes), key, hi)
    {
      tmp := root.right;
      root := root.left;
      ghost var m := MemoryOf(nodes);
      ShapeRange(l0, m, lo, key);
      Widen(l0, m, lo, key, lo, key + 1);
      l := Splay(key, l0, lo, key + 1);
      Narrowed(m, MemoryOf(nodes), l, r, key, lo, hi);
    }

    method LinkRight(tmp: Node?, key: int, ghost l: Shape, ghost r: Shape) returns (ghost t: Shape)
      requires root == l.Root() && l.Branch? && l.right.Leaf? && tmp == r.Root()
      requires l.In(MemoryOf(nodes), lo, key) && r.In(MemoryOf(nodes), key, hi) && key < hi
      modifies nodes
      ensures root == t.Root() && t.In(MemoryOf(nodes), lo, hi) && t.Seq() == l.Seq() + r.Seq()
    {
      ghost var m := MemoryOf(nodes);
      root.right := tmp;
      assert MemoryOf(nodes) == m[root := m[root].(right := tmp)];
      t := Branch(l.left, l.node, r);
      Merged(m, MemoryOf(nodes), l, r, key, lo, hi);
      MergedSeq(l, r);
    }

    /** The removed element is forgotten. */
    ghost method Settle(t: Shape, gone: Node, m0: Memory)
      requires shape.In(m0, lo, hi) && root == t.Root() && t.In(MemoryOf(nodes), lo, hi) && Drops(shape.Seq(), t.Seq(), gone)
      requires forall n :: n in nodes ==> n in shape.Seq()
      requires forall n :: n in shape.Seq() ==> n in nodes
      modifies this`nodes, this`shape
      ensures Valid() && nodes == old(nodes) - {gone} && shape == t
    {
      ghost var m := MemoryOf(nodes);
      Removed(m, shape, t, gone, m0, lo, hi);
      nodes, shape := nodes - {gone}, t;
      assert MemoryOf(nodes) == m - {gone};
    }

    // The root has no left subtree.
    method TakeRight(ghost r: Shape)
      requires root != null && root in nodes && root.right == r.Root() && r.In(MemoryOf(nodes), root.key, hi) && lo < root.key
      modifies this`root
      ensures root == r.Root() && r.In(MemoryOf(nodes), lo, hi)
    {
      Widen(r, MemoryOf(nodes), root.key, hi, lo, hi);
      root := root.right;
    }

    // The root's subtrees become one tree.
    method MergeKids(ghost l: Shape, ghost r: Shape) returns (ghost t: Shape)
      requires root != null && root in nodes && root.left == l.Root() && root.right == r.Root() && lo < root.key < hi
      requires l.In(MemoryOf(nodes), lo, root.key) && r.In(MemoryOf(nodes), root.key, hi)
      modifies this`root, nodes
      ensures root == t.Root() && t.In(MemoryOf(nodes), lo, hi) && t.Seq() == l.Seq() + r.Seq()
    {
      var key := root.key;
      if root.left == null {
        assert [] + r.Seq() == r.Seq();
        TakeRight(r);
        t := r;
      } else {
        ghost var l';
        var tmp;
        tmp, l' := SplayLeft(key, l, r);
        t := LinkRight(tmp, key, l', r);
      }
    }

    method RemoveRoot()
      requires Valid() && root != null
      modifies this, nodes
      ensures Valid() && nodes == old(nodes - {root}) && Drops(old(Contents()), Contents(), old(root))
    {
      ghost var m, gone := MemoryOf(nodes), root;
      RootSplit(m);
      ghost var t := MergeKids(shape.left, shape.right);
      Settle(t, gone, m);
    }

    // SPLAY_REMOVE. Whoever is equal to elm is removed, and elm is returned.
    method Remove(elm: Node) returns (r: Node?)
      requires Valid()
      modifies this, nodes
      ensures Valid()
      ensures r == null ==> nodes == old(nodes) && Contents() == old(Contents()) && forall n :: n in nodes ==> n.key != elm.key
      ensures r != null ==> r == elm
      ensures r != null ==> exists gone :: gone in old(nodes) && gone.key == elm.key && nodes == old(nodes) - {gone}
                                           && Drops(old(Contents()), Contents(), gone)
      ensures elm in old(nodes) ==> r == elm && nodes == old(nodes) - {elm} && Drops(old(Contents()), Contents(), elm)
    {
      if root == null {
        return null;
      }
      SplayAll(elm.key);
      if elm.key == root.key {
        RemoveRoot();
        return elm;
      }
      NotMember(elm);
      return null;
    }
  }
}
