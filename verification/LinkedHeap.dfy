/** heap_insert, heap_remove and heap_dequeue of 3rd/libuv/src/heap-inl.h on linked nodes. */
module LinkedHeap {
  import opened LinkedHeapSlots
  import opened LinkedHeapOrder

  /** A struct heap_node** of the source: the root link, or one of a node's two child links. */
  datatype Link<K> = Root | LeftOf(node: Node<K>) | RightOf(node: Node<K>)

  class Heap<K(!new)> {
    var min: Node?<K>
    var nelts: nat
    const less: (K, K) -> bool
    ghost var slots: seq<Node<K>>
    ghost var nodes: set<Node<K>>

    // heap_init.
    constructor (less: (K, K) -> bool)
      requires StrictWeakOrder(less)
      ensures this.less == less && Valid() && slots == []
    {
      this.less := less;
      min, nelts, slots, nodes := null, 0, [], {};
    }

    ghost predicate Valid()
      reads this, nodes, slots
    {
      StrictWeakOrder(less) && nelts == |slots| && nodes == Members(slots) && Linked(Memory(), min, slots) && Ordered(less, Keys(slots))
    }

    ghost function Memory(): Memory<K>
      reads this`nodes, nodes
    {
      map n | n in nodes :: Links(n.left, n.right, n.parent)
    }

    static ghost function Keys(s: seq<Node<K>>): seq<K>
      reads s
    {
      seq(|s|, k requires 0 <= k < |s| reads s => s[k].key)
    }

    // heap_min.
    method Min() returns (n: Node?<K>)
      requires Valid()
      ensures n == null <==> slots == []
      ensures n != null ==> n in slots && forall x :: x in slots ==> !less(x.key, n.key)
    {
      n := min;
      forall x | x in slots ensures !less(x.key, n.key) {
        var k :| 0 <= k < |slots| && slots[k] == x;
        RootIsLeast(less, Keys(slots), k + 1);
      }
    }

    // Gives child, which may be missing, another parent.
    method Adopt(child: Node?<K>, parent: Node<K>)
      requires child == null || child in nodes
      modifies nodes`parent
      ensures Memory() == Adopted(old(Memory()), child, parent)
    {
      if child != null {
        child.parent := parent;
      }
    }

    // Lets the link from above that led to was lead to now.
    method Hang(up: Node?<K>, was: Node<K>, now: Node<K>)
      requires up == null || up in nodes
      modifies this`min, nodes`left, nodes`right
      ensures min == if up == null then now else old(min)
      ensures Memory() == Hung(old(Memory()), up, was, now)
    {
      if up == null {
        min := now;
      } else if up.left == was {
        up.left := now;
      } else {
        up.right := now;
      }
    }

    // The exchange of the two structs and the links between them.
    method Exchange(parent: Node<K>, child: Node<K>) returns (sibling: Node?<K>)
      requires parent in nodes && child in nodes && parent != child
      modifies nodes`left, nodes`right, nodes`parent
      ensures Memory() == Exchanged(old(Memory()), parent, child)
      ensures sibling == old(if parent.left == child then parent.right else parent.left)
    {
      var left, right, up := parent.left, parent.right, parent.parent;
      parent.left, parent.right, parent.parent := child.left, child.right, child.parent;
      child.left, child.right, child.parent := left, right, up;

      parent.parent := child;
      if child.left == child {
        child.left := parent;
        sibling := child.right;
      } else {
        child.right := parent;
        sibling := child.left;
      }
    }

    // The children of the two exchanged nodes get to know their new parents.
    method AdoptKids(parent: Node<K>, child: Node<K>, sibling: Node?<K>)
      requires parent in nodes && (sibling == null || sibling in nodes) && sibling != parent
      requires parent.left != null ==> parent.left in nodes && parent.left != parent
      requires parent.right != null ==> parent.right in nodes
      modifies nodes`parent
      ensures Memory() == Adopted(Adopted(Adopted(old(Memory()), sibling, child), old(parent.left), parent), old(parent.right), parent)
    {
      Adopt(sibling, child);
      Adopt(parent.left, parent);
      Adopt(parent.right, parent);
    }

    method SwapLinks(parent: Node<K>, child: Node<K>)
      requires CanSwap(Memory(), parent, child)
      modifies this`min, nodes`left, nodes`right, nodes`parent
      ensures Memory() == Relinked(old(Memory()), parent, child)
      ensures min == if old(parent.parent) == null then child else old(min)
    {
      ghost var up := parent.parent;
      var sibling := Exchange(parent, child);
      AdoptKids(parent, child, sibling);
      assert child.parent == up;
      Hang(child.parent, parent, child);
    }

    // heap_node_swap.
    method NodeSwap(parent: Node<K>, child: Node<K>, ghost i: int, ghost j: int)
      requires Linked(Memory(), min, slots) && 1 <= i < j <= |slots| && j / 2 == i
      requires parent == slots[i - 1] && child == slots[j - 1]
      modifies this`min, this`slots, nodes`left, nodes`right, nodes`parent
      ensures slots == Swapped(old(slots), i, j) && Linked(Memory(), min, slots)
      ensures Keys(slots) == SwappedKeys(old(Keys(slots)), i, j)
      ensures Members(slots) == old(Members(slots))
    {
      ghost var m, r := Memory(), min;
      MaySwap(m, r, slots, i, j);
      RelinkedSwaps(m, r, parent, child);
      SwapLinks(parent, child);
      SwappedLinked(m, Memory(), r, min, slots, i, j);
      SwappedMembers(slots, i, j);
      slots := Swapped(slots, i, j);
    }

    // The loop shared by heap_insert and heap_remove that reads the path off the node count.
    static method PathTo(count: nat) returns (path: nat, k: nat)
      requires 1 <= count < WORD
      ensures path == Path(count, k) && Shifted(count, k) == 1
    {
      path, k := 0, 0;
      var n := count;
      while n >= 2
        invariant n == Shifted(count, k) && n >= 1 && path == Path(count, k)
        decreases n
      {
        PathFits(count, k + 1);
        path := (path * 2) % WORD + n % 2;
        k, n := k + 1, n / 2;
      }
    }

    function Deref(l: Link<K>): Node?<K>
      reads this, if l.Root? then {} else {l.node}
    {
      match l
      case Root => min
      case LeftOf(n) => n.left
      case RightOf(n) => n.right
    }

    /** l is the link that leads, or would lead, to slot k. */
    ghost predicate Leads(l: Link<K>, k: int)
      reads this`slots
    {
      && 1 <= k && k / 2 <= |slots|
      && l == if k == 1 then Root else if k % 2 == 0 then LeftOf(slots[k / 2 - 1]) else RightOf(slots[k / 2 - 1])
    }

    lemma LeadsTo(l: Link<K>, k: int)
      requires Linked(Memory(), min, slots) && Leads(l, k)
      ensures Deref(l) == Slot(slots, k)
    {
      if k >= 2 {
        assert Placed(Memory(), slots, k / 2);
      }
    }

    // The loops of heap_insert and heap_remove that walk down the path.
    method Walk(path0: nat, k0: nat, ghost n: nat) returns (parent: Link<K>, child: Link<K>)
      requires Linked(Memory(), min, slots) && path0 == Path(n, k0) && Shifted(n, k0) == 1 && n <= |slots| + 1
      ensures Leads(child, n) && (if n == 1 then parent == Root else Leads(parent, n / 2))
    {
      var path, k := path0, k0;
      parent, child := Root, Root;
      while k > 0
        invariant 0 <= k <= k0 && path == Path(n, k) && 1 <= Shifted(n, k)
        invariant Leads(child, Shifted(n, k)) && (if k == k0 then parent == child else Leads(parent, Shifted(n, k + 1)))
        decreases k
      {
        ShiftedShrinks(n, k);
        LeadsTo(child, Shifted(n, k));
        parent := child;
        child := if path % 2 == 1 then RightOf(Deref(child)) else LeftOf(Deref(child));
        path, k := path / 2, k - 1;
      }
    }

    method WalkTo(n: nat) returns (parent: Link<K>, child: Link<K>)
      requires Linked(Memory(), min, slots) && 1 <= n <= |slots| + 1 && n < WORD
      ensures Leads(child, n) && (if n == 1 then parent == Root else Leads(parent, n / 2))
    {
      var path, k := PathTo(n);
      parent, child := Walk(path, k, n);
    }

    /** All in order, but that the node in slot i may be less than its parent. */
    ghost predicate Rising(node: Node<K>, i: int)
      reads this, nodes, slots
    {
      && StrictWeakOrder(less) && Linked(Memory(), min, slots) && Slot(slots, i) == node
      && OrderedBut(less, Keys(slots), i, 0) && Bridged(less, Keys(slots), i)
    }

    /** All in order, but that the node in slot i may be out of order with its neighbours. */
    ghost predicate Sinking(node: Node<K>, i: int)
      reads this, nodes, slots
    {
      && StrictWeakOrder(less) && Linked(Memory(), min, slots) && Slot(slots, i) == node
      && OrderedBut(less, Keys(slots), i, i) && Bridged(less, Keys(slots), i)
    }

    method Rise(parent: Node<K>, node: Node<K>, ghost i: int)
      requires Rising(node, i) && Slot(slots, i / 2) == parent && less(node.key, parent.key)
      modifies this`min, this`slots, nodes`left, nodes`right, nodes`parent
      ensures Rising(node, i / 2) && Members(slots) == old(Members(slots)) && |slots| == old(|slots|)
    {
      SiftedUp(less, Keys(slots), i);
      NodeSwap(parent, node, i / 2, i);
    }

    method Sink(node: Node<K>, smallest: Node<K>, ghost i: int, ghost j: int)
      requires Sinking(node, i) && Slot(slots, j) == smallest && j / 2 == i && less(smallest.key, node.key)
      requires forall k :: 2 <= k <= |slots| && k / 2 == i ==> !less(Key(Keys(slots), k), smallest.key)
      modifies this`min, this`slots, nodes`left, nodes`right, nodes`parent
      ensures Sinking(node, j) && Members(slots) == old(Members(slots)) && |slots| == old(|slots|)
    {
      SiftedDown(less, Keys(slots), i, j);
      NodeSwap(node, smallest, i, j);
    }

    // The walk up of heap_insert and heap_remove.
    method SiftUp(node: Node<K>, ghost i0: int)
      requires Rising(node, i0)
      modifies this`min, this`slots, nodes`left, nodes`right, nodes`parent
      ensures Linked(Memory(), min, slots) && Ordered(less, Keys(slots))
      ensures Members(slots) == old(Members(slots)) && |slots| == old(|slots|)
    {
      ghost var i := i0;
      assert Placed(Memory(), slots, i);
      while node.parent != null && less(node.key, node.parent.key)
        invariant Rising(node, i) && node.parent == Slot(slots, i / 2)
        invariant Members(slots) == old(Members(slots)) && |slots| == old(|slots|)
        decreases i
      {
        Rise(node.parent, node, i);
        i := i / 2;
        assert Placed(Memory(), slots, i);
      }
    }

    // The least of a node and its children.
    method Smallest(child: Node<K>, ghost i: int) returns (smallest: Node<K>, ghost j: int)
      requires Sinking(child, i)
      ensures smallest == child ==> Rising(child, i)
      ensures smallest != child ==> Slot(slots, j) == smallest && j / 2 == i && less(smallest.key, child.key)
      ensures forall k :: 2 <= k <= |slots| && k / 2 == i ==> !less(Key(Keys(slots), k), smallest.key)
    {
      assert Placed(Memory(), slots, i);
      smallest, j := child, i;
      if child.left != null && less(child.left.key, smallest.key) {
        smallest, j := child.left, 2 * i;
      }
      if child.right != null && less(child.right.key, smallest.key) {
        smallest, j := child.right, 2 * i + 1;
      }
    }

    // The walk down of heap_remove.
    method SiftDown(child: Node<K>, ghost i0: int) returns (ghost i: int)
      requires Sinking(child, i0)
      modifies this`min, this`slots, nodes`left, nodes`right, nodes`parent
      ensures Rising(child, i)
      ensures Members(slots) == old(Members(slots)) && |slots| == old(|slots|)
    {
      i := i0;
      while true
        invariant Sinking(child, i)
        invariant Members(slots) == old(Members(slots)) && |slots| == old(|slots|)
        decreases |slots| - i
      {
        var smallest, j := Smallest(child, i);
        if smallest == child {
          break;
        }
        Sink(child, smallest, i, j);
        i := j;
      }
    }

    // heap_insert.
    method Insert(newnode: Node<K>)
      requires Valid() && newnode !in nodes && nelts + 1 < WORD
      modifies this`min, this`nelts, this`slots, this`nodes, nodes`left, nodes`right, nodes`parent
      modifies newnode`left, newnode`right, newnode`parent
      ensures Valid() && nodes == old(nodes) + {newnode}
    {
      InsertLast(newnode);
      nelts := nelts + 1;
      SiftUp(newnode, |slots|);
    }

    // heap_insert up to the walk up.
    method InsertLast(newnode: Node<K>)
      requires Valid() && newnode !in nodes && nelts + 1 < WORD
      modifies this`min, this`slots, this`nodes, nodes`left, nodes`right, nodes`parent
      modifies newnode`left, newnode`right, newnode`parent
      ensures slots == old(slots) + [newnode] && Rising(newnode, |slots|) && nodes == Members(slots)
    {
      AppendedOrder(less, Keys(slots), newnode.key);
      Append(newnode);
    }

    method Append(newnode: Node<K>)
      requires Linked(Memory(), min, slots) && nodes == Members(slots) && newnode !in nodes && nelts == |slots| < WORD - 1
      modifies this`min, this`slots, this`nodes, nodes`left, nodes`right
      modifies newnode`left, newnode`right, newnode`parent
      ensures slots == old(slots) + [newnode] && nodes == Members(slots)
      ensures Linked(Memory(), min, slots) && Keys(slots) == old(Keys(slots)) + [newnode.key]
    {
      var parent, child := WalkTo(1 + nelts);
      Attach(newnode, parent, child);
    }

    // The assignments that link newnode below up.
    method AttachLinks(newnode: Node<K>, up: Node?<K>, child: Link<K>)
      requires newnode !in nodes && (up == null || up in nodes)
      requires if up == null then child == Root else child == LeftOf(up) || child == RightOf(up)
      modifies this`min, this`nodes, nodes`left, nodes`right, newnode`left, newnode`right, newnode`parent
      ensures nodes == old(nodes) + {newnode} && min == if up == null then newnode else old(min)
      ensures newnode in Memory() && Memory()[newnode] == Links(null, null, up)
      ensures up != null ==> up in Memory()
      ensures up != null && child.LeftOf? ==> Memory()[up] == old(Memory())[up].(left := newnode)
      ensures up != null && child.RightOf? ==> Memory()[up] == old(Memory())[up].(right := newnode)
      ensures forall x :: x in old(nodes) && x != up ==> x in Memory() && Memory()[x] == old(Memory())[x]
    {
      newnode.left, newnode.right := null, null;
      newnode.parent := up;
      match child {
        case Root => min := newnode;
        case LeftOf(n) => n.left := newnode;
        case RightOf(n) => n.right := newnode;
      }
      nodes := nodes + {newnode};
    }

    method Attach(newnode: Node<K>, parent: Link<K>, child: Link<K>)
      requires Linked(Memory(), min, slots) && nodes == Members(slots) && newnode !in nodes
      requires Leads(child, |slots| + 1) && (if slots == [] then parent == Root else Leads(parent, (|slots| + 1) / 2))
      modifies this`min, this`slots, this`nodes, nodes`left, nodes`right
      modifies newnode`left, newnode`right, newnode`parent
      ensures slots == old(slots) + [newnode] && nodes == Members(slots)
      ensures Linked(Memory(), min, slots) && Keys(slots) == old(Keys(slots)) + [newnode.key]
    {
      ghost var m, r := Memory(), min;
      if slots != [] {
        LeadsTo(parent, (|slots| + 1) / 2);
      }
      AttachLinks(newnode, Deref(parent), child);
      Appended(m, Memory(), r, min, slots, newnode);
      slots := slots + [newnode];
    }

    // heap_remove.
    method Remove(node: Node?<K>)
      requires Valid() && nelts < WORD && (slots == [] || (node != null && node in nodes))
      modifies this`min, this`nelts, this`slots, this`nodes, nodes`left, nodes`right, nodes`parent
      ensures Valid()
      ensures old(slots) == [] ==> slots == []
      ensures old(slots) != [] ==> nodes == old(nodes) - {node}
    {
      if nelts == 0 {
        return;
      }
      var parent, max := WalkTo(nelts);
      nelts := nelts - 1;
      Extract(node, max);
      Release(node);
    }

    method Extract(node: Node<K>, max: Link<K>)
      requires Linked(Memory(), min, slots) && slots != [] && Leads(max, |slots|) && node in slots
      requires StrictWeakOrder(less) && Ordered(less, Keys(slots)) && nodes == Members(slots)
      modifies this`min, this`slots, nodes`left, nodes`right, nodes`parent
      ensures Linked(Memory(), min, slots) && Ordered(less, Keys(slots))
      ensures |slots| == |old(slots)| - 1 && Members(slots) == nodes - {node}
    {
      var child := TakeLast(max);
      Fill(node, child);
    }

    // The part of heap_remove behind the unlinking of the last node.
    method Fill(node: Node<K>, child: Node<K>)
      requires StrictWeakOrder(less) && Linked(Memory(), min, slots) && Ordered(less, Keys(slots) + [child.key])
      requires child !in slots && child in nodes && (node == child || node in slots)
      modifies this`min, this`slots, nodes`left, nodes`right, nodes`parent
      ensures Linked(Memory(), min, slots) && Ordered(less, Keys(slots))
      ensures |slots| == old(|slots|) && Members(slots) == Members(old(slots)) + {child} - {node}
    {
      if child == node {
        if child == min {
          assert false;  // the unlinking has already cleared min
        }
        PrefixOrder(less, Keys(slots), child.key);
      } else {
        Refill(node, child);
      }
    }

    // The last node takes the place of another one, and moves to where it belongs.
    method Refill(node: Node<K>, child: Node<K>)
      requires StrictWeakOrder(less) && Linked(Memory(), min, slots) && Ordered(less, Keys(slots) + [child.key])
      requires child !in slots && child in nodes && node in slots
      modifies this`min, this`slots, nodes`left, nodes`right, nodes`parent
      ensures Linked(Memory(), min, slots) && Ordered(less, Keys(slots))
      ensures |slots| == old(|slots|) && Members(slots) == Members(old(slots)) - {node} + {child}
    {
      ghost var i := ReplaceBy(node, child);
      i := SiftDown(child, i);
      SiftUp(child, i);
    }

    // Unlinks the node in the last slot.
    method TakeLast(max: Link<K>) returns (child: Node<K>)
      requires Linked(Memory(), min, slots) && slots != [] && Leads(max, |slots|)
      requires StrictWeakOrder(less) && Ordered(less, Keys(slots)) && nodes == Members(slots)
      modifies this`min, this`slots, nodes`left, nodes`right
      ensures slots == old(slots)[..|old(slots)| - 1] && child == old(slots)[|old(slots)| - 1]
      ensures child !in slots && nodes == Members(slots) + {child}
      ensures Linked(Memory(), min, slots) && Ordered(less, Keys(slots) + [child.key])
    {
      ghost var m, r, ks := Memory(), min, Keys(slots);
      LastMember(slots);
      LeadsTo(max, |slots|);
      child := Deref(max);
      match max {
        case Root => min := null;
        case LeftOf(n) => n.left := null;
        case RightOf(n) => n.right := null;
      }
      Shortened(m, Memory(), r, min, slots);
      slots := slots[..|slots| - 1];
      assert Keys(slots) + [child.key] == ks;
    }

    // Lets child, already unlinked, take node's place.
    method ReplaceLinks(node: Node<K>, child: Node<K>)
      requires CanReplace(Memory(), node, child)
      modifies this`min, nodes`left, nodes`right, nodes`parent
      ensures CanReplace(old(Memory()), node, child) && Replaces(old(Memory()), Memory(), old(min), min, node, child)
    {
      child.left, child.right, child.parent := node.left, node.right, node.parent;
      if child.left != null {
        child.left.parent := child;
      }
      if child.right != null {
        child.right.parent := child;
      }
      Hang(node.parent, node, child);
    }

    method ReplaceBy(node: Node<K>, child: Node<K>) returns (ghost i: int)
      requires StrictWeakOrder(less) && Linked(Memory(), min, slots) && Ordered(less, Keys(slots) + [child.key])
      requires child !in slots && child in nodes && node in slots
      modifies this`min, this`slots, nodes`left, nodes`right, nodes`parent
      ensures Sinking(child, i)
      ensures |slots| == old(|slots|) && Members(slots) == Members(old(slots)) - {node} + {child}
    {
      ghost var k :| 0 <= k < |slots| && slots[k] == node;
      i := k + 1;
      ghost var m, r, ks := Memory(), min, Keys(slots);
      MayReplace(m, r, slots, i, child);
      ReplaceLinks(node, child);
      Replaced(m, Memory(), r, min, slots, i, child);
      ReplacedMembers(slots, i, child);
      LastToOrder(less, ks + [child.key], i);
      slots := slots[i - 1 := child];
      assert Keys(slots) == LastTo(ks + [child.key], i);
    }

    ghost method Release(node: Node<K>)
      requires StrictWeakOrder(less) && Linked(Memory(), min, slots) && Ordered(less, Keys(slots))
      requires nelts == |slots| && Members(slots) == nodes - {node}
      modifies this`nodes
      ensures Valid() && nodes == old(nodes) - {node}
    {
      ghost var m := Memory();
      nodes := nodes - {node};
      SameLinked(m, Memory(), min, slots);
    }

    // heap_dequeue.
    method Dequeue()
      requires Valid() && nelts < WORD
      modifies this`min, this`nelts, this`slots, this`nodes, nodes`left, nodes`right, nodes`parent
      ensures Valid()
      ensures old(slots) == [] ==> slots == []
      ensures old(slots) != [] ==> old(min) in old(nodes) && nodes == old(nodes) - {old(min)}
    {
      Remove(min);
    }
  }
}
