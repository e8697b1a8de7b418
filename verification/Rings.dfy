/** The circular lists of 3rd/libuv/src/queue.h. */
module Rings {
  import opened Sequences

  /** A QUEUE: the head of a list or the link in one of its elements. */
  class Link {
    var next: Link
    var prev: Link

    // QUEUE_INIT.
    constructor ()
      ensures next == this && prev == this
    {
      next, prev := this, this;
    }
  }

  datatype Cell = Cell(next: Link, prev: Link)

  type Memory = map<Link, Cell>

  ghost function MemoryOf(links: set<Link>): Memory
    reads links
  {
    map q | q in links :: Cell(q.next, q.prev)
  }

  function Succ(i: nat, n: nat): nat { if i + 1 == n then 0 else i + 1 }

  /** Element i of the circle and the next one know each other. */
  ghost predicate Tied(m: Memory, c: seq<Link>, i: nat)
    requires i < |c|
  {
    var a, b := c[i], c[Succ(i, |c|)];
    a in m && b in m && m[a].next == b && m[b].prev == a
  }

  /** The links of c, the head first, form a circle. */
  ghost predicate Ring(m: Memory, c: seq<Link>) {
    c != [] && Distinct(c) && forall i :: 0 <= i < |c| ==> Tied(m, c, i)
  }

  lemma RingFrame(m: Memory, m': Memory, c: seq<Link>)
    requires Ring(m, c) && forall q :: q in c && q in m ==> q in m' && m'[q] == m[q]
    ensures Ring(m', c)
  {
    forall i | 0 <= i < |c| ensures Tied(m', c, i) {
      assert Tied(m, c, i);
    }
  }

  /** The links after q has been put between a and b. */
  ghost function Between(m: Memory, a: Link, q: Link, b: Link): Memory
    requires a in m && b in m && q in m && q != a && q != b
  {
    var m1 := m[q := Cell(b, a)];
    var m2 := m1[a := m1[a].(next := q)];
    m2[b := m2[b].(prev := q)]
  }

  /** The element at place k, so between the elements k - 1 and k of the circle. */
  lemma Inserted(m: Memory, c: seq<Link>, q: Link, k: nat)
    requires Ring(m, c) && q !in c && q in m && 1 <= k <= |c|
    requires c[k - 1] in m && c[Succ(k - 1, |c|)] in m
    ensures Ring(Between(m, c[k - 1], q, c[Succ(k - 1, |c|)]), c[..k] + [q] + c[k..])
  {
    var m' := Between(m, c[k - 1], q, c[Succ(k - 1, |c|)]);
    var d := c[..k] + [q] + c[k..];
    forall i | 0 <= i < |d| ensures Tied(m', d, i) {
      if i < k - 1 {
        assert Tied(m, c, i);
      } else if i > k {
        assert Tied(m, c, i - 1);
      } else {
        assert Tied(m, c, k - 1);
      }
    }
  }

  lemma Removed(m: Memory, c: seq<Link>, k: nat)
    requires Ring(m, c) && 1 <= k < |c| && c[k] in m && m[c[k]].prev in m && m[c[k]].next in m
    ensures var p, n := m[c[k]].prev, m[c[k]].next;
            var m1 := m[p := m[p].(next := n)];
            Ring(m1[n := m1[n].(prev := p)], c[..k] + c[k + 1..])
  {
    assert Tied(m, c, k - 1) && Tied(m, c, k);
    var p, n := c[k - 1], c[Succ(k, |c|)];
    var m1 := m[p := m[p].(next := n)];
    var m' := m1[n := m1[n].(prev := p)];
    var d := c[..k] + c[k + 1..];
    forall i | 0 <= i < |d| ensures Tied(m', d, i) {
      if i < k - 1 {
        assert Tied(m, c, i);
      } else if i >= k {
        assert Tied(m, c, i + 1);
      }
    }
  }

  /** Everything from element k on moves to the circle of n. */
  lemma Split(m: Memory, m': Memory, c: seq<Link>, k: nat, n: Link)
    requires Ring(m, c) && 1 <= k < |c| && n in m && n !in c
    requires forall x :: x in m && x !in {c[0], c[k - 1], c[k], c[|c| - 1], n} ==> x in m' && m'[x] == m[x]
    requires {c[0], c[k - 1], c[k], c[|c| - 1], n} <= m'.Keys
    requires m'[n] == Cell(c[k], c[|c| - 1]) && m'[c[k]].prev == n && m'[c[|c| - 1]].next == n
    requires m'[c[0]].prev == c[k - 1] && m'[c[k - 1]].next == c[0]
    requires k > 1 ==> c[0] in m && c[k - 1] in m && m'[c[0]].next == m[c[0]].next && m'[c[k - 1]].prev == m[c[k - 1]].prev
    requires k < |c| - 1 ==> c[k] in m && c[|c| - 1] in m && m'[c[k]].next == m[c[k]].next && m'[c[|c| - 1]].prev == m[c[|c| - 1]].prev
    ensures Ring(m', c[..k]) && Ring(m', [n] + c[k..])
  {
    var a, b := c[..k], [n] + c[k..];
    forall i | 0 <= i < |a| ensures Tied(m', a, i) {
      if i < k - 1 {
        assert Tied(m, c, i);
      }
    }
    forall i | 0 <= i < |b| ensures Tied(m', b, i) {
      if 1 <= i < |b| - 1 {
        assert Tied(m, c, i + k - 1);
      }
    }
  }

  /** Nothing but the links of c has changed. */
  ghost predicate SameBut(m: Memory, m': Memory, c: seq<Link>) {
    m'.Keys == m.Keys && forall x :: x in m && x !in c ==> m'[x] == m[x]
  }

  method InsertBetween(a: Link, q: Link, b: Link, ghost ls: set<Link>)
    requires {a, q, b} <= ls && q != a && q != b
    modifies ls
    ensures MemoryOf(ls) == Between(old(MemoryOf(ls)), a, q, b)
  {
    q.next := b;
    q.prev := a;
    a.next := q;
    b.prev := q;
  }

  // QUEUE_INSERT_HEAD.
  method InsertHead(h: Link, q: Link, ghost ls: set<Link>, ghost c: seq<Link>)
    requires Ring(MemoryOf(ls), c) && h == c[0] && q in ls && q !in c
    modifies ls
    ensures Ring(MemoryOf(ls), [h] + [q] + c[1..]) && SameBut(old(MemoryOf(ls)), MemoryOf(ls), c + [q])
  {
    ghost var m := MemoryOf(ls);
    assert Tied(m, c, 0);
    Inserted(m, c, q, 1);
    assert c[..1] == [h];
    InsertBetween(h, q, h.next, ls);
  }

  // QUEUE_INSERT_TAIL.
  method InsertTail(h: Link, q: Link, ghost ls: set<Link>, ghost c: seq<Link>)
    requires Ring(MemoryOf(ls), c) && h == c[0] && q in ls && q !in c
    modifies ls
    ensures Ring(MemoryOf(ls), c + [q]) && SameBut(old(MemoryOf(ls)), MemoryOf(ls), c + [q])
  {
    ghost var m := MemoryOf(ls);
    assert Tied(m, c, |c| - 1);
    Inserted(m, c, q, |c|);
    assert c[..|c|] + [q] + c[|c|..] == c + [q];
    InsertBetween(h.prev, q, h, ls);
  }

  // QUEUE_REMOVE.
  method Remove(q: Link, ghost ls: set<Link>, ghost c: seq<Link>, ghost k: nat)
    requires Ring(MemoryOf(ls), c) && 1 <= k < |c| && c[k] == q
    modifies ls
    ensures Ring(MemoryOf(ls), c[..k] + c[k + 1..]) && SameBut(old(MemoryOf(ls)), MemoryOf(ls), c)
  {
    ghost var m := MemoryOf(ls);
    assert Tied(m, c, k - 1) && Tied(m, c, k);
    Removed(m, c, k);
    q.prev.next := q.next;
    q.next.prev := q.prev;
    assert MemoryOf(ls) == var m1 := m[c[k - 1] := m[c[k - 1]].(next := c[Succ(k, |c|)])];
                           m1[c[Succ(k, |c|)] := m1[c[Succ(k, |c|)]].(prev := c[k - 1])];
  }

  // QUEUE_SPLIT.
  method SplitAt(h: Link, q: Link, n: Link, ghost ls: set<Link>, ghost c: seq<Link>, ghost k: nat)
    requires Ring(MemoryOf(ls), c) && h == c[0] && 1 <= k < |c| && c[k] == q && n in ls && n !in c
    modifies ls
    ensures Ring(MemoryOf(ls), c[..k]) && Ring(MemoryOf(ls), [n] + c[k..])
    ensures SameBut(old(MemoryOf(ls)), MemoryOf(ls), c + [n])
  {
    ghost var m := MemoryOf(ls);
    assert Tied(m, c, k - 1) && Tied(m, c, |c| - 1);
    n.prev := h.prev;
    n.prev.next := n;
    n.next := q;
    h.prev := q.prev;
    h.prev.next := h;
    q.prev := n;
    Split(m, MemoryOf(ls), c, k, n);
  }

  // QUEUE_MOVE. The elements of h's circle are handed over to n.
  method Move(h: Link, n: Link, ghost ls: set<Link>, ghost c: seq<Link>)
    requires Ring(MemoryOf(ls), c) && h == c[0] && n in ls && n !in c
    modifies ls
    ensures Ring(MemoryOf(ls), [h]) && Ring(MemoryOf(ls), [n] + c[1..])
    ensures SameBut(old(MemoryOf(ls)), MemoryOf(ls), c + [n])
  {
    assert Tied(MemoryOf(ls), c, 0);
    assert c[..1] == [h];
    if h.next == h {
      assert |c| == 1 by { assert c[Succ(0, |c|)] == h; }
      n.next, n.prev := n, n;
    } else {
      SplitAt(h, h.next, n, ls, c, 1);
    }
  }
}
