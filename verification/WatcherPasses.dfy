/** The start and stop functions of 3rd/libuv/src/unix/loop-watcher.c, and the passes over their handles and of uv_walk. */
module WatcherPasses {
  import opened Errors
  import opened Rings
  import opened Sequences
  import opened Turns

  /** What a callback may do to the list it is called from. Append is uv__handle_init, for the list that uv_walk walks. */
  datatype Call = Start(q: Link, hasCallback: bool) | Stop(q: Link) | Append(q: Link)

  /** The handles that wait on the list, and those that a pass under way has moved off it and not come to yet. */
  datatype Lists = Lists(waiting: seq<Link>, moved: seq<Link>)

  /** The list of the handles that are started; a handle is known by its link, active says UV__HANDLE_ACTIVE. */
  class Watchers {
    const head: Link
    var handles: set<Link>
    var active: set<Link>
    ghost var links: set<Link>
    ghost var queue: Link
    ghost var waiting: seq<Link>
    ghost var moved: seq<Link>

    constructor ()
      ensures Valid() && handles == {} && waiting == [] && moved == []
    {
      var h := new Link();
      var q := new Link();
      head, queue, handles, active, links, waiting, moved := h, q, {}, {}, {h, q}, [], [];
    }

    ghost function Now(): Lists
      reads this
    {
      Lists(waiting, moved)
    }

    /** Two rings that share nothing: the list, and what a pass under way has moved off it. */
    ghost predicate Valid()
      reads this, links
    {
      && Ring(MemoryOf(links), [head] + waiting) && Ring(MemoryOf(links), [queue] + moved)
      && Disjoint([head] + waiting, [queue] + moved)
      && head !in handles && queue !in handles && handles <= links && active <= handles
      && active == Elements(waiting) + Elements(moved)
    }

    // uv_prepare_init and its like.
    method Init() returns (q: Link)
      requires Valid()
      modifies this`handles, this`links
      ensures Valid() && fresh(q) && handles == old(handles) + {q} && q !in active && links == old(links) + {q}
    {
      q := new Link();
      ghost var m := MemoryOf(links);
      handles, links := handles + {q}, links + {q};
      RingFrame(m, MemoryOf(links), [head] + waiting);
      RingFrame(m, MemoryOf(links), [queue] + moved);
    }

    // uv_prepare_start and its like.
    method StartHandle(q: Link, hasCallback: bool) returns (err: int)
      requires Valid() && q in handles
      modifies this`active, this`waiting, links
      ensures Valid() && moved == old(moved)
      ensures err == if q in old(active) || hasCallback then 0 else UV_EINVAL
      ensures waiting == if q in old(active) || !hasCallback then old(waiting) else [q] + old(waiting)
    {
      if q in active {
        return 0;
      }
      if !hasCallback {
        return UV_EINVAL;
      }
      ghost var m := MemoryOf(links);
      InsertHead(head, q, links, [head] + waiting);
      RingFrame(m, MemoryOf(links), [queue] + moved);
      assert [head] + [q] + ([head] + waiting)[1..] == [head] + ([q] + waiting);
      waiting, active := [q] + waiting, active + {q};
      return 0;
    }

    // The QUEUE_INSERT_TAIL of uv__handle_init.
    method AppendHandle(q: Link)
      requires Valid() && q in handles && q !in active
      modifies this`active, this`waiting, links
      ensures Valid() && moved == old(moved) && waiting == old(waiting) + [q]
    {
      ghost var m := MemoryOf(links);
      InsertTail(head, q, links, [head] + waiting);
      RingFrame(m, MemoryOf(links), [queue] + moved);
      assert [head] + waiting + [q] == [head] + (waiting + [q]);
      waiting, active := waiting + [q], active + {q};
    }

    // QUEUE_REMOVE of a handle, on whichever of the two lists it is.
    method Unlink(q: Link)
      requires Valid() && q in active
      modifies this`active, this`waiting, this`moved, links
      ensures Valid() && waiting == Minus(old(waiting), {q}) && moved == Minus(old(moved), {q})
    {
      ghost var m := MemoryOf(links);
      ghost var c, k := Locate(q);
      Remove(q, links, c, k);
      Unlinked(m, MemoryOf(links), q, c, k);
      waiting, moved, active := Minus(waiting, {q}), Minus(moved, {q}), active - {q};
    }

    lemma Locate(q: Link) returns (c: seq<Link>, k: nat)
      requires Valid() && q in active
      ensures c == (if q in moved then [queue] + moved else [head] + waiting) && 1 <= k < |c| && c[k] == q
    {
      if q in moved {
        c := [queue] + moved;
        var i :| 0 <= i < |moved| && moved[i] == q;
        k := i + 1;
      } else {
        c := [head] + waiting;
        var i :| 0 <= i < |waiting| && waiting[i] == q;
        k := i + 1;
      }
    }

    lemma Unlinked(m: Memory, m': Memory, q: Link, c: seq<Link>, k: nat)
      requires Ring(m, [head] + waiting) && Ring(m, [queue] + moved) && Disjoint([head] + waiting, [queue] + moved)
      requires c == (if q in moved then [queue] + moved else [head] + waiting) && 1 <= k < |c| && c[k] == q
      requires SameBut(m, m', c) && Ring(m', c[..k] + c[k + 1..])
      ensures Ring(m', [head] + Minus(waiting, {q})) && Ring(m', [queue] + Minus(moved, {q}))
      ensures Disjoint([head] + Minus(waiting, {q}), [queue] + Minus(moved, {q}))
      ensures Elements(Minus(waiting, {q})) + Elements(Minus(moved, {q})) == Elements(waiting) + Elements(moved) - {q}
    {
      if q in moved {
        UnlinkedMoved(m, m', q, k);
      } else {
        UnlinkedWaiting(m, m', q, k);
      }
      RingApart(m);
      MinusElements(waiting, {q});
      MinusElements(moved, {q});
      StillDisjoint(head, waiting, Minus(waiting, {q}), queue, moved, Minus(moved, {q}));
    }

    lemma RingApart(m: Memory)
      requires Ring(m, [head] + waiting) && Ring(m, [queue] + moved) && Disjoint([head] + waiting, [queue] + moved)
      ensures Distinct(waiting) && Distinct(moved) && Disjoint(waiting, moved)
    {
      Apart(waiting, moved);
    }

    lemma UnlinkedMoved(m: Memory, m': Memory, q: Link, k: nat)
      requires Ring(m, [head] + waiting) && Distinct([queue] + moved) && Disjoint([head] + waiting, [queue] + moved)
      requires 1 <= k <= |moved| && moved[k - 1] == q && SameBut(m, m', [queue] + moved)
      requires Ring(m', ([queue] + moved)[..k] + ([queue] + moved)[k + 1..])
      ensures Ring(m', [queue] + Minus(moved, {q})) && Ring(m', [head] + Minus(waiting, {q}))
    {
      Apart(waiting, moved);
      MinusAt(moved, k - 1);
      MinusElements(moved, {q});
      MinusNone(waiting, {q});
      RingFrame(m, m', [head] + waiting);
      assert ([queue] + moved)[..k] + ([queue] + moved)[k + 1..] == [queue] + (moved[..k - 1] + moved[k..]);
    }

    lemma UnlinkedWaiting(m: Memory, m': Memory, q: Link, k: nat)
      requires Ring(m, [queue] + moved) && Distinct([head] + waiting) && Disjoint([head] + waiting, [queue] + moved)
      requires 1 <= k <= |waiting| && waiting[k - 1] == q && SameBut(m, m', [head] + waiting)
      requires Ring(m', ([head] + waiting)[..k] + ([head] + waiting)[k + 1..])
      ensures Ring(m', [queue] + Minus(moved, {q})) && Ring(m', [head] + Minus(waiting, {q}))
      ensures q !in moved
    {
      Apart(waiting, moved);
      MinusAt(waiting, k - 1);
      MinusElements(waiting, {q});
      MinusNone(moved, {q});
      RingFrame(m, m', [queue] + moved);
      assert ([head] + waiting)[..k] + ([head] + waiting)[k + 1..] == [head] + (waiting[..k - 1] + waiting[k..]);
    }

    lemma Apart(a: seq<Link>, b: seq<Link>)
      requires Distinct([head] + a) && Distinct([queue] + b) && Disjoint([head] + a, [queue] + b)
      ensures Distinct(a) && Distinct(b) && forall q :: q in a ==> q !in b
    {
      assert forall i :: 0 <= i < |a| ==> ([head] + a)[i + 1] == a[i];
      assert forall i :: 0 <= i < |b| ==> ([queue] + b)[i + 1] == b[i];
      forall q | q in a ensures q !in b {
        assert q in [head] + a;
      }
    }

    // uv_prepare_stop and its like.
    method StopHandle(q: Link) returns (err: int)
      requires Valid() && q in handles
      modifies this`active, this`waiting, this`moved, links
      ensures Valid() && err == 0
      ensures waiting == Minus(old(waiting), {q}) && moved == Minus(old(moved), {q})
    {
      Apart(waiting, moved);
      if q !in waiting {
        MinusNone(waiting, {q});
      }
      if q !in moved {
        MinusNone(moved, {q});
      }
      if q !in active {
        return 0;
      }
      Unlink(q);
      return 0;
    }

    // ---- the passes ----

    // The queue of a pass is a local variable of the source.
    method NewQueue() returns (q: Link)
      requires Valid() && moved == []
      modifies this`queue, this`links
      ensures Valid() && q == queue && links == old(links) + {q} && fresh(q) && q !in [head] + waiting
    {
      q := new Link();
      ghost var ls := links + {q};
      RingFrame(MemoryOf(links), MemoryOf(ls), [head] + waiting);
      assert [q] + moved == [q];
      links, queue := ls, q;
    }

    // QUEUE_MOVE at the start of a pass.
    method Begin() returns (q: Link)
      requires Valid() && moved == []
      modifies this`queue, this`links, this`waiting, this`moved, links
      ensures Valid() && waiting == [] && moved == old(waiting) && q == queue && links == old(links) + {q} && fresh(q)
    {
      q := NewQueue();
      MoveTo(q, links);
      waiting, moved := [], waiting;
    }

    method MoveTo(q: Link, ghost ls: set<Link>)
      requires Ring(MemoryOf(ls), [head] + waiting) && q in ls && q !in [head] + waiting
      modifies ls
      ensures Ring(MemoryOf(ls), [head] + []) && Ring(MemoryOf(ls), [q] + waiting) && Disjoint([head] + [], [q] + waiting)
    {
      ghost var c := [head] + waiting;
      Move(head, q, ls, c);
      assert c[1..] == waiting && [head] + [] == [head];
      assert c[0] == head && forall k :: 1 <= k < |c| ==> c[k] != c[0] && c[k] == waiting[k - 1];
    }

    // QUEUE_REMOVE of the first element of the queue.
    method Detach(q: Link, ghost ls: set<Link>, ghost w: seq<Link>, ghost v: seq<Link>)
      requires Ring(MemoryOf(ls), w) && Ring(MemoryOf(ls), v) && Disjoint(w, v) && |v| > 1 && q == v[1]
      modifies ls
      ensures Ring(MemoryOf(ls), w) && Ring(MemoryOf(ls), v[..1] + v[2..])
    {
      ghost var m := MemoryOf(ls);
      Remove(q, ls, v, 1);
      RingFrame(m, MemoryOf(ls), w);
    }

    // QUEUE_INSERT_TAIL next to another ring.
    method InsertBeside(q: Link, ghost ls: set<Link>, ghost w: seq<Link>, ghost v: seq<Link>)
      requires Ring(MemoryOf(ls), w) && Ring(MemoryOf(ls), v) && Disjoint(w + [q], v) && w[0] == head && q in ls && q !in w
      modifies ls
      ensures Ring(MemoryOf(ls), w + [q]) && Ring(MemoryOf(ls), v)
    {
      ghost var m := MemoryOf(ls);
      InsertTail(head, q, ls, w);
      RingFrame(m, MemoryOf(ls), v);
    }

    method Requeue(q: Link, ghost ls: set<Link>, ghost w: seq<Link>, ghost v: seq<Link>)
      requires Ring(MemoryOf(ls), w) && Ring(MemoryOf(ls), v) && Disjoint(w, v) && |v| > 1 && q == v[1] && w[0] == head && q in ls
      requires q !in w && Disjoint(w + [q], v[..1] + v[2..])
      modifies ls
      ensures Ring(MemoryOf(ls), w + [q]) && Ring(MemoryOf(ls), v[..1] + v[2..])
    {
      Detach(q, ls, w, v);
      InsertBeside(q, ls, w, v[..1] + v[2..]);
    }

    // QUEUE_HEAD, QUEUE_REMOVE and QUEUE_INSERT_TAIL at the top of a round.
    method TakeHead(queue: Link) returns (q: Link)
      requires Valid() && queue == this.queue && moved != []
      modifies this`waiting, this`moved, links
      ensures Valid() && q == old(moved[0]) && moved == old(moved[1..]) && waiting == old(waiting) + [q]
    {
      ghost var w, v := [head] + waiting, [queue] + moved;
      assert Tied(MemoryOf(links), v, 0);
      q := queue.next;
      HeadMoves(w, v, waiting, moved);
      Requeue(q, links, w, v);
      waiting, moved := waiting + [q], moved[1..];
    }

    lemma HeadMoves(w: seq<Link>, v: seq<Link>, a: seq<Link>, b: seq<Link>)
      requires w == [head] + a && v == [queue] + b && b != [] && Disjoint(w, v) && Distinct(v)
      ensures v[..1] + v[2..] == [queue] + b[1..] && w + [b[0]] == [head] + (a + [b[0]]) && v[1] == b[0]
      ensures b[0] !in w && Disjoint(w + [b[0]], [queue] + b[1..])
      ensures Elements(a + [b[0]]) + Elements(b[1..]) == Elements(a) + Elements(b)
    {
      assert b == [b[0]] + b[1..];
      ElementsAppend([b[0]], b[1..]);
      ElementsAppend(a, [b[0]]);
      assert v[1] in v && forall k :: 0 <= k < |b| ==> v[k + 1] == b[k];
      var rest := [queue] + b[1..];
      forall k | 0 <= k < |rest| ensures rest[k] in v && rest[k] != v[1] {
        assert rest[k] == if k == 0 then v[0] else v[k + 1];
      }
      forall x | x in w + [b[0]] ensures x !in rest {
        assert x in w || x == v[1];
      }
    }

    // One call out of a callback, for a handle that has been initialized.
    method Perform(call: Call)
      requires Valid()
      modifies this`active, this`waiting, this`moved, links
      ensures Valid() && Now() == Performed(old(Now()), call, handles)
    {
      RingApart(MemoryOf(links));
      assert forall x: Link :: x in active <==> x in waiting || x in moved;
      if call.q !in handles {
        return;
      }
      match call {
        case Start(q, hasCallback) => var _ := StartHandle(q, hasCallback);
        case Stop(q) => var _ := StopHandle(q);
        case Append(q) =>
          if q !in active {
            AppendHandle(q);
          }
      }
    }

    method Callback(calls: seq<Call>)
      requires Valid()
      modifies this`active, this`waiting, this`moved, links
      ensures Valid() && Now() == PerformedAll(old(Now()), calls, handles)
    {
      for k := 0 to |calls|
        invariant Valid() && Now() == PerformedAll(old(Now()), calls[..k], handles)
      {
        Perform(calls[k]);
        assert calls[..k + 1][..k] == calls[..k];
      }
      assert calls[..|calls|] == calls;
    }

    lemma AtEnd(m: Memory)
      requires Valid() && m == MemoryOf(links)
      ensures queue in links && (queue.next == queue <==> moved == [])
    {
      assert Tied(m, [queue] + moved, 0);
      if moved != [] {
        assert ([queue] + moved)[1] != ([queue] + moved)[0];
      }
    }

    // One round of a pass.
    method Round(queue: Link, calls: seq<Call>, skip: set<Link>) returns (q: Link)
      requires Valid() && queue == this.queue && moved != []
      modifies this`active, this`waiting, this`moved, links
      ensures Valid() && q == old(moved)[0] && Now() == Turn(old(Now()), calls, skip, handles)
    {
      q := TakeHead(queue);
      if q !in skip {
        Callback(calls);
      }
    }

    // The loop of a pass.
    method Sweep(queue: Link, script: seq<seq<Call>>, skip: set<Link>) returns (called: seq<Link>)
      requires Valid() && queue == this.queue
      modifies this`active, this`waiting, this`moved, links
      ensures Valid() && moved == [] && Now() == Swept(old(Now()), 0, script, skip, handles)
      ensures called == Served(old(moved), 0, Stopping(script, handles), skip)
    {
      called := [];
      AtEnd(MemoryOf(links));
      while queue.next != queue
        invariant Valid() && queue in links && (queue.next == queue <==> moved == [])
        invariant Ahead(called, Now(), script, skip, handles) == Ahead([], old(Now()), script, skip, handles)
        decreases |moved|
      {
        OneRound(called, Now(), script, skip, handles);
        var q := Round(queue, CallsOf(script, |called|), skip);
        if q !in skip {
          called := called + [q];
        }
        AtEnd(MemoryOf(links));
      }
      assert Ahead(called, Now(), script, skip, handles).0 == called;
      assert Ahead([], old(Now()), script, skip, handles).0 == Served(old(moved), 0, Stopping(script, handles), skip);
    }

    /**
      uv__run_prepare, uv__run_check and uv__run_idle with skip == {}; uv_walk with the internal handles as skip. The
      n-th callback makes the n-th sequence of calls. Whoever was on the list gets a turn, in the order of the list,
      unless a callback before has stopped it; nobody else does.
    */
    method Pass(script: seq<seq<Call>>, skip: set<Link>) returns (called: seq<Link>)
      requires Valid() && moved == []
      modifies this`active, this`waiting, this`moved, this`links, this`queue, links
      ensures Valid() && moved == [] && fresh(links - old(links))
      ensures called == Served(old(waiting), 0, Stopping(script, handles), skip)
      ensures Now() == Swept(Lists([], old(waiting)), 0, script, skip, handles)
    {
      var queue := Begin();
      called := Sweep(queue, script, skip);
    }
  }

  // ---- what the passes come to ----

  ghost function Performed(l: Lists, call: Call, handles: set<Link>): Lists {
    if call.q !in handles then l else
    match call
    case Start(q, hasCallback) =>
      if q in l.waiting || q in l.moved || !hasCallback then l else l.(waiting := [q] + l.waiting)
    case Stop(q) => Lists(Minus(l.waiting, {q}), Minus(l.moved, {q}))
    case Append(q) => if q in l.waiting || q in l.moved then l else l.(waiting := l.waiting + [q])
  }

  ghost function PerformedAll(l: Lists, calls: seq<Call>, handles: set<Link>): Lists {
    if calls == [] then l
    else Performed(PerformedAll(l, calls[..|calls| - 1], handles), calls[|calls| - 1], handles)
  }

  function CallsOf(script: seq<seq<Call>>, n: nat): seq<Call> { if n < |script| then script[n] else [] }

  /** One round: the first handle goes back to the end of the list, and has its turn unless it is skipped. */
  ghost function Turn(l: Lists, calls: seq<Call>, skip: set<Link>, handles: set<Link>): Lists
    requires l.moved != []
  {
    var t := Lists(l.waiting + [l.moved[0]], l.moved[1..]);
    if l.moved[0] in skip then t else PerformedAll(t, calls, handles)
  }

  ghost function Swept(l: Lists, n: nat, script: seq<seq<Call>>, skip: set<Link>, handles: set<Link>): Lists
    decreases |l.moved|
  {
    if l.moved == [] then l
    else
      TurnMoves(l, CallsOf(script, n), skip, handles);
      Swept(Turn(l, CallsOf(script, n), skip, handles), if l.moved[0] in skip then n else n + 1, script, skip, handles)
  }

  /** Whoever a callback stops will not have a turn any more, and nobody gets one in addition. */
  lemma {:induction false} PerformedMoves(l: Lists, calls: seq<Call>, handles: set<Link>)
    ensures PerformedAll(l, calls, handles).moved == Minus(l.moved, StoppedBy(calls, handles))
    decreases |calls|
  {
    if calls == [] {
      MinusNone(l.moved, {});
      assert StoppedBy(calls, handles) == {};
    } else {
      var k, before := |calls| - 1, calls[..|calls| - 1];
      PerformedMoves(l, before, handles);
      var m := PerformedAll(l, before, handles);
      assert StoppedBy([calls[k]], handles) == if calls[k].Stop? && calls[k].q in handles then {calls[k].q} else {} by {
        assert calls[k] in [calls[k]];
      }
      MinusNone(m.moved, {});
      MinusMinus(l.moved, StoppedBy(before, handles), StoppedBy([calls[k]], handles));
      StoppedMore(calls, k, handles);
      assert calls[..k + 1] == calls;
    }
  }

  lemma TurnMoves(l: Lists, calls: seq<Call>, skip: set<Link>, handles: set<Link>)
    requires l.moved != []
    ensures Turn(l, calls, skip, handles).moved
            == if l.moved[0] in skip then l.moved[1..] else Minus(l.moved[1..], StoppedBy(calls, handles))
    ensures |Turn(l, calls, skip, handles).moved| < |l.moved|
  {
    PerformedMoves(Lists(l.waiting + [l.moved[0]], l.moved[1..]), calls, handles);
    MinusShorter(l.moved[1..], StoppedBy(calls, handles));
  }

  /** Who will have had a turn when the pass is over, and the lists then. */
  ghost function Ahead(called: seq<Link>, l: Lists, script: seq<seq<Call>>, skip: set<Link>, handles: set<Link>)
    : (seq<Link>, Lists)
  {
    (called + Served(l.moved, |called|, Stopping(script, handles), skip), Swept(l, |called|, script, skip, handles))
  }

  /** A round moves one turn from those to come to those had. */
  lemma OneRound(called: seq<Link>, l: Lists, script: seq<seq<Call>>, skip: set<Link>, handles: set<Link>)
    requires l.moved != []
    ensures var t := Turn(l, CallsOf(script, |called|), skip, handles);
            var called' := if l.moved[0] in skip then called else called + [l.moved[0]];
            |t.moved| < |l.moved| && Ahead(called', t, script, skip, handles) == Ahead(called, l, script, skip, handles)
  {
    var n, outs := |called|, Stopping(script, handles);
    var t := Turn(l, CallsOf(script, n), skip, handles);
    TurnMoves(l, CallsOf(script, n), skip, handles);
    assert OutBy(outs, n) == StoppedBy(CallsOf(script, n), handles);
    assert called + ([l.moved[0]] + Served(t.moved, n + 1, outs, skip))
        == called + [l.moved[0]] + Served(t.moved, n + 1, outs, skip);
  }

  /** No callback stops q. */
  ghost predicate NeverStopped(q: Link, script: seq<seq<Call>>) {
    forall n :: 0 <= n < |script| ==> Stop(q) !in script[n]
  }

  lemma {:induction false} PerformedStays(l: Lists, calls: seq<Call>, handles: set<Link>, q: Link)
    requires Stop(q) !in calls && (q in l.waiting || q in l.moved)
    ensures q in PerformedAll(l, calls, handles).waiting || q in PerformedAll(l, calls, handles).moved
    decreases |calls|
  {
    if calls != [] {
      var before, call := calls[..|calls| - 1], calls[|calls| - 1];
      var m := PerformedAll(l, before, handles);
      PerformedStays(l, before, handles, q);
      assert call in calls;
      if call.Stop? {
        MinusStays(m.waiting, q, {call.q});
        MinusStays(m.moved, q, {call.q});
      }
    }
  }

  lemma {:induction false} MinusStays<T>(s: seq<T>, q: T, gone: set<T>)
    requires q !in gone
    ensures q in Minus(s, gone) <==> q in s
  {
    if s != [] {
      assert s == [s[0]] + s[1..];
      MinusStays(s[1..], q, gone);
    }
  }

  /** A pass loses no handle: whoever is on the list and is not stopped by a callback is on it again afterwards. */
  lemma {:induction false} SweptStays(l: Lists, n: nat, script: seq<seq<Call>>, skip: set<Link>, handles: set<Link>, q: Link)
    requires NeverStopped(q, script) && (q in l.waiting || q in l.moved)
    ensures Swept(l, n, script, skip, handles).moved == [] && q in Swept(l, n, script, skip, handles).waiting
    decreases |l.moved|
  {
    if l.moved != [] {
      var calls, t := CallsOf(script, n), Lists(l.waiting + [l.moved[0]], l.moved[1..]);
      assert l.moved == [l.moved[0]] + l.moved[1..];
      TurnMoves(l, calls, skip, handles);
      PerformedStays(t, calls, handles, q);
      SweptStays(Turn(l, calls, skip, handles), if l.moved[0] in skip then n else n + 1, script, skip, handles, q);
    }
  }

  /** Where the callbacks leave the list alone, a pass leaves it as it was, the order included. */
  lemma {:induction false} SweptQuietly(l: Lists, n: nat, script: seq<seq<Call>>, skip: set<Link>, handles: set<Link>)
    requires forall k :: 0 <= k < |script| ==> script[k] == []
    ensures Swept(l, n, script, skip, handles) == Lists(l.waiting + l.moved, [])
    decreases |l.moved|
  {
    if l.moved == [] {
      assert l.waiting + l.moved == l.waiting;
    } else {
      TurnMoves(l, [], skip, handles);
      SweptQuietly(Turn(l, [], skip, handles), if l.moved[0] in skip then n else n + 1, script, skip, handles);
      assert l.waiting + [l.moved[0]] + l.moved[1..] == l.waiting + l.moved;
    }
  }

  /** The handles that a callback stops. */
  ghost function StoppedBy(calls: seq<Call>, handles: set<Link>): set<Link> {
    set q | q in handles && Stop(q) in calls
  }

  /** The handles that each of the callbacks stops. */
  ghost function Stopping(script: seq<seq<Call>>, handles: set<Link>): seq<set<Link>> {
    seq(|script|, k requires 0 <= k < |script| => StoppedBy(script[k], handles))
  }

  lemma StoppedMore(calls: seq<Call>, k: nat, handles: set<Link>)
    requires k < |calls|
    ensures StoppedBy(calls[..k + 1], handles) == StoppedBy(calls[..k], handles) + StoppedBy([calls[k]], handles)
  {
    assert calls[..k + 1] == calls[..k] + [calls[k]];
  }
}
