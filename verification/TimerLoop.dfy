/** The timer functions of 3rd/libuv/src/timer.c, on the linked heap. */
module TimerLoop {
  import opened Errors
  import opened Timers
  import opened TimerLaws
  import opened LinkedHeapSlots
  import opened LinkedHeapOrder
  import opened LinkedHeap

  /** A uv_timer_t; its timeout and start_id are the key of its heap node. */
  datatype Handle = Handle(node: Node<Deadline>, active: bool, repeat: nat, hasCallback: bool)

  ghost function ActiveNodes(ts: seq<Handle>): set<Node<Deadline>> {
    set t | t in ts && t.active :: t.node
  }

  ghost predicate DistinctNodes(ts: seq<Handle>) {
    forall h, k :: 0 <= h < k < |ts| ==> ts[h].node != ts[k].node
  }

  lemma Switched(ts: seq<Handle>, h: nat, t: Handle)
    requires h < |ts| && DistinctNodes(ts) && t.node == ts[h].node
    ensures DistinctNodes(ts[h := t])
    ensures ActiveNodes(ts[h := t]) == if t.active then ActiveNodes(ts) + {t.node} else ActiveNodes(ts) - {t.node}
  {
    var us := ts[h := t];
    forall n | n in ActiveNodes(ts) && n != t.node ensures n in ActiveNodes(us) {
      var k :| 0 <= k < |ts| && ts[k].active && ts[k].node == n;
      assert us[k] == ts[k];
    }
    forall n | n in ActiveNodes(us) ensures (n == t.node && t.active) || (n in ActiveNodes(ts) && n != t.node) {
      var k :| 0 <= k < |us| && us[k].active && us[k].node == n;
      assert k != h ==> us[k] == ts[k] && ts[k].node != ts[h].node;
    }
    assert us[h] == t;
  }

  lemma {:induction false} FewNodes(ts: seq<Handle>)
    ensures |ActiveNodes(ts)| <= |ts|
  {
    if ts != [] {
      var n := |ts| - 1;
      FewNodes(ts[..n]);
      assert ts == ts[..n] + [ts[n]];
      assert ActiveNodes(ts) == ActiveNodes(ts[..n]) + if ts[n].active then {ts[n].node} else {};
    }
  }

  lemma {:induction false} DistinctCount<K>(s: seq<Node<K>>)
    requires Distinct(s)
    ensures |Members(s)| == |s|
  {
    if s != [] {
      var n := |s| - 1;
      LastMember(s);
      assert forall i :: 1 <= i <= n ==> Slot(s[..n], i) == Slot(s, i);
      DistinctCount(s[..n]);
    }
  }

  ghost function NodesOf(ts: seq<Handle>): set<Node<Deadline>> { set t | t in ts :: t.node }

  ghost function ViewOf(ts: seq<Handle>): (v: seq<Timer>)
    reads NodesOf(ts)`key
    ensures |v| == |ts|
    ensures forall h :: 0 <= h < |v| ==> v[h] == Timer(ts[h].active, ts[h].node.key, ts[h].repeat, ts[h].hasCallback)
  {
    if ts == [] then []
    else
      var t := ts[|ts| - 1];
      assert t in ts;
      ViewOf(ts[..|ts| - 1]) + [Timer(t.active, t.node.key, t.repeat, t.hasCallback)]
  }

  lemma ViewStopped(ts: seq<Handle>, h: nat)
    requires h < |ts|
    ensures ViewOf(ts[h := ts[h].(active := false)]) == ViewOf(ts)[h := ViewOf(ts)[h].(active := false)]
    ensures !ts[h].active ==> ViewOf(ts) == ViewOf(ts)[h := ViewOf(ts)[h].(active := false)]
  {
    ViewChanged(ViewOf(ts), ts, h, ts[h].(active := false));
  }

  lemma ViewChanged(v: seq<Timer>, ts: seq<Handle>, h: nat, t: Handle)
    requires h < |ts| == |v| && forall k :: 0 <= k < |ts| && k != h ==> ViewOf(ts)[k] == v[k]
    ensures ViewOf(ts[h := t]) == v[h := Timer(t.active, t.node.key, t.repeat, t.hasCallback)]
  {
    assert ViewOf(ts[h := t]) == ViewOf(ts)[h := Timer(t.active, t.node.key, t.repeat, t.hasCallback)];
  }

  lemma SwitchedSame(ts: seq<Handle>, h: nat, t: Handle)
    requires h < |ts| && DistinctNodes(ts) && t.node == ts[h].node && t.active == ts[h].active
    ensures ActiveNodes(ts[h := t]) == ActiveNodes(ts)
  {
    Switched(ts, h, t);
    if !t.active {
      forall n | n in ActiveNodes(ts) ensures n != t.node {
        var k :| 0 <= k < |ts| && ts[k].active && ts[k].node == n;
      }
    } else {
      assert ts[h] in ts;
    }
  }

  /** A new timer is not active. */
  lemma ViewMore(ts: seq<Handle>, t: Handle)
    requires DistinctNodes(ts) && t.node !in NodesOf(ts) && !t.active
    ensures DistinctNodes(ts + [t]) && ActiveNodes(ts + [t]) == ActiveNodes(ts) && NodesOf(ts + [t]) == NodesOf(ts) + {t.node}
    ensures ViewOf(ts + [t]) == ViewOf(ts) + [Timer(false, t.node.key, t.repeat, t.hasCallback)]
  {
    assert forall k :: 0 <= k < |ts| ==> ts[k] in ts && ts[k].node in NodesOf(ts);
    assert (ts + [t])[..|ts|] == ts;
    assert t in ts + [t];
  }

  lemma OtherNode(ts: seq<Handle>, h: nat, k: nat)
    requires h < |ts| && k < |ts| && h != k && DistinctNodes(ts)
    ensures ts[k].node in NodesOf(ts) && ts[k].node != ts[h].node
  {
  }

  /** Stopping a timer before it is started changes nothing more. */
  lemma RestartSame(c: Clock, h: nat, timeout: nat, repeat: nat)
    requires h < |c.timers|
    ensures Started(Stopped(c, h), h, timeout, repeat, true) == Started(c, h, timeout, repeat, true)
  {
  }

  lemma EarlierOrders()
    ensures StrictWeakOrder(Earlier)
  {
  }

  class Loop {
    var time: nat
    var counter: nat
    var timers: seq<Handle>
    const heap: Heap<Deadline>

    constructor (time: nat)
      requires time < UINT64_MAX
      ensures Valid() && Now() == Clock(time, 0, []) && fresh(heap)
    {
      EarlierOrders();
      this.time, counter, timers := time, 0, [];
      heap := new Heap(Earlier);
    }

    ghost function Nodes(): set<Node<Deadline>>
      reads this`timers
    {
      NodesOf(timers)
    }

    ghost function Now(): Clock
      reads this`time, this`counter, this`timers, Nodes()`key
    {
      Clock(time, counter, ViewOf(timers))
    }

    /** The heap holds exactly the active timers. */
    ghost predicate Valid()
      reads this, heap, heap.nodes, heap.slots, Nodes()
    {
      && heap.Valid() && heap.less == Earlier && heap.nodes == ActiveNodes(timers)
      && DistinctNodes(timers) && Sound(Now()) && |timers| + 1 < WORD
    }

    // uv_timer_init.
    method InitTimer() returns (h: nat)
      requires Valid() && |timers| + 2 < WORD
      modifies this`timers
      ensures Valid() && h == |old(timers)| && fresh(Nodes() - old(Nodes()))
      ensures Now() == Inited(old(Now()))
    {
      ghost var c := Now();
      h := |timers|;
      var n := new Node(Deadline(0, 0, h));
      assert Now() == c;
      AddTimer(n);
    }

    method AddTimer(n: Node<Deadline>)
      requires Valid() && |timers| + 2 < WORD && n !in Nodes() && n.key == Deadline(0, 0, |timers|)
      modifies this`timers
      ensures Valid() && timers == old(timers) + [Handle(n, false, 0, false)] && Nodes() == old(Nodes()) + {n}
      ensures Now() == Inited(old(Now()))
    {
      InitedKeeps(Now());
      ViewMore(timers, Handle(n, false, 0, false));
      timers := timers + [Handle(n, false, 0, false)];
    }

    lemma NotFull()
      requires Valid()
      ensures heap.nelts <= |timers|
    {
      FewNodes(timers);
      DistinctCount(heap.slots);
    }

    // The heap_remove of uv_timer_stop.
    method Take(n: Node<Deadline>)
      requires heap.Valid() && n in heap.nodes && heap.nelts < WORD
      modifies heap, heap.nodes`left, heap.nodes`right, heap.nodes`parent
      ensures heap.Valid() && heap.nodes == old(heap.nodes) - {n}
    {
      heap.Remove(n);
    }

    // What uv_timer_stop does to an active timer.
    method Leave(h: nat)
      requires heap.Valid() && h < |timers| && timers[h].node in heap.nodes && heap.nelts < WORD
      modifies this`timers, heap, heap.nodes`left, heap.nodes`right, heap.nodes`parent
      ensures heap.Valid() && heap.nodes == old(heap.nodes) - {old(timers)[h].node}
      ensures timers == old(timers)[h := old(timers)[h].(active := false)]
    {
      Take(timers[h].node);
      timers := timers[h := timers[h].(active := false)];
    }

    method StopActive(h: nat)
      requires Valid() && h < |timers| && timers[h].active
      modifies this`timers, heap, Nodes()`left, Nodes()`right, Nodes()`parent
      ensures Valid() && Now() == Stopped(old(Now()), h) && Nodes() == old(Nodes())
    {
      ghost var c, ts := Now(), timers;
      StoppedKeeps(c, h);
      ViewStopped(ts, h);
      NotFull();
      InNodes();
      Switched(ts, h, ts[h].(active := false));
      NodesSet(ts, h, ts[h].(active := false));
      Leave(h);
      assert Now() == Stopped(c, h);
    }

    // uv_timer_stop.
    method StopTimer(h: nat) returns (err: int)
      requires Valid() && h < |timers|
      modifies this`timers, heap, Nodes()`left, Nodes()`right, Nodes()`parent
      ensures Valid() && Now() == Stopped(old(Now()), h) && Nodes() == old(Nodes()) && err == 0
      ensures IsStopped(old(Now()), Now(), h)
    {
      TryStop(h);
      err := 0;
    }

    method TryStop(h: nat)
      requires Valid() && h < |timers|
      modifies this`timers, heap, Nodes()`left, Nodes()`right, Nodes()`parent
      ensures Valid() && Now() == Stopped(old(Now()), h) && Nodes() == old(Nodes())
    {
      ViewStopped(timers, h);
      if !timers[h].active {
        return;
      }
      StopActive(h);
    }

    // The heap_insert of uv_timer_start.
    method Put(n: Node<Deadline>)
      requires heap.Valid() && n !in heap.nodes && heap.nelts + 1 < WORD
      modifies heap, heap.nodes`left, heap.nodes`right, heap.nodes`parent, n`left, n`right, n`parent
      ensures heap.Valid() && heap.nodes == old(heap.nodes) + {n}
    {
      heap.Insert(n);
    }

    // The fields that uv_timer_start writes.
    method WriteFields(h: nat, clampedTimeout: nat, repeat: nat)
      requires h < |timers| && DistinctNodes(timers)
      modifies this`timers, this`counter, timers[h].node`key
      ensures timers == old(timers)[h := Handle(old(timers)[h].node, true, repeat, true)]
      ensures Now() == Entered(old(Now()), h, clampedTimeout, repeat)
    {
      ghost var v, ts := ViewOf(timers), timers;
      var n := timers[h].node;
      n.key := Deadline(clampedTimeout, counter, h);
      forall k | 0 <= k < |ts| && k != h ensures ViewOf(ts)[k] == v[k] {
        OtherNode(ts, h, k);
      }
      ViewChanged(v, ts, h, Handle(n, true, repeat, true));
      timers := timers[h := Handle(n, true, repeat, true)];
      counter := counter + 1;
    }

    // The part of uv_timer_start that writes the fields of a timer that is not active and inserts it.
    method Join(h: nat, clampedTimeout: nat, repeat: nat)
      requires heap.Valid() && h < |timers| && timers[h].node !in heap.nodes && heap.nelts + 1 < WORD && heap.nodes <= Nodes()
      requires DistinctNodes(timers) && timers[h].node in Nodes()
      modifies this`timers, this`counter, heap, Nodes()
      ensures heap.Valid() && heap.nodes == old(heap.nodes) + {old(timers)[h].node}
      ensures timers == old(timers)[h := Handle(old(timers)[h].node, true, repeat, true)]
      ensures Now() == Entered(old(Now()), h, clampedTimeout, repeat)
    {
      WriteFields(h, clampedTimeout, repeat);
      Put(timers[h].node);
    }

    method StartIdle(h: nat, clampedTimeout: nat, repeat: nat)
      requires Valid() && h < |timers| && !timers[h].active && Sound(Entered(Now(), h, clampedTimeout, repeat))
      modifies this`timers, this`counter, heap, Nodes()
      ensures Valid() && Now() == Entered(old(Now()), h, clampedTimeout, repeat) && Nodes() == old(Nodes())
    {
      ghost var ts, t := timers, Handle(timers[h].node, true, repeat, true);
      NotFull();
      InNodes();
      Switched(ts, h, t);
      NodesSet(ts, h, t);
      Join(h, clampedTimeout, repeat);
    }

    // uv_timer_start.
    method StartTimer(h: nat, timeout: nat, repeat: nat, hasCallback: bool) returns (err: int)
      requires Valid() && h < |timers| && timeout <= UINT64_MAX && repeat <= UINT64_MAX
      modifies this`timers, this`counter, heap, Nodes()
      ensures Valid() && Now() == Started(old(Now()), h, timeout, repeat, hasCallback) && Nodes() == old(Nodes())
      ensures err == if hasCallback then 0 else UV_EINVAL
      ensures if hasCallback then IsStarted(old(Now()), Now(), h, timeout, repeat) else Now() == old(Now())
    {
      if hasCallback {
        StartedLaw(Now(), h, timeout, repeat);
      }
      err := TryStart(h, timeout, repeat, hasCallback);
    }

    method TryStart(h: nat, timeout: nat, repeat: nat, hasCallback: bool) returns (err: int)
      requires Valid() && h < |timers| && timeout <= UINT64_MAX && repeat <= UINT64_MAX
      modifies this`timers, this`counter, heap, Nodes()
      ensures Valid() && Now() == Started(old(Now()), h, timeout, repeat, hasCallback) && Nodes() == old(Nodes())
      ensures err == if hasCallback then 0 else UV_EINVAL
    {
      if !hasCallback {
        return UV_EINVAL;
      }
      ghost var c := Now();
      if timers[h].active {
        TryStop(h);
      }
      var clampedTimeout := (time + timeout) % (UINT64_MAX + 1);
      if clampedTimeout < timeout {
        clampedTimeout := UINT64_MAX;
      }
      RestartSame(c, h, timeout, repeat);
      StartedKeeps(Now(), h, timeout, repeat, true);
      StartIdle(h, clampedTimeout, repeat);
      return 0;
    }

    // uv_timer_again.
    method TimerAgain(h: nat) returns (err: int)
      requires Valid() && h < |timers|
      modifies this`timers, this`counter, heap, Nodes()
      ensures Valid() && Now() == Again(old(Now()), h) && Nodes() == old(Nodes())
      ensures err == if old(timers[h].hasCallback) then 0 else UV_EINVAL
      ensures IsAgain(old(Now()), Now(), h)
    {
      AgainLaw(Now(), h);
      err := TryAgain(h);
    }

    method TryAgain(h: nat) returns (err: int)
      requires Valid() && h < |timers|
      modifies this`timers, this`counter, heap, Nodes()
      ensures Valid() && Now() == Again(old(Now()), h) && Nodes() == old(Nodes())
      ensures err == if old(timers[h].hasCallback) then 0 else UV_EINVAL
    {
      assert TimerOk(Now(), h);
      if !timers[h].hasCallback {
        return UV_EINVAL;
      }
      if timers[h].repeat != 0 {
        var repeat := timers[h].repeat;
        TryStop(h);
        var _ := TryStart(h, repeat, repeat, true);
      }
      return 0;
    }

    /** What heap_min gives is an active timer with the earliest deadline. */
    lemma FirstIsLeast(n: Node<Deadline>)
      requires Valid() && n in heap.nodes && forall x :: x in heap.nodes ==> !Earlier(x.key, n.key)
      ensures var h := n.key.handle; h < |timers| && timers[h].node == n && timers[h].active && Now().timers[h].deadline == n.key
      ensures forall k :: 0 <= k < |timers| && timers[k].active ==> !Earlier(Now().timers[k].deadline, n.key)
    {
      var t :| t in timers && t.active && t.node == n;
      var i :| 0 <= i < |timers| && timers[i] == t;
      assert TimerOk(Now(), i);
      InNodes();
    }

    // heap_min of the timer heap, and container_of.
    method First() returns (h: int)
      requires Valid()
      ensures h < 0 ==> forall k :: 0 <= k < |timers| ==> !Now().timers[k].active
      ensures h >= 0 ==> h < |timers| && timers[h].active
      ensures h >= 0 ==> forall k :: 0 <= k < |timers| && timers[k].active ==> !Earlier(Now().timers[k].deadline, Now().timers[h].deadline)
    {
      ghost var c := Now();
      var n := heap.Min();
      assert Now() == c;
      if n == null {
        assert heap.nodes == {};
        InNodes();
        return -1;
      }
      FirstIsLeast(n);
      return n.key.handle;
    }

    // One round of uv__run_timers: the timer h is due, its callback makes the given calls.
    method Fire(h: nat, calls: seq<Call>) returns (deadline: Deadline)
      requires Valid() && Fires(Now(), h)
      modifies this, heap, Nodes()
      ensures Valid() && Now() == ExecuteAll(Fired(old(Now()), h), calls) && Nodes() == old(Nodes())
      ensures deadline == old(Now()).timers[h].deadline
    {
      deadline := timers[h].node.key;
      TryStop(h);
      var _ := TryAgain(h);
      Callback(calls);
    }

    /**
      uv__run_timers. The n-th callback makes the n-th sequence of calls, the later ones make none; since every
      script is allowed, this is what any callbacks can do. Timers fire in the order of their deadlines, strictly,
      and the pass goes on until none is due.
    */
    method RunTimers(script: seq<seq<Call>>) returns (fired: seq<Deadline>, ghost trace: seq<Clock>)
      requires Valid()
      modifies this, heap, Nodes()
      ensures Valid() && Nodes() == old(Nodes())
      ensures PassOk(trace, script, fired) && trace[0] == old(Now()) && trace[|fired|] == Now()
      ensures Ascending(fired) && Due(Now()) == {}
    {
      fired, trace := [], [Now()];
      while true
        invariant Valid() && Nodes() == old(Nodes()) && Going(old(Now()), script, fired, trace, Now())
        decreases if |fired| < |script| then |script| - |fired| else 0, |Due(Now())|
      {
        var h := FirstDue();
        if h < 0 {
          break;
        }
        fired, trace := FireNext(h, script, fired, trace, old(Now()));
      }
    }

    method FireNext(h: nat, script: seq<seq<Call>>, fired0: seq<Deadline>, ghost trace0: seq<Clock>, ghost first: Clock)
      returns (fired: seq<Deadline>, ghost trace: seq<Clock>)
      requires Valid() && Fires(Now(), h) && Going(first, script, fired0, trace0, Now())
      modifies this, heap, Nodes()
      ensures Valid() && Nodes() == old(Nodes()) && Going(first, script, fired, trace, Now()) && |fired| == |fired0| + 1
      ensures |fired0| >= |script| ==> |Due(Now())| < old(|Due(Now())|)
    {
      ghost var c := Now();
      var deadline := Fire(h, CallsOf(script, |fired0|));
      GoesOn(first, script, fired0, trace0, c, h, Now());
      if |fired0| >= |script| {
        RoundProgress(c, h, []);
      }
      fired, trace := fired0 + [deadline], trace0 + [Now()];
    }

    // The tests at the top of a round: the timer that fires next, if any.
    method FirstDue() returns (h: int)
      requires Valid()
      ensures h < 0 ==> Due(Now()) == {}
      ensures h >= 0 ==> Fires(Now(), h)
    {
      h := First();
      if h < 0 || timers[h].node.key.timeout > time {
        NoneDue(Now(), h);
        h := -1;
      }
    }

    // uv__next_timeout.
    method NextTimeout() returns (ms: int)
      requires Valid()
      ensures ms == -1 <==> forall h :: 0 <= h < |timers| ==> !Now().timers[h].active
      ensures ms == 0 <==> Due(Now()) != {}
      ensures ms != -1 ==> exists h: nat :: Soonest(Now(), h) && ms == WaitFor(Now(), h)
    {
      var h := First();
      if h < 0 {
        return -1;
      }
      assert Soonest(Now(), h);
      var timeout := timers[h].node.key.timeout;
      if timeout <= time {
        assert h in Due(Now());
        return 0;
      }
      var diff := timeout - time;
      if diff > INT_MAX {
        diff := INT_MAX;
      }
      return diff;
    }

    // uv_timer_set_repeat.
    method SetRepeatOf(h: nat, repeat: nat)
      requires Valid() && h < |timers| && repeat <= UINT64_MAX
      modifies this`timers
      ensures Now() == Repeated(old(Now()), h, repeat) && Nodes() == old(Nodes())
      ensures Valid()
    {
      RepeatedKeeps(Now(), h, repeat);
      StoreRepeat(h, repeat);
    }

    method StoreRepeat(h: nat, repeat: nat)
      requires h < |timers| && DistinctNodes(timers)
      modifies this`timers
      ensures Now() == Repeated(old(Now()), h, repeat) && Nodes() == old(Nodes()) && |timers| == |old(timers)|
      ensures DistinctNodes(timers) && ActiveNodes(timers) == old(ActiveNodes(timers))
    {
      var t := timers[h].(repeat := repeat);
      ViewChanged(ViewOf(timers), timers, h, t);
      Switched(timers, h, t);
      NodesSet(timers, h, t);
      SwitchedSame(timers, h, t);
      timers := timers[h := t];
    }

    // One call out of a callback.
    method Perform(call: Call)
      requires Valid()
      modifies this, heap, Nodes()
      ensures Valid() && Now() == Execute(old(Now()), call) && Nodes() == old(Nodes())
    {
      match call {
        case Start(h, timeout, repeat, hasCallback) =>
          if h < |timers| && timeout <= UINT64_MAX && repeat <= UINT64_MAX {
            var _ := TryStart(h, timeout, repeat, hasCallback);
          }
        case Stop(h) =>
          if h < |timers| {
            TryStop(h);
          }
        case DoAgain(h) =>
          if h < |timers| {
            var _ := TryAgain(h);
          }
        case SetRepeat(h, repeat) =>
          if h < |timers| && repeat <= UINT64_MAX {
            SetRepeatOf(h, repeat);
          }
        case UpdateTime(t) =>
          if time <= t < UINT64_MAX {
            ExecuteKeeps(Now(), call);
            time := t;
          }
      }
    }

    // A callback.
    method Callback(calls: seq<Call>)
      requires Valid()
      modifies this, heap, Nodes()
      ensures Valid() && Now() == ExecuteAll(old(Now()), calls) && Nodes() == old(Nodes())
    {
      for k := 0 to |calls|
        invariant Valid() && Nodes() == old(Nodes())
        invariant ExecuteAll(Now(), calls[k..]) == ExecuteAll(old(Now()), calls)
      {
        assert calls[k..][1..] == calls[k + 1..];
        Perform(calls[k]);
      }
    }

    lemma InNodes()
      requires Valid()
      ensures heap.nodes <= Nodes()
      ensures forall h :: 0 <= h < |timers| ==> timers[h].node in Nodes() && (timers[h].active <==> timers[h].node in heap.nodes)
    {
    }
  }

  lemma NodesSet(ts: seq<Handle>, h: nat, t: Handle)
    requires h < |ts| && t.node == ts[h].node
    ensures NodesOf(ts[h := t]) == NodesOf(ts)
  {
    var us := ts[h := t];
    forall n | n in NodesOf(ts) ensures n in NodesOf(us) {
      var k :| 0 <= k < |ts| && ts[k].node == n;
      assert us[k].node == n;
    }
    forall n | n in NodesOf(us) ensures n in NodesOf(ts) {
      var k :| 0 <= k < |us| && us[k].node == n;
      assert ts[k].node == n;
    }
  }
}
