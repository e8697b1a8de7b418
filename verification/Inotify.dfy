/** The file-event functions of 3rd/libuv/src/unix/linux-inotify.c, on the fields of the loop. */
module Inotify {
  import opened Errors
  import opened Sequences
  import opened Turns
  import opened InotifyIndex

  /** What a callback may do. wd is what inotify_add_watch answers, below zero for an error. */
  datatype Call = Start(h: nat, wd: int) | Stop(h: nat)

  class Loop {
    var entries: seq<Entry>
    var index: map<int, nat>
    var handles: seq<Handle>
    ghost var current: int
    var queue: seq<nat>

    constructor ()
      ensures Valid() && current == -1 && handles == []
    {
      entries, index, handles, current, queue := [], map[], [], -1, [];
    }

    ghost function Now(): State
      reads this
    {
      State(entries, index, handles, current, queue)
    }

    ghost predicate Valid()
      reads this
    {
      Sound(Now())
    }

    // find_watcher.
    method FindWatcher(wd: int) returns (e: int)
      requires Valid()
      ensures e == if wd in index then index[wd] else -1
      ensures wd in index ==> Indexed(Now(), wd) && !entries[e].freed
    {
      if wd in index {
        assert Indexed(Now(), wd);
        return index[wd];
      }
      return -1;
    }

    // maybe_free_watcher_list. Only an entry that has not been freed is looked at.
    method MaybeFree(e: nat)
      requires e < |entries| && !entries[e].freed
      modifies this`entries, this`index
      ensures Now() == MaybeFreed(old(Now()), e)
    {
      if !entries[e].iterating && entries[e].watchers == [] {
        index := index - {entries[e].wd};
        entries := entries[e := entries[e].(freed := true)];
      }
    }

    // uv_fs_event_init.
    method InitHandle() returns (h: nat)
      requires Valid()
      modifies this`handles
      ensures Valid() && handles == old(handles) + [Handle(false, -1)] && h == |old(handles)|
    {
      ghost var s := Now();
      h := |handles|;
      handles := handles + [Handle(false, -1)];
      InitKeeps(s);
    }

    // uv_fs_event_start; wd is the kernel's answer.
    method StartHandle(h: nat, wd: int) returns (err: int)
      requires Valid() && h < |handles|
      modifies this`entries, this`index, this`handles
      ensures Valid() && err == (if old(handles)[h].active then UV_EINVAL else if wd < 0 then wd else 0)
      ensures Now() == if err == 0 then Started(old(Now()), h, wd) else old(Now())
    {
      if handles[h].active {
        return UV_EINVAL;
      }
      if wd < 0 {
        return wd;
      }
      ghost var s := Now();
      var w := FindWatcher(wd);
      StartedKeeps(s, h, wd);
      if w < 0 {
        w := |entries|;
        entries := entries + [Entry(wd, [], false, false)];
        index := index[wd := w];
      }
      assert !entries[w].freed;
      entries := entries[w := entries[w].(watchers := entries[w].watchers + [h])];
      handles := handles[h := Handle(true, wd)];
      assert Now() == Started(s, h, wd);
      return 0;
    }

    // uv_fs_event_stop.
    method StopHandle(h: nat)
      requires Valid() && h < |handles|
      modifies this`entries, this`index, this`handles, this`queue
      ensures Valid()
      ensures old(handles)[h].active ==> Indexed(old(Now()), old(handles)[h].wd)
      ensures Now() == if old(handles)[h].active then StoppedFs(old(Now()), h) else old(Now())
    {
      if !handles[h].active {
        return;
      }
      ghost var s := Now();
      StopFinds(s, h);
      StoppedKeeps(s, h);
      var w := FindWatcher(handles[h].wd);
      assert w >= 0;
      entries := entries[w := entries[w].(watchers := Without(entries[w].watchers, h))];
      queue := Without(queue, h);
      handles := handles[h := Handle(false, -1)];
      MaybeFree(w);
      assert Now() == StoppedFs(s, h);
    }

    // One call out of a callback, for a handle that has been initialized.
    method Perform(call: Call)
      requires Valid()
      modifies this`entries, this`index, this`handles, this`queue
      ensures Valid() && Now() == Performed(old(Now()), call)
    {
      match call {
        case Start(h, wd) =>
          if h < |handles| {
            var _ := StartHandle(h, wd);
          }
        case Stop(h) =>
          if h < |handles| {
            StopHandle(h);
          }
      }
    }

    method Callback(calls: seq<Call>)
      requires Valid()
      modifies this`entries, this`index, this`handles, this`queue
      ensures Valid() && Now() == PerformedAll(old(Now()), calls)
    {
      for k := 0 to |calls|
        invariant Valid() && Now() == PerformedAll(old(Now()), calls[..k])
      {
        Perform(calls[k]);
        assert calls[..k + 1][..k] == calls[..k];
      }
      assert calls[..|calls|] == calls;
    }

    // One event of uv__inotify_read. wd is what the kernel reports, possibly for a path nobody watches any more.
    method ReadEvent(wd: int, script: seq<seq<Call>>) returns (called: seq<nat>)
      requires Valid() && current == -1
      modifies this
      ensures Valid() && current == -1 && queue == []
      ensures wd !in old(index) ==> called == [] && Now() == old(Now())
      ensures wd in old(index) ==> called == Served(old(WatchersOf(wd)), 0, Stopping(script, |old(handles)|), {})
      ensures wd in old(index) ==> Now() == old(AfterEvent(wd, script))
    {
      called := [];
      var w := FindWatcher(wd);
      if w < 0 {
        assert QueueOk(Now());
        return;
      }
      assert EntryOk(Now(), w);
      BegunKeeps(Now(), wd);
      ghost var s := Now();
      queue := entries[w].watchers;
      entries := entries[w := entries[w].(iterating := true, watchers := [])];
      current := w;
      assert Now() == Begun(s, w);
      called := Dispatch(w, script);
      EndedKeeps(Now());
      s := Now();
      assert QueueOk(s);
      entries := entries[w := entries[w].(iterating := false)];
      current := -1;
      MaybeFree(w);
      assert Now() == Ended(s);
    }

    // The loop of uv__inotify_read over the handles of an entry.
    method Dispatch(w: nat, script: seq<seq<Call>>) returns (called: seq<nat>)
      requires Valid() && current == w
      modifies this
      ensures Valid() && current == w && queue == [] && Now() == Dispatched(old(Now()), 0, script)
      ensures called == Served(old(queue), 0, Stopping(script, |old(handles)|), {})
    {
      called := [];
      while queue != []
        invariant Valid() && current == w && |handles| == |old(handles)|
        invariant Ahead(called, Now(), script) == Ahead([], old(Now()), script)
        decreases |queue|
      {
        OneRound(called, Now(), script);
        var calls := CallsOf(script, |called|);
        var h := Round(w, calls);
        called := called + [h];
      }
      assert Ahead(called, Now(), script).0 == called;
      assert Ahead([], old(Now()), script).0 == Served(old(queue), 0, Stopping(script, |old(handles)|), {});
    }

    ghost function AfterEvent(wd: int, script: seq<seq<Call>>): State
      reads this
      requires Valid() && current == -1 && wd in index
    {
      assert Indexed(Now(), wd);
      BegunKeeps(Now(), wd);
      Ended(Dispatched(Begun(Now(), index[wd]), 0, script))
    }

    ghost function WatchersOf(wd: int): seq<nat>
      reads this
      requires Valid() && wd in index
    {
      assert Indexed(Now(), wd);
      entries[index[wd]].watchers
    }

    // One round.
    method Round(w: nat, calls: seq<Call>) returns (h: nat)
      requires Valid() && queue != [] && current == w
      modifies this`entries, this`index, this`handles, this`queue
      ensures Valid() && h == old(queue[0]) && Now() == RoundOf(old(Now()), calls)
    {
      h := Turn(w);
      Callback(calls);
    }

    method Turn(w: nat) returns (h: nat)
      requires Valid() && queue != [] && current == w
      modifies this`entries, this`queue
      ensures Valid() && h == old(queue[0]) && Now() == Turned(old(Now()))
    {
      ghost var s := Now();
      assert QueueOk(s);
      TurnedKeeps(s);
      h := queue[0];
      queue := queue[1..];
      assert !entries[w].freed;
      entries := entries[w := entries[w].(watchers := entries[w].watchers + [h])];
      assert Now() == Turned(s);
    }
  }

  // ---- what the dispatch comes to ----

  ghost function Performed(s: State, call: Call): (t: State)
    requires Sound(s)
    ensures Sound(t) && |t.handles| == |s.handles| && t.current == s.current && |t.entries| >= |s.entries|
  {
    match call
    case Start(h, wd) =>
      if h >= |s.handles| || s.handles[h].active || wd < 0 then s
      else
        StartedKeeps(s, h, wd);
        Started(s, h, wd)
    case Stop(h) =>
      if h >= |s.handles| || !s.handles[h].active then s
      else
        StopFinds(s, h);
        StoppedKeeps(s, h);
        StoppedFs(s, h)
  }

  ghost function PerformedAll(s: State, calls: seq<Call>): (t: State)
    requires Sound(s)
    ensures Sound(t) && |t.handles| == |s.handles| && t.current == s.current && |t.entries| >= |s.entries|
  {
    if calls == [] then s else Performed(PerformedAll(s, calls[..|calls| - 1]), calls[|calls| - 1])
  }

  function CallsOf(script: seq<seq<Call>>, n: nat): seq<Call> { if n < |script| then script[n] else [] }

  /** One round: the first handle goes back to its entry and has its turn. */
  ghost function RoundOf(s: State, calls: seq<Call>): (t: State)
    requires Sound(s) && s.current != -1 && s.queue != []
    ensures Sound(t) && |t.handles| == |s.handles| && t.current == s.current
    ensures t.queue == Minus(s.queue[1..], StoppedBy(calls, |s.handles|)) && |t.queue| < |s.queue|
  {
    TurnedKeeps(s);
    PerformedLeaves(Turned(s), calls);
    MinusShorter(s.queue[1..], StoppedBy(calls, |s.handles|));
    PerformedAll(Turned(s), calls)
  }

  ghost function Dispatched(s: State, n: nat, script: seq<seq<Call>>): (t: State)
    requires Sound(s) && s.current != -1
    ensures Sound(t) && t.current == s.current && t.queue == []
    decreases |s.queue|
  {
    if s.queue == [] then s else Dispatched(RoundOf(s, CallsOf(script, n)), n + 1, script)
  }

  /** The handles that a callback stops. */
  ghost function StoppedBy(calls: seq<Call>, handles: nat): set<nat> {
    set h | 0 <= h < handles && Stop(h) in calls
  }

  /** The handles that each of the callbacks stops. */
  ghost function Stopping(script: seq<seq<Call>>, handles: nat): seq<set<nat>> {
    seq(|script|, k requires 0 <= k < |script| => StoppedBy(script[k], handles))
  }

  lemma PerformedLeavesOne(s: State, call: Call)
    requires Sound(s)
    ensures Performed(s, call).queue == Minus(s.queue, StoppedBy([call], |s.handles|))
  {
    assert StoppedBy([call], |s.handles|) == if call.Stop? && call.h < |s.handles| then {call.h} else {} by {
      assert call in [call];
    }
    if call.Stop? && call.h < |s.handles| && s.handles[call.h].active {
      StopFinds(s, call.h);
      WithoutIsMinus(s.queue, call.h);
    } else {
      MinusNone(s.queue, StoppedBy([call], |s.handles|));
    }
  }

  /** Whoever a callback stops will not have a turn any more, and nobody gets one in addition. */
  lemma {:induction false} PerformedLeaves(s: State, calls: seq<Call>)
    requires Sound(s)
    ensures PerformedAll(s, calls).queue == Minus(s.queue, StoppedBy(calls, |s.handles|))
    decreases |calls|
  {
    if calls == [] {
      MinusNone(s.queue, {});
      assert StoppedBy(calls, |s.handles|) == {};
    } else {
      var before, last := calls[..|calls| - 1], calls[|calls| - 1];
      PerformedLeaves(s, before);
      PerformedLeavesOne(PerformedAll(s, before), last);
      MinusMinus(s.queue, StoppedBy(before, |s.handles|), StoppedBy([last], |s.handles|));
      assert calls == before + [last];
      assert StoppedBy(calls, |s.handles|) == StoppedBy(before, |s.handles|) + StoppedBy([last], |s.handles|);
    }
  }

  /** Who will have had a turn when the dispatch is over, and the loop then. */
  ghost function Ahead(called: seq<nat>, s: State, script: seq<seq<Call>>): (seq<nat>, State)
    requires Sound(s) && s.current != -1
  {
    (called + Served(s.queue, |called|, Stopping(script, |s.handles|), {}), Dispatched(s, |called|, script))
  }

  /** A round moves one turn from those to come to those had. */
  lemma OneRound(called: seq<nat>, s: State, script: seq<seq<Call>>)
    requires Sound(s) && s.current != -1 && s.queue != []
    ensures Ahead(called + [s.queue[0]], RoundOf(s, CallsOf(script, |called|)), script) == Ahead(called, s, script)
  {
    var n, outs := |called|, Stopping(script, |s.handles|);
    var t := RoundOf(s, CallsOf(script, n));
    assert OutBy(outs, n) == StoppedBy(CallsOf(script, n), |s.handles|);
    assert called + ([s.queue[0]] + Served(t.queue, n + 1, outs, {}))
        == called + [s.queue[0]] + Served(t.queue, n + 1, outs, {});
  }

  lemma InitKeeps(s: State)
    requires Sound(s)
    ensures Sound(s.(handles := s.handles + [Handle(false, -1)]))
  {
    var t := s.(handles := s.handles + [Handle(false, -1)]);
    forall k | 0 <= k < |t.entries| ensures EntryOk(t, k) {
      assert EntryOk(s, k);
    }
    forall k | 0 <= k < |t.handles| ensures HandleOk(t, k) {
      assert k < |s.handles| ==> HandleOk(s, k);
    }
    forall d | d in t.index ensures Indexed(t, d) {
      assert Indexed(s, d);
    }
  }
}
