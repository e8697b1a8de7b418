/** The index of watched paths in 3rd/libuv/src/unix/linux-inotify.c. */
module InotifyIndex {
  import opened Sequences

  /** A struct watcher_list. A freed one must not be touched any more. */
  datatype Entry = Entry(wd: int, watchers: seq<nat>, iterating: bool, freed: bool)

  /** A uv_fs_event_t. */
  datatype Handle = Handle(active: bool, wd: int)

  /**
    index is the red-black tree by wd. While events of an entry are dispatched, current is that entry and
    queue holds the handles that still wait for their turn.
  */
  datatype State = State(entries: seq<Entry>, index: map<int, nat>, handles: seq<Handle>, current: int, queue: seq<nat>)

  ghost predicate Members(s: State, q: seq<nat>, wd: int) {
    Distinct(q) && forall h :: h in q ==> h < |s.handles| && s.handles[h] == Handle(true, wd)
  }

  ghost predicate EntryOk(s: State, e: nat)
    requires e < |s.entries|
  {
    var x := s.entries[e];
    if x.freed then !x.iterating && x.watchers == [] && e != s.current
    else
      && x.wd in s.index && s.index[x.wd] == e && (x.iterating <==> e == s.current)
      && (x.watchers != [] || x.iterating) && Members(s, x.watchers, x.wd)
  }

  ghost predicate HandleOk(s: State, h: nat)
    requires h < |s.handles|
  {
    s.handles[h].active ==>
      && s.handles[h].wd in s.index && s.index[s.handles[h].wd] < |s.entries|
      && (h in s.entries[s.index[s.handles[h].wd]].watchers || (s.index[s.handles[h].wd] == s.current && h in s.queue))
  }

  ghost predicate Indexed(s: State, wd: int) {
    wd in s.index && s.index[wd] < |s.entries| && s.entries[s.index[wd]].wd == wd && !s.entries[s.index[wd]].freed
  }

  ghost predicate QueueOk(s: State) {
    if s.current == -1 then s.queue == []
    else
      && 0 <= s.current < |s.entries| && !s.entries[s.current].freed
      && Members(s, s.queue, s.entries[s.current].wd)
      && forall h :: h in s.queue ==> h !in s.entries[s.current].watchers
  }

  /** Each active handle is in exactly one entry, that of its wd, and an entry is freed when it has none left, not earlier. */
  ghost predicate Sound(s: State) {
    && (forall e :: 0 <= e < |s.entries| ==> EntryOk(s, e))
    && (forall h :: 0 <= h < |s.handles| ==> HandleOk(s, h))
    && (forall wd :: wd in s.index ==> Indexed(s, wd))
    && QueueOk(s)
  }

  // ---- uv_fs_event_start ----

  /** The entry for wd, a new one if there is none. */
  function WithEntry(s: State, wd: int): State {
    if wd in s.index then s
    else s.(entries := s.entries + [Entry(wd, [], false, false)], index := s.index[wd := |s.entries|])
  }

  function Started(s: State, h: nat, wd: int): State
    requires h < |s.handles| && (wd in s.index ==> s.index[wd] < |s.entries|)
  {
    var t := WithEntry(s, wd);
    var e := t.index[wd];
    t.(entries := t.entries[e := t.entries[e].(watchers := t.entries[e].watchers + [h])],
       handles := t.handles[h := Handle(true, wd)])
  }

  lemma StartedKeeps(s: State, h: nat, wd: int)
    requires Sound(s) && h < |s.handles| && !s.handles[h].active && (wd in s.index ==> Indexed(s, wd))
    ensures Sound(Started(s, h, wd))
  {
    var t := Started(s, h, wd);
    var e := t.index[wd];
    assert e < |s.entries| ==> EntryOk(s, e);
    forall k | 0 <= k < |t.entries| ensures EntryOk(t, k) {
      assert k < |s.entries| ==> EntryOk(s, k);
      assert k < |s.entries| ==> h !in s.entries[k].watchers;
    }
    forall k | 0 <= k < |t.handles| ensures HandleOk(t, k) {
      assert HandleOk(s, k);
      assert t.entries[e].watchers[|t.entries[e].watchers| - 1] == h;
    }
    forall d | d in t.index ensures Indexed(t, d) {
      assert d in s.index ==> Indexed(s, d);
    }
    assert h !in s.queue;
  }

  // ---- uv_fs_event_stop ----

  /** maybe_free_watcher_list. */
  function MaybeFreed(s: State, e: nat): State
    requires e < |s.entries|
  {
    if s.entries[e].iterating || s.entries[e].watchers != [] then s
    else s.(entries := s.entries[e := s.entries[e].(freed := true)], index := s.index - {s.entries[e].wd})
  }

  /** The handle leaves whichever list it is on. */
  function Unlinked(s: State, h: nat, e: nat): State
    requires h < |s.handles| && e < |s.entries|
  {
    s.(entries := s.entries[e := s.entries[e].(watchers := Without(s.entries[e].watchers, h))],
       queue := Without(s.queue, h), handles := s.handles[h := Handle(false, -1)])
  }

  function StoppedFs(s: State, h: nat): State
    requires h < |s.handles| && s.handles[h].wd in s.index && s.index[s.handles[h].wd] < |s.entries|
  {
    MaybeFreed(Unlinked(s, h, s.index[s.handles[h].wd]), s.index[s.handles[h].wd])
  }

  /** The lemma that uv_fs_event_stop's assertion rests on. */
  lemma StopFinds(s: State, h: nat)
    requires Sound(s) && h < |s.handles| && s.handles[h].active
    ensures Indexed(s, s.handles[h].wd)
  {
    assert HandleOk(s, h);
  }

  lemma StoppedKeeps(s: State, h: nat)
    requires Sound(s) && h < |s.handles| && s.handles[h].active && Indexed(s, s.handles[h].wd)
    ensures Sound(StoppedFs(s, h))
  {
    var wd := s.handles[h].wd;
    var e := s.index[wd];
    var t := Unlinked(s, h, e);
    var t' := StoppedFs(s, h);
    assert EntryOk(s, e);
    WithoutMembers(s.entries[e].watchers, h);
    WithoutMembers(s.queue, h);
    forall k | 0 <= k < |t'.entries| ensures EntryOk(t', k) {
      assert EntryOk(s, k);
      assert k != e ==> h !in s.entries[k].watchers;
    }
    forall k | 0 <= k < |t'.handles| ensures HandleOk(t', k) {
      assert HandleOk(s, k);
    }
    forall d | d in t'.index ensures Indexed(t', d) {
      assert Indexed(s, d);
    }
  }

  // ---- the dispatch of uv__inotify_read ----

  function Begun(s: State, e: nat): State
    requires e < |s.entries|
  {
    s.(entries := s.entries[e := s.entries[e].(iterating := true, watchers := [])], current := e, queue := s.entries[e].watchers)
  }

  function Turned(s: State): State
    requires 0 <= s.current < |s.entries| && s.queue != []
  {
    s.(entries := s.entries[s.current := s.entries[s.current].(watchers := s.entries[s.current].watchers + [s.queue[0]])],
       queue := s.queue[1..])
  }

  function Ended(s: State): State
    requires 0 <= s.current < |s.entries|
  {
    MaybeFreed(s.(entries := s.entries[s.current := s.entries[s.current].(iterating := false)], current := -1), s.current)
  }

  lemma BegunKeeps(s: State, wd: int)
    requires Sound(s) && s.current == -1 && wd in s.index && Indexed(s, wd)
    ensures Sound(Begun(s, s.index[wd]))
  {
    var e := s.index[wd];
    var t := Begun(s, e);
    assert EntryOk(s, e);
    forall k | 0 <= k < |t.entries| ensures EntryOk(t, k) {
      assert EntryOk(s, k);
    }
    forall k | 0 <= k < |t.handles| ensures HandleOk(t, k) {
      assert HandleOk(s, k);
    }
    forall d | d in t.index ensures Indexed(t, d) {
      assert Indexed(s, d);
    }
  }

  lemma TurnedKeeps(s: State)
    requires Sound(s) && 0 <= s.current < |s.entries| && s.queue != []
    ensures Sound(Turned(s)) && s.queue[0] < |s.handles|
  {
    var t := Turned(s);
    var e, h := s.current, s.queue[0];
    assert EntryOk(s, e) && h in s.queue;
    assert s.queue == [h] + s.queue[1..];
    var w := t.entries[e].watchers;
    assert forall x :: x in w <==> x in s.entries[e].watchers || x == h;
    assert forall x :: x in t.queue ==> x in s.queue;
    assert forall k :: 0 <= k < |w| ==> w[k] in w;
    forall k | 0 <= k < |t.entries| ensures EntryOk(t, k) {
      assert EntryOk(s, k);
    }
    forall k | 0 <= k < |t.handles| ensures HandleOk(t, k) {
      assert HandleOk(s, k);
    }
    forall d | d in t.index ensures Indexed(t, d) {
      assert Indexed(s, d);
    }
  }

  lemma EndedKeeps(s: State)
    requires Sound(s) && 0 <= s.current < |s.entries| && s.queue == []
    ensures Sound(Ended(s))
  {
    var t := Ended(s);
    assert EntryOk(s, s.current);
    forall k | 0 <= k < |t.entries| ensures EntryOk(t, k) {
      assert EntryOk(s, k);
    }
    forall k | 0 <= k < |t.handles| ensures HandleOk(t, k) {
      assert HandleOk(s, k);
    }
    forall d | d in t.index ensures Indexed(t, d) {
      assert Indexed(s, d);
    }
  }
}
