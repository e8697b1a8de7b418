/** What the calls on I/O watchers do to the watchers, and what a dispatch is made of, event by event. */
module IoLaws {
  import opened IoWatchers
  import opened IoDispatch
  import opened Moments
  import opened Sequences

  /** All watchers but w are as before. */
  ghost predicate OnlyIo(a: seq<Io>, b: seq<Io>, w: nat) {
    |b| == |a| && forall v :: 0 <= v < |a| && v != w ==> b[v] == a[v]
  }

  /** What the calls of a callback do; a call that an assertion of the source forbids is not made. */
  ghost predicate Acts(m: Moment, t: Moment, call: Call) {
    match call
    case Start(w, events) =>
      if w < |m.s.io| && {} < events <= INTEREST && 0 <= m.s.io[w].fd < INT_MAX && CanHold(m.s, m.s.io[w].fd + 1) then
        && OnlyIo(m.s.io, t.s.io, w) && t.s.kernel == m.s.kernel && t.closed == m.closed
        && t.s.io[w] == Io(m.s.io[w].fd, m.s.io[w].pevents + events, m.s.io[w].events)
        && (t.s.queue == m.s.queue || (w !in m.s.queue && t.s.queue == m.s.queue + [w]))
      else t == m
    case Stop(w, events) =>
      if w < |m.s.io| && {} < events <= INTEREST && m.s.io[w].fd >= -1 then
        && OnlyIo(m.s.io, t.s.io, w) && t.s.kernel == m.s.kernel && t.closed == m.closed
        && t.s.io[w].fd == m.s.io[w].fd && t.s.io[w].pevents == m.s.io[w].pevents - events
        && (t.s.io[w].events == if t.s.io[w].pevents == {} then {} else m.s.io[w].events)
        && (forall v :: v != w ==> (v in t.s.queue <==> v in m.s.queue))
      else t == m
    case DoClose(w) =>
      if w < |m.s.io| && m.s.io[w].fd >= 0 then
        && OnlyIo(m.s.io, t.s.io, w) && t.s.io[w] == Io(-1, {}, {}) && t.s.kernel == m.s.kernel - {m.s.io[w].fd}
        && t.closed == m.closed + {m.s.io[w].fd}
      else t == m
    case DoOpen(fd) =>
      if fd >= 0 && forall v :: 0 <= v < |m.s.io| ==> m.s.io[v].fd != fd then
        t == m.(s := m.s.(io := m.s.io + [Io(fd, {}, {})]))
      else t == m
  }

  lemma StartActs(m: Moment, w: nat, events: set<Event>)
    requires Sound(m.s)
    ensures Acts(m, Performed(m, Start(w, events)), Start(w, events))
  {
    if MayStart(m.s, w, events) {
      assert Performed(m, Start(w, events)).s.io == Wanting(m.s, w, events).io;
    }
  }

  lemma StopActs(m: Moment, w: nat, events: set<Event>)
    requires Sound(m.s)
    ensures Acts(m, Performed(m, Stop(w, events)), Stop(w, events))
  {
    if MayStop(m.s, w, events) {
      assert IoOk(m.s, w);
      WithoutMembers(m.s.queue, w);
      StopKeeps(m.s, w, events);
      assert IoOk(StoppedAny(m.s, w, events), w);
    }
  }

  lemma CloseActs(m: Moment, w: nat)
    requires Sound(m.s)
    ensures Acts(m, Performed(m, DoClose(w)), DoClose(w))
  {
    if MayClose(m.s, w) {
      StoppedIdle(m.s, w);
      StoppedKernel(m.s, w, INTEREST);
    }
  }

  lemma StoppedKernel(s: State, w: nat, events: set<Event>)
    requires Shaped(s) && w < |s.io|
    ensures StoppedAny(s, w, events).kernel == s.kernel
  {
  }

  lemma PerformedActs(m: Moment, call: Call)
    requires Sound(m.s)
    ensures Acts(m, Performed(m, call), call)
  {
    match call {
      case Start(w, events) => StartActs(m, w, events);
      case Stop(w, events) => StopActs(m, w, events);
      case DoClose(w) => CloseActs(m, w);
      case DoOpen(_) =>
    }
  }

  /** A callback makes all of its calls, one after the other, and nothing else happens to the watchers. */
  lemma {:induction false} CallbackActs(m: Moment, calls: seq<Call>)
    requires Sound(m.s)
    ensures Makes(Acts, calls, m, PerformedAll(m, calls))
    decreases |calls|
  {
    if calls == [] {
      MakesNone(Acts, m);
    } else {
      var before := calls[..|calls| - 1];
      CallbackActs(m, before);
      PerformedAllKeeps(m, before);
      PerformedActs(PerformedAll(m, before), calls[|calls| - 1]);
      MakesLast(Acts, calls, m, PerformedAll(m, before), PerformedAll(m, calls));
    }
  }

  /** An open descriptor with a slot that no watcher is in. */
  ghost predicate Unwatched(m: Moment, fd: int) {
    0 <= fd < m.s.nwatchers && fd !in m.closed && forall w :: 0 <= w < |m.s.io| && m.s.io[w].pevents != {} ==> m.s.io[w].fd != fd
  }

  lemma UnwatchedSlot(m: Moment, fd: int)
    requires Sound(m.s) && 0 <= fd < m.s.nwatchers && fd !in m.closed
    ensures Unwatched(m, fd) <==> m.s.watchers[fd] == Null
  {
    assert SlotOk(m.s, fd);
    if m.s.watchers[fd] == Null {
      DisarmKeeps(m.s, fd);
    } else {
      assert m.s.io[m.s.watchers[fd].w].fd == fd;
    }
  }

  /**
    One event of a dispatch: it leads to nobody, and then at most disarms a descriptor that nobody watches, or to one
    callback, which makes the next calls of the script.
  */
  lemma EventActs(m: Moment, events: seq<PollEvent>, script: seq<seq<Call>>, i: nat) returns (r: Report)
    requires Sound(m.s) && i < |events|
    ensures r == Recipient(Run(m, events, script, i).at, events[i])
    ensures var c, d := Run(m, events, script, i), Run(m, events, script, i + 1);
            if r == Nobody then
              && d.called == c.called && d.at.closed == c.at.closed && d.at.s == c.at.s.(kernel := d.at.s.kernel)
              && (d.at.s.kernel == if Unwatched(c.at, events[i].data) then c.at.s.kernel - {events[i].data} else c.at.s.kernel)
            else
              d.called == c.called + [r] && Makes(Acts, if |c.called| < |script| then script[|c.called|] else [], c.at, d.at)
  {
    var c := Run(m, events, script, i);
    r := Recipient(c.at, events[i]);
    SoundAt(m, events, script, i);
    if 0 <= events[i].data < c.at.s.nwatchers && events[i].data !in c.at.closed {
      UnwatchedSlot(c.at, events[i].data);
    }
    CallbackActs(c.at, CallsOf(script, |c.called|));
  }
}
