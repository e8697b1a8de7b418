/** What the callbacks of a poll do, and whom uv__io_poll calls: the dispatch loop of linux-core.c as a function. */
module IoDispatch {
  import opened IoWatchers
  import opened PowersOfTwo
  import opened Sequences

  const INT_MAX: nat := 0x7FFF_FFFF

  /** The epoll_event of a poll; data is the descriptor, -1 once it has been invalidated. */
  datatype PollEvent = PollEvent(data: int, events: set<Event>)

  /** What a callback may do. DoClose is uv__io_close and the close of the descriptor, DoOpen a new watcher for a descriptor. */
  datatype Call = Start(w: nat, events: set<Event>) | Stop(w: nat, events: set<Event>) | DoClose(w: nat) | DoOpen(fd: int)

  /** A callback: watcher w hears of these events of its descriptor fd. */
  datatype Report = Nobody | Report(w: nat, fd: int, events: set<Event>)

  /** The loop, and the descriptors closed since the poll. */
  datatype Moment = Moment(s: State, closed: set<int>)

  /** The events to report to a watcher: those it asked for, and an error or hangup alone stands for all of them. */
  function Wanted(events: set<Event>, pevents: set<Event>): set<Event> {
    var e := events * (pevents + {Err, Hup});
    if e == {Err} || e == {Hup} then e + pevents * INTEREST else e
  }

  /** No other watcher is on the descriptor of this one. */
  ghost predicate Single(io: seq<Io>, w: nat)
    requires w < |io|
  {
    io[w].fd >= 0 ==> forall v :: 0 <= v < |io| && v != w ==> io[v].fd != io[w].fd
  }

  /** No two watchers are on the same open descriptor. */
  ghost predicate OnePerFd(io: seq<Io>) { forall w :: 0 <= w < |io| ==> Single(io, w) }

  /** Only watcher v has changed, and not to another open descriptor. */
  ghost predicate OnlyWatcher(a: seq<Io>, b: seq<Io>, v: nat) {
    && |b| == |a| && (forall u :: 0 <= u < |a| && u != v ==> b[u] == a[u])
    && (v < |a| ==> b[v].fd == a[v].fd || b[v].fd == -1)
  }

  lemma StillOnePerFd(a: seq<Io>, b: seq<Io>, v: nat)
    requires OnePerFd(a) && OnlyWatcher(a, b, v)
    ensures OnePerFd(b)
  {
    forall w | 0 <= w < |b| ensures Single(b, w) {
      assert Single(a, w) && (v < |a| ==> Single(a, v));
    }
  }

  lemma OneMorePerFd(io: seq<Io>, fd: int)
    requires OnePerFd(io) && forall v :: 0 <= v < |io| ==> io[v].fd != fd
    ensures OnePerFd(io + [Io(fd, {}, {})])
  {
    var b := io + [Io(fd, {}, {})];
    forall w | 0 <= w < |b| ensures Single(b, w) {
      assert w < |io| ==> Single(io, w);
    }
  }

  ghost predicate Sound(s: State) { Registered(s) && OnePerFd(s.io) && s.watchers != [] }

  /** The array has its two slots at the end. */
  predicate Shaped(s: State) { |s.watchers| == s.nwatchers + 2 }

  // ---- a call out of a callback; what the assertions of the source forbid is not called ----

  predicate MayStart(s: State, w: nat, events: set<Event>) {
    Shaped(s) && w < |s.io| && {} < events <= INTEREST && 0 <= s.io[w].fd < INT_MAX && CanHold(s, s.io[w].fd + 1)
  }

  predicate MayStop(s: State, w: nat, events: set<Event>) {
    Shaped(s) && w < |s.io| && {} < events <= INTEREST && s.io[w].fd >= -1
  }

  predicate MayClose(s: State, w: nat) { Shaped(s) && w < |s.io| && s.io[w].fd >= 0 }

  ghost predicate MayOpen(s: State, fd: int) { fd >= 0 && forall v :: 0 <= v < |s.io| ==> s.io[v].fd != fd }

  /** uv__io_stop. */
  function StoppedAny(s: State, w: nat, events: set<Event>): State
    requires Shaped(s) && w < |s.io|
  {
    if 0 <= s.io[w].fd < s.nwatchers then StoppedIo(s, w, events) else s
  }

  /** uv__io_close, and the close of the descriptor that follows it. */
  function ClosedIo(s: State, w: nat): State
    requires Shaped(s) && w < |s.io|
  {
    var t := StoppedAny(s, w, INTEREST);
    t.(io := t.io[w := t.io[w].(fd := -1)], kernel := t.kernel - {s.io[w].fd})
  }

  ghost function StartedIf(s: State, w: nat, events: set<Event>): State {
    if MayStart(s, w, events) then Started(Roomy(s, s.io[w].fd + 1), w, events) else s
  }

  ghost function StoppedIf(s: State, w: nat, events: set<Event>): State {
    if MayStop(s, w, events) then StoppedAny(s, w, events) else s
  }

  ghost function OpenedIf(s: State, fd: int): State {
    if MayOpen(s, fd) then s.(io := s.io + [Io(fd, {}, {})]) else s
  }

  ghost function Performed(m: Moment, call: Call): Moment {
    match call
    case Start(w, events) => m.(s := StartedIf(m.s, w, events))
    case Stop(w, events) => m.(s := StoppedIf(m.s, w, events))
    case DoOpen(fd) => m.(s := OpenedIf(m.s, fd))
    case DoClose(w) => if MayClose(m.s, w) then Moment(ClosedIo(m.s, w), m.closed + {m.s.io[w].fd}) else m
  }

  ghost function PerformedAll(m: Moment, calls: seq<Call>): Moment {
    if calls == [] then m else Performed(PerformedAll(m, calls[..|calls| - 1]), calls[|calls| - 1])
  }

  // ---- the events of a poll ----

  /** uv__platform_invalidate_fd makes the events of closed descriptors lead nowhere. */
  function Alive(e: PollEvent, closed: set<int>): PollEvent { if e.data in closed then e.(data := -1) else e }

  function Living(events: seq<PollEvent>, closed: set<int>): seq<PollEvent> {
    seq(|events|, j requires 0 <= j < |events| => Alive(events[j], closed))
  }

  lemma LivingTwice(events: seq<PollEvent>, a: set<int>, b: set<int>)
    requires a <= b
    ensures Living(Living(events, a), b) == Living(events, b)
  {
  }

  /** From event i on nothing but closes has touched the events. */
  ghost predicate AliveFrom(polled: seq<PollEvent>, events: seq<PollEvent>, closed: set<int>, i: nat) {
    |polled| == |events| && forall j :: i <= j < |events| ==> polled[j] == Alive(events[j], closed)
  }

  lemma AliveTwice(a: seq<PollEvent>, b: seq<PollEvent>, c: seq<PollEvent>, x: set<int>, y: set<int>, i: nat)
    requires AliveFrom(b, a, x, i) && AliveFrom(c, b, y, i + 1) && x <= y
    ensures AliveFrom(c, a, y, i + 1)
  {
  }

  /** An event is for an open descriptor of the array, or for none. */
  predicate EventOk(m: Moment, e: PollEvent) { e.data == -1 || (0 <= e.data < m.s.nwatchers && e.data !in m.closed) }

  ghost predicate EventsOk(m: Moment, events: seq<PollEvent>) { forall j :: 0 <= j < |events| ==> EventOk(m, events[j]) }

  lemma AllLiving(m: Moment, events: seq<PollEvent>)
    requires EventsOk(m, events)
    ensures Living(events, m.closed) == events
  {
  }

  lemma StillOk(m: Moment, t: Moment, events: seq<PollEvent>)
    requires EventsOk(m, events) && t.closed == m.closed && m.s.nwatchers <= t.s.nwatchers
    ensures EventsOk(t, events)
  {
  }

  lemma OneDead(m: Moment, t: Moment, events: seq<PollEvent>, fd: int)
    requires EventsOk(m, events) && fd >= 0 && t.closed == m.closed + {fd} && m.s.nwatchers <= t.s.nwatchers
    ensures Living(events, {fd}) == Living(events, t.closed) && EventsOk(t, Living(events, {fd}))
  {
  }

  /** The two slots at the end, which while events are dispatched hold these and their number, are set. */
  function Ending(s: State, a: Slot, b: Slot): State
    requires Shaped(s)
  {
    s.(watchers := s.watchers[s.nwatchers := a][s.nwatchers + 1 := b])
  }

  lemma EndAt(s: State)
    requires Shaped(s)
    ensures Trailing(s) == [s.watchers[s.nwatchers], s.watchers[s.nwatchers + 1]]
  {
  }

  // ---- the dispatch ----

  /** Whom the loop calls for an event: whoever is in the slot of its descriptor, if that has not been closed. */
  function Recipient(m: Moment, e: PollEvent): Report {
    if !(0 <= e.data < m.s.nwatchers <= |m.s.watchers|) || e.data in m.closed then Nobody
    else
      match m.s.watchers[e.data]
      case Of(w) =>
        var events := if w < |m.s.io| then Wanted(e.events, m.s.io[w].pevents) else {};
        if events == {} then Nobody else Report(w, e.data, events)
      case _ => Nobody
  }

  /** An event of a descriptor that nobody watches any more makes the loop disarm it. */
  function Disarmed(m: Moment, e: PollEvent): Moment {
    if 0 <= e.data < m.s.nwatchers <= |m.s.watchers| && e.data !in m.closed && m.s.watchers[e.data] == Null
    then m.(s := m.s.(kernel := m.s.kernel - {e.data}))
    else m
  }

  /** One event: whoever is called makes these calls. */
  ghost function AfterEvent(m: Moment, e: PollEvent, calls: seq<Call>): Moment {
    if Recipient(m, e) == Nobody then Disarmed(m, e) else PerformedAll(m, calls)
  }

  function CallsOf(script: seq<seq<Call>>, n: nat): seq<Call> { if n < |script| then script[n] else [] }

  /** How far a dispatch has come: the loop now, and the callbacks so far. */
  datatype Course = Course(at: Moment, called: seq<Report>)

  /** One event more; the k-th callback makes the k-th calls of the script. */
  ghost function Further(c: Course, e: PollEvent, script: seq<seq<Call>>): Course {
    var r := Recipient(c.at, e);
    Course(AfterEvent(c.at, e, CallsOf(script, |c.called|)), c.called + if r == Nobody then [] else [r])
  }

  /** How far the loop has come when it turns to event i of a poll. */
  ghost function Run(m: Moment, events: seq<PollEvent>, script: seq<seq<Call>>, i: nat): Course
    requires i <= |events|
  {
    if i == 0 then Course(m, []) else Further(Run(m, events, script, i - 1), events[i - 1], script)
  }

  lemma SameForAlive(m: Moment, e: PollEvent, calls: seq<Call>)
    ensures Recipient(m, Alive(e, m.closed)) == Recipient(m, e)
    ensures AfterEvent(m, Alive(e, m.closed), calls) == AfterEvent(m, e, calls)
  {
  }

  /**
    An event reaches the live watcher of its descriptor unless it wants none of what has happened; an error or a hangup
    it always wants, and if there is nothing but one of these it is told of everything it waits for.
  */
  lemma RecipientIsLive(m: Moment, e: PollEvent, w: nat, events: set<Event>)
    requires Sound(m.s)
    ensures Recipient(m, e) == Report(w, e.data, events) <==>
            && 0 <= e.data && e.data !in m.closed && w < |m.s.io| && m.s.io[w].fd == e.data && m.s.io[w].pevents != {}
            && var v := m.s.io[w].pevents;
               var part := e.events * (v + {Err, Hup});
               part != {} && events == if part == {Err} || part == {Hup} then part + v else part
  {
    if 0 <= e.data < m.s.nwatchers {
      assert SlotOk(m.s, e.data);
    }
    if w < |m.s.io| {
      assert IoOk(m.s, w);
      assert m.s.io[w].pevents * INTEREST == m.s.io[w].pevents;
    }
  }

  lemma {:induction false} ClosedGrows(m: Moment, calls: seq<Call>)
    ensures m.closed <= PerformedAll(m, calls).closed
    decreases |calls|
  {
    if calls != [] {
      ClosedGrows(m, calls[..|calls| - 1]);
    }
  }

  /** Callbacks are not taken back, and neither are closes. */
  ghost predicate Before(c: Course, d: Course) { c.called <= d.called && c.at.closed <= d.at.closed }

  lemma FurtherAdds(c: Course, e: PollEvent, script: seq<seq<Call>>)
    ensures Before(c, Further(c, e, script))
  {
    ClosedGrows(c.at, CallsOf(script, |c.called|));
  }

  lemma BeforeThen(a: Course, b: Course, c: Course)
    requires Before(a, b) && Before(b, c)
    ensures Before(a, c)
  {
  }

  lemma {:induction false} RunAdds(m: Moment, events: seq<PollEvent>, script: seq<seq<Call>>, i: nat, j: nat)
    requires i <= j <= |events|
    ensures Before(Run(m, events, script, i), Run(m, events, script, j))
    decreases j
  {
    if i < j {
      var c := Run(m, events, script, j - 1);
      RunAdds(m, events, script, i, j - 1);
      FurtherAdds(c, events[j - 1], script);
      BeforeThen(Run(m, events, script, i), c, Further(c, events[j - 1], script));
    }
  }

  lemma PickedIsReported(m: Moment, events: seq<PollEvent>, script: seq<seq<Call>>, i: nat)
    requires i < |events| && Recipient(Run(m, events, script, i).at, events[i]) != Nobody
    ensures Recipient(Run(m, events, script, i).at, events[i]) in Run(m, events, script, |events|).called
  {
    var c, all := Run(m, events, script, i), Run(m, events, script, |events|).called;
    RunAdds(m, events, script, i + 1, |events|);
    assert c.called + [Recipient(c.at, events[i])] <= all;
    assert all[|c.called|] == Recipient(c.at, events[i]);
  }

  /** No callback is for a descriptor closed since the poll, even if its number has been used again. */
  lemma NoneForClosed(m: Moment, events: seq<PollEvent>, script: seq<seq<Call>>, i: nat, j: nat)
    requires i <= j < |events| && events[j].data in Run(m, events, script, i).at.closed
    ensures Recipient(Run(m, events, script, j).at, events[j]) == Nobody
  {
    RunAdds(m, events, script, i, j);
  }

  // ---- a watcher that nobody touches ----

  predicate Touches(call: Call, w: nat) { !call.DoOpen? && call.w == w }

  ghost predicate Untouched(script: seq<seq<Call>>, w: nat) {
    forall n, k :: 0 <= n < |script| && 0 <= k < |script[n]| ==> !Touches(script[n][k], w)
  }

  /** The watcher is live, and its descriptor has not been closed. */
  predicate Waits(m: Moment, w: nat, fd: int, pevents: set<Event>) {
    w < |m.s.io| && m.s.io[w].fd == fd >= 0 && m.s.io[w].pevents == pevents != {} && fd !in m.closed
  }

  lemma TouchesOne(m: Moment, call: Call)
    requires !call.DoOpen?
    ensures OnlyWatcher(m.s.io, Performed(m, call).s.io, call.w)
  {
    match call {
      case Start(w, events) =>
        if MayStart(m.s, w, events) {
          assert Performed(m, call).s.io == Wanting(m.s, w, events).io;
        }
      case Stop(w, events) => StopTouchesOne(m.s, w, events);
      case DoClose(w) =>
    }
  }

  lemma StopTouchesOne(s: State, w: nat, events: set<Event>)
    ensures OnlyWatcher(s.io, StoppedIf(s, w, events).io, w)
  {
  }

  lemma PerformedWaits(m: Moment, call: Call, w: nat, fd: int, pevents: set<Event>)
    requires OnePerFd(m.s.io) && Waits(m, w, fd, pevents) && !Touches(call, w)
    ensures OnePerFd(Performed(m, call).s.io) && Waits(Performed(m, call), w, fd, pevents)
  {
    if !call.DoOpen? {
      TouchesOne(m, call);
      StillOnePerFd(m.s.io, Performed(m, call).s.io, call.w);
    } else if MayOpen(m.s, call.fd) {
      OneMorePerFd(m.s.io, call.fd);
    }
    assert Single(m.s.io, w);
  }

  lemma {:induction false} PerformedAllWaits(m: Moment, calls: seq<Call>, w: nat, fd: int, pevents: set<Event>)
    requires OnePerFd(m.s.io) && Waits(m, w, fd, pevents) && forall k :: 0 <= k < |calls| ==> !Touches(calls[k], w)
    ensures OnePerFd(PerformedAll(m, calls).s.io) && Waits(PerformedAll(m, calls), w, fd, pevents)
    decreases |calls|
  {
    if calls != [] {
      PerformedAllWaits(m, calls[..|calls| - 1], w, fd, pevents);
      PerformedWaits(PerformedAll(m, calls[..|calls| - 1]), calls[|calls| - 1], w, fd, pevents);
    }
  }

  lemma {:induction false} StillWaits(m: Moment, events: seq<PollEvent>, script: seq<seq<Call>>, i: nat, w: nat, fd: int,
                                      pevents: set<Event>)
    requires OnePerFd(m.s.io) && i <= |events| && Untouched(script, w) && Waits(m, w, fd, pevents)
    ensures OnePerFd(Run(m, events, script, i).at.s.io) && Waits(Run(m, events, script, i).at, w, fd, pevents)
    decreases i
  {
    if i > 0 {
      StillWaits(m, events, script, i - 1, w, fd, pevents);
      var calls := CallsOf(script, |Run(m, events, script, i - 1).called|);
      PerformedAllWaits(Run(m, events, script, i - 1).at, calls, w, fd, pevents);
    }
  }

  lemma {:induction false} SoundAt(m: Moment, events: seq<PollEvent>, script: seq<seq<Call>>, i: nat)
    requires Sound(m.s) && i <= |events|
    ensures Sound(Run(m, events, script, i).at.s)
    decreases i
  {
    if i > 0 {
      SoundAt(m, events, script, i - 1);
      var t := Run(m, events, script, i - 1).at;
      DisarmedKeeps(t, events[i - 1]);
      PerformedAllKeeps(t, CallsOf(script, |Run(m, events, script, i - 1).called|));
    }
  }

  /** What a watcher that wants the events v hears of the events p. */
  ghost predicate Hears(p: set<Event>, v: set<Event>, events: set<Event>) {
    && {} < events <= v + {Err, Hup} && (forall x :: x in p && x in v + {Err, Hup} ==> x in events)
    && if p * (v + {Err, Hup}) == {Err} || p * (v + {Err, Hup}) == {Hup} then v <= events else events <= p
  }

  lemma UntouchedPicked(m: Moment, events: seq<PollEvent>, script: seq<seq<Call>>, i: nat, w: nat, v: set<Event>)
    returns (heard: set<Event>)
    requires Sound(m.s) && i < |events| && Untouched(script, w) && Waits(m, w, events[i].data, v)
    requires events[i].events * (v + {Err, Hup}) != {}
    ensures Hears(events[i].events, v, heard)
    ensures Recipient(Run(m, events, script, i).at, events[i]) == Report(w, events[i].data, heard)
  {
    var part := events[i].events * (v + {Err, Hup});
    heard := if part == {Err} || part == {Hup} then part + v else part;
    StillWaits(m, events, script, i, w, events[i].data, v);
    SoundAt(m, events, script, i);
    RecipientIsLive(Run(m, events, script, i).at, events[i], w, heard);
  }

  /** Its events reach it, whatever the callbacks before have done to others. */
  lemma UntouchedHears(m: Moment, events: seq<PollEvent>, script: seq<seq<Call>>, i: nat, w: nat, v: set<Event>)
    returns (heard: set<Event>)
    requires Sound(m.s) && i < |events| && Untouched(script, w) && Waits(m, w, events[i].data, v)
    requires events[i].events * (v + {Err, Hup}) != {}
    ensures Hears(events[i].events, v, heard)
    ensures Report(w, events[i].data, heard) in Run(m, events, script, |events|).called
  {
    heard := UntouchedPicked(m, events, script, i, w, v);
    PickedIsReported(m, events, script, i);
  }

  // ---- what the calls keep ----

  lemma OthersElsewhere(s: State, w: nat)
    requires OnePerFd(s.io) && w < |s.io| && s.io[w].fd >= 0
    ensures Alone(s, w)
  {
    assert Single(s.io, w);
  }

  lemma RoomyKeeps(s: State, len: nat)
    requires Registered(s) && CanHold(s, len) && 0 < len
    ensures var t := Roomy(s, len);
            Registered(t) && t.io == s.io && t.watchers != [] && Trailing(t) == Trailing(s)
  {
    var t := Roomy(s, len);
    if t != s {
      ResizedKeeps(s, t.nwatchers);
    }
  }

  lemma StartKeeps(s: State, w: nat, events: set<Event>)
    requires Registered(s) && OnePerFd(s.io) && w < |s.io| && {} < events <= INTEREST
    requires 0 <= s.io[w].fd && CanHold(s, s.io[w].fd + 1)
    ensures var t := Started(Roomy(s, s.io[w].fd + 1), w, events);
            Sound(t) && Trailing(t) == Trailing(s)
  {
    RoomyKeeps(s, s.io[w].fd + 1);
    StartInRoom(Roomy(s, s.io[w].fd + 1), w, events);
  }

  lemma StartInRoom(r: State, w: nat, events: set<Event>)
    requires Sound(r) && w < |r.io| && 0 <= r.io[w].fd < r.nwatchers && {} < events <= INTEREST
    ensures Sound(Started(r, w, events)) && Trailing(Started(r, w, events)) == Trailing(r)
  {
    assert Single(r.io, w);
    StartedKeeps(r, w, events);
    StillOnePerFd(r.io, Wanting(r, w, events).io, w);
  }

  lemma StartGrows(s: State, w: nat, events: set<Event>)
    requires MayStart(s, w, events)
    ensures Started(Roomy(s, s.io[w].fd + 1), w, events).nwatchers >= s.nwatchers
  {
  }

  /** It does not matter that the array is resized after the watcher has been changed. */
  lemma WantingFirst(s: State, w: nat, events: set<Event>, len: nat)
    requires s.nwatchers <= |s.watchers| && w < |s.io| && CanHold(s, len)
    ensures Roomy(Wanting(s, w, events), len) == Wanting(Roomy(s, len), w, events)
  {
  }

  lemma StopKeeps(s: State, w: nat, events: set<Event>)
    requires Sound(s) && MayStop(s, w, events)
    ensures Sound(StoppedAny(s, w, events)) && Trailing(StoppedAny(s, w, events)) == Trailing(s)
    ensures 0 <= s.io[w].fd < s.nwatchers && s.io[w].pevents <= events && s.watchers[s.io[w].fd] != Null ==>
              s.watchers[s.io[w].fd] == Of(w) && s.nfds > 0
  {
    if 0 <= s.io[w].fd < s.nwatchers {
      OthersElsewhere(s, w);
      StoppedKeeps(s, w, events);
      StopTouchesOne(s, w, events);
      StillOnePerFd(s.io, StoppedAny(s, w, events).io, w);
    }
  }

  /** After uv__io_stop of all events the watcher is idle, whether or not it had a slot. */
  lemma StoppedIdle(s: State, w: nat)
    requires Sound(s) && w < |s.io| && s.io[w].fd >= 0
    ensures var t := StoppedAny(s, w, INTEREST);
            Sound(t) && t.io == s.io[w := Io(s.io[w].fd, {}, {})] && Trailing(t) == Trailing(s)
  {
    StopKeeps(s, w, INTEREST);
    assert IoOk(s, w) && IoOk(StoppedAny(s, w, INTEREST), w);
  }

  lemma CloseKeeps(s: State, w: nat)
    requires Sound(s) && w < |s.io| && s.io[w].fd >= 0
    ensures Sound(ClosedIo(s, w)) && Trailing(ClosedIo(s, w)) == Trailing(s)
  {
    var t := StoppedAny(s, w, INTEREST);
    StoppedIdle(s, w);
    OthersElsewhere(t, w);
    DeletedKeeps(t, s.io[w].fd);
    ForgottenKeeps(t.(kernel := t.kernel - {s.io[w].fd}), w);
    StillOnePerFd(t.io, ClosedIo(s, w).io, w);
  }

  lemma StartedIfKeeps(s: State, w: nat, events: set<Event>)
    requires Sound(s)
    ensures Sound(StartedIf(s, w, events))
  {
    if MayStart(s, w, events) {
      StartKeeps(s, w, events);
    }
  }

  lemma StartedIfDispatching(m: Moment, w: nat, events: set<Event>, polled: seq<PollEvent>)
    requires Sound(m.s) && EventsOk(m, polled)
    ensures var t := m.(s := StartedIf(m.s, w, events));
            Sound(t.s) && Trailing(t.s) == Trailing(m.s) && EventsOk(t, polled)
  {
    if MayStart(m.s, w, events) {
      StartKeeps(m.s, w, events);
      StartGrows(m.s, w, events);
      StillOk(m, m.(s := StartedIf(m.s, w, events)), polled);
    }
  }

  lemma StoppedIfKeeps(s: State, w: nat, events: set<Event>)
    requires Sound(s)
    ensures Sound(StoppedIf(s, w, events))
  {
    if MayStop(s, w, events) {
      StopKeeps(s, w, events);
    }
  }

  lemma OpenedIfKeeps(s: State, fd: int)
    requires Sound(s)
    ensures Sound(OpenedIf(s, fd))
  {
    if MayOpen(s, fd) {
      AddedKeeps(s, fd);
      OneMorePerFd(s.io, fd);
    }
  }

  lemma PerformedKeeps(m: Moment, call: Call)
    requires Sound(m.s)
    ensures Sound(Performed(m, call).s)
  {
    match call {
      case Start(w, events) => StartedIfKeeps(m.s, w, events);
      case Stop(w, events) => StoppedIfKeeps(m.s, w, events);
      case DoOpen(fd) => OpenedIfKeeps(m.s, fd);
      case DoClose(w) =>
        if MayClose(m.s, w) {
          CloseKeeps(m.s, w);
        }
    }
  }

  lemma {:induction false} PerformedAllKeeps(m: Moment, calls: seq<Call>)
    requires Sound(m.s)
    ensures Sound(PerformedAll(m, calls).s)
    decreases |calls|
  {
    if calls != [] {
      PerformedAllKeeps(m, calls[..|calls| - 1]);
      PerformedKeeps(PerformedAll(m, calls[..|calls| - 1]), calls[|calls| - 1]);
    }
  }

  lemma DisarmedKeeps(m: Moment, e: PollEvent)
    requires Sound(m.s)
    ensures Sound(Disarmed(m, e).s)
  {
    if 0 <= e.data < m.s.nwatchers && e.data !in m.closed && m.s.watchers[e.data] == Null {
      DisarmKeeps(m.s, e.data);
    }
  }

  lemma DisarmKeeps(s: State, fd: nat)
    requires Sound(s) && fd < s.nwatchers && s.watchers[fd] == Null
    ensures Sound(s.(kernel := s.kernel - {fd}))
    ensures forall v :: 0 <= v < |s.io| && s.io[v].pevents != {} ==> s.io[v].fd != fd
  {
    forall v | 0 <= v < |s.io| && s.io[v].pevents != {} ensures s.io[v].fd != fd {
      assert IoOk(s, v);
    }
    DeletedKeeps(s, fd);
  }

  /** The last two slots are nobody's. */
  lemma TrailingKeeps(s: State, a: Slot, b: Slot)
    requires Sound(s)
    ensures Sound(Ending(s, a, b)) && Trailing(Ending(s, a, b)) == [a, b]
  {
    var s' := Ending(s, a, b);
    UsedSet(s.watchers, s.nwatchers, s.nwatchers, a);
    UsedSet(s.watchers[s.nwatchers := a], s.nwatchers, s.nwatchers + 1, b);
    forall v | 0 <= v < |s.io| ensures IoOk(s', v) {
      assert IoOk(s, v);
    }
    forall k | 0 <= k < s.nwatchers ensures SlotOk(s', k) {
      assert SlotOk(s, k);
    }
  }

  lemma ForgottenKeeps(s: State, w: nat)
    requires Registered(s) && w < |s.io| && s.io[w].pevents == {}
    ensures Registered(s.(io := s.io[w := s.io[w].(fd := -1)]))
  {
    var s' := s.(io := s.io[w := s.io[w].(fd := -1)]);
    forall v | 0 <= v < |s.io| ensures IoOk(s', v) {
      assert IoOk(s, v) && IoOk(s, w);
    }
    forall k | 0 <= k < s.nwatchers ensures SlotOk(s', k) {
      assert SlotOk(s, k);
    }
  }

  lemma AddedKeeps(s: State, fd: int)
    requires Registered(s)
    ensures Registered(s.(io := s.io + [Io(fd, {}, {})]))
  {
    var s' := s.(io := s.io + [Io(fd, {}, {})]);
    forall v | 0 <= v < |s'.io| ensures IoOk(s', v) {
      assert v < |s.io| ==> IoOk(s, v);
    }
    forall k | 0 <= k < s.nwatchers ensures SlotOk(s', k) {
      assert SlotOk(s, k);
    }
  }
}
