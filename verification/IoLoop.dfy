/** The registration functions of libuv's Unix core, on the fields of the loop. */
module IoLoop {
  import opened PowersOfTwo
  import opened Sequences
  import opened IoWatchers
  import opened IoDispatch

  datatype Op = Add | Mod | Del

  datatype Errno = None | Exists | NoEntry

  class Loop {
    var io: seq<Io>
    var watchers: seq<Slot>
    var nwatchers: nat
    var nfds: int
    var queue: seq<nat>
    var kernel: map<int, set<Event>>
    var polled: seq<PollEvent>       // the events of the poll under way, a local variable of uv__io_poll
    ghost var closed: set<int>       // the descriptors closed since then

    constructor ()
      ensures Valid() && io == [] && kernel == map[]
    {
      io, watchers, nwatchers, nfds, queue, kernel, polled, closed := [], [], 0, 0, [], map[], [], {};
    }

    function Now(): State
      reads this`io, this`watchers, this`nwatchers, this`nfds, this`queue, this`kernel
    {
      State(io, watchers, nwatchers, nfds, queue, kernel)
    }

    ghost predicate Valid()
      reads this`io, this`watchers, this`nwatchers, this`nfds, this`queue, this`kernel
    {
      Registered(Now()) && OnePerFd(io)
    }

    // maybe_resize. It fails where realloc is asked for fewer slots than are written afterwards, which is where the
    // model ends: the source goes on past the end of the array.
    method MaybeResize(len: nat) returns (ok: bool)
      requires len < WORD
      requires if watchers == [] then nwatchers == 0 else |watchers| == nwatchers + 2
      modifies this`watchers, this`nwatchers
      ensures ok == CanHold(old(Now()), len)
      ensures Now() == if ok then Roomy(old(Now()), len) else old(Now())
    {
      if len <= nwatchers {
        return true;
      }
      var fakeWatcherList, fakeWatcherCount := Null, Null;
      if watchers != [] {
        fakeWatcherList, fakeWatcherCount := watchers[nwatchers], watchers[nwatchers + 1];
      }
      var n := NextPowerOfTwo((len + 2) % WORD);
      n := (n + WORD - 2) % WORD;
      var slots := (n + 2) % WORD;
      ArrayCovers(len);
      if slots < n + 2 {
        return false;
      }
      assert watchers != [] ==> watchers[nwatchers..] == [fakeWatcherList, fakeWatcherCount];
      watchers := watchers[..nwatchers] + seq(n - nwatchers, _ => Null) + [fakeWatcherList, fakeWatcherCount];
      nwatchers := n;
      return true;
    }

    // uv__io_start, for a descriptor that its assertions admit.
    method IoStart(w: nat, events: set<Event>) returns (ok: bool)
      requires Valid() && w < |io| && {} < events <= INTEREST && 0 <= io[w].fd < INT_MAX
      modifies this`io, this`watchers, this`nwatchers, this`nfds, this`queue
      ensures ok == CanHold(old(Now()), old(io[w].fd) + 1)
      ensures ok ==> Valid() && Now() == Started(Roomy(old(Now()), old(io[w].fd) + 1), w, events)
      ensures !ok ==> Now() == Wanting(old(Now()), w, events)
    {
      if CanHold(Now(), io[w].fd + 1) {
        StartKeeps(Now(), w, events);
      }
      ok := Start(w, events);
    }

    method Start(w: nat, events: set<Event>) returns (ok: bool)
      requires (if watchers == [] then nwatchers == 0 else Shaped(Now())) && w < |io| && 0 <= io[w].fd < INT_MAX
      modifies this`io, this`watchers, this`nwatchers, this`nfds, this`queue
      ensures ok == CanHold(old(Now()), old(io[w].fd) + 1)
      ensures Now() == if ok then Started(Roomy(old(Now()), old(io[w].fd) + 1), w, events) else Wanting(old(Now()), w, events)
      ensures io == old(io)[w := old(io[w]).(pevents := old(io[w]).pevents + events)]
    {
      var fd := io[w].fd;
      io := io[w := io[w].(pevents := io[w].pevents + events)];
      ok := MaybeResize(fd + 1);
      if ok {
        WantingFirst(old(Now()), w, events, fd + 1);
        Enlist(w);
      }
    }

    // The rest of uv__io_start.
    method Enlist(w: nat)
      requires w < |io| && 0 <= io[w].fd < |watchers|
      modifies this`watchers, this`nfds, this`queue
      ensures Now() == Enlisted(old(Now()), w)
    {
      var x := io[w];
      if x.events == x.pevents {
        return;
      }
      if w !in queue {
        queue := queue + [w];
      }
      if watchers[x.fd] == Null {
        watchers := watchers[x.fd := Of(w)];
        nfds := nfds + 1;
      }
    }

    // uv__io_stop. The assertions of the source hold.
    method IoStop(w: nat, events: set<Event>)
      requires Valid() && w < |io| && {} < events <= INTEREST && io[w].fd >= -1
      modifies this`io, this`watchers, this`nfds, this`queue
      ensures Now() == if 0 <= old(io[w].fd) < old(nwatchers) then StoppedIo(old(Now()), w, events) else old(Now())
      ensures Valid() && |io| == |old(io)| && (forall v :: 0 <= v < |io| && v != w ==> io[v] == old(io)[v])
      ensures io[w].fd == old(io[w].fd) && io[w].pevents == old(io[w]).pevents - events
    {
      ghost var s := Now();
      if io[w].fd == -1 || io[w].fd >= nwatchers {
        assert IoOk(s, w);
        return;
      }
      StopKeeps(s, w, events);
      var x := io[w].(pevents := io[w].pevents - events);
      io := io[w := x];
      if x.pevents == {} {
        queue := Without(queue, w);
        if watchers[x.fd] != Null {
          assert watchers[x.fd] == Of(w);
          assert nfds > 0;
          watchers := watchers[x.fd := Null];
          nfds := nfds - 1;
          io := io[w := x.(events := {})];
        }
      } else if w !in queue {
        queue := queue + [w];
      }
      assert Now() == StoppedIo(s, w, events);
    }

    // epoll_ctl.
    method EpollCtl(op: Op, fd: int, events: set<Event>) returns (err: Errno)
      modifies this`kernel
      ensures op.Add? ==> err == (if fd in old(kernel) then Exists else None)
      ensures op.Mod? ==> err == (if fd in old(kernel) then None else NoEntry)
      ensures op.Del? ==> err == (if fd in old(kernel) then None else NoEntry) && kernel == old(kernel) - {fd}
      ensures !op.Del? ==> kernel == if err == None then old(kernel)[fd := events] else old(kernel)
    {
      match op {
        case Add =>
          if fd in kernel {
            return Exists;
          }
          kernel := kernel[fd := events];
        case Mod =>
          if fd !in kernel {
            return NoEntry;
          }
          kernel := kernel[fd := events];
        case Del =>
          if fd !in kernel {
            return NoEntry;
          }
          kernel := kernel - {fd};
      }
      return None;
    }

    // One round of the registration loop of uv__io_poll. Neither abort is reached.
    method Register()
      requires Valid() && queue != []
      modifies this
      ensures Valid() && Now() == Told(old(Now()))
    {
      ghost var s := Now();
      ToldKeeps(s);
      StillOnePerFd(s.io, Told(s).io, s.queue[0]);
      var w := queue[0];
      queue := queue[1..];
      assert io[w].pevents != {};
      assert 0 <= io[w].fd < nwatchers;
      var op := if io[w].events == {} then Add else Mod;
      var err := EpollCtl(op, io[w].fd, io[w].pevents);
      if err != None {
        assert err == Exists;
        assert op == Add;
        err := EpollCtl(Mod, io[w].fd, io[w].pevents);
        assert err == None;
      }
      io := io[w := io[w].(events := io[w].pevents)];
    }

    // The registration loop: afterwards the kernel watches for every live watcher exactly what it wants.
    method RegisterAll()
      requires Valid()
      modifies this
      ensures Valid() && queue == [] && |io| == |old(io)| && watchers == old(watchers) && nfds == old(nfds)
      ensures forall w :: 0 <= w < |io| ==> io[w].pevents == old(io)[w].pevents && io[w].fd == old(io)[w].fd
      ensures forall w :: 0 <= w < |io| && io[w].pevents != {} ==>
                io[w].events == io[w].pevents && io[w].fd in kernel && kernel[io[w].fd] == io[w].pevents
    {
      if nfds == 0 {
        NoneQueued(Now());
      }
      while queue != []
        invariant Valid() && |io| == |old(io)| && watchers == old(watchers) && nfds == old(nfds)
        invariant forall w :: 0 <= w < |io| ==> io[w].pevents == old(io)[w].pevents && io[w].fd == old(io)[w].fd
        decreases |queue|
      {
        Register();
      }
      forall w | 0 <= w < |io| && io[w].pevents != {}
        ensures io[w].events == io[w].pevents && io[w].fd in kernel && kernel[io[w].fd] == io[w].pevents
      {
        assert IoOk(Now(), w);
      }
    }

    // ---- closing and dispatch ----

    ghost function Here(): Moment
      reads this`io, this`watchers, this`nwatchers, this`nfds, this`queue, this`kernel, this`closed
    {
      Moment(Now(), closed)
    }

    /** A dispatch is under way: no event of a closed descriptor is left, and the last two slots lead to the events. */
    ghost predicate Dispatching()
      reads this
    {
      Sound(Now()) && Trailing(Now()) == [Events, Number(|polled|)] && EventsOk(Here(), polled)
    }

    // The first half of uv__platform_invalidate_fd.
    method InvalidateEvents(fd: int)
      requires nwatchers + 2 == |watchers| && (watchers[nwatchers] == Events ==> watchers[nwatchers + 1] == Number(|polled|))
      modifies this`polled
      ensures polled == if watchers[nwatchers] == Events then Living(old(polled), {fd}) else old(polled)
    {
      var events := watchers[nwatchers];
      var count := watchers[nwatchers + 1];
      if events == Events {
        for i := 0 to count.n
          invariant |polled| == |old(polled)|
          invariant forall j :: 0 <= j < i ==> polled[j] == Living(old(polled), {fd})[j]
          invariant forall j :: i <= j < |polled| ==> polled[j] == old(polled)[j]
        {
          if polled[i].data == fd {
            polled := polled[i := polled[i].(data := -1)];
          }
        }
      }
    }

    // uv__platform_invalidate_fd.
    method Invalidate(fd: int)
      requires Valid() && forall w :: 0 <= w < |io| && io[w].pevents != {} ==> io[w].fd != fd
      requires nwatchers + 2 == |watchers| && (watchers[nwatchers] == Events ==> watchers[nwatchers + 1] == Number(|polled|))
      modifies this`polled, this`kernel
      ensures Valid() && kernel == old(kernel) - {fd}
      ensures polled == if watchers[nwatchers] == Events then Living(old(polled), {fd}) else old(polled)
    {
      InvalidateEvents(fd);
      ghost var s := Now();
      DeletedKeeps(s, fd);
      var _ := EpollCtl(Del, fd, {});
      assert Now() == s.(kernel := s.kernel - {fd});
    }

    // uv__io_close.
    method IoClose(w: nat)
      requires Sound(Now()) && w < |io| && io[w].fd >= 0
      requires watchers[nwatchers] == Events ==> watchers[nwatchers + 1] == Number(|polled|)
      modifies this`io, this`watchers, this`nfds, this`queue, this`kernel, this`polled
      ensures Sound(Now()) && io == old(io)[w := Io(old(io)[w].fd, {}, {})] && io[w].fd !in kernel
      ensures var t := StoppedAny(old(Now()), w, INTEREST); Now() == t.(kernel := t.kernel - {io[w].fd})
      ensures polled == if old(watchers[nwatchers]) == Events then Living(old(polled), {io[w].fd}) else old(polled)
    {
      ghost var s := Now();
      StoppedIdle(s, w);
      var fd := io[w].fd;
      IoStop(w, INTEREST);
      assert Trailing(Now()) == Trailing(s) && Trailing(s)[0] == s.watchers[s.nwatchers];
      assert Trailing(Now())[1] == s.watchers[s.nwatchers + 1];
      OthersElsewhere(Now(), w);
      Invalidate(fd);
    }

    // uv__io_close, and the close of the descriptor that follows it.
    method Close(w: nat)
      requires Dispatching() && w < |io| && io[w].fd >= 0
      modifies this
      ensures Dispatching() && Here() == Performed(old(Here()), DoClose(w))
      ensures polled == Living(old(polled), closed)
    {
      ghost var m := Here();
      CloseKeeps(m.s, w);
      EndAt(m.s);
      var fd := io[w].fd;
      IoClose(w);
      io := io[w := io[w].(fd := -1)];
      closed := closed + {fd};
      assert Now() == ClosedIo(m.s, w);
      OneDead(m, Here(), old(polled), fd);
    }

    // ---- the calls out of a callback; what the source's assertions forbid is not called ----

    method StartIf(w: nat, events: set<Event>)
      requires Dispatching()
      modifies this`io, this`watchers, this`nwatchers, this`nfds, this`queue
      ensures Dispatching() && Now() == StartedIf(old(Now()), w, events)
    {
      StartedIfDispatching(Here(), w, events, polled);
      if w < |io| && {} < events <= INTEREST && 0 <= io[w].fd < INT_MAX && CanHold(Now(), io[w].fd + 1) {
        var _ := Start(w, events);
      }
    }

    method StopIf(w: nat, events: set<Event>)
      requires Dispatching()
      modifies this`io, this`watchers, this`nfds, this`queue
      ensures Dispatching() && Now() == StoppedIf(old(Now()), w, events)
    {
      ghost var s := Now();
      if w < |io| && {} < events <= INTEREST && io[w].fd >= -1 {
        StopKeeps(s, w, events);
        IoStop(w, events);
      }
    }

    // uv__io_init.
    method OpenIf(fd: int)
      requires Dispatching()
      modifies this`io
      ensures Dispatching() && Now() == OpenedIf(old(Now()), fd)
    {
      ghost var s := Now();
      if fd >= 0 && forall v :: 0 <= v < |io| ==> io[v].fd != fd {
        OpenedIfKeeps(s, fd);
        io := io + [Io(fd, {}, {})];
      }
    }

    method Perform(call: Call)
      requires Dispatching()
      modifies this
      ensures Dispatching() && Here() == Performed(old(Here()), call)
      ensures polled == Living(old(polled), closed)
    {
      AllLiving(Here(), polled);
      match call {
        case Start(w, events) => StartIf(w, events);
        case Stop(w, events) => StopIf(w, events);
        case DoOpen(fd) => OpenIf(fd);
        case DoClose(w) =>
          if w < |io| && io[w].fd >= 0 {
            Close(w);
          }
      }
    }

    method Callback(calls: seq<Call>)
      requires Dispatching()
      modifies this
      ensures Dispatching() && Here() == PerformedAll(old(Here()), calls)
      ensures polled == Living(old(polled), closed)
    {
      AllLiving(Here(), polled);
      for k := 0 to |calls|
        invariant Dispatching() && Here() == PerformedAll(old(Here()), calls[..k])
        invariant polled == Living(old(polled), closed)
      {
        ghost var was := closed;
        Perform(calls[k]);
        LivingTwice(old(polled), was, closed);
        assert calls[..k + 1][..k] == calls[..k];
      }
      assert calls[..|calls|] == calls;
    }

    // One round of the dispatch loop up to the callback.
    method Match(i: nat) returns (r: Report)
      requires Dispatching() && i < |polled|
      modifies this`kernel, this`polled
      ensures Dispatching() && r == Recipient(old(Here()), old(polled)[i])
      ensures Here() == Disarmed(old(Here()), old(polled)[i])
      ensures |polled| == |old(polled)| && forall j :: i < j < |polled| ==> polled[j] == old(polled)[j]
    {
      var fd := polled[i].data;
      if fd == -1 {
        return Nobody;
      }
      assert 0 <= fd < nwatchers;
      ghost var s := Now();
      assert SlotOk(s, fd);
      if watchers[fd] == Null {
        DisarmKeeps(s, fd);
        var _ := EpollCtl(Del, fd, {});
        assert Now() == s.(kernel := s.kernel - {fd});
        return Nobody;
      }
      var w := watchers[fd].w;
      var e := polled[i].events * (io[w].pevents + {Err, Hup});
      if e == {Err} || e == {Hup} {
        e := e + io[w].pevents * INTEREST;
      }
      polled := polled[i := PollEvent(fd, e)];
      return if e == {} then Nobody else Report(w, fd, e);
    }

    // One round of the dispatch loop.
    method Round(i: nat, calls: seq<Call>) returns (r: Report)
      requires Dispatching() && i < |polled|
      modifies this
      ensures Dispatching() && |polled| == |old(polled)| && closed >= old(closed)
      ensures r == Recipient(old(Here()), old(polled)[i]) && Here() == AfterEvent(old(Here()), old(polled)[i], calls)
      ensures AliveFrom(polled, old(polled), closed, i + 1)
    {
      ClosedGrows(Here(), calls);
      r := Match(i);
      if r != Nobody {
        Callback(calls);
      }
    }

    /** The start of a dispatch of n events. */
    ghost function Begun(n: nat): Moment
      reads this
      requires Sound(Now())
    {
      Moment(Ending(Now(), Events, Number(n)), {})
    }

    // The dispatch loop of uv__io_poll, the signal watcher aside. The events of a descriptor that a callback has closed
    // go nowhere, even when a later watcher gets the same descriptor.
    method Dispatch(events: seq<PollEvent>, script: seq<seq<Call>>) returns (called: seq<Report>)
      requires Sound(Now()) && forall j :: 0 <= j < |events| ==> 0 <= events[j].data < nwatchers
      modifies this
      ensures Sound(Now()) && old(Sound(Begun(|events|).s))
      ensures var t := Run(old(Begun(|events|)), events, script, |events|);
              called == t.called && Shaped(t.at.s) && Now() == Ending(t.at.s, Null, Null) && closed == t.at.closed
    {
      TrailingKeeps(Now(), Events, Number(|events|));
      watchers := watchers[nwatchers := Events][nwatchers + 1 := Number(|events|)];
      polled, closed := events, {};
      assert Here() == old(Begun(|events|));
      called := Rounds(events, script);
      ghost var t := Now();
      TrailingKeeps(t, Null, Null);
      watchers := watchers[nwatchers := Null][nwatchers + 1 := Null];
      assert Now() == Ending(t, Null, Null);
    }

    method Rounds(events: seq<PollEvent>, script: seq<seq<Call>>) returns (called: seq<Report>)
      requires Dispatching() && polled == events && closed == {}
      requires forall j :: 0 <= j < |events| ==> 0 <= events[j].data < nwatchers
      modifies this
      ensures Dispatching() && |polled| == |events|
      ensures Course(Here(), called) == Run(old(Here()), events, script, |events|)
    {
      called := [];
      for i := 0 to |events|
        invariant Dispatching() && AliveFrom(polled, events, closed, i)
        invariant Course(Here(), called) == Run(old(Here()), events, script, i)
      {
        ghost var was, before := polled, closed;
        SameForAlive(Here(), events[i], CallsOf(script, |called|));
        var r := Round(i, CallsOf(script, |called|));
        AliveTwice(events, was, polled, before, closed, i);
        if r != Nobody {
          called := called + [r];
        }
      }
    }
  }
}
