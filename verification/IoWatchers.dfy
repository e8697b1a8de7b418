/**
  I/O watchers: uv__io_start, uv__io_stop and maybe_resize of 3rd/libuv/src/unix/core.c, and the parts of
  3rd/libuv/src/unix/linux-core.c that register with epoll and dispatch its events.
*/
module IoWatchers {
  import opened PowersOfTwo
  import opened Sequences

  datatype Event = In | Out | RdHup | Pri | Err | Hup

  const INTEREST: set<Event> := {In, Out, RdHup, Pri}

  /** A uv__io_t: what its user wants, and what the kernel was last told. */
  datatype Io = Io(fd: int, pevents: set<Event>, events: set<Event>)

  /** An entry of loop->watchers; the last two hold the events of a poll and their number. */
  datatype Slot = Null | Of(w: nat) | Events | Number(n: nat)

  /** How many of the first n slots are in use. */
  ghost function Used(slots: seq<Slot>, n: nat): nat
    requires n <= |slots|
  {
    if n == 0 then 0 else Used(slots, n - 1) + if slots[n - 1] == Null then 0 else 1
  }

  lemma {:induction false} UsedSet(slots: seq<Slot>, n: nat, fd: nat, x: Slot)
    requires n <= |slots| && fd < |slots|
    ensures Used(slots[fd := x], n) ==
            if fd >= n then Used(slots, n)
            else Used(slots, n) + (if x == Null then 0 else 1) - (if slots[fd] == Null then 0 else 1)
    ensures fd < n && slots[fd] != Null ==> Used(slots, n) > 0
  {
    if n > 0 {
      UsedSet(slots, n - 1, fd, x);
    }
  }

  lemma {:induction false} UsedGrows(a: seq<Slot>, b: seq<Slot>, n: nat, n': nat)
    requires n <= |a| && n <= n' <= |b|
    requires forall k :: 0 <= k < n ==> a[k] == b[k]
    requires forall k :: n <= k < n' ==> b[k] == Null
    ensures Used(b, n') == Used(a, n)
    decreases n'
  {
    if n' > n {
      UsedGrows(a, b, n, n' - 1);
    } else if n > 0 {
      UsedGrows(a, b, n - 1, n - 1);
    }
  }

  /** The fields of uv_loop_t this is about; kernel is the interest list of the epoll instance. */
  datatype State = State(io: seq<Io>, watchers: seq<Slot>, nwatchers: nat, nfds: int, queue: seq<nat>, kernel: map<int, set<Event>>)

  ghost predicate IoOk(s: State, w: nat)
    requires w < |s.io|
  {
    var x := s.io[w];
    && x.pevents <= INTEREST
    && (x.pevents != {} ==> 0 <= x.fd < s.nwatchers < |s.watchers| && s.watchers[x.fd] == Of(w))
    && (x.pevents == {} ==> x.events == {} && w !in s.queue)
    && (x.pevents != {} && w !in s.queue ==> x.events == x.pevents)
    && (x.events != {} ==> x.fd in s.kernel && s.kernel[x.fd] == x.events)
  }

  ghost predicate SlotOk(s: State, fd: nat)
    requires fd < |s.watchers|
  {
    s.watchers[fd] == Null || (s.watchers[fd].Of? && s.watchers[fd].w < |s.io| && s.io[s.watchers[fd].w].fd == fd
                               && s.io[s.watchers[fd].w].pevents != {})
  }

  /** A slot is in use exactly for a live watcher, nfds counts them, and the kernel's list agrees with what it was told. */
  ghost predicate Registered(s: State) {
    && (if s.watchers == [] then s.nwatchers == 0 else |s.watchers| == s.nwatchers + 2)
    && (forall w :: 0 <= w < |s.io| ==> IoOk(s, w))
    && (forall fd :: 0 <= fd < s.nwatchers ==> SlotOk(s, fd))
    && s.nfds == (if s.watchers == [] then 0 else Used(s.watchers, s.nwatchers))
    && (forall j :: 0 <= j < |s.queue| ==> s.queue[j] < |s.io|)
    && Distinct(s.queue)
    && (forall fd :: fd in s.kernel ==> 0 <= fd < s.nwatchers)
  }

  /** No other live watcher is on this watcher's descriptor. */
  ghost predicate Alone(s: State, w: nat)
    requires w < |s.io|
  {
    forall v :: 0 <= v < |s.io| && v != w && s.io[v].pevents != {} ==> s.io[v].fd != s.io[w].fd
  }

  // ---- what the functions do to the state ----

  /** The two slots at the end. */
  function Trailing(s: State): seq<Slot>
    requires s.nwatchers <= |s.watchers|
  {
    if s.watchers == [] then [Null, Null] else s.watchers[s.nwatchers..]
  }

  /** maybe_resize to n slots. */
  function Resized(s: State, n: nat): State
    requires s.nwatchers <= |s.watchers| && s.nwatchers <= n
  {
    s.(watchers := s.watchers[..s.nwatchers] + seq(n - s.nwatchers, _ => Null) + Trailing(s), nwatchers := n)
  }

  lemma ResizedKeeps(s: State, n: nat)
    requires Registered(s) && s.nwatchers <= n
    ensures Registered(Resized(s, n)) && Trailing(Resized(s, n)) == Trailing(s)
  {
    var s' := Resized(s, n);
    UsedGrows(s.watchers, s'.watchers, s.nwatchers, n);
    forall w | 0 <= w < |s.io| ensures IoOk(s', w) {
      assert IoOk(s, w);
    }
    forall fd | 0 <= fd < n ensures SlotOk(s', fd) {
      assert fd < s.nwatchers ==> SlotOk(s, fd);
    }
  }

  /** Whether the array has room for len slots or can be given it. */
  predicate CanHold(s: State, len: nat) { len <= s.nwatchers || len + 2 <= 0x8000_0000 }

  /** maybe_resize. */
  ghost function Roomy(s: State, len: nat): (t: State)
    requires s.nwatchers <= |s.watchers| && CanHold(s, len)
    ensures len <= t.nwatchers && s.nwatchers <= t.nwatchers
  {
    if len <= s.nwatchers then s
    else
      ArrayCovers(len);
      Resized(s, CountFor(len))
  }

  /** A watcher that wants what the kernel has not been told yet is put on the queue, and in its slot. */
  function Enlisted(s: State, w: nat): State
    requires w < |s.io| && 0 <= s.io[w].fd < |s.watchers|
  {
    var x := s.io[w];
    if x.events == x.pevents then s
    else
      s.(queue := if w in s.queue then s.queue else s.queue + [w],
         watchers := if s.watchers[x.fd] == Null then s.watchers[x.fd := Of(w)] else s.watchers,
         nfds := if s.watchers[x.fd] == Null then s.nfds + 1 else s.nfds)
  }

  /** Watcher w wants these events too. */
  function Wanting(s: State, w: nat, events: set<Event>): State
    requires w < |s.io|
  {
    s.(io := s.io[w := s.io[w].(pevents := s.io[w].pevents + events)])
  }

  /** uv__io_start once the slots suffice. */
  function Started(s: State, w: nat, events: set<Event>): State
    requires w < |s.io| && 0 <= s.io[w].fd < |s.watchers|
  {
    Enlisted(Wanting(s, w, events), w)
  }

  lemma StartedKeeps(s: State, w: nat, events: set<Event>)
    requires Registered(s) && w < |s.io| && 0 <= s.io[w].fd < s.nwatchers && {} < events <= INTEREST && Alone(s, w)
    ensures Registered(Started(s, w, events))
  {
    var s' := Started(s, w, events);
    var fd: nat := s.io[w].fd;
    assert IoOk(s, w) && SlotOk(s, fd);
    UsedSet(s.watchers, s.nwatchers, fd, Of(w));
    forall v | 0 <= v < |s.io| ensures IoOk(s', v) {
      assert IoOk(s, v);
      assert v in s'.queue <==> v in s.queue || (v == w && s'.queue != s.queue);
    }
    forall k | 0 <= k < s.nwatchers ensures SlotOk(s', k) {
      assert SlotOk(s, k);
    }
  }

  /** uv__io_stop of a watcher whose descriptor has a slot. */
  function StoppedIo(s: State, w: nat, events: set<Event>): State
    requires w < |s.io| && 0 <= s.io[w].fd < |s.watchers|
  {
    var x := s.io[w].(pevents := s.io[w].pevents - events);
    if x.pevents == {} then
      var t := s.(io := s.io[w := x], queue := Without(s.queue, w));
      if s.watchers[x.fd] == Null then t
      else t.(watchers := s.watchers[x.fd := Null], nfds := s.nfds - 1, io := s.io[w := x.(events := {})])
    else
      s.(io := s.io[w := x], queue := if w in s.queue then s.queue else s.queue + [w])
  }

  lemma StoppedKeeps(s: State, w: nat, events: set<Event>)
    requires Registered(s) && w < |s.io| && 0 <= s.io[w].fd < s.nwatchers && Alone(s, w)
    ensures Registered(StoppedIo(s, w, events))
    ensures s.io[w].pevents <= events && s.watchers[s.io[w].fd] != Null ==> s.watchers[s.io[w].fd] == Of(w) && s.nfds > 0
  {
    var s' := StoppedIo(s, w, events);
    var fd: nat := s.io[w].fd;
    assert IoOk(s, w) && SlotOk(s, fd);
    UsedSet(s.watchers, s.nwatchers, fd, Null);
    WithoutMembers(s.queue, w);
    forall v | 0 <= v < |s.io| ensures IoOk(s', v) {
      assert IoOk(s, v);
    }
    forall k | 0 <= k < s.nwatchers ensures SlotOk(s', k) {
      assert SlotOk(s, k);
      assert s.watchers[k].Of? ==> IoOk(s, s.watchers[k].w);
    }
    forall j | 0 <= j < |s'.queue| ensures s'.queue[j] < |s.io| {
      assert s'.queue[j] in s'.queue;
    }
  }

  /** One round of the registration loop: the kernel is told what the first watcher in the queue wants. */
  function Told(s: State): State
    requires s.queue != [] && s.queue[0] < |s.io|
  {
    var x := s.io[s.queue[0]];
    s.(queue := s.queue[1..], io := s.io[s.queue[0] := x.(events := x.pevents)], kernel := s.kernel[x.fd := x.pevents])
  }

  lemma ToldKeeps(s: State)
    requires Registered(s) && s.queue != []
    ensures Registered(Told(s))
    ensures var x := s.io[s.queue[0]]; 0 <= x.fd < s.nwatchers && x.pevents != {} && (x.events != {} ==> x.fd in s.kernel)
  {
    var w := s.queue[0];
    assert s.queue == [w] + s.queue[1..];
    assert w in s.queue && IoOk(s, w);
    forall v | 0 <= v < |s.io| ensures IoOk(Told(s), v) {
      assert IoOk(s, v);
      assert v in s.queue[1..] ==> v in s.queue;
      assert v != w && v in s.queue ==> v in s.queue[1..];
    }
    forall k | 0 <= k < s.nwatchers ensures SlotOk(Told(s), k) {
      assert SlotOk(s, k);
    }
  }

  /** EPOLL_CTL_DEL of a descriptor nobody watches. */
  lemma DeletedKeeps(s: State, fd: int)
    requires Registered(s) && forall w :: 0 <= w < |s.io| && s.io[w].pevents != {} ==> s.io[w].fd != fd
    ensures Registered(s.(kernel := s.kernel - {fd}))
  {
    var s' := s.(kernel := s.kernel - {fd});
    forall v | 0 <= v < |s.io| ensures IoOk(s', v) {
      assert IoOk(s, v);
    }
    forall k | 0 <= k < s.nwatchers ensures SlotOk(s', k) {
      assert SlotOk(s, k);
    }
  }

  /** A queued watcher has a slot, so a loop without slots in use has an empty queue. */
  lemma NoneQueued(s: State)
    requires Registered(s) && s.nfds == 0
    ensures s.queue == []
  {
    if s.queue != [] {
      ToldKeeps(s);
      var w := s.queue[0];
      assert IoOk(s, w);
      UsedSet(s.watchers, s.nwatchers, s.io[w].fd, Null);
    }
  }
}
