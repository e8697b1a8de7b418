/** What the calls on file watchers do to the lists of handles, wd by wd, and what the dispatch of an event is made of. */
module InotifyLaws {
  import opened Inotify
  import opened InotifyIndex
  import opened Moments
  import opened Sequences
  import opened Turns

  /** The handles that listen to wd. */
  ghost function Listed(s: State, wd: int): seq<nat> {
    if wd in s.index && s.index[wd] < |s.entries| then s.entries[s.index[wd]].watchers else []
  }

  /** Entries are freed, those of gone, and no others; none becomes another's. */
  ghost predicate Frees(s: State, t: State, gone: set<int>) {
    && |t.entries| >= |s.entries|
    && (forall e :: 0 <= e < |s.entries| ==>
         t.entries[e].wd == s.entries[e].wd
         && (t.entries[e].freed <==> s.entries[e].freed || (exists wd :: wd in gone && wd in s.index && s.index[wd] == e)))
    && (forall wd :: wd in s.index ==> if wd in gone then wd !in t.index else wd in t.index && t.index[wd] == s.index[wd])
  }

  /** A handle listens to its wd, behind all that did so before. */
  ghost predicate IsStarted(s: State, t: State, h: nat, wd: int) {
    && h < |s.handles| && t.handles == s.handles[h := Handle(true, wd)] && t.current == s.current && t.queue == s.queue
    && Frees(s, t, {}) && t.index.Keys == s.index.Keys + {wd}
    && forall d: int :: Listed(t, d) == if d == wd then Listed(s, d) + [h] else Listed(s, d)
  }

  /** A handle leaves whichever list it is on, and with the last one goes the entry, unless events are dispatched to it. */
  ghost predicate IsStopped(s: State, t: State, h: nat) {
    h < |s.handles| &&
    var wd := s.handles[h].wd;
    && t.handles == s.handles[h := Handle(false, -1)] && t.current == s.current && Dropped(s.queue, t.queue, h)
    && t.index.Keys <= s.index.Keys && |t.entries| == |s.entries|
    && (forall d: int :: Dropped(Listed(s, d), Listed(t, d), h))
    && Frees(s, t, if Listed(s, wd) == [h] && wd in s.index && s.index[wd] != s.current then {wd} else {})
  }

  /** What a call does; wd below zero is inotify_add_watch's refusal. */
  ghost predicate Acts(s: State, t: State, call: Call) {
    match call
    case Start(h, wd) => if h < |s.handles| && !s.handles[h].active && wd >= 0 then IsStarted(s, t, h, wd) else t == s
    case Stop(h) => if h < |s.handles| && s.handles[h].active then IsStopped(s, t, h) else t == s
  }

  lemma StartedActs(s: State, h: nat, wd: int)
    requires Sound(s) && h < |s.handles| && !s.handles[h].active && wd >= 0
    ensures IsStarted(s, Started(s, h, wd), h, wd)
  {
    var t := Started(s, h, wd);
    assert forall d :: d in s.index ==> Indexed(s, d);
    forall d: int ensures Listed(t, d) == if d == wd then Listed(s, d) + [h] else Listed(s, d) {
      assert wd in s.index ==> Indexed(s, wd);
      assert d in s.index ==> Indexed(s, d);
    }
  }

  lemma WithoutDrops(q: seq<nat>, h: nat)
    requires Distinct(q)
    ensures Dropped(q, Without(q, h), h)
  {
    WithoutIsMinus(q, h);
    MinusDrops(q, h);
  }

  lemma StoppedDrops(s: State, h: nat, d: int)
    requires Sound(s) && h < |s.handles| && s.handles[h].active && Indexed(s, s.handles[h].wd)
    ensures Dropped(Listed(s, d), Listed(StoppedFs(s, h), d), h)
  {
    var wd := s.handles[h].wd;
    assert EntryOk(s, s.index[wd]);
    if d == wd {
      WithoutDrops(s.entries[s.index[wd]].watchers, h);
    } else if d in s.index {
      assert Indexed(s, d) && EntryOk(s, s.index[d]);
      assert h !in Listed(s, d);
    }
  }

  /** The last one on its list was alone on it. */
  lemma WithoutLast(q: seq<nat>, h: nat)
    requires Distinct(q)
    ensures Without(q, h) == [] && h in q <==> q == [h]
  {
    WithoutMembers(q, h);
    if q != [] && Without(q, h) == [] {
      assert q[0] in q && q[|q| - 1] in q;
    }
  }

  lemma StoppedFrees(s: State, h: nat)
    requires Sound(s) && h < |s.handles| && s.handles[h].active && Indexed(s, s.handles[h].wd)
    ensures var wd := s.handles[h].wd;
            Frees(s, StoppedFs(s, h), if Listed(s, wd) == [h] && s.index[wd] != s.current then {wd} else {})
  {
    var wd := s.handles[h].wd;
    assert EntryOk(s, s.index[wd]) && HandleOk(s, h);
    WithoutLast(s.entries[s.index[wd]].watchers, h);
    forall d | d in s.index && s.index[d] == s.index[wd] ensures d == wd {
      assert Indexed(s, d);
    }
  }

  lemma StoppedActs(s: State, h: nat)
    requires Sound(s) && h < |s.handles| && s.handles[h].active && Indexed(s, s.handles[h].wd)
    ensures IsStopped(s, StoppedFs(s, h), h)
  {
    WithoutDrops(s.queue, h);
    StoppedFrees(s, h);
    forall d: int ensures Dropped(Listed(s, d), Listed(StoppedFs(s, h), d), h) {
      StoppedDrops(s, h, d);
    }
  }

  lemma PerformedActs(s: State, call: Call)
    requires Sound(s)
    ensures Acts(s, Performed(s, call), call)
  {
    match call {
      case Start(h, wd) =>
        if h < |s.handles| && !s.handles[h].active && wd >= 0 {
          StartedActs(s, h, wd);
        }
      case Stop(h) =>
        if h < |s.handles| && s.handles[h].active {
          StopFinds(s, h);
          StoppedActs(s, h);
        }
    }
  }

  /** A callback makes all of its calls, one after the other, and nothing else happens to the handles. */
  lemma {:induction false} CallbackActs(s: State, calls: seq<Call>)
    requires Sound(s)
    ensures Makes(Acts, calls, s, PerformedAll(s, calls))
    decreases |calls|
  {
    if calls == [] {
      MakesNone(Acts, s);
    } else {
      var before := calls[..|calls| - 1];
      CallbackActs(s, before);
      PerformedActs(PerformedAll(s, before), calls[|calls| - 1]);
      MakesLast(Acts, calls, s, PerformedAll(s, before), PerformedAll(s, calls));
    }
  }

  // ---- the dispatch of an event ----

  /** The handles of the entry wait for their turn. */
  ghost predicate Begins(s: State, t: State, wd: int) {
    && wd in s.index && t.current == s.index[wd] && t.queue == Listed(s, wd)
    && t.handles == s.handles && t.index == s.index && Frees(s, t, {}) && |t.entries| == |s.entries|
    && forall d: int :: Listed(t, d) == if d == wd then [] else Listed(s, d)
  }

  /** The first of them goes back to the entry. */
  ghost predicate TakesTurn(s: State, t: State) {
    && s.queue != [] && t.queue == s.queue[1..] && t.current == s.current
    && t.handles == s.handles && t.index == s.index && Frees(s, t, {}) && |t.entries| == |s.entries|
    && forall d: int :: Listed(t, d) == if d in s.index && s.index[d] == s.current then Listed(s, d) + [s.queue[0]] else Listed(s, d)
  }

  /** An entry that nobody is left on is freed. */
  ghost predicate Ends(s: State, t: State, wd: int) {
    && wd in s.index && s.index[wd] == s.current && s.queue == [] == t.queue && t.current == -1
    && t.handles == s.handles && |t.entries| == |s.entries| && t.index.Keys <= s.index.Keys
    && Frees(s, t, if Listed(s, wd) == [] then {wd} else {})
    && forall d: int :: Listed(t, d) == Listed(s, d)
  }

  lemma Turning(s: State)
    requires Sound(s) && 0 <= s.current < |s.entries| && s.queue != []
    ensures TakesTurn(s, Turned(s))
  {
    forall d: int ensures d in s.index ==> Indexed(s, d) && Indexed(Turned(s), d) {
      TurnedKeeps(s);
    }
  }

  lemma {:induction false} WdStays(s: State, calls: seq<Call>)
    requires Sound(s) && 0 <= s.current < |s.entries|
    ensures PerformedAll(s, calls).entries[s.current].wd == s.entries[s.current].wd
    decreases |calls|
  {
    if calls != [] {
      var before := calls[..|calls| - 1];
      WdStays(s, before);
      PerformedActs(PerformedAll(s, before), calls[|calls| - 1]);
    }
  }

  /** Round k turns the first handle that waits, and its callback makes the calls that the script has for it. */
  ghost predicate RoundActs(rounds: seq<State>, turned: seq<State>, n: nat, script: seq<seq<Call>>, k: nat)
    requires k < |turned| < |rounds|
  {
    && TakesTurn(rounds[k], turned[k])
    && Makes(Acts, if n + k < |script| then script[n + k] else [], turned[k], rounds[k + 1])
  }

  lemma Rounding(s: State, calls: seq<Call>)
    requires Sound(s) && s.current != -1 && s.queue != []
    ensures 0 <= s.current < |s.entries| && TakesTurn(s, Turned(s)) && Makes(Acts, calls, Turned(s), RoundOf(s, calls))
  {
    assert QueueOk(s);
    TurnedKeeps(s);
    Turning(s);
    CallbackActs(Turned(s), calls);
  }

  lemma {:induction false} DispatchWd(s: State, n: nat, script: seq<seq<Call>>)
    requires Sound(s) && s.current != -1
    ensures 0 <= s.current < |s.entries| <= |Dispatched(s, n, script).entries|
    ensures Dispatched(s, n, script).entries[s.current].wd == s.entries[s.current].wd
    decreases |s.queue|
  {
    assert QueueOk(s);
    if s.queue != [] {
      TurnedKeeps(s);
      WdStays(Turned(s), CallsOf(script, n));
      DispatchWd(RoundOf(s, CallsOf(script, n)), n + 1, script);
    }
  }

  lemma RoundBefore(s: State, m: State, later: seq<State>, after: seq<State>, n: nat, next: nat, script: seq<seq<Call>>)
    returns (rounds: seq<State>, turned: seq<State>)
    requires next == n + 1 && |later| == |after| + 1
    requires forall k :: 0 <= k < |after| ==> RoundActs(later, after, next, script, k)
    requires TakesTurn(s, m) && Makes(Acts, if n < |script| then script[n] else [], m, later[0])
    ensures |rounds| == |turned| + 1 && rounds[0] == s && rounds[|turned|] == later[|after|]
    ensures forall k :: 0 <= k < |turned| ==> RoundActs(rounds, turned, n, script, k)
  {
    rounds, turned := [s] + later, [m] + after;
    forall k | 0 <= k < |turned| ensures RoundActs(rounds, turned, n, script, k) {
      assert k > 0 ==> RoundActs(later, after, next, script, k - 1);
    }
  }

  /** The loop of uv__inotify_read takes one round after the other, until nobody waits. */
  lemma {:induction false} DispatchActs(s: State, n: nat, script: seq<seq<Call>>)
    returns (rounds: seq<State>, turned: seq<State>)
    requires Sound(s) && s.current != -1
    ensures |rounds| == |turned| + 1 && rounds[0] == s && rounds[|turned|] == Dispatched(s, n, script)
    ensures rounds[|turned|].queue == []
    ensures forall k :: 0 <= k < |turned| ==> RoundActs(rounds, turned, n, script, k)
    decreases |s.queue|
  {
    if s.queue == [] {
      rounds, turned := [s], [];
    } else {
      Rounding(s, CallsOf(script, n));
      var later, after := DispatchActs(RoundOf(s, CallsOf(script, n)), n + 1, script);
      rounds, turned := RoundBefore(s, Turned(s), later, after, n, n + 1, script);
    }
  }

  /** An event for a path that somebody watches: the start, the rounds and the end. */
  lemma EventActs(s: State, wd: int, script: seq<seq<Call>>) returns (rounds: seq<State>, turned: seq<State>)
    requires Sound(s) && s.current == -1 && wd in s.index && Indexed(s, wd)
    ensures |rounds| == |turned| + 1 && Begins(s, rounds[0], wd)
    ensures forall k :: 0 <= k < |turned| ==> RoundActs(rounds, turned, 0, script, k)
    ensures Sound(Begun(s, s.index[wd])) && Ends(rounds[|turned|], Ended(Dispatched(Begun(s, s.index[wd]), 0, script)), wd)
  {
    BegunKeeps(s, wd);
    Beginning(s, wd);
    rounds, turned := DispatchActs(Begun(s, s.index[wd]), 0, script);
    DispatchWd(Begun(s, s.index[wd]), 0, script);
    Ending(rounds[|turned|], wd);
  }

  lemma Beginning(s: State, wd: int)
    requires Sound(s) && wd in s.index && Indexed(s, wd)
    ensures Begins(s, Begun(s, s.index[wd]), wd)
  {
    forall d: int | d in s.index && d != wd ensures s.index[d] != s.index[wd] {
      assert Indexed(s, d);
    }
  }

  lemma Ending(s: State, wd: int)
    requires Sound(s) && 0 <= s.current < |s.entries| && s.queue == [] && s.entries[s.current].wd == wd
    ensures Ends(s, Ended(s), wd)
  {
    assert QueueOk(s) && EntryOk(s, s.current);
    forall d: int | d in s.index && d != wd ensures s.index[d] != s.index[wd] {
      assert Indexed(s, d);
    }
  }

  /** Where the callbacks leave the handles alone, so does an event, the order of the lists included. */
  lemma QuietEvent(s: State, wd: int, script: seq<seq<Call>>)
    requires Sound(s) && s.current == -1 && wd in s.index && Indexed(s, wd) && forall k :: 0 <= k < |script| ==> script[k] == []
    ensures Sound(Begun(s, s.index[wd])) && Ended(Dispatched(Begun(s, s.index[wd]), 0, script)) == s
  {
    BegunKeeps(s, wd);
    QuietDispatch(Begun(s, s.index[wd]), 0, script);
    QuietEnd(s, s.index[wd]);
  }

  lemma QuietEnd(s: State, e: nat)
    requires Sound(s) && s.current == -1 && e < |s.entries| && !s.entries[e].freed
    ensures Ended(Requeued(Begun(s, e))) == s
  {
    assert EntryOk(s, e) && QueueOk(s);
    assert [] + s.entries[e].watchers == s.entries[e].watchers;
    assert s.entries[e := s.entries[e]] == s.entries;
  }

  /** The handles that wait are behind those that had their turn. */
  ghost function Requeued(s: State): State
    requires 0 <= s.current < |s.entries|
  {
    var x := s.entries[s.current];
    s.(entries := s.entries[s.current := x.(watchers := x.watchers + s.queue)], queue := [])
  }

  lemma {:induction false} QuietDispatch(s: State, n: nat, script: seq<seq<Call>>)
    requires Sound(s) && 0 <= s.current < |s.entries| && forall k :: 0 <= k < |script| ==> script[k] == []
    ensures Dispatched(s, n, script) == Requeued(s)
    decreases |s.queue|
  {
    var w := s.entries[s.current].watchers;
    if s.queue == [] {
      assert w + s.queue == w;
    } else {
      TurnedKeeps(s);
      QuietDispatch(Turned(s), n + 1, script);
      StillRequeued(s);
    }
  }

  lemma StillRequeued(s: State)
    requires 0 <= s.current < |s.entries| && s.queue != []
    ensures Requeued(Turned(s)) == Requeued(s)
  {
    assert s.entries[s.current].watchers + [s.queue[0]] + s.queue[1..] == s.entries[s.current].watchers + s.queue;
  }
}
