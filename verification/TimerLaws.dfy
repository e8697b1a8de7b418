/** What the timer functions of 3rd/libuv/src/timer.c do to the fields of the timers, call by call and round by round. */
module TimerLaws {
  import opened Moments
  import opened Timers

  /** All timers but h are as before. */
  ghost predicate OnlyTimer(c: Clock, d: Clock, h: nat) {
    |d.timers| == |c.timers| && forall k :: 0 <= k < |c.timers| && k != h ==> d.timers[k] == c.timers[k]
  }

  function Saturated(time: nat, timeout: nat): nat { if time + timeout <= UINT64_MAX then time + timeout else UINT64_MAX }

  /** Timer h has been started to fire timeout milliseconds from now, behind all timers started before. */
  ghost predicate IsStarted(c: Clock, d: Clock, h: nat, timeout: nat, repeat: nat) {
    && h < |c.timers| && OnlyTimer(c, d, h) && d.time == c.time && d.counter == c.counter + 1
    && d.timers[h].active && d.timers[h].hasCallback && d.timers[h].repeat == repeat
    && d.timers[h].deadline.timeout == Saturated(c.time, timeout) && d.timers[h].deadline.startId == c.counter
    && d.timers[h].deadline.handle == h
  }

  /** Timer h has been stopped, if it was active, and keeps everything else. */
  ghost predicate IsStopped(c: Clock, d: Clock, h: nat) {
    && h < |c.timers| && OnlyTimer(c, d, h) && d.time == c.time && d.counter == c.counter
    && !d.timers[h].active && d.timers[h].hasCallback == c.timers[h].hasCallback && d.timers[h].repeat == c.timers[h].repeat
    && d.timers[h].deadline == c.timers[h].deadline
  }

  /** A timer with a callback and a repeat value is started with that; any other is left alone. */
  ghost predicate IsAgain(c: Clock, d: Clock, h: nat) {
    h < |c.timers| &&
    if c.timers[h].hasCallback && c.timers[h].repeat > 0 then IsStarted(c, d, h, c.timers[h].repeat, c.timers[h].repeat)
    else d == c
  }

  /** What the calls of a callback do. */
  ghost predicate Acts(c: Clock, d: Clock, call: Call) {
    match call
    case Start(h, timeout, repeat, hasCallback) =>
      if h < |c.timers| && timeout <= UINT64_MAX && repeat <= UINT64_MAX && hasCallback then IsStarted(c, d, h, timeout, repeat)
      else d == c
    case Stop(h) => if h < |c.timers| then IsStopped(c, d, h) else d == c
    case DoAgain(h) => if h < |c.timers| then IsAgain(c, d, h) else d == c
    case SetRepeat(h, repeat) =>
      if h < |c.timers| && repeat <= UINT64_MAX then
        && OnlyTimer(c, d, h) && d.time == c.time && d.counter == c.counter && d.timers[h].repeat == repeat
        && d.timers[h].active == c.timers[h].active && d.timers[h].hasCallback == c.timers[h].hasCallback
        && d.timers[h].deadline == c.timers[h].deadline
      else d == c
    case UpdateTime(time) =>
      && d.time == (if c.time <= time < UINT64_MAX then time else c.time) && d.counter == c.counter && d.timers == c.timers
  }

  lemma StartedLaw(c: Clock, h: nat, timeout: nat, repeat: nat)
    requires Sound(c) && h < |c.timers| && timeout <= UINT64_MAX
    ensures IsStarted(c, Started(c, h, timeout, repeat, true), h, timeout, repeat)
  {
    ClampedSaturates(c.time, timeout);
  }

  lemma AgainLaw(c: Clock, h: nat)
    requires Sound(c) && h < |c.timers|
    ensures IsAgain(c, Again(c, h), h)
  {
    assert TimerOk(c, h);
    if c.timers[h].hasCallback && c.timers[h].repeat > 0 {
      StoppedKeeps(c, h);
      StartedLaw(Stopped(c, h), h, c.timers[h].repeat, c.timers[h].repeat);
    }
  }

  lemma ExecuteLaw(c: Clock, call: Call)
    requires Sound(c)
    ensures Acts(c, Execute(c, call), call)
  {
    match call
    case Start(h, timeout, repeat, hasCallback) =>
      if Fits(c, call) && hasCallback {
        StartedLaw(c, h, timeout, repeat);
      }
    case DoAgain(h) =>
      if h < |c.timers| {
        AgainLaw(c, h);
      }
    case _ =>
  }

  /** A callback makes all of its calls, one after the other, and nothing else happens to the timers. */
  lemma {:induction false} CallbackActs(c: Clock, calls: seq<Call>)
    requires Sound(c)
    ensures Makes(Acts, calls, c, ExecuteAll(c, calls))
    decreases |calls|
  {
    if calls == [] {
      MakesNone(Acts, c);
    } else {
      ExecuteKeeps(c, calls[0]);
      ExecuteLaw(c, calls[0]);
      CallbackActs(Execute(c, calls[0]), calls[1..]);
      MakesFirst(Acts, calls, c, Execute(c, calls[0]), ExecuteAll(c, calls));
    }
  }

  lemma {:induction false} TraceSound(trace: seq<Clock>, script: seq<seq<Call>>, fired: seq<Deadline>, k: nat)
    requires PassOk(trace, script, fired) && k <= |fired| && Sound(trace[0])
    ensures Sound(trace[k])
  {
    if k > 0 {
      TraceSound(trace, script, fired, k - 1);
      assert RoundOk(trace, script, fired, k - 1);
      FiredPasses(trace[k - 1], fired[k - 1].handle);
      ExecuteAllKeeps(Fired(trace[k - 1], fired[k - 1].handle), CallsOf(script, k - 1));
    }
  }

  /**
    A round of a pass: the earliest timer due is stopped, is started with its repeat value if it has one, and only then
    its callback acts.
  */
  lemma RoundActs(trace: seq<Clock>, script: seq<seq<Call>>, fired: seq<Deadline>, k: nat)
    returns (h: nat, stopped: Clock, again: Clock)
    requires PassOk(trace, script, fired) && k < |fired| && Sound(trace[0])
    ensures h < |trace[k].timers| && trace[k].timers[h].active && trace[k].timers[h].deadline == fired[k]
    ensures fired[k].timeout <= trace[k].time
    ensures forall j :: 0 <= j < |trace[k].timers| && trace[k].timers[j].active ==> !Earlier(trace[k].timers[j].deadline, fired[k])
    ensures IsStopped(trace[k], stopped, h) && IsAgain(stopped, again, h)
    ensures Makes(Acts, if k < |script| then script[k] else [], again, trace[k + 1])
  {
    TraceSound(trace, script, fired, k);
    assert RoundOk(trace, script, fired, k);
    h := fired[k].handle;
    stopped := Stopped(trace[k], h);
    StoppedKeeps(trace[k], h);
    AgainLaw(stopped, h);
    FiredPasses(trace[k], h);
    again := Fired(trace[k], h);
    CallbackActs(again, CallsOf(script, k));
  }

  /** A repeating timer whose callback does nothing is active again after its round, one repeat value from now. */
  lemma RepeatsAgain(trace: seq<Clock>, script: seq<seq<Call>>, fired: seq<Deadline>, k: nat, h: nat)
    requires PassOk(trace, script, fired) && k < |fired| && Sound(trace[0]) && (k < |script| ==> script[k] == [])
    requires h < |trace[k].timers| && trace[k].timers[h].active && trace[k].timers[h].deadline == fired[k]
    ensures var t, d := trace[k].timers[h], trace[k + 1];
            if t.repeat > 0 then IsStarted(trace[k], d, h, t.repeat, t.repeat) else IsStopped(trace[k], d, h)
  {
    TraceSound(trace, script, fired, k);
    assert TimerOk(trace[k], h);
    var g, _, again := RoundActs(trace, script, fired, k);
    assert TimerOk(trace[k], g);
    MakesNothing(Acts, again, trace[k + 1]);
  }

  /** The call is for timer h. */
  predicate TouchesTimer(call: Call, h: nat) {
    match call
    case Start(k, _, _, _) => k == h
    case Stop(k) => k == h
    case DoAgain(k) => k == h
    case SetRepeat(k, _) => k == h
    case UpdateTime(_) => false
  }

  /** A timer that nobody touches keeps its deadline until it fires. */
  lemma {:induction false} UntouchedTimer(c: Clock, calls: seq<Call>, h: nat)
    requires Sound(c) && h < |c.timers| && forall k :: 0 <= k < |calls| ==> !TouchesTimer(calls[k], h)
    ensures h < |ExecuteAll(c, calls).timers| && ExecuteAll(c, calls).timers[h] == c.timers[h]
    decreases |calls|
  {
    if calls != [] {
      ExecuteKeeps(c, calls[0]);
      UntouchedTimer(Execute(c, calls[0]), calls[1..], h);
    }
  }
}
