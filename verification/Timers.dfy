/** What the timer functions of 3rd/libuv/src/timer.c do to the timers of a loop, and the order in which timers fire. */
module Timers {

  const UINT64_MAX: nat := 0xFFFF_FFFF_FFFF_FFFF
  const INT_MAX: nat := 0x7FFF_FFFF

  /** What the heap orders timers by; handle says whose it is. */
  datatype Deadline = Deadline(timeout: nat, startId: nat, handle: nat)

  // timer_less_than.
  predicate Earlier(a: Deadline, b: Deadline) {
    if a.timeout < b.timeout then true
    else if b.timeout < a.timeout then false
    else if a.startId < b.startId then true
    else false
  }

  ghost predicate Ascending(s: seq<Deadline>) {
    forall i, j :: 0 <= i < j < |s| ==> Earlier(s[i], s[j])
  }

  lemma AscendingMore(s: seq<Deadline>, d: Deadline)
    requires Ascending(s) && (s != [] ==> Earlier(s[|s| - 1], d))
    ensures Ascending(s + [d])
  {
    forall i | 0 <= i < |s| ensures Earlier(s[i], d) {
      assert i < |s| - 1 ==> Earlier(s[i], s[|s| - 1]);
    }
  }

  /** A timer as the API's callers see it; hasCallback says that timer_cb is not NULL. */
  datatype Timer = Timer(active: bool, deadline: Deadline, repeat: nat, hasCallback: bool)

  datatype Clock = Clock(time: nat, counter: nat, timers: seq<Timer>)

  /** The sum as the source computes it, in 64 bits. */
  function Clamped(time: nat, timeout: nat): nat {
    var sum := (time + timeout) % (UINT64_MAX + 1);
    if sum < timeout then UINT64_MAX else sum
  }

  lemma ClampedSaturates(time: nat, timeout: nat)
    requires time <= UINT64_MAX && timeout <= UINT64_MAX
    ensures Clamped(time, timeout) == if time + timeout <= UINT64_MAX then time + timeout else UINT64_MAX
  {
    if time + timeout > UINT64_MAX {
      assert (time + timeout) % (UINT64_MAX + 1) == time + timeout - UINT64_MAX - 1;
    }
  }

  function Inited(c: Clock): Clock {
    c.(timers := c.timers + [Timer(false, Deadline(0, 0, |c.timers|), 0, false)])
  }

  function Entered(c: Clock, h: nat, timeout: nat, repeat: nat): Clock
    requires h < |c.timers|
  {
    c.(timers := c.timers[h := Timer(true, Deadline(timeout, c.counter, h), repeat, true)], counter := c.counter + 1)
  }

  function Started(c: Clock, h: nat, timeout: nat, repeat: nat, hasCallback: bool): Clock
    requires h < |c.timers|
  {
    if !hasCallback then c else Entered(c, h, Clamped(c.time, timeout), repeat)
  }

  function Stopped(c: Clock, h: nat): Clock
    requires h < |c.timers|
  {
    c.(timers := c.timers[h := c.timers[h].(active := false)])
  }

  function Again(c: Clock, h: nat): Clock
    requires h < |c.timers|
  {
    var t := c.timers[h];
    if !t.hasCallback || t.repeat == 0 then c else Started(Stopped(c, h), h, t.repeat, t.repeat, true)
  }

  // uv_timer_set_repeat.
  function Repeated(c: Clock, h: nat, repeat: nat): Clock
    requires h < |c.timers|
  {
    c.(timers := c.timers[h := c.timers[h].(repeat := repeat)])
  }

  /** What a callback may do. Handles that do not exist cannot be named. */
  datatype Call =
    | Start(h: nat, timeout: nat, repeat: nat, hasCallback: bool)
    | Stop(h: nat)
    | DoAgain(h: nat)
    | SetRepeat(h: nat, repeat: nat)
    | UpdateTime(time: nat)

  /** The arguments are 64-bit numbers. The loop's time does not go back, and never reaches the last millisecond. */
  predicate Fits(c: Clock, call: Call) {
    match call
    case Start(h, timeout, repeat, _) => h < |c.timers| && timeout <= UINT64_MAX && repeat <= UINT64_MAX
    case Stop(h) => h < |c.timers|
    case DoAgain(h) => h < |c.timers|
    case SetRepeat(h, repeat) => h < |c.timers| && repeat <= UINT64_MAX
    case UpdateTime(time) => c.time <= time < UINT64_MAX
  }

  /** A call that does not fit cannot be made. */
  function Execute(c: Clock, call: Call): Clock {
    if !Fits(c, call) then c else
    match call
    case Start(h, timeout, repeat, hasCallback) => Started(c, h, timeout, repeat, hasCallback)
    case Stop(h) => Stopped(c, h)
    case DoAgain(h) => Again(c, h)
    case SetRepeat(h, repeat) => Repeated(c, h, repeat)
    case UpdateTime(time) => c.(time := time)
  }

  /** The calls of a callback, one after the other. */
  function ExecuteAll(c: Clock, calls: seq<Call>): Clock
    decreases |calls|
  {
    if calls == [] then c else ExecuteAll(Execute(c, calls[0]), calls[1..])
  }

  ghost predicate TimerOk(c: Clock, h: nat)
    requires h < |c.timers|
  {
    var t := c.timers[h];
    && t.deadline.handle == h && t.repeat <= UINT64_MAX
    && (t.active ==> t.hasCallback && t.deadline.startId < c.counter)
  }

  ghost predicate Sound(c: Clock) {
    && c.time < UINT64_MAX
    && (forall h :: 0 <= h < |c.timers| ==> TimerOk(c, h))
    && forall h, k :: 0 <= h < k < |c.timers| && c.timers[h].active && c.timers[k].active ==>
         c.timers[h].deadline.startId != c.timers[k].deadline.startId
  }

  /** Every active timer is later than the one that has just fired. */
  ghost predicate Past(c: Clock, last: Deadline) {
    && last.timeout <= c.time && last.startId < c.counter
    && forall h :: 0 <= h < |c.timers| && c.timers[h].active ==> Earlier(last, c.timers[h].deadline)
  }

  lemma InitedKeeps(c: Clock)
    requires Sound(c)
    ensures Sound(Inited(c))
  {
    forall k | 0 <= k < |Inited(c).timers| ensures TimerOk(Inited(c), k) {
      assert k < |c.timers| ==> TimerOk(c, k);
    }
  }

  lemma StartedKeeps(c: Clock, h: nat, timeout: nat, repeat: nat, hasCallback: bool)
    requires Sound(c) && h < |c.timers| && timeout <= UINT64_MAX && repeat <= UINT64_MAX
    ensures Sound(Started(c, h, timeout, repeat, hasCallback))
    ensures forall last :: Past(c, last) ==> Past(Started(c, h, timeout, repeat, hasCallback), last)
  {
    ClampedSaturates(c.time, timeout);
    var d := Started(c, h, timeout, repeat, hasCallback);
    TimersOk(c, d, h);
    forall i, k | 0 <= i < k < |d.timers| && d.timers[i].active && d.timers[k].active
      ensures d.timers[i].deadline.startId != d.timers[k].deadline.startId
    {
      assert TimerOk(c, i) && TimerOk(c, k);
    }
  }

  /** At most the timer h changed, and it is all right. */
  lemma TimersOk(c: Clock, d: Clock, h: nat)
    requires Sound(c) && |d.timers| == |c.timers| && d.counter >= c.counter && (h < |c.timers| ==> TimerOk(d, h))
    requires forall k :: 0 <= k < |c.timers| && k != h ==> d.timers[k] == c.timers[k]
    ensures forall k :: 0 <= k < |d.timers| ==> TimerOk(d, k)
  {
    forall k | 0 <= k < |d.timers| && k != h ensures TimerOk(d, k) {
      assert TimerOk(c, k);
    }
  }

  lemma StoppedKeeps(c: Clock, h: nat)
    requires Sound(c) && h < |c.timers|
    ensures Sound(Stopped(c, h)) && forall last :: Past(c, last) ==> Past(Stopped(c, h), last)
  {
    assert TimerOk(c, h);
    TimersOk(c, Stopped(c, h), h);
  }

  lemma ExecuteKeeps(c: Clock, call: Call)
    requires Sound(c)
    ensures Sound(Execute(c, call)) && forall last :: Past(c, last) ==> Past(Execute(c, call), last)
  {
    if Fits(c, call) {
      FittingKeeps(c, call);
    }
  }

  lemma FittingKeeps(c: Clock, call: Call)
    requires Sound(c) && Fits(c, call)
    ensures Sound(Execute(c, call)) && forall last :: Past(c, last) ==> Past(Execute(c, call), last)
  {
    match call
    case Start(h, timeout, repeat, hasCallback) => StartedKeeps(c, h, timeout, repeat, hasCallback);
    case Stop(h) => StoppedKeeps(c, h);
    case DoAgain(h) => AgainKeeps(c, h);
    case SetRepeat(h, repeat) => RepeatedKeeps(c, h, repeat);
    case UpdateTime(_) => TimersOk(c, Execute(c, call), |c.timers|);
  }

  lemma RepeatedKeeps(c: Clock, h: nat, repeat: nat)
    requires Sound(c) && h < |c.timers| && repeat <= UINT64_MAX
    ensures Sound(Repeated(c, h, repeat)) && forall last :: Past(c, last) ==> Past(Repeated(c, h, repeat), last)
  {
    assert TimerOk(c, h);
    TimersOk(c, Repeated(c, h, repeat), h);
  }

  lemma AgainKeeps(c: Clock, h: nat)
    requires Sound(c) && h < |c.timers|
    ensures Sound(Again(c, h)) && forall last :: Past(c, last) ==> Past(Again(c, h), last)
  {
    assert TimerOk(c, h);
    StoppedKeeps(c, h);
    StartedKeeps(Stopped(c, h), h, c.timers[h].repeat, c.timers[h].repeat, true);
  }

  lemma {:induction false} ExecuteAllKeeps(c: Clock, calls: seq<Call>)
    requires Sound(c)
    ensures Sound(ExecuteAll(c, calls)) && |ExecuteAll(c, calls).timers| == |c.timers|
    ensures forall last :: Past(c, last) ==> Past(ExecuteAll(c, calls), last)
    decreases |calls|
  {
    if calls != [] {
      ExecuteKeeps(c, calls[0]);
      ExecuteAllKeeps(Execute(c, calls[0]), calls[1..]);
    }
  }

  // ---- one round of uv__run_timers ----

  /** h is due and no active timer is earlier. */
  ghost predicate Fires(c: Clock, h: nat) {
    && h < |c.timers| && c.timers[h].active && c.timers[h].deadline.timeout <= c.time
    && forall k :: 0 <= k < |c.timers| && c.timers[k].active ==> !Earlier(c.timers[k].deadline, c.timers[h].deadline)
  }

  function Fired(c: Clock, h: nat): Clock
    requires h < |c.timers|
  {
    Again(Stopped(c, h), h)
  }

  /** What is active afterwards is later, the restarted timer itself included. */
  lemma FiredPasses(c: Clock, h: nat)
    requires Sound(c) && Fires(c, h)
    ensures Sound(Fired(c, h)) && Past(Fired(c, h), c.timers[h].deadline)
  {
    assert TimerOk(c, h);
    StoppedKeeps(c, h);
    assert forall k :: 0 <= k < |c.timers| ==> TimerOk(c, k);
    assert Past(Stopped(c, h), c.timers[h].deadline);
    AgainKeeps(Stopped(c, h), h);
  }

  /** What the callback of round k does; the later ones do nothing. */
  function CallsOf(script: seq<seq<Call>>, k: nat): seq<Call> {
    if k < |script| then script[k] else []
  }

  /** In round k the timer that is first and due fires, is stopped or restarted, and then its callback makes its calls. */
  ghost predicate RoundOk(trace: seq<Clock>, script: seq<seq<Call>>, fired: seq<Deadline>, k: nat)
    requires k < |fired| < |trace|
  {
    && Fires(trace[k], fired[k].handle) && trace[k].timers[fired[k].handle].deadline == fired[k]
    && trace[k + 1] == ExecuteAll(Fired(trace[k], fired[k].handle), CallsOf(script, k))
  }

  /** A pass so far: the states between its rounds, and the deadlines that fired in them. */
  ghost predicate PassOk(trace: seq<Clock>, script: seq<seq<Call>>, fired: seq<Deadline>) {
    |trace| == |fired| + 1 && forall k :: 0 <= k < |fired| ==> RoundOk(trace, script, fired, k)
  }

  lemma PassMore(trace: seq<Clock>, script: seq<seq<Call>>, fired: seq<Deadline>, h: nat)
    requires PassOk(trace, script, fired) && Sound(trace[|fired|]) && Fires(trace[|fired|], h)
    ensures var c := trace[|fired|];
            PassOk(trace + [ExecuteAll(Fired(c, h), CallsOf(script, |fired|))], script, fired + [c.timers[h].deadline])
  {
    var n := |fired|;
    var c := trace[n];
    var trace', fired' := trace + [ExecuteAll(Fired(c, h), CallsOf(script, n))], fired + [c.timers[h].deadline];
    assert TimerOk(c, h);
    forall k | 0 <= k < |fired'| ensures RoundOk(trace', script, fired', k) {
      assert k < n ==> RoundOk(trace, script, fired, k);
    }
  }

  /** A pass that began in state first and is in state now. */
  ghost predicate Going(first: Clock, script: seq<seq<Call>>, fired: seq<Deadline>, trace: seq<Clock>, now: Clock) {
    && PassOk(trace, script, fired) && trace[0] == first && trace[|fired|] == now && Sound(now)
    && Ascending(fired) && (fired != [] ==> Past(now, fired[|fired| - 1]))
  }

  lemma GoesOn(first: Clock, script: seq<seq<Call>>, fired: seq<Deadline>, trace: seq<Clock>, c: Clock, h: nat, now: Clock)
    requires Going(first, script, fired, trace, c) && Fires(c, h) && now == ExecuteAll(Fired(c, h), CallsOf(script, |fired|))
    ensures Going(first, script, fired + [c.timers[h].deadline], trace + [now], now)
  {
    FiredPasses(c, h);
    ExecuteAllKeeps(Fired(c, h), CallsOf(script, |fired|));
    PassMore(trace, script, fired, h);
    AscendingMore(fired, c.timers[h].deadline);
  }

  // ---- termination ----

  ghost function Due(c: Clock): set<nat> {
    set h | 0 <= h < |c.timers| && c.timers[h].active && c.timers[h].deadline.timeout <= c.time
  }

  lemma NoneDue(c: Clock, h: int)
    requires h < 0 ==> forall k :: 0 <= k < |c.timers| ==> !c.timers[k].active
    requires h >= 0 ==> h < |c.timers| && c.timers[h].deadline.timeout > c.time
    requires h >= 0 ==> forall k :: 0 <= k < |c.timers| && c.timers[k].active ==> !Earlier(c.timers[k].deadline, c.timers[h].deadline)
    ensures Due(c) == {}
  {
  }

  /** No active timer has an earlier deadline. */
  ghost predicate Soonest(c: Clock, h: nat) {
    && h < |c.timers| && c.timers[h].active
    && forall k :: 0 <= k < |c.timers| && c.timers[k].active ==> c.timers[h].deadline.timeout <= c.timers[k].deadline.timeout
  }

  /** How long to wait for it, in the range of int. */
  function WaitFor(c: Clock, h: nat): nat
    requires h < |c.timers|
  {
    var timeout := c.timers[h].deadline.timeout;
    if timeout <= c.time then 0 else if timeout - c.time > INT_MAX then INT_MAX else timeout - c.time
  }

  /** A call that starts no timer that is already due and leaves the loop's time alone. */
  ghost predicate Tame(c: Clock, call: Call) {
    match call
    case Start(_, timeout, _, _) => timeout > 0
    case UpdateTime(time) => time == c.time
    case _ => true
  }

  lemma TameStarts(c: Clock, h: nat, timeout: nat, repeat: nat, hasCallback: bool)
    requires Sound(c) && h < |c.timers| && 0 < timeout <= UINT64_MAX
    ensures Due(Started(c, h, timeout, repeat, hasCallback)) <= Due(c)
  {
    ClampedSaturates(c.time, timeout);
  }

  lemma TameCalls(c: Clock, call: Call)
    requires Sound(c) && Tame(c, call)
    ensures Due(Execute(c, call)) <= Due(c)
  {
    if !Fits(c, call) {
      return;
    }
    match call
    case Start(h, timeout, repeat, hasCallback) => TameStarts(c, h, timeout, repeat, hasCallback);
    case DoAgain(h) => AgainNotDue(c, h);
    case _ =>
  }

  lemma AgainNotDue(c: Clock, h: nat)
    requires Sound(c) && h < |c.timers|
    ensures Due(Again(c, h)) <= Due(c)
  {
    assert TimerOk(c, h);
    if c.timers[h].repeat > 0 {
      StoppedKeeps(c, h);
      TameStarts(Stopped(c, h), h, c.timers[h].repeat, c.timers[h].repeat, true);
    }
  }

  ghost predicate AllTame(c: Clock, calls: seq<Call>)
    decreases |calls|
  {
    calls == [] || (Tame(c, calls[0]) && AllTame(Execute(c, calls[0]), calls[1..]))
  }

  lemma {:induction false} TameCallbacks(c: Clock, calls: seq<Call>)
    requires Sound(c) && AllTame(c, calls)
    ensures Due(ExecuteAll(c, calls)) <= Due(c)
    decreases |calls|
  {
    if calls != [] {
      TameCalls(c, calls[0]);
      ExecuteKeeps(c, calls[0]);
      TameCallbacks(Execute(c, calls[0]), calls[1..]);
    }
  }

  /** Each round of a pass whose callbacks are tame leaves fewer timers due, so the pass ends. */
  lemma RoundProgress(c: Clock, h: nat, calls: seq<Call>)
    requires Sound(c) && Fires(c, h) && AllTame(Fired(c, h), calls)
    ensures |Due(ExecuteAll(Fired(c, h), calls))| < |Due(c)|
  {
    StoppedKeeps(c, h);
    AgainNotDue(Stopped(c, h), h);
    assert h in Due(c) && h !in Due(Stopped(c, h)) && Due(Stopped(c, h)) <= Due(c);
    FiredPasses(c, h);
    TameCallbacks(Fired(c, h), calls);
    ProperSubset(Due(ExecuteAll(Fired(c, h), calls)), Due(c));
  }

  /** The callback of round k is tame. */
  ghost predicate TameRound(trace: seq<Clock>, script: seq<seq<Call>>, fired: seq<Deadline>, k: nat)
    requires k < |fired| < |trace| && RoundOk(trace, script, fired, k)
  {
    AllTame(Fired(trace[k], fired[k].handle), CallsOf(script, k))
  }

  /** A pass whose callbacks are tame fires at most the timers due at its start, and no more. */
  lemma PassIsShort(trace: seq<Clock>, script: seq<seq<Call>>, fired: seq<Deadline>)
    requires PassOk(trace, script, fired) && Sound(trace[0])
    requires forall k :: 0 <= k < |fired| ==> TameRound(trace, script, fired, k)
    ensures |fired| + |Due(trace[|fired|])| <= |Due(trace[0])|
  {
    for k := 0 to |fired|
      invariant Sound(trace[k]) && k + |Due(trace[k])| <= |Due(trace[0])|
    {
      assert RoundOk(trace, script, fired, k) && TameRound(trace, script, fired, k);
      var h := fired[k].handle;
      RoundProgress(trace[k], h, CallsOf(script, k));
      FiredPasses(trace[k], h);
      ExecuteAllKeeps(Fired(trace[k], h), CallsOf(script, k));
    }
  }

  lemma {:induction false} ProperSubset(a: set<nat>, b: set<nat>)
    requires a < b
    ensures |a| < |b|
  {
    var x :| x in b && x !in a;
    var rest := b - {x};
    assert a <= rest;
    SubsetSize(a, rest);
  }

  lemma {:induction false} SubsetSize(a: set<nat>, b: set<nat>)
    requires a <= b
    ensures |a| <= |b|
    decreases a
  {
    if a != {} {
      var x :| x in a;
      SubsetSize(a - {x}, b - {x});
    }
  }
}
