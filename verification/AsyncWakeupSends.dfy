/** What a call of uv_async_send leads to, over runs of the wakeup protocol that record their steps. */
module AsyncWakeupSends {
  import opened Sequences
  import opened AsyncWakeup
  import opened AsyncWakeupRuns

  /** A run, and the steps it takes. */
  ghost predicate Course(t: seq<State>, steps: seq<Step>) {
    && |t| == |steps| + 1 && Init(t[0])
    && forall k :: 0 <= k < |steps| ==> TakesAt(t, steps, k)
  }

  ghost predicate TakesAt(t: seq<State>, steps: seq<Step>, k: nat)
    requires k < |steps| < |t|
  {
    Takes(t[k], t[k + 1], steps[k])
  }

  lemma {:induction false} CourseInv(t: seq<State>, steps: seq<Step>, n: nat)
    requires Course(t, steps) && n < |t|
    ensures Inv(t[n])
  {
    if n > 0 {
      CourseInv(t, steps, n - 1);
      assert TakesAt(t, steps, n - 1);
      StepKeeps(t[n - 1], t[n], steps[n - 1]);
    }
  }

  // ---- what a step does to the handles ----

  /** The callback of h is entered. */
  predicate Enters(s: State, s': State, h: HandleId) { s.at != Calling(h) && s'.at == Calling(h) }

  predicate Pends(s: State, h: HandleId) { h < |s.handles| && s.handles[h].pending }

  predicate IsOpen(s: State, h: HandleId) { h < |s.handles| && s.handles[h].open }

  predicate Callable(s: State, h: HandleId) { h < |s.handles| && s.handles[h].hasCallback }

  /** Handles are not taken away, and only uv_async_init adds one. */
  lemma HandlesStay(s: State, s': State, step: Step)
    requires Takes(s, s', step)
    ensures |s'.handles| == |s.handles| + if step.ByInits? then 1 else 0
    ensures forall h :: 0 <= h < |s.handles| ==> s'.handles[h].hasCallback == s.handles[h].hasCallback
    ensures forall h :: 0 <= h < |s.handles| ==> (s'.handles[h].open <==> s.handles[h].open && step != ByCloses(h))
    ensures step.ByInits? ==> s'.handles[|s.handles|] == Handle(true, false, step.hasCallback)
  {
  }

  /** A flag is set by a sender that is in a send to the handle, and taken back by the loop that then enters its callback. */
  lemma FlagsChange(s: State, s': State, step: Step, h: HandleId)
    requires Inv(s) && Takes(s, s', step)
    ensures Pends(s', h) && !Pends(s, h) ==> step.BySwaps? && step.i < |s.senders| && s.senders[step.i] == Swapping(h)
    ensures Pends(s, h) && !Pends(s', h) && Callable(s, h) ==> Enters(s, s', h)
    ensures Enters(s, s', h) ==> Pends(s, h) && !Pends(s', h) && IsOpen(s, h) && Callable(s, h)
  {
    if step.ByInits? && h == |s.handles| {
      assert !Pends(s', h);
    }
  }

  // ---- a send makes its handle pending ----

  /** Sender i has not returned from its send to h, or the handle was pending at some state since state k. */
  ghost predicate Under(t: seq<State>, k: nat, n: nat, i: nat, h: HandleId) {
    && k <= n < |t|
    && ((i < |t[n].senders| && t[n].senders[i] == Swapping(h)) || PendedSince(t, k, n, h))
  }

  ghost predicate PendedSince(t: seq<State>, k: nat, n: nat, h: HandleId) {
    exists m :: k <= m <= n && m < |t| && Pends(t[m], h)
  }

  lemma SenderMoves(s: State, s': State, step: Step, i: nat, h: HandleId)
    requires Takes(s, s', step) && i < |s.senders| && s.senders[i] == Swapping(h)
    ensures (i < |s'.senders| && s'.senders[i] == Swapping(h)) || Pends(s, h) || Pends(s', h)
  {
  }

  lemma SendStarts(s: State, s': State, i: nat, h: HandleId)
    requires Takes(s, s', ByBeginsSend(i, h))
    ensures i < |s'.senders| && IsOpen(s, h) && (s'.senders[i] == Swapping(h) || Pends(s, h))
  {
  }

  /** When a send has returned, its handle has been pending at some moment since the send began. */
  lemma SendPends(t: seq<State>, steps: seq<Step>, k: nat, n: nat, i: nat, h: HandleId)
    requires Course(t, steps) && k < n < |t| && steps[k] == ByBeginsSend(i, h)
    requires i < |t[n].senders| && t[n].senders[i] == Calm
    ensures PendedSince(t, k, n, h)
  {
    assert TakesAt(t, steps, k);
    SendStarts(t[k], t[k + 1], i, h);
    for m := k + 1 to n
      invariant Under(t, k, m, i, h)
    {
      assert TakesAt(t, steps, m);
      if !PendedSince(t, k, m, h) {
        SenderMoves(t[m], t[m + 1], steps[m], i, h);
      }
    }
  }

  // ---- and a pending handle is called ----

  ghost predicate EnteredSince(t: seq<State>, k: nat, n: nat, h: HandleId) {
    exists m :: k <= m < n && m + 1 < |t| && EntersAt(t, m, h)
  }

  ghost predicate EntersAt(t: seq<State>, m: nat, h: HandleId)
    requires m + 1 < |t|
  {
    Enters(t[m], t[m + 1], h)
  }

  lemma {:induction false} StaysCallable(t: seq<State>, steps: seq<Step>, m: nat, n: nat, h: HandleId)
    requires Course(t, steps) && m <= n < |t| && h < |t[m].handles| && Callable(t[n], h)
    ensures Callable(t[m], h)
    decreases n - m
  {
    if m < n {
      assert TakesAt(t, steps, m);
      HandlesStay(t[m], t[m + 1], steps[m]);
      StaysCallable(t, steps, m + 1, n, h);
    }
  }

  lemma {:induction false} PendingIsCalled(t: seq<State>, steps: seq<Step>, k: nat, m: nat, n: nat, h: HandleId)
    requires Course(t, steps) && k <= m <= n < |t| && Pends(t[m], h) && !Pends(t[n], h) && Callable(t[n], h)
    ensures EnteredSince(t, k, n, h)
    decreases n - m
  {
    assert TakesAt(t, steps, m);
    CourseInv(t, steps, m);
    StaysCallable(t, steps, m, n, h);
    FlagsChange(t[m], t[m + 1], steps[m], h);
    if Pends(t[m + 1], h) {
      PendingIsCalled(t, steps, k, m + 1, n, h);
    } else {
      assert EntersAt(t, m, h);
    }
  }

  lemma RunOf(t: seq<State>, steps: seq<Step>)
    requires Course(t, steps)
    ensures Run(t)
  {
    forall k | 0 < k < |t| ensures Next(t[k - 1], t[k]) {
      assert TakesAt(t, steps, k - 1);
    }
  }

  /**
    No send is lost: once all senders have returned and the loop sleeps on an empty wakeup fd, the callback of every
    open handle that was sent to has been entered since that send began.
  */
  lemma SendIsAnswered(t: seq<State>, steps: seq<Step>, k: nat, i: nat, h: HandleId)
    requires Course(t, steps) && k < |steps| && steps[k] == ByBeginsSend(i, h)
    requires var s := t[|steps|]; s.at == Polling && s.fd == 0 && forall j :: 0 <= j < |s.senders| ==> s.senders[j] == Calm
    requires IsOpen(t[|steps|], h) && Callable(t[|steps|], h)
    ensures EnteredSince(t, k, |steps|, h)
  {
    var n := |steps|;
    SendersStay(t, steps, k, n);
    assert TakesAt(t, steps, k);
    SendPends(t, steps, k, n, i, h);
    var m :| k <= m <= n && m < |t| && Pends(t[m], h);
    RunOf(t, steps);
    NothingForgotten(t, h);
    PendingIsCalled(t, steps, k, m, n, h);
  }

  lemma {:induction false} SendersStay(t: seq<State>, steps: seq<Step>, k: nat, n: nat)
    requires Course(t, steps) && k <= n < |t|
    ensures |t[n].senders| == |t[k].senders|
    decreases n - k
  {
    if k < n {
      assert TakesAt(t, steps, k);
      SendersStay(t, steps, k + 1, n);
    }
  }

  // ---- no callback without a send ----

  /** How many of the senders have read the flag of h as 0 and not swapped yet. */
  ghost function SwappingTo(senders: seq<Sender>, h: HandleId): nat {
    if senders == [] then 0
    else SwappingTo(senders[..|senders| - 1], h) + if senders[|senders| - 1] == Swapping(h) then 1 else 0
  }

  lemma {:induction false} SwappingSet(senders: seq<Sender>, i: nat, x: Sender, h: HandleId)
    requires i < |senders|
    ensures SwappingTo(senders[i := x], h) ==
            SwappingTo(senders, h) + (if x == Swapping(h) then 1 else 0) - (if senders[i] == Swapping(h) then 1 else 0)
  {
    var n := |senders| - 1;
    if i < n {
      assert senders[i := x][..n] == senders[..n][i := x];
      SwappingSet(senders[..n], i, x, h);
    } else {
      assert senders[i := x][..n] == senders[..n];
    }
  }

  /** How many of the first n steps begin a send to h, and how many enter its callback. */
  ghost function Sends(steps: seq<Step>, n: nat, h: HandleId): nat
    requires n <= |steps|
  {
    if n == 0 then 0 else Sends(steps, n - 1, h) + if steps[n - 1].ByBeginsSend? && steps[n - 1].h == h then 1 else 0
  }

  ghost function Entries(t: seq<State>, n: nat, h: HandleId): nat
    requires n < |t|
  {
    if n == 0 then 0 else Entries(t, n - 1, h) + if Enters(t[n - 1], t[n], h) then 1 else 0
  }

  ghost function Owing(s: State, h: HandleId): nat { SwappingTo(s.senders, h) + if Pends(s, h) then 1 else 0 }

  lemma OwingChange(s: State, s': State, step: Step, h: HandleId)
    requires Inv(s) && Takes(s, s', step)
    ensures Owing(s', h) + (if Enters(s, s', h) then 1 else 0)
            <= Owing(s, h) + if step.ByBeginsSend? && step.h == h then 1 else 0
  {
    FlagsChange(s, s', step, h);
    if step.ByBeginsSend? || step.BySwaps? || step.ByWrites? {
      SwappingSet(s.senders, step.i, s'.senders[step.i], h);
    }
  }

  /** A handle is called at most as often as it was sent to. */
  lemma {:induction false} CallsAreSent(t: seq<State>, steps: seq<Step>, n: nat, h: HandleId)
    requires Course(t, steps) && n < |t|
    ensures Entries(t, n, h) + Owing(t[n], h) <= Sends(steps, n, h)
  {
    if n == 0 {
      NobodySwaps(t[0].senders, h);
    } else {
      CallsAreSent(t, steps, n - 1, h);
      assert TakesAt(t, steps, n - 1);
      CourseInv(t, steps, n - 1);
      OwingChange(t[n - 1], t[n], steps[n - 1], h);
    }
  }

  lemma {:induction false} NobodySwaps(senders: seq<Sender>, h: HandleId)
    requires forall i :: 0 <= i < |senders| ==> senders[i] == Calm
    ensures SwappingTo(senders, h) == 0
  {
    if senders != [] {
      NobodySwaps(senders[..|senders| - 1], h);
    }
  }

  // ---- no callback after uv_close ----

  lemma {:induction false} StaysClosed(t: seq<State>, steps: seq<Step>, k: nat, n: nat, h: HandleId)
    requires Course(t, steps) && k <= n < |t| && h < |t[k].handles| && !IsOpen(t[k], h)
    ensures h < |t[n].handles| && !IsOpen(t[n], h)
    decreases n - k
  {
    if k < n {
      assert TakesAt(t, steps, k);
      HandlesStay(t[k], t[k + 1], steps[k]);
      StaysClosed(t, steps, k + 1, n, h);
    }
  }

  /** After a handle has been closed its callback is never entered again. */
  lemma NoCallAfterClose(t: seq<State>, steps: seq<Step>, k: nat, m: nat, h: HandleId)
    requires Course(t, steps) && k < m < |steps| && steps[k] == ByCloses(h)
    ensures !Enters(t[m], t[m + 1], h)
  {
    assert TakesAt(t, steps, k) && TakesAt(t, steps, m);
    HandlesStay(t[k], t[k + 1], steps[k]);
    StaysClosed(t, steps, k + 1, m, h);
    CourseInv(t, steps, m);
    FlagsChange(t[m], t[m + 1], steps[m], h);
  }

  // ---- nobody waits for anybody ----

  /** A send can begin at any time, and goes on whatever the others do. */
  lemma SendersGo(s: State, i: nat)
    requires Inv(s) && i < |s.senders|
    ensures s.senders[i] == Calm ==> forall h: HandleId :: IsOpen(s, h) ==> exists s' :: Takes(s, s', ByBeginsSend(i, h))
    ensures s.senders[i].Swapping? ==> exists s' :: Takes(s, s', BySwaps(i))
    ensures s.senders[i].Writing? ==> exists s' :: Takes(s, s', ByWrites(i, false))
  {
    assert SenderOk(s, i);
    match s.senders[i] {
      case Calm =>
        forall h: HandleId | IsOpen(s, h) ensures exists s' :: Takes(s, s', ByBeginsSend(i, h)) {
          var s' := if s.handles[h].pending then s else s.(senders := s.senders[i := Swapping(h)]);
          assert Takes(s, s', ByBeginsSend(i, h));
        }
      case Swapping(h) =>
        var s' := if s.handles[h].pending then s.(senders := s.senders[i := Calm])
                  else s.(senders := s.senders[i := Writing(h)], handles := s.handles[h := s.handles[h].(pending := true)]);
        assert Takes(s, s', BySwaps(i));
      case Writing(_) =>
        assert Takes(s, s.(senders := s.senders[i := Calm], fd := s.fd + 1), ByWrites(i, false));
    }
  }

  predicate ByLoop(step: Step) {
    step.ByWakes? || step.ByReads? || step.ByMoves? || step.ByVisits? || step.ByClears? || step.ByReturns? || step.ByEnds?
  }

  /** The loop goes on until it polls an empty wakeup fd. */
  lemma LoopGoes(s: State)
    requires Inv(s) && (s.at != Polling || s.fd > 0)
    ensures exists s', step :: ByLoop(step) && Takes(s, s', step)
  {
    match s.at {
      case Polling => assert Takes(s, s.(at := Reading, called := []), ByWakes);
      case Reading =>
        var s' := if !s.isEventFd && s.fd >= BUFFER then s.(fd := s.fd - BUFFER) else s.(fd := 0, at := Moving);
        assert Takes(s, s', ByReads);
      case Moving => assert Takes(s, s.(at := Sweeping, queue := s.waiting, waiting := []), ByMoves);
      case Sweeping =>
        if s.queue == [] {
          assert Takes(s, s.(at := Polling), ByEnds);
        } else {
          var s' := s.(at := At(s.queue[0]), queue := s.queue[1..], waiting := s.waiting + [s.queue[0]]);
          assert Takes(s, s', ByVisits);
        }
      case At(h) =>
        var calls := s.handles[h].pending && s.handles[h].hasCallback;
        var s' := s.(handles := s.handles[h := s.handles[h].(pending := false)], at := if calls then Calling(h) else Sweeping,
                     called := if calls then s.called + [h] else s.called);
        assert Takes(s, s', ByClears);
      case Calling(_) => assert Takes(s, s.(at := Sweeping), ByReturns);
    }
  }
}
