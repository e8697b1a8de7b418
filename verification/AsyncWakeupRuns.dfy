/** All runs of the wakeup protocol. */
module AsyncWakeupRuns {
  import opened AsyncWakeup
  import opened Sequences

  datatype Step =
    | ByBeginsSend(i: nat, h: HandleId)
    | BySwaps(i: nat)
    | ByWrites(i: nat, again: bool)
    | ByInits(hasCallback: bool)
    | ByCloses(h: HandleId)
    | ByWakes
    | ByReads
    | ByMoves
    | ByVisits
    | ByClears
    | ByReturns
    | ByEnds

  ghost predicate Takes(s: State, s': State, step: Step) {
    match step
    case ByBeginsSend(i, h) => BeginsSend(s, s', i, h)
    case BySwaps(i) => Swaps(s, s', i)
    case ByWrites(i, again) => Writes(s, s', i, again)
    case ByInits(hasCallback) => Inits(s, s', hasCallback)
    case ByCloses(h) => Closes(s, s', h)
    case ByWakes => Wakes(s, s')
    case ByReads => Reads(s, s')
    case ByMoves => Moves(s, s')
    case ByVisits => Visits(s, s')
    case ByClears => Clears(s, s')
    case ByReturns => Returns(s, s')
    case ByEnds => Ends(s, s')
  }

  lemma StepKeeps(s: State, s': State, step: Step)
    requires Inv(s) && Takes(s, s', step)
    ensures Inv(s')
  {
    match step
    case ByBeginsSend(i, h) => BeginsSendKept(s, s', i, h);
    case BySwaps(i) => SwapsKept(s, s', i);
    case ByWrites(i, again) => WritesKept(s, s', i, again);
    case ByInits(hasCallback) => InitsKept(s, s', hasCallback);
    case ByCloses(h) => ClosesKept(s, s', h);
    case ByVisits => VisitsKept(s, s');
    case ByClears => ClearsKept(s, s');
    case _ => LoopKept(s, s');
  }

  ghost predicate Next(s: State, s': State) { exists step :: Takes(s, s', step) }

  ghost function Last(t: seq<State>): State
    requires t != []
  {
    t[|t| - 1]
  }

  ghost predicate Run(t: seq<State>) {
    && t != [] && Init(t[0])
    && forall k :: 0 < k < |t| ==> Next(t[k - 1], t[k])
  }

  lemma {:induction false} RunInv(t: seq<State>)
    requires Run(t)
    ensures Inv(Last(t))
  {
    var n := |t| - 1;
    if n > 0 {
      assert Run(t[..n]);
      RunInv(t[..n]);
      var step :| Takes(t[n - 1], t[n], step);
      StepKeeps(t[n - 1], t[n], step);
    }
  }

  /** A pending handle is never left without somebody who will see to it. */
  lemma NoLostWakeup(t: seq<State>, h: HandleId)
    requires Run(t)
    requires var s := Last(t); h < |s.handles| && s.handles[h].open && s.handles[h].pending
    ensures var s := Last(t); BeingWritten(s, h) || s.fd > 0 || YetToVisit(s, h)
  {
    RunInv(t);
    assert HandleOk(Last(t), h);
  }

  /** Once every send has returned and the loop sleeps on an empty wakeup fd, no open handle is pending. */
  lemma NothingForgotten(t: seq<State>, h: HandleId)
    requires Run(t)
    requires var s := Last(t); s.at == Polling && s.fd == 0 && h < |s.handles| && s.handles[h].open
    requires forall i :: 0 <= i < |Last(t).senders| ==> Last(t).senders[i] == Calm
    ensures !Last(t).handles[h].pending
  {
    if Last(t).handles[h].pending {
      NoLostWakeup(t, h);
    }
  }

  /** A pass calls no handle twice. */
  lemma OncePerPass(t: seq<State>)
    requires Run(t)
    ensures Distinct(Last(t).called)
  {
    RunInv(t);
  }

  /** Nobody but uv__async_io calls handles, and each call is of a handle that was pending. */
  lemma CallsOnlyPending(s: State, s': State, step: Step, h: HandleId)
    requires Inv(s) && Takes(s, s', step) && h in s'.called && h !in s.called
    ensures step.ByClears? && s.at == At(h) && s.handles[h].pending && s.handles[h].open && !s'.handles[h].pending
    ensures s'.at == Calling(h)
  {
  }

  /** A pass from its QUEUE_MOVE on: no step of these states goes back to polling. */
  ghost predicate Pass(t: seq<State>) {
    && t != [] && t[0].at == Moving && Inv(t[0])
    && (forall k :: 0 < k < |t| ==> Next(t[k - 1], t[k]))
    && forall k :: 0 <= k < |t| ==> t[k].at != Polling
  }

  /** What a pass owes h: it is still to be called, or has been, or was closed first. */
  ghost predicate Owed(s: State, h: HandleId) {
    && h < |s.handles| && s.handles[h].hasCallback
    && (s.handles[h].open ==> (s.handles[h].pending && YetToVisit(s, h)) || h in s.called)
  }

  lemma OwedKept(s: State, s': State, step: Step, h: HandleId)
    requires Inv(s) && Takes(s, s', step) && Owed(s, h) && s.at != Polling
    ensures Owed(s', h)
  {
    if step.ByCloses? {
      WithoutMembers(s.waiting, step.h);
      WithoutMembers(s.queue, step.h);
    }
  }

  lemma {:induction false} PassInv(t: seq<State>, h: HandleId)
    requires Pass(t)
    requires h < |t[0].handles| && t[0].handles[h] == Handle(true, true, true)
    ensures Owed(Last(t), h) && Inv(Last(t))
  {
    var n := |t| - 1;
    if n == 0 {
      assert HandleOk(t[0], h);
    } else {
      assert Pass(t[..n]);
      PassInv(t[..n], h);
      var step :| Takes(t[n - 1], t[n], step);
      StepKeeps(t[n - 1], t[n], step);
      OwedKept(t[n - 1], t[n], step, h);
    }
  }

  /** A handle that was pending when a pass began has been called when the pass ends, unless it was closed before. */
  lemma PassCallsPending(t: seq<State>, h: HandleId)
    requires Pass(t) && Last(t).at == Sweeping && Last(t).queue == []
    requires h < |t[0].handles| && t[0].handles[h] == Handle(true, true, true)
    ensures h < |Last(t).handles| && (Last(t).handles[h].open ==> h in Last(t).called)
  {
    PassInv(t, h);
  }

  /** After the QUEUE_MOVE nothing joins the queue of a pass, so it ends after as many visits as there were handles. */
  lemma PassShrinks(s: State, s': State, step: Step)
    requires Inv(s) && Takes(s, s', step) && s.at !in {Polling, Reading, Moving}
    ensures |s'.queue| <= |s.queue| && (forall h :: h in s'.queue ==> h in s.queue)
    ensures step.ByVisits? ==> |s'.queue| < |s.queue|
  {
    if step.ByCloses? {
      WithoutMembers(s.queue, step.h);
      WithoutShorter(s.queue, step.h);
    }
  }
}
