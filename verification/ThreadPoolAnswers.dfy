/** What uv_cancel answers, and what calls of the thread pool lead to. */
module ThreadPoolAnswers {
  import opened Sequences
  import opened ThreadPool
  import opened ThreadPoolRequests
  import opened ThreadPoolRuns

  /** The request is on one of the queues. */
  ghost predicate Queued(s: State, r: ReqId) { exists spot :: At(s, r, spot) }

  /** The request that the thread of a loop is busy with. */
  ghost predicate CancelsFor(s: State, l: LoopId, r: ReqId) {
    l < |s.loops| && s.loops[l].client == Cancelling(r)
  }

  lemma QueuedAsPlaced(s: State, r: ReqId)
    requires Inv(s) && r < |s.reqs|
    ensures Queued(s, r) <==> s.reqs[r].place in {OnPool, OnLoop, OnDrained}
  {
    assert ReqOk(s, r);
    SpotOf(s, r);
    if Queued(s, r) {
      var spot :| At(s, r, spot);
      OnlyItsPlace(s, r, spot);
    }
  }

  /** A cancel is refused exactly when a worker has the request or has run it; then nothing happens to it. */
  lemma RefusedLate(s: State, s': State, l: LoopId, r: ReqId)
    requires Inv(s) && CancelsFor(s, l, r) && Takes(s, s', ByRefusesCancel(l))
    ensures r < |s.reqs| && (s.reqs[r].place.WithWorker? || s.reqs[r].runs == 1)
    ensures s'.reqs == s.reqs && s'.wq == s.wq && s'.loops[l].client == Calm
  {
    assert LoopOk(s, l);
    assert ReqOk(s, r);
  }

  /** A cancel is granted only to a request on a queue whose work function has not run; afterwards it is on none. */
  lemma GrantedQueued(s: State, s': State, l: LoopId, r: ReqId)
    requires Inv(s) && CancelsFor(s, l, r) && Takes(s, s', ByGrantsCancel(l))
    ensures r < |s.reqs| && Queued(s, r) && s.reqs[r].runs == 0
    ensures !Queued(s', r) && s'.reqs[r].place == WithCanceller && s'.reqs[r].runs == 0
  {
    assert LoopOk(s, l);
    assert ReqOk(s, r);
    StepOfCancelKeeps(s, s', l);
    QueuedAsPlaced(s, r);
    QueuedAsPlaced(s', r);
  }

  lemma StepOfCancelKeeps(s: State, s': State, l: LoopId)
    requires Inv(s) && Takes(s, s', ByGrantsCancel(l))
    ensures Inv(s')
  {
    GrantsCancelKept(s, s', l);
  }

  ghost predicate CanGrant(s: State, l: LoopId) { exists s' :: Takes(s, s', ByGrantsCancel(l)) }

  ghost predicate CanRefuse(s: State, l: LoopId) { exists s' :: Takes(s, s', ByRefusesCancel(l)) }

  /** With both mutexes held there is exactly one answer: yes if the request is on a queue and has not run, no otherwise. */
  lemma OneAnswer(s: State, l: LoopId, r: ReqId)
    requires Inv(s) && CancelsFor(s, l, r)
    ensures r < |s.reqs| && (CanGrant(s, l) <==> Queued(s, r) && s.reqs[r].runs == 0)
    ensures CanRefuse(s, l) <==> !CanGrant(s, l)
  {
    assert LoopOk(s, l);
    assert ReqOk(s, r);
    QueuedAsPlaced(s, r);
    if s.reqs[r].linked && s.reqs[r].work != Null {
      var s' := Unqueued(s.(mutex := Free).WithLoop(l, s.loops[l].(lock := Free, client := Mark(r))), l, r)
                .WithReq(r, s.reqs[r].(place := WithCanceller));
      assert Takes(s, s', ByGrantsCancel(l));
    } else {
      var s' := s.(mutex := Free).WithLoop(l, s.loops[l].(lock := Free, client := Calm));
      assert Takes(s, s', ByRefusesCancel(l));
    }
  }

  /** The three lemmas, in every reachable state. */
  lemma CancelAnswers(t: seq<State>, l: LoopId, r: ReqId)
    requires Run(t) && CancelsFor(t[|t| - 1], l, r)
    ensures var s := t[|t| - 1];
            && r < |s.reqs|
            && (CanGrant(s, l) <==> Queued(s, r) && s.reqs[r].runs == 0)
            && (CanRefuse(s, l) <==> s.reqs[r].place.WithWorker? || s.reqs[r].runs == 1)
            && (CanRefuse(s, l) <==> !CanGrant(s, l))
  {
    RunInv(t);
    var s := t[|t| - 1];
    OneAnswer(s, l, r);
    QueuedAsPlaced(s, r);
    assert LoopOk(s, l);
    assert ReqOk(s, r);
  }

  // ---- runs that record their steps ----

  ghost predicate TakesAt(t: seq<State>, steps: seq<Step>, k: nat)
    requires k < |steps| < |t|
  {
    Takes(t[k], t[k + 1], steps[k])
  }

  ghost predicate Course(t: seq<State>, steps: seq<Step>) {
    && |t| == |steps| + 1 && Init(t[0])
    && forall k :: 0 <= k < |steps| ==> TakesAt(t, steps, k)
  }

  lemma {:induction false} CourseInv(t: seq<State>, steps: seq<Step>, n: nat)
    requires Course(t, steps) && n < |t|
    ensures Inv(t[n])
  {
    if n == 0 {
      InitInv(t[0]);
    } else {
      CourseInv(t, steps, n - 1);
      assert TakesAt(t, steps, n - 1);
      InvKept(t[n - 1], t[n], steps[n - 1]);
    }
  }

  lemma InitInv(s: State)
    requires Init(s)
    ensures Inv(s)
  {
  }

  // ---- what a step does to the requests ----

  predicate BusyWith(s: State, step: Step, r: ReqId) {
    match step
    case ByCallsWork(i) => i < |s.workers| && s.workers[i] == Took(r)
    case ByDelivers(l) => l < |s.loops| && s.loops[l].drained != [] && s.loops[l].drained[0] == r
    case ByFinishesCancel(l) => l < |s.loops| && s.loops[l].client == Returning(r)
    case _ => false
  }

  /** A request is run by the worker that has taken it, and by nobody else. */
  lemma RunsChange(s: State, s': State, step: Step, r: ReqId)
    requires Takes(s, s', step) && r < |s.reqs|
    ensures r < |s'.reqs| && s'.reqs[r].loop == s.reqs[r].loop
    ensures s'.reqs[r].runs == s.reqs[r].runs + if step.ByCallsWork? && BusyWith(s, step, r) then 1 else 0
  {
  }

  /** It is done when its loop delivers it, with the status that a granted cancel has left. */
  lemma DoneChange(s: State, s': State, step: Step, r: ReqId)
    requires Inv(s) && Takes(s, s', step) && r < |s.reqs|
    ensures r < |s'.reqs|
    ensures s'.reqs[r].done == s.reqs[r].done + if step.ByDelivers? && BusyWith(s, step, r) then [s.reqs[r].cancelOk] else []
  {
    if step.ByDelivers? {
      DeliveredStatus(s, s', step.l);
    } else {
      NotDone(s, s', step, r);
    }
  }

  lemma DeliveredStatus(s: State, s': State, l: LoopId)
    requires Inv(s) && Delivers(s, s', l)
    ensures var r := s.loops[l].drained[0];
            s'.reqs == s.reqs[r := s'.reqs[r]] && s'.reqs[r].done == s.reqs[r].done + [s.reqs[r].cancelOk]
  {
    assert LoopOk(s, l);
    assert ReqOk(s, s.loops[l].drained[0]);
  }

  lemma NotDone(s: State, s': State, step: Step, r: ReqId)
    requires Takes(s, s', step) && !step.ByDelivers? && r < |s.reqs|
    ensures r < |s'.reqs| && s'.reqs[r].done == s.reqs[r].done
  {
  }

  /** And it is cancelled by the end of a cancel of the thread of a loop, for ever. */
  lemma CancelOkChange(s: State, s': State, step: Step, r: ReqId)
    requires Takes(s, s', step) && r < |s.reqs|
    ensures r < |s'.reqs|
    ensures s'.reqs[r].cancelOk <==> s.reqs[r].cancelOk || (step.ByFinishesCancel? && BusyWith(s, step, r))
  {
  }

  // ---- what the calls of a loop's thread come to ----

  predicate ClientIs(s: State, l: LoopId, c: Client) { l < |s.loops| && s.loops[l].client == c }

  predicate Asks(s: State, l: LoopId, r: ReqId) {
    ClientIs(s, l, Cancel(r)) || ClientIs(s, l, CancelHalf(r)) || ClientIs(s, l, Cancelling(r))
  }

  predicate TakesBack(s: State, l: LoopId, r: ReqId) {
    ClientIs(s, l, Mark(r)) || ClientIs(s, l, Return(r)) || ClientIs(s, l, Returning(r))
  }

  predicate IsPosting(s: State, l: LoopId, r: ReqId) { ClientIs(s, l, Post(r)) || ClientIs(s, l, Posting(r)) }

  predicate IsDraining(s: State, l: LoopId) { ClientIs(s, l, Drain) || ClientIs(s, l, Draining) }

  predicate ByClient(step: Step, l: LoopId) {
    match step
    case BySubmits(k, _, _) => k == l
    case ByClientLocks(k) => k == l
    case ByPosts(k) => k == l
    case ByBeginsCancel(k, _) => k == l
    case ByClientLocksLoop(k) => k == l
    case ByRefusesCancel(k) => k == l
    case ByGrantsCancel(k) => k == l
    case ByMarks(k) => k == l
    case ByFinishesCancel(k) => k == l
    case ByBeginsDrain(k) => k == l
    case ByDrains(k) => k == l
    case ByDelivers(k) => k == l
    case _ => false
  }

  /** Nobody else moves the thread of a loop. */
  lemma ClientStays(s: State, s': State, step: Step, l: LoopId)
    requires Takes(s, s', step) && l < |s.loops| && !ByClient(step, l)
    ensures l < |s'.loops| && s'.loops[l].client == s.loops[l].client
  {
  }

  ghost predicate AnswersAt(t: seq<State>, steps: seq<Step>, m: nat, l: LoopId, r: ReqId)
    requires m < |steps| < |t|
  {
    CancelsFor(t[m], l, r) && (steps[m] == ByRefusesCancel(l) || steps[m] == ByGrantsCancel(l))
  }

  ghost predicate AnsweredSince(t: seq<State>, steps: seq<Step>, k: nat, n: nat, l: LoopId, r: ReqId)
    requires n <= |steps| < |t|
  {
    exists m :: k <= m < n && AnswersAt(t, steps, m, l, r)
  }

  lemma AskingStarts(s: State, s': State, l: LoopId, r: ReqId)
    requires Takes(s, s', ByBeginsCancel(l, r))
    ensures Asks(s', l, r)
  {
  }

  lemma AskingStep(s: State, s': State, step: Step, l: LoopId, r: ReqId)
    requires Takes(s, s', step) && Asks(s, l, r)
    ensures Asks(s', l, r) || (CancelsFor(s, l, r) && step in {ByRefusesCancel(l), ByGrantsCancel(l)})
  {
    if !ByClient(step, l) {
      ClientStays(s, s', step, l);
    }
  }

  /** When uv_cancel returns it has been answered, with both mutexes held. */
  lemma CancelIsAnswered(t: seq<State>, steps: seq<Step>, k: nat, n: nat, l: LoopId, r: ReqId)
    requires Course(t, steps) && k < n <= |steps| && steps[k] == ByBeginsCancel(l, r) && ClientIs(t[n], l, Calm)
    ensures AnsweredSince(t, steps, k, n, l, r)
  {
    assert TakesAt(t, steps, k);
    AskingStarts(t[k], t[k + 1], l, r);
    for m := k + 1 to n
      invariant Asks(t[m], l, r) || AnsweredSince(t, steps, k, m, l, r)
    {
      assert TakesAt(t, steps, m);
      if Asks(t[m], l, r) {
        AskingStep(t[m], t[m + 1], steps[m], l, r);
        assert Asks(t[m + 1], l, r) || AnswersAt(t, steps, m, l, r);
      }
    }
  }

  ghost predicate IsCancelled(s: State, r: ReqId) { r < |s.reqs| && s.reqs[r].cancelOk }

  lemma GrantTakesBack(s: State, s': State, l: LoopId, r: ReqId)
    requires CancelsFor(s, l, r) && Takes(s, s', ByGrantsCancel(l))
    ensures TakesBack(s', l, r)
  {
  }

  lemma TakingBackStep(s: State, s': State, step: Step, l: LoopId, r: ReqId)
    requires Takes(s, s', step) && TakesBack(s, l, r)
    ensures TakesBack(s', l, r) || (step == ByFinishesCancel(l) && BusyWith(s, step, r))
  {
    if !ByClient(step, l) {
      ClientStays(s, s', step, l);
    }
  }

  lemma RequestOf(s: State, l: LoopId, r: ReqId)
    requires Inv(s)
    ensures TakesBack(s, l, r) ==> r < |s.reqs|
  {
    if l < |s.loops| {
      assert LoopOk(s, l);
    }
  }

  /** And when it returns after it has been granted, the request is cancelled. */
  lemma GrantedIsCancelled(t: seq<State>, steps: seq<Step>, k: nat, n: nat, l: LoopId, r: ReqId)
    requires Course(t, steps) && k < n <= |steps| && steps[k] == ByGrantsCancel(l) && CancelsFor(t[k], l, r)
    requires ClientIs(t[n], l, Calm)
    ensures IsCancelled(t[n], r)
  {
    assert TakesAt(t, steps, k);
    GrantTakesBack(t[k], t[k + 1], l, r);
    for m := k + 1 to n
      invariant TakesBack(t[m], l, r) || IsCancelled(t[m], r)
    {
      TakingBackAt(t, steps, m, l, r);
    }
  }

  lemma TakingBackAt(t: seq<State>, steps: seq<Step>, m: nat, l: LoopId, r: ReqId)
    requires Course(t, steps) && m < |steps| && (TakesBack(t[m], l, r) || IsCancelled(t[m], r))
    ensures TakesBack(t[m + 1], l, r) || IsCancelled(t[m + 1], r)
  {
    assert TakesAt(t, steps, m);
    CourseInv(t, steps, m);
    RequestOf(t[m], l, r);
    if TakesBack(t[m], l, r) {
      TakingBackStep(t[m], t[m + 1], steps[m], l, r);
    }
    CancelOkChange(t[m], t[m + 1], steps[m], r);
  }

  ghost predicate PostedSince(t: seq<State>, k: nat, n: nat, r: ReqId)
    requires n < |t|
  {
    exists m {:trigger t[m]} :: k <= m <= n && Work(r) in t[m].wq
  }

  lemma PostingStarts(s: State, s': State, l: LoopId, r: ReqId, garbage: bool)
    requires Takes(s, s', BySubmits(l, r, garbage))
    ensures IsPosting(s', l, r)
  {
  }

  lemma PostingStep(s: State, s': State, step: Step, l: LoopId, r: ReqId)
    requires Takes(s, s', step) && IsPosting(s, l, r)
    ensures IsPosting(s', l, r) || Work(r) in s'.wq
  {
    if !ByClient(step, l) {
      ClientStays(s, s', step, l);
    } else if step == ByPosts(l) {
      assert s'.wq[|s.wq|] == Work(r);
    }
  }

  /** When uv_queue_work returns its request has been put on the global queue. */
  lemma SubmitIsPosted(t: seq<State>, steps: seq<Step>, k: nat, n: nat, l: LoopId, r: ReqId, garbage: bool)
    requires Course(t, steps) && k < n <= |steps| && steps[k] == BySubmits(l, r, garbage) && ClientIs(t[n], l, Calm)
    ensures PostedSince(t, k, n, r)
  {
    assert TakesAt(t, steps, k);
    PostingStarts(t[k], t[k + 1], l, r, garbage);
    for m := k + 1 to n
      invariant IsPosting(t[m], l, r) || PostedSince(t, k, m, r)
    {
      assert TakesAt(t, steps, m);
      if IsPosting(t[m], l, r) {
        PostingStep(t[m], t[m + 1], steps[m], l, r);
      }
    }
  }

  /** All finished requests of the loop are handed over for delivery, in their order. */
  predicate HandsOver(s: State, s': State, l: LoopId) {
    l < |s.loops| == |s'.loops| && s'.loops[l].drained == s.loops[l].wq && s'.loops[l].wq == []
  }

  ghost predicate HandedOverSince(t: seq<State>, k: nat, n: nat, l: LoopId)
    requires n < |t|
  {
    exists m {:trigger t[m]} :: k <= m < n && HandsOver(t[m], t[m + 1], l)
  }

  lemma DrainingStarts(s: State, s': State, l: LoopId)
    requires Takes(s, s', ByBeginsDrain(l))
    ensures IsDraining(s', l)
  {
  }

  lemma DrainingStep(s: State, s': State, step: Step, l: LoopId)
    requires Takes(s, s', step) && IsDraining(s, l)
    ensures IsDraining(s', l) || HandsOver(s, s', l)
  {
    if !ByClient(step, l) {
      ClientStays(s, s', step, l);
    }
  }

  /** uv__work_done hands over what has been finished. */
  lemma DrainHandsOver(t: seq<State>, steps: seq<Step>, k: nat, n: nat, l: LoopId)
    requires Course(t, steps) && k < n <= |steps| && steps[k] == ByBeginsDrain(l) && ClientIs(t[n], l, Calm)
    ensures HandedOverSince(t, k, n, l)
  {
    assert TakesAt(t, steps, k);
    DrainingStarts(t[k], t[k + 1], l);
    for m := k + 1 to n
      invariant IsDraining(t[m], l) || HandedOverSince(t, k, m, l)
    {
      assert TakesAt(t, steps, m);
      if IsDraining(t[m], l) {
        DrainingStep(t[m], t[m + 1], steps[m], l);
      }
    }
  }

  /** The thread of a loop may make any of these calls when it is between two of them. */
  lemma CallsBegin(s: State, l: LoopId, r: ReqId)
    requires ClientIs(s, l, Calm)
    ensures exists s' :: Takes(s, s', BySubmits(l, |s.reqs|, false))
    ensures r < |s.reqs| && s.reqs[r].loop == l && s.reqs[r].done == [] ==> exists s' :: Takes(s, s', ByBeginsCancel(l, r))
    ensures s.loops[l].drained == [] ==> exists s' :: Takes(s, s', ByBeginsDrain(l))
  {
    var n := |s.reqs|;
    var s' := s.(reqs := s.reqs + [Req(l, Function, false, WithPoster, false, 0, [], false)]).WithClient(l, Post(n));
    assert Takes(s, s', BySubmits(l, n, false));
    if r < |s.reqs| && s.reqs[r].loop == l && s.reqs[r].done == [] {
      assert Takes(s, s.WithClient(l, Cancel(r)), ByBeginsCancel(l, r));
    }
    if s.loops[l].drained == [] {
      assert Takes(s, s.WithClient(l, Drain), ByBeginsDrain(l));
    }
  }
}
