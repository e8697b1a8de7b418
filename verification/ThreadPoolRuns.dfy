/** All runs of the thread pool: what can never happen, and what can always go on. */
module ThreadPoolRuns {
  import opened Sequences
  import opened ThreadPool
  import opened ThreadPoolSafety
  import opened ThreadPoolRequests

  datatype Step =
    | ByWorkerLock(i: nat)
    | ByWorkerSleeps(i: nat)
    | ByWorkerExits(i: nat)
    | ByWorkerTakes(i: nat)
    | BySpuriousWake(i: nat)
    | ByCallsWork(i: nat)
    | ByWorkReturns(i: nat)
    | ByWorkerLocksLoop(i: nat)
    | ByWorkerReports(i: nat)
    | BySubmits(l: LoopId, r: ReqId, garbage: bool)
    | ByClientLocks(l: LoopId)
    | ByPosts(l: LoopId)
    | ByBeginsCancel(l: LoopId, r: ReqId)
    | ByClientLocksLoop(l: LoopId)
    | ByRefusesCancel(l: LoopId)
    | ByGrantsCancel(l: LoopId)
    | ByMarks(l: LoopId)
    | ByFinishesCancel(l: LoopId)
    | ByBeginsDrain(l: LoopId)
    | ByDrains(l: LoopId)
    | ByDelivers(l: LoopId)
    | ByBeginsCleanup
    | ByCleanupLocks
    | ByCleanupPosts

  ghost predicate Takes(s: State, s': State, step: Step) {
    match step
    case ByWorkerLock(i) => WorkerLock(s, s', i)
    case ByWorkerSleeps(i) => WorkerSleeps(s, s', i)
    case ByWorkerExits(i) => WorkerExits(s, s', i)
    case ByWorkerTakes(i) => WorkerTakes(s, s', i)
    case BySpuriousWake(i) => SpuriousWake(s, s', i)
    case ByCallsWork(i) => CallsWork(s, s', i)
    case ByWorkReturns(i) => WorkReturns(s, s', i)
    case ByWorkerLocksLoop(i) => WorkerLocksLoop(s, s', i)
    case ByWorkerReports(i) => WorkerReports(s, s', i)
    case BySubmits(l, r, garbage) => Submits(s, s', l, r, garbage)
    case ByClientLocks(l) => ClientLocks(s, s', l)
    case ByPosts(l) => Posts(s, s', l)
    case ByBeginsCancel(l, r) => BeginsCancel(s, s', l, r)
    case ByClientLocksLoop(l) => ClientLocksLoop(s, s', l)
    case ByRefusesCancel(l) => RefusesCancel(s, s', l)
    case ByGrantsCancel(l) => GrantsCancel(s, s', l)
    case ByMarks(l) => Marks(s, s', l)
    case ByFinishesCancel(l) => FinishesCancel(s, s', l)
    case ByBeginsDrain(l) => BeginsDrain(s, s', l)
    case ByDrains(l) => Drains(s, s', l)
    case ByDelivers(l) => Delivers(s, s', l)
    case ByBeginsCleanup => BeginsCleanup(s, s')
    case ByCleanupLocks => CleanupLocks(s, s')
    case ByCleanupPosts => CleanupPosts(s, s')
  }

  lemma StepKeeps(s: State, s': State, step: Step)
    requires Inv(s) && IdleInv(s) && Takes(s, s', step)
    ensures Inv(s') && IdleInv(s')
  {
    InvKept(s, s', step);
    IdleKept(s, s', step);
  }

  lemma InvKept(s: State, s': State, step: Step)
    requires Inv(s) && Takes(s, s', step)
    ensures Inv(s')
  {
    match step
    case ByWorkerLock(i) => WorkerLockKept(s, s', i);
    case ByWorkerSleeps(i) => WorkerSleepsKept(s, s', i);
    case ByWorkerExits(i) => WorkerExitsKept(s, s', i);
    case ByWorkerTakes(i) => WorkerTakesKept(s, s', i);
    case BySpuriousWake(i) => SpuriousWakeKept(s, s', i);
    case ByCallsWork(i) => CallsWorkKept(s, s', i);
    case ByWorkReturns(i) => WorkReturnsKept(s, s', i);
    case ByWorkerLocksLoop(i) => WorkerLocksLoopKept(s, s', i);
    case ByWorkerReports(i) => WorkerReportsKept(s, s', i);
    case BySubmits(l, r, garbage) => SubmitsKept(s, s', l, r, garbage);
    case ByClientLocks(l) => ClientLocksKept(s, s', l);
    case ByPosts(l) => PostsKept(s, s', l);
    case ByBeginsCancel(l, r) => BeginsCancelKept(s, s', l, r);
    case ByClientLocksLoop(l) => ClientLocksLoopKept(s, s', l);
    case ByRefusesCancel(l) => RefusesCancelKept(s, s', l);
    case ByGrantsCancel(l) => GrantsCancelKept(s, s', l);
    case ByMarks(l) => MarksKept(s, s', l);
    case ByFinishesCancel(l) => FinishesCancelKept(s, s', l);
    case ByBeginsDrain(l) => BeginsDrainKept(s, s', l);
    case ByDrains(l) => DrainsKept(s, s', l);
    case ByDelivers(l) => DeliversKept(s, s', l);
    case ByBeginsCleanup => BeginsCleanupKept(s, s');
    case ByCleanupLocks => CleanupLocksKept(s, s');
    case ByCleanupPosts => CleanupPostsKept(s, s');
  }

  lemma IdleKept(s: State, s': State, step: Step)
    requires IdleInv(s) && Takes(s, s', step)
    ensures IdleInv(s')
  {
    match step
    case ByWorkerLock(i) => IdleUpdate(s, s', i);
    case ByWorkerSleeps(i) => IdleSleeps(s, s', i);
    case ByWorkerExits(i) => IdleExits(s, s', i);
    case ByWorkerTakes(i) => IdleTakes(s, s', i);
    case BySpuriousWake(i) => IdleUpdate(s, s', i);
    case ByCallsWork(i) => IdleUpdate(s, s', i);
    case ByWorkReturns(i) => IdleUpdate(s, s', i);
    case ByWorkerLocksLoop(i) => IdleUpdate(s, s', i);
    case ByWorkerReports(i) => IdleUpdate(s, s', i);
    case ByPosts(l) => IdlePost(s, s');
    case ByCleanupPosts => IdlePost(s, s');
    case ByGrantsCancel(l) => WithoutShorter(s.wq, Work(s.loops[l].client.req));
    case _ =>
  }

  // ---- runs ----

  ghost predicate Next(s: State, s': State) { exists step :: Takes(s, s', step) }

  /** A finite execution, from the state after init_threads on. */
  ghost predicate Run(t: seq<State>) {
    && t != [] && Init(t[0])
    && forall k :: 0 < k < |t| ==> Next(t[k - 1], t[k])
  }

  lemma {:induction false} RunInv(t: seq<State>)
    requires Run(t)
    ensures Inv(t[|t| - 1]) && IdleInv(t[|t| - 1])
  {
    if |t| == 1 {
      InitIdle(t[0].workers);
    } else {
      var n := |t| - 1;
      assert Run(t[..n]);
      RunInv(t[..n]);
      var step :| Takes(t[n - 1], t[n], step);
      StepKeeps(t[n - 1], t[n], step);
    }
  }

  /** Queued work is never stranded: while a worker sleeps unsignalled, as many signalled ones are on their way. */
  lemma NeverStranded(t: seq<State>)
    requires Run(t)
    ensures var s := t[|t| - 1]; SomeBlocked(s.workers) ==> |s.wq| <= RousingCount(s.workers)
  {
    RunInv(t);
  }

  /** No worker ever holds both mutexes. */
  lemma NeverBothMutexes(t: seq<State>, i: nat, l: LoopId)
    requires Run(t) && l < |t[|t| - 1].loops|
    ensures var s := t[|t| - 1]; !(s.mutex == HeldByWorker(i) && s.loops[l].lock == HeldByWorker(i))
  {
    RunInv(t);
    var s := t[|t| - 1];
    assert LoopOk(s, l);
    if i < |s.workers| {
      assert WorkerOk(s, i);
    }
  }

  /** uv__cancelled is never executed: what a worker is about to call is the work function. */
  lemma NeverCallsCancelled(t: seq<State>, i: nat)
    requires Run(t) && i < |t[|t| - 1].workers| && t[|t| - 1].workers[i].Took?
    ensures var s := t[|t| - 1]; s.workers[i].req < |s.reqs| && s.reqs[s.workers[i].req].work == Function
  {
    RunInv(t);
    var s := t[|t| - 1];
    assert WorkerOk(s, i);
    assert ReqOk(s, s.workers[i].req);
  }

  /** The done callback runs at most once, with UV_ECANCELED exactly if a cancel returned 0. */
  lemma DoneOnce(t: seq<State>, r: ReqId)
    requires Run(t) && r < |t[|t| - 1].reqs|
    ensures
      var q := t[|t| - 1].reqs[r];
      && |q.done| <= 1 && q.runs <= 1
      && (q.done != [] ==> q.done[0] == q.cancelOk && q.runs == if q.cancelOk then 0 else 1)
      && (q.cancelOk ==> q.runs == 0)
  {
    RunInv(t);
    assert ReqOk(t[|t| - 1], r);
  }

  /** A place in a queue: the global one, that of a loop, or what a loop has moved off its queue. */
  datatype Spot = InPool(k: nat) | InLoop(l: LoopId, k: nat) | InDrained(l: LoopId, k: nat)

  /** Request r is there. */
  ghost predicate At(s: State, r: ReqId, spot: Spot) {
    match spot
    case InPool(k) => k < |s.wq| && s.wq[k] == Work(r)
    case InLoop(l, k) => l < |s.loops| && k < |s.loops[l].wq| && s.loops[l].wq[k] == r
    case InDrained(l, k) => l < |s.loops| && k < |s.loops[l].drained| && s.loops[l].drained[k] == r
  }

  /** No request is on two queues, of one loop or of two, or twice on one. */
  lemma AtMostOneQueue(t: seq<State>, r: ReqId, a: Spot, b: Spot)
    requires Run(t) && At(t[|t| - 1], r, a) && At(t[|t| - 1], r, b)
    ensures a == b && r < |t[|t| - 1].reqs|
  {
    RunInv(t);
    OnlyItsPlace(t[|t| - 1], r, a);
    OnlyItsPlace(t[|t| - 1], r, b);
  }

  lemma OnlyItsPlace(s: State, r: ReqId, spot: Spot)
    requires Inv(s) && At(s, r, spot)
    ensures r < |s.reqs|
    ensures match spot
            case InPool(k) => s.reqs[r].place == OnPool && Distinct(s.wq)
            case InLoop(l, k) => s.reqs[r].place == OnLoop && s.reqs[r].loop == l && Distinct(s.loops[l].wq)
            case InDrained(l, k) => s.reqs[r].place == OnDrained && s.reqs[r].loop == l && Distinct(s.loops[l].drained)
  {
    match spot
    case InPool(k) => assert Work(r) in s.wq;
    case InLoop(l, k) => assert LoopOk(s, l) && r in s.loops[l].wq;
    case InDrained(l, k) => assert LoopOk(s, l) && r in s.loops[l].drained;
  }

  /**
    A cancel that is granted finds its request on a queue, so that QUEUE_REMOVE does not follow stale
    links; a cancel is refused only when a worker has, or has had, the request.
  */
  lemma CancelFindsIt(t: seq<State>, l: LoopId)
    requires Run(t) && l < |t[|t| - 1].loops| && t[|t| - 1].loops[l].client.Cancelling?
    ensures
      var s, r := t[|t| - 1], t[|t| - 1].loops[l].client.req;
      && r < |s.reqs|
      && if s.reqs[r].linked && s.reqs[r].work != Null then exists spot :: At(s, r, spot)
         else s.reqs[r].place.WithWorker? || s.reqs[r].runs == 1
  {
    RunInv(t);
    var s := t[|t| - 1];
    assert LoopOk(s, l);
    SpotOf(s, s.loops[l].client.req);
  }

  lemma SpotOf(s: State, r: ReqId)
    requires r < |s.reqs| && ReqOk(s, r)
    ensures s.reqs[r].place in {OnPool, OnLoop, OnDrained} ==> exists spot :: At(s, r, spot)
  {
    var l := s.reqs[r].loop;
    match s.reqs[r].place
    case OnPool =>
      var k :| 0 <= k < |s.wq| && s.wq[k] == Work(r);
      assert At(s, r, InPool(k));
    case OnLoop =>
      var k :| 0 <= k < |s.loops[l].wq| && s.loops[l].wq[k] == r;
      assert At(s, r, InLoop(l, k));
    case OnDrained =>
      var k :| 0 <= k < |s.loops[l].drained| && s.loops[l].drained[k] == r;
      assert At(s, r, InDrained(l, k));
    case _ =>
  }

  /** Everything posted before the exit message has left the queue when the first worker exits. */
  lemma ExitComesLast(t: seq<State>, i: nat, r: ReqId)
    requires Run(t) && i < |t[|t| - 1].workers| && t[|t| - 1].workers[i] == Exited
    requires r < |t[|t| - 1].reqs| && t[|t| - 1].reqs[r].early
    ensures Work(r) !in t[|t| - 1].wq
  {
    RunInv(t);
    var s := t[|t| - 1];
    assert WorkerOk(s, i);
    assert s.wq == [ExitMessage] + s.wq[1..] && AfterExit(s.wq) == s.wq[1..];
  }

  // ---- progress ----

  /** A step of a worker that is not asleep, or of whoever holds a lock. */
  predicate Goes(step: Step) {
    !(step.BySpuriousWake? || step.BySubmits? || step.ByClientLocks? || step.ByBeginsCancel? || step.ByBeginsDrain?
      || step.ByDelivers? || step.ByMarks? || step.ByBeginsCleanup? || step.ByCleanupLocks?)
  }

  ghost predicate CanGo(s: State) { exists s', step :: Goes(step) && Takes(s, s', step) }

  ghost function Roused(ws: seq<Worker>): (r: seq<Worker>)
    ensures Signals(ws, r)
  {
    var r := seq(|ws|, k requires 0 <= k < |ws| => if ws[k] == Blocked then Awake else ws[k]);
    assert forall i :: 0 <= i < |ws| && ws[i] == Blocked ==> r[i] == Awake;
    r
  }

  lemma HolderGoes(s: State)
    requires Inv(s) && s.mutex != Free
    ensures CanGo(s)
  {
    match s.mutex
    case HeldByWorker(i) => SectionGoes(s, i);
    case HeldByLoop(l) => ClientGoes(s, l);
    case HeldByCleanup =>
      var s' := s.(cleanup := Posted, mutex := Free, wq := s.wq + [ExitMessage], workers := if s.idle > 0 then Roused(s.workers) else s.workers);
      assert Takes(s, s', ByCleanupPosts) && Goes(ByCleanupPosts);
  }

  lemma SectionGoes(s: State, i: nat)
    requires Inv(s) && s.mutex == HeldByWorker(i)
    ensures CanGo(s)
  {
    assert WorkerOk(s, i);
    if s.wq == [] {
      var s' := s.(idle := IdleInside(s, i) + 1, workers := s.workers[i := Blocked], mutex := Free);
      assert Takes(s, s', ByWorkerSleeps(i)) && Goes(ByWorkerSleeps(i));
    } else if s.wq[0] == ExitMessage {
      var s' := s.(idle := IdleInside(s, i), workers := Roused(s.workers[i := Exited]), mutex := Free);
      assert Takes(s, s', ByWorkerExits(i)) && Goes(ByWorkerExits(i));
    } else {
      var r := s.wq[0].req;
      assert Work(r) in s.wq;
      var s' := s.(idle := IdleInside(s, i), wq := s.wq[1..], workers := s.workers[i := Took(r)], mutex := Free,
                   reqs := s.reqs[r := s.reqs[r].(linked := false, place := WithWorker(i))]);
      assert Takes(s, s', ByWorkerTakes(i)) && Goes(ByWorkerTakes(i));
    }
  }

  lemma ReporterGoes(s: State, i: nat)
    requires Inv(s) && i < |s.workers| && s.workers[i].Reporting?
    ensures CanGo(s)
  {
    assert WorkerOk(s, i);
    var r := s.workers[i].req;
    var l := s.reqs[r].loop;
    var s' := s.WithWorker(i, Outside).WithReq(r, s.reqs[r].(work := Null, linked := true, place := OnLoop))
               .WithLoop(l, s.loops[l].(lock := Free, wq := s.loops[l].wq + [r]));
    assert Takes(s, s', ByWorkerReports(i)) && Goes(ByWorkerReports(i));
  }

  lemma ClientGoes(s: State, l: LoopId)
    requires Inv(s) && l < |s.loops| && s.mutex == HeldByLoop(l)
    ensures CanGo(s)
  {
    assert LoopOk(s, l);
    var c := s.loops[l].client;
    if c.Posting? {
      var r := c.req;
      var ws := if s.idle > 0 then Roused(s.workers) else s.workers;
      var s' := s.(mutex := Free, wq := s.wq + [Work(r)], workers := ws).WithClient(l, Calm)
                 .WithReq(r, s.reqs[r].(linked := true, place := OnPool, early := ExitMessage !in s.wq));
      assert Takes(s, s', ByPosts(l)) && Goes(ByPosts(l));
    } else if c.Cancelling? {
      var r := c.req;
      if s.reqs[r].linked && s.reqs[r].work != Null {
        var s' := Unqueued(s.(mutex := Free).WithLoop(l, s.loops[l].(lock := Free, client := Mark(r))), l, r)
                  .WithReq(r, s.reqs[r].(place := WithCanceller));
        assert Takes(s, s', ByGrantsCancel(l)) && Goes(ByGrantsCancel(l));
      } else {
        var s' := s.(mutex := Free).WithLoop(l, s.loops[l].(lock := Free, client := Calm));
        assert Takes(s, s', ByRefusesCancel(l)) && Goes(ByRefusesCancel(l));
      }
    } else if s.loops[l].lock == Free {
      var s' := s.WithLoop(l, s.loops[l].(lock := HeldByLoop(l), client := Cancelling(c.req)));
      assert Takes(s, s', ByClientLocksLoop(l)) && Goes(ByClientLocksLoop(l));
    } else {
      ReporterGoes(s, s.loops[l].lock.i);
    }
  }

  /** Whoever holds a loop's lock while the global mutex is free can go on. */
  lemma LoopHolderGoes(s: State, l: LoopId)
    requires Inv(s) && l < |s.loops| && s.mutex == Free && s.loops[l].lock != Free
    ensures CanGo(s)
  {
    assert LoopOk(s, l);
    if s.loops[l].lock.HeldByWorker? {
      ReporterGoes(s, s.loops[l].lock.i);
    } else if s.loops[l].client.Returning? {
      var r := s.loops[l].client.req;
      var s' := s.WithReq(r, s.reqs[r].(linked := true, place := OnLoop, cancelOk := true))
                 .WithLoop(l, s.loops[l].(lock := Free, wq := s.loops[l].wq + [r], client := Calm));
      assert Takes(s, s', ByFinishesCancel(l)) && Goes(ByFinishesCancel(l));
    } else {
      var s' := s.(reqs := Drained(s.reqs, s.loops[l].wq)).WithLoop(l, Loop(Free, [], s.loops[l].wq, Calm));
      assert Takes(s, s', ByDrains(l)) && Goes(ByDrains(l));
    }
  }

  lemma WorkerGoes(s: State, i: nat)
    requires Inv(s) && s.mutex == Free && i < |s.workers| && s.workers[i] != Exited && s.workers[i] != Blocked
    ensures CanGo(s)
  {
    assert WorkerOk(s, i);
    match s.workers[i]
    case Took(r) =>
      var s' := s.WithWorker(i, Running(r)).WithReq(r, s.reqs[r].(runs := s.reqs[r].runs + 1));
      assert Takes(s, s', ByCallsWork(i)) && Goes(ByCallsWork(i));
    case Running(r) =>
      assert Takes(s, s.WithWorker(i, Finished(r)), ByWorkReturns(i)) && Goes(ByWorkReturns(i));
    case Finished(r) =>
      assert ReqOk(s, r);
      var l := s.reqs[r].loop;
      if s.loops[l].lock == Free {
        var s' := s.WithWorker(i, Reporting(r)).WithLoop(l, s.loops[l].(lock := HeldByWorker(i)));
        assert Takes(s, s', ByWorkerLocksLoop(i)) && Goes(ByWorkerLocksLoop(i));
      } else {
        LoopHolderGoes(s, l);
      }
    case Reporting(r) => ReporterGoes(s, i);
    case Outside =>
      assert Takes(s, s.(mutex := HeldByWorker(i)).WithWorker(i, Inside), ByWorkerLock(i)) && Goes(ByWorkerLock(i));
    case Awake =>
      assert Takes(s, s.(mutex := HeldByWorker(i)).WithWorker(i, InsideAwake), ByWorkerLock(i)) && Goes(ByWorkerLock(i));
    case _ =>
      assert false;
  }

  lemma {:induction false} SomebodyRouses(ws: seq<Worker>) returns (i: nat)
    requires RousingCount(ws) > 0
    ensures i < |ws| && IsRousing(ws[i])
  {
    if IsRousing(ws[0]) {
      i := 0;
    } else {
      i := SomebodyRouses(ws[1..]);
      i := i + 1;
    }
  }

  /**
    While anything is queued, the exit message included, and a worker is left, somebody can go on without a spurious
    wake-up and without anybody beginning something new.
  */
  lemma NeverStuck(t: seq<State>, i: nat)
    requires Run(t) && i < |t[|t| - 1].workers| && t[|t| - 1].workers[i] != Exited
    requires t[|t| - 1].wq != [] || t[|t| - 1].cleanup == Posted
    ensures CanGo(t[|t| - 1])
  {
    RunInv(t);
    var s := t[|t| - 1];
    if s.mutex != Free {
      HolderGoes(s);
    } else if s.workers[i] != Blocked {
      WorkerGoes(s, i);
    } else {
      assert SomeBlocked(s.workers);
      var k := SomebodyRouses(s.workers);
      WorkerGoes(s, k);
    }
  }
}
