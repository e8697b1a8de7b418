/** What cleanup in 3rd/libuv/src/threadpool.c rests on: once the exit message is posted, its joins come to an end. */
module ThreadPoolShutdown {
  import opened Sequences
  import opened ThreadPool
  import opened ThreadPoolSafety
  import opened ThreadPoolRequests
  import opened ThreadPoolRuns

  /** Steps by which the threads carry on with what they have begun. */
  predicate Continues(step: Step) { Goes(step) || step.ByClientLocks? || step.ByMarks? || step.ByCleanupLocks? }

  /** How many steps the threads can take still, while nothing new is begun. */
  function WorkerWeight(w: Worker): nat {
    match w
    case Took(_) => 9
    case Running(_) => 8
    case Finished(_) => 7
    case Reporting(_) => 6
    case Blocked => 6
    case Outside => 5
    case Awake => 5
    case Inside => 4
    case InsideAwake => 4
    case Exited => 0
  }

  function ClientWeight(c: Client): nat {
    match c
    case Post(_) => 12
    case Posting(_) => 11
    case Cancel(_) => 6
    case CancelHalf(_) => 5
    case Cancelling(_) => 4
    case Mark(_) => 3
    case Return(_) => 2
    case Returning(_) => 1
    case Drain => 2
    case Draining => 1
    case Calm => 0
  }

  function WorkerSum(ws: seq<Worker>): nat {
    if ws == [] then 0 else WorkerWeight(ws[0]) + WorkerSum(ws[1..])
  }

  function ClientSum(ls: seq<Loop>): nat {
    if ls == [] then 0 else ClientWeight(ls[0].client) + ClientSum(ls[1..])
  }

  function Measure(s: State): nat { 10 * |s.wq| + WorkerSum(s.workers) + ClientSum(s.loops) }

  lemma {:induction false} WorkerSumUpdate(ws: seq<Worker>, i: nat, w: Worker)
    requires i < |ws|
    ensures WorkerSum(ws[i := w]) == WorkerSum(ws) + WorkerWeight(w) - WorkerWeight(ws[i])
  {
    if i == 0 {
      assert ws[0 := w][1..] == ws[1..];
    } else {
      assert ws[i := w][1..] == ws[1..][i - 1 := w];
      WorkerSumUpdate(ws[1..], i - 1, w);
    }
  }

  lemma {:induction false} ClientSumUpdate(ls: seq<Loop>, l: LoopId, k: Loop)
    requires l < |ls|
    ensures ClientSum(ls[l := k]) == ClientSum(ls) + ClientWeight(k.client) - ClientWeight(ls[l].client)
  {
    if l == 0 {
      assert ls[0 := k][1..] == ls[1..];
    } else {
      assert ls[l := k][1..] == ls[1..][l - 1 := k];
      ClientSumUpdate(ls[1..], l - 1, k);
    }
  }

  lemma {:induction false} WakesWeight(before: seq<Worker>, after: seq<Worker>)
    requires Wakes(before, after)
    ensures WorkerSum(after) <= WorkerSum(before)
  {
    if before != [] {
      WakesWeight(before[1..], after[1..]);
    }
  }

  /** A step of a worker that touches no loop. */
  lemma WorkerDecreases(s: State, s': State, step: Step)
    requires Inv(s) && s.cleanup == Posted && Takes(s, s', step)
    requires step.ByWorkerLock? || step.ByWorkerSleeps? || step.ByWorkerExits? || step.ByWorkerTakes? || step.ByCallsWork?
             || step.ByWorkReturns?
    ensures s'.cleanup == Posted && Measure(s') < Measure(s)
  {
    var i := step.i;
    if step.ByWorkerExits? {
      WorkerSumUpdate(s.workers, i, Exited);
      WakesWeight(s.workers[i := Exited], s'.workers);
    } else {
      WorkerSumUpdate(s.workers, i, s'.workers[i]);
    }
  }

  lemma ReporterDecreases(s: State, s': State, step: Step)
    requires Inv(s) && s.cleanup == Posted && Takes(s, s', step) && (step.ByWorkerLocksLoop? || step.ByWorkerReports?)
    ensures s'.cleanup == Posted && Measure(s') < Measure(s)
  {
    var i := step.i;
    var l := s.reqs[s.workers[i].req].loop;
    WorkerSumUpdate(s.workers, i, s'.workers[i]);
    ClientSumUpdate(s.loops, l, s'.loops[l]);
  }

  lemma PostsDecreases(s: State, s': State, l: LoopId)
    requires Inv(s) && s.cleanup == Posted && Posts(s, s', l)
    ensures s'.cleanup == Posted && Measure(s') < Measure(s)
  {
    ClientSumUpdate(s.loops, l, s'.loops[l]);
    if s.idle > 0 {
      WakesWeight(s.workers, s'.workers);
    }
  }

  lemma GrantsDecreases(s: State, s': State, l: LoopId)
    requires Inv(s) && s.cleanup == Posted && GrantsCancel(s, s', l)
    ensures s'.cleanup == Posted && Measure(s') < Measure(s)
  {
    WithoutShorter(s.wq, Work(s.loops[l].client.req));
    ClientSumUpdate(s.loops, l, s'.loops[l]);
    assert s'.loops == s.loops[l := s'.loops[l]];
  }

  lemma ClientDecreases(s: State, s': State, step: Step)
    requires Inv(s) && s.cleanup == Posted && Takes(s, s', step)
    requires step.ByClientLocks? || step.ByClientLocksLoop? || step.ByRefusesCancel? || step.ByMarks?
             || step.ByFinishesCancel? || step.ByDrains?
    ensures s'.cleanup == Posted && Measure(s') < Measure(s)
  {
    ClientSumUpdate(s.loops, step.l, s'.loops[step.l]);
  }

  /** With the exit message posted, every such step uses something up. */
  lemma Decreases(s: State, s': State, step: Step)
    requires Inv(s) && s.cleanup == Posted && Continues(step) && Takes(s, s', step)
    ensures s'.cleanup == Posted && Measure(s') < Measure(s)
  {
    if step.ByPosts? {
      PostsDecreases(s, s', step.l);
    } else if step.ByGrantsCancel? {
      GrantsDecreases(s, s', step.l);
    } else if step.ByWorkerLocksLoop? || step.ByWorkerReports? {
      ReporterDecreases(s, s', step);
    } else if step.ByClientLocks? || step.ByClientLocksLoop? || step.ByRefusesCancel? || step.ByMarks?
              || step.ByFinishesCancel? || step.ByDrains? {
      ClientDecreases(s, s', step);
    } else {
      WorkerDecreases(s, s', step);
    }
  }

  ghost predicate Continued(s: State, s': State) { exists step :: Continues(step) && Takes(s, s', step) }

  lemma ContinuedDecreases(s: State, s': State)
    requires Inv(s) && s.cleanup == Posted && Continued(s, s')
    ensures s'.cleanup == Posted && Measure(s') < Measure(s)
  {
    var step :| Continues(step) && Takes(s, s', step);
    Decreases(s, s', step);
  }

  lemma InvAt(t: seq<State>, k: nat)
    requires Run(t) && k < |t|
    ensures Inv(t[k])
  {
    assert Run(t[..k + 1]);
    RunInv(t[..k + 1]);
  }

  /** Between these two states the threads carry on. */
  ghost predicate CarriesOn(t: seq<State>, k: nat)
    requires k + 1 < |t|
  {
    Continued(t[k], t[k + 1])
  }

  ghost predicate Falls(t: seq<State>, k: nat)
    requires k + 1 < |t|
  {
    t[k].cleanup == Posted ==> t[k + 1].cleanup == Posted && Measure(t[k + 1]) < Measure(t[k])
  }

  lemma CarryingFalls(t: seq<State>, k: nat)
    requires Run(t) && k + 1 < |t| && CarriesOn(t, k)
    ensures Falls(t, k)
  {
    if t[k].cleanup == Posted {
      InvAt(t, k);
      ContinuedDecreases(t[k], t[k + 1]);
    }
  }

  lemma StepsLeft(t: seq<State>, n: nat)
    requires n < |t| && t[n].cleanup == Posted && forall k :: n <= k && k + 1 < |t| ==> Falls(t, k)
    ensures t[|t| - 1].cleanup == Posted && |t| - 1 - n + Measure(t[|t| - 1]) <= Measure(t[n])
  {
    for j := n to |t| - 1
      invariant t[j].cleanup == Posted && j - n + Measure(t[j]) <= Measure(t[n])
    {
      assert Falls(t, j);
    }
  }

  /** The threads cannot carry on for ever: the number of steps left is bounded. */
  lemma ComesToAnEnd(t: seq<State>, n: nat)
    requires Run(t) && n < |t| && t[n].cleanup == Posted
    requires forall k :: n <= k && k + 1 < |t| ==> CarriesOn(t, k)
    ensures t[|t| - 1].cleanup == Posted && |t| - 1 - n + Measure(t[|t| - 1]) <= Measure(t[n])
  {
    forall k | n <= k && k + 1 < |t| ensures Falls(t, k) {
      CarryingFalls(t, k);
    }
    StepsLeft(t, n);
  }

  /** Nobody can carry on. */
  ghost predicate Rests(s: State) { forall s', step :: Continues(step) ==> !Takes(s, s', step) }

  lemma RestsNobodyGoes(s: State)
    requires Rests(s)
    ensures !CanGo(s)
  {
    assert forall step :: Goes(step) ==> Continues(step);
  }

  lemma AllCalm(s: State, l: LoopId)
    requires Inv(s) && Rests(s) && s.mutex == Free && l < |s.loops|
    ensures s.loops[l].client == Calm && s.loops[l].lock == Free
  {
    RestsNobodyGoes(s);
    if s.loops[l].lock != Free {
      LoopHolderGoes(s, l);
    }
    assert LoopOk(s, l);
    var c := s.loops[l].client;
    match c {
      case Mark(r) =>
        assert Takes(s, s.WithReq(r, s.reqs[r].(work := Cancelled)).WithClient(l, Return(r)), ByMarks(l));
        assert Continues(ByMarks(l));
      case Post(r) =>
        assert Takes(s, s.(mutex := HeldByLoop(l)).WithClient(l, Posting(r)), ByClientLocks(l)) && Continues(ByClientLocks(l));
      case Cancel(r) =>
        assert Takes(s, s.(mutex := HeldByLoop(l)).WithClient(l, CancelHalf(r)), ByClientLocks(l)) && Continues(ByClientLocks(l));
      case Return(r) =>
        assert Takes(s, s.WithLoop(l, s.loops[l].(lock := HeldByLoop(l), client := Returning(r))), ByClientLocksLoop(l));
        assert Continues(ByClientLocksLoop(l));
      case Drain =>
        assert Takes(s, s.WithLoop(l, s.loops[l].(lock := HeldByLoop(l), client := Draining)), ByClientLocksLoop(l));
        assert Continues(ByClientLocksLoop(l));
      case _ =>
    }
  }

  /**
    And where they end, cleanup's joins return: every worker has exited, no lock is held, and every request posted before
    the exit message has either run once or been cancelled, and is back with its loop.
  */
  lemma EndsInExit(t: seq<State>)
    requires Run(t) && t[|t| - 1].cleanup == Posted && Rests(t[|t| - 1]) && t[|t| - 1].workers != []
    ensures var s := t[|t| - 1];
            && s.mutex == Free
            && (forall i :: 0 <= i < |s.workers| ==> s.workers[i] == Exited)
            && (forall l :: 0 <= l < |s.loops| ==> s.loops[l].client == Calm && s.loops[l].lock == Free)
            && forall r :: 0 <= r < |s.reqs| && s.reqs[r].early ==>
                 Settled(s.reqs[r]) && s.reqs[r].place in {OnLoop, OnDrained, Delivered}
  {
    var s := t[|t| - 1];
    RunInv(t);
    RestsNobodyGoes(s);
    if s.mutex != Free {
      HolderGoes(s);
    }
    forall i | 0 <= i < |s.workers| ensures s.workers[i] == Exited {
      if s.workers[i] != Exited {
        NeverStuck(t, i);
      }
    }
    forall l | 0 <= l < |s.loops| ensures s.loops[l].client == Calm && s.loops[l].lock == Free {
      AllCalm(s, l);
    }
    forall r | 0 <= r < |s.reqs| && s.reqs[r].early
      ensures Settled(s.reqs[r]) && s.reqs[r].place in {OnLoop, OnDrained, Delivered}
    {
      assert ReqOk(s, r);
      assert s.workers[0] == Exited;
      ExitComesLast(t, 0, r);
    }
  }
}
