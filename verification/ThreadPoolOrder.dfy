/** The queues of the thread pool are first in, first out. */
module ThreadPoolOrder {
  import opened Sequences
  import opened ThreadPool
  import opened ThreadPoolRequests
  import opened ThreadPoolRuns
  import opened ThreadPoolAnswers

  // ---- the global queue ----

  /** The request has been on the global queue, and is not any more. */
  predicate Left(s: State, r: ReqId) { r < |s.reqs| && s.reqs[r].place != WithPoster && s.reqs[r].place != OnPool }

  /** Request a has left the queue, or b is not on it or behind a. */
  ghost predicate InTurn(s: State, a: ReqId, b: ReqId) {
    Left(s, a) || (Work(a) in s.wq && Behind(s.wq, Work(a), Work(b)))
  }

  lemma StaysLeft(s: State, s': State, step: Step, a: ReqId)
    requires Inv(s) && Takes(s, s', step) && Left(s, a)
    ensures Left(s', a)
  {
    if step.ByPosts? {
      assert LoopOk(s, step.l);
    }
  }

  lemma QueueStep(s: State, s': State, step: Step, a: ReqId, b: ReqId)
    requires Inv(s) && Takes(s, s', step) && Work(a) in s.wq && Behind(s.wq, Work(a), Work(b))
    ensures InTurn(s', a, b)
  {
    match step {
      case ByWorkerTakes(_) =>
        if s.wq[0] != Work(a) {
          BehindTail(s.wq, Work(a), Work(b));
        }
      case ByPosts(l) => BehindAppend(s.wq, Work(s.loops[l].client.req), Work(a), Work(b));
      case ByCleanupPosts => BehindAppend(s.wq, ExitMessage, Work(a), Work(b));
      case ByGrantsCancel(l) =>
        if s.loops[l].client.req != a {
          BehindWithout(s.wq, Work(s.loops[l].client.req), Work(a), Work(b));
        }
      case _ =>
    }
  }

  /**
    First come, first served: if a was queued when b was not yet, then a has left the queue, to a worker or by a cancel,
    when b is at its head.
  */
  lemma FirstComeFirstServed(t: seq<State>, steps: seq<Step>, k: nat, n: nat, a: ReqId, b: ReqId)
    requires Course(t, steps) && k <= n < |t| && Work(a) in t[k].wq && Work(b) !in t[k].wq
    requires t[n].wq != [] && t[n].wq[0] == Work(b)
    ensures Work(a) !in t[n].wq
  {
    for m := k to n
      invariant InTurn(t[m], a, b)
    {
      assert TakesAt(t, steps, m);
      CourseInv(t, steps, m);
      if Left(t[m], a) {
        StaysLeft(t[m], t[m + 1], steps[m], a);
      } else {
        QueueStep(t[m], t[m + 1], steps[m], a, b);
      }
    }
    CourseInv(t, steps, n);
    if !Left(t[n], a) {
      BehindHead(t[n].wq, Work(a), Work(b));
    }
  }

  // ---- the finished requests of a loop ----

  /** In this order the done callbacks will come. */
  function Line(s: State, l: LoopId): seq<ReqId>
    requires l < |s.loops|
  {
    s.loops[l].drained + s.loops[l].wq
  }

  predicate MovesLine(step: Step) {
    step.ByWorkerReports? || step.ByFinishesCancel? || step.ByDelivers? || step.ByGrantsCancel?
  }

  lemma LineStays(s: State, s': State, step: Step, l: LoopId)
    requires Inv(s) && Takes(s, s', step) && l < |s.loops| && !MovesLine(step)
    ensures l < |s'.loops| && Line(s', l) == Line(s, l)
  {
    assert LoopOk(s, l);
  }

  /** The line of a loop only changes at its ends, and by cancels. */
  lemma LineChange(s: State, s': State, step: Step, l: LoopId)
    requires Inv(s) && Takes(s, s', step) && l < |s.loops|
    ensures l < |s'.loops|
    ensures Line(s', l) ==
            match step
            case ByWorkerReports(i) => if s.reqs[s.workers[i].req].loop == l then Line(s, l) + [s.workers[i].req] else Line(s, l)
            case ByFinishesCancel(k) => if k == l then Line(s, l) + [s.loops[l].client.req] else Line(s, l)
            case ByDelivers(k) => if k == l then Line(s, l)[1..] else Line(s, l)
            case ByGrantsCancel(k) => if k == l then Without(Line(s, l), s.loops[l].client.req) else Line(s, l)
            case _ => Line(s, l)
  {
    if !MovesLine(step) {
      LineStays(s, s', step, l);
    } else if step == ByGrantsCancel(l) {
      assert LoopOk(s, l);
      WithoutAppend(s.loops[l].drained, s.loops[l].wq, s.loops[l].client.req);
    }
  }

  /** The step gives request a to its done callback, or takes it back by a cancel. */
  predicate Removes(s: State, step: Step, l: LoopId, a: ReqId) {
    match step
    case ByDelivers(k) => k == l < |s.loops| && s.loops[l].drained != [] && s.loops[l].drained[0] == a
    case ByGrantsCancel(k) => k == l < |s.loops| && s.loops[l].client == Cancelling(a)
    case _ => false
  }

  lemma LineStep(s: State, s': State, step: Step, l: LoopId, a: ReqId, b: ReqId)
    requires Inv(s) && Takes(s, s', step) && l < |s.loops| && a in Line(s, l) && Behind(Line(s, l), a, b)
    requires !Removes(s, step, l, a)
    ensures l < |s'.loops| && a in Line(s', l) && Behind(Line(s', l), a, b)
    ensures !Removes(s, step, l, b) || step.ByGrantsCancel?
  {
    LineChange(s, s', step, l);
    match step {
      case ByWorkerReports(i) => BehindAppend(Line(s, l), s.workers[i].req, a, b);
      case ByFinishesCancel(k) =>
        if k == l {
          BehindAppend(Line(s, l), s.loops[l].client.req, a, b);
        }
      case ByDelivers(k) =>
        if k == l {
          BehindTail(Line(s, l), a, b);
        }
      case ByGrantsCancel(k) =>
        if k == l {
          BehindWithout(Line(s, l), s.loops[l].client.req, a, b);
        }
      case _ =>
    }
  }

  /** Done callbacks come in the order in which the requests have been finished: while a waits, b behind it waits, too. */
  lemma DoneInOrder(t: seq<State>, steps: seq<Step>, k: nat, n: nat, l: LoopId, a: ReqId, b: ReqId)
    requires Course(t, steps) && k <= n <= |steps| && l < |t[k].loops| && a in Line(t[k], l) && Behind(Line(t[k], l), a, b)
    requires forall m :: k <= m < n ==> !RemovesAt(t, steps, m, l, a)
    ensures forall m :: k <= m < n ==> !DeliversAt(t, steps, m, l, b)
    ensures l < |t[n].loops| && a in Line(t[n], l) && Behind(Line(t[n], l), a, b)
  {
    for m := k to n
      invariant l < |t[m].loops| && a in Line(t[m], l) && Behind(Line(t[m], l), a, b)
      invariant forall j :: k <= j < m ==> !DeliversAt(t, steps, j, l, b)
    {
      assert TakesAt(t, steps, m);
      CourseInv(t, steps, m);
      assert !RemovesAt(t, steps, m, l, a);
      LineStep(t[m], t[m + 1], steps[m], l, a, b);
    }
  }

  predicate RemovesAt(t: seq<State>, steps: seq<Step>, m: nat, l: LoopId, a: ReqId)
    requires m < |steps| < |t|
  {
    Removes(t[m], steps[m], l, a)
  }

  predicate DeliversAt(t: seq<State>, steps: seq<Step>, m: nat, l: LoopId, b: ReqId)
    requires m < |steps| < |t|
  {
    steps[m] == ByDelivers(l) && Removes(t[m], steps[m], l, b)
  }
}
