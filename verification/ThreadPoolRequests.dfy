/** What every reachable state of the thread pool says about locks and requests. */
module ThreadPoolRequests {
  import opened Sequences
  import opened ThreadPool

  predicate HasReq(w: Worker) { w.Took? || w.Running? || w.Finished? || w.Reporting? }

  predicate HasPost(c: Client) { c.Post? || c.Posting? }

  predicate HasCancel(c: Client) { c.Cancel? || c.CancelHalf? || c.Cancelling? }

  predicate HasReturn(c: Client) { c.Mark? || c.Return? || c.Returning? }

  /** The work function has run once, or it never will. */
  ghost predicate Settled(q: Req) {
    q.linked && if q.cancelOk then q.work == Cancelled && q.runs == 0 else q.work == Null && q.runs == 1
  }

  /** What has happened to a request, as far as its place tells. */
  ghost predicate History(q: Req) {
    match q.place
    case WithPoster => q.work == Function && q.runs == 0 && q.done == [] && !q.cancelOk
    case OnPool => q.work == Function && q.linked && q.runs == 0 && q.done == [] && !q.cancelOk
    case WithWorker(_) => q.work == Function && !q.linked && q.runs <= 1 && q.done == [] && !q.cancelOk
    case WithCanceller => q.work != Null && q.runs == 0 && q.done == [] && (q.cancelOk ==> q.work == Cancelled)
    case OnLoop => Settled(q) && q.done == []
    case OnDrained => Settled(q) && q.done == []
    case Delivered => Settled(q) && q.done == [q.cancelOk]
  }

  /** A request is where its place says. */
  ghost predicate ReqOk(s: State, r: ReqId)
    requires r < |s.reqs|
  {
    var q := s.reqs[r];
    && History(q) && q.loop < |s.loops|
    && match q.place
       case WithPoster => HasPost(s.loops[q.loop].client) && s.loops[q.loop].client.req == r
       case OnPool => Work(r) in s.wq
       case WithWorker(i) => i < |s.workers| && HasReq(s.workers[i]) && s.workers[i].req == r
       case WithCanceller => HasReturn(s.loops[q.loop].client) && s.loops[q.loop].client.req == r
       case OnLoop => r in s.loops[q.loop].wq
       case OnDrained => r in s.loops[q.loop].drained
       case Delivered => true
  }

  ghost predicate WorkerOk(s: State, i: nat)
    requires i < |s.workers|
  {
    var w := s.workers[i];
    && (InMutex(w) <==> s.mutex == HeldByWorker(i))
    && (w == Exited ==> s.wq != [] && s.wq[0] == ExitMessage)
    && (HasReq(w) ==> w.req < |s.reqs| && s.reqs[w.req].place == WithWorker(i) && s.reqs[w.req].runs == if w.Took? then 0 else 1)
    && (w.Reporting? ==> s.reqs[w.req].loop < |s.loops| && s.loops[s.reqs[w.req].loop].lock == HeldByWorker(i))
  }

  ghost predicate QueuedAt(s: State, l: LoopId, q: seq<ReqId>, place: Place) {
    Distinct(q) && forall r :: r in q ==> r < |s.reqs| && s.reqs[r].loop == l && s.reqs[r].place == place
  }

  ghost predicate ClientOk(s: State, l: LoopId)
    requires l < |s.loops|
  {
    var c := s.loops[l].client;
    && (HasPost(c) ==> c.req < |s.reqs| && s.reqs[c.req].loop == l && s.reqs[c.req].place == WithPoster)
    && (HasReturn(c) ==> c.req < |s.reqs| && s.reqs[c.req].loop == l && s.reqs[c.req].place == WithCanceller)
    && (HasReturn(c) && !c.Mark? ==> s.reqs[c.req].work == Cancelled)
    && (c == Drain || c == Draining ==> s.loops[l].drained == [])
    && (HasCancel(c) ==> c.req < |s.reqs| && s.reqs[c.req].loop == l)
    && (HasCancel(c) ==> !s.reqs[c.req].place.WithPoster? && !s.reqs[c.req].place.WithCanceller? && !s.reqs[c.req].place.Delivered?)
  }

  ghost predicate LoopOk(s: State, l: LoopId)
    requires l < |s.loops|
  {
    var k := s.loops[l];
    && ClientOk(s, l) && QueuedAt(s, l, k.wq, OnLoop) && QueuedAt(s, l, k.drained, OnDrained)
    && (ClientInMutex(k.client) <==> s.mutex == HeldByLoop(l))
    && (ClientInLoop(k.client) <==> k.lock == HeldByLoop(l))
    && match k.lock
       case Free => true
       case HeldByLoop(h) => h == l
       case HeldByWorker(i) =>
         i < |s.workers| && s.workers[i].Reporting? && s.workers[i].req < |s.reqs| && s.reqs[s.workers[i].req].loop == l
       case HeldByCleanup => false
  }

  /** What is queued behind the exit message. */
  function AfterExit(q: seq<Entry>): seq<Entry> {
    if q == [] then [] else if q[0] == ExitMessage then q[1..] else AfterExit(q[1..])
  }

  /** The global queue: every entry once, the exit message after all requests posted before it. */
  ghost predicate PoolOk(s: State) {
    && Distinct(s.wq)
    && (forall r: nat :: Work(r) in s.wq ==> r < |s.reqs| && s.reqs[r].place == OnPool)
    && (s.cleanup == Posted <==> ExitMessage in s.wq)
    && (s.cleanup == InPost <==> s.mutex == HeldByCleanup)
    && (s.mutex.HeldByWorker? ==> s.mutex.i < |s.workers|)
    && (s.mutex.HeldByLoop? ==> s.mutex.l < |s.loops|)
    && (forall r: nat :: Work(r) in AfterExit(s.wq) && r < |s.reqs| ==> !s.reqs[r].early)
  }

  ghost predicate Inv(s: State) {
    && PoolOk(s)
    && (forall r: nat :: r < |s.reqs| ==> ReqOk(s, r))
    && (forall i: nat :: i < |s.workers| ==> WorkerOk(s, i))
    && (forall l: nat :: l < |s.loops| ==> LoopOk(s, l))
  }

  // ---- removal from a queue ----

  lemma TailMembers<T>(q: seq<T>)
    requires q != [] && Distinct(q)
    ensures Distinct(q[1..]) && forall y :: y in q[1..] <==> y in q && y != q[0]
  {
    assert q == [q[0]] + q[1..];
  }

  lemma AppendMembers<T>(q: seq<T>, x: T)
    requires Distinct(q) && x !in q
    ensures Distinct(q + [x]) && forall y :: y in q + [x] <==> y in q || y == x
  {
  }

  lemma {:induction false} AfterExitAppend(q: seq<Entry>, e: Entry)
    ensures AfterExit(q + [e]) == if ExitMessage in q then AfterExit(q) + [e] else []
  {
    if q == [] {
      assert [e][1..] == [];
    } else if q[0] == ExitMessage {
      assert (q + [e])[1..] == q[1..] + [e];
    } else {
      assert (q + [e])[1..] == q[1..] + [e];
      assert ExitMessage in q <==> ExitMessage in q[1..];
      AfterExitAppend(q[1..], e);
    }
  }

  lemma {:induction false} AfterExitWithout(q: seq<Entry>, e: Entry)
    requires Distinct(q) && e != ExitMessage
    ensures forall x :: x in AfterExit(Without(q, e)) ==> x in AfterExit(q)
  {
    if q == [] || q[0] == e {
    } else if q[0] == ExitMessage {
      assert ([q[0]] + Without(q[1..], e))[1..] == Without(q[1..], e);
      WithoutMembers(q[1..], e);
    } else {
      assert ([q[0]] + Without(q[1..], e))[1..] == Without(q[1..], e);
      AfterExitWithout(q[1..], e);
    }
  }

  // ---- each step keeps it ----

  /** A worker moves, and others may wake; what is queued and who has which request stays. */
  ghost predicate OnlyWorker(s: State, s': State, i: nat) {
    && i < |s.workers| == |s'.workers| && s' == s.(mutex := s'.mutex, idle := s'.idle, workers := s'.workers)
    && (forall k :: 0 <= k < |s.workers| && k != i ==>
          s'.workers[k] == s.workers[k] || (s.workers[k] == Blocked && s'.workers[k] == Awake))
    && (HasReq(s.workers[i]) || HasReq(s'.workers[i]) ==>
          HasReq(s.workers[i]) && HasReq(s'.workers[i]) && s'.workers[i].req == s.workers[i].req)
    && !s.workers[i].Reporting?
    && (s'.mutex == s.mutex || {s.mutex, s'.mutex} == {Free, HeldByWorker(i)})
  }

  lemma OnlyWorkerKept(s: State, s': State, i: nat)
    requires Inv(s) && OnlyWorker(s, s', i) && WorkerOk(s', i)
    ensures Inv(s')
  {
    forall k: nat | k < |s'.reqs| ensures ReqOk(s', k) {
      assert ReqOk(s, k);
    }
    forall k: nat | k < |s'.workers| ensures WorkerOk(s', k) {
      assert WorkerOk(s, k);
    }
    forall k: nat | k < |s'.loops| ensures LoopOk(s', k) {
      assert LoopOk(s, k);
    }
  }

  lemma WorkerLockKept(s: State, s': State, i: nat)
    requires Inv(s) && WorkerLock(s, s', i)
    ensures Inv(s')
  {
    assert WorkerOk(s, i);
    OnlyWorkerKept(s, s', i);
  }

  lemma WorkerSleepsKept(s: State, s': State, i: nat)
    requires Inv(s) && WorkerSleeps(s, s', i)
    ensures Inv(s')
  {
    assert WorkerOk(s, i);
    OnlyWorkerKept(s, s', i);
  }

  lemma WorkerExitsKept(s: State, s': State, i: nat)
    requires Inv(s) && WorkerExits(s, s', i)
    ensures Inv(s')
  {
    assert WorkerOk(s, i);
    OnlyWorkerKept(s, s', i);
  }

  lemma SpuriousWakeKept(s: State, s': State, i: nat)
    requires Inv(s) && SpuriousWake(s, s', i)
    ensures Inv(s')
  {
    assert WorkerOk(s, i);
    OnlyWorkerKept(s, s', i);
  }

  lemma WorkReturnsKept(s: State, s': State, i: nat)
    requires Inv(s) && WorkReturns(s, s', i)
    ensures Inv(s')
  {
    assert WorkerOk(s, i);
    OnlyWorkerKept(s, s', i);
  }

  /** The thread of a loop moves; what is queued and who has which request stays. */
  ghost predicate OnlyClient(s: State, s': State, l: LoopId) {
    && l < |s.loops| == |s'.loops| && s' == s.(mutex := s'.mutex, loops := s.loops[l := s'.loops[l]])
    && s'.loops[l].wq == s.loops[l].wq && s'.loops[l].drained == s.loops[l].drained
    && (HasPost(s.loops[l].client) ==> HasPost(s'.loops[l].client) && s'.loops[l].client.req == s.loops[l].client.req)
    && (HasReturn(s.loops[l].client) ==> HasReturn(s'.loops[l].client) && s'.loops[l].client.req == s.loops[l].client.req)
    && (s'.mutex == s.mutex || {s.mutex, s'.mutex} == {Free, HeldByLoop(l)})
    && (s'.loops[l].lock == s.loops[l].lock || {s.loops[l].lock, s'.loops[l].lock} == {Free, HeldByLoop(l)})
  }

  lemma OnlyClientKept(s: State, s': State, l: LoopId)
    requires Inv(s) && OnlyClient(s, s', l) && LoopOk(s', l)
    ensures Inv(s')
  {
    assert LoopOk(s, l);
    forall k: nat | k < |s'.reqs| ensures ReqOk(s', k) {
      assert ReqOk(s, k);
    }
    forall k: nat | k < |s'.workers| ensures WorkerOk(s', k) {
      assert WorkerOk(s, k);
    }
    forall k: nat | k < |s'.loops| ensures LoopOk(s', k) {
      assert LoopOk(s, k);
    }
  }

  lemma ClientLocksKept(s: State, s': State, l: LoopId)
    requires Inv(s) && ClientLocks(s, s', l)
    ensures Inv(s')
  {
    assert LoopOk(s, l);
    OnlyClientKept(s, s', l);
  }

  lemma BeginsCancelKept(s: State, s': State, l: LoopId, r: ReqId)
    requires Inv(s) && BeginsCancel(s, s', l, r)
    ensures Inv(s')
  {
    assert LoopOk(s, l);
    assert ReqOk(s, r);
    OnlyClientKept(s, s', l);
  }

  lemma ClientLocksLoopKept(s: State, s': State, l: LoopId)
    requires Inv(s) && ClientLocksLoop(s, s', l)
    ensures Inv(s')
  {
    assert LoopOk(s, l);
    OnlyClientKept(s, s', l);
  }

  lemma RefusesCancelKept(s: State, s': State, l: LoopId)
    requires Inv(s) && RefusesCancel(s, s', l)
    ensures Inv(s')
  {
    assert LoopOk(s, l);
    OnlyClientKept(s, s', l);
  }

  lemma BeginsDrainKept(s: State, s': State, l: LoopId)
    requires Inv(s) && BeginsDrain(s, s', l)
    ensures Inv(s')
  {
    assert LoopOk(s, l);
    OnlyClientKept(s, s', l);
  }

  /** Cleanup moves. */
  lemma OnlyCleanupKept(s: State, s': State)
    requires Inv(s) && PoolOk(s') && s' == s.(mutex := s'.mutex, cleanup := s'.cleanup)
    requires s'.mutex == s.mutex || {s.mutex, s'.mutex} == {Free, HeldByCleanup}
    ensures Inv(s')
  {
    forall k: nat | k < |s'.reqs| ensures ReqOk(s', k) {
      assert ReqOk(s, k);
    }
    forall k: nat | k < |s'.workers| ensures WorkerOk(s', k) {
      assert WorkerOk(s, k);
    }
    forall k: nat | k < |s'.loops| ensures LoopOk(s', k) {
      assert LoopOk(s, k);
    }
  }

  lemma BeginsCleanupKept(s: State, s': State)
    requires Inv(s) && BeginsCleanup(s, s')
    ensures Inv(s')
  {
    OnlyCleanupKept(s, s');
  }

  lemma CleanupLocksKept(s: State, s': State)
    requires Inv(s) && CleanupLocks(s, s')
    ensures Inv(s')
  {
    OnlyCleanupKept(s, s');
  }

  lemma WorkerReportsReqs(s: State, s': State, i: nat)
    requires Inv(s) && WorkerReports(s, s', i)
    ensures forall k: nat :: k < |s'.reqs| ==> ReqOk(s', k)
  {
    var r := s.workers[i].req;
    assert WorkerOk(s, i) && ReqOk(s, r) && LoopOk(s, s.reqs[r].loop);
    AppendMembers(s.loops[s.reqs[r].loop].wq, r);
    forall k: nat | k < |s'.reqs| ensures ReqOk(s', k) {
      assert ReqOk(s, k);
    }
  }

  lemma WorkerReportsLoops(s: State, s': State, i: nat)
    requires Inv(s) && WorkerReports(s, s', i)
    ensures forall k: nat :: k < |s'.loops| ==> LoopOk(s', k)
  {
    var r := s.workers[i].req;
    assert WorkerOk(s, i) && ReqOk(s, r) && LoopOk(s, s.reqs[r].loop);
    AppendMembers(s.loops[s.reqs[r].loop].wq, r);
    forall k: nat | k < |s'.loops| ensures LoopOk(s', k) {
      assert LoopOk(s, k);
    }
  }

  lemma WorkerReportsKept(s: State, s': State, i: nat)
    requires Inv(s) && WorkerReports(s, s', i)
    ensures Inv(s')
  {
    assert WorkerOk(s, i);
    WorkerReportsReqs(s, s', i);
    WorkerReportsLoops(s, s', i);
    forall k: nat | k < |s'.workers| ensures WorkerOk(s', k) {
      assert WorkerOk(s, k);
    }
  }

  lemma DeliversReqs(s: State, s': State, l: LoopId)
    requires Inv(s) && Delivers(s, s', l)
    ensures forall k: nat :: k < |s'.reqs| ==> ReqOk(s', k)
  {
    assert LoopOk(s, l);
    TailMembers(s.loops[l].drained);
    forall k: nat | k < |s'.reqs| ensures ReqOk(s', k) {
      assert ReqOk(s, k);
    }
  }

  lemma DeliversKept(s: State, s': State, l: LoopId)
    requires Inv(s) && Delivers(s, s', l)
    ensures Inv(s')
  {
    assert LoopOk(s, l);
    assert ReqOk(s, s.loops[l].drained[0]);
    TailMembers(s.loops[l].drained);
    DeliversReqs(s, s', l);
    forall k: nat | k < |s'.workers| ensures WorkerOk(s', k) {
      assert WorkerOk(s, k);
    }
    forall k: nat | k < |s'.loops| ensures LoopOk(s', k) {
      assert LoopOk(s, k);
    }
  }

  lemma WorkerTakesKept(s: State, s': State, i: nat)
    requires Inv(s) && WorkerTakes(s, s', i)
    ensures Inv(s')
  {
    assert WorkerOk(s, i);
    assert ReqOk(s, s.wq[0].req);
    TailMembers(s.wq);
    forall k: nat | k < |s'.reqs| ensures ReqOk(s', k) {
      assert k < |s.reqs| ==> ReqOk(s, k);
    }
    forall k: nat | k < |s'.workers| ensures WorkerOk(s', k) {
      assert WorkerOk(s, k);
    }
    forall k: nat | k < |s'.loops| ensures LoopOk(s', k) {
      assert LoopOk(s, k);
    }
  }

  lemma CallsWorkKept(s: State, s': State, i: nat)
    requires Inv(s) && CallsWork(s, s', i)
    ensures Inv(s')
  {
    assert WorkerOk(s, i);
    assert ReqOk(s, s.workers[i].req);
    forall k: nat | k < |s'.reqs| ensures ReqOk(s', k) {
      assert k < |s.reqs| ==> ReqOk(s, k);
    }
    forall k: nat | k < |s'.workers| ensures WorkerOk(s', k) {
      assert WorkerOk(s, k);
    }
    forall k: nat | k < |s'.loops| ensures LoopOk(s', k) {
      assert LoopOk(s, k);
    }
  }

  lemma WorkerLocksLoopKept(s: State, s': State, i: nat)
    requires Inv(s) && WorkerLocksLoop(s, s', i)
    ensures Inv(s')
  {
    assert WorkerOk(s, i);
    assert ReqOk(s, s.workers[i].req);
    assert LoopOk(s, s.reqs[s.workers[i].req].loop);
    forall k: nat | k < |s'.reqs| ensures ReqOk(s', k) {
      assert k < |s.reqs| ==> ReqOk(s, k);
    }
    forall k: nat | k < |s'.workers| ensures WorkerOk(s', k) {
      assert WorkerOk(s, k);
    }
    forall k: nat | k < |s'.loops| ensures LoopOk(s', k) {
      assert LoopOk(s, k);
    }
  }

  lemma SubmitsKept(s: State, s': State, l: LoopId, r: ReqId, garbage: bool)
    requires Inv(s) && Submits(s, s', l, r, garbage)
    ensures Inv(s')
  {
    assert LoopOk(s, l);
    forall k: nat | k < |s'.reqs| ensures ReqOk(s', k) {
      assert k < |s.reqs| ==> ReqOk(s, k);
    }
    forall k: nat | k < |s'.workers| ensures WorkerOk(s', k) {
      assert WorkerOk(s, k);
    }
    forall k: nat | k < |s'.loops| ensures LoopOk(s', k) {
      assert LoopOk(s, k);
    }
  }

  lemma PostsKept(s: State, s': State, l: LoopId)
    requires Inv(s) && Posts(s, s', l)
    ensures Inv(s')
  {
    assert LoopOk(s, l);
    PostsQueue(s, s', l);
    forall k: nat | k < |s'.workers| ensures WorkerOk(s', k) {
      assert WorkerOk(s, k);
    }
    forall k: nat | k < |s'.loops| ensures LoopOk(s', k) {
      assert LoopOk(s, k);
    }
  }

  lemma PostsQueue(s: State, s': State, l: LoopId)
    requires Inv(s) && Posts(s, s', l)
    ensures PoolOk(s') && forall r: nat :: r < |s'.reqs| ==> ReqOk(s', r)
  {
    assert LoopOk(s, l);
    AfterExitAppend(s.wq, Work(s.loops[l].client.req));
    assert ReqOk(s, s.loops[l].client.req);
    AppendMembers(s.wq, Work(s.loops[l].client.req));
    forall k: nat | k < |s'.reqs| ensures ReqOk(s', k) {
      assert ReqOk(s, k);
    }
  }

  lemma GrantsCancelReqs(s: State, s': State, l: LoopId)
    requires Inv(s) && GrantsCancel(s, s', l)
    ensures forall k: nat :: k < |s'.reqs| ==> ReqOk(s', k)
  {
    assert LoopOk(s, l);
    var r := s.loops[l].client.req;
    WithoutMembers(s.wq, Work(r));
    WithoutMembers(s.loops[l].wq, r);
    WithoutMembers(s.loops[l].drained, r);
    assert ReqOk(s, r);
    forall k: nat | k < |s'.reqs| ensures ReqOk(s', k) {
      assert ReqOk(s, k);
    }
  }

  lemma GrantsCancelLoops(s: State, s': State, l: LoopId)
    requires Inv(s) && GrantsCancel(s, s', l)
    ensures forall k: nat :: k < |s'.loops| ==> LoopOk(s', k)
  {
    assert LoopOk(s, l);
    var r := s.loops[l].client.req;
    WithoutMembers(s.loops[l].wq, r);
    WithoutMembers(s.loops[l].drained, r);
    assert ReqOk(s, r);
    forall k: nat | k < |s'.loops| ensures LoopOk(s', k) {
      assert LoopOk(s, k);
    }
  }

  lemma GrantsCancelKept(s: State, s': State, l: LoopId)
    requires Inv(s) && GrantsCancel(s, s', l)
    ensures Inv(s')
  {
    assert LoopOk(s, l);
    var r := s.loops[l].client.req;
    WithoutMembers(s.wq, Work(r));
    AfterExitWithout(s.wq, Work(r));
    assert ReqOk(s, r);
    GrantsCancelReqs(s, s', l);
    GrantsCancelLoops(s, s', l);
    forall k: nat | k < |s'.workers| ensures WorkerOk(s', k) {
      assert WorkerOk(s, k);
    }
  }

  lemma MarksKept(s: State, s': State, l: LoopId)
    requires Inv(s) && Marks(s, s', l)
    ensures Inv(s')
  {
    assert LoopOk(s, l);
    assert ReqOk(s, s.loops[l].client.req);
    forall k: nat | k < |s'.reqs| ensures ReqOk(s', k) {
      assert k < |s.reqs| ==> ReqOk(s, k);
    }
    forall k: nat | k < |s'.workers| ensures WorkerOk(s', k) {
      assert WorkerOk(s, k);
    }
    forall k: nat | k < |s'.loops| ensures LoopOk(s', k) {
      assert LoopOk(s, k);
    }
  }

  lemma FinishesCancelKept(s: State, s': State, l: LoopId)
    requires Inv(s) && FinishesCancel(s, s', l)
    ensures Inv(s')
  {
    assert LoopOk(s, l);
    assert ReqOk(s, s.loops[l].client.req);
    AppendMembers(s.loops[l].wq, s.loops[l].client.req);
    forall k: nat | k < |s'.reqs| ensures ReqOk(s', k) {
      assert k < |s.reqs| ==> ReqOk(s, k);
    }
    forall k: nat | k < |s'.workers| ensures WorkerOk(s', k) {
      assert WorkerOk(s, k);
    }
    forall k: nat | k < |s'.loops| ensures LoopOk(s', k) {
      assert LoopOk(s, k);
    }
  }

  lemma DrainsKept(s: State, s': State, l: LoopId)
    requires Inv(s) && Drains(s, s', l)
    ensures Inv(s')
  {
    assert LoopOk(s, l);
    forall k: nat | k < |s'.reqs| ensures ReqOk(s', k) {
      assert k < |s.reqs| ==> ReqOk(s, k);
    }
    forall k: nat | k < |s'.workers| ensures WorkerOk(s', k) {
      assert WorkerOk(s, k);
    }
    forall k: nat | k < |s'.loops| ensures LoopOk(s', k) {
      assert LoopOk(s, k);
    }
  }

  lemma CleanupPostsKept(s: State, s': State)
    requires Inv(s) && CleanupPosts(s, s')
    ensures Inv(s')
  {
    AfterExitAppend(s.wq, ExitMessage);
    forall k: nat | k < |s'.reqs| ensures ReqOk(s', k) {
      assert k < |s.reqs| ==> ReqOk(s, k);
    }
    forall k: nat | k < |s'.workers| ensures WorkerOk(s', k) {
      assert WorkerOk(s, k);
    }
    forall k: nat | k < |s'.loops| ensures LoopOk(s', k) {
      assert LoopOk(s, k);
    }
  }
}
