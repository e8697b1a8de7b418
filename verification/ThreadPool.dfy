/**
  The thread pool of 3rd/libuv/src/threadpool.c as a state machine.

  Every lock acquisition is a step of its own, and so is every critical section together with the
  unlocking that ends it; what a critical section reads and writes is out of reach for everybody else.
*/
module ThreadPool {
  import opened Sequences

  type LoopId = nat
  type ReqId = nat

  /** An element of the global queue wq. */
  datatype Entry = Work(req: ReqId) | ExitMessage

  datatype Owner = Free | HeldByWorker(i: nat) | HeldByLoop(l: LoopId) | HeldByCleanup

  /** Where a worker thread stands; Inside and InsideAwake hold the global mutex, Reporting the loop's. */
  datatype Worker =
    | Outside                          // about to lock the mutex at the top of its loop
    | Inside                           // has locked it
    | Blocked                          // in uv_cond_wait, not signalled
    | Awake                            // signalled, about to lock the mutex again
    | InsideAwake                      // has locked it again, idle_threads still counts it
    | Took(req: ReqId)                 // has dequeued req and is about to call its work function
    | Running(req: ReqId)              // in the work function
    | Finished(req: ReqId)             // about to lock the loop's mutex
    | Reporting(req: ReqId)            // has locked it
    | Exited

  /** Where the thread of a loop stands. */
  datatype Client =
    | Calm                             // in user code, or between two done callbacks
    | Post(req: ReqId)                 // about to lock the mutex in post
    | Posting(req: ReqId)
    | Cancel(req: ReqId)               // about to lock the mutex in uv__work_cancel
    | CancelHalf(req: ReqId)           // has it, about to lock the loop's mutex
    | Cancelling(req: ReqId)           // has both
    | Mark(req: ReqId)                 // has neither, about to overwrite w->work
    | Return(req: ReqId)               // about to lock the loop's mutex to queue the request
    | Returning(req: ReqId)
    | Drain                            // about to lock the loop's mutex in uv__work_done
    | Draining

  datatype Cleanup = NotBegun | WantsMutex | InPost | Posted

  datatype WorkField = Function | Null | Cancelled

  /** Auxiliary: which queue or thread a request is with. */
  datatype Place = WithPoster | OnPool | WithWorker(i: nat) | OnLoop | OnDrained | WithCanceller | Delivered

  /** linked is !QUEUE_EMPTY(&w->wq). runs, done and cancelOk record what has happened to the request. */
  datatype Req = Req(loop: LoopId, work: WorkField, linked: bool, place: Place, early: bool,
                     runs: nat, done: seq<bool>, cancelOk: bool)

  datatype Loop = Loop(lock: Owner, wq: seq<ReqId>, drained: seq<ReqId>, client: Client)

  datatype State = State(mutex: Owner, idle: int, wq: seq<Entry>, workers: seq<Worker>,
                         loops: seq<Loop>, reqs: seq<Req>, cleanup: Cleanup)
  {
    function WithWorker(i: nat, w: Worker): State
      requires i < |workers|
    {
      this.(workers := workers[i := w])
    }

    function WithClient(l: LoopId, c: Client): State
      requires l < |loops|
    {
      this.(loops := loops[l := loops[l].(client := c)])
    }

    function WithLoop(l: LoopId, loop: Loop): State
      requires l < |loops|
    {
      this.(loops := loops[l := loop])
    }

    function WithReq(r: ReqId, req: Req): State
      requires r < |reqs|
    {
      this.(reqs := reqs[r := req])
    }
  }

  ghost predicate Init(s: State) {
    && s.mutex == Free && s.idle == 0 && s.wq == [] && s.reqs == [] && s.cleanup == NotBegun
    && (forall i :: 0 <= i < |s.workers| ==> s.workers[i] == Outside)
    && (forall l :: 0 <= l < |s.loops| ==> s.loops[l] == Loop(Free, [], [], Calm))
  }

  /** uv_cond_signal: if anybody is blocked, somebody blocked wakes; more than one may. */
  ghost predicate Signals(before: seq<Worker>, after: seq<Worker>) {
    && |after| == |before|
    && (forall i :: 0 <= i < |before| ==> after[i] == before[i] || (before[i] == Blocked && after[i] == Awake))
    && ((exists i :: 0 <= i < |before| && before[i] == Blocked) ==> exists i :: 0 <= i < |before| && before[i] == Blocked && after[i] == Awake)
  }

  predicate InMutex(w: Worker) { w.Inside? || w.InsideAwake? }

  predicate ClientInMutex(c: Client) { c.Posting? || c.CancelHalf? || c.Cancelling? }

  predicate ClientInLoop(c: Client) { c.Cancelling? || c.Returning? || c.Draining? }

  /** QUEUE_REMOVE: the request leaves whichever queue it is on. */
  ghost function Unqueued(s: State, l: LoopId, r: ReqId): State
    requires l < |s.loops|
  {
    s.(wq := Without(s.wq, Work(r)))
     .WithLoop(l, s.loops[l].(wq := Without(s.loops[l].wq, r), drained := Without(s.loops[l].drained, r)))
  }

  // ---- worker ----

  ghost predicate WorkerLock(s: State, s': State, i: nat) {
    && i < |s.workers| && s.mutex == Free && (s.workers[i] == Outside || s.workers[i] == Awake)
    && s' == s.(mutex := HeldByWorker(i)).WithWorker(i, if s.workers[i] == Awake then InsideAwake else Inside)
  }

  /** idle_threads as the code in the critical section finds it. */
  function IdleInside(s: State, i: nat): int
    requires i < |s.workers|
  {
    if s.workers[i] == InsideAwake then s.idle - 1 else s.idle
  }

  ghost predicate WorkerSleeps(s: State, s': State, i: nat) {
    && i < |s.workers| && InMutex(s.workers[i]) && s.wq == []
    && s' == s.(idle := IdleInside(s, i) + 1, workers := s.workers[i := Blocked], mutex := Free)
  }

  ghost predicate WorkerExits(s: State, s': State, i: nat) {
    && i < |s.workers| && InMutex(s.workers[i]) && s.wq != [] && s.wq[0] == ExitMessage
    && Signals(s.workers[i := Exited], s'.workers)
    && s' == s.(idle := IdleInside(s, i), workers := s'.workers, mutex := Free)
  }

  ghost predicate WorkerTakes(s: State, s': State, i: nat) {
    && i < |s.workers| && InMutex(s.workers[i]) && s.wq != [] && s.wq[0].Work? && s.wq[0].req < |s.reqs|
    && var r := s.wq[0].req;
    s' == s.(idle := IdleInside(s, i), wq := s.wq[1..], workers := s.workers[i := Took(r)], mutex := Free,
             reqs := s.reqs[r := s.reqs[r].(linked := false, place := WithWorker(i))])
  }

  ghost predicate SpuriousWake(s: State, s': State, i: nat) {
    i < |s.workers| && s.workers[i] == Blocked && s' == s.WithWorker(i, Awake)
  }

  /** Calls w->work(w), whatever that is by now. */
  ghost predicate CallsWork(s: State, s': State, i: nat) {
    && i < |s.workers| && s.workers[i].Took? && s.workers[i].req < |s.reqs|
    && var r := s.workers[i].req;
    s' == s.WithWorker(i, Running(r)).WithReq(r, s.reqs[r].(runs := s.reqs[r].runs + 1))
  }

  ghost predicate WorkReturns(s: State, s': State, i: nat) {
    i < |s.workers| && s.workers[i].Running? && s' == s.WithWorker(i, Finished(s.workers[i].req))
  }

  ghost predicate WorkerLocksLoop(s: State, s': State, i: nat) {
    && i < |s.workers| && s.workers[i].Finished? && s.workers[i].req < |s.reqs|
    && var r := s.workers[i].req;
    && var l := s.reqs[r].loop;
    && l < |s.loops| && s.loops[l].lock == Free
    && s' == s.WithWorker(i, Reporting(r)).WithLoop(l, s.loops[l].(lock := HeldByWorker(i)))
  }

  ghost predicate WorkerReports(s: State, s': State, i: nat) {
    && i < |s.workers| && s.workers[i].Reporting? && s.workers[i].req < |s.reqs|
    && var r := s.workers[i].req;
    && var l := s.reqs[r].loop;
    && l < |s.loops|
    && s' == s.WithWorker(i, Outside).WithReq(r, s.reqs[r].(work := Null, linked := true, place := OnLoop))
              .WithLoop(l, s.loops[l].(lock := Free, wq := s.loops[l].wq + [r]))
  }

  // ---- loop thread ----

  /** uv__work_submit; the queue node of a fresh request may hold garbage. */
  ghost predicate Submits(s: State, s': State, l: LoopId, r: ReqId, garbage: bool) {
    && l < |s.loops| && s.loops[l].client == Calm && r == |s.reqs|
    && s' == s.(reqs := s.reqs + [Req(l, Function, garbage, WithPoster, false, 0, [], false)]).WithClient(l, Post(r))
  }

  ghost predicate ClientLocks(s: State, s': State, l: LoopId) {
    && l < |s.loops| && s.mutex == Free
    && var c := s.loops[l].client;
    && (c.Post? || c.Cancel?)
    && s' == s.(mutex := HeldByLoop(l)).WithClient(l, if c.Post? then Posting(c.req) else CancelHalf(c.req))
  }

  ghost predicate Posts(s: State, s': State, l: LoopId) {
    && l < |s.loops| && s.loops[l].client.Posting? && s.loops[l].client.req < |s.reqs|
    && (if s.idle > 0 then Signals(s.workers, s'.workers) else s'.workers == s.workers)
    && var r := s.loops[l].client.req;
    s' == s.(mutex := Free, wq := s.wq + [Work(r)], workers := s'.workers).WithClient(l, Calm)
           .WithReq(r, s.reqs[r].(linked := true, place := OnPool, early := ExitMessage !in s.wq))
  }

  /** uv_cancel on a request whose done callback has not started. */
  ghost predicate BeginsCancel(s: State, s': State, l: LoopId, r: ReqId) {
    && l < |s.loops| && s.loops[l].client == Calm && r < |s.reqs| && s.reqs[r].loop == l && s.reqs[r].done == []
    && s' == s.WithClient(l, Cancel(r))
  }

  ghost predicate ClientLocksLoop(s: State, s': State, l: LoopId) {
    && l < |s.loops| && s.loops[l].lock == Free
    && var c := s.loops[l].client;
    && (c.CancelHalf? || c.Return? || c.Drain?)
    && s' == s.WithLoop(l, s.loops[l].(lock := HeldByLoop(l),
         client := if c.CancelHalf? then Cancelling(c.req) else if c.Return? then Returning(c.req) else Draining))
  }

  ghost predicate RefusesCancel(s: State, s': State, l: LoopId) {
    && l < |s.loops| && s.loops[l].client.Cancelling? && s.loops[l].client.req < |s.reqs|
    && var r := s.loops[l].client.req;
    && !(s.reqs[r].linked && s.reqs[r].work != Null)
    && s' == s.(mutex := Free).WithLoop(l, s.loops[l].(lock := Free, client := Calm))
  }

  ghost predicate GrantsCancel(s: State, s': State, l: LoopId) {
    && l < |s.loops| && s.loops[l].client.Cancelling? && s.loops[l].client.req < |s.reqs|
    && var r := s.loops[l].client.req;
    && s.reqs[r].linked && s.reqs[r].work != Null
    && s' == Unqueued(s.(mutex := Free).WithLoop(l, s.loops[l].(lock := Free, client := Mark(r))), l, r)
             .WithReq(r, s.reqs[r].(place := WithCanceller))
  }

  ghost predicate Marks(s: State, s': State, l: LoopId) {
    && l < |s.loops| && s.loops[l].client.Mark? && s.loops[l].client.req < |s.reqs|
    && var r := s.loops[l].client.req;
    s' == s.WithReq(r, s.reqs[r].(work := Cancelled)).WithClient(l, Return(r))
  }

  ghost predicate FinishesCancel(s: State, s': State, l: LoopId) {
    && l < |s.loops| && s.loops[l].client.Returning? && s.loops[l].client.req < |s.reqs|
    && var r := s.loops[l].client.req;
    s' == s.WithReq(r, s.reqs[r].(linked := true, place := OnLoop, cancelOk := true))
           .WithLoop(l, s.loops[l].(lock := Free, wq := s.loops[l].wq + [r], client := Calm))
  }

  ghost predicate BeginsDrain(s: State, s': State, l: LoopId) {
    && l < |s.loops| && s.loops[l].client == Calm && s.loops[l].drained == []
    && s' == s.WithClient(l, Drain)
  }

  ghost predicate Drains(s: State, s': State, l: LoopId) {
    && l < |s.loops| && s.loops[l].client == Draining
    && s' == s.(reqs := Drained(s.reqs, s.loops[l].wq))
              .WithLoop(l, Loop(Free, [], s.loops[l].wq, Calm))
  }

  ghost function Drained(reqs: seq<Req>, wq: seq<ReqId>): (r: seq<Req>)
    ensures |r| == |reqs|
    ensures forall k :: 0 <= k < |reqs| ==> r[k] == if k in wq then reqs[k].(place := OnDrained) else reqs[k]
  {
    seq(|reqs|, k requires 0 <= k < |reqs| => if k in wq then reqs[k].(place := OnDrained) else reqs[k])
  }

  /** The done callback of the next drained request starts. */
  ghost predicate Delivers(s: State, s': State, l: LoopId) {
    && l < |s.loops| && s.loops[l].client == Calm && s.loops[l].drained != [] && s.loops[l].drained[0] < |s.reqs|
    && var r := s.loops[l].drained[0];
    s' == s.WithReq(r, s.reqs[r].(place := Delivered, done := s.reqs[r].done + [s.reqs[r].work == Cancelled]))
           .WithLoop(l, s.loops[l].(drained := s.loops[l].drained[1..]))
  }

  // ---- cleanup ----

  ghost predicate BeginsCleanup(s: State, s': State) {
    s.cleanup == NotBegun && s' == s.(cleanup := WantsMutex)
  }

  ghost predicate CleanupLocks(s: State, s': State) {
    s.cleanup == WantsMutex && s.mutex == Free && s' == s.(cleanup := InPost, mutex := HeldByCleanup)
  }

  ghost predicate CleanupPosts(s: State, s': State) {
    && s.cleanup == InPost
    && (if s.idle > 0 then Signals(s.workers, s'.workers) else s'.workers == s.workers)
    && s' == s.(cleanup := Posted, mutex := Free, wq := s.wq + [ExitMessage], workers := s'.workers)
  }
}
