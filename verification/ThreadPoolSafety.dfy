/** What every reachable state of the thread pool satisfies. */
module ThreadPoolSafety {
  import opened Sequences
  import opened ThreadPool

  // ---- counting workers ----

  predicate IsIdle(w: Worker) { w.Blocked? || w.Awake? || w.InsideAwake? }

  predicate IsRousing(w: Worker) { w.Awake? || w.InsideAwake? }

  /** The workers that idle_threads counts. */
  function IdleCount(ws: seq<Worker>): nat {
    if ws == [] then 0 else IdleCount(ws[1..]) + if IsIdle(ws[0]) then 1 else 0
  }

  /** The workers that have been signalled and do not run yet. */
  function RousingCount(ws: seq<Worker>): nat {
    if ws == [] then 0 else RousingCount(ws[1..]) + if IsRousing(ws[0]) then 1 else 0
  }

  lemma {:induction false} CountUpdate(ws: seq<Worker>, i: nat, w: Worker)
    requires i < |ws|
    ensures IdleCount(ws[i := w]) == IdleCount(ws) + (if IsIdle(w) then 1 else 0) - (if IsIdle(ws[i]) then 1 else 0)
    ensures RousingCount(ws[i := w]) == RousingCount(ws) + (if IsRousing(w) then 1 else 0) - (if IsRousing(ws[i]) then 1 else 0)
  {
    if i == 0 {
      assert ws[0 := w][1..] == ws[1..];
    } else {
      assert ws[i := w][1..] == ws[1..][i - 1 := w];
      CountUpdate(ws[1..], i - 1, w);
    }
  }

  /** Waking only moves blocked workers to the signalled ones. */
  ghost predicate Wakes(before: seq<Worker>, after: seq<Worker>) {
    && |after| == |before|
    && (forall i :: 0 <= i < |before| ==> after[i] == before[i] || (before[i] == Blocked && after[i] == Awake))
  }

  lemma {:induction false} WakesCount(before: seq<Worker>, after: seq<Worker>)
    requires Wakes(before, after)
    ensures IdleCount(after) == IdleCount(before) && RousingCount(after) >= RousingCount(before)
    ensures after != before ==> RousingCount(after) > RousingCount(before)
  {
    if before != [] {
      WakesCount(before[1..], after[1..]);
      if after[1..] == before[1..] && after[0] == before[0] {
        assert after == before;
      }
    }
  }

  lemma {:induction false} BlockedIsIdle(ws: seq<Worker>, i: nat)
    requires i < |ws| && ws[i] == Blocked
    ensures IdleCount(ws) > 0
  {
    if i > 0 {
      BlockedIsIdle(ws[1..], i - 1);
    }
  }

  ghost predicate SomeBlocked(ws: seq<Worker>) { exists i :: 0 <= i < |ws| && ws[i] == Blocked }

  /** idle_threads counts the waiting workers; while one of them sleeps, the signalled ones suffice for the queue. */
  ghost predicate IdleInv(s: State) {
    s.idle == IdleCount(s.workers) && (SomeBlocked(s.workers) ==> |s.wq| <= RousingCount(s.workers))
  }

  lemma {:induction false} InitIdle(ws: seq<Worker>)
    requires forall i :: 0 <= i < |ws| ==> ws[i] == Outside
    ensures IdleCount(ws) == 0
  {
    if ws != [] {
      InitIdle(ws[1..]);
    }
  }

  /** A worker that is neither put to sleep nor counted differently. */
  lemma IdleUpdate(s: State, s': State, i: nat)
    requires IdleInv(s) && i < |s.workers| && |s'.workers| == |s.workers| && s'.workers == s.workers[i := s'.workers[i]]
    requires s'.idle == s.idle && s'.wq == s.wq && IsIdle(s'.workers[i]) == IsIdle(s.workers[i])
    requires s'.workers[i] != Blocked && (IsRousing(s.workers[i]) ==> IsRousing(s'.workers[i]))
    ensures IdleInv(s')
  {
    CountUpdate(s.workers, i, s'.workers[i]);
    if SomeBlocked(s'.workers) {
      var k :| 0 <= k < |s'.workers| && s'.workers[k] == Blocked;
      assert s.workers[k] == Blocked;
    }
  }

  lemma IdlePost(s: State, s': State)
    requires IdleInv(s) && s'.idle == s.idle && |s'.wq| == |s.wq| + 1
    requires if s.idle > 0 then Signals(s.workers, s'.workers) else s'.workers == s.workers
    ensures IdleInv(s')
  {
    var woken := s'.workers;
    if s.idle > 0 {
      WakesCount(s.workers, woken);
    }
    if SomeBlocked(woken) {
      var k :| 0 <= k < |woken| && woken[k] == Blocked;
      assert s.workers[k] == Blocked;
      BlockedIsIdle(s.workers, k);
    }
  }

  lemma IdleSleeps(s: State, s': State, i: nat)
    requires IdleInv(s) && WorkerSleeps(s, s', i)
    ensures IdleInv(s')
  {
    CountUpdate(s.workers, i, Blocked);
  }

  lemma IdleExits(s: State, s': State, i: nat)
    requires IdleInv(s) && WorkerExits(s, s', i)
    ensures IdleInv(s')
  {
    var ws, woken := s.workers[i := Exited], s'.workers;
    CountUpdate(s.workers, i, Exited);
    WakesCount(ws, woken);
    if SomeBlocked(woken) {
      var k :| 0 <= k < |woken| && woken[k] == Blocked;
      assert ws[k] == Blocked && s.workers[k] == Blocked;
    }
  }

  lemma IdleTakes(s: State, s': State, i: nat)
    requires IdleInv(s) && WorkerTakes(s, s', i)
    ensures IdleInv(s')
  {
    CountUpdate(s.workers, i, s'.workers[i]);
    if SomeBlocked(s'.workers) {
      var k :| 0 <= k < |s.workers| && s'.workers[k] == Blocked;
      assert s.workers[k] == Blocked;
    }
  }
}
