/**
  The wakeup protocol of 3rd/libuv/src/unix/async.c as a state machine: any number of senders, which are
  threads or callbacks of the loop, any number of handles, and the thread of the loop.
*/
module AsyncWakeup {
  import opened Sequences

  type HandleId = nat

  /** pending is the flag that senders set; hasCallback says that async_cb is not NULL. */
  datatype Handle = Handle(open: bool, pending: bool, hasCallback: bool)

  /** Where a call of uv_async_send stands. */
  datatype Sender =
    | Calm
    | Swapping(h: HandleId)            // has read pending as 0, about to compare and swap
    | Writing(h: HandleId)             // has set pending, about to write to the wakeup fd

  /** Where the thread of the loop stands. */
  datatype Position =
    | Polling                          // outside uv__async_io
    | Reading                          // draining the wakeup fd
    | Moving                           // about to QUEUE_MOVE the handles
    | Sweeping                         // at the top of the loop over the moved queue
    | At(h: HandleId)                  // has put h back, about to compare and swap
    | Calling(h: HandleId)             // in the callback of h

  /** fd counts what the wakeup fd holds; called is auxiliary, the callbacks of the current pass. */
  datatype State = State(handles: seq<Handle>, waiting: seq<HandleId>, queue: seq<HandleId>,
                         at: Position, senders: seq<Sender>, fd: nat, isEventFd: bool, called: seq<HandleId>)

  ghost predicate Init(s: State) {
    && s.handles == [] && s.waiting == [] && s.queue == [] && s.at == Polling && s.fd == 0 && s.called == []
    && forall i :: 0 <= i < |s.senders| ==> s.senders[i] == Calm
  }

  /** The loop's thread runs user code, which may call any function of the library. */
  predicate InUserCode(p: Position) { p.Polling? || p.Calling? }

  const BUFFER := 1024

  // ---- senders ----

  // The cheap read of uv_async_send; a handle that is pending already needs nothing.
  ghost predicate BeginsSend(s: State, s': State, i: nat, h: HandleId) {
    && i < |s.senders| && s.senders[i] == Calm && h < |s.handles| && s.handles[h].open
    && s' == if s.handles[h].pending then s else s.(senders := s.senders[i := Swapping(h)])
  }

  ghost predicate Swaps(s: State, s': State, i: nat) {
    && i < |s.senders| && s.senders[i].Swapping? && s.senders[i].h < |s.handles|
    && var h := s.senders[i].h;
       s' == if s.handles[h].pending then s.(senders := s.senders[i := Calm])
             else s.(senders := s.senders[i := Writing(h)], handles := s.handles[h := s.handles[h].(pending := true)])
  }

  // uv__async_send. EAGAIN comes only from an fd that is full, so one that holds something.
  ghost predicate Writes(s: State, s': State, i: nat, again: bool) {
    && i < |s.senders| && s.senders[i].Writing? && (again ==> s.fd > 0)
    && s' == s.(senders := s.senders[i := Calm], fd := if again then s.fd else s.fd + 1)
  }

  // ---- the loop ----

  // uv_async_init.
  ghost predicate Inits(s: State, s': State, hasCallback: bool) {
    && InUserCode(s.at)
    && s' == s.(handles := s.handles + [Handle(true, false, hasCallback)], waiting := s.waiting + [|s.handles|])
  }

  // uv__async_close. The handle leaves whichever queue it is on.
  ghost predicate Closes(s: State, s': State, h: HandleId) {
    && InUserCode(s.at) && h < |s.handles| && s.handles[h].open
    && s' == s.(handles := s.handles[h := s.handles[h].(open := false)],
                waiting := Without(s.waiting, h), queue := Without(s.queue, h))
  }

  ghost predicate Wakes(s: State, s': State) {
    s.at == Polling && s.fd > 0 && s' == s.(at := Reading, called := [])
  }

  // One read: an eventfd is reset, a pipe gives at most a buffer full, and a full buffer asks for more.
  ghost predicate Reads(s: State, s': State) {
    && s.at == Reading
    && s' == if !s.isEventFd && s.fd >= BUFFER then s.(fd := s.fd - BUFFER) else s.(fd := 0, at := Moving)
  }

  ghost predicate Moves(s: State, s': State) {
    s.at == Moving && s' == s.(at := Sweeping, queue := s.waiting, waiting := [])
  }

  ghost predicate Visits(s: State, s': State) {
    && s.at == Sweeping && s.queue != []
    && s' == s.(at := At(s.queue[0]), queue := s.queue[1..], waiting := s.waiting + [s.queue[0]])
  }

  ghost predicate Clears(s: State, s': State) {
    && s.at.At? && s.at.h < |s.handles|
    && var h := s.at.h;
       var calls := s.handles[h].pending && s.handles[h].hasCallback;
       s' == s.(handles := s.handles[h := s.handles[h].(pending := false)], at := if calls then Calling(h) else Sweeping,
                called := if calls then s.called + [h] else s.called)
  }

  ghost predicate Returns(s: State, s': State) {
    s.at.Calling? && s' == s.(at := Sweeping)
  }

  ghost predicate Ends(s: State, s': State) {
    s.at == Sweeping && s.queue == [] && s' == s.(at := Polling)
  }

  // ---- invariant ----

  /** The current pass has yet to visit h. */
  ghost predicate YetToVisit(s: State, h: HandleId) {
    match s.at
    case Polling => false
    case Reading => h in s.waiting
    case Moving => h in s.waiting
    case Sweeping => h in s.queue
    case At(k) => h == k || h in s.queue
    case Calling(_) => h in s.queue
  }

  ghost predicate BeingWritten(s: State, h: HandleId) {
    exists i :: 0 <= i < |s.senders| && s.senders[i] == Writing(h)
  }

  ghost predicate HandleOk(s: State, h: HandleId)
    requires h < |s.handles|
  {
    s.handles[h].open ==>
      (h in s.waiting || h in s.queue) && (s.handles[h].pending ==> BeingWritten(s, h) || s.fd > 0 || YetToVisit(s, h))
  }

  ghost predicate QueueOk(s: State, q: seq<HandleId>) {
    && (forall j :: 0 <= j < |q| ==> q[j] < |s.handles| && s.handles[q[j]].open)
    && Distinct(q)
  }

  ghost predicate PositionOk(s: State) {
    match s.at
    case At(h) => h in s.waiting
    case Sweeping => true
    case Calling(_) => true
    case _ => s.queue == []
  }

  ghost predicate SenderOk(s: State, i: nat)
    requires i < |s.senders|
  {
    !s.senders[i].Calm? ==> s.senders[i].h < |s.handles|
  }

  ghost predicate CalledOk(s: State) {
    && Distinct(s.called)
    && (s.at.Reading? || s.at.Moving? ==> s.called == [])
    && (forall h :: h in s.called ==> h < |s.handles| && !YetToVisit(s, h))
  }

  ghost predicate Inv(s: State) {
    && QueueOk(s, s.waiting) && QueueOk(s, s.queue) && (forall h :: h in s.waiting ==> h !in s.queue)
    && PositionOk(s) && CalledOk(s)
    && (forall h :: 0 <= h < |s.handles| ==> HandleOk(s, h))
    && forall i :: 0 <= i < |s.senders| ==> SenderOk(s, i)
  }

  lemma BeginsSendKept(s: State, s': State, i: nat, h: HandleId)
    requires Inv(s) && BeginsSend(s, s', i, h)
    ensures Inv(s')
  {
    OnlySenders(s, s', i);
  }

  /** One sender moved on, and it was not about to write. */
  lemma OnlySenders(s: State, s': State, i: nat)
    requires Inv(s) && i < |s.senders| == |s'.senders| && !s.senders[i].Writing?
    requires s' == s.(senders := s.senders[i := s'.senders[i]]) && SenderOk(s', i)
    ensures Inv(s')
  {
    forall h | 0 <= h < |s'.handles| ensures HandleOk(s', h) {
      assert HandleOk(s, h);
      if BeingWritten(s, h) {
        var k :| 0 <= k < |s.senders| && s.senders[k] == Writing(h);
        assert s'.senders[k] == Writing(h);
      }
    }
    forall k | 0 <= k < |s'.senders| ensures SenderOk(s', k) {
      assert SenderOk(s, k);
    }
  }

  lemma SwapsKept(s: State, s': State, i: nat)
    requires Inv(s) && Swaps(s, s', i)
    ensures Inv(s')
  {
    var h := s.senders[i].h;
    if s.handles[h].pending {
      OnlySenders(s, s', i);
    } else {
      assert s'.senders[i] == Writing(h);
      forall k | 0 <= k < |s'.handles| ensures HandleOk(s', k) {
        assert HandleOk(s, k);
        if BeingWritten(s, k) {
          var j :| 0 <= j < |s.senders| && s.senders[j] == Writing(k);
          assert s'.senders[j] == Writing(k);
        }
      }
      forall k | 0 <= k < |s'.senders| ensures SenderOk(s', k) {
        assert SenderOk(s, k);
      }
    }
  }

  lemma WritesKept(s: State, s': State, i: nat, again: bool)
    requires Inv(s) && Writes(s, s', i, again)
    ensures Inv(s')
  {
    forall h | 0 <= h < |s'.handles| ensures HandleOk(s', h) {
      assert HandleOk(s, h);
    }
    forall k | 0 <= k < |s'.senders| ensures SenderOk(s', k) {
      assert SenderOk(s, k);
    }
  }

  lemma InitsKept(s: State, s': State, hasCallback: bool)
    requires Inv(s) && Inits(s, s', hasCallback)
    ensures Inv(s')
  {
    var n := |s.handles|;
    assert s'.waiting[|s.waiting|] == n;
    forall h | 0 <= h < |s'.handles| ensures HandleOk(s', h) {
      if h < n {
        assert HandleOk(s, h);
        assert BeingWritten(s, h) ==> BeingWritten(s', h);
        assert h in s.waiting ==> h in s'.waiting;
      }
    }
    forall k | 0 <= k < |s'.senders| ensures SenderOk(s', k) {
      assert SenderOk(s, k);
    }
  }

  lemma ClosesKept(s: State, s': State, h: HandleId)
    requires Inv(s) && Closes(s, s', h)
    ensures Inv(s')
  {
    WithoutMembers(s.waiting, h);
    WithoutMembers(s.queue, h);
    forall k | 0 <= k < |s'.handles| ensures HandleOk(s', k) {
      assert HandleOk(s, k);
      assert BeingWritten(s, k) ==> BeingWritten(s', k);
    }
    forall k | 0 <= k < |s'.senders| ensures SenderOk(s', k) {
      assert SenderOk(s, k);
    }
    assert forall j :: 0 <= j < |s'.waiting| ==> s'.waiting[j] in s'.waiting;
    assert forall j :: 0 <= j < |s'.queue| ==> s'.queue[j] in s'.queue;
  }

  /** The loop moved on and changed no handle. */
  lemma OnlyPosition(s: State, s': State)
    requires Inv(s) && s'.handles == s.handles && s'.senders == s.senders
    requires QueueOk(s', s'.waiting) && QueueOk(s', s'.queue) && (forall h :: h in s'.waiting ==> h !in s'.queue)
    requires PositionOk(s') && CalledOk(s')
    requires forall h :: h in s.waiting || h in s.queue ==> h in s'.waiting || h in s'.queue
    requires forall h :: h in s.waiting || h in s.queue ==> (s.fd > 0 || YetToVisit(s, h) ==> s'.fd > 0 || YetToVisit(s', h))
    ensures Inv(s')
  {
    forall h | 0 <= h < |s'.handles| ensures HandleOk(s', h) {
      assert HandleOk(s, h);
      assert BeingWritten(s, h) ==> BeingWritten(s', h);
    }
    forall k | 0 <= k < |s'.senders| ensures SenderOk(s', k) {
      assert SenderOk(s, k);
    }
  }

  lemma LoopKept(s: State, s': State)
    requires Inv(s) && (Wakes(s, s') || Reads(s, s') || Moves(s, s') || Returns(s, s') || Ends(s, s'))
    ensures Inv(s')
  {
    OnlyPosition(s, s');
  }

  lemma VisitsKept(s: State, s': State)
    requires Inv(s) && Visits(s, s')
    ensures Inv(s')
  {
    assert s.queue == [s.queue[0]] + s.queue[1..];
    assert s'.waiting[|s.waiting|] == s.queue[0];
    assert s.queue[0] in s.queue;
    OnlyPosition(s, s');
  }

  lemma ClearsKept(s: State, s': State)
    requires Inv(s) && Clears(s, s')
    ensures Inv(s')
  {
    var h := s.at.h;
    assert YetToVisit(s, h) && h in s.waiting && h !in s.queue;
    forall k | 0 <= k < |s'.handles| ensures HandleOk(s', k) {
      assert HandleOk(s, k);
      assert BeingWritten(s, k) ==> BeingWritten(s', k);
    }
    forall k | 0 <= k < |s'.senders| ensures SenderOk(s', k) {
      assert SenderOk(s, k);
    }
  }
}
