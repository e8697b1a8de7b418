/**
  Who owns a uv handle: the wrappers of src/AsyncHandle.cpp, which move, close and die while libuv may still be
  using the handle's memory, and uv__finish_close of 3rd/libuv/src/unix/core.c, which ends that use.
*/
module HandleRuns {

  datatype Phase = Open | Closing | Closed

  /**
    The memory of a uv handle. data is the wrapper that HandleToData made it from, -1 for NULL; lost is auxiliary
    and says that a wrapper let go of it after it had been closed.
  */
  datatype Block = Block(data: int, phase: Phase, freed: bool, lost: bool)

  /** An AsyncHandle; handle is m_pHandle, -1 for none, and closed is m_bHandleClosed. */
  datatype Wrapper = Wrapper(alive: bool, handle: int, closed: bool)

  datatype State = State(wrappers: seq<Wrapper>, blocks: seq<Block>)

  const EMPTY := Wrapper(true, -1, true)

  ghost predicate WrapperOk(s: State, w: nat)
    requires w < |s.wrappers|
  {
    var x := s.wrappers[w];
    if x.alive && x.handle != -1 then
      && 0 <= x.handle < |s.blocks| && !s.blocks[x.handle].freed && s.blocks[x.handle].data == w
      && (x.closed <==> s.blocks[x.handle].phase == Closed)
    else x.handle == -1 && x.closed
  }

  ghost predicate BlockOk(s: State, b: nat)
    requires b < |s.blocks|
  {
    var x := s.blocks[b];
    && (x.freed ==> x.phase == Closed)
    && (!x.freed && x.data != -1 ==> 0 <= x.data < |s.wrappers| && s.wrappers[x.data].alive && s.wrappers[x.data].handle == b)
    && (!x.freed && x.data == -1 ==> x.phase != Open)
    && (x.lost <==> !x.freed && x.data == -1 && x.phase == Closed)
  }

  /** A live wrapper and its block know each other, and a block without a wrapper is at least being closed. */
  ghost predicate Sound(s: State) {
    && (forall w :: 0 <= w < |s.wrappers| ==> WrapperOk(s, w))
    && (forall b :: 0 <= b < |s.blocks| ==> BlockOk(s, b))
  }

  predicate Holds(s: State, w: nat) { w < |s.wrappers| && s.wrappers[w].alive }

  predicate HasBlock(s: State, w: nat) { Holds(s, w) && 0 <= s.wrappers[w].handle < |s.blocks| }

  predicate IsOpen(s: State, b: nat) { b < |s.blocks| && !s.blocks[b].freed && s.blocks[b].phase == Open }

  predicate IsClosing(s: State, b: nat) { b < |s.blocks| && !s.blocks[b].freed && s.blocks[b].phase == Closing }

  // ---- what the members do ----

  /** The constructor. */
  function Constructed(s: State): State {
    State(s.wrappers + [Wrapper(true, |s.blocks|, false)], s.blocks + [Block(|s.wrappers|, Open, false, false)])
  }

  /** uv_close. */
  function StartedClose(s: State, b: nat): State {
    if IsOpen(s, b) then s.(blocks := s.blocks[b := s.blocks[b].(phase := Closing)]) else s
  }

  /** Close. */
  function ClosedBy(s: State, w: nat): State {
    if HasBlock(s, w) then StartedClose(s, s.wrappers[w].handle) else s
  }

  /** The move constructor; the new wrapper is the last one. */
  function Moved(s: State, org: nat): State
    requires Holds(s, org)
  {
    State(s.wrappers[org := EMPTY] + [s.wrappers[org]],
          if HasBlock(s, org) then
            s.blocks[s.wrappers[org].handle := s.blocks[s.wrappers[org].handle].(data := |s.wrappers|)]
          else s.blocks)
  }

  /** m_pHandle.release() with the data pointer cleared: from now on libuv alone owns the block. */
  function Released(s: State, w: nat): State
    requires HasBlock(s, w)
  {
    var b := s.wrappers[w].handle;
    State(s.wrappers[w := EMPTY], s.blocks[b := s.blocks[b].(data := -1, lost := s.blocks[b].phase == Closed)])
  }

  /** The first half of the move assignment: the block that is overwritten is left to libuv. */
  function LetGo(s: State, w: nat): State
    requires Holds(s, w)
  {
    if HasBlock(s, w) then Released(ClosedBy(s, w), w) else s
  }

  /** The second half. */
  function TakenOver(s: State, w: nat, org: nat): State
    requires Holds(s, w) && Holds(s, org)
  {
    State(s.wrappers[w := s.wrappers[org]][org := EMPTY],
          if HasBlock(s, org) && w != org then
            s.blocks[s.wrappers[org].handle := s.blocks[s.wrappers[org].handle].(data := w)]
          else s.blocks)
  }

  function Assigned(s: State, w: nat, org: nat): State
    requires Holds(s, w) && Holds(s, org)
  {
    TakenOver(LetGo(s, w), w, org)
  }

  function Freed(s: State, b: nat): State
    requires b < |s.blocks|
  {
    s.(blocks := s.blocks[b := s.blocks[b].(freed := true, lost := false)])
  }

  /** The destructor. A block that libuv has not done with is left to libuv. */
  function Destroyed(s: State, w: nat): State
    requires Holds(s, w)
  {
    var t := if !HasBlock(s, w) then s
             else if !s.wrappers[w].closed then Released(ClosedBy(s, w), w)
             else Freed(s, s.wrappers[w].handle);
    t.(wrappers := t.wrappers[w := Wrapper(false, -1, true)])
  }

  /** uv__finish_close and OnUVClose. OnClose goes to the wrapper that owns the block, or the block is freed. */
  function Finished(s: State, b: nat): State
    requires b < |s.blocks|
  {
    var t := s.(blocks := s.blocks[b := s.blocks[b].(phase := Closed)]);
    var to := s.blocks[b].data;
    if 0 <= to < |s.wrappers| then t.(wrappers := s.wrappers[to := s.wrappers[to].(closed := true)]) else Freed(t, b)
  }

  // ---- runs ----

  /** ForceClose is what RunLoop does to every handle at its end, Finish one step of uv__run_closing_handles. */
  datatype Op = Construct | Move(w: nat) | Assign(w: nat, org: nat) | Close(w: nat) | Destroy(w: nat)
              | ForceClose(b: nat) | Finish(b: nat)

  /** What becomes of blocks: their memory is given back, or OnClose tells a wrapper. */
  datatype Notice = Free(b: nat) | OnClose(b: nat, w: nat)

  datatype Course = Course(s: State, log: seq<Notice>)

  predicate Possible(s: State, op: Op) {
    match op
    case Construct => true
    case Move(w) => Holds(s, w)
    case Assign(w, org) => Holds(s, w) && Holds(s, org)
    case Close(w) => Holds(s, w)
    case Destroy(w) => Holds(s, w)
    case ForceClose(b) => IsOpen(s, b)
    case Finish(b) => IsClosing(s, b)
  }

  function After(s: State, op: Op): State
    requires Possible(s, op)
  {
    match op
    case Construct => Constructed(s)
    case Move(w) => Moved(s, w)
    case Assign(w, org) => Assigned(s, w, org)
    case Close(w) => ClosedBy(s, w)
    case Destroy(w) => Destroyed(s, w)
    case ForceClose(b) => StartedClose(s, b)
    case Finish(b) => Finished(s, b)
  }

  function NoticeOf(s: State, op: Op): seq<Notice>
    requires Possible(s, op)
  {
    match op
    case Destroy(w) => if HasBlock(s, w) && s.wrappers[w].closed then [Free(s.wrappers[w].handle)] else []
    case Finish(b) => if 0 <= s.blocks[b].data < |s.wrappers| then [OnClose(b, s.blocks[b].data)] else [Free(b)]
    case _ => []
  }

  /** An operation that the state does not allow does not happen. */
  function Further(c: Course, op: Op): Course {
    if Possible(c.s, op) then Course(After(c.s, op), c.log + NoticeOf(c.s, op)) else c
  }

  function Run(ops: seq<Op>): Course {
    if ops == [] then Course(State([], []), []) else Further(Run(ops[..|ops| - 1]), ops[|ops| - 1])
  }

  // ---- what the members keep ----

  lemma ConstructedKeeps(s: State)
    requires Sound(s)
    ensures Sound(Constructed(s))
  {
    var t := Constructed(s);
    forall k | 0 <= k < |t.wrappers| ensures WrapperOk(t, k) {
      assert k < |s.wrappers| ==> WrapperOk(s, k);
    }
    forall k | 0 <= k < |t.blocks| ensures BlockOk(t, k) {
      assert k < |s.blocks| ==> BlockOk(s, k);
    }
  }

  lemma StartedCloseKeeps(s: State, b: nat)
    requires Sound(s)
    ensures Sound(StartedClose(s, b))
  {
    var t := StartedClose(s, b);
    forall k | 0 <= k < |t.wrappers| ensures WrapperOk(t, k) {
      assert WrapperOk(s, k);
    }
    forall k | 0 <= k < |t.blocks| ensures BlockOk(t, k) {
      assert BlockOk(s, k);
    }
  }

  lemma ClosedByKeeps(s: State, w: nat)
    requires Sound(s)
    ensures Sound(ClosedBy(s, w))
    ensures HasBlock(s, w) ==> ClosedBy(s, w).blocks[s.wrappers[w].handle].phase != Open
  {
    if HasBlock(s, w) {
      assert WrapperOk(s, w);
      StartedCloseKeeps(s, s.wrappers[w].handle);
    }
  }

  lemma MovedKeeps(s: State, org: nat)
    requires Sound(s) && Holds(s, org)
    ensures Sound(Moved(s, org))
  {
    var t := Moved(s, org);
    assert WrapperOk(s, org);
    forall k | 0 <= k < |t.wrappers| ensures WrapperOk(t, k) {
      assert k < |s.wrappers| ==> WrapperOk(s, k);
    }
    forall k | 0 <= k < |t.blocks| ensures BlockOk(t, k) {
      assert BlockOk(s, k);
    }
  }

  lemma ReleasedKeeps(s: State, w: nat)
    requires Sound(s) && HasBlock(s, w) && s.blocks[s.wrappers[w].handle].phase != Open
    ensures Sound(Released(s, w))
  {
    var t := Released(s, w);
    assert WrapperOk(s, w);
    forall k | 0 <= k < |t.wrappers| ensures WrapperOk(t, k) {
      assert WrapperOk(s, k);
    }
    forall k | 0 <= k < |t.blocks| ensures BlockOk(t, k) {
      assert BlockOk(s, k);
    }
  }

  lemma LetGoKeeps(s: State, w: nat)
    requires Sound(s) && Holds(s, w)
    ensures Sound(LetGo(s, w)) && LetGo(s, w).wrappers[w] == EMPTY
  {
    assert WrapperOk(s, w);
    if HasBlock(s, w) {
      ClosedByKeeps(s, w);
      ReleasedKeeps(ClosedBy(s, w), w);
    }
  }

  lemma TakenOverKeeps(s: State, w: nat, org: nat)
    requires Sound(s) && Holds(s, w) && Holds(s, org) && s.wrappers[w] == EMPTY
    ensures Sound(TakenOver(s, w, org))
  {
    var t := TakenOver(s, w, org);
    assert WrapperOk(s, org);
    forall k | 0 <= k < |t.wrappers| ensures WrapperOk(t, k) {
      assert WrapperOk(s, k);
    }
    forall k | 0 <= k < |t.blocks| ensures BlockOk(t, k) {
      assert BlockOk(s, k);
    }
  }

  lemma AssignedKeeps(s: State, w: nat, org: nat)
    requires Sound(s) && Holds(s, w) && Holds(s, org)
    ensures Sound(Assigned(s, w, org))
  {
    LetGoKeeps(s, w);
    TakenOverKeeps(LetGo(s, w), w, org);
  }

  lemma DestroyedKeeps(s: State, w: nat)
    requires Sound(s) && Holds(s, w)
    ensures Sound(Destroyed(s, w))
  {
    assert WrapperOk(s, w);
    if HasBlock(s, w) && !s.wrappers[w].closed {
      ClosedByKeeps(s, w);
      ReleasedKeeps(ClosedBy(s, w), w);
      DiedKeeps(Released(ClosedBy(s, w), w), w);
    } else if !HasBlock(s, w) {
      DiedKeeps(s, w);
    } else {
      FreedKeeps(s, w);
    }
  }

  lemma DiedKeeps(s: State, w: nat)
    requires Sound(s) && Holds(s, w) && s.wrappers[w] == EMPTY
    ensures Sound(s.(wrappers := s.wrappers[w := Wrapper(false, -1, true)]))
  {
    var t := s.(wrappers := s.wrappers[w := Wrapper(false, -1, true)]);
    forall k | 0 <= k < |t.wrappers| ensures WrapperOk(t, k) {
      assert WrapperOk(s, k);
    }
    forall k | 0 <= k < |t.blocks| ensures BlockOk(t, k) {
      assert BlockOk(s, k);
    }
  }

  lemma FreedKeeps(s: State, w: nat)
    requires Sound(s) && HasBlock(s, w) && s.wrappers[w].closed
    ensures Sound(Destroyed(s, w))
    ensures !s.blocks[s.wrappers[w].handle].freed && s.blocks[s.wrappers[w].handle].phase == Closed
  {
    var t := Destroyed(s, w);
    assert WrapperOk(s, w);
    forall k | 0 <= k < |t.wrappers| ensures WrapperOk(t, k) {
      assert WrapperOk(s, k);
    }
    forall k | 0 <= k < |t.blocks| ensures BlockOk(t, k) {
      assert BlockOk(s, k);
    }
  }

  lemma FinishedKeeps(s: State, b: nat)
    requires Sound(s) && IsClosing(s, b)
    ensures Sound(Finished(s, b))
  {
    var t := Finished(s, b);
    assert BlockOk(s, b);
    forall k | 0 <= k < |t.wrappers| ensures WrapperOk(t, k) {
      assert WrapperOk(s, k);
    }
    forall k | 0 <= k < |t.blocks| ensures BlockOk(t, k) {
      assert BlockOk(s, k);
    }
  }

  lemma AfterKeeps(s: State, op: Op)
    requires Sound(s) && Possible(s, op)
    ensures Sound(After(s, op))
  {
    match op {
      case Construct => ConstructedKeeps(s);
      case Move(w) => MovedKeeps(s, w);
      case Assign(w, org) => AssignedKeeps(s, w, org);
      case Close(w) => ClosedByKeeps(s, w);
      case Destroy(w) => DestroyedKeeps(s, w);
      case ForceClose(b) => StartedCloseKeeps(s, b);
      case Finish(b) => FinishedKeeps(s, b);
    }
  }

  lemma {:induction false} RunSound(ops: seq<Op>)
    ensures Sound(Run(ops).s)
    decreases |ops|
  {
    if ops != [] {
      var c := Run(ops[..|ops| - 1]);
      RunSound(ops[..|ops| - 1]);
      if Possible(c.s, ops[|ops| - 1]) {
        AfterKeeps(c.s, ops[|ops| - 1]);
      }
    }
  }

  // ---- what an operation does to the memory ----

  /** The wrapper that owns the block. */
  ghost predicate Owns(s: State, w: nat, b: nat) { Holds(s, w) && s.wrappers[w].handle == b }

  /**
    OnClose goes to the wrapper that owns the block at that moment, and only when there is no owner the memory is given
    back at once.
  */
  lemma FinishTells(s: State, b: nat)
    requires Sound(s) && IsClosing(s, b)
    ensures forall w: nat :: NoticeOf(s, Finish(b)) == [OnClose(b, w)] <==> Owns(s, w, b)
    ensures NoticeOf(s, Finish(b)) == [Free(b)] <==> s.blocks[b].data == -1
    ensures s.blocks[b].data == -1 <==> forall w :: 0 <= w < |s.wrappers| ==> !Owns(s, w, b)
  {
    assert BlockOk(s, b);
    forall w: nat | Owns(s, w, b) ensures s.blocks[b].data == w {
      assert WrapperOk(s, w);
    }
    if s.blocks[b].data != -1 {
      assert Owns(s, s.blocks[b].data, b);
    }
  }

  /** Memory is given back only after libuv has closed the handle, not twice, and by nothing but what the log says. */
  lemma FreesClosed(s: State, op: Op)
    requires Sound(s) && Possible(s, op)
    ensures |After(s, op).blocks| == |s.blocks| + if op.Construct? then 1 else 0
    ensures forall b :: 0 <= b < |s.blocks| ==>
              (After(s, op).blocks[b].freed <==> s.blocks[b].freed || Free(b) in NoticeOf(s, op))
    ensures forall b: nat :: Free(b) in NoticeOf(s, op) ==>
              b < |s.blocks| && !s.blocks[b].freed && After(s, op).blocks[b].phase == Closed
    ensures op.Construct? ==> !After(s, op).blocks[|s.blocks|].freed
  {
    match op {
      case Destroy(w) =>
        assert WrapperOk(s, w);
        if HasBlock(s, w) && s.wrappers[w].closed {
          FreedKeeps(s, w);
        }
      case Finish(b) => assert BlockOk(s, b);
      case _ =>
    }
  }

  /** A handle counts as closed from the moment that libuv has finished with it. */
  lemma ClosesOnce(s: State, op: Op)
    requires Sound(s) && Possible(s, op)
    ensures forall b :: 0 <= b < |s.blocks| ==> (After(s, op).blocks[b].phase == Closed <==> s.blocks[b].phase == Closed || op == Finish(b))
    ensures forall b: nat, w: nat :: OnClose(b, w) in NoticeOf(s, op) ==> op == Finish(b) && Owns(s, w, b) && s.blocks[b].phase == Closing
  {
    match op {
      case Finish(b) => FinishTells(s, b);
      case Destroy(w) => assert WrapperOk(s, w);
      case _ =>
    }
  }

  lemma LetGoLoses(s: State, w: nat)
    requires Sound(s) && Holds(s, w)
    ensures |LetGo(s, w).blocks| == |s.blocks|
    ensures forall b :: 0 <= b < |s.blocks| ==>
              (LetGo(s, w).blocks[b].lost <==> s.blocks[b].lost || (Owns(s, w, b) && s.wrappers[w].closed))
  {
    assert WrapperOk(s, w);
    assert HasBlock(s, w) ==> BlockOk(s, s.wrappers[w].handle);
  }

  /** A block is lost by a move assignment over a wrapper that has been closed, by nothing else, and for ever. */
  lemma LosesExactly(s: State, op: Op)
    requires Sound(s) && Possible(s, op)
    ensures forall b :: 0 <= b < |s.blocks| ==>
              (After(s, op).blocks[b].lost <==>
               s.blocks[b].lost || (op.Assign? && Owns(s, op.w, b) && s.wrappers[op.w].closed))
  {
    match op {
      case Assign(w, org) => LetGoLoses(s, w);
      case Destroy(w) =>
        assert WrapperOk(s, w);
        assert HasBlock(s, w) ==> BlockOk(s, s.wrappers[w].handle);
      case Finish(b) => assert BlockOk(s, b);
      case _ =>
    }
  }

  // ---- what a run does to the memory ----

  /** Of two notices about the same block, the first is OnClose and the second gives its memory back. */
  ghost predicate InOrder(log: seq<Notice>) {
    forall i, j :: 0 <= i < j < |log| && log[i].b == log[j].b ==> log[i].OnClose? && log[j].Free?
  }

  ghost predicate LogOk(c: Course) {
    && InOrder(c.log)
    && (forall b: nat :: Free(b) in c.log <==> b < |c.s.blocks| && c.s.blocks[b].freed)
    && (forall n :: n in c.log ==> n.b < |c.s.blocks| && c.s.blocks[n.b].phase == Closed)
  }

  lemma FurtherLogged(c: Course, op: Op)
    requires Sound(c.s) && LogOk(c) && Possible(c.s, op)
    ensures LogOk(Further(c, op))
  {
    var d, more := Further(c, op), NoticeOf(c.s, op);
    FreesClosed(c.s, op);
    ClosesOnce(c.s, op);
    if more != [] {
      assert more[0] in more;
      forall i | 0 <= i < |c.log| && c.log[i].b == more[0].b ensures c.log[i].OnClose? && more[0].Free? {
        assert c.log[i] in c.log;
      }
    }
    forall n | n in d.log ensures n.b < |d.s.blocks| && d.s.blocks[n.b].phase == Closed {
      assert n in c.log || n in more;
    }
  }

  /** Over any run no block is freed twice, none before it is closed, and OnClose comes at most once and not after that. */
  lemma {:induction false} RunLogged(ops: seq<Op>)
    ensures LogOk(Run(ops))
    decreases |ops|
  {
    if ops != [] {
      var c := Run(ops[..|ops| - 1]);
      RunSound(ops[..|ops| - 1]);
      RunLogged(ops[..|ops| - 1]);
      if Possible(c.s, ops[|ops| - 1]) {
        FurtherLogged(c, ops[|ops| - 1]);
      }
    }
  }

  /** The memory of a lost block is never given back. */
  lemma {:induction false} LostForEver(ops: seq<Op>, n: nat, b: nat)
    requires n <= |ops| && b < |Run(ops[..n]).s.blocks| && Run(ops[..n]).s.blocks[b].lost
    ensures b < |Run(ops).s.blocks| && Run(ops).s.blocks[b].lost && Free(b) !in Run(ops).log
    decreases |ops|
  {
    RunSound(ops);
    RunLogged(ops);
    if n == |ops| {
      assert ops[..n] == ops;
    } else {
      var before := ops[..|ops| - 1];
      assert before[..n] == ops[..n];
      LostForEver(before, n, b);
      RunSound(before);
      if Possible(Run(before).s, ops[|ops| - 1]) {
        LosesExactly(Run(before).s, ops[|ops| - 1]);
        FreesClosed(Run(before).s, ops[|ops| - 1]);
      }
    }
    assert BlockOk(Run(ops).s, b);
  }

  lemma RunMore(ops: seq<Op>, op: Op)
    ensures Run(ops + [op]) == Further(Run(ops), op)
  {
    assert (ops + [op])[..|ops|] == ops;
  }

  /** A close, its end and then another wrapper assigned to the closed one get there. */
  lemma LeakReached()
    ensures var c := Run([Construct, Close(0), Finish(0), Construct, Assign(0, 1)]);
            c.s.blocks == [Block(-1, Closed, false, true), Block(0, Open, false, false)] && c.log == [OnClose(0, 0)]
  {
    var ops1, ops2, ops3 := [Construct], [Construct, Close(0)], [Construct, Close(0), Finish(0)];
    RunMore([], Construct);
    assert [] + [Construct] == ops1;
    RunMore(ops1, Close(0));
    assert ops1 + [Close(0)] == ops2;
    RunMore(ops2, Finish(0));
    assert ops2 + [Finish(0)] == ops3;
    var s3 := State([Wrapper(true, 0, true)], [Block(0, Closed, false, false)]);
    assert Run(ops3) == Course(s3, [OnClose(0, 0)]);
    RunMore(ops3, Construct);
    RunMore(ops3 + [Construct], Assign(0, 1));
    assert ops3 + [Construct] + [Assign(0, 1)] == [Construct, Close(0), Finish(0), Construct, Assign(0, 1)];
  }
}
