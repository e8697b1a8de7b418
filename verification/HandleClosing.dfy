/**
  Reference accounting and closing of handles: the macros of 3rd/libuv/src/uv-common.h, and uv_close and
  uv__run_closing_handles of 3rd/libuv/src/unix/core.c, for handle types that closing stops at once.
*/
module HandleClosing {
  import opened Sequences

  /** A uv_handle_t with its flags; calls is auxiliary and counts how often its close has been finished. */
  datatype Handle = Handle(active: bool, ref: bool, closing: bool, closed: bool, next: int, calls: nat)

  predicate Counts(x: Handle) { x.active && x.ref }

  /** The number of handles that are both active and referenced. */
  ghost function Count(hs: seq<Handle>): nat {
    if hs == [] then 0 else Count(hs[..|hs| - 1]) + if Counts(hs[|hs| - 1]) then 1 else 0
  }

  lemma {:induction false} CountSet(hs: seq<Handle>, h: nat, x: Handle)
    requires h < |hs|
    ensures Count(hs[h := x]) == Count(hs) + (if Counts(x) then 1 else 0) - (if Counts(hs[h]) then 1 else 0)
    ensures Counts(hs[h]) ==> Count(hs) > 0
  {
    var n := |hs| - 1;
    if h < n {
      assert hs[h := x][..n] == hs[..n][h := x];
      CountSet(hs[..n], h, x);
    } else {
      assert hs[h := x][..n] == hs[..n];
    }
  }

  // ---- the macros ----

  /** The flags of a handle and the change of active_handles that comes with them. */
  function Started(x: Handle): (Handle, int) {
    if x.active then (x, 0) else (x.(active := true), if x.ref then 1 else 0)
  }

  function Stopped(x: Handle): (Handle, int) {
    if !x.active then (x, 0) else (x.(active := false), if x.ref then -1 else 0)
  }

  function Referenced(x: Handle): (Handle, int) {
    if x.ref then (x, 0) else (x.(ref := true), if x.closing then 0 else if x.active then 1 else 0)
  }

  function Unreferenced(x: Handle): (Handle, int) {
    if !x.ref then (x, 0) else (x.(ref := false), if x.closing then 0 else if x.active then -1 else 0)
  }

  /** The change of active_handles is that of the number of active and referenced handles. */
  ghost predicate Accounts(x: Handle, change: (Handle, int)) {
    change.1 == (if Counts(change.0) then 1 else 0) - (if Counts(x) then 1 else 0)
  }

  /** uv__handle_ref and uv__handle_unref keep the account exactly for handles that are not active any more when they close. */
  lemma AccountsExactly(x: Handle)
    ensures Accounts(x, Started(x)) && Accounts(x, Stopped(x))
    ensures Accounts(x, Referenced(x)) <==> x.ref || !x.closing || !x.active
    ensures Accounts(x, Unreferenced(x)) <==> !x.ref || !x.closing || !x.active
  {
  }

  /** Element k of the list s is followed by the next one. */
  ghost predicate Follows(hs: seq<Handle>, s: seq<nat>, k: nat)
    requires k < |s|
  {
    s[k] < |hs| && hs[s[k]].next == if k + 1 < |s| then s[k + 1] else -1
  }

  /** The list from head on is s. */
  ghost predicate Chain(hs: seq<Handle>, head: int, s: seq<nat>) {
    && head == (if s == [] then -1 else s[0])
    && forall k :: 0 <= k < |s| ==> Follows(hs, s, k)
  }

  lemma ChainFrame(hs: seq<Handle>, hs': seq<Handle>, head: int, s: seq<nat>)
    requires Chain(hs, head, s) && |hs| <= |hs'|
    requires forall h :: h in s && h < |hs| ==> hs'[h].next == hs[h].next
    ensures Chain(hs', head, s)
  {
    forall k | 0 <= k < |s| ensures Follows(hs', s, k) {
      assert Follows(hs, s, k) && s[k] in s;
    }
  }

  lemma ChainBounded(hs: seq<Handle>, head: int, s: seq<nat>)
    requires Chain(hs, head, s)
    ensures forall h :: h in s ==> h < |hs|
  {
    forall h | h in s ensures h < |hs| {
      var k :| 0 <= k < |s| && s[k] == h;
      assert Follows(hs, s, k);
    }
  }

  /** A closing handle is not active, and until it is closed it waits on one of two lists. */
  ghost predicate HandleOk(hs: seq<Handle>, closing: seq<nat>, taken: seq<nat>, h: nat)
    requires h < |hs|
  {
    var x := hs[h];
    && (x.closing ==> !x.active) && (x.closed ==> x.closing) && x.calls == (if x.closed then 1 else 0)
    && (x.closing && !x.closed <==> h in closing || h in taken) && !(h in closing && h in taken)
  }

  ghost predicate HandlesOk(hs: seq<Handle>, closing: seq<nat>, taken: seq<nat>) {
    && Distinct(closing) && Distinct(taken)
    && forall h :: 0 <= h < |hs| ==> HandleOk(hs, closing, taken, h)
  }

  datatype Call = Start(h: nat) | Stop(h: nat) | Ref(h: nat) | Unref(h: nat) | Close(h: nat)

  // ---- what the callbacks do, and the closing of all handles that wait for it ----

  /** The handles, and those that wait to be closed; active_handles follows from them. */
  datatype State = State(handles: seq<Handle>, closing: seq<nat>)

  function CloseOf(s: State, h: nat): State
    requires h < |s.handles|
  {
    var first: int := if s.closing == [] then -1 else s.closing[0];
    State(s.handles[h := s.handles[h].(active := false, closing := true, next := first)], [h] + s.closing)
  }

  /** Handles that are closing are not started, and not closed again. */
  function Performed(s: State, call: Call): State {
    if call.h >= |s.handles| then s else
    var x := s.handles[call.h];
    match call
    case Start(h) => if x.closing then s else s.(handles := s.handles[h := x.(active := true)])
    case Stop(h) => s.(handles := s.handles[h := x.(active := false)])
    case Ref(h) => s.(handles := s.handles[h := x.(ref := true)])
    case Unref(h) => s.(handles := s.handles[h := x.(ref := false)])
    case Close(h) => if x.closing then s else CloseOf(s, h)
  }

  function PerformedAll(s: State, calls: seq<Call>): State {
    if calls == [] then s else Performed(PerformedAll(s, calls[..|calls| - 1]), calls[|calls| - 1])
  }

  /** uv__finish_close up to the callback. */
  function Finished(s: State, h: nat): State {
    if h >= |s.handles| then s
    else s.(handles := s.handles[h := s.handles[h].(closed := true, ref := false, calls := 1)])
  }

  function CallsOf(script: seq<seq<Call>>, n: nat): seq<Call> { if n < |script| then script[n] else [] }

  /** The handles of the list are finished one after the other, the n-th callback making the n-th calls. */
  function ClosedAll(s: State, list: seq<nat>, n: nat, script: seq<seq<Call>>): State
    decreases |list|
  {
    if list == [] then s else ClosedAll(PerformedAll(Finished(s, list[0]), CallsOf(script, n)), list[1..], n + 1, script)
  }

  class Loop {
    var handles: seq<Handle>
    var activeHandles: int
    var closingHandles: int
    ghost var closing: seq<nat>
    ghost var taken: seq<nat>

    constructor ()
      ensures Valid(-1) && handles == [] && taken == []
    {
      handles, activeHandles, closingHandles, closing, taken := [], 0, -1, [], [];
    }

    ghost function Now(): State
      reads this`handles, this`closing
    {
      State(handles, closing)
    }

    /** p leads to the handles that uv__run_closing_handles has taken over and not finished yet. */
    ghost predicate Valid(p: int)
      reads this
    {
      && activeHandles == Count(handles) && HandlesOk(handles, closing, taken)
      && Chain(handles, closingHandles, closing) && Chain(handles, p, taken)
    }

    // uv__handle_init.
    method Init(ghost p: int) returns (h: nat)
      requires Valid(p)
      modifies this`handles
      ensures Valid(p) && h == |old(handles)| && handles == old(handles) + [Handle(false, true, false, false, -1, 0)]
    {
      h := |handles|;
      ghost var was := handles;
      ChainBounded(was, closingHandles, closing);
      ChainBounded(was, p, taken);
      handles := handles + [Handle(false, true, false, false, -1, 0)];
      assert handles[..h] == was;
      ChainFrame(was, handles, closingHandles, closing);
      ChainFrame(was, handles, p, taken);
      forall k | 0 <= k < |handles| ensures HandleOk(handles, closing, taken, k) {
        assert k < h ==> HandleOk(was, closing, taken, k);
      }
    }

    // uv__handle_start. It takes a handle that is closing, too, but that one must not be started.
    method HandleStart(h: nat, ghost p: int)
      requires h < |handles|
      modifies this`handles, this`activeHandles
      ensures handles == old(handles)[h := old(handles)[h].(active := true)]
      ensures activeHandles == old(activeHandles) + Count(handles) - Count(old(handles))
      ensures old(Valid(p)) && !old(handles[h]).closing ==> Valid(p) && activeHandles >= 0
    {
      ghost var was := handles;
      CountSet(was, h, was[h].(active := true));
      if Valid(p) && !was[h].closing {
        FlagsChange(was, h, was[h].(active := true), closing, taken, closingHandles, p);
      }
      if handles[h].active {
        return;
      }
      handles := handles[h := handles[h].(active := true)];
      if handles[h].ref {
        activeHandles := activeHandles + 1;
      }
    }

    // uv__handle_stop.
    method HandleStop(h: nat, ghost p: int)
      requires h < |handles|
      modifies this`handles, this`activeHandles
      ensures handles == old(handles)[h := old(handles)[h].(active := false)]
      ensures activeHandles == old(activeHandles) + Count(handles) - Count(old(handles))
      ensures old(Valid(p)) ==> Valid(p) && activeHandles >= 0
    {
      ghost var was := handles;
      CountSet(was, h, was[h].(active := false));
      if Valid(p) {
        FlagsChange(was, h, was[h].(active := false), closing, taken, closingHandles, p);
      }
      if !handles[h].active {
        return;
      }
      handles := handles[h := handles[h].(active := false)];
      if handles[h].ref {
        activeHandles := activeHandles - 1;
      }
    }

    // uv__handle_ref. The account is kept unless the handle is active while it is closing.
    method HandleRef(h: nat, ghost p: int)
      requires h < |handles|
      modifies this`handles, this`activeHandles
      ensures handles == old(handles)[h := old(handles)[h].(ref := true)]
      ensures activeHandles == old(activeHandles) + (if handles[h].closing then 0 else Count(handles) - Count(old(handles)))
      ensures old(Valid(p)) ==> Valid(p) && activeHandles >= 0
    {
      ghost var was := handles;
      CountSet(was, h, was[h].(ref := true));
      if Valid(p) {
        assert HandleOk(was, closing, taken, h);
        FlagsChange(was, h, was[h].(ref := true), closing, taken, closingHandles, p);
      }
      if handles[h].ref {
        return;
      }
      handles := handles[h := handles[h].(ref := true)];
      if handles[h].closing {
        return;
      }
      if handles[h].active {
        activeHandles := activeHandles + 1;
      }
    }

    // uv__handle_unref.
    method HandleUnref(h: nat, ghost p: int)
      requires h < |handles|
      modifies this`handles, this`activeHandles
      ensures handles == old(handles)[h := old(handles)[h].(ref := false)]
      ensures activeHandles == old(activeHandles) + (if handles[h].closing then 0 else Count(handles) - Count(old(handles)))
      ensures old(Valid(p)) ==> Valid(p) && activeHandles >= 0
    {
      ghost var was := handles;
      CountSet(was, h, was[h].(ref := false));
      if Valid(p) {
        assert HandleOk(was, closing, taken, h);
        FlagsChange(was, h, was[h].(ref := false), closing, taken, closingHandles, p);
      }
      if !handles[h].ref {
        return;
      }
      handles := handles[h := handles[h].(ref := false)];
      if handles[h].closing {
        return;
      }
      if handles[h].active {
        activeHandles := activeHandles - 1;
      }
    }

    // uv_close up to uv__make_close_pending, whose assertions hold.
    method CloseHandle(h: nat, ghost p: int)
      requires Valid(p) && h < |handles| && !handles[h].closing
      modifies this`handles, this`activeHandles, this`closingHandles, this`closing
      ensures Valid(p) && Now() == CloseOf(old(Now()), h) && closing == [h] + old(closing)
      ensures handles == old(handles)[h := old(handles)[h].(active := false, closing := true, next := old(closingHandles))]
    {
      ghost var was := handles;
      assert HandleOk(was, closing, taken, h);
      ghost var x := handles[h].(active := false, closing := true, next := closingHandles);
      CountSet(handles, h, x);
      handles := handles[h := handles[h].(closing := true)];
      var stopped := Stopped(handles[h]);
      handles, activeHandles := handles[h := stopped.0], activeHandles + stopped.1;
      assert handles[h].closing && !handles[h].closed;
      handles := handles[h := handles[h].(next := closingHandles)];
      closingHandles := h;
      assert handles == was[h := x];
      ChainFrame(was, handles, p, taken);
      ClosedChain(was, handles, h, closing);
      closing := [h] + closing;
      forall k | 0 <= k < |handles| ensures HandleOk(handles, closing, taken, k) {
        assert HandleOk(was, closing[1..], taken, k);
        assert k in closing <==> k == h || k in closing[1..];
      }
    }

    // One call out of a close callback.
    method Perform(call: Call, ghost p: int)
      requires Valid(p)
      modifies this`handles, this`activeHandles, this`closingHandles, this`closing
      ensures Valid(p) && Now() == Performed(old(Now()), call)
    {
      if call.h >= |handles| {
        return;
      }
      var h := call.h;
      match call {
        case Start(_) =>
          if !handles[h].closing {
            HandleStart(h, p);
          }
        case Stop(_) => HandleStop(h, p);
        case Ref(_) => HandleRef(h, p);
        case Unref(_) => HandleUnref(h, p);
        case Close(_) =>
          if !handles[h].closing {
            CloseHandle(h, p);
          }
      }
    }

    method Callback(calls: seq<Call>, ghost p: int)
      requires Valid(p)
      modifies this`handles, this`activeHandles, this`closingHandles, this`closing
      ensures Valid(p) && Now() == PerformedAll(old(Now()), calls)
    {
      for n := 0 to |calls|
        invariant Valid(p) && Now() == PerformedAll(old(Now()), calls[..n])
      {
        Perform(calls[n], p);
        assert calls[..n + 1][..n] == calls[..n];
      }
      assert calls[..|calls|] == calls;
    }

    // uv__finish_close up to the callback. Its assertions hold.
    method Finish(h: nat)
      requires Valid(h) && taken != []
      modifies this`handles, this`activeHandles, this`taken
      ensures h == old(taken)[0] && h < |old(handles)| && Valid(old(handles)[h].next) && taken == old(taken)[1..]
      ensures Now() == Finished(old(Now()), h)
    {
      ghost var was, t := handles, taken;
      FirstTaken(was, closing, t, h);
      ghost var x := was[h].(closed := true, ref := false, calls := 1);
      CountSet(handles, h, x);
      assert handles[h].closing && !handles[h].closed;
      handles := handles[h := handles[h].(closed := true, calls := handles[h].calls + 1)];
      var unref := Unreferenced(handles[h]);
      handles, activeHandles := handles[h := unref.0], activeHandles + unref.1;
      assert handles == was[h := x];
      ChainFrame(was, handles, closingHandles, closing);
      TailChain(was, handles, t);
      TakenOk(was, handles, closing, t, h);
      taken := t[1..];
    }

    // uv__run_closing_handles. Whoever was closed before gets its callback, once; whoever is closed meanwhile waits.
    method RunClosingHandles(script: seq<seq<Call>>) returns (called: seq<nat>)
      requires Valid(-1) && taken == []
      modifies this
      ensures Valid(-1) && taken == [] && called == old(closing)
      ensures Now() == ClosedAll(State(old(handles), []), old(closing), 0, script)
      ensures forall h :: h in called ==> h < |handles| && handles[h].closed && handles[h].calls == 1
      ensures forall h :: h in closing ==> h !in called
    {
      var p := closingHandles;
      closingHandles := -1;
      SwapLists(handles, closing);
      taken, closing := closing, [];
      called := FinishAll(p, script);
      ClosedOnce(handles, closing, called);
    }

    method FinishAll(p0: int, script: seq<seq<Call>>) returns (called: seq<nat>)
      requires Valid(p0)
      modifies this
      ensures Valid(-1) && taken == [] && called == old(taken)
      ensures Now() == ClosedAll(old(Now()), old(taken), 0, script)
      ensures forall h :: h in called ==> h < |handles| && handles[h].closed
    {
      var p := p0;
      called := [];
      while p != -1
        invariant Valid(p) && called + taken == old(taken)
        invariant ClosedAll(Now(), taken, |called|, script) == ClosedAll(old(Now()), old(taken), 0, script)
        invariant forall h :: h in called ==> h < |handles| && handles[h].closed
        decreases |taken|
      {
        ghost var was := taken;
        var h, q := Round(p, CallsOf(script, |called|));
        assert called + [h] + taken == called + was;
        called := called + [h];
        p := q;
      }
    }

    method Round(p: int, calls: seq<Call>) returns (h: nat, q: int)
      requires Valid(p) && p != -1
      modifies this`handles, this`activeHandles, this`closingHandles, this`closing, this`taken
      ensures old(taken) != [] && h == old(taken)[0] && taken == old(taken)[1..] && Valid(q)
      ensures Now() == PerformedAll(Finished(old(Now()), h), calls)
      ensures h < |old(handles)| == |handles| && handles[h].closed
      ensures forall k :: 0 <= k < |handles| && old(handles)[k].closed ==> handles[k].closed
    {
      FirstTaken(handles, closing, taken, p);
      h := p;
      q := handles[h].next;
      assert taken == [h] + taken[1..];
      ClosedStays(Finished(Now(), h), calls);
      Finish(h);
      Callback(calls, q);
    }
  }

  lemma ClosedOnce(hs: seq<Handle>, closing: seq<nat>, called: seq<nat>)
    requires HandlesOk(hs, closing, []) && forall h :: h in called ==> h < |hs| && hs[h].closed
    ensures forall h :: h in called ==> hs[h].calls == 1 && h !in closing
  {
    forall h | h in called ensures hs[h].calls == 1 && h !in closing {
      assert HandleOk(hs, closing, [], h);
    }
  }

  /** No call takes a handle away or back. */
  lemma {:induction false} ClosedStays(s: State, calls: seq<Call>)
    ensures |PerformedAll(s, calls).handles| == |s.handles|
    ensures forall h :: 0 <= h < |s.handles| ==> PerformedAll(s, calls).handles[h].closed == s.handles[h].closed
    decreases |calls|
  {
    if calls != [] {
      ClosedStays(s, calls[..|calls| - 1]);
    }
  }

  /** A handle that is closed, then started, then unreferenced keeps the loop alive, although no handle counts any more. */
  method StartWhileClosing() returns (loop: Loop)
    ensures loop.activeHandles == 1 && Count(loop.handles) == 0 && |loop.handles| == 1
  {
    loop := new Loop();
    var h := loop.Init(-1);
    loop.CloseHandle(h, -1);
    loop.HandleStart(h, -1);
    assert loop.handles[..0] == [] && Count([]) == 0;
    assert Count(loop.handles) == 1;
    loop.HandleUnref(h, -1);
    assert loop.handles[..0] == [];
  }

  /** A change of the flags that are neither closing nor closed, and of no others. */
  lemma FlagsChange(hs: seq<Handle>, h: nat, x: Handle, closing: seq<nat>, taken: seq<nat>, head: int, p: int)
    requires HandlesOk(hs, closing, taken) && Chain(hs, head, closing) && Chain(hs, p, taken) && h < |hs|
    requires x == hs[h].(active := x.active, ref := x.ref) && (x.closing ==> !x.active)
    ensures HandlesOk(hs[h := x], closing, taken) && Chain(hs[h := x], head, closing) && Chain(hs[h := x], p, taken)
    ensures Count(hs[h := x]) == Count(hs) + (if Counts(x) then 1 else 0) - (if Counts(hs[h]) then 1 else 0)
  {
    var hs' := hs[h := x];
    CountSet(hs, h, x);
    ChainFrame(hs, hs', head, closing);
    ChainFrame(hs, hs', p, taken);
    forall k | 0 <= k < |hs'| ensures HandleOk(hs', closing, taken, k) {
      assert HandleOk(hs, closing, taken, k);
    }
  }

  lemma SwapLists(hs: seq<Handle>, closing: seq<nat>)
    requires HandlesOk(hs, closing, [])
    ensures HandlesOk(hs, [], closing)
  {
    forall k | 0 <= k < |hs| ensures HandleOk(hs, [], closing, k) {
      assert HandleOk(hs, closing, [], k);
    }
  }

  lemma FirstTaken(hs: seq<Handle>, closing: seq<nat>, t: seq<nat>, p: int)
    requires HandlesOk(hs, closing, t) && Chain(hs, p, t) && p != -1
    ensures t != [] && t[0] == p && 0 <= p < |hs| && p !in t[1..] && Follows(hs, t, 0)
    ensures hs[p].closing && !hs[p].closed && hs[p].calls == 0 && !hs[p].active
  {
    assert Follows(hs, t, 0);
    assert t == [t[0]] + t[1..] && t[0] in t;
    assert HandleOk(hs, closing, t, p);
  }

  lemma TakenOk(hs: seq<Handle>, hs': seq<Handle>, closing: seq<nat>, t: seq<nat>, h: nat)
    requires HandlesOk(hs, closing, t) && t != [] && t[0] == h < |hs|
    requires hs' == hs[h := hs[h].(closed := true, ref := false, calls := 1)]
    ensures HandlesOk(hs', closing, t[1..])
  {
    assert t == [h] + t[1..];
    assert h in t && h !in t[1..];
    forall k | 0 <= k < |hs'| ensures HandleOk(hs', closing, t[1..], k) {
      assert HandleOk(hs, closing, t, k) && HandleOk(hs, closing, t, h);
    }
  }

  lemma ClosedChain(hs: seq<Handle>, hs': seq<Handle>, h: nat, s: seq<nat>)
    requires Chain(hs, if s == [] then -1 else s[0], s) && h < |hs| == |hs'| && h !in s
    requires hs'[h].next == if s == [] then -1 else s[0]
    requires forall k :: 0 <= k < |hs| && k != h ==> hs'[k] == hs[k]
    ensures Chain(hs', h, [h] + s) && Distinct([h] + s) == Distinct(s)
  {
    ChainFrame(hs, hs', if s == [] then -1 else s[0], s);
    forall k | 0 <= k < |s| + 1 ensures Follows(hs', [h] + s, k) {
      assert k > 0 ==> Follows(hs', s, k - 1);
    }
    assert Distinct([h] + s) ==> forall i :: 0 <= i < |s| ==> s[i] == ([h] + s)[i + 1];
  }

  lemma TailChain(hs: seq<Handle>, hs': seq<Handle>, t: seq<nat>)
    requires t != [] && (forall k :: 0 <= k < |t| ==> Follows(hs, t, k)) && |hs'| == |hs|
    requires forall h :: 0 <= h < |hs| ==> hs'[h].next == hs[h].next
    ensures t[0] < |hs| && Chain(hs', hs[t[0]].next, t[1..])
  {
    assert Follows(hs, t, 0);
    forall k | 0 <= k < |t| - 1 ensures Follows(hs', t[1..], k) {
      assert Follows(hs, t, k + 1);
    }
  }
}
