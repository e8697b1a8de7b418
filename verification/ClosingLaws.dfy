/** What the callbacks of uv__run_closing_handles do to the handles, flag by flag, and what its rounds are made of. */
module ClosingLaws {
  import opened HandleClosing
  import opened Moments

  /** All handles but h are as before. */
  ghost predicate OnlyHandle(a: seq<Handle>, b: seq<Handle>, h: nat) {
    |b| == |a| && forall k :: 0 <= k < |a| && k != h ==> b[k] == a[k]
  }

  /** What a call does; a handle that is closing is not started and not closed again. */
  ghost predicate Acts(s: State, t: State, call: Call) {
    if call.h >= |s.handles| then t == s
    else
      && OnlyHandle(s.handles, t.handles, call.h)
      && FlagsAfter(s.handles[call.h], t.handles[call.h], call)
      && (t.closing == if call.Close? && !s.handles[call.h].closing then [call.h] + s.closing else s.closing)
  }

  /** Closing stops a handle and leaves it referenced or not, as it was. */
  ghost predicate FlagsAfter(x: Handle, y: Handle, call: Call) {
    && y.closed == x.closed && y.calls == x.calls
    && (y.closing <==> x.closing || call.Close?)
    && (y.active <==> (x.active || (call.Start? && !x.closing)) && !call.Stop? && (call.Close? ==> x.closing))
    && (y.ref <==> (x.ref || call.Ref?) && !call.Unref?)
    && (y.next == x.next || (call.Close? && !x.closing))
  }

  lemma PerformedActs(s: State, call: Call)
    ensures Acts(s, Performed(s, call), call)
  {
  }

  // ---- callbacks ----

  /** A callback makes all of its calls, in their order, and nothing else happens to the handles. */
  lemma {:induction false} CallbackActs(s: State, calls: seq<Call>)
    ensures Makes(Acts, calls, s, PerformedAll(s, calls))
    decreases |calls|
  {
    if calls == [] {
      MakesNone(Acts, s);
    } else {
      var before := calls[..|calls| - 1];
      CallbackActs(s, before);
      PerformedActs(PerformedAll(s, before), calls[|calls| - 1]);
      MakesLast(Acts, calls, s, PerformedAll(s, before), PerformedAll(s, calls));
    }
  }

  // ---- rounds ----

  /** What uv__finish_close does before the callback: the handle is closed, does not hold the loop, and is told once. */
  ghost predicate FinishActs(s: State, t: State, h: nat) {
    if h >= |s.handles| then t == s
    else
      && OnlyHandle(s.handles, t.handles, h) && t.closing == s.closing
      && t.handles[h] == Handle(s.handles[h].active, false, s.handles[h].closing, true, s.handles[h].next, 1)
  }

  /** Round k finishes handle k of the list, and its callback makes the calls that the script has for it. */
  ghost predicate RoundActs(rounds: seq<State>, told: seq<State>, list: seq<nat>, n: nat, script: seq<seq<Call>>, k: nat)
    requires k < |list| == |told| && |rounds| == |list| + 1
  {
    && FinishActs(rounds[k], told[k], list[k])
    && Makes(Acts, if n + k < |script| then script[n + k] else [], told[k], rounds[k + 1])
  }

  /** uv__run_closing_handles takes one round for each handle of the list, in the order of the list. */
  lemma {:induction false} ClosingActs(s: State, list: seq<nat>, n: nat, script: seq<seq<Call>>)
    returns (rounds: seq<State>, told: seq<State>)
    ensures |rounds| == |list| + 1 && |told| == |list|
    ensures rounds[0] == s && rounds[|list|] == ClosedAll(s, list, n, script)
    ensures forall k :: 0 <= k < |list| ==> RoundActs(rounds, told, list, n, script, k)
    decreases |list|
  {
    if list == [] {
      rounds, told := [s], [];
    } else {
      var m := Finished(s, list[0]);
      var t := PerformedAll(m, CallsOf(script, n));
      CallbackActs(m, CallsOf(script, n));
      var later, after := ClosingActs(t, list[1..], n + 1, script);
      rounds, told := [s] + later, [m] + after;
      forall k | 0 <= k < |list| ensures RoundActs(rounds, told, list, n, script, k) {
        if k > 0 {
          assert RoundActs(later, after, list[1..], n + 1, script, k - 1);
        }
      }
    }
  }
}
