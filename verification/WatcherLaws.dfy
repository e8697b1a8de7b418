/** What the calls of a callback do to the lists of a pass, and what a pass is made of, round by round. */
module WatcherLaws {
  import opened Rings
  import opened Sequences
  import opened Turns
  import opened WatcherPasses

  /** What a call does; there are calls only for handles that have been initialized. */
  ghost predicate Acts(l: Lists, t: Lists, call: Call, handles: set<Link>) {
    var listed := call.q in l.waiting || call.q in l.moved;
    if call.q !in handles then t == l
    else if call.Stop? then Dropped(l.waiting, t.waiting, call.q) && Dropped(l.moved, t.moved, call.q)
    else if listed || (call.Start? && !call.hasCallback) then t == l
    else
      && t.moved == l.moved && |t.waiting| == |l.waiting| + 1
      && if call.Start? then t.waiting[0] == call.q && t.waiting[1..] == l.waiting
         else t.waiting[|l.waiting|] == call.q && t.waiting[..|l.waiting|] == l.waiting
  }

  /** On two lists that share nothing. */
  ghost predicate Apart(l: Lists) { Distinct(l.waiting) && Distinct(l.moved) && Disjoint(l.waiting, l.moved) }

  lemma PerformedActs(l: Lists, call: Call, handles: set<Link>)
    requires Apart(l)
    ensures Acts(l, Performed(l, call, handles), call, handles) && Apart(Performed(l, call, handles))
  {
    if call.Stop? {
      MinusDrops(l.waiting, call.q);
      MinusDrops(l.moved, call.q);
      MinusElements(l.waiting, {call.q});
      MinusElements(l.moved, {call.q});
      var t := Performed(l, call, handles);
      forall x | x in t.waiting ensures x !in t.moved {
        assert x in Elements(t.waiting);
        assert x in t.moved ==> x in Elements(t.moved);
      }
    }
  }

  ghost predicate ActsAt(moments: seq<Lists>, calls: seq<Call>, handles: set<Link>, k: nat)
    requires k < |calls| < |moments|
  {
    Acts(moments[k], moments[k + 1], calls[k], handles)
  }

  /** The calls lead from l to t, one after the other. */
  ghost predicate LeadsTo(moments: seq<Lists>, calls: seq<Call>, handles: set<Link>, l: Lists, t: Lists) {
    && |moments| == |calls| + 1 && moments[0] == l && moments[|calls|] == t
    && forall k :: 0 <= k < |calls| ==> ActsAt(moments, calls, handles, k)
  }

  /** A callback makes all of its calls, one after the other, and nothing else happens to the lists. */
  lemma {:induction false} CallbackActs(l: Lists, calls: seq<Call>, handles: set<Link>) returns (moments: seq<Lists>)
    requires Apart(l)
    ensures LeadsTo(moments, calls, handles, l, PerformedAll(l, calls, handles)) && Apart(PerformedAll(l, calls, handles))
    decreases |calls|
  {
    if calls == [] {
      moments := [l];
    } else {
      var before := calls[..|calls| - 1];
      var earlier := CallbackActs(l, before, handles);
      PerformedActs(PerformedAll(l, before, handles), calls[|calls| - 1], handles);
      moments := earlier + [PerformedAll(l, calls, handles)];
      forall k | 0 <= k < |calls| ensures ActsAt(moments, calls, handles, k) {
        assert k < |before| ==> ActsAt(earlier, before, handles, k);
      }
    }
  }

  /**
    A round with n callbacks before it: the first handle goes to the end of the list; then it is called, and the
    callback makes the calls that the script has for it, unless the handle is one to skip.
  */
  ghost predicate RoundActs(l: Lists, moments: seq<Lists>, n: nat, script: seq<seq<Call>>, skip: set<Link>, handles: set<Link>, t: Lists)
    requires l.moved != []
  {
    LeadsTo(moments, if l.moved[0] !in skip && n < |script| then script[n] else [], handles,
            Lists(l.waiting + [l.moved[0]], l.moved[1..]), t)
  }

  lemma TurnActs(l: Lists, n: nat, script: seq<seq<Call>>, skip: set<Link>, handles: set<Link>) returns (moments: seq<Lists>)
    requires Apart(l) && l.moved != []
    ensures var calls := if n < |script| then script[n] else [];
            RoundActs(l, moments, n, script, skip, handles, Turn(l, calls, skip, handles)) && Apart(Turn(l, calls, skip, handles))
  {
    var q, t := l.moved[0], Lists(l.waiting + [l.moved[0]], l.moved[1..]);
    assert l.moved == [q] + l.moved[1..];
    assert forall k :: 0 <= k < |t.moved| ==> t.moved[k] == l.moved[k + 1];
    assert forall k :: 0 <= k < |l.waiting| ==> t.waiting[k] == l.waiting[k] && l.waiting[k] in l.waiting;
    assert q in l.moved && q !in t.moved;
    moments := CallbackActs(t, if q !in skip && n < |script| then script[n] else [], handles);
  }

  ghost predicate StepAt(rounds: seq<Lists>, within: seq<seq<Lists>>, count: seq<nat>, script: seq<seq<Call>>, skip: set<Link>,
                         handles: set<Link>, k: nat)
    requires k < |within| == |rounds| - 1 && |count| == |rounds|
  {
    && rounds[k].moved != [] && RoundActs(rounds[k], within[k], count[k], script, skip, handles, rounds[k + 1])
    && count[k + 1] == if rounds[k].moved[0] in skip then count[k] else count[k] + 1
  }

  lemma StepsLater(l: Lists, moments: seq<Lists>, n: nat, later: seq<Lists>, after: seq<seq<Lists>>, counts: seq<nat>,
                   script: seq<seq<Call>>, skip: set<Link>, handles: set<Link>)
    requires |later| == |counts| == |after| + 1
    requires forall k :: 0 <= k < |after| ==> StepAt(later, after, counts, script, skip, handles, k)
    requires StepAt([l] + later, [moments] + after, [n] + counts, script, skip, handles, 0)
    ensures forall k :: 0 <= k < |after| + 1 ==> StepAt([l] + later, [moments] + after, [n] + counts, script, skip, handles, k)
  {
    forall k | 0 <= k < |after| + 1 ensures StepAt([l] + later, [moments] + after, [n] + counts, script, skip, handles, k) {
      assert k > 0 ==> StepAt(later, after, counts, script, skip, handles, k - 1);
    }
  }

  /** A pass takes one round after the other until nobody is left to come to. */
  lemma {:induction false} SweptActs(l: Lists, n: nat, script: seq<seq<Call>>, skip: set<Link>, handles: set<Link>)
    returns (rounds: seq<Lists>, within: seq<seq<Lists>>, count: seq<nat>)
    requires Apart(l)
    ensures |rounds| == |count| == |within| + 1 && rounds[0] == l && count[0] == n
    ensures rounds[|within|] == Swept(l, n, script, skip, handles) && rounds[|within|].moved == []
    ensures forall k :: 0 <= k < |within| ==> StepAt(rounds, within, count, script, skip, handles, k)
    decreases |l.moved|
  {
    if l.moved == [] {
      rounds, within, count := [l], [], [n];
    } else {
      var calls, more := CallsOf(script, n), if l.moved[0] in skip then n else n + 1;
      var moments := TurnActs(l, n, script, skip, handles);
      TurnMoves(l, calls, skip, handles);
      var later, after, counts := SweptActs(Turn(l, calls, skip, handles), more, script, skip, handles);
      rounds, within, count := [l] + later, [moments] + after, [n] + counts;
      StepsLater(l, moments, n, later, after, counts, script, skip, handles);
    }
  }
}
