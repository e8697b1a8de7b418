/** The moments between the calls that a callback makes one after the other. */
module Moments {

  ghost predicate ActsAt<S, C>(acts: (S, S, C) -> bool, moments: seq<S>, calls: seq<C>, k: nat)
    requires k < |calls| < |moments|
  {
    acts(moments[k], moments[k + 1], calls[k])
  }

  /** The first moment is s, each call leads from one to the next, and the last is t; acts says what a call does. */
  ghost predicate LeadsTo<S, C>(acts: (S, S, C) -> bool, moments: seq<S>, calls: seq<C>, s: S, t: S) {
    && |moments| == |calls| + 1 && moments[0] == s && moments[|calls|] == t
    && forall k :: 0 <= k < |calls| ==> ActsAt(acts, moments, calls, k)
  }

  lemma LeadsFurther<S, C>(acts: (S, S, C) -> bool, moments: seq<S>, calls: seq<C>, s: S, m: S, t: S, call: C)
    requires LeadsTo(acts, moments, calls, s, m) && acts(m, t, call)
    ensures LeadsTo(acts, moments + [t], calls + [call], s, t)
  {
    forall k | 0 <= k < |calls| + 1 ensures ActsAt(acts, moments + [t], calls + [call], k) {
      assert k < |calls| ==> ActsAt(acts, moments, calls, k);
    }
  }

  /** All of the calls are made, in their order, and they lead from s to t. */
  ghost predicate Makes<S(!new), C>(acts: (S, S, C) -> bool, calls: seq<C>, s: S, t: S) {
    exists moments: seq<S> :: LeadsTo(acts, moments, calls, s, t)
  }

  lemma MakesNone<S(!new), C>(acts: (S, S, C) -> bool, s: S)
    ensures Makes(acts, [], s, s)
  {
    assert LeadsTo(acts, [s], [], s, s);
  }

  lemma MakesNothing<S(!new), C>(acts: (S, S, C) -> bool, s: S, t: S)
    requires Makes(acts, [], s, t)
    ensures s == t
  {
  }

  /** The first call leads from s to m, and the calls after it to t. */
  lemma MakesFirst<S(!new), C>(acts: (S, S, C) -> bool, calls: seq<C>, s: S, m: S, t: S)
    requires calls != [] && acts(s, m, calls[0]) && Makes(acts, calls[1..], m, t)
    ensures Makes(acts, calls, s, t)
  {
    var moments: seq<S> :| LeadsTo(acts, moments, calls[1..], m, t);
    forall k | 0 <= k < |calls| ensures ActsAt(acts, [s] + moments, calls, k) {
      assert k > 0 ==> ActsAt(acts, moments, calls[1..], k - 1);
    }
    assert LeadsTo(acts, [s] + moments, calls, s, t);
  }

  /** The calls before the last one lead from s to m, and the last one to t. */
  lemma MakesLast<S(!new), C>(acts: (S, S, C) -> bool, calls: seq<C>, s: S, m: S, t: S)
    requires calls != [] && Makes(acts, calls[..|calls| - 1], s, m) && acts(m, t, calls[|calls| - 1])
    ensures Makes(acts, calls, s, t)
  {
    var before := calls[..|calls| - 1];
    var moments: seq<S> :| LeadsTo(acts, moments, before, s, m);
    LeadsFurther(acts, moments, before, s, m, t, calls[|calls| - 1]);
    assert before + [calls[|calls| - 1]] == calls;
  }
}
