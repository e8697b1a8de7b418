/**
  Taking turns in a list whose members may be taken out by those who have their turn: what the passes over queues
  with QUEUE_MOVE come to.
*/
module Turns {
  import opened Sequences

  ghost function Elements<T>(s: seq<T>): set<T> { set q | q in s }

  ghost predicate Disjoint<T>(a: seq<T>, b: seq<T>) { forall q :: q in a ==> q !in b }

  ghost function Minus<T>(s: seq<T>, gone: set<T>): seq<T> {
    if s == [] then [] else (if s[0] in gone then [] else [s[0]]) + Minus(s[1..], gone)
  }

  lemma {:induction false} MinusElements<T>(s: seq<T>, gone: set<T>)
    requires Distinct(s)
    ensures Distinct(Minus(s, gone)) && Elements(Minus(s, gone)) == Elements(s) - gone
  {
    if s != [] {
      var first, rest := s[0], Minus(s[1..], gone);
      MinusElements(s[1..], gone);
      ElementsAppend([first], s[1..]);
      assert s == [first] + s[1..];
      assert first !in Elements(s[1..]);
      forall k | 0 <= k < |rest| ensures rest[k] != first {
        assert rest[k] in Elements(rest);
      }
      ElementsAppend(if first in gone then [] else [first], rest);
      assert Elements([first]) == {first};
    }
  }

  lemma ElementsAppend<T>(a: seq<T>, b: seq<T>)
    ensures Elements(a + b) == Elements(a) + Elements(b)
  {
  }

  lemma {:induction false} MinusAppend<T>(a: seq<T>, b: seq<T>, gone: set<T>)
    ensures Minus(a + b, gone) == Minus(a, gone) + Minus(b, gone)
  {
    if a == [] {
      assert a + b == b;
    } else {
      assert (a + b)[1..] == a[1..] + b;
      MinusAppend(a[1..], b, gone);
    }
  }

  lemma {:induction false} MinusMinus<T>(s: seq<T>, gone: set<T>, more: set<T>)
    ensures Minus(Minus(s, gone), more) == Minus(s, gone + more)
  {
    if s != [] {
      MinusMinus(s[1..], gone, more);
      MinusAppend(if s[0] in gone then [] else [s[0]], Minus(s[1..], gone), more);
    }
  }

  lemma {:induction false} MinusNone<T>(s: seq<T>, gone: set<T>)
    requires forall q :: q in s ==> q !in gone
    ensures Minus(s, gone) == s
  {
    if s != [] {
      assert s == [s[0]] + s[1..];
      MinusNone(s[1..], gone);
    }
  }

  lemma {:induction false} MinusAt<T>(s: seq<T>, k: nat)
    requires Distinct(s) && k < |s|
    ensures Minus(s, {s[k]}) == s[..k] + s[k + 1..]
    decreases k
  {
    if k == 0 {
      assert forall i :: 0 <= i < |s[1..]| ==> s[1..][i] == s[i + 1];
      MinusNone(s[1..], {s[0]});
    } else {
      MinusAt(s[1..], k - 1);
      assert [s[0]] + (s[1..][..k - 1] + s[1..][k..]) == s[..k] + s[k + 1..];
    }
  }

  /** b is a without q. */
  ghost predicate Dropped<T>(a: seq<T>, b: seq<T>, q: T) {
    if q in a then exists i :: 0 <= i < |a| && a[i] == q && b == a[..i] + a[i + 1..] else b == a
  }

  lemma MinusDrops<T>(s: seq<T>, q: T)
    requires Distinct(s)
    ensures Dropped(s, Minus(s, {q}), q)
  {
    if q in s {
      var i :| 0 <= i < |s| && s[i] == q;
      MinusAt(s, i);
    } else {
      MinusNone(s, {q});
    }
  }

  lemma StillDisjoint<T>(h: T, a: seq<T>, a': seq<T>, k: T, b: seq<T>, b': seq<T>)
    requires Disjoint([h] + a, [k] + b)
    requires Elements(a') <= Elements(a) && Elements(b') <= Elements(b)
    ensures Disjoint([h] + a', [k] + b')
  {
    assert forall q :: q in a' ==> q in Elements(a') && q in Elements(a);
    assert forall q :: q in b' ==> q in Elements(b') && q in Elements(b);
    forall q | q in [h] + a' ensures q !in [k] + b' {
      assert q in [h] + a by {
        assert q == h || q in a';
        assert ([h] + a)[0] == h;
      }
      assert q in [k] + b' ==> q in [k] + b by {
        assert q in [k] + b' ==> q == k || q in b';
        assert ([k] + b)[0] == k;
      }
    }
  }

  lemma {:induction false} MinusShorter<T>(s: seq<T>, gone: set<T>)
    ensures |Minus(s, gone)| <= |s|
  {
    if s != [] {
      MinusShorter(s[1..], gone);
    }
  }

  /** Removing one element from a queue is taking it out. */
  lemma {:induction false} WithoutIsMinus<T>(q: seq<T>, x: T)
    requires Distinct(q)
    ensures Without(q, x) == Minus(q, {x})
  {
    if q != [] {
      if q[0] == x {
        MinusNone(q[1..], {x});
      } else {
        WithoutIsMinus(q[1..], x);
      }
    }
  }

  // ---- turns ----

  /** Whom the n-th turn takes out. */
  ghost function OutBy<T>(outs: seq<set<T>>, n: nat): set<T> {
    if n < |outs| then outs[n] else {}
  }

  /**
    Who gets a turn, from the n-th turn on: the first of the list, and then whoever is left of the rest. The members
    of skip pass without a turn.
  */
  ghost function Served<T>(list: seq<T>, n: nat, outs: seq<set<T>>, skip: set<T>): seq<T>
    decreases |list|
  {
    if list == [] then []
    else if list[0] in skip then Served(list[1..], n, outs, skip)
    else
      MinusShorter(list[1..], OutBy(outs, n));
      [list[0]] + Served(Minus(list[1..], OutBy(outs, n)), n + 1, outs, skip)
  }

  /** Taking out keeps the order. */
  lemma {:induction false} MinusPlace<T>(s: seq<T>, gone: set<T>, i: nat)
    returns (j: nat)
    requires i < |s| && s[i] !in gone
    ensures j < |Minus(s, gone)| && Minus(s, gone)[j] == s[i] && j == |Minus(s[..i], gone)|
    decreases s
  {
    MinusAppend(s[..i], s[i..], gone);
    assert s == s[..i] + s[i..];
    j := |Minus(s[..i], gone)|;
  }

  lemma {:induction false} MinusOrigin<T>(s: seq<T>, gone: set<T>, j: nat) returns (i: nat)
    requires j < |Minus(s, gone)|
    ensures i < |s| && s[i] == Minus(s, gone)[j] && j == |Minus(s[..i], gone)| && s[i] !in gone
    decreases |s|
  {
    if s[0] in gone {
      i := MinusOrigin(s[1..], gone, j);
      assert s[..i + 1][1..] == s[1..][..i];
      i := i + 1;
    } else if j == 0 {
      i := 0;
    } else {
      i := MinusOrigin(s[1..], gone, j - 1);
      assert s[..i + 1][1..] == s[1..][..i];
      i := i + 1;
    }
  }

  lemma {:induction false} MinusMonotone<T>(s: seq<T>, gone: set<T>, i: nat, j: nat)
    requires i <= j <= |s|
    ensures |Minus(s[..i], gone)| <= |Minus(s[..j], gone)|
  {
    MinusAppend(s[..i], s[i..j], gone);
    assert s[..j] == s[..i] + s[i..j];
  }

  /** Turn k goes to member m, and it takes member i, which comes later, out. */
  ghost predicate TakenOut<T>(list: seq<T>, n: nat, outs: seq<set<T>>, skip: set<T>, i: nat, k: nat, m: nat) {
    && m < i < |list| && k < |Served(list, n, outs, skip)|
    && Served(list, n, outs, skip)[k] == list[m] && list[i] in OutBy(outs, n + k)
  }

  /** Whoever misses a turn was taken out by the turn of somebody earlier in the list. */
  lemma {:induction false} MissedOnlyIfOut<T>(list: seq<T>, n: nat, outs: seq<set<T>>, skip: set<T>, i: nat)
    returns (k: nat, m: nat)
    requires Distinct(list) && i < |list| && list[i] !in skip && list[i] !in Served(list, n, outs, skip)
    ensures TakenOut(list, n, outs, skip, i, k, m)
    decreases |list|
  {
    var q, rest, out := list[0], list[1..], OutBy(outs, n);
    if q in skip {
      assert forall x :: 0 <= x < |rest| ==> rest[x] == list[x + 1];
      k, m := MissedOnlyIfOut(rest, n, outs, skip, i - 1);
      m := m + 1;
    } else if list[i] in out {
      k, m := 0, 0;
    } else {
      var left := Minus(rest, out);
      assert forall x :: 0 <= x < |rest| ==> rest[x] == list[x + 1];
      MinusShorter(rest, out);
      MinusElements(rest, out);
      var j := MinusPlace(rest, out, i - 1);
      k, m := MissedOnlyIfOut(left, n + 1, outs, skip, j);
      var o := MinusOrigin(rest, out, m);
      if o >= i - 1 {
        MinusMonotone(rest, out, i - 1, o);
      }
      k, m := k + 1, o + 1;
    }
  }

  /** Whoever is taken out by the turn of somebody earlier gets none. */
  lemma {:induction false} OutMisses<T>(list: seq<T>, n: nat, outs: seq<set<T>>, skip: set<T>, i: nat, k: nat, m: nat)
    requires Distinct(list) && TakenOut(list, n, outs, skip, i, k, m)
    ensures list[i] !in Served(list, n, outs, skip)
    decreases |list|
  {
    var q, rest, out := list[0], list[1..], OutBy(outs, n);
    assert forall x :: 0 <= x < |rest| ==> rest[x] == list[x + 1];
    if q in skip {
      ServedFrom(rest, n, outs, skip);
      var served := Served(rest, n, outs, skip);
      assert served[k] in Elements(served);
      OutMisses(rest, n, outs, skip, i - 1, k, m - 1);
    } else if list[i] in out {
      OutAtOnce(list, n, outs, skip, i);
    } else {
      MinusShorter(rest, out);
      MinusElements(rest, out);
      var j, o := LaterTurn(list, n, outs, skip, i, k, m);
      OutMisses(Minus(rest, out), n + 1, outs, skip, j, k - 1, o);
    }
  }

  lemma OutAtOnce<T>(list: seq<T>, n: nat, outs: seq<set<T>>, skip: set<T>, i: nat)
    requires Distinct(list) && 0 < i < |list| && list[0] !in skip && list[i] in OutBy(outs, n)
    ensures list[i] !in Served(list, n, outs, skip)
  {
    var rest, out := list[1..], OutBy(outs, n);
    var left := Minus(rest, out);
    assert forall x :: 0 <= x < |rest| ==> rest[x] == list[x + 1];
    MinusShorter(rest, out);
    MinusElements(rest, out);
    ServedFrom(left, n + 1, outs, skip);
    var served := Served(left, n + 1, outs, skip);
    assert Served(list, n, outs, skip) == [list[0]] + served;
    assert list[i] !in Elements(served);
  }

  lemma LaterTurn<T>(list: seq<T>, n: nat, outs: seq<set<T>>, skip: set<T>, i: nat, k: nat, m: nat) returns (j: nat, o: nat)
    requires Distinct(list) && TakenOut(list, n, outs, skip, i, k, m) && list[0] !in skip && list[i] !in OutBy(outs, n)
    ensures var left := Minus(list[1..], OutBy(outs, n));
            k > 0 && TakenOut(left, n + 1, outs, skip, j, k - 1, o) && left[j] == list[i]
  {
    TurnAfter(list, n, outs, skip, i, k, m);
    j, o := PlacesLeft(list[1..], OutBy(outs, n), m - 1, i - 1);
  }

  lemma TurnAfter<T>(list: seq<T>, n: nat, outs: seq<set<T>>, skip: set<T>, i: nat, k: nat, m: nat)
    requires Distinct(list) && TakenOut(list, n, outs, skip, i, k, m) && list[0] !in skip && list[i] !in OutBy(outs, n)
    ensures k > 0 && m > 0 && list[m] !in OutBy(outs, n)
    ensures var served := Served(Minus(list[1..], OutBy(outs, n)), n + 1, outs, skip);
            k - 1 < |served| && served[k - 1] == list[m]
  {
    var rest, out := list[1..], OutBy(outs, n);
    MinusShorter(rest, out);
    MinusElements(rest, out);
    ServedFrom(Minus(rest, out), n + 1, outs, skip);
    var served := Served(Minus(rest, out), n + 1, outs, skip);
    assert Served(list, n, outs, skip) == [list[0]] + served;
    assert k > 0;
    assert list[m] == served[k - 1] && served[k - 1] in Elements(served);
    assert list[m] in Elements(rest) - out;
    assert list[0] !in rest by {
      assert forall x :: 0 <= x < |rest| ==> rest[x] == list[x + 1];
    }
  }

  /** Two that stay, stay in their order. */
  lemma PlacesLeft<T>(s: seq<T>, gone: set<T>, a: nat, b: nat) returns (i: nat, j: nat)
    requires a < b < |s| && s[a] !in gone && s[b] !in gone
    ensures j < i < |Minus(s, gone)| && Minus(s, gone)[j] == s[a] && Minus(s, gone)[i] == s[b]
  {
    j := MinusPlace(s, gone, a);
    i := MinusPlace(s, gone, b);
    MinusStep(s, gone, a);
    MinusMonotone(s, gone, a + 1, b);
  }

  lemma MinusStep<T>(s: seq<T>, gone: set<T>, i: nat)
    requires i < |s| && s[i] !in gone
    ensures |Minus(s[..i + 1], gone)| == |Minus(s[..i], gone)| + 1
  {
    MinusAppend(s[..i], [s[i]], gone);
    assert s[..i + 1] == s[..i] + [s[i]];
  }

  /** Only members of the list that are not skipped get a turn, each at most once. */
  lemma {:induction false} ServedFrom<T>(list: seq<T>, n: nat, outs: seq<set<T>>, skip: set<T>)
    requires Distinct(list)
    ensures Distinct(Served(list, n, outs, skip)) && Elements(Served(list, n, outs, skip)) <= Elements(list) - skip
    decreases |list|
  {
    if list != [] {
      var q, rest, out := list[0], list[1..], OutBy(outs, n);
      assert list == [q] + rest;
      ElementsAppend([q], rest);
      assert q !in Elements(rest);
      if q in skip {
        ServedFrom(rest, n, outs, skip);
      } else {
        MinusShorter(rest, out);
        MinusElements(rest, out);
        ServedFrom(Minus(rest, out), n + 1, outs, skip);
        var served := Served(Minus(rest, out), n + 1, outs, skip);
        ElementsAppend([q], served);
        forall k | 0 <= k < |served| ensures served[k] != q {
          assert served[k] in Elements(served);
        }
      }
    }
  }

  /** The turns come in the order of the list. */
  lemma {:induction false} ServedInOrder<T>(list: seq<T>, n: nat, outs: seq<set<T>>, skip: set<T>, a: nat, b: nat)
    returns (i: nat, j: nat)
    requires Distinct(list) && a < b < |Served(list, n, outs, skip)|
    ensures i < j < |list| && list[i] == Served(list, n, outs, skip)[a] && list[j] == Served(list, n, outs, skip)[b]
    decreases |list|
  {
    var rest, out := list[1..], OutBy(outs, n);
    assert forall x :: 0 <= x < |rest| ==> rest[x] == list[x + 1];
    if list[0] in skip {
      i, j := ServedInOrder(rest, n, outs, skip, a, b);
      i, j := i + 1, j + 1;
    } else {
      var left := Minus(rest, out);
      MinusShorter(rest, out);
      MinusElements(rest, out);
      if a == 0 {
        var m := ServedPlace(left, n + 1, outs, skip, b - 1);
        var o := MinusOrigin(rest, out, m);
        i, j := 0, o + 1;
      } else {
        var k, m := ServedInOrder(left, n + 1, outs, skip, a - 1, b - 1);
        i, j := OriginsInOrder(rest, out, k, m);
        i, j := i + 1, j + 1;
      }
    }
  }

  lemma ServedPlace<T>(list: seq<T>, n: nat, outs: seq<set<T>>, skip: set<T>, b: nat) returns (j: nat)
    requires Distinct(list) && b < |Served(list, n, outs, skip)|
    ensures j < |list| && list[j] == Served(list, n, outs, skip)[b]
  {
    ServedFrom(list, n, outs, skip);
    assert Served(list, n, outs, skip)[b] in Elements(Served(list, n, outs, skip));
    j :| 0 <= j < |list| && list[j] == Served(list, n, outs, skip)[b];
  }

  lemma OriginsInOrder<T>(s: seq<T>, gone: set<T>, k: nat, m: nat) returns (i: nat, j: nat)
    requires k < m < |Minus(s, gone)|
    ensures i < j < |s| && s[i] == Minus(s, gone)[k] && s[j] == Minus(s, gone)[m]
  {
    i := MinusOrigin(s, gone, k);
    j := MinusOrigin(s, gone, m);
    if j <= i {
      MinusMonotone(s, gone, j, i);
    }
  }
}
