/** One element more or one element less. */
module Sequences {

  /** s' is s with e put in somewhere. */
  ghost predicate Adds<T>(s: seq<T>, s': seq<T>, e: T) {
    exists i {:trigger s[..i]} :: 0 <= i <= |s| && s' == s[..i] + [e] + s[i..]
  }

  /** s' is s without e. */
  ghost predicate Drops<T>(s: seq<T>, s': seq<T>, e: T) {
    exists i {:trigger s[i]} :: 0 <= i < |s| && s[i] == e && s' == s[..i] + s[i + 1..]
  }

  lemma AddsMiddle<T>(a: seq<T>, e: T, b: seq<T>)
    ensures Adds(a + b, a + [e] + b, e)
  {
    var s := a + b;
    assert s[..|a|] == a && s[|a|..] == b;
  }

  lemma DropsMiddle<T>(a: seq<T>, e: T, b: seq<T>)
    ensures Drops(a + [e] + b, a + b, e)
  {
    var s := a + [e] + b;
    assert s[|a|] == e && s[..|a|] == a && s[|a| + 1..] == b;
  }

  lemma AddsMembers<T>(s: seq<T>, s': seq<T>, e: T)
    requires Adds(s, s', e)
    ensures forall n :: n in s' <==> n in s || n == e
  {
    var i :| 0 <= i <= |s| && s' == s[..i] + [e] + s[i..];
    assert s == s[..i] + s[i..];
  }

  ghost predicate Distinct<T>(s: seq<T>) {
    forall i, j :: 0 <= i < j < |s| ==> s[i] != s[j]
  }

  /** Where nothing repeats, no second e is left. */
  lemma DropsMembers<T>(s: seq<T>, s': seq<T>, e: T)
    requires Distinct(s) && Drops(s, s', e)
    ensures forall n :: n in s' <==> n in s && n != e
  {
    var i :| 0 <= i < |s| && s[i] == e && s' == s[..i] + s[i + 1..];
    assert s == s[..i] + [e] + s[i + 1..];
    assert e !in s[..i] && e !in s[i + 1..];
  }

  /** A queue after QUEUE_REMOVE of x; nothing changes if it is not on it. */
  function Without<T(==)>(q: seq<T>, x: T): seq<T> {
    if q == [] then [] else if q[0] == x then q[1..] else [q[0]] + Without(q[1..], x)
  }

  lemma {:induction false} WithoutMembers<T>(q: seq<T>, x: T)
    requires Distinct(q)
    ensures Distinct(Without(q, x)) && forall y :: y in Without(q, x) <==> y in q && y != x
  {
    if q != [] {
      var rest := Without(q[1..], x);
      WithoutMembers(q[1..], x);
      assert q == [q[0]] + q[1..];
      assert q[0] !in q[1..];
      assert forall k :: 0 <= k < |rest| ==> rest[k] in rest;
    }
  }

  /** Whatever repeats: at most one x is gone, and nothing else. */
  lemma {:induction false} WithoutShorter<T>(q: seq<T>, x: T)
    ensures |Without(q, x)| <= |q| && (x !in q ==> Without(q, x) == q)
    ensures forall y :: y in Without(q, x) ==> y in q
    ensures forall y :: y in q && y != x ==> y in Without(q, x)
  {
    if q != [] {
      assert q == [q[0]] + q[1..];
      WithoutShorter(q[1..], x);
    }
  }

  lemma {:induction false} WithoutAppend<T>(a: seq<T>, b: seq<T>, x: T)
    requires x !in a || x !in b
    ensures Without(a, x) + Without(b, x) == Without(a + b, x)
  {
    if a == [] {
      assert a + b == b;
    } else {
      assert (a + b)[1..] == a[1..] + b;
      if a[0] == x {
        WithoutShorter(b, x);
      } else {
        WithoutAppend(a[1..], b, x);
      }
    }
  }

  // ---- first in, first out ----

  /** Wherever b stands in the queue, a stands before it. */
  ghost predicate Behind<T>(q: seq<T>, a: T, b: T) {
    forall j :: 0 <= j < |q| && q[j] == b ==> Leads(q, a, j)
  }

  ghost predicate Leads<T>(q: seq<T>, a: T, j: nat) { exists i :: 0 <= i < j && i < |q| && q[i] == a }

  lemma BehindAppend<T>(q: seq<T>, x: T, a: T, b: T)
    requires a in q && Behind(q, a, b)
    ensures a in q + [x] && Behind(q + [x], a, b)
  {
    var k :| 0 <= k < |q| && q[k] == a;
    assert (q + [x])[k] == a;
    forall j | 0 <= j < |q| + 1 && (q + [x])[j] == b ensures Leads(q + [x], a, j) {
      if j < |q| {
        assert Leads(q, a, j);
        var i :| 0 <= i < j && i < |q| && q[i] == a;
        assert (q + [x])[i] == a;
      }
    }
  }

  lemma BehindHead<T>(q: seq<T>, a: T, b: T)
    requires q != [] && Behind(q, a, b)
    ensures q[0] != b
  {
    assert !Leads(q, a, 0);
  }

  lemma BehindTail<T>(q: seq<T>, a: T, b: T)
    requires a in q && Behind(q, a, b) && q[0] != a
    ensures a in q[1..] && Behind(q[1..], a, b) && q[0] != b
  {
    BehindHead(q, a, b);
    assert q == [q[0]] + q[1..];
    forall j | 0 <= j < |q| - 1 && q[1..][j] == b ensures Leads(q[1..], a, j) {
      assert Leads(q, a, j + 1);
      var i :| 0 <= i < j + 1 && i < |q| && q[i] == a;
      assert q[1..][i - 1] == a;
    }
  }

  lemma {:induction false} BehindWithout<T>(q: seq<T>, x: T, a: T, b: T)
    requires a in q && Behind(q, a, b) && x != a
    ensures a in Without(q, x) && Behind(Without(q, x), a, b)
  {
    if q[0] == x {
      BehindTail(q, a, b);
    } else if q[0] == a {
      var rest := Without(q[1..], x);
      BehindHead(q, a, b);
      forall j | 0 <= j < |rest| + 1 && ([a] + rest)[j] == b ensures Leads([a] + rest, a, j) {
        assert ([a] + rest)[0] == a;
      }
    } else {
      BehindTail(q, a, b);
      BehindWithout(q[1..], x, a, b);
      BehindFront(q[0], Without(q[1..], x), a, b);
    }
  }

  lemma BehindFront<T>(x: T, q: seq<T>, a: T, b: T)
    requires a in q && Behind(q, a, b) && x != b
    ensures a in [x] + q && Behind([x] + q, a, b)
  {
    forall j | 0 <= j < |q| + 1 && ([x] + q)[j] == b ensures Leads([x] + q, a, j) {
      assert q[j - 1] == b && Leads(q, a, j - 1);
      var i :| 0 <= i < j - 1 && i < |q| && q[i] == a;
      assert ([x] + q)[i + 1] == a;
    }
  }
}
