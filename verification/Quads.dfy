/** Reading a dotted quad digit by digit. */
module Quads {
  import opened AddressText

  ghost function Prefixed(p: seq<nat>, o: Option<seq<nat>>): Option<seq<nat>> {
    if o.None? then None else Some(p + o.value)
  }

  /** The octets before tok are done; the rest of the quad starts at tok. */
  ghost predicate InQuad(s: string, start: nat, done: seq<nat>, tok: nat) {
    |done| <= 3 && Octets(s, start, 4) == Prefixed(done, Octets(s, tok, 4 - |done|))
  }

  /** The first m digits of the octet at tok have been read and make v. */
  ghost predicate InOctet(s: string, tok: nat, m: nat, v: nat) {
    m <= DigitRun(s, tok) && v == Decimal(s, tok, m) <= 255 && (m > 1 ==> At(s, tok) != '0')
  }

  lemma {:induction false} DecimalGrows(s: string, i: nat, m: nat, n: nat)
    requires m <= n <= DigitRun(s, i)
    ensures Decimal(s, i, m) <= Decimal(s, i, n)
    ensures m > 0 && At(s, i) != '0' ==> Decimal(s, i, m) > 0
    decreases n
  {
    if m < n {
      DecimalGrows(s, i, m, n - 1);
    } else if m > 1 {
      DecimalGrows(s, i, m - 1, m - 1);
    }
  }

  lemma QuadStart(s: string, start: nat)
    ensures InQuad(s, start, [], start) && InOctet(s, start, 0, 0)
  {
    var o := Octets(s, start, 4);
    assert o.Some? ==> [] + o.value == o.value;
  }

  lemma OctetDigit(s: string, start: nat, done: seq<nat>, tok: nat, m: nat, v: nat)
    requires InQuad(s, start, done, tok) && InOctet(s, tok, m, v) && IsDigit(At(s, tok + m))
    ensures var w := v * 10 + DigitValue(At(s, tok + m));
            if (m > 0 && v == 0) || w > 255 then Octets(s, start, 4).None? else InOctet(s, tok, m + 1, w)
  {
    RunAt(s, tok, m);
    DecimalGrows(s, tok, m, m);
    DecimalGrows(s, tok, m + 1, DigitRun(s, tok));
    assert Decimal(s, tok, m + 1) == v * 10 + DigitValue(At(s, tok + m));
  }

  lemma OctetDot(s: string, start: nat, done: seq<nat>, tok: nat, m: nat, v: nat)
    requires InQuad(s, start, done, tok) && InOctet(s, tok, m, v) && m > 0 && At(s, tok + m) == '.'
    ensures if |done| == 3 then Octets(s, start, 4).None?
            else InQuad(s, start, done + [v], tok + m + 1) && InOctet(s, tok + m + 1, 0, 0)
  {
    RunAt(s, tok, m);
    if |done| < 3 {
      var rest := Octets(s, tok + m + 1, 3 - |done|);
      assert rest.Some? ==> done + ([v] + rest.value) == (done + [v]) + rest.value;
    }
  }

  lemma OctetBad(s: string, start: nat, done: seq<nat>, tok: nat, m: nat, v: nat)
    requires InQuad(s, start, done, tok) && InOctet(s, tok, m, v) && At(s, tok + m) != '\0'
    requires !IsDigit(At(s, tok + m)) && (At(s, tok + m) == '.' ==> m == 0)
    ensures Octets(s, start, 4).None?
  {
    RunAt(s, tok, m);
  }

  lemma OctetEnd(s: string, start: nat, done: seq<nat>, tok: nat, m: nat, v: nat)
    requires InQuad(s, start, done, tok) && InOctet(s, tok, m, v) && At(s, tok + m) == '\0'
    ensures Octets(s, start, 4) == if |done| == 3 && m > 0 then Some(done + [v]) else None
  {
    RunAt(s, tok, m);
  }
}
