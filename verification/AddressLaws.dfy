/** What the reference for address texts comes to: its digits, the case of letters, and its canonical texts. */
module AddressLaws {
  import opened AddressText

  const LOWER := "0123456789abcdef"
  const UPPER := "0123456789ABCDEF"

  /** The digits of either case have the value of their place. */
  lemma HexTables(k: nat)
    requires k < 16
    ensures IsHex(LOWER[k]) && HexValue(LOWER[k]) == k
    ensures IsHex(UPPER[k]) && HexValue(UPPER[k]) == k
    ensures k < 10 ==> IsDigit(LOWER[k]) && DigitValue(LOWER[k]) == k
  {
  }

  /** And there are no others. */
  lemma HexOnly(c: char)
    ensures IsHex(c) <==> c in LOWER || c in UPPER
    ensures IsDigit(c) <==> c in LOWER[..10]
    ensures IsHex(c) ==> c == LOWER[HexValue(c)] || c == UPPER[HexValue(c)]
  {
    if IsHex(c) {
      assert c == LOWER[HexValue(c)] || c == UPPER[HexValue(c)];
    }
    if IsDigit(c) {
      assert c == LOWER[..10][DigitValue(c)];
    }
  }

  // ---- the case of letters ----

  function ToLower(c: char): char { if 'A' <= c <= 'Z' then c - 'A' + 'a' else c }

  ghost predicate SameButCase(s: string, t: string) {
    |s| == |t| && forall k :: 0 <= k < |s| ==> ToLower(s[k]) == ToLower(t[k])
  }

  lemma CaseAt(s: string, t: string, i: nat)
    requires SameButCase(s, t)
    ensures IsHex(At(s, i)) <==> IsHex(At(t, i))
    ensures IsHex(At(s, i)) ==> HexValue(At(s, i)) == HexValue(At(t, i))
    ensures IsDigit(At(s, i)) <==> IsDigit(At(t, i))
    ensures !('a' <= At(s, i) <= 'z') && !('A' <= At(s, i) <= 'Z') ==> At(t, i) == At(s, i)
    ensures !('a' <= At(t, i) <= 'z') && !('A' <= At(t, i) <= 'Z') ==> At(t, i) == At(s, i)
  {
    if i < |s| {
      assert ToLower(s[i]) == ToLower(t[i]);
    }
  }

  lemma {:induction false} CaseDigits(s: string, t: string, i: nat)
    requires SameButCase(s, t)
    ensures DigitRun(s, i) == DigitRun(t, i)
    decreases |s| - i
  {
    CaseAt(s, t, i);
    if IsDigit(At(s, i)) {
      CaseDigits(s, t, i + 1);
    }
  }

  lemma {:induction false} CaseHexRun(s: string, t: string, i: nat)
    requires SameButCase(s, t)
    ensures HexRun(s, i) == HexRun(t, i)
    decreases |s| - i
  {
    CaseAt(s, t, i);
    if IsHex(At(s, i)) {
      CaseHexRun(s, t, i + 1);
    }
  }

  lemma {:induction false} CaseDecimal(s: string, t: string, i: nat, n: nat)
    requires SameButCase(s, t) && n <= DigitRun(s, i) == DigitRun(t, i)
    ensures Decimal(s, i, n) == Decimal(t, i, n)
  {
    if n > 0 {
      RunAt(s, i, n - 1);
      CaseAt(s, t, i + n - 1);
      CaseDecimal(s, t, i, n - 1);
    }
  }

  lemma {:induction false} CaseHexadecimal(s: string, t: string, i: nat, n: nat)
    requires SameButCase(s, t) && n <= HexRun(s, i) == HexRun(t, i)
    ensures Hexadecimal(s, i, n) == Hexadecimal(t, i, n)
  {
    if n > 0 {
      HexRunAt(s, i, n - 1);
      CaseAt(s, t, i + n - 1);
      CaseHexadecimal(s, t, i, n - 1);
    }
  }

  lemma {:induction false} CaseOctets(s: string, t: string, i: nat, k: nat)
    requires SameButCase(s, t)
    ensures Octets(s, i, k) == Octets(t, i, k)
    decreases k
  {
    var n := DigitRun(s, i);
    CaseDigits(s, t, i);
    CaseDecimal(s, t, i, n);
    CaseAt(s, t, i);
    CaseAt(s, t, i + n);
    if k > 1 {
      CaseOctets(s, t, i + n + 1, k - 1);
    }
  }

  /** A character that ends a field, or whatever else does not. */
  predicate SameEnd(c: char, d: char) { c == d || (c !in {'\0', ':', '.'} && d !in {'\0', ':', '.'}) }

  lemma CaseField(s: string, t: string, i: nat)
    requires SameButCase(s, t)
    ensures HexRun(s, i) == HexRun(t, i) && Hexadecimal(s, i, HexRun(s, i)) == Hexadecimal(t, i, HexRun(s, i))
    ensures SameEnd(At(s, i + HexRun(s, i)), At(t, i + HexRun(s, i)))
    ensures At(s, i + HexRun(s, i) + 1) == '\0' <==> At(t, i + HexRun(s, i) + 1) == '\0'
    ensures Octets(s, i, 4) == Octets(t, i, 4)
  {
    var n := HexRun(s, i);
    CaseHexRun(s, t, i);
    CaseHexadecimal(s, t, i, n);
    CaseAt(s, t, i + n);
    CaseAt(s, t, i + n + 1);
    CaseOctets(s, t, i, 4);
  }

  lemma CaseScanField(s: string, t: string, i: nat, f: Fields)
    requires SameButCase(s, t) && At(s, i) != '\0' && At(s, i) != ':'
    requires var n := HexRun(s, i);
             n > 0 ==> var f' := f.(words := f.words + [Hexadecimal(s, i, n)]); Scan(s, i + n + 1, f') == Scan(t, i + n + 1, f')
    ensures Scan(s, i, f) == Scan(t, i, f)
  {
    CaseAt(s, t, i);
    CaseField(s, t, i);
  }

  lemma {:induction false} CaseScan(s: string, t: string, i: nat, f: Fields)
    requires SameButCase(s, t)
    ensures Scan(s, i, f) == Scan(t, i, f)
    decreases |s| - i
  {
    CaseAt(s, t, i);
    if At(s, i) == '\0' {
    } else if s[i] == ':' {
      CaseScan(s, t, i + 1, f.(gap := |f.words|));
    } else {
      var n := HexRun(s, i);
      HexRunFits(s, i);
      if n > 0 {
        CaseScan(s, t, i + n + 1, f.(words := f.words + [Hexadecimal(s, i, n)]));
      }
      CaseScanField(s, t, i, f);
    }
  }

  /** The letters of an IPv6 text may be of either case. */
  lemma CaseOfIpv6(s: string, t: string)
    requires SameButCase(s, t)
    ensures Ipv6(s) == Ipv6(t)
  {
    CaseAt(s, t, 0);
    CaseAt(s, t, 1);
    CaseScan(s, t, 0, Fields([], -1));
    CaseScan(s, t, 2, Fields([], 0));
  }
}
