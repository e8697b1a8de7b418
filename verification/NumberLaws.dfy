/** What the numbers and parts that ParseIpv4 of src/EndPoint.cpp reads come to. */
module NumberLaws {
  import opened AddressLaws
  import opened AddressText
  import opened EndPointIpv4

  // ---- numbers ----

  /** The usual digits of n. */
  function Spelled(n: nat, radix: nat): string
    requires 2 <= radix <= 16
    decreases n
  {
    if n < radix then [LOWER[n]] else Spelled(n / radix, radix) + [LOWER[n % radix]]
  }

  lemma OneDigitMore(t: string, d: nat, radix: nat)
    requires d < radix <= 16 && InRadix(t, radix).Some?
    ensures InRadix(t + [LOWER[d]], radix) == Some(InRadix(t, radix).value * radix + d)
  {
    HexTables(d);
    assert (t + [LOWER[d]])[..|t|] == t;
  }

  lemma DivMod(n: nat, radix: nat)
    requires 0 < radix <= n
    ensures n / radix * radix + n % radix == n && 0 < n / radix
  {
    assert n == radix * (n / radix) + n % radix;
  }

  lemma {:induction false} SpelledBack(n: nat, radix: nat)
    requires 2 <= radix <= 16
    ensures InRadix(Spelled(n, radix), radix) == Some(n) && Spelled(n, radix) != ""
    decreases n
  {
    if n < radix {
      OneDigitMore("", n, radix);
      assert "" + [LOWER[n]] == Spelled(n, radix);
    } else {
      DivMod(n, radix);
      SpelledBack(n / radix, radix);
      OneDigitMore(Spelled(n / radix, radix), n % radix, radix);
    }
  }

  /** No needless zero in front. */
  lemma {:induction false} SpelledStart(n: nat, radix: nat)
    requires 2 <= radix <= 16
    ensures var t := Spelled(n, radix);
            t != "" && IsHex(t[0]) && HexValue(t[0]) < radix && (n > 0 ==> HexValue(t[0]) > 0)
    decreases n
  {
    if n < radix {
      HexTables(n);
    } else {
      DivMod(n, radix);
      SpelledStart(n / radix, radix);
      assert Spelled(n, radix)[0] == Spelled(n / radix, radix)[0];
    }
  }

  lemma DecimalBack(n: nat)
    ensures Number(Spelled(n, 10)) == Some(n)
  {
    SpelledBack(n, 10);
    SpelledStart(n, 10);
    assert n == 0 ==> |Spelled(n, 10)| == 1;
  }

  lemma OctalBack(n: nat)
    ensures Number("0" + Spelled(n, 8)) == Some(n)
  {
    SpelledBack(n, 8);
    SpelledStart(n, 8);
    var t := "0" + Spelled(n, 8);
    assert t[1..] == Spelled(n, 8) && t[1] == Spelled(n, 8)[0];
  }

  lemma HexBack(n: nat, prefix: string)
    requires prefix == "0x" || prefix == "0X"
    ensures Number(prefix + Spelled(n, 16)) == Some(n)
  {
    SpelledBack(n, 16);
    var t := prefix + Spelled(n, 16);
    assert t[2..] == Spelled(n, 16) && t[0] == prefix[0] && t[1] == prefix[1];
  }

  /** Decimal, octal behind a zero and hexadecimal behind 0x or 0X, every number is read as itself. */
  lemma NumberBack(n: nat)
    ensures Number(Spelled(n, 10)) == Some(n) && Number("0" + Spelled(n, 8)) == Some(n)
    ensures Number("0x" + Spelled(n, 16)) == Some(n) && Number("0X" + Spelled(n, 16)) == Some(n)
  {
    DecimalBack(n);
    OctalBack(n);
    HexBack(n, "0x");
    HexBack(n, "0X");
  }

  /** A text is a number exactly if all of its characters are digits of the radix. */
  lemma {:induction false} DigitsOnly(t: string, radix: nat)
    requires radix <= 16
    ensures InRadix(t, radix).Some? <==> forall k :: 0 <= k < |t| ==> IsHex(t[k]) && HexValue(t[k]) < radix
  {
    if t != "" {
      var n := |t| - 1;
      assert forall k :: 0 <= k < n ==> t[..n][k] == t[k];
      DigitsOnly(t[..n], radix);
    }
  }

  /** Zeros in front of a number do not change it. */
  lemma {:induction false} LeadingZero(t: string, radix: nat)
    requires 1 <= radix <= 16
    ensures InRadix("0" + t, radix) == InRadix(t, radix)
  {
    HexTables(0);
    if t == "" {
      assert "0" + t == "0" && "0"[..0] == "";
    } else {
      var n := |t| - 1;
      LeadingZero(t[..n], radix);
      assert ("0" + t)[..|t|] == "0" + t[..n] && ("0" + t)[|t|] == t[n];
    }
  }

  lemma {:induction false} CaseOfRadix(s: string, t: string, radix: nat)
    requires SameButCase(s, t)
    ensures InRadix(s, radix) == InRadix(t, radix)
    decreases |s|
  {
    if s != "" {
      var n := |s| - 1;
      CaseAt(s, t, n);
      assert SameButCase(s[..n], t[..n]);
      CaseOfRadix(s[..n], t[..n], radix);
    }
  }

  /** The letters of a number, that of its prefix included, may be of either case. */
  lemma CaseOfNumber(s: string, t: string)
    requires SameButCase(s, t)
    ensures Number(s) == Number(t)
  {
    if |s| >= 2 {
      CaseAt(s, t, 0);
      assert ToLower(s[1]) == ToLower(t[1]);
      CaseOfRadix(s[2..], t[2..], 16);
      CaseOfRadix(s[1..], t[1..], 8);
    }
    CaseOfRadix(s, t, 10);
  }

  // ---- parts ----

  ghost predicate DotFree(t: string) { forall k :: 0 <= k < |t| ==> t[k] != '.' }

  /** The parts with dots between them. */
  ghost function Rejoined(p: seq<string>): string
    requires p != []
  {
    if |p| == 1 then p[0] else p[0] + ("." + Rejoined(p[1..]))
  }

  lemma {:induction false} PartDotFree(s: string, i: nat, k: nat)
    requires i <= |s| && NulFree(s) && i <= k <= PartEnd(s, i)
    ensures k < PartEnd(s, i) ==> s[k] != '.'
    ensures k == PartEnd(s, i) ==> k == |s| || s[k] == '.'
    decreases k - i
  {
    if i < k {
      PartDotFree(s, i + 1, k);
    }
  }

  lemma RejoinedMore(t: string, p: seq<string>, rest: string)
    requires p != [] && (rest == Rejoined(p) || rest == Rejoined(p) + ".")
    ensures t + ("." + rest) == Rejoined([t] + p) || t + ("." + rest) == Rejoined([t] + p) + "."
  {
    assert ([t] + p)[1..] == p;
    assert t + ("." + (Rejoined(p) + ".")) == t + ("." + Rejoined(p)) + ".";
  }

  lemma PartHere(s: string, i: nat)
    requires i <= |s| && NulFree(s)
    ensures var j := PartEnd(s, i); DotFree(s[i..j]) && (j == |s| || s[j] == '.')
  {
    var j := PartEnd(s, i);
    forall k | 0 <= k < |s[i..j]| ensures s[i..j][k] != '.' {
      PartDotFree(s, i, i + k);
    }
    PartDotFree(s, i, j);
  }

  lemma {:induction false} PartsDotFree(s: string, i: nat)
    requires i <= |s| && NulFree(s)
    ensures forall k :: 0 <= k < |Parts(s, i)| ==> DotFree(Parts(s, i)[k])
    decreases |s| - i
  {
    PartHere(s, i);
    if !Ends(s, PartEnd(s, i)) {
      PartsDotFree(s, PartEnd(s, i) + 1);
    }
  }

  /** The parts are what stands between the dots; one dot more may end the string. */
  lemma {:induction false} PartsRejoin(s: string, i: nat)
    requires i <= |s| && NulFree(s)
    ensures s[i..] == Rejoined(Parts(s, i)) || s[i..] == Rejoined(Parts(s, i)) + "."
    decreases |s| - i
  {
    var j := PartEnd(s, i);
    PartHere(s, i);
    if Ends(s, j) {
      assert s[i..] == if j == |s| then s[i..j] else s[i..j] + ".";
    } else {
      PartsRejoin(s, j + 1);
      RejoinedMore(s[i..j], Parts(s, j + 1), s[j + 1..]);
      assert s[i..] == s[i..j] + ("." + s[j + 1..]);
    }
  }
}
