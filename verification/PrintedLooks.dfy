/** What the texts that inet_ntop6 of 3rd/libuv/src/inet.c prints look like: sections 4.1 to 4.3 of RFC 5952. */
module PrintedLooks {
  import opened AddressText
  import opened AddressLaws
  import opened AddressPrint

  predicate IsLower(c: char) { c in LOWER }

  ghost predicate AllIn(t: string, chars: string) { forall k :: 0 <= k < |t| ==> t[k] in chars }

  lemma AllInJoin(a: string, b: string, chars: string)
    requires AllIn(a, chars) && AllIn(b, chars)
    ensures AllIn(a + b, chars)
  {
  }

  lemma DigitIsLower(d: nat)
    requires d < 16
    ensures HexDigit(d) == LOWER[d] && HexDigit(d) in LOWER
  {
  }

  /** Digits of either kind are lower case, and none of them is needless. */
  lemma {:induction false} HexLooks(w: nat)
    ensures AllIn(Hex(w), LOWER) && (w > 0 ==> Hex(w)[0] != '0')
    decreases w
  {
    DigitIsLower(w % 16);
    if w >= 16 {
      HexLooks(w / 16);
    } else {
      DigitIsLower(w);
    }
  }

  lemma {:induction false} DecLooks(n: nat)
    ensures AllIn(Dec(n), LOWER) && (n > 0 ==> Dec(n)[0] != '0')
    decreases n
  {
    DigitIsLower(n % 10);
    if n >= 10 {
      DecLooks(n / 10);
    } else {
      DigitIsLower(n);
    }
  }

  const SIGNS := "0123456789abcdef:."
  const PLAIN := "0123456789abcdef:"

  lemma Widen(t: string)
    ensures AllIn(t, LOWER) ==> AllIn(t, PLAIN)
    ensures AllIn(t, PLAIN) ==> AllIn(t, SIGNS)
  {
    forall c | c in LOWER ensures c in PLAIN {
      var k :| 0 <= k < |LOWER| && LOWER[k] == c;
      assert PLAIN[k] == c;
    }
    forall c | c in PLAIN ensures c in SIGNS {
      var k :| 0 <= k < |PLAIN| && PLAIN[k] == c;
      assert SIGNS[k] == c;
    }
  }

  lemma Signs()
    ensures ':' in PLAIN && '.' in SIGNS && '.' !in PLAIN
  {
    assert PLAIN[16] == ':' && SIGNS[17] == '.';
  }

  lemma {:induction false} DottedLooks(o: seq<nat>)
    ensures AllIn(Dotted(o), SIGNS)
  {
    Signs();
    if o != [] {
      DecLooks(o[0]);
      Widen(Dec(o[0]));
      if |o| > 1 {
        DottedLooks(o[1..]);
        AllInJoin(".", Dotted(o[1..]), SIGNS);
        AllInJoin(Dec(o[0]), "." + Dotted(o[1..]), SIGNS);
      }
    }
  }

  /** The last two words are printed as a dotted quad. */
  predicate IsDotted(w: seq<nat>, base: int, len: int)
    requires |w| == 8
  {
    base == 0 && (len == 6 || (len == 5 && w[5] == 0xffff))
  }

  /** All characters are digits in lower case, colons and, in a dotted address, dots. */
  lemma {:induction false} BodyLooks(w: seq<nat>, base: int, len: int, i: nat)
    requires Printable(w, base, len) && i <= 8
    ensures AllIn(Body(w, base, len, i), if IsDotted(w, base, len) then SIGNS else PLAIN)
    decreases 8 - i
  {
    var chars := if IsDotted(w, base, len) then SIGNS else PLAIN;
    ColonIn(chars);
    if i < 8 {
      if InRun(base, len, i) {
        BodyLooks(w, base, len, i + 1);
        AllInJoin(if i == base then ":" else "", Body(w, base, len, i + 1), chars);
      } else {
        DigitsLook(w, base, len, i);
        AllInJoin(if i != 0 then ":" else "", Digits(w, base, len, i), chars);
      }
    }
  }

  lemma ColonIn(chars: string)
    requires chars == SIGNS || chars == PLAIN
    ensures AllIn(":", chars) && AllIn("", chars)
  {
    assert chars[16] == ':';
  }

  lemma {:induction false} DigitsLook(w: seq<nat>, base: int, len: int, i: nat)
    requires Printable(w, base, len) && i < 8 && !InRun(base, len, i)
    ensures AllIn(Digits(w, base, len, i), if IsDotted(w, base, len) then SIGNS else PLAIN)
    decreases 8 - i, 0
  {
    var chars := if IsDotted(w, base, len) then SIGNS else PLAIN;
    ColonIn(chars);
    if Embeds(w, base, len, i) {
      DottedLooks(Quad(w[6], w[7]));
      AllInJoin(Dotted(Quad(w[6], w[7])), Trailer(base, len), chars);
    } else {
      HexLooks(w[i]);
      Widen(Hex(w[i]));
      BodyLooks(w, base, len, i + 1);
      AllInJoin(Hex(w[i]), Body(w, base, len, i + 1), chars);
    }
  }

  lemma QuadHasDot(w: seq<nat>, base: int, len: int)
    requires Printable(w, base, len) && IsDotted(w, base, len)
    ensures '.' in Body(w, base, len, 6)
  {
    var o := Quad(w[6], w[7]);
    assert Dotted(o) == Dec(o[0]) + ("." + Dotted(o[1..]));
    assert "."[0] == '.' && Dotted(o)[|Dec(o[0])|] == '.';
    assert Body(w, base, len, 6) == ":" + (Dotted(o) + Trailer(base, len));
    assert Body(w, base, len, 6)[1 + |Dec(o[0])|] == '.';
  }

  /** A dotted quad is printed exactly for addresses of six words of zero, or of five and then 0xffff, in front of it. */
  lemma DotsExactly(w: seq<nat>, base: int, len: int)
    requires Printable(w, base, len)
    ensures '.' in Body(w, base, len, 0) <==> base == 0 && (len == 6 || (len == 5 && w[5] == 0xffff))
  {
    if IsDotted(w, base, len) {
      QuadHasDot(w, base, len);
      BodyOfRun(w, base, len, 0);
      if len == 5 {
        assert Body(w, base, len, 5) == ":" + (Hex(w[5]) + Body(w, base, len, 6));
      }
    } else {
      BodyLooks(w, base, len, 0);
      Signs();
    }
  }
}
