/** The text that inet_ntop6 of 3rd/libuv/src/inet.c prints, and that it reads back as the same address. */
module AddressPrint {
  import opened AddressText
  import opened FieldsText

  function HexDigit(d: nat): (c: char)
    requires d < 16
    ensures IsHex(c) && HexValue(c) == d
  {
    if d < 10 then '0' + d as char else 'a' + (d - 10) as char
  }

  /** "%x". */
  function Hex(w: nat): (t: string)
    ensures t != [] && forall k :: 0 <= k < |t| ==> IsHex(t[k])
    decreases w
  {
    if w < 16 then [HexDigit(w)] else Hex(w / 16) + [HexDigit(w % 16)]
  }

  /** "%u". */
  function Dec(n: nat): (t: string)
    ensures t != [] && forall k :: 0 <= k < |t| ==> IsDigit(t[k])
    decreases n
  {
    if n < 10 then [HexDigit(n)] else Dec(n / 10) + [HexDigit(n % 10)]
  }

  /** "%u.%u.%u.%u", for any number of octets. */
  function Dotted(o: seq<nat>): string {
    if o == [] then "" else if |o| == 1 then Dec(o[0]) else Dec(o[0]) + ("." + Dotted(o[1..]))
  }

  function Quad(hi: nat, lo: nat): seq<nat> { [hi / 256, hi % 256, lo / 256, lo % 256] }

  ghost predicate AllZero(w: seq<nat>, base: int, len: int) {
    0 <= base && 0 <= len && base + len <= |w| && forall k :: base <= k < base + len ==> w[k] == 0
  }

  /** The run to shorten: the first of the longest runs of zeros; base is -1 if none has two words. */
  ghost predicate Longest(w: seq<nat>, base: int, len: int) {
    if base == -1 then forall b, l :: AllZero(w, b, l) ==> l < 2
    else 2 <= len && AllZero(w, base, len) && forall b, l :: AllZero(w, b, l) && l > 0 ==> l < len || (l == len && base <= b)
  }

  predicate InRun(base: int, len: int, i: nat) { base != -1 && base <= i < base + len }

  /** The branch that prints the last two words as an IPv4 address. */
  predicate Embeds(w: seq<nat>, base: int, len: int, i: nat)
    requires |w| == 8
  {
    i == 6 && base == 0 && (len == 6 || (len == 7 && w[7] != 1) || (len == 5 && w[5] == 0xffff))
  }

  /** A run of seven that starts the address has not ended at word 6, so it never has the IPv4 form printed. */
  lemma SevenNeverEmbeds(w: seq<nat>, base: int, len: int, i: nat)
    requires |w| == 8
    ensures base == 0 && len == 7 ==> InRun(base, len, 6)
    ensures Embeds(w, base, len, i) && !InRun(base, len, i) ==> len != 7
  {
  }

  /** The text from the digits of word i on. */
  function Digits(w: seq<nat>, base: int, len: int, i: nat): string
    requires |w| == 8 && i < 8
    decreases 8 - i, 0
  {
    if Embeds(w, base, len, i) then Dotted(Quad(w[6], w[7])) + Trailer(base, len)
    else Hex(w[i]) + Body(w, base, len, i + 1)
  }

  /** The text from word i on, the colon in front included. */
  function Body(w: seq<nat>, base: int, len: int, i: nat): string
    requires |w| == 8 && i <= 8
    decreases 8 - i, 1
  {
    if i == 8 then Trailer(base, len)
    else if InRun(base, len, i) then (if i == base then ":" else "") + Body(w, base, len, i + 1)
    else (if i != 0 then ":" else "") + Digits(w, base, len, i)
  }

  function Trailer(base: int, len: int): string { if base != -1 && base + len == 8 then ":" else "" }

  // ---- digits read back ----

  /** The text t stands at p in s. */
  ghost predicate Stands(s: string, p: nat, t: string) {
    p + |t| <= |s| && forall k :: 0 <= k < |t| ==> t[k] == At(s, p + k)
  }

  lemma StandsSplit(s: string, p: nat, a: string, b: string)
    requires Stands(s, p, a + b)
    ensures Stands(s, p, a) && Stands(s, p + |a|, b)
  {
    assert forall k :: 0 <= k < |a| ==> a[k] == (a + b)[k];
    assert forall k :: 0 <= k < |b| ==> b[k] == (a + b)[|a| + k];
  }

  lemma {:induction false} RunOfHex(s: string, p: nat, n: nat)
    requires forall k :: p <= k < p + n ==> IsHex(At(s, k))
    ensures HexRun(s, p) >= n
    decreases n
  {
    if n > 0 {
      RunOfHex(s, p + 1, n - 1);
    }
  }

  lemma {:induction false} RunOfDigits(s: string, p: nat, n: nat)
    requires forall k :: p <= k < p + n ==> IsDigit(At(s, k))
    ensures DigitRun(s, p) >= n
    decreases n
  {
    if n > 0 {
      RunOfDigits(s, p + 1, n - 1);
    }
  }

  lemma {:induction false} HexBack(w: nat, s: string, p: nat)
    requires Stands(s, p, Hex(w))
    ensures HexRun(s, p) >= |Hex(w)| && Hexadecimal(s, p, |Hex(w)|) == w
    decreases w
  {
    var t, n := Hex(w), |Hex(w)|;
    forall k | p <= k < p + n ensures IsHex(At(s, k)) {
      assert t[k - p] == At(s, p + (k - p));
    }
    RunOfHex(s, p, n);
    if w >= 16 {
      StandsSplit(s, p, Hex(w / 16), [HexDigit(w % 16)]);
      HexBack(w / 16, s, p);
    } else {
      assert Hexadecimal(s, p, 0) == 0;
    }
    assert t[n - 1] == At(s, p + (n - 1)) == HexDigit(w % 16);
  }

  lemma {:induction false} DecBack(w: nat, s: string, p: nat)
    requires Stands(s, p, Dec(w))
    ensures DigitRun(s, p) >= |Dec(w)| && Decimal(s, p, |Dec(w)|) == w
    ensures |Dec(w)| > 1 ==> At(s, p) != '0'
    decreases w
  {
    var t, n := Dec(w), |Dec(w)|;
    forall k | p <= k < p + n ensures IsDigit(At(s, k)) {
      assert t[k - p] == At(s, p + (k - p));
    }
    RunOfDigits(s, p, n);
    if w >= 10 {
      StandsSplit(s, p, Dec(w / 10), [HexDigit(w % 10)]);
      DecBack(w / 10, s, p);
      if |Dec(w / 10)| == 1 {
        assert w / 10 < 10;
      }
    } else {
      assert Decimal(s, p, 0) == 0;
    }
    assert t[n - 1] == At(s, p + (n - 1)) == HexDigit(w % 10);
  }

  lemma HexShort(w: nat)
    requires w < 65536
    ensures |Hex(w)| <= 4
  {
    assert w >= 16 ==> |Hex(w)| == |Hex(w / 16)| + 1;
    assert w >= 256 ==> |Hex(w / 16)| == |Hex(w / 16 / 16)| + 1;
    assert w >= 4096 ==> |Hex(w / 16 / 16)| == |Hex(w / 16 / 16 / 16)| + 1;
  }

  lemma DecShort(n: nat)
    requires n < 256
    ensures |Dec(n)| <= 3
  {
    assert n >= 10 ==> |Dec(n)| == |Dec(n / 10)| + 1;
    assert n >= 100 ==> |Dec(n / 10)| == |Dec(n / 10 / 10)| + 1;
  }

  /** A printed octet with something else behind it is read back. */
  lemma OctetBack(n: nat, s: string, p: nat)
    requires n < 256 && Stands(s, p, Dec(n)) && !IsDigit(At(s, p + |Dec(n)|))
    ensures DigitRun(s, p) == |Dec(n)| && Decimal(s, p, DigitRun(s, p)) == n && (DigitRun(s, p) > 1 ==> At(s, p) != '0')
  {
    DecBack(n, s, p);
    RunAt(s, p, |Dec(n)|);
  }

  lemma OctetsStep(s: string, p: nat, k: nat, o: seq<nat>)
    requires k > 1 && |o| == k && DigitRun(s, p) > 0 && (DigitRun(s, p) > 1 ==> At(s, p) != '0')
    requires Decimal(s, p, DigitRun(s, p)) == o[0] < 256 && At(s, p + DigitRun(s, p)) == '.'
    requires Octets(s, p + DigitRun(s, p) + 1, k - 1) == Some(o[1..])
    ensures Octets(s, p, k) == Some(o)
  {
    assert [o[0]] + o[1..] == o;
  }

  lemma {:induction false} DottedBack(o: seq<nat>, s: string, p: nat)
    requires o != [] && forall k :: 0 <= k < |o| ==> o[k] < 256
    requires Stands(s, p, Dotted(o)) && At(s, p + |Dotted(o)|) == '\0'
    ensures Octets(s, p, |o|) == Some(o)
    ensures DigitRun(s, p) == |Dec(o[0])| && (|o| > 1 ==> At(s, p + |Dec(o[0])|) == '.')
    decreases |o|
  {
    if |o| == 1 {
      OctetBack(o[0], s, p);
      assert o == [o[0]];
    } else {
      var n := |Dec(o[0])|;
      StandsSplit(s, p, Dec(o[0]), "." + Dotted(o[1..]));
      StandsSplit(s, p + n, ".", Dotted(o[1..]));
      assert "."[0] == At(s, p + n);
      OctetBack(o[0], s, p);
      DottedBack(o[1..], s, p + n + 1);
      OctetsStep(s, p, |o|, o);
    }
  }

  // ---- the text read back ----

  /** The words outside the run. */
  ghost function Shown(w: seq<nat>, base: int, len: int, i: nat): seq<nat>
    requires |w| == 8 && i <= 8 && (base != -1 ==> 0 <= base && 0 <= len && base + len <= 8)
  {
    if base == -1 || i <= base then w[..i] else if i <= base + len then w[..base] else w[..base] + w[base + len..i]
  }

  /** What a reader of the text knows in front of the digits of word i. */
  ghost function Before(w: seq<nat>, base: int, len: int, i: nat): Fields
    requires |w| == 8 && i <= 8 && (base != -1 ==> 0 <= base && 0 <= len && base + len <= 8)
  {
    Fields(Shown(w, base, len, i), if base != -1 && base + len <= i then base else -1)
  }

  ghost predicate Printable(w: seq<nat>, base: int, len: int) {
    && |w| == 8 && (forall k :: 0 <= k < 8 ==> w[k] < 65536)
    && (base != -1 ==> 2 <= len && AllZero(w, base, len))
  }

  /** A printed word is read as one field. */
  lemma ScanWord(v: nat, s: string, p: nat, f: Fields)
    requires v < 65536 && Stands(s, p, Hex(v)) && !IsHex(At(s, p + |Hex(v)|))
    ensures At(s, p + |Hex(v)|) == '\0' ==> Scan(s, p, f) == Some(Plus(f, v))
    ensures At(s, p + |Hex(v)|) == ':' && At(s, p + |Hex(v)| + 1) != '\0' ==>
              Scan(s, p, f) == Scan(s, p + |Hex(v)| + 1, Plus(f, v))
  {
    HexBack(v, s, p);
    HexShort(v);
    HexRunAt(s, p, |Hex(v)|);
    HexRunAt(s, p, 0);
  }

  lemma BeforePlus(w: seq<nat>, base: int, len: int, i: nat)
    requires Printable(w, base, len) && i < 8 && !InRun(base, len, i)
    ensures Plus(Before(w, base, len, i), w[i]) == Before(w, base, len, i + 1)
  {
    if base != -1 && base + len <= i {
      assert w[..base] + w[base + len..i] + [w[i]] == w[..base] + w[base + len..i + 1];
      assert i == base + len ==> Shown(w, base, len, i) == w[..base] + w[base + len..i];
    } else {
      assert w[..i] + [w[i]] == w[..i + 1];
    }
  }

  /** One printed word and the colon behind it are read; the rest is as assumed. */
  lemma WordThen(w: seq<nat>, base: int, len: int, i: nat, s: string, p: nat)
    requires Printable(w, base, len) && i < 7 && !InRun(base, len, i)
    requires Stands(s, p, Hex(w[i])) && At(s, p + |Hex(w[i])|) == ':' && At(s, p + |Hex(w[i])| + 1) != '\0'
    requires Scan(s, p + |Hex(w[i])| + 1, Before(w, base, len, i + 1)) == Some(Before(w, base, len, 8))
    ensures Scan(s, p, Before(w, base, len, i)) == Some(Before(w, base, len, 8))
  {
    BeforePlus(w, base, len, i);
    ScanWord(w[i], s, p, Before(w, base, len, i));
  }

  lemma LastWord(w: seq<nat>, base: int, len: int, s: string, p: nat)
    requires Printable(w, base, len) && !InRun(base, len, 7)
    requires Stands(s, p, Hex(w[7])) && p + |Hex(w[7])| == |s|
    ensures Scan(s, p, Before(w, base, len, 7)) == Some(Before(w, base, len, 8))
  {
    BeforePlus(w, base, len, 7);
    ScanWord(w[7], s, p, Before(w, base, len, 7));
  }

  /** A word in front of the run. */
  lemma {:induction false} WordThenRun(w: seq<nat>, base: int, len: int, i: nat, s: string, p: nat)
    requires Printable(w, base, len) && i < 7 && !InRun(base, len, i) && InRun(base, len, i + 1)
    requires Stands(s, p, Hex(w[i]) + Body(w, base, len, i + 1)) && p + |Hex(w[i]) + Body(w, base, len, i + 1)| == |s|
    ensures Scan(s, p, Before(w, base, len, i)) == Some(Before(w, base, len, 8))
    decreases 8 - i, 0
  {
    var n := |Hex(w[i])|;
    StandsSplit(s, p, Hex(w[i]), Body(w, base, len, i + 1));
    BodyOfRun(w, base, len, base);
    StandsSplit(s, p + n, ":", Body(w, base, len, base + len));
    assert ":"[0] == At(s, p + n + 0);
    ScanRun(w, base, len, s, p + n + 1);
    WordThen(w, base, len, i, s, p);
  }

  lemma {:induction false} WordThenWord(w: seq<nat>, base: int, len: int, i: nat, s: string, p: nat)
    requires Printable(w, base, len) && i < 7 && !InRun(base, len, i) && !InRun(base, len, i + 1)
    requires Stands(s, p, Hex(w[i]) + Body(w, base, len, i + 1)) && p + |Hex(w[i]) + Body(w, base, len, i + 1)| == |s|
    ensures Scan(s, p, Before(w, base, len, i)) == Some(Before(w, base, len, 8))
    decreases 8 - i, 0
  {
    var n, d := |Hex(w[i])|, Digits(w, base, len, i + 1);
    StandsSplit(s, p, Hex(w[i]), Body(w, base, len, i + 1));
    StandsSplit(s, p + n, ":", d);
    assert ":"[0] == At(s, p + n + 0);
    ScanDigits(w, base, len, i + 1, s, p + n + 1);
    DigitsStart(w, base, len, i + 1);
    assert d[0] == At(s, p + n + 1 + 0);
    WordThen(w, base, len, i, s, p);
  }

  lemma {:induction false} ScanDigits(w: seq<nat>, base: int, len: int, i: nat, s: string, p: nat)
    requires Printable(w, base, len) && i < 8 && !InRun(base, len, i)
    requires Stands(s, p, Digits(w, base, len, i)) && p + |Digits(w, base, len, i)| == |s|
    ensures Scan(s, p, Before(w, base, len, i)) == Some(Before(w, base, len, 8))
    decreases 8 - i, 1
  {
    if Embeds(w, base, len, i) {
      ScanQuad(w, base, len, s, p);
    } else if i == 7 {
      assert Body(w, base, len, 8) == "" && Digits(w, base, len, 7) == Hex(w[7]);
      LastWord(w, base, len, s, p);
    } else if InRun(base, len, i + 1) {
      WordThenRun(w, base, len, i, s, p);
    } else {
      WordThenWord(w, base, len, i, s, p);
    }
  }

  lemma DigitsStart(w: seq<nat>, base: int, len: int, i: nat)
    requires |w| == 8 && i < 8
    ensures Digits(w, base, len, i) != [] && IsHex(Digits(w, base, len, i)[0])
  {
    if Embeds(w, base, len, i) {
      assert Dotted(Quad(w[6], w[7]))[0] == Dec(w[6] / 256)[0];
    }
  }

  /** Inside the run only its first word prints anything: a colon. */
  lemma {:induction false} BodyOfRun(w: seq<nat>, base: int, len: int, i: nat)
    requires Printable(w, base, len) && base != -1 && base <= i <= base + len
    ensures Body(w, base, len, i) == (if i == base then ":" else "") + Body(w, base, len, base + len)
    decreases 8 - i
  {
    if i < base + len {
      BodyOfRun(w, base, len, i + 1);
    }
  }

  /** The second colon of the double colon is read, and then the rest. */
  lemma {:induction false} ScanRun(w: seq<nat>, base: int, len: int, s: string, p: nat)
    requires Printable(w, base, len) && base != -1
    requires Stands(s, p, Body(w, base, len, base + len)) && p + |Body(w, base, len, base + len)| == |s|
    ensures Scan(s, p, Fields(w[..base], -1)) == Some(Before(w, base, len, 8))
    ensures At(s, p) == ':'
    decreases 8 - base - len, 2
  {
    var e := base + len;
    var b := Body(w, base, len, e);
    assert b[0] == ':' && b[0] == At(s, p + 0);
    var f := Fields(w[..base], base);
    assert Before(w, base, len, e) == f;
    if e == 8 {
      assert At(s, p + 1) == '\0';
    } else {
      StandsSplit(s, p, ":", Digits(w, base, len, e));
      ScanDigits(w, base, len, e, s, p + 1);
    }
  }

  lemma ScanOctets(s: string, p: nat, f: Fields, o: seq<nat>)
    requires Octets(s, p, 4) == Some(o) && 0 < DigitRun(s, p) <= 3 && At(s, p + DigitRun(s, p)) == '.'
    ensures Scan(s, p, f) == Some(f.(words := f.words + Paired(o)))
  {
    RunIsHex(s, p);
    HexRunAt(s, p, 0);
  }

  lemma QuadWords(w: seq<nat>, base: int, len: int)
    requires Printable(w, base, len) && Embeds(w, base, len, 6) && !InRun(base, len, 6)
    ensures var f := Before(w, base, len, 6);
            f.(words := f.words + Paired(Quad(w[6], w[7]))) == Before(w, base, len, 8)
  {
    var f := Before(w, base, len, 6);
    BeforePlus(w, base, len, 6);
    BeforePlus(w, base, len, 7);
    assert Paired(Quad(w[6], w[7])) == [w[6], w[7]];
    assert f.words + [w[6], w[7]] == (f.words + [w[6]]) + [w[7]];
  }

  lemma ScanQuad(w: seq<nat>, base: int, len: int, s: string, p: nat)
    requires Printable(w, base, len) && Embeds(w, base, len, 6) && !InRun(base, len, 6)
    requires Stands(s, p, Digits(w, base, len, 6)) && p + |Digits(w, base, len, 6)| == |s|
    ensures Scan(s, p, Before(w, base, len, 6)) == Some(Before(w, base, len, 8))
  {
    var o := Quad(w[6], w[7]);
    assert Digits(w, base, len, 6) == Dotted(o) + "" == Dotted(o);
    QuadOctets(w[6], w[7], s, p);
    ScanOctets(s, p, Before(w, base, len, 6), o);
    QuadWords(w, base, len);
  }

  lemma QuadOctets(hi: nat, lo: nat, s: string, p: nat)
    requires hi < 65536 && lo < 65536
    requires Stands(s, p, Dotted(Quad(hi, lo))) && p + |Dotted(Quad(hi, lo))| == |s|
    ensures Octets(s, p, 4) == Some(Quad(hi, lo)) && 0 < DigitRun(s, p) <= 3 && At(s, p + DigitRun(s, p)) == '.'
  {
    DottedBack(Quad(hi, lo), s, p);
    DecShort(hi / 256);
  }

  /** Decimal digits up to a dot are hexadecimal digits up to it. */
  lemma RunIsHex(s: string, p: nat)
    requires At(s, p + DigitRun(s, p)) == '.'
    ensures HexRun(s, p) == DigitRun(s, p)
  {
    var n := DigitRun(s, p);
    forall k | p <= k < p + n ensures IsHex(At(s, k)) {
      RunAt(s, p, k - p);
    }
    RunOfHex(s, p, n);
    HexRunAt(s, p, n);
  }

  // ---- inet_pton6 after inet_ntop6 ----

  /** The printed text denotes the address it was printed from. */
  lemma RoundTrip(w: seq<nat>, base: int, len: int)
    requires Printable(w, base, len)
    ensures Ipv6(Body(w, base, len, 0)) == Some(w)
  {
    var s := Body(w, base, len, 0);
    assert Stands(s, 0, s);
    if base == 0 {
      BodyOfRun(w, base, len, 0);
      StandsSplit(s, 0, ":", Body(w, base, len, len));
      ScanRun(w, base, len, s, 1);
      assert ":"[0] == At(s, 0);
      assert Scan(s, 1, Fields([], -1)) == Scan(s, 2, Fields([], 0));
      assert w[..0] == [];
    } else {
      DigitsStart(w, base, len, 0);
      assert s == Digits(w, base, len, 0);
      ScanDigits(w, base, len, 0, s, 0);
    }
    CompleteShown(w, base, len);
  }

  lemma CompleteShown(w: seq<nat>, base: int, len: int)
    requires Printable(w, base, len)
    ensures Complete(Before(w, base, len, 8)) == Some(w)
  {
    var f := Before(w, base, len, 8);
    if base == -1 {
      assert w[..8] == w;
    } else {
      assert f.words == w[..base] + w[base + len..];
      assert f.words[..base] + Zeros(len) + f.words[base..] == w;
    }
  }
}
