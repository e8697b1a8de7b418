/** ParseIpv4Number and ParseIpv4 of src/EndPoint.cpp. */
module EndPointIpv4 {
  import opened AddressText

  newtype uint64 = x: int | 0 <= x < 0x1_0000_0000_0000_0000
  const UINT32_MAX: uint64 := 0xFFFF_FFFF
  const UINT64_MAX: uint64 := 0xFFFF_FFFF_FFFF_FFFF

  // ---- what the text means ----

  /** A number in a radix of at most sixteen; the empty text is zero. */
  ghost function InRadix(t: string, radix: nat): Option<nat> {
    if t == "" then Some(0)
    else
      var c := t[|t| - 1];
      match InRadix(t[..|t| - 1], radix)
      case None => None
      case Some(v) => if IsHex(c) && HexValue(c) < radix then Some(v * radix + HexValue(c)) else None
  }

  /** A prefix 0x or 0X says hexadecimal, a leading zero octal. */
  ghost function Number(t: string): Option<nat> {
    if |t| >= 2 && t[0] == '0' then
      if t[1] == 'x' || t[1] == 'X' then InRadix(t[2..], 16) else InRadix(t[1..], 8)
    else InRadix(t, 10)
  }

  /** Where the part that starts at i ends. */
  ghost function PartEnd(s: string, i: nat): (j: nat)
    requires i <= |s|
    ensures i <= j <= |s|
    decreases |s| - i
  {
    if i == |s| || s[i] == '.' || s[i] == '\0' then i else PartEnd(s, i + 1)
  }

  /** The parts between the dots; one dot may end the string. A NUL inside the string separates like a dot. */
  ghost function Parts(s: string, i: nat): (p: seq<string>)
    requires i <= |s|
    ensures p != []
    decreases |s| - i
  {
    var j := PartEnd(s, i);
    if Ends(s, j) then [s[i..j]] else [s[i..j]] + Parts(s, j + 1)
  }

  ghost predicate IsPart(t: string) { t != "" && Number(t).Some? }

  /** At most four parts, each of them a number. */
  ghost predicate Numeric(s: string) {
    |Parts(s, 0)| <= 4 && forall k :: 0 <= k < |Parts(s, 0)| ==> IsPart(Parts(s, 0)[k])
  }

  ghost function Values(p: seq<string>): (v: seq<nat>)
    requires forall k :: 0 <= k < |p| ==> IsPart(p[k])
    ensures |v| == |p| && forall k :: 0 <= k < |p| ==> IsPart(p[k]) && v[k] == Number(p[k]).value
  {
    if p == [] then [] else
      var n := |p| - 1;
      assert IsPart(p[n]);
      Values(p[..n]) + [Number(p[n]).value]
  }

  function Pow256(n: nat): (p: nat)
    ensures p >= 1
  {
    if n == 0 then 1 else 256 * Pow256(n - 1)
  }

  /** Each part but the last is one byte, the last one fills the bytes that are left. */
  ghost predicate Fits(v: seq<nat>) {
    && 1 <= |v| <= 4 && (forall k :: 0 <= k < |v| - 1 ==> v[k] <= 255)
    && v[|v| - 1] < Pow256(5 - |v|)
  }

  /** The first n parts as the leading bytes of a 32-bit number. */
  ghost function Leading(v: seq<nat>, n: nat): nat
    requires n <= |v| <= 4
  {
    if n == 0 then 0 else Leading(v, n - 1) + v[n - 1] * Pow256(4 - n)
  }

  ghost function Address(v: seq<nat>): nat
    requires 1 <= |v| <= 4
  {
    Leading(v, |v| - 1) + v[|v| - 1]
  }

  lemma Powers()
    ensures Pow256(0) == 1 && Pow256(1) == 256 && Pow256(2) == 65536 && Pow256(3) == 0x100_0000 && Pow256(4) == 0x1_0000_0000
  {
    assert Pow256(2) == 256 * Pow256(1) && Pow256(3) == 256 * Pow256(2) && Pow256(4) == 256 * Pow256(3);
  }

  /** The leading bytes leave room for one byte less than the rest of the number. */
  lemma {:induction false} LeadingBound(v: seq<nat>, n: nat)
    requires n <= |v| <= 4 && forall k :: 0 <= k < n ==> v[k] <= 255
    ensures Leading(v, n) <= Pow256(4) - Pow256(4 - n)
  {
    Powers();
    if n > 0 {
      LeadingBound(v, n - 1);
    }
  }

  /** Byte k of a number whose k leading bytes are known. */
  lemma {:induction false} LeadingByte(v: seq<nat>, n: nat, k: nat, rest: nat)
    requires k < n <= |v| <= 4 && (forall j :: 0 <= j < n ==> v[j] <= 255) && rest < Pow256(4 - n)
    ensures (Leading(v, n) + rest) / Pow256(3 - k) % 256 == v[k]
    decreases n
  {
    Powers();
    if k == n - 1 {
      LeadingMultiple(v, n - 1);
      var q := Leading(v, n - 1) / Pow256(5 - n);
      ByteOf(q, v[k], rest, Pow256(4 - n));
    } else {
      LeadingByte(v, n - 1, k, v[n - 1] * Pow256(4 - n) + rest);
    }
  }

  lemma ByteOf(q: nat, b: nat, rest: nat, unit: nat)
    requires b <= 255 && rest < unit
    ensures (q * (256 * unit) + b * unit + rest) / unit % 256 == b
  {
    assert q * (256 * unit) + b * unit + rest == unit * (256 * q + b) + rest;
    Quotient(256 * q + b, rest, unit);
  }

  lemma Quotient(q: nat, rest: nat, unit: nat)
    requires rest < unit
    ensures (unit * q + rest) / unit == q && (unit * q + rest) % unit == rest
  {
    var n := unit * q + rest;
    var d := n / unit - q;
    assert n == unit * (n / unit) + n % unit;
    assert unit * d == rest - n % unit;
    assert d >= 1 ==> unit * d >= unit;
    assert d <= -1 ==> unit * d + unit <= 0;
  }

  lemma {:induction false} LeadingMultiple(v: seq<nat>, n: nat)
    requires n <= |v| <= 4
    ensures Leading(v, n) == Leading(v, n) / Pow256(4 - n) * Pow256(4 - n)
  {
    Powers();
    if n > 0 {
      LeadingMultiple(v, n - 1);
      var q, unit := Leading(v, n - 1) / Pow256(5 - n), Pow256(4 - n);
      assert Leading(v, n) == unit * (256 * q + v[n - 1]);
      Quotient(256 * q + v[n - 1], 0, unit);
    }
  }

  lemma LastPart(v: seq<nat>)
    requires Fits(v)
    ensures Address(v) % Pow256(5 - |v|) == v[|v| - 1]
  {
    var n := |v| - 1;
    var q, unit := Leading(v, n) / Pow256(4 - n), Pow256(4 - n);
    LeadingMultiple(v, n);
    assert Address(v) == unit * q + v[n];
    Quotient(q, v[n], unit);
  }

  /** An address that fits is a 32-bit number whose leading bytes are the parts and whose rest is the last part. */
  lemma AddressBytes(v: seq<nat>)
    requires Fits(v)
    ensures Address(v) < 0x1_0000_0000
    ensures Address(v) % Pow256(5 - |v|) == v[|v| - 1]
    ensures forall k :: 0 <= k < |v| - 1 ==> Address(v) / Pow256(3 - k) % 256 == v[k]
  {
    var n := |v| - 1;
    Powers();
    LeadingBound(v, n);
    LastPart(v);
    forall k | 0 <= k < n ensures Address(v) / Pow256(3 - k) % 256 == v[k] {
      LeadingByte(v, n, k, v[n]);
    }
  }

  // ---- ParseIpv4Number ----

  function Saturated(v: nat): uint64 { if v <= 0xFFFF_FFFF then v as uint64 else UINT64_MAX }

  lemma {:induction false} RadixPrefix(t: string, n: nat, radix: nat)
    requires n <= |t| && InRadix(t[..n], radix).None?
    ensures InRadix(t, radix).None?
    decreases |t| - n
  {
    if n < |t| {
      assert t[..n + 1][..n] == t[..n];
      RadixPrefix(t, n + 1, radix);
    } else {
      assert t[..n] == t;
    }
  }

  method ParseNumber(s: string, start0: nat, end: nat) returns (ok: bool, result: uint64)
    requires start0 <= end <= |s|
    ensures ok <==> Number(s[start0..end]).Some?
    ensures ok ==> result == Saturated(Number(s[start0..end]).value)
  {
    var start := start0;
    var radix: nat := 10;
    if end - start >= 2 {
      if s[start] == '0' && (s[start + 1] == 'x' || s[start + 1] == 'X') {
        start := start + 2;
        radix := 16;
      } else if s[start] == '0' {
        start := start + 1;
        radix := 8;
      }
    }
    ghost var t := s[start..end];
    assert Number(s[start0..end]) == InRadix(t, radix) by {
      assert radix == 16 ==> s[start0..end][2..] == t;
      assert radix == 8 ==> s[start0..end][1..] == t;
    }
    ok, result := ParseDigits(s, start, end, radix);
  }

  // One digit of ParseIpv4Number. The intermediate value fits 64 bits.
  method TakeDigit(ch: char, radix: nat, result0: uint64, ghost v: nat) returns (ok: bool, result: uint64)
    requires radix in {8, 10, 16} && result0 == Saturated(v)
    ensures ok <==> IsHex(ch) && HexValue(ch) < radix
    ensures ok ==> result == Saturated(v * radix + HexValue(ch))
  {
    result := result0;
    if 'a' <= ch <= 'f' {
      if radix != 16 {
        return false, result;
      }
      if result != UINT64_MAX {
        result := result * 16 + (ch as int - 'a' as int) as uint64 + 10;
      }
    } else if 'A' <= ch <= 'F' {
      if radix != 16 {
        return false, result;
      }
      if result != UINT64_MAX {
        result := result * 16 + (ch as int - 'A' as int) as uint64 + 10;
      }
    } else if '0' <= ch <= '9' {
      if (ch == '8' || ch == '9') && radix == 8 {
        return false, result;
      }
      if result != UINT64_MAX {
        result := result * radix as uint64 + (ch as int - '0' as int) as uint64;
      }
    } else {
      return false, result;
    }
    if result > UINT32_MAX {
      result := UINT64_MAX;
    }
    ok := true;
  }

  // The loop of ParseIpv4Number.
  method ParseDigits(s: string, start0: nat, end: nat, radix: nat) returns (ok: bool, result: uint64)
    requires start0 <= end <= |s| && radix in {8, 10, 16}
    ensures ok <==> InRadix(s[start0..end], radix).Some?
    ensures ok ==> result == Saturated(InRadix(s[start0..end], radix).value)
  {
    ghost var t := s[start0..end];
    var start := start0;
    result := 0;
    if start >= end {
      return true, result;
    }
    ghost var v: nat := 0;
    while start < end
      invariant start0 <= start <= end
      invariant InRadix(t[..start - start0], radix) == Some(v) && result == Saturated(v)
    {
      var ch := s[start];
      start := start + 1;
      ghost var n := start - start0;
      assert t[..n][..n - 1] == t[..n - 1] && t[..n][n - 1] == ch;
      ok, result := TakeDigit(ch, radix, result, v);
      if !ok {
        RadixPrefix(t, n, radix);
        return;
      }
      v := v * radix + HexValue(ch);
    }
    assert t[..end - start0] == t;
    ok := true;
  }

  // ---- ParseIpv4 ----

  /** False stands for "not an IPv4 text", the exception for a text whose numbers make no address. */
  datatype Ipv4Result = Parsed(address: nat) | NotIpv4 | BadFormat

  lemma {:induction false} PartEndAt(s: string, i: nat, k: nat)
    requires i <= |s| && i <= k <= PartEnd(s, i)
    ensures k < PartEnd(s, i) ==> s[k] != '.' && s[k] != '\0'
    ensures k == PartEnd(s, i) ==> k == |s| || s[k] == '.' || s[k] == '\0'
    decreases k - i
  {
    if i < k {
      PartEndAt(s, i + 1, k);
    }
  }

  /** The text before mark is split into done, which holds the numbers so far. */
  ghost predicate Split(s: string, mark: nat, done: seq<string>, numbers: seq<uint64>, last: bool) {
    && |done| <= 4 == |numbers| && (forall k :: 0 <= k < |done| ==> IsPart(done[k]) && numbers[k] == Saturated(Number(done[k]).value))
    && (!last ==> mark <= |s| && Parts(s, 0) == done + Parts(s, mark))
    && (last ==> Parts(s, 0) == done)
  }

  lemma SplitPart(s: string, mark: nat, done: seq<string>, numbers: seq<uint64>, n: uint64)
    requires Split(s, mark, done, numbers, false)
    ensures var j := PartEnd(s, mark);
            var t := s[mark..j];
            var last := Ends(s, j);
            if |done| == 4 || !IsPart(t) then !Numeric(s)
            else n == Saturated(Number(t).value) ==> Split(s, j + 1, done + [t], numbers[|done| := n], last)
  {
    var j := PartEnd(s, mark);
    var t := s[mark..j];
    var last := Ends(s, j);
    if !last {
      assert done + ([t] + Parts(s, j + 1)) == (done + [t]) + Parts(s, j + 1);
    }
    assert Parts(s, 0)[|done|] == t;
  }

  /** The loop of ParseIpv4 between two characters. */
  ghost predicate Splitting(s: string, mark: nat, done: seq<string>, numbers: seq<uint64>, last: bool, parts: nat, tooBigParts: nat) {
    Split(s, mark, done, numbers, last) && |done| == parts && tooBigParts == Big(numbers[..parts])
  }

  // A part ends at start.
  method TakePart(s: string, mark: nat, start: nat, numbers: array<uint64>, parts0: nat, tooBigParts0: nat, ghost done: seq<string>)
    returns (ok: bool, parts: nat, tooBigParts: nat)
    requires numbers.Length == 4 && Splitting(s, mark, done, numbers[..], false, parts0, tooBigParts0) && start == PartEnd(s, mark)
    modifies numbers
    ensures !ok ==> !Numeric(s)
    ensures ok ==> Splitting(s, start + 1, done + [s[mark..start]], numbers[..], Ends(s, start), parts, tooBigParts)
  {
    parts, tooBigParts := parts0 + 1, tooBigParts0;
    SplitPart(s, mark, done, numbers[..], 0);
    if parts > 4 || start == mark {
      return false, parts, tooBigParts;
    }
    var n;
    ok, n := ParseNumber(s, mark, start);
    if !ok {
      return;
    }
    SplitPart(s, mark, done, numbers[..], n);
    BigMore(numbers[..], parts - 1, n);
    if n > 255 {
      tooBigParts := tooBigParts + 1;
    }
    numbers[parts - 1] := n;
  }

  /** No part follows the one that ends at j. */
  ghost predicate Ends(s: string, j: nat)
    requires j <= |s|
  {
    j == |s| || (s[j] == '.' && j + 1 == |s|)
  }

  // The loop of ParseIpv4: cuts the string at its dots; ok is false as soon as a part is none.
  method SplitParts(s: string, numbers: array<uint64>) returns (ok: bool, parts: nat, tooBigParts: nat)
    requires numbers.Length == 4
    modifies numbers
    ensures ok <==> Numeric(s)
    ensures ok ==> parts == |Parts(s, 0)| && tooBigParts == Big(numbers[..parts])
    ensures ok ==> forall k :: 0 <= k < parts ==> numbers[k] == Saturated(Number(Parts(s, 0)[k]).value)
  {
    var start: nat, mark: nat := 0, 0;
    parts, tooBigParts := 0, 0;
    ghost var done, last := [], false;
    while start <= |s|
      invariant Splitting(s, mark, done, numbers[..], last, parts, tooBigParts)
      invariant if last then start > |s| else mark <= start <= PartEnd(s, mark)
      decreases |s| + 1 - start
    {
      var ch := if start < |s| then s[start] else '\0';
      PartEndAt(s, mark, start);
      if ch == '.' || ch == '\0' {
        ok, parts, tooBigParts := TakePart(s, mark, start, numbers, parts, tooBigParts, done);
        if !ok {
          return;
        }
        done, last := done + [s[mark..start]], Ends(s, start);
        mark := start + 1;
        if ch == '.' && start + 1 >= |s| {
          break;
        }
      }
      start := start + 1;
    }
    ok := true;
  }

  function Big(v: seq<uint64>): nat {
    if v == [] then 0 else Big(v[..|v| - 1]) + if v[|v| - 1] > 255 then 1 else 0
  }

  lemma BigMore(v: seq<uint64>, k: nat, n: uint64)
    requires k < |v|
    ensures Big(v[k := n][..k + 1]) == Big(v[..k]) + if n > 255 then 1 else 0
  {
    assert v[k := n][..k + 1][..k] == v[..k];
  }

  lemma {:induction false} BigIsZero(v: seq<uint64>)
    ensures Big(v) == 0 <==> forall k :: 0 <= k < |v| ==> v[k] <= 255
  {
    if v != [] {
      BigIsZero(v[..|v| - 1]);
      assert forall k :: 0 <= k < |v| - 1 ==> v[..|v| - 1][k] == v[k];
    }
  }

  /** The range checks as the source makes them. */
  lemma RangeChecks(v: seq<nat>, numbers: seq<uint64>)
    requires 1 <= |v| == |numbers| <= 4 && forall k :: 0 <= k < |v| ==> numbers[k] == Saturated(v[k])
    ensures var last := numbers[|v| - 1];
            Fits(v) <==> !(Big(numbers) > 1 || (Big(numbers) == 1 && last <= 255) || last as int >= Pow256(5 - |v|))
  {
    var n := |v| - 1;
    BigIsZero(numbers[..n]);
    Powers();
    assert forall k :: 0 <= k < n ==> numbers[..n][k] == Saturated(v[k]);
    assert Pow256(5 - |v|) <= 0x1_0000_0000;
  }

  // ParseIpv4.
  method ParseIpv4(s: string) returns (r: Ipv4Result)
    ensures r.NotIpv4? <==> !Numeric(s)
    ensures Numeric(s) ==> (r.Parsed? <==> Fits(Values(Parts(s, 0))))
    ensures r.Parsed? ==> r.address == Address(Values(Parts(s, 0))) < 0x1_0000_0000
  {
    var numbers := new uint64[4](_ => 0);
    var ok, parts, tooBigParts := SplitParts(s, numbers);
    if !ok {
      return NotIpv4;
    }
    ghost var v := Values(Parts(s, 0));
    RangeChecks(v, numbers[..parts]);
    var last := numbers[parts - 1];
    if tooBigParts > 1 || (tooBigParts == 1 && last <= 255) || last as int >= Pow256(5 - parts) {
      return BadFormat;
    }
    var address := Sum(numbers, parts, v);
    r := Parsed(address);
  }

  // The sum of the parts; neither it nor the cast to 32 bits loses anything.
  method Sum(numbers: array<uint64>, parts: nat, ghost v: seq<nat>) returns (out: nat)
    requires numbers.Length == 4 && parts == |v| && Fits(v)
    requires forall k :: 0 <= k < parts ==> numbers[k] == Saturated(v[k])
    ensures out == Address(v) < 0x1_0000_0000
  {
    AddressBytes(v);
    Powers();
    var val := numbers[parts - 1];
    for n := 0 to parts - 1
      invariant val as int == v[parts - 1] + Leading(v, n)
    {
      LeadingGrows(v, n + 1);
      val := val + (numbers[n] as int * Pow256(3 - n)) as uint64;
    }
    out := val as int % 0x1_0000_0000;
  }

  lemma {:induction false} LeadingGrows(v: seq<nat>, n: nat)
    requires Fits(v) && n <= |v| - 1
    ensures Leading(v, n) + v[|v| - 1] <= Address(v)
    decreases |v| - n
  {
    if n < |v| - 1 {
      LeadingGrows(v, n + 1);
    }
  }

  // ---- inet_pton4 against ParseIpv4 ----

  lemma {:induction false} DecimalIsRadix(s: string, i: nat, n: nat)
    requires n <= DigitRun(s, i) && i + n <= |s|
    ensures InRadix(s[i..i + n], 10) == Some(Decimal(s, i, n))
    decreases n
  {
    if n > 0 {
      RunAt(s, i, n - 1);
      DecimalIsRadix(s, i, n - 1);
      assert s[i..i + n][..n - 1] == s[i..i + n - 1];
    }
  }

  lemma {:induction false} DigitsFit(s: string, i: nat)
    requires i <= |s|
    ensures i + DigitRun(s, i) <= |s|
    decreases |s| - i
  {
    if IsDigit(At(s, i)) {
      DigitsFit(s, i + 1);
    }
  }

  lemma {:induction false} PartOfDigits(s: string, i: nat)
    requires i + DigitRun(s, i) <= |s| && At(s, i + DigitRun(s, i)) in {'.', '\0'}
    ensures PartEnd(s, i) == i + DigitRun(s, i)
    decreases DigitRun(s, i)
  {
    if DigitRun(s, i) > 0 {
      PartOfDigits(s, i + 1);
    }
  }

  /** A number without a leading zero is decimal for both parsers. */
  lemma SameNumber(s: string, i: nat)
    requires var n := DigitRun(s, i); n > 0 && i + n <= |s| && (n > 1 ==> At(s, i) != '0')
    ensures Number(s[i..i + DigitRun(s, i)]) == Some(Decimal(s, i, DigitRun(s, i)))
  {
    DecimalIsRadix(s, i, DigitRun(s, i));
  }

  lemma {:induction false} SameParts(s: string, i: nat, k: nat)
    requires NulFree(s) && i <= |s| && Octets(s, i, k).Some?
    ensures |Parts(s, i)| == k == |Octets(s, i, k).value|
    ensures forall j :: 0 <= j < k ==> IsPart(Parts(s, i)[j]) && Number(Parts(s, i)[j]) == Some(Octets(s, i, k).value[j])
    ensures forall j :: 0 <= j < k ==> Octets(s, i, k).value[j] <= 255
    decreases k
  {
    var n := DigitRun(s, i);
    DigitsFit(s, i);
    PartOfDigits(s, i);
    SameNumber(s, i);
    if k > 1 {
      SameParts(s, i + n + 1, k - 1);
    }
  }

  /** Every string that inet_pton4 accepts ParseIpv4 accepts, and both read the same address. */
  lemma Pton4Accepted(s: string)
    requires NulFree(s) && Ipv4(s).Some?
    ensures Numeric(s) && Values(Parts(s, 0)) == Ipv4(s).value && Fits(Values(Parts(s, 0)))
  {
    SameParts(s, 0, 4);
    assert |Parts(s, 0)| == 4;
    assert Values(Parts(s, 0)) == Ipv4(s).value;
    Powers();
  }
}
