/** inet_ntop4 and inet_ntop6 of 3rd/libuv/src/inet.c. */
module InetPrint {
  import opened AddressText
  import opened Errors
  import opened AddressPrint
  import opened Inet

  const INET_ADDRSTRLEN := 16
  const INET6_ADDRSTRLEN := 46

  ghost predicate Bytes(b: seq<nat>) { forall k :: 0 <= k < |b| ==> b[k] < 256 }

  /** The C string t stands at the start of b. */
  ghost predicate HoldsText(b: seq<char>, t: string) {
    |t| < |b| && b[..|t|] == t && b[|t|] == '\0'
  }

  // ---- the run to shorten ----

  /** The longest zero run, the first of several, among those that end at or before the limit. */
  ghost predicate Best(w: seq<nat>, limit: int, base: int, len: int) {
    && (base == -1 ==> forall b, l :: AllZero(w, b, l) && l > 0 ==> b + l > limit)
    && (base != -1 ==> AllZero(w, base, len) && len > 0 && base + len <= limit)
    && (base != -1 ==> forall b, l :: AllZero(w, b, l) && l > 0 && b + l <= limit ==> l < len || (l == len && base <= b))
  }

  /** The zero run that ends in front of word i; base is -1 if word i - 1 is not zero. */
  ghost predicate Current(w: seq<nat>, i: int, base: int, len: int) {
    && 0 <= i <= |w|
    && if base == -1 then i > 0 ==> w[i - 1] != 0
       else AllZero(w, base, len) && len > 0 && base + len == i && (base > 0 ==> w[base - 1] != 0)
  }

  /** A run ends in front of word i; the better of it and the best so far is the best up to i. */
  lemma RunEnds(w: seq<nat>, i: int, base: int, len: int, curBase: int, curLen: int)
    requires Current(w, i, curBase, curLen) && curBase != -1 && Best(w, curBase, base, len)
    ensures if base == -1 || curLen > len then Best(w, i, curBase, curLen) else Best(w, i, base, len)
  {
    forall b, l | AllZero(w, b, l) && l > 0 && b + l <= i
      ensures b + l <= curBase || (b >= curBase && l <= curLen && (l == curLen ==> b == curBase))
    {
    }
  }

  lemma PastNonzero(w: seq<nat>, i: int, base: int, len: int)
    requires 0 <= i < |w| && w[i] != 0 && Best(w, i, base, len)
    ensures Best(w, i + 1, base, len)
  {
    forall b, l | AllZero(w, b, l) && l > 0 && b + l <= i + 1
      ensures b + l <= i
    {
    }
  }

  method LongestRun(words: seq<nat>) returns (base: int, len: int)
    ensures Longest(words, base, len)
  {
    base, len := -1, 0;
    var curBase, curLen := -1, 0;
    for i := 0 to |words|
      invariant Current(words, i, curBase, curLen)
      invariant Best(words, if curBase == -1 then i else curBase, base, len)
    {
      if words[i] == 0 {
        if curBase == -1 {
          curBase, curLen := i, 1;
        } else {
          curLen := curLen + 1;
        }
      } else {
        if curBase != -1 {
          RunEnds(words, i, base, len, curBase, curLen);
          if base == -1 || curLen > len {
            base, len := curBase, curLen;
          }
          curBase := -1;
        }
        PastNonzero(words, i, base, len);
      }
    }
    if curBase != -1 {
      RunEnds(words, |words|, base, len, curBase, curLen);
      if base == -1 || curLen > len {
        base, len := curBase, curLen;
      }
    }
    if base != -1 && len < 2 {
      base := -1;
    }
  }

  // ---- the text fits ----

  lemma {:induction false} DottedShort(o: seq<nat>)
    requires Bytes(o)
    ensures |Dotted(o)| <= 4 * |o| && (o != [] ==> |Dotted(o)| < 4 * |o|)
  {
    if o != [] {
      DecShort(o[0]);
      if |o| > 1 {
        DottedShort(o[1..]);
      }
    }
  }

  lemma {:induction false} BodyShort(w: seq<nat>, base: int, len: int, i: nat)
    requires Printable(w, base, len) && i <= 8
    ensures |Body(w, base, len, i)| <= 5 * (8 - i) + if base == 0 && len >= 5 then 7 else 1
    decreases 8 - i
  {
    if i < 8 {
      if !InRun(base, len, i) && Embeds(w, base, len, i) {
        DottedShort(Quad(w[6], w[7]));
      } else {
        HexShort(w[i]);
        BodyShort(w, base, len, i + 1);
      }
    }
  }

  /** The text and its NUL fit the 46 bytes of tmp. */
  lemma TextFits(w: seq<nat>, base: int, len: int)
    requires Printable(w, base, len)
    ensures |Body(w, base, len, 0)| < INET6_ADDRSTRLEN
  {
    BodyShort(w, base, len, 0);
    if base == 0 && len >= 5 {
      BodyOfRun(w, base, len, 0);
      BodyShort(w, base, len, len);
    }
  }

  // ---- printing ----

  // sprintf, and strcpy: the text and a NUL.
  method PutText(dst: array<char>, at: nat, t: string)
    requires at + |t| < dst.Length
    modifies dst
    ensures dst[..at + |t|] == old(dst[..at]) + t && dst[at + |t|] == '\0'
  {
    for k := 0 to |t|
      invariant dst[..at + k] == old(dst[..at]) + t[..k]
    {
      dst[at + k] := t[k];
    }
    dst[at + |t|] := '\0';
    assert dst[..at + |t|] == old(dst[..at]) + t[..|t|];
  }

  // strncpy of a text shorter than size: NULs fill the rest.
  method PutPadded(dst: array<char>, at: nat, t: string, size: nat)
    requires |t| < size && at + size <= dst.Length
    modifies dst
    ensures dst[..at + |t|] == old(dst[..at]) + t && dst[at + |t|] == '\0'
  {
    PutText(dst, at, t);
    forall k | at + |t| <= k < at + size {
      dst[k] := '\0';
    }
    assert dst[..at + |t|] == old(dst[..at]) + t;
  }

  // inet_ntop4, printing at offset at of dst, where size bytes are left.
  method Ntop4(src: seq<nat>, dst: array<char>, at: nat, size: nat) returns (err: int)
    requires |src| == 4 && Bytes(src) && at + size <= dst.Length
    modifies dst
    ensures err == if |Dotted(src)| < size then 0 else UV_ENOSPC
    ensures err == 0 ==> dst[..at + |Dotted(src)|] == old(dst[..at]) + Dotted(src) && dst[at + |Dotted(src)|] == '\0'
    ensures err != 0 ==> dst[..] == old(dst[..])
  {
    DottedShort(src);
    var tmp := Dec(src[0]) + ("." + (Dec(src[1]) + ("." + (Dec(src[2]) + ("." + Dec(src[3]))))));
    assert tmp == Dotted(src) && |tmp| < INET_ADDRSTRLEN by {
      FourOctets(src);
    }
    if |tmp| <= 0 || |tmp| >= size {
      return UV_ENOSPC;
    }
    PutPadded(dst, at, tmp, size);
    return 0;
  }

  lemma FourOctets(o: seq<nat>)
    requires |o| == 4
    ensures Dotted(o) == Dec(o[0]) + ("." + (Dec(o[1]) + ("." + (Dec(o[2]) + ("." + Dec(o[3]))))))
  {
    assert Dotted(o[1..]) == Dec(o[1]) + ("." + Dotted(o[2..])) by { assert o[1..][1..] == o[2..]; }
    assert Dotted(o[2..]) == Dec(o[2]) + ("." + Dotted(o[3..])) by { assert o[2..][1..] == o[3..]; }
    assert Dotted(o[3..]) == Dec(o[3]);
  }

  // The loop that copies the bytes into words. The bits do not overlap, so |= adds.
  method Words(src: seq<nat>) returns (words: array<nat>)
    requires |src| == 16 && Bytes(src)
    ensures fresh(words) && words.Length == 8 && Holds(src, words[..])
  {
    words := new nat[8](_ => 0);
    for i := 0 to 16
      invariant forall k :: 0 <= k < i / 2 ==> words[k] == src[2 * k] * 256 + src[2 * k + 1]
      invariant i % 2 == 1 ==> words[i / 2] == src[i - 1] * 256
      invariant forall k :: (i + 1) / 2 <= k < 8 ==> words[k] == 0
    {
      words[i / 2] := words[i / 2] + src[i] * if i % 2 == 0 then 256 else 1;
    }
  }

  method StrLen(dst: array<char>, at: nat, ghost length: nat) returns (n: nat)
    requires at + length < dst.Length && dst[at + length] == '\0'
    requires forall k :: at <= k < at + length ==> dst[k] != '\0'
    ensures n == length
  {
    n := 0;
    while dst[at + n] != '\0'
      invariant n <= length
      decreases length - n
    {
      n := n + 1;
    }
  }

  lemma {:induction false} DottedNulFree(o: seq<nat>)
    ensures NulFree(Dotted(o))
  {
    if |o| > 1 {
      DottedNulFree(o[1..]);
    }
  }

  /** The text is printed up to tp; the rest of it is still to come. */
  ghost predicate Printed(b: seq<char>, tp: nat, text: string, rest: string) {
    tp <= |text| < |b| && b[..tp] == text[..tp] && text[tp..] == rest
  }

  lemma PrintedMore(b: seq<char>, b': seq<char>, tp: nat, text: string, t: string, rest: string)
    requires Printed(b, tp, text, t + rest) && |b| == |b'|
    requires tp + |t| <= |b'| && b'[..tp + |t|] == b[..tp] + t
    ensures Printed(b', tp + |t|, text, rest)
  {
    assert text[..tp + |t|] == text[..tp] + t by {
      assert forall k :: 0 <= k < |t| ==> text[tp..][k] == t[k];
    }
    assert text[tp + |t|..] == text[tp..][|t|..] == rest;
  }

  method Put(tmp: array<char>, at: nat, t: string, ghost text: string, ghost rest: string) returns (tp: nat)
    requires Printed(tmp[..], at, text, t + rest)
    modifies tmp
    ensures tp == at + |t| && Printed(tmp[..], tp, text, rest)
  {
    PrintedRoom(tmp[..], at, text, t, rest);
    ghost var b := tmp[..];
    PutText(tmp, at, t);
    tp := at + |t|;
    assert tmp[..][..tp] == tmp[..tp] && b[..at] == old(tmp[..at]);
    PrintedMore(b, tmp[..], at, text, t, rest);
  }

  lemma PrintedRoom(b: seq<char>, tp: nat, text: string, t: string, rest: string)
    requires Printed(b, tp, text, t + rest)
    ensures tp + |t| + |rest| == |text| < |b|
  {
  }

  // The embedded inet_ntop4 of inet_ntop6 and the strlen behind it.
  method FormatQuad(src: seq<nat>, ghost words: seq<nat>, tmp: array<char>, at: nat, ghost text: string, ghost rest: string)
    returns (err: int, tp: nat)
    requires |src| == 16 && |words| == 8 && Holds(src, words) && tmp.Length == INET6_ADDRSTRLEN
    requires Printed(tmp[..], at, text, Dotted(Quad(words[6], words[7])) + rest)
    modifies tmp
    ensures err == 0 && Printed(tmp[..], tp, text, rest)
  {
    ghost var t, b := Dotted(Quad(words[6], words[7])), tmp[..];
    PrintedRoom(b, at, text, t, rest);
    QuadBytes(src[12], src[13], src[14], src[15]);
    assert src[12..] == [src[12], src[13], src[14], src[15]] == Quad(words[6], words[7]);
    err := Ntop4(src[12..], tmp, at, INET6_ADDRSTRLEN - at);
    assert tmp[..][..at + |t|] == tmp[..at + |t|] && b[..at] == old(tmp[..at]);
    PrintedMore(b, tmp[..], at, text, t, rest);
    DottedNulFree(Quad(words[6], words[7]));
    forall k | at <= k < at + |t| ensures tmp[k] != '\0' {
      assert tmp[..at + |t|][k] == t[k - at];
    }
    var n := StrLen(tmp, at, |t|);
    tp := at + n;
  }

  lemma QuadBytes(a: nat, b: nat, c: nat, d: nat)
    requires a < 256 && b < 256 && c < 256 && d < 256
    ensures Quad(a * 256 + b, c * 256 + d) == [a, b, c, d]
  {
  }

  // The part of the loop behind the colon: a quad, after which the loop ends, or one word.
  method FormatDigits(src: seq<nat>, words: seq<nat>, base: int, len: int, i: nat, tmp: array<char>, at: nat, ghost text: string)
    returns (err: int, tp: nat, last: bool)
    requires |src| == 16 && |words| == 8 && Holds(src, words) && i < 8 && tmp.Length == INET6_ADDRSTRLEN
    requires Printed(tmp[..], at, text, Digits(words, base, len, i))
    modifies tmp
    ensures err == 0
    ensures Printed(tmp[..], tp, text, if last then Trailer(base, len) else Body(words, base, len, i + 1))
  {
    err := 0;
    last := Embeds(words, base, len, i);
    if last {
      err, tp := FormatQuad(src, words, tmp, at, text, Trailer(base, len));
    } else {
      tp := Put(tmp, at, Hex(words[i]), text, Body(words, base, len, i + 1));
    }
  }

  // One round of the loop of inet_ntop6 over the words.
  method FormatWord(src: seq<nat>, words: seq<nat>, base: int, len: int, i: nat, tmp: array<char>, at: nat, ghost text: string)
    returns (err: int, tp: nat, last: bool)
    requires |src| == 16 && |words| == 8 && Holds(src, words) && i < 8 && tmp.Length == INET6_ADDRSTRLEN
    requires Printed(tmp[..], at, text, Body(words, base, len, i))
    modifies tmp
    ensures err == 0
    ensures Printed(tmp[..], tp, text, if last then Trailer(base, len) else Body(words, base, len, i + 1))
  {
    err, tp, last := 0, at, false;
    if InRun(base, len, i) {
      if i == base {
        tp := Put(tmp, tp, ":", text, Body(words, base, len, i + 1));
      }
      return;
    }
    if i != 0 {
      tp := Put(tmp, tp, ":", text, Digits(words, base, len, i));
    }
    err, tp, last := FormatDigits(src, words, base, len, i, tmp, tp, text);
  }

  // The loop over the words and the colon of a run at the end.
  method Format(src: seq<nat>, words: seq<nat>, base: int, len: int, tmp: array<char>, ghost text: string)
    returns (err: int, tp: nat)
    requires |src| == 16 && |words| == 8 && Holds(src, words) && tmp.Length == INET6_ADDRSTRLEN
    requires text == Body(words, base, len, 0) && |text| < tmp.Length
    modifies tmp
    ensures err == 0 && Printed(tmp[..], tp, text, "")
  {
    err, tp := 0, 0;
    assert text[0..] == text;
    var i, last := 0, false;
    while i < 8
      invariant 0 <= i <= 8 && Printed(tmp[..], tp, text, Body(words, base, len, i))
    {
      err, tp, last := FormatWord(src, words, base, len, i, tmp, tp, text);
      if err != 0 {
        assert false;  // the source returns err here; a quad always fits
      }
      if last {
        break;
      }
      i := i + 1;
    }
    assert Printed(tmp[..], tp, text, Trailer(base, len));
    if base != -1 && base + len == 8 {
      tp := Put(tmp, tp, ":", text, "");
    }
  }

  // The overflow check of inet_ntop6 and the copy behind it.
  method Deliver(tmp: array<char>, end: nat, dst: array<char>, size: nat, ghost text: string) returns (err: int)
    requires Printed(tmp[..], end, text, "") && size <= dst.Length && tmp != dst
    modifies tmp, dst
    ensures err == if |text| < size then 0 else UV_ENOSPC
    ensures err == 0 ==> HoldsText(dst[..], text)
    ensures err != 0 ==> dst[..] == old(dst[..])
  {
    var tp := end;
    tmp[tp] := '\0';
    tp := tp + 1;
    if tp > size {
      return UV_ENOSPC;
    }
    assert tmp[..end] == old(tmp[..][..end]) == text;
    PutText(dst, 0, tmp[..end]);
    assert dst[..][..end] == dst[..end] == text;
    return 0;
  }

  // inet_ntop6. The text is read back by inet_pton6 as the same sixteen bytes.
  method Ntop6(src: seq<nat>, dst: array<char>, size: nat)
    returns (err: int, ghost words: seq<nat>, ghost base: int, ghost len: int)
    requires |src| == 16 && Bytes(src) && size <= dst.Length
    modifies dst
    ensures |words| == 8 && Holds(src, words) && Longest(words, base, len)
    ensures err == if |Body(words, base, len, 0)| < size then 0 else UV_ENOSPC
    ensures err == 0 ==> HoldsText(dst[..], Body(words, base, len, 0))
    ensures err != 0 ==> dst[..] == old(dst[..])
  {
    var w := Words(src);
    words := w[..];
    WordsBounded(src, words);
    var bestBase, bestLen := LongestRun(w[..]);
    base, len := bestBase, bestLen;
    ghost var text := Body(words, base, len, 0);
    TextFits(words, base, len);
    var tmp := new char[INET6_ADDRSTRLEN];
    var tp;
    err, tp := Format(src, w[..], bestBase, bestLen, tmp, text);
    if err != 0 {
      assert false;  // Format never fails
    }
    err := Deliver(tmp, tp, dst, size, text);
  }

  lemma WordsBounded(src: seq<nat>, words: seq<nat>)
    requires Holds(src, words)
    ensures forall k :: 0 <= k < |words| ==> words[k] < 65536
  {
    forall k | 0 <= k < |words| ensures words[k] < 65536 {
      assert src[2 * k] < 256 && src[2 * k + 1] < 256;
    }
  }

  /**
    What inet_ntop6 prints always fits its buffer, holds no NUL, and denotes the address printed; so
    inet_pton6, which returns what a text denotes, gives the sixteen bytes back.
  */
  lemma PrintedDenotes(src: seq<nat>, words: seq<nat>, base: int, len: int)
    requires |words| == 8 && Holds(src, words) && Longest(words, base, len)
    ensures |Body(words, base, len, 0)| < INET6_ADDRSTRLEN && NulFree(Body(words, base, len, 0))
    ensures Ipv6(Body(words, base, len, 0)) == Some(words)
  {
    WordsBounded(src, words);
    TextFits(words, base, len);
    BodyNulFree(words, base, len, 0);
    RoundTrip(words, base, len);
  }

  lemma LongestUnique(w: seq<nat>, base: int, len: int, base': int, len': int)
    requires Longest(w, base, len) && Longest(w, base', len')
    ensures base == base' && (base != -1 ==> len == len')
  {
  }

  lemma BytesUnique(a: nat, b: nat, c: nat, d: nat)
    requires b < 256 && d < 256 && a * 256 + b == c * 256 + d
    ensures a == c && b == d
  {
  }

  lemma HoldsUnique(b: seq<nat>, b': seq<nat>, words: seq<nat>)
    requires Holds(b, words) && Holds(b', words) && |b| == |b'| == 2 * |words|
    ensures b == b'
  {
    forall k | 0 <= k < |words| ensures b[2 * k] == b'[2 * k] && b[2 * k + 1] == b'[2 * k + 1] {
      BytesUnique(b[2 * k], b[2 * k + 1], b'[2 * k], b'[2 * k + 1]);
    }
    forall k | 0 <= k < |b| ensures b[k] == b'[k] {
      assert k == 2 * (k / 2) || k == 2 * (k / 2) + 1;
    }
  }

  /** The round trip: inet_pton6 of what inet_ntop6 printed gives the address back, for all 2^128 of them. */
  method PrintAndParse(src: seq<nat>) returns (back: array<nat>)
    requires |src| == 16 && Bytes(src)
    ensures back.Length == 16 && back[..] == src
  {
    var text := new char[INET6_ADDRSTRLEN];
    var err;
    ghost var words, base, len;
    err, words, base, len := Ntop6(src, text, INET6_ADDRSTRLEN);
    PrintedDenotes(src, words, base, len);
    var n := PrintedLength(text, Body(words, base, len, 0));
    back := new nat[16];
    err := Pton6(text[..n], back);
    HoldsUnique(back[..], src, words);
  }

  method PrintedLength(text: array<char>, ghost t: string) returns (n: nat)
    requires |t| < text.Length && HoldsText(text[..], t) && NulFree(t)
    ensures n == |t| && text[..n] == t
  {
    forall k | 0 <= k < |t| ensures text[k] != '\0' {
      assert text[..][..|t|][k] == t[k];
    }
    n := StrLen(text, 0, |t|);
    assert text[..][..n] == text[..n];
  }

  lemma {:induction false} BodyNulFree(w: seq<nat>, base: int, len: int, i: nat)
    requires |w| == 8 && i <= 8
    ensures NulFree(Body(w, base, len, i))
    decreases 8 - i
  {
    if i < 8 {
      BodyNulFree(w, base, len, i + 1);
      DottedNulFree(Quad(w[6], w[7]));
    }
  }
}
