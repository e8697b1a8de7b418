/** inet_pton4 and inet_pton6 of 3rd/libuv/src/inet.c. */
module Inet {
  import opened AddressText
  import opened Errors
  import opened Quads
  import opened FieldsText

  // The body of inet_pton4 for the string from start on, up to the memcpy.
  method Pton4Parse(src: string, start: nat, tmp: array<nat>) returns (err: int)
    requires tmp.Length == 4
    modifies tmp
    ensures err == 0 <==> Octets(src, start, 4).Some?
    ensures err == 0 ==> Octets(src, start, 4) == Some(tmp[..])
  {
    var sawDigit, octets := false, 0;
    var tp: nat, i: nat := 0, start;
    ghost var tok: nat, done: seq<nat> := start, [];
    tmp[0] := 0;
    QuadStart(src, start);
    while At(src, i) != '\0'
      invariant tp <= 3 && done == tmp[..tp] && tok <= i && InOctet(src, tok, i - tok, tmp[tp])
      invariant InQuad(src, start, done, tok)
      invariant sawDigit <==> i > tok
      invariant octets == tp + if sawDigit then 1 else 0
      decreases |src| - i
    {
      var ch := At(src, i);
      i := i + 1;
      if IsDigit(ch) {
        var nw := tmp[tp] * 10 + DigitValue(ch);
        OctetDigit(src, start, done, tok, i - 1 - tok, tmp[tp]);
        if sawDigit && tmp[tp] == 0 {
          return UV_EINVAL;
        }
        if nw > 255 {
          return UV_EINVAL;
        }
        tmp[tp] := nw;
        if !sawDigit {
          octets := octets + 1;
          if octets > 4 {
            assert false;  // the source returns UV_EINVAL here; a fifth octet never gets this far
          }
          sawDigit := true;
        }
      } else if ch == '.' && sawDigit {
        OctetDot(src, start, done, tok, i - 1 - tok, tmp[tp]);
        if octets == 4 {
          return UV_EINVAL;
        }
        done, tok := done + [tmp[tp]], i;
        tp := tp + 1;
        tmp[tp] := 0;
        sawDigit := false;
      } else {
        OctetBad(src, start, done, tok, i - 1 - tok, tmp[tp]);
        return UV_EINVAL;
      }
    }
    OctetEnd(src, start, done, tok, i - tok, tmp[tp]);
    if octets < 4 {
      return UV_EINVAL;
    }
    assert tmp[..] == done + [tmp[3]];
    return 0;
  }

  // inet_pton4.
  method Pton4(src: string, dst: array<nat>) returns (err: int)
    requires dst.Length == 4
    modifies dst
    ensures err == 0 <==> Ipv4(src).Some?
    ensures err == 0 ==> Ipv4(src) == Some(dst[..])
    ensures err != 0 ==> dst[..] == old(dst[..])
  {
    var tmp := new nat[4](_ => 0);
    err := Pton4Parse(src, 0, tmp);
    if err == 0 {
      ghost var t := tmp[..];
      OctetsAreFour(src, 0, 4);
      forall k | 0 <= k < 4 {
        dst[k] := tmp[k];
      }
      assert dst[..] == t;
    }
  }

  /** Pairs of bytes, high byte first, from the start of b. */
  ghost predicate Holds(b: seq<nat>, words: seq<nat>) {
    && 2 * |words| <= |b| && (forall k :: 0 <= k < |b| ==> b[k] < 256)
    && forall k :: 0 <= k < |words| ==> words[k] == b[2 * k] * 256 + b[2 * k + 1]
  }

  /** What the parser knows between two fields: tp bytes written for f, the rest still zero. */
  ghost predicate Written(b: seq<nat>, tp: nat, colonp: int, f: Fields) {
    && |b| == 16 && tp == 2 * |f.words| <= 16 && Holds(b, f.words)
    && colonp == (if f.gap < 0 then -1 else 2 * f.gap) && f.gap <= |f.words|
    && forall k :: tp <= k < 16 ==> b[k] == 0
  }

  method PutWord(tmp: array<nat>, tp: nat, val: nat, ghost colonp: int, ghost f: Fields)
    requires Written(tmp[..], tp, colonp, f) && tp + 2 <= 16 && val < 65536
    modifies tmp
    ensures Written(tmp[..], tp + 2, colonp, Plus(f, val))
  {
    ghost var b := tmp[..];
    tmp[tp] := (val / 256) % 256;
    tmp[tp + 1] := val % 256;
    assert forall k :: 0 <= k < 2 * |f.words| ==> tmp[..][k] == b[k];
  }

  // The embedded inet_pton4 of inet_pton6.
  method PutQuad(src: string, curtok: nat, tmp: array<nat>, tp: nat, ghost colonp: int, ghost f: Fields) returns (err: int)
    requires Written(tmp[..], tp, colonp, f) && tp + 4 <= 16
    modifies tmp
    ensures err == 0 <==> Octets(src, curtok, 4).Some?
    ensures err == 0 ==> Written(tmp[..], tp + 4, colonp, f.(words := f.words + Paired(Octets(src, curtok, 4).value)))
    ensures err != 0 ==> tmp[..] == old(tmp[..])
  {
    var quad := new nat[4](_ => 0);
    err := Pton4Parse(src, curtok, quad);
    if err == 0 {
      OctetsAreFour(src, curtok, 4);
      ghost var b := tmp[..];
      forall k | 0 <= k < 4 {
        tmp[tp + k] := quad[k];
      }
      assert forall k :: 0 <= k < 2 * |f.words| ==> tmp[..][k] == b[k];
      assert tmp[tp] == quad[..][0] && tmp[tp + 1] == quad[..][1] && tmp[tp + 2] == quad[..][2] && tmp[tp + 3] == quad[..][3];
    }
  }

  // The colon branch of that loop: the text goes on behind it at curtok.
  method TakeColon(src: string, ghost tok: nat, curtok: nat, seen: nat, val: nat, tmp: array<nat>, tp0: nat, colonp0: int, ghost f0: Fields)
    returns (err: int, tp: nat, colonp: int, ghost f: Fields)
    requires Written(tmp[..], tp0, colonp0, f0) && InText(src, f0, tok) && InField(src, tok, seen, val)
    requires curtok == tok + seen + 1 && At(src, tok + seen) == ':'
    modifies tmp
    ensures err == 0 ==> Written(tmp[..], tp, colonp, f) && InText(src, f, curtok)
    ensures err != 0 ==> Ipv6(src).None?
  {
    err, tp, colonp, f := 0, tp0, colonp0, f0;
    if seen == 0 {
      FieldGap(src, f, tok);
      if colonp != -1 {
        return UV_EINVAL, tp, colonp, f;
      }
      colonp, f := tp, f.(gap := |f.words|);
      return;
    }
    FieldColon(src, f, tok, seen, val);
    if At(src, curtok) == '\0' {
      return UV_EINVAL, tp, colonp, f;
    }
    if tp + 2 > 16 {
      FullFails(src, curtok, Plus(f, val));
      return UV_EINVAL, tp, colonp, f;
    }
    FieldFits(seen, val);
    PutWord(tmp, tp, val, colonp, f);
    tp, f := tp + 2, Plus(f, val);
  }

  // The scanning loop of inet_pton6 and what follows it, up to the double colon.
  method Pton6Scan(src: string, tmp: array<nat>) returns (err: int, tp: nat, colonp: int, ghost f: Fields)
    requires tmp.Length == 16 && forall k :: 0 <= k < 16 ==> tmp[k] == 0
    modifies tmp
    ensures err == 0 ==> Written(tmp[..], tp, colonp, f) && Ipv6(src) == Complete(f)
    ensures err != 0 ==> Ipv6(src).None?
  {
    tp, colonp, f := 0, -1, Fields([], -1);
    TextStart(src);
    var i: nat := 0;
    if At(src, i) == ':' {
      i := i + 1;
      if At(src, i) != ':' {
        return UV_EINVAL, tp, colonp, f;
      }
    }
    var curtok: nat, seen: nat, val: nat := i, 0, 0;
    var quad := false;
    FieldStart(src, curtok);
    while At(src, i) != '\0'
      invariant Written(tmp[..], tp, colonp, f) && !quad
      invariant InText(src, f, curtok) && InField(src, curtok, seen, val) && i == curtok + seen
      decreases |src| - i
    {
      var ch := At(src, i);
      i := i + 1;
      if IsHex(ch) {
        FieldHex(src, f, curtok, seen, val);
        val := val * 16 + HexValue(ch);
        seen := seen + 1;
        if seen > 4 {
          return UV_EINVAL, tp, colonp, f;
        }
        continue;
      }
      if ch == ':' {
        ghost var tok := curtok;
        curtok := i;
        FieldStart(src, curtok);
        err, tp, colonp, f := TakeColon(src, tok, curtok, seen, val, tmp, tp, colonp, f);
        if err != 0 {
          return;
        }
        seen, val := 0, 0;
        continue;
      }
      if ch == '.' {
        FieldQuad(src, f, curtok, seen, val);
        QuadFits(src, curtok, f);
        if tp + 4 <= 16 {
          err := PutQuad(src, curtok, tmp, tp, colonp, f);
          if err == 0 {
            f := f.(words := f.words + Paired(Octets(src, curtok, 4).value));
            tp, seen, quad := tp + 4, 0, true;
            break;
          }
        }
      } else {
        FieldBad(src, f, curtok, seen, val);
      }
      return UV_EINVAL, tp, colonp, f;
    }
    if !quad {
      FieldEnd(src, f, curtok, seen, val);
    }
    if seen != 0 {
      if tp + 2 > 16 {
        return UV_EINVAL, tp, colonp, f;
      }
      FieldFits(seen, val);
      PutWord(tmp, tp, val, colonp, f);
      tp, f := tp + 2, Plus(f, val);
    }
    err := 0;
  }

  lemma QuadFits(s: string, i: nat, f: Fields)
    ensures |f.words| > 6 && Octets(s, i, 4).Some? ==> Complete(f.(words := f.words + Paired(Octets(s, i, 4).value))).None?
  {
    if Octets(s, i, 4).Some? {
      OctetsAreFour(s, i, 4);
    }
  }

  // The shift of inet_pton6: the bytes from colonp on move to the end, zeros take their place.
  method Shift(tmp: array<nat>, tp: nat, colonp: nat)
    requires tmp.Length == 16 && colonp <= tp < 16 && forall k :: tp <= k < 16 ==> tmp[k] == 0
    modifies tmp
    ensures tmp[..] == old(tmp[..colonp]) + Zeros(16 - tp) + old(tmp[colonp..tp])
  {
    var n := tp - colonp;
    for i := 1 to n + 1
      invariant forall k :: 0 <= k < tp - (i - 1) ==> tmp[k] == old(tmp[k])
      invariant forall k :: tp - (i - 1) <= k < 16 - (i - 1) ==> tmp[k] == 0
      invariant forall k :: 16 - (i - 1) <= k < 16 ==> tmp[k] == old(tmp[k - (16 - tp)])
    {
      tmp[16 - i] := tmp[colonp + n - i];
      tmp[colonp + n - i] := 0;
    }
  }

  // inet_pton6.
  method Pton6(src: string, dst: array<nat>) returns (err: int)
    requires dst.Length == 16
    modifies dst
    ensures err == 0 <==> Ipv6(src).Some?
    ensures err == 0 ==> |Ipv6(src).value| == 8 && Holds(dst[..], Ipv6(src).value)
    ensures err != 0 ==> dst[..] == old(dst[..])
  {
    var tmp := new nat[16](_ => 0);
    var tp, colonp;
    ghost var f;
    err, tp, colonp, f := Pton6Scan(src, tmp);
    if err != 0 {
      return;
    }
    if colonp != -1 {
      if tp == 16 {
        return UV_EINVAL;
      }
      ghost var b := tmp[..];
      Shift(tmp, tp, colonp);
      ShiftHolds(b, f, tmp[..]);
      tp := 16;
    }
    if tp != 16 {
      return UV_EINVAL;
    }
    forall k | 0 <= k < 16 {
      dst[k] := tmp[k];
    }
    assert dst[..] == tmp[..];
    return 0;
  }

  lemma ShiftedBytes(b: seq<nat>, gap: nat, end: nat, b': seq<nat>)
    requires |b| == 16 && gap <= end <= 16 && b' == b[..gap] + Zeros(16 - end) + b[gap..end]
    ensures |b'| == 16 && forall k :: 0 <= k < 16 ==> b'[k] == ShiftedFrom(b, gap, 16 - end, k)
  {
  }

  lemma CompletedWords(f: Fields)
    requires 0 <= f.gap <= |f.words| < 8
    ensures Complete(f).Some? && |Complete(f).value| == 8
    ensures forall k :: 0 <= k < 8 ==> Complete(f).value[k] == ShiftedFrom(f.words, f.gap, 8 - |f.words|, k)
  {
  }

  lemma ShiftHolds(b: seq<nat>, f: Fields, b': seq<nat>)
    requires Written(b, 2 * |f.words|, 2 * f.gap, f) && f.gap >= 0 && |f.words| < 8
    requires b' == b[..2 * f.gap] + Zeros(16 - 2 * |f.words|) + b[2 * f.gap..2 * |f.words|]
    ensures Complete(f).Some? && |Complete(f).value| == 8 && Holds(b', Complete(f).value)
  {
    ShiftedBytes(b, 2 * f.gap, 2 * |f.words|, b');
    CompletedWords(f);
    var w := Complete(f).value;
    forall k | 0 <= k < 8 ensures w[k] == b'[2 * k] * 256 + b'[2 * k + 1] {
      assert b'[2 * k] == ShiftedFrom(b, 2 * f.gap, 16 - 2 * |f.words|, 2 * k);
      assert b'[2 * k + 1] == ShiftedFrom(b, 2 * f.gap, 16 - 2 * |f.words|, 2 * k + 1);
    }
  }

  /** Element k once a gap of the given width has been opened. */
  ghost function ShiftedFrom(b: seq<nat>, gap: nat, width: nat, k: nat): nat
    requires gap <= |b| && k < |b| + width
  {
    if k < gap then b[k] else if k < gap + width then 0 else b[k - width]
  }
}
