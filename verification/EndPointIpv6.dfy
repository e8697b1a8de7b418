/** ParseIpv6 of src/EndPoint.cpp. */
module EndPointIpv6 {
  import opened AddressText
  import opened Quads
  import opened FieldsText
  import opened Inet

  const NONE: nat := 0xFFFF_FFFF

  /** The pieces as they stand: the double colon takes a piece of its own until the end. */
  ghost predicate Pieces(a: seq<nat>, current: nat, compress: nat, f: Fields) {
    && |a| == 8 && current <= 8 && f.gap <= |f.words| && (forall k :: current <= k < 8 ==> a[k] == 0)
    && if f.gap < 0 then compress == NONE && current == |f.words| && a[..current] == f.words
       else compress == f.gap + 1 && current == |f.words| + 1 && a[..current] == f.words[..f.gap] + [0] + f.words[f.gap..]
  }

  lemma PiecesPlus(a: seq<nat>, current: nat, compress: nat, f: Fields, v: nat)
    requires Pieces(a, current, compress, f) && current < 8
    ensures Pieces(a[current := v], current + 1, compress, Plus(f, v))
  {
    var b := a[current := v];
    assert b[..current + 1] == a[..current] + [v];
    if f.gap >= 0 {
      assert (f.words + [v])[..f.gap] == f.words[..f.gap] && (f.words + [v])[f.gap..] == f.words[f.gap..] + [v];
    }
  }

  lemma PiecesGap(a: seq<nat>, current: nat, f: Fields)
    requires Pieces(a, current, NONE, f) && current < 8
    ensures f.gap < 0 && Pieces(a[current := 0], current + 1, current + 1, f.(gap := |f.words|))
  {
    assert f.gap >= 0 ==> f.gap + 1 <= 8;
    var b := a[current := 0];
    assert b[..current + 1] == a[..current] + [0];
    assert f.words[..|f.words|] == f.words && f.words[|f.words|..] == [];
  }

  /** All pieces are taken, and there is more text. */
  lemma NoPieceLeft(s: string, a: seq<nat>, compress: nat, f: Fields, tok: nat)
    requires InText(s, f, tok) && Pieces(a, 8, compress, f) && At(s, tok) != '\0'
    ensures Ipv6(s).None?
  {
    if At(s, tok) == ':' {
      if f.gap < 0 {
        FullFails(s, tok + 1, f.(gap := |f.words|));
      }
    } else {
      var n := HexRun(s, tok);
      HexRunFits(s, tok);
      FullFails(s, tok + n + 1, Plus(f, if n > 4 then 0 else Hexadecimal(s, tok, n)));
      if Octets(s, tok, 4).Some? {
        OctetsAreFour(s, tok, 4);
      }
    }
  }

  // The digits of one decimal piece; value starts out as the marker for "none yet".
  method ParseOctet(s: string, start0: nat, ghost begin: nat, ghost done: seq<nat>) returns (ok: bool, start: nat, value: nat)
    requires InQuad(s, begin, done, start0)
    ensures ok ==> start > start0 && InOctet(s, start0, start - start0, value) && !IsDigit(At(s, start))
    ensures !ok ==> Octets(s, begin, 4).None?
  {
    start, value := start0, NONE;
    if !IsDigit(At(s, start)) {
      NoOctet(s, begin, done, start0);
      return false, start, value;
    }
    ghost var v: nat := 0;
    while IsDigit(At(s, start))
      invariant start >= start0 && InOctet(s, start0, start - start0, v)
      invariant value == if start == start0 then NONE else v
      decreases |s| - start
    {
      var number := DigitValue(At(s, start));
      OctetDigit(s, begin, done, start0, start - start0, v);
      if value == NONE {
        value := number;
      } else if value == 0 {
        return false, start, value;
      } else {
        value := value * 10 + number;
      }
      if value > 255 {
        return false, start, value;
      }
      v := value;
      start := start + 1;
    }
    ok := true;
  }

  lemma NoOctet(s: string, begin: nat, done: seq<nat>, tok: nat)
    requires InQuad(s, begin, done, tok) && !IsDigit(At(s, tok))
    ensures Octets(s, begin, 4).None?
  {
  }

  /** The octet at tok has been read up to start and makes v, the ones before it are done. */
  ghost predicate AfterOctet(s: string, begin: nat, done: seq<nat>, tok: nat, start: nat, v: nat) {
    tok < start && InQuad(s, begin, done, tok) && InOctet(s, tok, start - tok, v) && !IsDigit(At(s, start))
  }

  // What comes between two octets.
  method ParseDot(s: string, start0: nat, numbers: nat, ghost begin: nat, ghost done: seq<nat>, ghost tok: nat, ghost v: nat)
    returns (ok: bool, start: nat)
    requires AfterOctet(s, begin, done, tok, start0, v) && |done| + 1 == numbers <= 4 && At(s, start0) != '\0'
    ensures ok ==> numbers < 4 && start == start0 + 1 && InQuad(s, begin, done + [v], start)
    ensures !ok ==> Octets(s, begin, 4).None?
  {
    start := start0;
    if At(s, start) == '.' && numbers < 4 {
      OctetDot(s, begin, done, tok, start - tok, v);
      return true, start + 1;
    }
    if At(s, start) == '.' {
      OctetDot(s, begin, done, tok, start - tok, v);
    } else {
      OctetBad(s, begin, done, tok, start - tok, v);
    }
    return false, start;
  }

  // The embedded IPv4 address.
  method ParseQuad(s: string, begin: nat, a: array<nat>, current0: nat) returns (ok: bool, start: nat)
    requires a.Length == 8 && current0 <= 6 && a[current0] == 0 && a[current0 + 1] == 0 && At(s, begin) != '\0'
    modifies a
    ensures ok <==> Octets(s, begin, 4).Some?
    ensures ok ==> var w := Paired(Octets(s, begin, 4).value);
                   |w| == 2 && a[..] == old(a[..])[current0 := w[0]][current0 + 1 := w[1]]
    ensures ok ==> start >= begin && At(s, start) == '\0'
  {
    start := begin;
    var numbers: nat, current: nat := 0, current0;
    ghost var done: seq<nat>, tok: nat, v: nat := [], begin, 0;
    QuadStart(s, begin);
    while At(s, start) != '\0'
      invariant start >= begin && numbers <= 4 && current == current0 + numbers / 2
      invariant if numbers == 0 then start == begin && done == [] else |done| == numbers - 1 && AfterOctet(s, begin, done, tok, start, v)
      invariant a[..] == Quartered(old(a[..]), current0, if numbers == 0 then [] else done + [v])
      decreases |s| - start
    {
      if numbers > 0 {
        ok, start := ParseDot(s, start, numbers, begin, done, tok, v);
        if !ok {
          return;
        }
        done := done + [v];
      }
      tok := start;
      var value;
      ok, start, value := ParseOctet(s, start, begin, done);
      if !ok {
        return;
      }
      v := value;
      a[current] := (a[current] * 0x100 + value) % 0x1_0000;
      numbers := numbers + 1;
      if numbers == 2 || numbers == 4 {
        current := current + 1;
      }
    }
    if numbers > 0 {
      OctetEnd(s, begin, done, tok, start - tok, v);
    }
    ok := numbers == 4;
  }

  /** The two pieces at c, zero before, as the octets read so far fill them. */
  ghost function Quartered(a: seq<nat>, c: nat, o: seq<nat>): seq<nat>
    requires c + 1 < |a| && |o| <= 4
  {
    a[c := if |o| == 0 then 0 else if |o| == 1 then o[0] else o[0] * 256 + o[1]]
     [c + 1 := if |o| <= 2 then 0 else if |o| == 3 then o[2] else o[2] * 256 + o[3]]
  }

  // The loop that reads at most four hexadecimal digits of a piece.
  method ParsePiece(s: string, start0: nat, ghost f: Fields) returns (start: nat, value: nat, len: nat)
    requires InText(s, f, start0)
    ensures start == start0 + len && InField(s, start0, len, value)
    ensures IsHex(At(s, start)) ==> Ipv6(s).None?
  {
    start, value, len := start0, 0, 0;
    FieldStart(s, start0);
    while len < 4 && IsHex(At(s, start))
      invariant len <= 4 && start == start0 + len && InField(s, start0, len, value)
    {
      FieldHex(s, f, start0, len, value);
      value := value * 16 + HexValue(At(s, start));
      start := start + 1;
      len := len + 1;
    }
    if IsHex(At(s, start)) {
      FieldHex(s, f, start0, len, value);
    }
  }

  /** What the main loop of ParseIpv6 keeps. */
  ghost predicate Parsing(s: string, start: nat, a: seq<nat>, current: nat, compress: nat, f: Fields) {
    InText(s, f, start) && Pieces(a, current, compress, f)
  }

  // The branch of ParseIpv6 for an embedded IPv4 address.
  method TakeQuad(s: string, begin: nat, a: array<nat>, current0: nat, ghost compress: nat, ghost f0: Fields)
    returns (ok: bool, start: nat, current: nat, ghost f: Fields)
    requires a.Length == 8 && Parsing(s, begin, a[..], current0, compress, f0) && current0 < 8 && At(s, begin) != '\0'
    requires Ipv6(s) == if Octets(s, begin, 4).None? then None
                        else Complete(f0.(words := f0.words + Paired(Octets(s, begin, 4).value)))
    modifies a
    ensures ok ==> Parsing(s, start, a[..], current, compress, f) && start > begin
    ensures !ok ==> Ipv6(s).None?
  {
    current, f := current0, f0;
    if current > 6 {
      QuadNeedsTwo(s, a[..], current, compress, f, begin);
      return false, begin, current, f;
    }
    ok, start := ParseQuad(s, begin, a, current);
    if ok {
      ghost var w := Paired(Octets(s, begin, 4).value);
      PiecesPlus(old(a[..]), current, compress, f, w[0]);
      PiecesPlus(old(a[..])[current := w[0]], current + 1, compress, Plus(f, w[0]), w[1]);
      assert (f.words + [w[0]]) + [w[1]] == f.words + w;
      current, f := current + 2, f.(words := f.words + w);
    }
  }

  // One round of the main loop of ParseIpv6.
  method ParseRound(s: string, start0: nat, a: array<nat>, current0: nat, compress0: nat, ghost f0: Fields)
    returns (ok: bool, start: nat, current: nat, compress: nat, ghost f: Fields)
    requires a.Length == 8 && Parsing(s, start0, a[..], current0, compress0, f0) && At(s, start0) != '\0'
    modifies a
    ensures ok ==> Parsing(s, start, a[..], current, compress, f) && start > start0
    ensures !ok ==> Ipv6(s).None?
  {
    start, current, compress, f := start0, current0, compress0, f0;
    if current >= 8 {
      NoPieceLeft(s, a[..], compress, f, start);
      return false, start, current, compress, f;
    }
    if At(s, start) == ':' {
      FieldGap(s, f, start);
      if compress != NONE {
        return false, start, current, compress, f;
      }
      PiecesGap(a[..], current, f);
      start := start + 1;
      a[current] := 0;
      current := current + 1;
      compress, f := current, f.(gap := |f.words|);
      return true, start, current, compress, f;
    }
    var value, len;
    start, value, len := ParsePiece(s, start, f);
    match At(s, start) {
      case '.' =>
        FieldQuad(s, f, start0, len, value);
        if len == 0 {
          return false, start, current, compress, f;
        }
        ok, start, current, f := TakeQuad(s, start - len, a, current, compress, f);
        return ok, start, current, compress, f;
      case ':' =>
        FieldColon(s, f, start0, len, value);
        start := start + 1;
        if At(s, start) == '\0' {
          return false, start, current, compress, f;
        }
      case '\0' =>
        FieldEnd(s, f, start0, len, value);
      case _ =>
        if !IsHex(At(s, start)) {
          FieldBad(s, f, start0, len, value);
        }
        return false, start, current, compress, f;
    }
    PiecesPlus(a[..], current, compress, f, value);
    FieldFits(len, value);
    a[current] := value % 0x1_0000;
    current, f := current + 1, Plus(f, value);
    ok := true;
  }

  /** An embedded IPv4 address takes two pieces. */
  lemma QuadNeedsTwo(s: string, a: seq<nat>, current: nat, compress: nat, f: Fields, i: nat)
    requires Pieces(a, current, compress, f) && current > 6
    ensures Octets(s, i, 4).Some? ==> Complete(f.(words := f.words + Paired(Octets(s, i, 4).value))).None?
  {
    if Octets(s, i, 4).Some? {
      OctetsAreFour(s, i, 4);
    }
  }

  // The swaps that move the pieces behind the double colon to the end.
  method Spread(a: array<nat>, current0: nat, compress: nat, ghost f: Fields)
    requires a.Length == 8 && Pieces(a[..], current0, compress, f) && f.gap >= 0
    modifies a
    ensures Some(a[..]) == Complete(f)
  {
    var swaps, current := current0 - compress, 7;
    ghost var b, n := a[..], current0 - compress;
    while current != 0 && swaps > 0
      invariant 0 <= swaps <= n && current == 7 - (n - swaps)
      invariant forall k :: 0 <= k < compress + swaps ==> a[k] == b[k]
      invariant forall k :: compress + swaps <= k <= current ==> a[k] == 0
      invariant forall k :: current < k < 8 ==> a[k] == b[k - (8 - current0)]
    {
      var swap := compress + swaps - 1;
      a[current], a[swap] := a[swap], a[current];
      current := current - 1;
      swaps := swaps - 1;
    }
    SpreadComplete(b, current0, compress, f, a[..]);
  }

  lemma SpreadComplete(b: seq<nat>, current: nat, compress: nat, f: Fields, a: seq<nat>)
    requires Pieces(b, current, compress, f) && f.gap >= 0 && |a| == 8
    requires forall k :: 0 <= k < compress ==> a[k] == b[k]
    requires forall k :: compress <= k <= 7 - (current - compress) ==> a[k] == 0
    requires forall k :: 7 - (current - compress) < k < 8 ==> a[k] == b[k - (8 - current)]
    ensures Some(a) == Complete(f)
  {
    var z := 8 - |f.words|;
    var w := f.words[..f.gap] + Zeros(z) + f.words[f.gap..];
    assert forall k :: 0 <= k < current ==> b[k] == b[..current][k];
    forall k | 0 <= k < 8 ensures a[k] == w[k] {
      if f.gap + z <= k {
        assert w[k] == f.words[k - z];
        assert k - (8 - current) == k - z + 1;
      }
    }
    assert a == w;
  }

  // ParseIpv6.
  method ParseIpv6(address: array<nat>, s: string) returns (ok: bool)
    requires address.Length == 8
    modifies address
    ensures ok <==> Ipv6(s).Some?
    ensures ok ==> address[..] == Ipv6(s).value
  {
    var start: nat, current: nat, compress := 0, 0, NONE;
    ghost var f := Fields([], -1);
    forall k | 0 <= k < 8 {
      address[k] := 0;
    }
    TextStart(s);
    if At(s, 0) == ':' {
      if |s| < 2 || s[1] != ':' {
        return false;
      }
      start := 2;
      current := 1;
      compress, f := current, Fields([], 0);
    }
    while At(s, start) != '\0'
      invariant Parsing(s, start, address[..], current, compress, f)
      decreases |s| - start
    {
      ok, start, current, compress, f := ParseRound(s, start, address, current, compress, f);
      if !ok {
        return;
      }
    }
    if compress != NONE {
      Spread(address, current, compress, f);
    } else if current != 8 {
      return false;
    } else {
      assert address[..] == address[..8];
    }
    return true;
  }

  /** Both parsers of the repository accept the same strings, and the bytes of one are the pieces of the other. */
  method ParsersAgree(s: string) returns (err: int, bytes: array<nat>, accepted: bool, pieces: array<nat>)
    ensures bytes.Length == 16 && pieces.Length == 8
    ensures (err == 0 <==> Ipv6(s).Some?) && (accepted <==> Ipv6(s).Some?)
    ensures err == 0 <==> accepted
    ensures accepted ==> Holds(bytes[..], pieces[..]) && pieces[..] == Ipv6(s).value
  {
    bytes, pieces := new nat[16], new nat[8];
    err := Pton6(s, bytes);
    accepted := ParseIpv6(pieces, s);
  }
}
