/** Reading the fields of an IPv6 text character by character. */
module FieldsText {
  import opened AddressText

  /** The fields before tok are read as f; the rest of the text starts at tok. */
  ghost predicate InText(s: string, f: Fields, tok: nat) {
    Ipv6(s) == Completed(Scan(s, tok, f)) && f.gap <= |f.words|
  }

  /** The first m digits of the field at tok have been read and make v. */
  ghost predicate InField(s: string, tok: nat, m: nat, v: nat) {
    m <= HexRun(s, tok) && m <= 4 && v == Hexadecimal(s, tok, m) && v < Pow16(m)
  }

  function Pow16(m: nat): nat { if m == 0 then 1 else 16 * Pow16(m - 1) }

  lemma FieldFits(m: nat, v: nat)
    requires m <= 4 && v < Pow16(m)
    ensures v < 65536
  {
    assert Pow16(4) == 65536 && Pow16(3) == 4096 && Pow16(2) == 256 && Pow16(1) == 16;
  }

  ghost function Plus(f: Fields, v: nat): Fields { f.(words := f.words + [v]) }

  /** A text whose fields do not fit eight words any more denotes nothing. */
  ghost predicate Full(f: Fields) { |f.words| >= if f.gap >= 0 then 8 else 9 }

  lemma {:induction false} ScanGrows(s: string, i: nat, f: Fields)
    requires Scan(s, i, f).Some?
    ensures var g := Scan(s, i, f).value;
            |g.words| >= |f.words| && (f.gap >= 0 ==> g.gap == f.gap) && (f.gap <= |f.words| ==> g.gap <= |g.words|)
    decreases |s| - i
  {
    if At(s, i) != '\0' {
      if s[i] == ':' {
        ScanGrows(s, i + 1, f.(gap := |f.words|));
      } else {
        var n := HexRun(s, i);
        HexRunFits(s, i);
        if At(s, i + n) == ':' {
          ScanGrows(s, i + n + 1, Plus(f, Hexadecimal(s, i, n)));
        }
      }
    }
  }

  lemma FullFails(s: string, i: nat, f: Fields)
    requires Full(f)
    ensures Completed(Scan(s, i, f)).None?
  {
    if Scan(s, i, f).Some? {
      ScanGrows(s, i, f);
    }
  }

  lemma TextStart(s: string)
    ensures At(s, 0) != ':' ==> InText(s, Fields([], -1), 0)
    ensures At(s, 0) == ':' && At(s, 1) == ':' ==> InText(s, Fields([], -1), 1) && InText(s, Fields([], 0), 2)
    ensures At(s, 0) == ':' && At(s, 1) != ':' ==> Ipv6(s).None?
  {
  }

  lemma FieldStart(s: string, tok: nat)
    ensures InField(s, tok, 0, 0)
  {
  }

  lemma FieldHex(s: string, f: Fields, tok: nat, m: nat, v: nat)
    requires InText(s, f, tok) && InField(s, tok, m, v) && IsHex(At(s, tok + m))
    ensures if m == 4 then Ipv6(s).None? else InField(s, tok, m + 1, v * 16 + HexValue(At(s, tok + m)))
  {
    HexRunAt(s, tok, m);
    HexRunAt(s, tok, 0);
  }

  /** A colon right at the start of a field is the second one of a double colon. */
  lemma FieldGap(s: string, f: Fields, tok: nat)
    requires InText(s, f, tok) && At(s, tok) == ':'
    ensures if f.gap >= 0 then Ipv6(s).None? else InText(s, f.(gap := |f.words|), tok + 1)
  {
  }

  lemma FieldColon(s: string, f: Fields, tok: nat, m: nat, v: nat)
    requires InText(s, f, tok) && InField(s, tok, m, v) && m > 0 && At(s, tok + m) == ':'
    ensures if At(s, tok + m + 1) == '\0' then Ipv6(s).None? else InText(s, Plus(f, v), tok + m + 1)
  {
    HexRunAt(s, tok, m);
    HexRunAt(s, tok, 0);
  }

  lemma FieldQuad(s: string, f: Fields, tok: nat, m: nat, v: nat)
    requires InText(s, f, tok) && InField(s, tok, m, v) && At(s, tok + m) == '.'
    ensures var o := Octets(s, tok, 4);
            Ipv6(s) == if o.None? then None else Complete(f.(words := f.words + Paired(o.value)))
    ensures m == 0 ==> Octets(s, tok, 4).None?
  {
    HexRunAt(s, tok, m);
    HexRunAt(s, tok, 0);
  }

  lemma FieldBad(s: string, f: Fields, tok: nat, m: nat, v: nat)
    requires InText(s, f, tok) && InField(s, tok, m, v)
    requires At(s, tok + m) !in {'\0', ':', '.'} && !IsHex(At(s, tok + m))
    ensures Ipv6(s).None?
  {
    HexRunAt(s, tok, m);
    HexRunAt(s, tok, 0);
  }

  lemma FieldEnd(s: string, f: Fields, tok: nat, m: nat, v: nat)
    requires InText(s, f, tok) && InField(s, tok, m, v) && At(s, tok + m) == '\0'
    ensures Ipv6(s) == Complete(if m > 0 then Plus(f, v) else f)
  {
    HexRunAt(s, tok, m);
    HexRunAt(s, tok, 0);
  }

  lemma {:induction false} OctetsAreFour(s: string, i: nat, k: nat)
    requires Octets(s, i, k).Some?
    ensures |Octets(s, i, k).value| == k && forall j :: 0 <= j < k ==> Octets(s, i, k).value[j] < 256
    decreases k
  {
    if k > 1 {
      OctetsAreFour(s, i + DigitRun(s, i) + 1, k - 1);
    }
  }
}
