/**
  The text form of IPv4 and IPv6 addresses (section 2.2 of RFC 4291), as a reference that both
  parsers and the printer of the repository are held against.

  A string is read as C reads it: a NUL stands after its last character.
*/
module AddressText {

  datatype Option<+T> = None | Some(value: T)

  function At(s: string, i: nat): char { if i < |s| then s[i] else '\0' }

  ghost predicate NulFree(s: string) { forall i :: 0 <= i < |s| ==> s[i] != '\0' }

  predicate IsDigit(c: char) { '0' <= c <= '9' }

  predicate IsHex(c: char) { IsDigit(c) || 'a' <= c <= 'f' || 'A' <= c <= 'F' }

  function DigitValue(c: char): nat
    requires IsDigit(c)
  {
    c as int - '0' as int
  }

  function HexValue(c: char): (v: nat)
    requires IsHex(c)
    ensures v < 16
  {
    if IsDigit(c) then DigitValue(c)
    else if 'a' <= c <= 'f' then c as int - 'a' as int + 10
    else c as int - 'A' as int + 10
  }

  /** How many digits stand at i. */
  ghost function DigitRun(s: string, i: nat): nat
    decreases |s| - i
  {
    if IsDigit(At(s, i)) then 1 + DigitRun(s, i + 1) else 0
  }

  ghost function HexRun(s: string, i: nat): nat
    decreases |s| - i
  {
    if IsHex(At(s, i)) then 1 + HexRun(s, i + 1) else 0
  }

  /** The number that the n digits at i spell. */
  ghost function Decimal(s: string, i: nat, n: nat): nat
    requires n <= DigitRun(s, i)
  {
    if n == 0 then 0 else RunAt(s, i, n - 1); Decimal(s, i, n - 1) * 10 + DigitValue(At(s, i + n - 1))
  }

  ghost function Hexadecimal(s: string, i: nat, n: nat): nat
    requires n <= HexRun(s, i)
  {
    if n == 0 then 0 else HexRunAt(s, i, n - 1); Hexadecimal(s, i, n - 1) * 16 + HexValue(At(s, i + n - 1))
  }

  lemma {:induction false} RunAt(s: string, i: nat, k: nat)
    ensures k < DigitRun(s, i) ==> IsDigit(At(s, i + k))
    ensures k == DigitRun(s, i) ==> !IsDigit(At(s, i + k))
    ensures k <= DigitRun(s, i) && IsDigit(At(s, i + k)) ==> k < DigitRun(s, i)
    ensures k <= DigitRun(s, i) ==> DigitRun(s, i + k) == DigitRun(s, i) - k
    decreases k
  {
    if k > 0 && IsDigit(At(s, i)) {
      RunAt(s, i + 1, k - 1);
    }
  }

  lemma {:induction false} HexRunAt(s: string, i: nat, k: nat)
    ensures k < HexRun(s, i) ==> IsHex(At(s, i + k))
    ensures k == HexRun(s, i) ==> !IsHex(At(s, i + k))
    ensures k <= HexRun(s, i) && IsHex(At(s, i + k)) ==> k < HexRun(s, i)
    decreases k
  {
    if k > 0 && IsHex(At(s, i)) {
      HexRunAt(s, i + 1, k - 1);
    }
  }

  /** The octets of k dotted decimal numbers without needless zeros, from i to the end of the string. */
  ghost function Octets(s: string, i: nat, k: nat): Option<seq<nat>>
    decreases k, |s|
  {
    var n := DigitRun(s, i);
    if k == 0 || n == 0 || (n > 1 && At(s, i) == '0') || Decimal(s, i, n) > 255 then None
    else if k == 1 then
      if At(s, i + n) == '\0' then Some([Decimal(s, i, n)]) else None
    else if At(s, i + n) != '.' then None
    else
      match Octets(s, i + n + 1, k - 1)
      case None => None
      case Some(rest) => Some([Decimal(s, i, n)] + rest)
  }

  /** The words of an address text so far, and before which of them the double colon stands, -1 for none. */
  datatype Fields = Fields(words: seq<nat>, gap: int)

  ghost function Scan(s: string, i: nat, f: Fields): Option<Fields>
    decreases |s| - i
  {
    if At(s, i) == '\0' then Some(f)
    else if s[i] == ':' then
      if f.gap >= 0 then None else Scan(s, i + 1, f.(gap := |f.words|))
    else
      var n := HexRun(s, i);
      HexRunFits(s, i);
      if n == 0 || n > 4 then None
      else
        var f' := f.(words := f.words + [Hexadecimal(s, i, n)]);
        match At(s, i + n)
        case '\0' => Some(f')
        case ':' => if At(s, i + n + 1) == '\0' then None else Scan(s, i + n + 1, f')
        case '.' => (
          match Octets(s, i, 4)
          case None => None
          case Some(o) => Some(f.(words := f.words + Paired(o))))
        case _ => None
  }

  ghost function Paired(o: seq<nat>): seq<nat> {
    if |o| != 4 then [] else [o[0] * 256 + o[1], o[2] * 256 + o[3]]
  }

  lemma {:induction false} HexRunFits(s: string, i: nat)
    ensures i <= |s| ==> i + HexRun(s, i) <= |s|
    decreases |s| - i
  {
    if IsHex(At(s, i)) {
      HexRunFits(s, i + 1);
    }
  }

  ghost function Zeros(n: nat): seq<nat> { seq(n, _ => 0) }

  /** Eight words, the zeros of the double colon filled in. It stands for at least one word. */
  ghost function Complete(f: Fields): Option<seq<nat>> {
    if f.gap < 0 then
      if |f.words| == 8 then Some(f.words) else None
    else if |f.words| <= 7 && f.gap <= |f.words| then
      Some(f.words[..f.gap] + Zeros(8 - |f.words|) + f.words[f.gap..])
    else None
  }

  ghost function Completed(f: Option<Fields>): Option<seq<nat>> {
    if f.None? then None else Complete(f.value)
  }

  /** The address that an IPv6 text denotes. */
  ghost function Ipv6(s: string): Option<seq<nat>> {
    if At(s, 0) != ':' then Completed(Scan(s, 0, Fields([], -1)))
    else if At(s, 1) != ':' then None
    else Completed(Scan(s, 2, Fields([], 0)))
  }

  /** The address that a dotted quad denotes. */
  ghost function Ipv4(s: string): Option<seq<nat>> { Octets(s, 0, 4) }
}
