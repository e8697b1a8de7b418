/**
  The address texts of section 2.2 of RFC 4291 as a grammar: what the reference for the parsers accepts is exactly what
  can be put together from fields, and it means what the fields mean.
*/
module AddressForms {
  import opened AddressText
  import opened AddressPrint

  /** One to four hexadecimal digits, or a dotted quad. */
  datatype Field = Group(t: string) | Dots(o: seq<nat>)

  predicate IsGroup(t: string) { 1 <= |t| <= 4 && forall k :: 0 <= k < |t| ==> IsHex(t[k]) }

  predicate IsQuad(o: seq<nat>) { |o| == 4 && forall k :: 0 <= k < 4 ==> o[k] < 256 }

  predicate IsField(f: Field) { match f case Group(t) => IsGroup(t) case Dots(o) => IsQuad(o) }

  predicate Groups(fs: seq<Field>) { fs == [] || (fs[0].Group? && IsGroup(fs[0].t) && Groups(fs[1..])) }

  /** Only the last field may be a dotted quad. */
  predicate Fielded(fs: seq<Field>) {
    if |fs| <= 1 then fs == [] || IsField(fs[0]) else fs[0].Group? && IsGroup(fs[0].t) && Fielded(fs[1..])
  }

  function HexNumber(t: string): nat
    requires forall k :: 0 <= k < |t| ==> IsHex(t[k])
  {
    if t == "" then 0 else HexNumber(t[..|t| - 1]) * 16 + HexValue(t[|t| - 1])
  }

  function TextOf(f: Field): string { match f case Group(t) => t case Dots(o) => Dotted(o) }

  function WordsOf(f: Field): seq<nat> {
    match f
    case Group(t) => if IsGroup(t) then [HexNumber(t)] else []
    case Dots(o) => if IsQuad(o) then [o[0] * 256 + o[1], o[2] * 256 + o[3]] else []
  }

  function Joined(fs: seq<Field>): string {
    if fs == [] then "" else if |fs| == 1 then TextOf(fs[0]) else TextOf(fs[0]) + (":" + Joined(fs[1..]))
  }

  function AllWords(fs: seq<Field>): seq<nat> { if fs == [] then [] else WordsOf(fs[0]) + AllWords(fs[1..]) }

  /** All eight words, or a double colon in place of one or more words of zero. */
  datatype Form = Plain(fields: seq<Field>) | Compressed(left: seq<Field>, right: seq<Field>)

  predicate Proper(form: Form) {
    match form
    case Plain(fs) => Fielded(fs) && |AllWords(fs)| == 8
    case Compressed(l, r) => Groups(l) && Fielded(r) && |AllWords(l)| + |AllWords(r)| <= 7
  }

  function FormText(form: Form): string {
    match form
    case Plain(fs) => Joined(fs)
    case Compressed(l, r) => Joined(l) + "::" + Joined(r)
  }

  ghost function FormWords(form: Form): seq<nat> {
    match form
    case Plain(fs) => AllWords(fs)
    case Compressed(l, r) =>
      AllWords(l) + Zeros(if |AllWords(l)| + |AllWords(r)| <= 8 then 8 - |AllWords(l)| - |AllWords(r)| else 0) + AllWords(r)
  }

  /** The text t stands at p, and nothing behind it. */
  ghost predicate Ends(s: string, p: nat, t: string) { Stands(s, p, t) && At(s, p + |t|) == '\0' }

  // ---- one field ----

  lemma {:induction false} GroupNumber(t: string, s: string, p: nat)
    requires Stands(s, p, t) && forall k :: 0 <= k < |t| ==> IsHex(t[k])
    ensures HexRun(s, p) >= |t| && Hexadecimal(s, p, |t|) == HexNumber(t)
  {
    forall k | p <= k < p + |t| ensures IsHex(At(s, k)) {
      assert t[k - p] == At(s, p + (k - p));
    }
    RunOfHex(s, p, |t|);
    if t != "" {
      var n := |t| - 1;
      assert forall k :: 0 <= k < n ==> t[..n][k] == t[k];
      GroupNumber(t[..n], s, p);
      assert t[n] == At(s, p + n);
    }
  }

  lemma GroupRun(t: string, s: string, p: nat)
    requires Stands(s, p, t) && IsGroup(t) && !IsHex(At(s, p + |t|))
    ensures HexRun(s, p) == |t| && Hexadecimal(s, p, |t|) == HexNumber(t) && IsHex(At(s, p))
  {
    GroupNumber(t, s, p);
    HexRunAt(s, p, |t|);
    assert t[0] == At(s, p + 0);
  }

  /** A run of hexadecimal digits is a group, if it is short enough. */
  lemma RunIsGroup(s: string, p: nat) returns (t: string)
    requires 1 <= HexRun(s, p) <= 4 && p < |s|
    ensures IsGroup(t) && Stands(s, p, t) && |t| == HexRun(s, p) && Hexadecimal(s, p, |t|) == HexNumber(t)
  {
    var n := HexRun(s, p);
    HexRunFits(s, p);
    t := s[p..p + n];
    forall k | 0 <= k < n ensures IsHex(t[k]) && t[k] == At(s, p + k) {
      HexRunAt(s, p, k);
    }
    GroupNumber(t, s, p);
  }

  /** Digits without a needless zero are what is printed for their number. */
  lemma {:induction false} DecimalPrinted(s: string, p: nat, n: nat)
    requires 1 <= n <= DigitRun(s, p) && (n > 1 ==> At(s, p) != '0')
    ensures Stands(s, p, Dec(Decimal(s, p, n))) && |Dec(Decimal(s, p, n))| == n
    ensures n > 1 || At(s, p) != '0' ==> Decimal(s, p, n) > 0
  {
    RunAt(s, p, n - 1);
    var d := DigitValue(At(s, p + n - 1));
    assert HexDigit(d) == At(s, p + n - 1);
    if n == 1 {
      assert Decimal(s, p, 0) == 0 && Decimal(s, p, 1) == d;
    } else {
      var v := Decimal(s, p, n - 1);
      DecimalPrinted(s, p, n - 1);
      assert Decimal(s, p, n) == v * 10 + d && (v * 10 + d) / 10 == v && (v * 10 + d) % 10 == d;
      assert Dec(v * 10 + d) == Dec(v) + [HexDigit(d)];
    }
  }

  /** What is read as octets is exactly what is printed for them. */
  lemma {:induction false} OctetsPrinted(s: string, p: nat, k: nat)
    requires Octets(s, p, k).Some?
    ensures var o := Octets(s, p, k).value;
            |o| == k > 0 && (forall j :: 0 <= j < k ==> o[j] < 256) && Ends(s, p, Dotted(o))
    decreases k
  {
    var n := DigitRun(s, p);
    DecimalPrinted(s, p, n);
    if k > 1 {
      OctetsPrinted(s, p + n + 1, k - 1);
      OctetInFront(s, p, n, Decimal(s, p, n), Octets(s, p + n + 1, k - 1).value);
    }
  }

  lemma OctetInFront(s: string, p: nat, n: nat, v: nat, rest: seq<nat>)
    requires Stands(s, p, Dec(v)) && |Dec(v)| == n && At(s, p + n) == '.' && rest != [] && Ends(s, p + n + 1, Dotted(rest))
    ensures Ends(s, p, Dotted([v] + rest))
  {
    assert ([v] + rest)[1..] == rest;
    assert Dotted([v] + rest) == Dec(v) + (['.'] + Dotted(rest));
    EndsAround(s, p, Dec(v), '.', Dotted(rest));
  }

  /** The dotted quads that inet_pton4 accepts are the printed ones, each of them once. */
  lemma QuadsAreCanonical(s: string, o: seq<nat>)
    ensures Ipv4(s) == Some(o) <==> IsQuad(o) && Ends(s, 0, Dotted(o))
  {
    if Ipv4(s).Some? {
      OctetsPrinted(s, 0, 4);
    }
    if IsQuad(o) && Ends(s, 0, Dotted(o)) {
      DottedBack(o, s, 0);
    }
  }

  // ---- texts put together ----

  lemma StandsStart(s: string, p: nat, t: string)
    requires Stands(s, p, t) && t != ""
    ensures At(s, p) == t[0]
  {
    assert t[0] == At(s, p + 0);
  }

  /** A text with one character in its middle. */
  lemma StandsAround(s: string, p: nat, a: string, c: char, b: string)
    requires Stands(s, p, a + ([c] + b))
    ensures Stands(s, p, a) && At(s, p + |a|) == c && Stands(s, p + |a| + 1, b)
  {
    StandsSplit(s, p, a, [c] + b);
    StandsSplit(s, p + |a|, [c], b);
    StandsStart(s, p + |a|, [c]);
  }

  lemma EndsSplit(s: string, p: nat, a: string, b: string)
    requires Ends(s, p, a + b)
    ensures Stands(s, p, a) && Ends(s, p + |a|, b)
  {
    StandsSplit(s, p, a, b);
    assert p + |a + b| == p + |a| + |b|;
  }

  lemma EndsApart(s: string, p: nat, a: string, c: char, b: string)
    requires Ends(s, p, a + ([c] + b))
    ensures Stands(s, p, a) && At(s, p + |a|) == c && Ends(s, p + |a| + 1, b)
  {
    EndsSplit(s, p, a, [c] + b);
    EndsSplit(s, p + |a|, [c], b);
    StandsStart(s, p + |a|, [c]);
  }

  lemma EndsAround(s: string, p: nat, a: string, c: char, b: string)
    requires Stands(s, p, a) && At(s, p + |a|) == c != '\0' && Ends(s, p + |a| + 1, b)
    ensures Ends(s, p, a + ([c] + b))
  {
    var t := a + ([c] + b);
    forall k | 0 <= k < |t| ensures t[k] == At(s, p + k) {
      if k > |a| {
        var j := k - |a| - 1;
        assert t[k] == b[j] && b[j] == At(s, p + |a| + 1 + j);
      }
    }
  }

  lemma {:induction false} GroupsFielded(fs: seq<Field>)
    requires Groups(fs)
    ensures Fielded(fs)
  {
    if |fs| > 1 {
      GroupsFielded(fs[1..]);
    }
  }

  lemma DottedStart(o: seq<nat>)
    requires IsQuad(o)
    ensures Dotted(o) != "" && IsHex(Dotted(o)[0])
  {
    assert Dotted(o) == Dec(o[0]) + ("." + Dotted(o[1..]));
    assert Dotted(o)[0] == Dec(o[0])[0];
  }

  /** A text of fields begins with a digit. */
  lemma JoinedStart(fs: seq<Field>)
    requires Fielded(fs) && fs != []
    ensures Joined(fs) != "" && IsHex(Joined(fs)[0])
  {
    if |fs| > 1 {
      assert Joined(fs)[0] == fs[0].t[0];
    } else if fs[0].Dots? {
      DottedStart(fs[0].o);
    }
  }

  // ---- whatever is put together is accepted ----

  ghost function With(f: Fields, words: seq<nat>): Fields { f.(words := f.words + words) }

  lemma WithMore(f: Fields, a: seq<nat>, b: seq<nat>)
    ensures With(With(f, a), b) == With(f, a + b)
  {
    assert f.words + a + b == f.words + (a + b);
  }

  /** A group that ends the text, and one with a colon and more behind it. */
  lemma ScanGroup(t: string, s: string, p: nat, f: Fields)
    requires Stands(s, p, t) && IsGroup(t) && !IsHex(At(s, p + |t|))
    ensures At(s, p + |t|) == '\0' ==> Scan(s, p, f) == Some(With(f, [HexNumber(t)]))
    ensures At(s, p + |t|) == ':' && At(s, p + |t| + 1) != '\0' ==>
              Scan(s, p, f) == Scan(s, p + |t| + 1, With(f, [HexNumber(t)]))
  {
    GroupRun(t, s, p);
  }

  lemma GroupMore(t: string, s: string, p: nat, f: Fields, words: seq<nat>)
    requires Stands(s, p, t) && IsGroup(t) && At(s, p + |t|) == ':' && At(s, p + |t| + 1) != '\0'
    requires Scan(s, p + |t| + 1, With(f, [HexNumber(t)])) == Some(With(With(f, [HexNumber(t)]), words))
    ensures Scan(s, p, f) == Some(With(f, [HexNumber(t)] + words))
  {
    ScanGroup(t, s, p, f);
    WithMore(f, [HexNumber(t)], words);
  }

  lemma ScanDots(o: seq<nat>, s: string, p: nat, f: Fields)
    requires IsQuad(o) && Ends(s, p, Dotted(o))
    ensures Scan(s, p, f) == Some(With(f, WordsOf(Dots(o))))
  {
    DottedBack(o, s, p);
    DecShort(o[0]);
    assert Dec(o[0]) != "";
    ScanOctets(s, p, f, o);
  }

  lemma ScanLast(x: Field, s: string, p: nat, f: Fields)
    requires Fielded([x]) && Ends(s, p, TextOf(x))
    ensures Scan(s, p, f) == Some(With(f, AllWords([x])))
  {
    assert AllWords([x]) == WordsOf(x) + [] == WordsOf(x);
    match x {
      case Group(t) => ScanGroup(t, s, p, f);
      case Dots(o) => ScanDots(o, s, p, f);
    }
  }

  lemma {:induction false} ScanFields(fs: seq<Field>, s: string, p: nat, f: Fields)
    requires Fielded(fs) && fs != [] && Ends(s, p, Joined(fs))
    ensures Scan(s, p, f) == Some(With(f, AllWords(fs)))
    decreases |fs|
  {
    hide Scan;
    if |fs| == 1 {
      assert fs == [fs[0]];
      ScanLast(fs[0], s, p, f);
    } else {
      var t, rest := fs[0].t, fs[1..];
      var v := HexNumber(t);
      JoinedStart(rest);
      EndsApart(s, p, t, ':', Joined(rest));
      StandsStart(s, p + |t| + 1, Joined(rest));
      ScanFields(rest, s, p + |t| + 1, With(f, [v]));
      GroupMore(t, s, p, f, AllWords(rest));
      assert AllWords(fs) == [v] + AllWords(rest);
    }
  }

  ghost function Opened(f: Fields, words: seq<nat>): Fields { Fields(f.words + words, |f.words + words|) }

  lemma OpenedMore(f: Fields, a: seq<nat>, b: seq<nat>)
    ensures Opened(With(f, a), b) == Opened(f, a + b)
  {
    assert f.words + a + b == f.words + (a + b);
  }

  lemma OpenedField(fs: seq<Field>, f: Fields)
    requires fs != [] && fs[0].Group? && IsGroup(fs[0].t)
    ensures Opened(With(f, [HexNumber(fs[0].t)]), AllWords(fs[1..])) == Opened(f, AllWords(fs))
  {
    OpenedMore(f, [HexNumber(fs[0].t)], AllWords(fs[1..]));
  }

  lemma ScanColons(t: string, s: string, p: nat, f: Fields)
    requires IsGroup(t) && Stands(s, p, t + "::") && f.gap < 0
    ensures Scan(s, p, f) == Scan(s, p + |t| + 2, Opened(f, [HexNumber(t)]))
  {
    assert t + "::" == t + ([':'] + ":");
    StandsAround(s, p, t, ':', ":");
    StandsStart(s, p + |t| + 1, ":");
    ScanGroup(t, s, p, f);
  }

  /** What stands where, when there is more than one field in front of a double colon. */
  lemma LeftApart(fs: seq<Field>, s: string, p: nat)
    requires |fs| > 1 && Groups(fs) && Stands(s, p, Joined(fs) + "::")
    ensures var t, rest := fs[0].t, Joined(fs[1..]);
            && Stands(s, p, t) && At(s, p + |t|) == ':' && Stands(s, p + |t| + 1, rest + "::")
            && |Joined(fs)| == |t| + 1 + |rest| && At(s, p + |t| + 1) != '\0'
  {
    var t, rest := fs[0].t, Joined(fs[1..]);
    assert Joined(fs) + "::" == t + ([':'] + (rest + "::"));
    StandsAround(s, p, t, ':', rest + "::");
    GroupsFielded(fs[1..]);
    JoinedStart(fs[1..]);
    StandsSplit(s, p + |t| + 1, rest, "::");
    StandsStart(s, p + |t| + 1, rest);
  }

  /** The fields in front of a double colon. */
  lemma {:induction false} ScanLeft(fs: seq<Field>, s: string, p: nat, f: Fields)
    requires Groups(fs) && fs != [] && Stands(s, p, Joined(fs) + "::") && f.gap < 0
    ensures Scan(s, p, f) == Scan(s, p + |Joined(fs)| + 2, Opened(f, AllWords(fs)))
    decreases |fs|
  {
    hide Scan;
    var t := fs[0].t;
    var v := HexNumber(t);
    if |fs| == 1 {
      assert AllWords(fs) == [v] + [] == [v];
      ScanColons(t, s, p, f);
    } else {
      LeftApart(fs, s, p);
      ScanLeft(fs[1..], s, p + |t| + 1, With(f, [v]));
      OpenedField(fs, f);
      GroupLeft(t, s, p, f, Scan(s, p + |Joined(fs)| + 2, Opened(f, AllWords(fs))));
    }
  }

  lemma GroupLeft(t: string, s: string, p: nat, f: Fields, x: Option<Fields>)
    requires Stands(s, p, t) && IsGroup(t) && At(s, p + |t|) == ':' && At(s, p + |t| + 1) != '\0'
    requires Scan(s, p + |t| + 1, With(f, [HexNumber(t)])) == x
    ensures Scan(s, p, f) == x
  {
    ScanGroup(t, s, p, f);
  }

  lemma ScanRight(fs: seq<Field>, s: string, p: nat, f: Fields)
    requires Fielded(fs) && Ends(s, p, Joined(fs))
    ensures Scan(s, p, f) == Some(With(f, AllWords(fs)))
  {
    if fs == [] {
      assert f.words + [] == f.words;
    } else {
      ScanFields(fs, s, p, f);
    }
  }

  lemma GapFilled(l: seq<nat>, r: seq<nat>)
    requires |l| + |r| <= 7
    ensures Complete(With(Fields(l, |l|), r)) == Some(l + Zeros(8 - |l| - |r|) + r)
  {
    assert (l + r)[..|l|] == l && (l + r)[|l|..] == r;
  }

  lemma PlainAccepted(s: string, fs: seq<Field>)
    requires Fielded(fs) && |AllWords(fs)| == 8 && Ends(s, 0, Joined(fs))
    ensures Ipv6(s) == Some(AllWords(fs))
  {
    JoinedStart(fs);
    StandsStart(s, 0, Joined(fs));
    ScanFields(fs, s, 0, Fields([], -1));
    assert [] + AllWords(fs) == AllWords(fs);
  }

  lemma CompressedAccepted(s: string, l: seq<Field>, r: seq<Field>)
    requires Proper(Compressed(l, r)) && Ends(s, 0, FormText(Compressed(l, r)))
    ensures Ipv6(s) == Some(FormWords(Compressed(l, r)))
  {
    LeftRead(s, l, r);
    RightRead(s, l, r);
  }

  /** The text in front of the double colon leads to the text behind it. */
  lemma LeftRead(s: string, l: seq<Field>, r: seq<Field>)
    requires Proper(Compressed(l, r)) && Ends(s, 0, FormText(Compressed(l, r)))
    ensures Ipv6(s) == Completed(Scan(s, |Joined(l)| + 2, Fields(AllWords(l), |AllWords(l)|)))
  {
    EndsSplit(s, 0, Joined(l) + "::", Joined(r));
    if l == [] {
      TwoColons(s, Joined(l) + "::");
    } else {
      LeftAccepted(s, l);
      OpenedEmpty(AllWords(l));
    }
  }

  lemma RightRead(s: string, l: seq<Field>, r: seq<Field>)
    requires Proper(Compressed(l, r)) && Ends(s, 0, FormText(Compressed(l, r)))
    ensures Completed(Scan(s, |Joined(l)| + 2, Fields(AllWords(l), |AllWords(l)|))) == Some(FormWords(Compressed(l, r)))
  {
    EndsSplit(s, 0, Joined(l) + "::", Joined(r));
    RightFills(s, |Joined(l)| + 2, AllWords(l), r);
  }

  lemma TwoColons(s: string, t: string)
    requires Stands(s, 0, t) && t == "::"
    ensures At(s, 0) == ':' && At(s, 1) == ':'
  {
    assert t[0] == At(s, 0 + 0) && t[1] == At(s, 0 + 1);
  }

  lemma LeftAccepted(s: string, l: seq<Field>)
    requires Groups(l) && l != [] && Stands(s, 0, Joined(l) + "::")
    ensures At(s, 0) != ':' && Scan(s, 0, Fields([], -1)) == Scan(s, |Joined(l)| + 2, Opened(Fields([], -1), AllWords(l)))
  {
    GroupsFielded(l);
    JoinedStart(l);
    StandsSplit(s, 0, Joined(l), "::");
    StandsStart(s, 0, Joined(l));
    ScanLeft(l, s, 0, Fields([], -1));
  }

  lemma RightFills(s: string, p: nat, w: seq<nat>, r: seq<Field>)
    requires Fielded(r) && |w| + |AllWords(r)| <= 7 && Ends(s, p, Joined(r))
    ensures Completed(Scan(s, p, Fields(w, |w|))) == Some(w + Zeros(8 - |w| - |AllWords(r)|) + AllWords(r))
  {
    ScanRight(r, s, p, Fields(w, |w|));
    GapFilled(w, AllWords(r));
  }

  lemma OpenedEmpty(w: seq<nat>)
    ensures Opened(Fields([], -1), w) == Fields(w, |w|)
  {
    assert [] + w == w;
  }

  lemma FormAccepted(s: string, form: Form)
    requires Proper(form) && Ends(s, 0, FormText(form))
    ensures Ipv6(s) == Some(FormWords(form))
  {
    match form {
      case Plain(fs) => PlainAccepted(s, fs);
      case Compressed(l, r) => CompressedAccepted(s, l, r);
    }
  }

  // ---- and nothing else ----

  /** What is left of a text between two fields; gap says that a double colon is still to come. */
  function RestText(l: seq<Field>, gap: bool, r: seq<Field>): string {
    if !gap then Joined(l) else if l == [] then ":" + Joined(r) else Joined(l) + ("::" + Joined(r))
  }

  ghost predicate RestProper(l: seq<Field>, gap: bool, r: seq<Field>) {
    if gap then Groups(l) && Fielded(r) else Fielded(l) && r == []
  }

  ghost function RestFields(f: Fields, l: seq<Field>, gap: bool, r: seq<Field>): Fields {
    Fields(f.words + (AllWords(l) + AllWords(r)), if gap then |f.words| + |AllWords(l)| else f.gap)
  }

  ghost predicate TakesApart(s: string, p: nat, f: Fields, g: Fields, l: seq<Field>, gap: bool, r: seq<Field>) {
    RestProper(l, gap, r) && Ends(s, p, RestText(l, gap, r)) && g == RestFields(f, l, gap, r) && (gap ==> f.gap < 0)
  }

  lemma GroupInFront(t: string, l: seq<Field>, gap: bool, r: seq<Field>)
    requires IsGroup(t) && RestProper(l, gap, r) && RestText(l, gap, r) != ""
    ensures var fs := [Group(t)] + l;
            && RestProper(fs, gap, r) && RestText(fs, gap, r) == t + ([':'] + RestText(l, gap, r))
            && AllWords(fs) == [HexNumber(t)] + AllWords(l)
  {
    var fs := [Group(t)] + l;
    assert fs[1..] == l;
  }

  lemma EndsNonempty(s: string, p: nat, t: string)
    requires Ends(s, p, t) && At(s, p) != '\0'
    ensures t != ""
  {
  }

  lemma FourWords(a: seq<nat>, b: seq<nat>, c: seq<nat>, d: seq<nat>)
    ensures a + b + (c + d) == a + ((b + c) + d)
  {
  }

  lemma RestFieldsMore(f: Fields, v: nat, t: string, l: seq<Field>, gap: bool, r: seq<Field>)
    requires AllWords([Group(t)] + l) == [v] + AllWords(l)
    ensures RestFields(With(f, [v]), l, gap, r) == RestFields(f, [Group(t)] + l, gap, r)
  {
    FourWords(f.words, [v], AllWords(l), AllWords(r));
  }

  lemma GroupThen(t: string, s: string, p: nat, f: Fields, g: Fields, l: seq<Field>, gap: bool, r: seq<Field>)
    requires IsGroup(t) && Stands(s, p, t) && At(s, p + |t|) == ':' && At(s, p + |t| + 1) != '\0'
    requires TakesApart(s, p + |t| + 1, With(f, [HexNumber(t)]), g, l, gap, r)
    ensures TakesApart(s, p, f, g, [Group(t)] + l, gap, r)
  {
    EndsNonempty(s, p + |t| + 1, RestText(l, gap, r));
    GroupInFront(t, l, gap, r);
    EndsAround(s, p, t, ':', RestText(l, gap, r));
    RestFieldsMore(f, HexNumber(t), t, l, gap, r);
  }

  /** A field at the end of the text. */
  lemma LastTaken(x: Field, s: string, p: nat, f: Fields)
    requires Fielded([x]) && Ends(s, p, TextOf(x))
    ensures TakesApart(s, p, f, With(f, WordsOf(x)), [x], false, [])
  {
    assert AllWords([x]) + [] == WordsOf(x);
  }

  /** The second colon of a double colon. */
  lemma ColonTaken(s: string, p: nat, f: Fields, g: Fields, r: seq<Field>)
    requires At(s, p) == ':' && f.gap < 0 && TakesApart(s, p + 1, f.(gap := |f.words|), g, r, false, [])
    ensures TakesApart(s, p, f, g, [], true, r)
  {
    EndsAround(s, p, "", ':', Joined(r));
    assert "" + ([':'] + Joined(r)) == ":" + Joined(r);
    assert AllWords(r) + [] == [] + AllWords(r);
  }

  lemma {:induction false} Taken(s: string, p: nat, f: Fields, g: Fields) returns (l: seq<Field>, gap: bool, r: seq<Field>)
    requires p <= |s| && Scan(s, p, f) == Some(g)
    ensures TakesApart(s, p, f, g, l, gap, r)
    decreases |s| - p
  {
    l, gap, r := [], false, [];
    if At(s, p) == '\0' {
      assert f.words + ([] + []) == f.words;
    } else if s[p] == ':' {
      l, gap, r := Taken(s, p + 1, f.(gap := |f.words|), g);
      ColonTaken(s, p, f, g, l);
      l, gap, r := [], true, l;
    } else {
      l, gap, r := FieldTaken(s, p, f, g);
    }
  }

  lemma RunShort(s: string, p: nat, f: Fields, g: Fields)
    requires p < |s| && At(s, p) != '\0' && At(s, p) != ':' && Scan(s, p, f) == Some(g)
    ensures 1 <= HexRun(s, p) <= 4
  {
  }

  lemma GroupPast(t: string, s: string, p: nat, f: Fields, g: Fields)
    requires p < |s| && At(s, p) != '\0' && At(s, p) != ':' && Scan(s, p, f) == Some(g)
    requires IsGroup(t) && |t| == HexRun(s, p) && Hexadecimal(s, p, |t|) == HexNumber(t) && At(s, p + |t|) == ':'
    ensures At(s, p + |t| + 1) != '\0' && Scan(s, p + |t| + 1, With(f, [HexNumber(t)])) == Some(g)
  {
  }

  lemma LastField(s: string, p: nat, f: Fields, g: Fields) returns (x: Field)
    requires p < |s| && At(s, p) != '\0' && At(s, p) != ':' && Scan(s, p, f) == Some(g)
    requires At(s, p + HexRun(s, p)) != ':'
    ensures TakesApart(s, p, f, g, [x], false, [])
  {
    var t := RunIsGroup(s, p);
    HexRunFits(s, p);
    if At(s, p + |t|) == '.' {
      OctetsPrinted(s, p, 4);
      x := Dots(Octets(s, p, 4).value);
    } else {
      x := Group(t);
    }
    LastTaken(x, s, p, f);
  }

  lemma {:induction false} FieldTaken(s: string, p: nat, f: Fields, g: Fields)
    returns (l: seq<Field>, gap: bool, r: seq<Field>)
    requires p < |s| && At(s, p) != '\0' && At(s, p) != ':' && Scan(s, p, f) == Some(g)
    ensures TakesApart(s, p, f, g, l, gap, r)
    decreases |s| - p, 0
  {
    hide Scan;
    RunShort(s, p, f, g);
    var t := RunIsGroup(s, p);
    HexRunFits(s, p);
    if At(s, p + |t|) == ':' {
      GroupPast(t, s, p, f, g);
      l, gap, r := Taken(s, p + |t| + 1, With(f, [HexNumber(t)]), g);
      GroupThen(t, s, p, f, g, l, gap, r);
      l := [Group(t)] + l;
    } else {
      var x := LastField(s, p, f, g);
      l, gap, r := [x], false, [];
    }
  }

  lemma FormOf(s: string) returns (form: Form)
    requires Ipv6(s).Some?
    ensures Proper(form) && Ends(s, 0, FormText(form))
  {
    if At(s, 0) != ':' {
      form := FormOfField(s);
    } else {
      var g := Scan(s, 2, Fields([], 0)).value;
      var l, gap, r := Taken(s, 2, Fields([], 0), g);
      EndsAround(s, 1, "", ':', Joined(l));
      EndsAround(s, 0, "", ':', "" + ([':'] + Joined(l)));
      form := Compressed([], l);
      assert FormText(form) == "" + ([':'] + ("" + ([':'] + Joined(l))));
      assert [] + (AllWords(l) + []) == AllWords(l);
    }
  }

  lemma FormOfField(s: string) returns (form: Form)
    requires Ipv6(s).Some? && At(s, 0) != ':'
    ensures Proper(form) && Ends(s, 0, FormText(form))
  {
    var g := Scan(s, 0, Fields([], -1)).value;
    var l, gap, r := Taken(s, 0, Fields([], -1), g);
    assert [] + (AllWords(l) + AllWords(r)) == AllWords(l) + AllWords(r);
    if gap {
      StandsStart(s, 0, RestText(l, gap, r));
      form := Compressed(l, r);
      assert FormText(form) == RestText(l, gap, r);
    } else {
      assert AllWords(l) + [] == AllWords(l);
      form := Plain(l);
    }
  }

  /** The IPv6 texts that both parsers accept are exactly the forms of the grammar, and they mean the words of the form. */
  lemma AcceptsExactlyForms(s: string, w: seq<nat>)
    ensures Ipv6(s) == Some(w) <==> exists form :: IsForm(s, form, w)
  {
    if Ipv6(s) == Some(w) {
      var form := FormOf(s);
      FormAccepted(s, form);
      assert IsForm(s, form, w);
    }
    if exists form :: IsForm(s, form, w) {
      var form :| IsForm(s, form, w);
      FormAccepted(s, form);
    }
  }

  ghost predicate IsForm(s: string, form: Form, w: seq<nat>) {
    Proper(form) && Ends(s, 0, FormText(form)) && FormWords(form) == w
  }
}
