/** next_power_of_two of 3rd/libuv/src/unix/core.c. Its words are the numbers below 2^32. */
module PowersOfTwo {
  import opened Powers

  const WORD: nat := 0x1_0000_0000

  predicate Bit(v: nat, i: nat)
    decreases i
  {
    if i == 0 then v % 2 == 1 else Bit(v / 2, i - 1)
  }

  /** a | b. */
  function Or(a: nat, b: nat): nat {
    if a == 0 then b else 2 * Or(a / 2, b / 2) + if a % 2 == 1 || b % 2 == 1 then 1 else 0
  }

  /** v >> k. */
  function Shr(v: nat, k: nat): nat
    decreases k
  {
    if k == 0 then v else Shr(v / 2, k - 1)
  }

  lemma {:induction false} OrBit(a: nat, b: nat, i: nat)
    ensures Bit(Or(a, b), i) <==> Bit(a, i) || Bit(b, i)
    decreases i
  {
    if a == 0 {
      ZeroBit(i);
    } else {
      assert Or(a, b) / 2 == Or(a / 2, b / 2);
      if i > 0 {
        OrBit(a / 2, b / 2, i - 1);
      }
    }
  }

  lemma {:induction false} ZeroBit(i: nat)
    ensures !Bit(0, i)
  {
    if i > 0 {
      ZeroBit(i - 1);
    }
  }

  lemma {:induction false} ShrBit(v: nat, k: nat, i: nat)
    ensures Bit(Shr(v, k), i) <==> Bit(v, k + i)
    decreases k
  {
    if k > 0 {
      ShrBit(v / 2, k - 1, i);
    }
  }

  /** How many bits v has. */
  ghost function Length(v: nat): nat { if v == 0 then 0 else 1 + Length(v / 2) }

  lemma {:induction false} LengthBits(v: nat)
    ensures v > 0 ==> Length(v) > 0 && Bit(v, Length(v) - 1) && Pow2(Length(v) - 1) <= v
    ensures v < Pow2(Length(v)) && forall i :: i >= Length(v) ==> !Bit(v, i)
  {
    if v == 0 {
      forall i: nat ensures !Bit(0, i) {
        ZeroBit(i);
      }
    } else {
      LengthBits(v / 2);
      forall i | i >= Length(v) ensures !Bit(v, i) {
        assert !Bit(v / 2, i - 1);
      }
      assert v > 1 ==> Bit(v / 2, Length(v / 2) - 1);
    }
  }

  lemma {:induction false} AllOnes(v: nat, n: nat)
    requires forall i :: 0 <= i < n ==> Bit(v, i)
    requires forall i :: i >= n ==> !Bit(v, i)
    ensures v == Pow2(n) - 1
    decreases n
  {
    if n == 0 {
      LengthBits(v);
    } else {
      assert Bit(v, 0);
      forall i | 0 <= i < n - 1 ensures Bit(v / 2, i) {
        assert Bit(v, i + 1);
      }
      forall i | i >= n - 1 ensures !Bit(v / 2, i) {
        assert !Bit(v, i + 1);
      }
      AllOnes(v / 2, n - 1);
    }
  }

  /** v has n bits, the top j of which are ones, or all if j is larger. */
  ghost predicate TopOnes(v: nat, n: nat, j: nat) {
    && (forall i: nat :: n - j <= i < n ==> Bit(v, i))
    && forall i :: i >= n ==> !Bit(v, i)
  }

  /** val |= val >> j doubles the number of leading ones. */
  lemma Doubles(v: nat, n: nat, j: nat)
    requires TopOnes(v, n, j)
    ensures TopOnes(Or(v, Shr(v, j)), n, 2 * j)
  {
    var w := Or(v, Shr(v, j));
    forall i: nat | n - 2 * j <= i < n ensures Bit(w, i) {
      OrBit(v, Shr(v, j), i);
      ShrBit(v, j, i);
      assert i < n - j ==> Bit(v, j + i);
    }
    forall i: nat | i >= n ensures !Bit(w, i) {
      OrBit(v, Shr(v, j), i);
      ShrBit(v, j, i);
    }
  }

  function Smear(v: nat, j: nat): nat { Or(v, Shr(v, j)) }

  function Smeared(v: nat): nat { Smear(Smear(Smear(Smear(Smear(v, 1), 2), 4), 8), 16) }

  /** The five steps fill all bits below the highest one. */
  lemma AllSmeared(v: nat)
    requires v < WORD
    ensures Smeared(v) == Pow2(Length(v)) - 1
  {
    var n := Length(v);
    LengthBits(v);
    LengthFits(v, n);
    Doubles(v, n, 1);
    Doubles(Smear(v, 1), n, 2);
    Doubles(Smear(Smear(v, 1), 2), n, 4);
    Doubles(Smear(Smear(Smear(v, 1), 2), 4), n, 8);
    Doubles(Smear(Smear(Smear(Smear(v, 1), 2), 4), 8), n, 16);
    AllOnes(Smeared(v), n);
  }

  /** The least power of two that is not below v, 0 where a word does not hold it. */
  ghost function PowerFrom(v: nat): (p: nat)
    ensures 1 <= v <= 0x8000_0000 ==> v <= p < 2 * v && p <= 0x8000_0000
  {
    if 1 <= v <= 0x8000_0000 then
      LengthFits(v - 1, Length(v - 1));
      Pow2(Length(v - 1))
    else 0
  }

  // next_power_of_two. Past 2^31 there is no power of two left in a word, and the result wraps around to 0.
  method NextPowerOfTwo(val0: nat) returns (val: nat)
    requires val0 < WORD
    ensures 1 <= val0 <= 0x8000_0000 ==> val0 <= val < 2 * val0 && exists k :: val == Pow2(k)
    ensures val0 == 0 || val0 > 0x8000_0000 ==> val == 0
    ensures val == PowerFrom(val0)
  {
    val := if val0 == 0 then WORD - 1 else val0 - 1;
    ghost var v := val;
    val := Smear(val, 1);
    val := Smear(val, 2);
    val := Smear(val, 4);
    val := Smear(val, 8);
    val := Smear(val, 16);
    assert val == Smeared(v);
    AllSmeared(v);
    LengthFits(v, Length(v));
    val := if val + 1 == WORD then 0 else val + 1;
  }

  /** The unsigned numbers of maybe_resize: what it takes for nwatchers when len slots are asked for. */
  ghost function CountFor(len: nat): nat { (PowerFrom((len + 2) % WORD) + WORD - 2) % WORD }

  /** And how many slots it asks realloc for. */
  ghost function SlotsFor(len: nat): nat { (CountFor(len) + 2) % WORD }

  /** The new array has room for len slots and the two at its end exactly up to 2^31 slots in all. */
  lemma ArrayCovers(len: nat)
    requires len < WORD
    ensures len <= SlotsFor(len) <==> len + 2 <= 0x8000_0000
    ensures len + 2 <= 0x8000_0000 ==> len <= CountFor(len) && CountFor(len) + 2 == SlotsFor(len) == PowerFrom(len + 2)
    ensures len + 2 > 0x8000_0000 ==> SlotsFor(len) < 2 <= CountFor(len)
  {
    if len + 2 <= 0x8000_0000 {
      assert (len + 2) % WORD == len + 2;
      assert (PowerFrom(len + 2) + WORD - 2) % WORD == PowerFrom(len + 2) - 2;
    } else if len + 2 < WORD {
      assert (len + 2) % WORD == len + 2;
    } else {
      assert (len + 2) % WORD == len + 2 - WORD;
    }
  }

  /** uv__io_start admits the descriptor 2^31 - 2. For it realloc is asked for no bytes at all. */
  lemma LastDescriptor()
    ensures var fd := 0x7FFF_FFFF - 1;
            SlotsFor(fd + 1) == 0 && CountFor(fd + 1) == WORD - 2
  {
    assert (0x7FFF_FFFF + 2) % WORD > 0x8000_0000;
  }

  /** A word has at most 32 bits, and its length says between which powers of two it lies. */
  lemma LengthFits(v: nat, n: nat)
    requires v < WORD && n == Length(v)
    ensures n <= 32 && v < Pow2(n) && (v > 0 ==> n > 0 && Pow2(n) <= 2 * v)
    ensures v < 0x8000_0000 ==> Pow2(n) <= 0x8000_0000
    ensures v >= 0x8000_0000 ==> Pow2(n) == WORD
  {
    LengthBits(v);
    WordPowers();
    if n > 32 {
      Pow2Grows(32, n - 1);
    } else if n == 32 {
    } else {
      Pow2Grows(n, 31);
    }
  }

  lemma WordPowers()
    ensures Pow2(31) == 0x8000_0000 && Pow2(32) == WORD
  {
    assert Pow2(8) == 256;
    assert Pow2(16) == 65536;
    assert Pow2(24) == 0x100_0000;
  }
}
