/** 32-bit registers as lists of bits, least significant first: xor, shift, and the reflected CRC division step. */
module Bits {
  import opened Machine

  type Word = w: seq<bool> | |w| == 32 witness seq(32, i => false)

  function Half(s: bv32): bv32 { s >> 1 }

  predicate Odd(s: bv32) { s & 1 != 0 }

  /** s shifted down i places, one at a time. */
  function Down(s: bv32, i: nat): bv32
    decreases i
  {
    if i == 0 then s else Half(Down(s, i - 1))
  }

  function BitsOf(s: bv32): Word {
    seq(32, i requires 0 <= i < 32 => BitAt(s, i))
  }

  predicate BitAt(s: bv32, i: nat)
    decreases i
  {
    if i == 0 then Odd(s) else BitAt(Half(s), i - 1)
  }

  /** The bits of a byte in the order they enter the register. */
  function ByteBits(b: byte): (bits: seq<bool>)
    ensures |bits| == 8
  {
    BitsOf(b as bv32)[..8]
  }

  function DataBits(data: seq<byte>): (bits: seq<bool>)
    ensures |bits| == 8 * |data|
    decreases |data|
  {
    if data == [] then [] else ByteBits(data[0]) + DataBits(data[1..])
  }

  function Zeros(n: nat): (z: seq<bool>)
    ensures |z| == n && forall i :: 0 <= i < n ==> !z[i]
  {
    seq(n, i => false)
  }

  function Xor(a: seq<bool>, b: seq<bool>): (x: seq<bool>)
    requires |a| == |b|
    ensures |x| == |a| && forall i :: 0 <= i < |a| ==> x[i] == (a[i] != b[i])
  {
    seq(|a|, i requires 0 <= i < |a| => a[i] != b[i])
  }

  function Not(a: seq<bool>): (x: seq<bool>)
    ensures |x| == |a| && forall i :: 0 <= i < |a| ==> x[i] == !a[i]
  {
    seq(|a|, i requires 0 <= i < |a| => !a[i])
  }

  /** The reflected Castagnoli polynomial, coefficient of x^31 first. */
  const POLY: Word := [
    false, false, false, true, true, true, true, false,
    true, true, false, true, true, true, false, false,
    false, true, true, false, true, true, true, true,
    false, true, false, false, false, false, false, true]

  /** One step of the division register: shift out the low bit, and subtract the polynomial if it was set. */
  function StepBits(w: Word): Word {
    if w[0] then Xor(w[1..] + [false], POLY) else w[1..] + [false]
  }

  /** A message bit meets the low bit of the register. */
  function Inject(w: Word, bit: bool): Word { w[0 := w[0] != bit] }

  /** The bit-serial register over a whole message. */
  function Run(w: Word, bits: seq<bool>): Word
    decreases |bits|
  {
    if bits == [] then w else Run(StepBits(Inject(w, bits[0])), bits[1..])
  }

  // ---- machine words and their bits -------------------------------------------------

  lemma XorOnce(a: bv32, b: bv32)
    ensures Half(a ^ b) == Half(a) ^ Half(b) && Odd(a ^ b) == (Odd(a) != Odd(b))
  {
  }

  /** Bits 0 to i of x are those of a and b, added. */
  ghost predicate Xored(x: bv32, a: bv32, b: bv32, i: nat)
    decreases i
  {
    Odd(x) == (Odd(a) != Odd(b)) && (i > 0 ==> Xored(Half(x), Half(a), Half(b), i - 1))
  }

  lemma {:induction false} XorIsXored(a: bv32, b: bv32, i: nat)
    ensures Xored(a ^ b, a, b, i)
    decreases i
  {
    XorOnce(a, b);
    if i > 0 { XorIsXored(Half(a), Half(b), i - 1); }
  }

  lemma {:induction false} XoredAt(x: bv32, a: bv32, b: bv32, i: nat)
    requires Xored(x, a, b, i)
    ensures BitAt(x, i) == (BitAt(a, i) != BitAt(b, i))
    decreases i
  {
    if i > 0 { XoredAt(Half(x), Half(a), Half(b), i - 1); }
  }

  lemma XorWords(a: bv32, b: bv32)
    ensures BitsOf(a ^ b) == Xor(BitsOf(a), BitsOf(b))
  {
    forall i | 0 <= i < 32 ensures BitsOf(a ^ b)[i] == (BitsOf(a)[i] != BitsOf(b)[i]) {
      XorIsXored(a, b, i);
      XoredAt(a ^ b, a, b, i);
    }
  }

  lemma {:induction false} DownAdd(s: bv32, i: nat, j: nat)
    ensures Down(s, i + j) == Down(Down(s, i), j)
    decreases j
  {
    if j > 0 { DownAdd(s, i, j - 1); }
  }

  lemma HalfShift(s: bv32)
    ensures Half(s) == s >> 1 && Half(s >> 1) == s >> 2 && Half(s >> 2) == s >> 3 && Half(s >> 3) == s >> 4
    ensures Half(s >> 4) == s >> 5 && Half(s >> 5) == s >> 6 && Half(s >> 6) == s >> 7 && Half(s >> 7) == s >> 8
  {
  }

  lemma DownByte(s: bv32, i: nat)
    requires i == 8
    ensures Down(s, i - 8) == s && Down(s, i - 7) == s >> 1 && Down(s, i - 6) == s >> 2 && Down(s, i - 5) == s >> 3
    ensures Down(s, i - 4) == s >> 4 && Down(s, i - 3) == s >> 5 && Down(s, i - 2) == s >> 6 && Down(s, i - 1) == s >> 7
    ensures Down(s, i) == s >> 8
  {
    HalfShift(s);
  }

  lemma FourBytes(s: bv32)
    ensures (((s >> 8) >> 8) >> 8) >> 8 == 0
  {
  }

  lemma HalfZero()
    ensures Half(0) == 0 && !Odd(0)
  {
  }

  lemma {:induction false} DownZero(i: nat)
    ensures Down(0, i) == 0
    decreases i
  {
    if i > 0 {
      DownZero(i - 1);
      HalfZero();
    }
  }

  /** Nothing is left after 32 places. */
  lemma DownAll(s: bv32, i: nat)
    requires i >= 32
    ensures Down(s, i) == 0
  {
    var a, b, c := Down(s, 8), Down(s, 16), Down(s, 24);
    DownByte(s, 8); DownAdd(s, 8, 8);
    DownByte(a, 8); DownAdd(s, 16, 8);
    DownByte(b, 8); DownAdd(s, 24, 8);
    DownByte(c, 8); FourBytes(s);
    DownAdd(s, 32, i - 32);
    DownZero(i - 32);
  }

  lemma {:induction false} BitDown(s: bv32, i: nat, j: nat)
    ensures BitAt(Down(s, j), i) == BitAt(s, i + j)
    decreases j
  {
    if j > 0 { BitDown(s, i + 1, j - 1); }
  }

  lemma BitPast(s: bv32, i: nat)
    requires i >= 32
    ensures !BitAt(s, i)
  {
    BitDown(s, 0, i);
    DownAll(s, i);
    HalfZero();
  }

  lemma ShiftWord(a: bv32)
    ensures BitsOf(Half(a)) == BitsOf(a)[1..] + [false]
  {
    BitPast(a, 32);
  }

  lemma ShiftByte(a: bv32)
    ensures BitsOf(a >> 8) == BitsOf(a)[8..] + Zeros(8)
  {
    DownByte(a, 8);
    forall i | 0 <= i < 32 ensures BitsOf(a >> 8)[i] == (BitsOf(a)[8..] + Zeros(8))[i] {
      BitDown(a, i, 8);
      if i >= 24 { BitPast(a, 8 + i); }
    }
  }

  lemma HalfInjective(a: bv32, b: bv32)
    requires Half(a) == Half(b) && Odd(a) == Odd(b)
    ensures a == b
  {
  }

  lemma {:induction false} SameWord(a: bv32, b: bv32, n: nat)
    requires Down(a, n) == Down(b, n)
    requires forall i :: 0 <= i < n ==> BitAt(a, i) == BitAt(b, i)
    ensures a == b
    decreases n
  {
    if n > 0 {
      assert BitAt(a, n - 1) == BitAt(b, n - 1);
      BitDown(a, 0, n - 1);
      BitDown(b, 0, n - 1);
      HalfInjective(Down(a, n - 1), Down(b, n - 1));
      SameWord(a, b, n - 1);
    }
  }

  /** A word is determined by its bits. */
  lemma WordFromBits(a: bv32, b: bv32)
    requires BitsOf(a) == BitsOf(b)
    ensures a == b
  {
    forall i | 0 <= i < 32 ensures BitAt(a, i) == BitAt(b, i) {
      assert BitsOf(a)[i] == BitsOf(b)[i];
    }
    DownAll(a, 32);
    DownAll(b, 32);
    SameWord(a, b, 32);
  }

  // ---- bytes, complements, the polynomial -------------------------------------------

  lemma BitIsOdd(s: bv32, i: nat, v: bv32)
    requires Down(s, i) == v
    ensures BitAt(s, i) == Odd(v)
  {
    BitDown(s, 0, i);
  }

  lemma LowBitsAt(s: bv32, i: nat)
    requires i == 8
    ensures BitAt(s, i - 8) == Odd(s) && BitAt(s, i - 7) == Odd(s >> 1) && BitAt(s, i - 6) == Odd(s >> 2)
    ensures BitAt(s, i - 5) == Odd(s >> 3) && BitAt(s, i - 4) == Odd(s >> 4) && BitAt(s, i - 3) == Odd(s >> 5)
    ensures BitAt(s, i - 2) == Odd(s >> 6) && BitAt(s, i - 1) == Odd(s >> 7)
  {
    DownByte(s, i);
    BitIsOdd(s, i - 8, s);
    BitIsOdd(s, i - 7, s >> 1);
    BitIsOdd(s, i - 6, s >> 2);
    BitIsOdd(s, i - 5, s >> 3);
    BitIsOdd(s, i - 4, s >> 4);
    BitIsOdd(s, i - 3, s >> 5);
    BitIsOdd(s, i - 2, s >> 6);
    BitIsOdd(s, i - 1, s >> 7);
  }

  lemma FirstEight(w: Word)
    ensures w[..8] == [w[0], w[1], w[2], w[3], w[4], w[5], w[6], w[7]]
  {
  }

  /** The low byte of a word, bit by bit. */
  lemma LowBits(s: bv32)
    ensures BitsOf(s)[..8] == [Odd(s), Odd(s >> 1), Odd(s >> 2), Odd(s >> 3), Odd(s >> 4), Odd(s >> 5), Odd(s >> 6),
        Odd(s >> 7)]
  {
    LowBitsAt(s, 8);
    FirstEight(BitsOf(s));
  }

  lemma Parts(w: Word, x: Word, y: Word, z: Word)
    requires x == w[8..] + Zeros(8) && y == x[8..] + Zeros(8) && z == y[8..] + Zeros(8)
    ensures w == w[..8] + x[..8] + y[..8] + z[..8]
  {
  }

  /** A word is its four bytes. */
  lemma FourParts(s: bv32, x: bv32, y: bv32, z: bv32)
    requires x == s >> 8 && y == x >> 8 && z == y >> 8
    ensures BitsOf(s) == BitsOf(s)[..8] + BitsOf(x)[..8] + BitsOf(y)[..8] + BitsOf(z)[..8]
  {
    var w0, w1, w2, w3 := BitsOf(s), BitsOf(x), BitsOf(y), BitsOf(z);
    ShiftByte(s);
    ShiftByte(x);
    ShiftByte(y);
    Parts(w0, w1, w2, w3);
  }

  lemma PolyBytes()
    ensures (0x82F6_3B78 as bv32) >> 8 == 0x82_F63B && (0x82_F63B as bv32) >> 8 == 0x82F6
        && (0x82F6 as bv32) >> 8 == 0x82
  {
  }

  lemma PolyBits()
    ensures BitsOf(0x82F6_3B78) == POLY
  {
    PolyBytes();
    FourParts(0x82F6_3B78, 0x82_F63B, 0x82F6, 0x82);
    LowBits(0x82F6_3B78);
    LowBits(0x82_F63B);
    LowBits(0x82F6);
    LowBits(0x82);
  }

  lemma OnesBytes()
    ensures (0xFFFF_FFFF as bv32) >> 8 == 0xFF_FFFF && (0xFF_FFFF as bv32) >> 8 == 0xFFFF
        && (0xFFFF as bv32) >> 8 == 0xFF
  {
  }

  function Ones(): Word { seq(32, i => true) }

  lemma OnesBits()
    ensures BitsOf(0xFFFF_FFFF) == Ones()
  {
    OnesBytes();
    FourParts(0xFFFF_FFFF, 0xFF_FFFF, 0xFFFF, 0xFF);
    LowBits(0xFFFF_FFFF);
    LowBits(0xFF_FFFF);
    LowBits(0xFFFF);
    LowBits(0xFF);
  }

  lemma NotIsXor(a: bv32)
    ensures !a == a ^ 0xFFFF_FFFF
  {
  }

  lemma NotWord(a: bv32)
    ensures BitsOf(!a) == Not(BitsOf(a))
  {
    NotIsXor(a);
    XorWords(a, 0xFFFF_FFFF);
    OnesBits();
  }

  lemma NoBits(s: bv32, i: nat)
    requires s == 0
    ensures !BitAt(s, i)
  {
    BitDown(s, 0, i);
    DownZero(i);
    HalfZero();
  }

  lemma ByteOnly(x: bv32)
    ensures x & 0xFF == 0 ==>
        !Odd(x) && !Odd(x >> 1) && !Odd(x >> 2) && !Odd(x >> 3) && !Odd(x >> 4) && !Odd(x >> 5) && !Odd(x >> 6)
        && !Odd(x >> 7)
    ensures (x & 0xFFFF_FF00) & 0xFF == 0 && (x & 0xFF) >> 8 == 0 && x == (x & 0xFF) ^ (x & 0xFFFF_FF00)
  {
  }

  /** What fits a byte has no bits above it. */
  lemma SmallWord(x: bv32)
    requires x >> 8 == 0
    ensures BitsOf(x) == BitsOf(x)[..8] + Zeros(24)
  {
    ShiftByte(x);
    var high := x >> 8;
    forall i | 0 <= i < 32 ensures !BitAt(high, i) { NoBits(high, i); }
    forall i | 8 <= i < 32 ensures !BitsOf(x)[i] { assert BitsOf(x)[i] == BitsOf(high)[i - 8]; }
  }

  lemma LowByte(x: bv32)
    ensures BitsOf(x & 0xFF) == BitsOf(x)[..8] + Zeros(24)
  {
    ByteOnly(x);
    ByteOnly(x & 0xFFFF_FF00);
    SmallWord(x & 0xFF);
    XorWords(x & 0xFF, x & 0xFFFF_FF00);
    LowBits(x & 0xFFFF_FF00);
    var high := BitsOf(x & 0xFFFF_FF00);
    forall i | 0 <= i < 8 ensures !high[i] { assert !high[..8][i]; }
  }

  lemma ByteFits(b: byte)
    ensures (b as bv32) >> 8 == 0
  {
  }

  lemma ByteWord(b: byte)
    ensures BitsOf(b as bv32) == ByteBits(b) + Zeros(24)
  {
    ByteFits(b);
    SmallWord(b as bv32);
  }

  // ---- from bits back to a machine word -------------------------------------------------

  function Join(rest: bv32, low: bool): bv32 { if low then (rest << 1) | 1 else rest << 1 }

  /** The word with these low bits. */
  function FromBits(bits: seq<bool>): bv32
    decreases |bits|
  {
    if bits == [] then 0 else Join(FromBits(bits[1..]), bits[0])
  }

  lemma JoinOnce(rest: bv32, low: bool)
    requires rest & 0x8000_0000 == 0
    ensures Half(Join(rest, low)) == rest && Odd(Join(rest, low)) == low
  {
  }

  lemma TopBit(s: bv32)
    ensures Odd((((s >> 8) >> 8) >> 8) >> 7) == (s & 0x8000_0000 != 0)
  {
  }

  /** What is used up before bit 31 has its top bit clear. */
  lemma TopClear(s: bv32, n: nat)
    requires n <= 31 && Down(s, n) == 0
    ensures s & 0x8000_0000 == 0
  {
    var a, b, c := Down(s, 8), Down(s, 16), Down(s, 24);
    DownByte(s, 8); DownAdd(s, 8, 8);
    DownByte(a, 8); DownAdd(s, 16, 8);
    DownByte(b, 8); DownAdd(s, 24, 7);
    DownByte(c, 8); TopBit(s);
    DownAdd(s, n, 31 - n);
    DownZero(31 - n);
    HalfZero();
  }

  lemma {:induction false} FromBitsFacts(bits: seq<bool>, s: bv32)
    requires |bits| <= 32 && s == FromBits(bits)
    ensures Down(s, |bits|) == 0
    ensures forall i :: 0 <= i < |bits| ==> BitAt(s, i) == bits[i]
    decreases |bits|
  {
    if bits != [] {
      var rest := FromBits(bits[1..]);
      FromBitsFacts(bits[1..], rest);
      TopClear(rest, |bits| - 1);
      JoinOnce(rest, bits[0]);
      DownAdd(s, 1, |bits| - 1);
      forall i | 0 <= i < |bits| ensures BitAt(s, i) == bits[i] {
        if i > 0 { assert BitAt(rest, i - 1) == bits[1..][i - 1]; }
      }
    }
  }

  lemma WordBits(w: Word)
    ensures BitsOf(FromBits(w)) == w
  {
    FromBitsFacts(w, FromBits(w));
  }
}
