/** CRC-32C: the table-driven loop computes the bit-serial division register, over any split of the data. */
module Crc32c {
  import opened Machine
  import opened Bits

  /** The reflected Castagnoli polynomial. */
  const POLY_REFLECTED: bv32 := 0x82F6_3B78

  /** One bit of the division register. */
  function Step(s: bv32): bv32 {
    if Odd(s) then Half(s) ^ POLY_REFLECTED else Half(s)
  }

  /** The bit-serial register around a message, which starts and ends complemented. */
  function AppendWord(crc: Word, data: seq<byte>): Word { Not(Run(Not(crc), DataBits(data))) }

  /** CRC-32C of `data`, continuing from an earlier value (0 to start). */
  function Append(crc: bv32, data: seq<byte>): bv32 { FromBits(AppendWord(BitsOf(crc), data)) }

  function Checksum(data: seq<byte>): bv32 { Append(0, data) }

  // ---- the register, bit by bit ----------------------------------------------------

  lemma StepWord(s: bv32)
    ensures BitsOf(Step(s)) == StepBits(BitsOf(s))
  {
    ShiftWord(s);
    XorWords(Half(s), POLY_REFLECTED);
    PolyBits();
  }

  lemma {:induction false} RunConcat(w: Word, a: seq<bool>, b: seq<bool>)
    ensures Run(w, a + b) == Run(Run(w, a), b)
    decreases |a|
  {
    if a == [] {
      assert a + b == b;
    } else {
      assert (a + b)[1..] == a[1..] + b;
      RunConcat(StepBits(Inject(w, a[0])), a[1..], b);
    }
  }

  lemma RunOne(w: Word, bit: bool)
    ensures Run(w, [bit]) == StepBits(Inject(w, bit))
  {
    assert [bit][1..] == [];
  }

  lemma {:induction false} DataBitsConcat(a: seq<byte>, b: seq<byte>)
    ensures DataBits(a + b) == DataBits(a) + DataBits(b)
    decreases |a|
  {
    if a == [] {
      assert a + b == b;
    } else {
      assert (a + b)[1..] == a[1..] + b;
      DataBitsConcat(a[1..], b);
    }
  }

  lemma AppendWordSplits(crc: Word, a: seq<byte>, b: seq<byte>)
    ensures AppendWord(AppendWord(crc, a), b) == AppendWord(crc, a + b)
  {
    DataBitsConcat(a, b);
    RunConcat(Not(crc), DataBits(a), DataBits(b));
    var first := Run(Not(crc), DataBits(a));
    assert Not(Not(first)) == first;
  }

  /** Whatever the split, continuing from the first part's value gives the value of the whole. */
  lemma AppendSplits(crc: bv32, a: seq<byte>, b: seq<byte>)
    ensures Append(Append(crc, a), b) == Append(crc, a + b)
  {
    WordBits(AppendWord(BitsOf(crc), a));
    AppendWordSplits(BitsOf(crc), a, b);
  }

  // ---- the register is linear --------------------------------------------------------

  lemma StepLinear(x: Word, a: Word, b: Word)
    requires x == Xor(a, b)
    ensures StepBits(x) == Xor(StepBits(a), StepBits(b))
  {
  }

  lemma {:induction false} ZeroRunLinear(x: Word, a: Word, b: Word, n: nat)
    requires x == Xor(a, b)
    ensures Run(x, Zeros(n)) == Xor(Run(a, Zeros(n)), Run(b, Zeros(n)))
    decreases n
  {
    if n > 0 {
      StepLinear(x, a, b);
      ZeroRunStep(x, n);
      ZeroRunStep(a, n);
      ZeroRunStep(b, n);
      ZeroRunLinear(StepBits(x), StepBits(a), StepBits(b), n - 1);
    }
  }

  lemma ZeroRunStep(w: Word, n: nat)
    requires n > 0
    ensures Run(w, Zeros(n)) == Run(StepBits(w), Zeros(n - 1))
  {
    assert Zeros(n)[1..] == Zeros(n - 1);
    assert Inject(w, false) == w;
  }

  /** Zero bits only shift out zeros. */
  lemma {:induction false} ZeroRunShifts(w: Word, n: nat)
    requires n <= 32 && forall i :: 0 <= i < n ==> !w[i]
    ensures Run(w, Zeros(n)) == w[n..] + Zeros(n)
    decreases n
  {
    if n > 0 {
      ZeroRunStep(w, n);
      var next := w[1..] + [false];
      assert StepBits(w) == next;
      ZeroRunShifts(next, n - 1);
      assert next[n - 1..] + Zeros(n - 1) == w[n..] + Zeros(n);
    } else {
      assert w[0..] + Zeros(0) == w;
    }
  }

  /** A step of the register, and of what is laid over it. */
  lemma OverlayWord(w: Word, over: Word)
    ensures StepBits(Xor(w, over)) == Xor(StepBits(Inject(w, over[0])), over[1..] + [false])
  {
    var x, injected := Xor(w, over), Inject(w, over[0]);
    assert injected[1..] == w[1..];
    assert x[1..] + [false] == Xor(w[1..] + [false], over[1..] + [false]);
  }

  lemma OverlayStep(w: Word, bits: seq<bool>)
    requires 0 < |bits| <= 32
    ensures StepBits(Xor(w, bits + Zeros(32 - |bits|)))
        == Xor(StepBits(Inject(w, bits[0])), bits[1..] + Zeros(33 - |bits|))
  {
    var over := bits + Zeros(32 - |bits|);
    OverlayWord(w, over);
    assert over[1..] + [false] == bits[1..] + Zeros(33 - |bits|);
  }

  /** Up to 32 message bits can be laid over the register at once. */
  lemma {:induction false} Overlay(w: Word, bits: seq<bool>)
    requires |bits| <= 32
    ensures Run(w, bits) == Run(Xor(w, bits + Zeros(32 - |bits|)), Zeros(|bits|))
    decreases |bits|
  {
    var n := |bits|;
    if n > 0 {
      Overlay(StepBits(Inject(w, bits[0])), bits[1..]);
      OverlayStep(w, bits);
      ZeroRunStep(Xor(w, bits + Zeros(32 - n)), n);
    } else {
      assert Xor(w, bits + Zeros(32)) == w;
    }
  }

  // ---- the table-driven loop -------------------------------------------------------

  /** Entry b is what eight zero bits make of b. */
  ghost predicate IsEntry(entry: bv32, b: byte) {
    BitsOf(entry) == Run(BitsOf(b as bv32), Zeros(8))
  }

  ghost predicate IsTable(entries: seq<bv32>) {
    |entries| == 256 && forall k :: 0 <= k < 256 ==> IsEntry(entries[k], k as byte)
  }

  /** Eight zero bits, one at a time, as the table builder runs them. */
  method EightZeros(start: bv32) returns (crc: bv32)
    ensures BitsOf(crc) == Run(BitsOf(start), Zeros(8))
  {
    crc := start;
    var bit := 0;
    while bit < 8
      invariant 0 <= bit <= 8
      invariant BitsOf(crc) == Run(BitsOf(start), Zeros(bit))
    {
      StepWord(crc);
      AnotherZero(BitsOf(start), bit);
      crc := Step(crc);
      bit := bit + 1;
    }
  }

  lemma AnotherZero(w: Word, n: nat)
    ensures Run(w, Zeros(n + 1)) == StepBits(Run(w, Zeros(n)))
  {
    assert Zeros(n + 1) == Zeros(n) + [false];
    RunConcat(w, Zeros(n), [false]);
    RunOne(Run(w, Zeros(n)), false);
    assert Inject(Run(w, Zeros(n)), false) == Run(w, Zeros(n));
  }

  method TableEntry(b: byte) returns (entry: bv32)
    ensures IsEntry(entry, b)
  {
    var word := b as bv32;
    entry := EightZeros(word);
  }

  method BuildTable() returns (table: array<bv32>)
    ensures fresh(table) && IsTable(table[..])
  {
    hide IsEntry;
    table := new bv32[256];
    var i := 0;
    while i < 256
      invariant 0 <= i <= 256
      invariant forall k :: 0 <= k < i ==> IsEntry(table[k], k as byte)
    {
      table[i] := TableEntry(i as byte);
      i := i + 1;
    }
  }

  /** Eight bits at once, over words: look up the low byte, shift the rest down. */
  lemma Meets(w: Word, bits: seq<bool>, index: Word)
    requires |bits| == 8
    requires index == Xor(w[..8], bits) + Zeros(24)
    ensures Run(w, bits) == Xor(w[8..] + Zeros(8), Run(index, Zeros(8)))
  {
    Overlay(w, bits);
    var whole := Xor(w, bits + Zeros(24));
    var high := Zeros(8) + w[8..];
    assert whole == Xor(index, high);
    ZeroRunLinear(whole, index, high, 8);
    ZeroRunShifts(high, 8);
    assert high[8..] == w[8..];
    XorSwap(Run(index, Zeros(8)), w[8..] + Zeros(8));
  }

  lemma XorSwap(a: Word, b: Word)
    ensures Xor(a, b) == Xor(b, a)
  {
  }

  lemma ByteIndex(x: bv32, index: byte)
    requires index == (x & 0xFF) as byte
    ensures index as bv32 == x & 0xFF
  {
  }

  lemma IndexBits(s: bv32, b: byte, x: bv32, index: byte)
    requires x == s ^ (b as bv32) && index == (x & 0xFF) as byte
    ensures BitsOf(index as bv32) == Xor(BitsOf(s)[..8], ByteBits(b)) + Zeros(24)
  {
    ByteIndex(x, index);
    LowByte(x);
    XorWords(s, b as bv32);
    ByteWord(b);
    assert BitsOf(x)[..8] == Xor(BitsOf(s)[..8], ByteBits(b));
  }

  /** One byte at once, over words: the entry of the index, laid over the register shifted down a byte. */
  lemma TableStep(w: Word, bits: seq<bool>, index: Word, entry: Word, next: Word)
    requires |bits| == 8 && index == Xor(w[..8], bits) + Zeros(24)
    requires entry == Run(index, Zeros(8)) && next == Xor(w[8..] + Zeros(8), entry)
    ensures next == Run(w, bits)
  {
    Meets(w, bits, index);
  }

  lemma NextBits(s: bv32, shifted: bv32, entry: bv32, next: bv32)
    requires shifted == s >> 8 && next == shifted ^ entry
    ensures BitsOf(next) == Xor(BitsOf(s)[8..] + Zeros(8), BitsOf(entry))
  {
    ShiftByte(s);
    XorWords(shifted, entry);
  }

  lemma AnotherByte(w: Word, data: seq<byte>, i: nat)
    requires i < |data|
    ensures Run(w, DataBits(data[..i + 1])) == Run(Run(w, DataBits(data[..i])), ByteBits(data[i]))
  {
    assert data[..i + 1] == data[..i] + [data[i]];
    DataBitsConcat(data[..i], [data[i]]);
    assert [data[i]][1..] == [];
    assert ByteBits(data[i]) + [] == ByteBits(data[i]);
    RunConcat(w, DataBits(data[..i]), ByteBits(data[i]));
  }

  method ComputeAppend(table: array<bv32>, crc: bv32, data: seq<byte>) returns (out: bv32)
    requires IsTable(table[..])
    ensures out == Append(crc, data)
  {
    var state := !crc;
    NotWord(crc);
    ghost var start := Not(BitsOf(crc));
    for i := 0 to |data|
      invariant BitsOf(state) == Run(start, DataBits(data[..i]))
    {
      var b := data[i];
      var x := state ^ (b as bv32);
      var index := (x & 0xFF) as byte;
      var entry := table[index as int];
      var shifted := state >> 8;
      var next := shifted ^ entry;
      IndexBits(state, b, x, index);
      assert IsEntry(table[..][index as int], (index as int) as byte);
      NextBits(state, shifted, entry, next);
      TableStep(BitsOf(state), ByteBits(b), BitsOf(index as bv32), BitsOf(entry), BitsOf(next));
      AnotherByte(start, data, i);
      state := next;
    }
    assert data[..|data|] == data;
    out := !state;
    NotWord(state);
    ghost var value := Append(crc, data);
    WordBits(AppendWord(BitsOf(crc), data));
    WordFromBits(out, value);
  }

  method Compute(data: seq<byte>) returns (crc: bv32)
    ensures crc == Checksum(data)
  {
    var table := BuildTable();
    crc := ComputeAppend(table, 0, data);
  }
}
