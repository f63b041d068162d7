/** Little-endian integers as bytes, both ways. */
module LittleEndian {
  import opened Machine

  function Pow256(n: nat): (p: nat)
    ensures p > 0
    decreases n
  {
    if n == 0 then 1 else 256 * Pow256(n - 1)
  }

  /** x written over a slot, lowest byte first; what does not fit is cut off. */
  function Put(slot: seq<byte>, x: nat): (b: seq<byte>)
    ensures |b| == |slot|
    decreases |slot|
  {
    if slot == [] then [] else [(x % 256) as byte] + Put(slot[1..], x / 256)
  }

  function Slot(n: nat): (b: seq<byte>)
    ensures |b| == n
  {
    seq(n, i => 0 as byte)
  }

  /** The n low bytes of x, lowest first. */
  function Le(n: nat, x: nat): (b: seq<byte>)
    ensures |b| == n
  {
    Put(Slot(n), x)
  }

  function FromLe(b: seq<byte>): (x: nat)
    decreases |b|
  {
    if b == [] then 0 else b[0] as int + 256 * FromLe(b[1..])
  }

  lemma {:induction false} FromLeBound(b: seq<byte>)
    ensures FromLe(b) < Pow256(|b|)
    decreases |b|
  {
    if b != [] {
      FromLeBound(b[1..]);
      assert Pow256(|b|) == 256 * Pow256(|b| - 1);
    }
  }

  lemma {:induction false} Reads(slot: seq<byte>, x: nat)
    requires x < Pow256(|slot|)
    ensures FromLe(Put(slot, x)) == x
    decreases |slot|
  {
    if slot != [] {
      assert x / 256 < Pow256(|slot| - 1);
      Reads(slot[1..], x / 256);
      assert Put(slot, x)[1..] == Put(slot[1..], x / 256);
      ByteBack(x % 256);
    }
  }

  lemma ByteBack(x: int)
    requires 0 <= x < 256
    ensures (x as byte) as int == x
  {
    if x < 16 {
    } else if x < 128 {
    } else {
    }
  }

  lemma BackByte(b: byte)
    ensures (b as int) as byte == b
  {
  }

  lemma {:induction false} Writes(slot: seq<byte>, b: seq<byte>)
    requires |slot| == |b|
    ensures Put(slot, FromLe(b)) == b
    decreases |b|
  {
    if b != [] {
      hide Put;
      Writes(slot[1..], b[1..]);
      BackByte(b[0]);
      LowAndHigh(b[0] as int, FromLe(b[1..]));
      PutCons(slot, FromLe(b), b[0] as int, FromLe(b[1..]));
      assert b == [b[0]] + b[1..];
    }
  }

  lemma PutCons(slot: seq<byte>, x: nat, low: nat, high: nat)
    requires slot != [] && low == x % 256 && high == x / 256
    ensures Put(slot, x) == [low as byte] + Put(slot[1..], high)
  {
  }

  lemma LowAndHigh(low: nat, high: nat)
    requires low < 256
    ensures (low + 256 * high) % 256 == low && (low + 256 * high) / 256 == high
  {
  }

  lemma Widths()
    ensures Pow256(2) == 0x1_0000 && Pow256(4) == 0x1_0000_0000 && Pow256(8) == 0x1_0000_0000_0000_0000
  {
  }

  function U16Of(b: seq<byte>): (x: u16)
    requires |b| == 2
  {
    Widths();
    FromLeBound(b);
    FromLe(b)
  }

  function U32Of(b: seq<byte>): (x: u32)
    requires |b| == 4
  {
    Widths();
    FromLeBound(b);
    FromLe(b)
  }

  function U64Of(b: seq<byte>): (x: u64)
    requires |b| == 8
  {
    Widths();
    FromLeBound(b);
    FromLe(b)
  }

  lemma Reads16(x: u16)
    ensures U16Of(Le(2, x)) == x
  {
    Widths();
    Reads(Slot(2), x);
  }

  lemma Reads32(x: u32)
    ensures U32Of(Le(4, x)) == x
  {
    Widths();
    Reads(Slot(4), x);
  }

  lemma Reads64(x: u64)
    ensures U64Of(Le(8, x)) == x
  {
    Widths();
    Reads(Slot(8), x);
  }

  lemma Rewrites(b: seq<byte>)
    ensures Le(|b|, FromLe(b)) == b
  {
    Writes(Slot(|b|), b);
  }

  // ---- checksums, kept as machine words ------------------------------------------------

  function WordBytes(x: bv32): (b: seq<byte>)
    ensures |b| == 4
  {
    [(x & 0xFF) as byte, ((x >> 8) & 0xFF) as byte, ((x >> 16) & 0xFF) as byte, ((x >> 24) & 0xFF) as byte]
  }

  function JoinBytes(a: byte, b: byte, c: byte, d: byte): bv32 {
    (a as bv32) | ((b as bv32) << 8) | ((c as bv32) << 16) | ((d as bv32) << 24)
  }

  function WordOf(b: seq<byte>): bv32
    requires |b| == 4
  {
    JoinBytes(b[0], b[1], b[2], b[3])
  }

  lemma WordReads(x: bv32)
    ensures WordOf(WordBytes(x)) == x
  {
  }

  lemma ByteWrites(a: byte, b: byte, c: byte, d: byte)
    ensures var x := JoinBytes(a, b, c, d);
            (x & 0xFF) as byte == a && ((x >> 8) & 0xFF) as byte == b && ((x >> 16) & 0xFF) as byte == c
                && ((x >> 24) & 0xFF) as byte == d
  {
  }

  lemma WordWrites(b: seq<byte>)
    requires |b| == 4
    ensures WordBytes(WordOf(b)) == b
  {
    ByteWrites(b[0], b[1], b[2], b[3]);
  }
}
