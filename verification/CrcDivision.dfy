/**
 * What CRC-32C means: the complemented remainder of polynomial long division (section 12.1 of RFC 3720), and why
 * damage confined to four consecutive bytes never goes unnoticed.
 */
module CrcDivision {
  import opened Machine
  import opened Bits
  import opened Crc32c
  import opened Frames
  import Receiver

  // ---- polynomials over GF(2), highest power first ------------------------------------

  /** The powers of x in the generator 0x11EDC6F41. */
  predicate InGenerator(e: int) {
    || e == 32
    || 25 <= e <= 28 || e == 23 || e == 22
    || 18 <= e <= 20 || e == 14 || e == 13
    || 8 <= e <= 11 || e == 6 || e == 0
  }

  function Generator(): (g: seq<bool>)
    ensures |g| == 33
  {
    seq(33, i => InGenerator(32 - i))
  }

  lemma GeneratorIsPoly()
    ensures Generator() == [true] + POLY
  {
  }

  /** Subtract the generator from the leading coefficients, or not; the leading coefficient is then gone. */
  function Reduce(d: seq<bool>): (r: seq<bool>)
    requires |d| > 32
    ensures |r| == |d| - 1
  {
    if d[0] then Xor(d[..33], Generator())[1..] + d[33..] else d[1..]
  }

  /** Long division by the generator: what is left of the dividend. */
  function Remainder(d: seq<bool>): Word
    requires |d| >= 32
    decreases |d|
  {
    if |d| == 32 then d else Remainder(Reduce(d))
  }

  /** Long division by the generator: the quotient. */
  function Quotient(d: seq<bool>): (q: seq<bool>)
    requires |d| >= 32
    ensures |q| == |d| - 32
    decreases |d|
  {
    if |d| == 32 then [] else [d[0]] + Quotient(Reduce(d))
  }

  /** The product of q and the generator. */
  function TimesGenerator(q: seq<bool>): (p: seq<bool>)
    ensures |p| == |q| + 32
    decreases |q|
  {
    if q == [] then Zeros(32)
    else Xor((if q[0] then Generator() else Zeros(33)) + Zeros(|q| - 1), [false] + TimesGenerator(q[1..]))
  }

  lemma OneReduction(d: seq<bool>)
    requires |d| > 32
    ensures d == Xor((if d[0] then Generator() else Zeros(33)) + Zeros(|d| - 33), [false] + Reduce(d))
  {
    GeneratorIsPoly();
  }

  lemma TimesCons(lead: bool, q: seq<bool>)
    ensures TimesGenerator([lead] + q) == Xor((if lead then Generator() else Zeros(33)) + Zeros(|q|),
        [false] + TimesGenerator(q))
  {
    assert ([lead] + q)[1..] == q;
  }

  lemma XorGroups(lead: seq<bool>, rest: seq<bool>, p: seq<bool>, r: seq<bool>)
    requires |lead| == |rest| + 1 && |p| == |r| == |rest| && rest == Xor(p, r)
    ensures Xor(lead, [false] + rest) == Xor(Xor(lead, [false] + p), [false] + r)
  {
  }

  lemma MoreZeros(n: nat, r: seq<bool>)
    ensures [false] + (Zeros(n) + r) == Zeros(n + 1) + r
  {
  }

  lemma DivideOnce(d: seq<bool>, rest: seq<bool>)
    requires |d| > 32 && rest == Reduce(d)
    ensures Quotient(d) == [d[0]] + Quotient(rest) && Remainder(d) == Remainder(rest)
  {
  }

  /** Long division divides: dividend = quotient * generator + remainder. */
  lemma {:induction false} DivisionIsExact(d: seq<bool>)
    requires |d| >= 32
    ensures d == Xor(TimesGenerator(Quotient(d)), Zeros(|d| - 32) + Remainder(d))
    decreases |d|
  {
    if |d| == 32 {
      assert Zeros(0) + d == d;
    } else {
      var rest := Reduce(d);
      DivisionIsExact(rest);
      DivisionGrows(d, rest, Quotient(rest), Remainder(rest));
      DivideOnce(d, rest);
    }
  }

  lemma DivisionGrows(d: seq<bool>, rest: seq<bool>, q: seq<bool>, r: Word)
    requires |d| > 32 && rest == Reduce(d) && |q| == |d| - 33
    requires rest == Xor(TimesGenerator(q), Zeros(|rest| - 32) + r)
    ensures d == Xor(TimesGenerator([d[0]] + q), Zeros(|d| - 32) + r)
  {
    OneReduction(d);
    TimesCons(d[0], q);
    var lead := (if d[0] then Generator() else Zeros(33)) + Zeros(|q|);
    XorGroups(lead, rest, TimesGenerator(q), Zeros(|rest| - 32) + r);
    MoreZeros(|rest| - 32, r);
  }

  /** One division step on the dividend is one step of the register. */
  lemma ReduceIsStep(w: Word, m: seq<bool>, d: seq<bool>)
    requires m != [] && d == Xor(w + Zeros(|m|), m + Zeros(32))
    ensures Reduce(d) == Xor(StepBits(Inject(w, m[0])) + Zeros(|m| - 1), m[1..] + Zeros(32))
  {
    GeneratorIsPoly();
    var s := StepBits(Inject(w, m[0]));
    var r := Reduce(d);
    assert d[0] == Inject(w, m[0])[0];
    forall i | 0 <= i < |r| ensures r[i] == ((s + Zeros(|m| - 1))[i] != (m[1..] + Zeros(32))[i]) {
      assert (m + Zeros(32))[i + 1] == (m[1..] + Zeros(32))[i];
      assert r[i] == (d[i + 1] != (i < 32 && d[0] && POLY[i]));
    }
  }

  /** The register is long division: it holds the remainder of itself laid over the message and 32 zeros. */
  lemma {:induction false} RunDivides(w: Word, m: seq<bool>)
    ensures Run(w, m) == Remainder(Xor(w + Zeros(|m|), m + Zeros(32)))
    decreases |m|
  {
    var d := Xor(w + Zeros(|m|), m + Zeros(32));
    if m == [] {
      assert d == w;
    } else {
      ReduceIsStep(w, m, d);
      RunDivides(StepBits(Inject(w, m[0])), m[1..]);
    }
  }

  /** The dividend of the standard: the data bits, then 32 zeros, with the first 32 bits complemented. */
  function Dividend(data: seq<byte>): (d: seq<bool>)
    ensures |d| == 8 * |data| + 32
  {
    Xor(Ones() + Zeros(8 * |data|), DataBits(data) + Zeros(32))
  }

  /** CRC-32C is the complemented remainder, lowest register bit = highest coefficient. */
  lemma ChecksumDivides(data: seq<byte>)
    ensures BitsOf(Checksum(data)) == Not(Remainder(Dividend(data)))
  {
    WordBits(AppendWord(BitsOf(0), data));
    forall i | 0 <= i < 32 ensures !BitsOf(0)[i] { NoBits(0, i); }
    assert Not(BitsOf(0)) == Ones();
    RunDivides(Ones(), DataBits(data));
  }

  // ---- short bursts ---------------------------------------------------------------------

  lemma StepInjective(a: Word, b: Word)
    requires StepBits(a) == StepBits(b)
    ensures a == b
  {
    var x, y := StepBits(a), StepBits(b);
    assert x[31] == a[0] && y[31] == b[0];
    forall i | 0 < i < 32 ensures a[i] == b[i] {
      assert x[i - 1] == (a[i] != (a[0] && POLY[i - 1]));
      assert y[i - 1] == (b[i] != (b[0] && POLY[i - 1]));
    }
  }

  lemma {:induction false} RunInjective(a: Word, b: Word, bits: seq<bool>)
    requires Run(a, bits) == Run(b, bits)
    ensures a == b
    decreases |bits|
  {
    if bits != [] {
      var x, y := Inject(a, bits[0]), Inject(b, bits[0]);
      RunInjective(StepBits(x), StepBits(y), bits[1..]);
      StepInjective(x, y);
      forall i | 0 <= i < 32 ensures a[i] == b[i] { assert x[i] == y[i]; }
    }
  }

  /** From one register, different messages of the same length up to 32 bits lead to different registers. */
  lemma ShortMessagesDiffer(w: Word, m: seq<bool>, n: seq<bool>)
    requires |m| == |n| <= 32 && Run(w, m) == Run(w, n)
    ensures m == n
  {
    Overlay(w, m);
    Overlay(w, n);
    var pad := Zeros(32 - |m|);
    var x, y := Xor(w, m + pad), Xor(w, n + pad);
    RunInjective(x, y, Zeros(|m|));
    forall i | 0 <= i < |m| ensures m[i] == n[i] {
      assert x[i] == (w[i] != m[i]) && y[i] == (w[i] != n[i]);
    }
  }

  lemma ByteFromWord(a: byte, b: byte)
    ensures a as bv32 == b as bv32 ==> a == b
  {
  }

  lemma {:induction false} DataFromBits(a: seq<byte>, b: seq<byte>)
    requires |a| == |b| && DataBits(a) == DataBits(b)
    ensures a == b
    decreases |a|
  {
    if a != [] {
      var p, q := DataBits(a), DataBits(b);
      assert p[..8] == ByteBits(a[0]) && q[..8] == ByteBits(b[0]);
      assert p[8..] == DataBits(a[1..]) && q[8..] == DataBits(b[1..]);
      ByteWord(a[0]);
      ByteWord(b[0]);
      var x, y := a[0] as bv32, b[0] as bv32;
      WordFromBits(x, y);
      ByteFromWord(a[0], b[0]);
      DataFromBits(a[1..], b[1..]);
    }
  }

  /** Same length, and different only within at most four consecutive bytes. */
  ghost predicate ShortBurst(p: seq<byte>, q: seq<byte>) {
    |p| == |q| && p != q &&
    exists i, k :: 0 <= i <= k <= |p| && k - i <= 4 && p[..i] == q[..i] && p[k..] == q[k..]
  }

  lemma InThree(w: Word, head: seq<byte>, mid: seq<byte>, tail: seq<byte>)
    ensures Run(w, DataBits(head + mid + tail)) == Run(Run(Run(w, DataBits(head)), DataBits(mid)), DataBits(tail))
  {
    DataBitsConcat(head + mid, tail);
    DataBitsConcat(head, mid);
    RunConcat(w, DataBits(head + mid), DataBits(tail));
    RunConcat(w, DataBits(head), DataBits(mid));
  }

  lemma BurstSeen(w: Word, head: seq<byte>, m: seq<byte>, n: seq<byte>, tail: seq<byte>)
    requires |m| == |n| <= 4
    requires Run(w, DataBits(head + m + tail)) == Run(w, DataBits(head + n + tail))
    ensures m == n
  {
    InThree(w, head, m, tail);
    InThree(w, head, n, tail);
    var v := Run(w, DataBits(head));
    RunInjective(Run(v, DataBits(m)), Run(v, DataBits(n)), DataBits(tail));
    ShortMessagesDiffer(v, DataBits(m), DataBits(n));
    DataFromBits(m, n);
  }

  lemma NotInjective(x: Word, y: Word)
    requires Not(x) == Not(y)
    ensures x == y
  {
    forall i | 0 <= i < 32 ensures x[i] == y[i] { assert Not(x)[i] == Not(y)[i]; }
  }

  lemma SameChecksum(p: seq<byte>, q: seq<byte>, zero: Word)
    requires Checksum(p) == Checksum(q) && zero == BitsOf(0)
    ensures Run(Not(zero), DataBits(p)) == Run(Not(zero), DataBits(q))
  {
    WordBits(AppendWord(zero, p));
    WordBits(AppendWord(zero, q));
    NotInjective(Run(Not(zero), DataBits(p)), Run(Not(zero), DataBits(q)));
  }

  lemma BurstParts(p: seq<byte>, q: seq<byte>) returns (head: seq<byte>, m: seq<byte>, n: seq<byte>, tail: seq<byte>)
    requires ShortBurst(p, q)
    ensures p == head + m + tail && q == head + n + tail
    ensures |m| == |n| <= 4 && m != n
  {
    var i, k :| 0 <= i <= k <= |p| && k - i <= 4 && p[..i] == q[..i] && p[k..] == q[k..];
    head, m, n, tail := p[..i], p[i..k], q[i..k], p[k..];
  }

  /** Payloads that differ only within four consecutive bytes always have different checksums. */
  lemma BurstDetected(p: seq<byte>, q: seq<byte>)
    requires ShortBurst(p, q)
    ensures Checksum(p) != Checksum(q)
  {
    if Checksum(p) == Checksum(q) {
      var head, m, n, tail := BurstParts(p, q);
      var zero := BitsOf(0);
      SameChecksum(p, q, zero);
      BurstSeen(Not(zero), head, m, n, tail);
      assert false;
    }
  }

  /** A chunk damaged by a short burst on the way is refused, and leaves the receiver as it was. */
  lemma DamageRefused(r: Receiver.State, sent: AudioChunk, arrived: AudioChunk)
    requires Receiver.Intact(sent) && arrived == sent.(payload := arrived.payload)
    requires ShortBurst(sent.payload, arrived.payload)
    ensures Receiver.Ingest(r, arrived) == (r, Receiver.CorruptPayload(sent.crc32c, Checksum(arrived.payload)))
  {
    BurstDetected(sent.payload, arrived.payload);
  }
}
