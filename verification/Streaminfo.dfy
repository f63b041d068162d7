/** The FLAC bootstrap bytes (section 8.2 of RFC 9639), its 36-bit total-samples field, and the sample quantizer. */
module Streaminfo {
  import opened Machine
  import opened LittleEndian
  import opened Encoder

  const HEADER_BYTES := 42
  const TOTAL_LIMIT := 0x10_0000_0000

  function ByteOf(x: nat): (b: byte)
    requires x < 256
  {
    x as byte
  }

  lemma ByteOfInt(x: nat)
    requires x < 256
    ensures ByteOf(x) as int == x
  {
    ByteBack(x);
  }

  function Zeros(n: nat): (z: seq<byte>)
    ensures |z| == n
  {
    seq(n, i => 0 as byte)
  }

  /** The four bytes that carry sample rate (20 bits), channels - 1 (3 bits), bit depth - 1 (5 bits). */
  function FormatBytes(cfg: Config): (b: seq<byte>)
    requires Validate(cfg).Ok?
    ensures |b| == 4
  {
    var rate, depth := cfg.sampleRate, cfg.bitsPerSample - 1;
    [ByteOf(rate / 4096), ByteOf(rate / 16 % 256), ByteOf(rate % 16 * 16 + depth / 16), ByteOf(depth % 16 * 16)]
  }

  /** `fLaC`, then one last-flagged STREAMINFO block: fixed block size, frame sizes, total and MD5 unknown. */
  function CodecHeader(cfg: Config): (b: seq<byte>)
    requires Validate(cfg).Ok?
    ensures |b| == HEADER_BYTES
  {
    [0x66, 0x4C, 0x61, 0x43, 0x80, 0x00, 0x00, 0x22, 0x10, 0x00, 0x10, 0x00] + Zeros(6) + FormatBytes(cfg) + Zeros(4)
        + Zeros(16)
  }

  /** Big-endian 32-bit. */
  function Be32(x: nat): (b: seq<byte>)
    requires x < 0x1_0000_0000
    ensures |b| == 4
  {
    [ByteOf(x / 0x100_0000), ByteOf(x / 0x1_0000 % 256), ByteOf(x / 0x100 % 256), ByteOf(x % 256)]
  }

  function FromBe32(b: seq<byte>): nat
    requires |b| == 4
  {
    b[0] as int * 0x100_0000 + b[1] as int * 0x1_0000 + b[2] as int * 0x100 + b[3] as int
  }

  /** The codec's finalizer; a count beyond 36 bits leaves "unknown". */
  function Finalized(h: seq<byte>, total: nat): (out: seq<byte>)
    requires |h| == HEADER_BYTES
    ensures |out| == HEADER_BYTES
  {
    if total >= TOTAL_LIMIT then h
    else h[..21] + [(h[21] & 0xF0) | (ByteOf(total / 0x1_0000_0000) & 0x0F)] + Be32(total % 0x1_0000_0000) + h[26..]
  }

  /** It writes into the header it is given. */
  method FinalizeTotalSamples(h: array<byte>, total: nat)
    requires h.Length == HEADER_BYTES
    modifies h
    ensures h[..] == Finalized(old(h[..]), total)
  {
    if total >= TOTAL_LIMIT { return; }
    ghost var was := h[..];
    h[21] := (h[21] & 0xF0) | (ByteOf(total / 0x1_0000_0000) & 0x0F);
    var low := Be32(total % 0x1_0000_0000);
    h[22], h[23], h[24], h[25] := low[0], low[1], low[2], low[3];
    SixParts(h[..]);
    assert h[..][22..26] == low;
    assert h[..][..21] == was[..21] && h[..][26..] == was[26..];
  }

  lemma SixParts(h: seq<byte>)
    requires |h| == HEADER_BYTES
    ensures h == h[..21] + [h[21]] + h[22..26] + h[26..]
  {
  }

  lemma LowNibble(b: byte)
    ensures b <= 15 ==> b & 0x0F == b
    ensures ((b & 0xF0) | 0) & 0x0F == 0
  {
  }

  lemma ByteOrder(a: byte, b: byte)
    ensures a <= b <==> a as int <= b as int
  {
  }

  lemma NibbleMask(x: nat)
    requires x < 16
    ensures ByteOf(x) & 0x0F == ByteOf(x)
  {
    ByteOfInt(x);
    ByteOrder(ByteOf(x), 15);
    LowNibble(ByteOf(x));
  }

  /** The server's copy-and-patch; unknown layouts and out-of-range counts are returned untouched. */
  method WithTotalSamples(header: seq<byte>, total: nat) returns (out: seq<byte>)
    ensures out == Patched(header, total)
  {
    if |header| != HEADER_BYTES || total >= TOTAL_LIMIT { return header; }
    out := header;
    var hi, lo := total / 0x1_0000_0000, total % 0x1_0000_0000;
    out := out[21 := (out[21] & 0xF0) | ByteOf(hi)];
    out := out[22 := ByteOf(lo / 0x100_0000 % 256)];
    out := out[23 := ByteOf(lo / 0x1_0000 % 256)];
    out := out[24 := ByteOf(lo / 0x100 % 256)];
    out := out[25 := ByteOf(lo % 256)];
    NibbleMask(hi);
    assert lo / 0x100_0000 % 256 == lo / 0x100_0000;
    assert out[22..26] == Be32(lo);
    SixParts(out);
  }

  /** What the server's patch does: the codec's own finalizer, on exactly the layouts it knows. */
  function Patched(header: seq<byte>, total: nat): seq<byte> {
    if |header| != HEADER_BYTES then header else Finalized(header, total)
  }

  // ---- what the fields say ------------------------------------------------------------------

  /** The 36-bit total-samples field: the low nibble of byte 21, then four bytes. */
  function TotalField(h: seq<byte>): nat
    requires |h| == HEADER_BYTES
  {
    (h[21] & 0x0F) as int * 0x1_0000_0000 + FromBe32(h[22..26])
  }

  lemma DigitSum(x: nat)
    ensures x == (x / 0x100_0000) * 0x100_0000 + (x / 0x1_0000 % 256) * 0x1_0000 + (x / 0x100 % 256) * 0x100 + x % 256
  {
    var y := x / 256;
    var z := y / 256;
    assert z == x / 0x1_0000 && z / 256 == x / 0x100_0000;
    assert x == 256 * y + x % 256 && y == 256 * z + y % 256 && z == 256 * (z / 256) + z % 256;
  }

  lemma FourInts(b: seq<byte>, p: nat, q: nat, r: nat, s: nat)
    requires |b| == 4 && b[0] as int == p && b[1] as int == q && b[2] as int == r && b[3] as int == s
    ensures FromBe32(b) == p * 0x100_0000 + q * 0x1_0000 + r * 0x100 + s
  {
  }

  lemma Be32Reads(x: nat)
    requires x < 0x1_0000_0000
    ensures FromBe32(Be32(x)) == x
  {
    var p, q, r, s := x / 0x100_0000, x / 0x1_0000 % 256, x / 0x100 % 256, x % 256;
    ByteOfInt(p);
    ByteOfInt(q);
    ByteOfInt(r);
    ByteOfInt(s);
    FourInts(Be32(x), p, q, r, s);
    DigitSum(x);
  }

  lemma Nibbles(b: byte, low: byte)
    ensures low & 0x0F == low ==> ((b & 0xF0) | (low & 0x0F)) & 0x0F == low
    ensures ((b & 0xF0) | (low & 0x0F)) & 0xF0 == b & 0xF0
  {
  }

  /** Finalizing writes the count, and nothing but the count. */
  lemma TotalWritten(h: seq<byte>, total: nat)
    requires |h| == HEADER_BYTES && total < TOTAL_LIMIT
    ensures var f := Finalized(h, total);
            && TotalField(f) == total
            && f[..21] == h[..21] && f[26..] == h[26..] && f[21] & 0xF0 == h[21] & 0xF0
  {
    var hi, f := total / 0x1_0000_0000, Finalized(h, total);
    NibbleMask(hi);
    Nibbles(h[21], ByteOf(hi));
    ByteOfInt(hi);
    Be32Reads(total % 0x1_0000_0000);
    assert f[22..26] == Be32(total % 0x1_0000_0000);
  }

  lemma FormatInts(cfg: Config, b: seq<byte>)
    requires Validate(cfg).Ok? && b == FormatBytes(cfg)
    ensures b[0] as int == cfg.sampleRate / 4096 && b[1] as int == cfg.sampleRate / 16 % 256
    ensures b[2] as int == cfg.sampleRate % 16 * 16 + (cfg.bitsPerSample - 1) / 16
    ensures b[3] as int == (cfg.bitsPerSample - 1) % 16 * 16
  {
    var rate, depth := cfg.sampleRate, cfg.bitsPerSample - 1;
    ByteOfInt(rate / 4096);
    ByteOfInt(rate / 16 % 256);
    ByteOfInt(rate % 16 * 16 + depth / 16);
    ByteOfInt(depth % 16 * 16);
  }

  lemma FormatPlace(cfg: Config, h: seq<byte>, b: seq<byte>)
    requires Validate(cfg).Ok? && h == CodecHeader(cfg) && b == FormatBytes(cfg)
    ensures h[18] == b[0] && h[19] == b[1] && h[20] == b[2] && h[21] == b[3]
  {
    assert h[18..22] == b;
    assert h[18] == h[18..22][0] && h[19] == h[18..22][1] && h[20] == h[18..22][2] && h[21] == h[18..22][3];
  }

  /** The streaming header says rate, one channel, and depth. */
  lemma HeaderFields(cfg: Config)
    requires Validate(cfg).Ok?
    ensures var h := CodecHeader(cfg);
            && h[18] as int * 4096 + h[19] as int * 16 + h[20] as int / 16 == cfg.sampleRate
            && h[20] as int / 2 % 8 == 0
            && h[20] as int % 2 * 16 + h[21] as int / 16 + 1 == cfg.bitsPerSample
  {
    hide CodecHeader, FormatBytes;
    var h, b := CodecHeader(cfg), FormatBytes(cfg);
    FormatInts(cfg, b);
    FormatPlace(cfg, h, b);
    FormatParses(cfg.sampleRate, cfg.bitsPerSample - 1, b[0] as int, b[1] as int, b[2] as int, b[3] as int);
  }

  lemma FormatParses(rate: nat, depth: nat, p: nat, q: nat, r: nat, s: nat)
    requires (depth == 15 || depth == 23) && rate < 0x10_0000
    requires p == rate / 4096 && q == rate / 16 % 256 && r == rate % 16 * 16 + depth / 16 && s == depth % 16 * 16
    ensures p * 4096 + q * 16 + r / 16 == rate && r / 2 % 8 == 0 && r % 2 * 16 + s / 16 == depth
  {
    var y := rate / 16;
    assert y / 256 == rate / 4096 && y == 256 * (y / 256) + y % 256 && rate == 16 * y + rate % 16;
  }

  // ---- Web Audio floats to integers -------------------------------------------------------------

  function Pow2(n: nat): (p: nat)
    ensures p > 0
  {
    if n == 0 then 1 else 2 * Pow2(n - 1)
  }

  /** Round to the nearest integer, halves away from zero. */
  function Round(x: real): int { if x >= 0.0 then (x + 0.5).Floor else -((-x + 0.5).Floor) }

  function Clamp(x: int, lo: int, hi: int): int { if x < lo then lo else if x > hi then hi else x }

  /** A float sample at the given bit depth. */
  function Quantize(x: real, bits: nat): int
    requires bits > 0
  {
    QuantizeTo(x, Pow2(bits - 1))
  }

  /** Scale, round, clamp to -top..top-1. */
  function QuantizeTo(x: real, top: int): int { Clamp(Round(x * top as real), -top, top - 1) }

  function QuantizeAll(xs: seq<real>, bits: nat): (q: seq<int>)
    requires bits > 0
    ensures |q| == |xs|
  {
    seq(|xs|, i requires 0 <= i < |xs| => Quantize(xs[i], bits))
  }

  lemma RoundFacts(x: real, n: int)
    ensures x == n as real ==> Round(x) == n
    ensures -0.5 <= x - Round(x) as real <= 0.5
    ensures Round(-x) == -Round(x)
  {
  }

  lemma ClampFacts(x: int, lo: int, hi: int)
    requires lo <= hi
    ensures lo <= Clamp(x, lo, hi) <= hi && (lo <= x <= hi ==> Clamp(x, lo, hi) == x)
  {
  }

  lemma OneScale(n: int, top: int)
    requires top > 0
    ensures n as real / top as real * top as real == n as real
  {
  }

  /** Quantizing stays in the range of the bit depth. */
  lemma QuantizeInRange(x: real, bits: nat)
    requires bits > 0
    ensures -(Pow2(bits - 1) as int) <= Quantize(x, bits) < Pow2(bits - 1)
  {
    var top: int := Pow2(bits - 1);
    ClampFacts(Round(x * top as real), -top, top - 1);
  }

  /** Every integer of the bit depth has a float that quantizes to it. */
  lemma QuantizeHits(n: int, bits: nat)
    requires bits > 0 && -(Pow2(bits - 1) as int) <= n < Pow2(bits - 1)
    ensures Quantize(n as real / Pow2(bits - 1) as real, bits) == n
  {
    var top: int := Pow2(bits - 1);
    OneScale(n, top);
    RoundFacts(n as real / top as real * top as real, n);
    ClampFacts(n, -top, top - 1);
  }

  function Distance(a: real, b: real): real { if a >= b then a - b else b - a }

  /** q is no farther from y than n is, and farther from zero if they are equally far. */
  ghost predicate Nearer(q: int, y: real, n: int) {
    && Distance(q as real, y) <= Distance(n as real, y)
    && (Distance(q as real, y) == Distance(n as real, y) && n != q ==> n * n < q * q)
  }

  lemma NearestTo(y: real, top: int, n: int)
    requires top > 0 && -top <= n < top
    ensures Nearer(Clamp(Round(y), -top, top - 1), y, n)
  {
    var r := Round(y);
    RoundFacts(y, r);
    if r < -top {
      assert y < -top as real;
    } else if r >= top {
      assert y >= top as real - 0.5;
    } else if n != r {
      assert Distance(n as real, y) >= 0.5;
      if Distance(n as real, y) == 0.5 { TieIsOutward(y, r, n); }
    }
  }

  lemma TieIsOutward(y: real, r: int, n: int)
    requires r == Round(y) && n != r && Distance(n as real, y) == 0.5 && Distance(r as real, y) <= 0.5
    ensures n * n < r * r
  {
    assert r == n + 1 || r == n - 1;
    if y >= 0.0 {
      assert r == n + 1 && n >= 0;
      assert r * r == n * n + 2 * n + 1;
    } else {
      assert r == n - 1 && n <= 0;
      assert r * r == n * n - 2 * n + 1;
    }
  }

  lemma ScaledNearest(x: real, top: int, n: int)
    requires top > 0 && -top <= n < top
    ensures Nearer(QuantizeTo(x, top), x * top as real, n)
  {
    hide Nearer, Clamp, Round;
    NearestTo(x * top as real, top, n);
  }

  /** A quantized sample is the integer of the depth nearest to the scaled float; of two, the one farther from zero. */
  lemma QuantizeNearest(x: real, bits: nat, top: int, n: int)
    requires bits > 0 && top == Pow2(bits - 1) && -top <= n < top
    ensures Nearer(Quantize(x, bits), x * top as real, n)
    ensures (bits == 16 ==> top == 32_768) && (bits == 24 ==> top == 8_388_608)
  {
    hide Nearer, QuantizeTo;
    ScaledNearest(x, top, n);
    Depths();
  }

  lemma Depths()
    ensures Pow2(15) == 32_768 && Pow2(23) == 8_388_608
  {
    assert Pow2(4) == 16;
    assert Pow2(8) == 256;
    assert Pow2(12) == 4_096;
    assert Pow2(15) == 32_768;
    assert Pow2(19) == 524_288;
  }

  lemma ScaledOrder(x: real, y: real, top: int)
    requires x <= y && top > 0
    ensures x * top as real <= y * top as real
  {
  }

  lemma RoundOrder(x: real, y: real)
    requires x <= y
    ensures Round(x) <= Round(y)
  {
  }

  /** A louder sample never quantizes to less. */
  lemma QuantizeMonotone(x: real, y: real, bits: nat)
    requires bits > 0 && x <= y
    ensures Quantize(x, bits) <= Quantize(y, bits)
  {
    hide QuantizeTo;
    ScaledMonotone(x, y, Pow2(bits - 1));
  }

  lemma ScaledMonotone(x: real, y: real, top: int)
    requires x <= y && top > 0
    ensures QuantizeTo(x, top) <= QuantizeTo(y, top)
  {
    hide Round;
    ScaledOrder(x, y, top);
    RoundOrder(x * top as real, y * top as real);
  }
}
