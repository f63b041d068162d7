/**
 * From the microphone to the downloaded file: whatever the slabs, the network and the storage order, a sink that
 * holds a whole take serves exactly the bytes of a one-shot encode.
 */
module EndToEnd {
  import opened Machine
  import opened Sets
  import opened Frames
  import opened Encoder
  import opened Streaminfo
  import opened FlacFile
  import StreamHeader
  import Wire
  import WireFacts
  import Sender

  // ---- the recorder's calls ---------------------------------------------------------------------

  /** Capture time of a sample: epoch plus its place in the sample clock, saturating. */
  function CaptureTs(epochUs: u64, rate: u32, first: nat): u64
    requires rate > 0
  {
    Min(U64_MAX, epochUs + first * 1_000_000 / rate)
  }

  /** The last microsecond at or before the sample; the clock reads epochUs at sample zero, and stops at its end. */
  ghost predicate OnSampleClock(ts: u64, epochUs: u64, rate: u32, first: nat) {
    if ts == U64_MAX then (U64_MAX - epochUs) * rate <= first * 1_000_000
    else ts >= epochUs && (ts - epochUs) * rate <= first * 1_000_000 < (ts - epochUs + 1) * rate
  }

  lemma CaptureTsIsClock(ts: u64, epochUs: u64, rate: u32, first: nat)
    requires rate > 0
    ensures ts == CaptureTs(epochUs, rate, first) <==> OnSampleClock(ts, epochUs, rate, first)
  {
    ClockReads(ts, epochUs, rate, first * 1_000_000, ts - epochUs);
  }

  lemma ClockReads(ts: u64, epochUs: u64, rate: u32, x: nat, elapsed: int)
    requires rate > 0 && elapsed == ts - epochUs
    ensures ts == Min(U64_MAX, epochUs + x / rate)
       <==> if ts == U64_MAX then elapsed * rate <= x
            else elapsed >= 0 && elapsed * rate <= x < (elapsed + 1) * rate
  {
    var quotient := x / rate;
    QuotientReaches(x, rate, elapsed);
    QuotientReaches(x, rate, elapsed + 1);
    assert quotient >= 0;
  }

  lemma QuotientReaches(x: nat, d: nat, q: int)
    requires d > 0
    ensures q <= x / d <==> q * d <= x
  {
    var r := x / d;
    assert x == r * d + x % d;
    if q <= r {
      TimesOrder(q, r, d);
    } else {
      TimesOrder(r + 1, q, d);
      assert (r + 1) * d == r * d + d;
    }
  }

  lemma TimesOrder(a: int, b: int, d: nat)
    requires a <= b
    ensures a * d <= b * d
  {
    assert (b - a) * d >= 0;
    assert b * d == a * d + (b - a) * d;
  }

  /** Counts fit the wire, and the take stays below the seq sentinel and the sample clock's range. */
  ghost predicate Pushable(chunks: seq<EncodedChunk>) {
    && |chunks| + 1 < U32_MAX && SampleTotal(chunks) <= U64_MAX
    && forall i :: 0 <= i < |chunks| ==>
        chunks[i].sampleCount <= U32_MAX && chunks[i].firstSampleIndex == SampleTotal(chunks[..i])
  }

  /** Chunks an encoder made always are, short of the seq sentinel and the sample clock's end. */
  lemma ChunksArePushable(cfg: Config, flac: Flac, samples: seq<int>)
    requires Validate(cfg).Ok? && Sane(flac) && Chunks(flac, NominalSamples(cfg), samples).Ok?
    requires |Chunks(flac, NominalSamples(cfg), samples).value| + 1 < U32_MAX && |samples| <= U64_MAX
    ensures Pushable(Chunks(flac, NominalSamples(cfg), samples).value)
  {
    ChunksAreTheFrames(flac, NominalSamples(cfg), samples);
    ChunksAreShort(flac, NominalSamples(cfg), samples);
  }

  /** The chunk the recorder hands out for the i-th encoded one. */
  ghost function Logged(stream: StreamKey, epochUs: u64, rate: u32, chunks: seq<EncodedChunk>, i: nat): AudioChunk
    requires Pushable(chunks) && i < |chunks| && rate > 0
  {
    TotalsGrow(chunks, i);
    Sender.ChunkFor(stream, i + 1, chunks[i].firstSampleIndex, chunks[i].sampleCount, CaptureTs(epochUs, rate,
        chunks[i].firstSampleIndex), chunks[i].payload)
  }

  lemma {:induction false} TotalsGrow(chunks: seq<EncodedChunk>, i: nat)
    requires i <= |chunks|
    ensures SampleTotal(chunks[..i]) <= SampleTotal(chunks)
    decreases |chunks| - i
  {
    if i < |chunks| {
      assert chunks[..i + 1][..i] == chunks[..i];
      TotalsGrow(chunks, i + 1);
    } else {
      assert chunks[..i] == chunks;
    }
  }

  /** The log of a recorder that armed with `h` and pushed these chunks. */
  ghost predicate Recorded(log: seq<AudioChunk>, stream: StreamKey, h: StreamHeader.StreamHeaderV1, rate: u32,
      chunks: seq<EncodedChunk>)
    requires rate > 0
  {
    && Pushable(chunks) && |log| == |chunks| + 1 && log[0] == StreamHeader.HeaderChunk(stream, h)
    && forall i :: 0 <= i < |chunks| ==> log[i + 1] == Logged(stream, h.clockEpochUs, rate, chunks, i)
  }

  /** Every chunk a recorder hands out, the header's included, carries the clock's reading of its first sample. */
  lemma LogIsTimed(log: seq<AudioChunk>, stream: StreamKey, h: StreamHeader.StreamHeaderV1, rate: u32,
      chunks: seq<EncodedChunk>)
    requires rate > 0 && Recorded(log, stream, h, rate, chunks)
    ensures forall i :: 0 <= i < |log| ==>
        OnSampleClock(log[i].captureTsUs, h.clockEpochUs, rate, log[i].firstSampleIndex)
  {
    hide CaptureTs, OnSampleClock, Pushable, Logged;
    forall i | 0 <= i < |log|
      ensures OnSampleClock(log[i].captureTsUs, h.clockEpochUs, rate, log[i].firstSampleIndex)
    {
      if i == 0 {
        EpochIsOnClock(stream, h, rate);
      } else {
        var at := i - 1;
        assert log[at + 1] == Logged(stream, h.clockEpochUs, rate, chunks, at);
        LoggedIsOnClock(stream, h.clockEpochUs, rate, chunks, at);
      }
    }
  }

  lemma EpochIsOnClock(stream: StreamKey, h: StreamHeader.StreamHeaderV1, rate: u32)
    requires rate > 0
    ensures var c := StreamHeader.HeaderChunk(stream, h);
            OnSampleClock(c.captureTsUs, h.clockEpochUs, rate, c.firstSampleIndex)
  {
  }

  lemma LoggedIsOnClock(stream: StreamKey, epochUs: u64, rate: u32, chunks: seq<EncodedChunk>, i: nat)
    requires rate > 0 && Pushable(chunks) && i < |chunks|
    ensures var c := Logged(stream, epochUs, rate, chunks, i);
            OnSampleClock(c.captureTsUs, epochUs, rate, c.firstSampleIndex)
  {
    hide CaptureTs, OnSampleClock, Pushable;
    CaptureTsIsClock(CaptureTs(epochUs, rate, chunks[i].firstSampleIndex), epochUs, rate, chunks[i].firstSampleIndex);
  }

  // ---- what the server makes of a complete store ---------------------------------------------------

  ghost function StoredRows(store: map<u32, AudioChunk>): map<u32, Row> {
    map s | s in store :: Row(store[s].sampleCount, Wire.Encode(ChunkFrame(store[s])))
  }

  lemma BlobReads(c: AudioChunk)
    requires |c.payload| <= MAX_CHUNK_PAYLOAD_BYTES
    ensures PayloadOf(Wire.Encode(ChunkFrame(c))) == Some(c.payload)
  {
    WireFacts.DecodeOfEncode(ChunkFrame(c));
  }

  lemma HeaderBlobReads(stream: StreamKey, h: StreamHeader.StreamHeaderV1, served: nat)
    requires |h.deviceDesc| <= 65_394 && |h.codecHeader| == HEADER_BYTES
    ensures PartOf(0, Row(0, Wire.Encode(ChunkFrame(StreamHeader.HeaderChunk(stream, h)))), served)
        == Some(Finalized(h.codecHeader, served))
  {
    StreamHeader.FitsOneChunk(h);
    BlobReads(StreamHeader.HeaderChunk(stream, h));
    StreamHeader.DecodeOfEncode(h);
    StreamHeader.KeptWhole(h);
  }

  /** Rows 0..k-1 of a complete take: the bootstrap, then the payloads in order. */
  ghost predicate Assembles(keys: seq<u32>, rows: map<u32, Row>, k: nat, served: nat, start: seq<byte>,
      chunks: seq<EncodedChunk>)
    requires (forall x :: x in keys ==> x in rows) && 1 <= k <= |keys| && k <= |chunks| + 1
  {
    var parts := PartsOf(keys[..k], rows, served);
    && parts.Some? && Flatten(parts.value) == start + Payloads(chunks[..k - 1])
    && SampleSum(keys[..k], rows) == SampleTotal(chunks[..k - 1])
  }

  /** The rows of a recorded take. */
  ghost predicate TakeRows(keys: seq<u32>, rows: map<u32, Row>, served: nat, start: seq<byte>,
      chunks: seq<EncodedChunk>) {
    && |keys| == |chunks| + 1 && (forall x :: x in keys ==> x in rows)
    && keys[0] == 0 && rows[0].sampleCount == 0 && PartOf(0, rows[0], served) == Some(start)
    && forall i :: 0 < i < |keys| ==>
         && keys[i] != 0 && rows[keys[i]].sampleCount == chunks[i - 1].sampleCount
         && PayloadOf(rows[keys[i]].blob) == Some(chunks[i - 1].payload)
  }

  lemma PartsSnoc(keys: seq<u32>, rows: map<u32, Row>, k: nat, served: nat, parts: seq<seq<byte>>, part: seq<byte>)
    requires (forall x :: x in keys ==> x in rows) && 1 <= k <= |keys|
    requires PartsOf(keys[..k - 1], rows, served) == Some(parts) && PartOf(keys[k - 1], rows[keys[k - 1]], served)
        == Some(part)
    ensures PartsOf(keys[..k], rows, served) == Some(parts + [part])
    ensures SampleSum(keys[..k], rows) == SampleSum(keys[..k - 1], rows) + rows[keys[k - 1]].sampleCount
  {
    assert keys[..k][..k - 1] == keys[..k - 1];
  }

  lemma FlattenSnoc(parts: seq<seq<byte>>, part: seq<byte>)
    ensures Flatten(parts + [part]) == Flatten(parts) + part
  {
    assert (parts + [part])[..|parts|] == parts;
  }

  lemma AudioPart(s: u32, row: Row, served: nat, payload: seq<byte>)
    requires s != 0 && PayloadOf(row.blob) == Some(payload)
    ensures PartOf(s, row, served) == Some(payload)
  {
  }

  lemma AssembleNext(keys: seq<u32>, rows: map<u32, Row>, k: nat, served: nat, start: seq<byte>,
      chunks: seq<EncodedChunk>, c: EncodedChunk)
    requires (forall x :: x in keys ==> x in rows) && 1 < k <= |keys| && k <= |chunks| + 1 && c == chunks[k - 2]
    requires Assembles(keys, rows, k - 1, served, start, chunks)
    requires PartOf(keys[k - 1], rows[keys[k - 1]], served) == Some(c.payload) && rows[keys[k - 1]].sampleCount
        == c.sampleCount
    ensures Assembles(keys, rows, k, served, start, chunks)
  {
    hide PartsOf, PartOf, SampleSum, Flatten, Payloads, SampleTotal;
    var parts := PartsOf(keys[..k - 1], rows, served).value;
    var before := chunks[..k - 2];
    PartsSnoc(keys, rows, k, served, parts, c.payload);
    FlattenSnoc(parts, c.payload);
    assert chunks[..k - 1] == before + [c];
    Snoc(before, c);
    Regroup(start, Payloads(before), c.payload);
  }

  lemma Regroup(a: seq<byte>, b: seq<byte>, c: seq<byte>)
    ensures (a + b) + c == a + (b + c)
  {
  }

  lemma {:induction false} AssembleUpTo(keys: seq<u32>, rows: map<u32, Row>, k: nat, served: nat, start: seq<byte>,
      chunks: seq<EncodedChunk>)
    requires TakeRows(keys, rows, served, start, chunks) && 1 <= k <= |keys|
    ensures Assembles(keys, rows, k, served, start, chunks)
    decreases k
  {
    if k == 1 {
      AssembleFirst(keys[..1], rows, served, start);
      assert chunks[..0] == [] && start + [] == start;
    } else {
      AssembleUpTo(keys, rows, k - 1, served, start, chunks);
      AudioPart(keys[k - 1], rows[keys[k - 1]], served, chunks[k - 2].payload);
      AssembleNext(keys, rows, k, served, start, chunks, chunks[k - 2]);
    }
  }

  lemma AssembleFirst(front: seq<u32>, rows: map<u32, Row>, served: nat, start: seq<byte>)
    requires front == [0] && 0 in rows && rows[0].sampleCount == 0 && PartOf(0, rows[0], served) == Some(start)
    ensures PartsOf(front, rows, served) == Some([start]) && Flatten([start]) == start && SampleSum(front, rows) == 0
  {
    assert front[..0] == [];
    assert PartsOf([], rows, served) == Some([]);
    assert [] + [start] == [start] && [start][..0] == [] && [] + start == start;
  }

  lemma AscendingOfBelow(n: nat)
    requires n <= U32_MAX + 1
    ensures |Ascending(Below(n))| == n
    ensures forall i :: 0 <= i < n ==> Ascending(Below(n))[i] == i
  {
    var q: seq<u32> := seq(n, i requires 0 <= i < n => i);
    AscendingFacts(Below(n));
    forall x: u32 ensures x in q <==> x in Below(n) {
      if x < n { assert q[x] == x; }
    }
    forall x: u32 ensures x in q <==> x in Ascending(Below(n)) {
      assert x in q <==> x in Below(n);
    }
    IncreasingUnique(q, Ascending(Below(n)));
  }

  // ---- a complete store is the file --------------------------------------------------------------------

  /** The store holds every chunk of the log, and nothing else. */
  ghost predicate HoldsAll(store: map<u32, AudioChunk>, log: seq<AudioChunk>) {
    |log| <= U32_MAX + 1 && store.Keys == Below(|log|) && forall s :: s in store ==> store[s] == log[s]
  }

  /** Row i carries chunk i - 1. */
  ghost predicate Carries(rows: map<u32, Row>, i: u32, chunks: seq<EncodedChunk>) {
    && i in rows && 0 < i <= |chunks| && rows[i].sampleCount == chunks[i - 1].sampleCount
    && PayloadOf(rows[i].blob) == Some(chunks[i - 1].payload)
  }

  lemma InOrder(keys: seq<u32>, rows: map<u32, Row>, served: nat, start: seq<byte>, chunks: seq<EncodedChunk>)
    requires |keys| == |chunks| + 1 && forall i :: 0 <= i < |keys| ==> keys[i] == i
    requires 0 in rows && rows[0].sampleCount == 0 && PartOf(0, rows[0], served) == Some(start)
    requires forall i: u32 :: 0 < i < |keys| ==> Carries(rows, i, chunks)
    ensures TakeRows(keys, rows, served, start, chunks)
  {
    forall i | 0 <= i < |keys| ensures keys[i] in rows && (i > 0 ==> Carries(rows, keys[i], chunks)) {
      if i > 0 { assert Carries(rows, keys[i], chunks); }
    }
  }

  lemma RowsOfTake(
    stream: StreamKey, h: StreamHeader.StreamHeaderV1, rate: u32, chunks: seq<EncodedChunk>,
    log: seq<AudioChunk>, store: map<u32, AudioChunk>, served: nat)
    requires rate > 0 && Recorded(log, stream, h, rate, chunks) && WellChunked(chunks) && HoldsAll(store, log)
    requires |h.deviceDesc| <= 65_394 && |h.codecHeader| == HEADER_BYTES
    ensures TakeRows(Ascending(store.Keys), StoredRows(store), served, Finalized(h.codecHeader, served), chunks)
    ensures |Ascending(store.Keys)| == |log|
  {
    AscendingOfBelow(|log|);
    HeaderRow(stream, h, rate, chunks, log, store, served);
    forall i: u32 | 0 < i < |log| ensures Carries(StoredRows(store), i, chunks) {
      AudioRowAt(stream, h, rate, chunks, log, store, i);
    }
    InOrder(Ascending(store.Keys), StoredRows(store), served, Finalized(h.codecHeader, served), chunks);
  }

  lemma HeaderRow(
    stream: StreamKey, h: StreamHeader.StreamHeaderV1, rate: u32, chunks: seq<EncodedChunk>,
    log: seq<AudioChunk>, store: map<u32, AudioChunk>, served: nat)
    requires rate > 0 && Recorded(log, stream, h, rate, chunks) && HoldsAll(store, log)
    requires |h.deviceDesc| <= 65_394 && |h.codecHeader| == HEADER_BYTES
    ensures 0 in store && StoredRows(store)[0].sampleCount == 0
    ensures PartOf(0, StoredRows(store)[0], served) == Some(Finalized(h.codecHeader, served))
  {
    HeaderBlobReads(stream, h, served);
    assert 0 in Below(|log|) && store[0] == log[0];
  }

  lemma AudioRowAt(
    stream: StreamKey, h: StreamHeader.StreamHeaderV1, rate: u32, chunks: seq<EncodedChunk>,
    log: seq<AudioChunk>, store: map<u32, AudioChunk>, i: u32)
    requires rate > 0 && Recorded(log, stream, h, rate, chunks) && WellChunked(chunks) && HoldsAll(store, log)
        && 0 < i < |log|
    ensures Carries(StoredRows(store), i, chunks)
  {
    assert i in Below(|log|) && store[i] == log[i] == Logged(stream, h.clockEpochUs, rate, chunks, i - 1);
    AudioRow(stream, h.clockEpochUs, rate, chunks, i - 1, store[i]);
  }

  lemma AudioRow(stream: StreamKey, epochUs: u64, rate: u32, chunks: seq<EncodedChunk>, i: nat, c: AudioChunk)
    requires rate > 0 && Pushable(chunks) && WellChunked(chunks) && i < |chunks|
        && c == Logged(stream, epochUs, rate, chunks, i)
    ensures c.sampleCount == chunks[i].sampleCount && PayloadOf(Wire.Encode(ChunkFrame(c))) == Some(chunks[i].payload)
  {
    BlobReads(c);
  }

  /**
   * The file the server assembles from a complete store, in whatever order its chunks arrived, is byte for byte
   * the one-shot encode of the same samples, final sample count included.
   */
  lemma FileFromStore(
    cfg: Config, flac: Flac, samples: seq<int>, stream: StreamKey, h: StreamHeader.StreamHeaderV1,
    log: seq<AudioChunk>, store: map<u32, AudioChunk>, allowPartial: bool)
    requires Validate(cfg).Ok? && Sane(flac) && Chunks(flac, NominalSamples(cfg), samples).Ok?
    requires Recorded(log, stream, h, cfg.sampleRate, Chunks(flac, NominalSamples(cfg), samples).value)
    requires h.codecHeader == CodecHeader(cfg) && |h.deviceDesc| <= 65_394 && HoldsAll(store, log)
    ensures FlacMono(cfg, flac, samples).Ok?
    ensures FileOf(true, Some(|log| - 1), StoredRows(store), allowPartial) == Served(FlacMono(cfg, flac, samples).value)
  {
    var chunks := Chunks(flac, NominalSamples(cfg), samples).value;
    ChunksAreTheFrames(flac, NominalSamples(cfg), samples);
    ServesTake(stream, h, cfg.sampleRate, chunks, log, store, allowPartial);
  }

  lemma ServesTake(
    stream: StreamKey, h: StreamHeader.StreamHeaderV1, rate: u32, chunks: seq<EncodedChunk>,
    log: seq<AudioChunk>, store: map<u32, AudioChunk>, allowPartial: bool)
    requires rate > 0 && Recorded(log, stream, h, rate, chunks) && WellChunked(chunks) && HoldsAll(store, log)
    requires |h.deviceDesc| <= 65_394 && |h.codecHeader| == HEADER_BYTES
    ensures FileOf(true, Some(|log| - 1), StoredRows(store), allowPartial)
         == Served(Finalized(h.codecHeader, SampleTotal(chunks)) + Payloads(chunks))
  {
    var keys, rows := Ascending(store.Keys), StoredRows(store);
    var total := SampleTotal(chunks);
    assert rows.Keys == store.Keys;
    RowsOfTake(stream, h, rate, chunks, log, store, total);
    WholeFile(rows, keys, |log| - 1, allowPartial, total, Finalized(h.codecHeader, total), chunks);
  }

  lemma WholeFile(rows: map<u32, Row>, keys: seq<u32>, final: u32, allowPartial: bool, total: nat, start: seq<byte>,
      chunks: seq<EncodedChunk>)
    requires keys == Ascending(rows.Keys) && TakeRows(keys, rows, total, start, chunks)
    requires total == SampleTotal(chunks) && |keys| == final + 1
    ensures FileOf(true, Some(final), rows, allowPartial) == Served(start + Payloads(chunks))
  {
    AssembleUpTo(keys, rows, |keys|, total, start, chunks);
    assert keys[..|keys|] == keys && chunks[..|chunks|] == chunks;
    FileIs(rows, keys, final, allowPartial, PartsOf(keys, rows, total).value);
  }

  lemma FileIs(rows: map<u32, Row>, keys: seq<u32>, final: u32, allowPartial: bool, parts: seq<seq<byte>>)
    requires keys == Ascending(rows.Keys) && (forall k :: k in keys ==> k in rows)
    requires |keys| == final + 1 && keys[0] == 0 && PartsOf(keys, rows, SampleSum(keys, rows)) == Some(parts)
    ensures FileOf(true, Some(final), rows, allowPartial) == Served(Flatten(parts))
  {
  }
}
