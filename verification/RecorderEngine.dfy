/** The recorder as it runs: encoder and sender behind one object, samples in, chunks into the sinks' queues. */
module RecorderEngine {
  import opened Machine
  import opened Frames
  import opened Encoder
  import opened Streaminfo
  import Sender
  import SenderModule = StreamSender
  import EncoderModule = StreamEncoder
  import StreamHeader
  import Utf8
  import opened EndToEnd

  /** The sender after being handed these chunks one by one. */
  ghost function PushEach(s: Sender.State, chunks: seq<EncodedChunk>, epochUs: u64, rate: u32): Sender.State
    requires rate > 0
    decreases |chunks|
  {
    if chunks == [] then s
    else
      var t, c := PushEach(s, chunks[..|chunks| - 1], epochUs, rate), chunks[|chunks| - 1];
      if c.sampleCount <= U32_MAX && Sender.Room(t, c.sampleCount) then
        Sender.PushAudio(t, c.sampleCount, CaptureTs(epochUs, rate, c.firstSampleIndex), c.payload)
      else t
  }

  /** Room for all of them. */
  ghost predicate RoomFor(s: Sender.State, chunks: seq<EncodedChunk>) {
    && s.take.Streaming? && s.nextSeq + |chunks| < U32_MAX && s.nextFirst + SampleTotal(chunks) <= U64_MAX
    && forall i :: 0 <= i < |chunks| ==> chunks[i].sampleCount <= U32_MAX
  }

  /** ... and then told that the take is over. */
  ghost function FinishAfter(s: Sender.State, chunks: seq<EncodedChunk>, epochUs: u64, rate: u32): Sender.State
    requires rate > 0 && RoomFor(s, chunks) && s.nextSeq > 0
  {
    RoomStays(s, chunks, |chunks|, epochUs, rate);
    assert chunks[..|chunks|] == chunks;
    Sender.Finish(PushEach(s, chunks, epochUs, rate))
  }

  lemma {:induction false} RoomStays(s: Sender.State, chunks: seq<EncodedChunk>, i: nat, epochUs: u64, rate: u32)
    requires rate > 0 && RoomFor(s, chunks) && i <= |chunks|
    ensures var t := PushEach(s, chunks[..i], epochUs, rate);
            t.take.Streaming? && t.nextSeq == s.nextSeq + i && t.nextFirst == s.nextFirst + SampleTotal(chunks[..i])
    decreases i
  {
    if i > 0 {
      assert chunks[..i][..i - 1] == chunks[..i - 1];
      RoomStays(s, chunks, i - 1, epochUs, rate);
      TotalsGrow(chunks, i);
    }
  }

  method ArmedSender(stream: StreamKey, ringBudgetBytes: nat, clockEpochUs: u64, header: seq<byte>)
      returns (sender: SenderModule.StreamSender)
    ensures sender.Valid() && fresh(sender.Core()) && fresh(sender.sinkRepr)
    ensures sender.Abs() == Sender.Arm(Sender.New(stream, ringBudgetBytes), clockEpochUs, header)
  {
    sender := new SenderModule.StreamSender(stream, ringBudgetBytes);
    var _ := sender.Arm(clockEpochUs, header);
  }

  /** The header a recorder announces its stream with. */
  function HeaderFor(cfg: Config, deviceDesc: Utf8.Str, clockEpochUs: u64,
      wallClockHintMs: u64): StreamHeader.StreamHeaderV1
    requires Validate(cfg).Ok?
  {
    StreamHeader.StreamHeaderV1(StreamHeader.CODEC_FLAC, 1, ByteOf(cfg.bitsPerSample), cfg.sampleRate, clockEpochUs,
        wallClockHintMs, deviceDesc, CodecHeader(cfg))
  }

  class RecorderEngine {
    const sender: SenderModule.StreamSender
    const encoder: EncoderModule.StreamEncoder
    const sampleRate: u32
    const clockEpochUs: u64

    ghost predicate Valid()
      reads this, encoder, sender, sender.produced, sender.ring, sender.ring.Repr, sender.sinkRepr
    {
      && sampleRate > 0 && encoder.Valid() && sender.Valid()
      && encoder !in sender.Core() && encoder !in sender.sinkRepr
    }

    /** Arm at once: chunk 0 exists before any network does. */
    constructor (
      stream: StreamKey, cfg: Config, flac: Flac, deviceDesc: Utf8.Str, clockEpochUs: u64, wallClockHintMs: u64,
          ringBudgetBytes: nat)
      requires Validate(cfg).Ok?
      ensures Valid() && encoder.Abs() == NEW && encoder.cfg == cfg && encoder.flac == flac
      ensures encoder.nominalChunkSamples == NominalSamples(cfg)
      ensures fresh(encoder) && fresh(sender.Core()) && fresh(sender.sinkRepr)
      ensures sampleRate == cfg.sampleRate && this.clockEpochUs == clockEpochUs
      ensures sender.Abs() == Sender.Arm(Sender.New(stream, ringBudgetBytes), clockEpochUs,
          StreamHeader.Encoded(HeaderFor(cfg, deviceDesc, clockEpochUs, wallClockHintMs)))
    {
      hide SenderModule.StreamSender.Valid, Sender.Arm;
      var header := StreamHeader.Encode(HeaderFor(cfg, deviceDesc, clockEpochUs, wallClockHintMs));
      encoder := new EncoderModule.StreamEncoder(cfg, flac);
      var armed := ArmedSender(stream, ringBudgetBytes, clockEpochUs, header);
      sender := armed;
      sampleRate := cfg.sampleRate;
      this.clockEpochUs := clockEpochUs;
    }

    /** Hand encoded chunks to the sender, in order. */
    method Hand(chunks: seq<EncodedChunk>)
      requires Valid() && RoomFor(sender.Abs(), chunks)
      modifies sender.Core(), sender.sinkRepr
      ensures Valid() && encoder.Abs() == old(encoder.Abs()) && sender.sinkRepr == old(sender.sinkRepr)
      ensures sender.Abs() == PushEach(old(sender.Abs()), chunks, clockEpochUs, sampleRate)
    {
      ghost var start := sender.Abs();
      ghost var repr := sender.sinkRepr;
      for i := 0 to |chunks|
        invariant Valid() && sender.sinkRepr == repr && encoder.Abs() == old(encoder.Abs())
        invariant sender.Abs() == PushEach(start, chunks[..i], clockEpochUs, sampleRate)
      {
        var c := chunks[i];
        RoomStays(start, chunks, i, clockEpochUs, sampleRate);
        NextFits(start, chunks, i);
        assert chunks[..i + 1][..i] == chunks[..i];
        var _ := sender.PushAudio(c.sampleCount, CaptureTs(clockEpochUs, sampleRate, c.firstSampleIndex), c.payload);
      }
      assert chunks[..|chunks|] == chunks;
    }

    /** Push captured samples; the chunks that fall out go to the sender at once. */
    method PushSamples(samples: seq<real>) returns (r: Result<(), CodecError>)
      requires Valid()
      requires var q := Push(encoder.flac, encoder.nominalChunkSamples, Progress(encoder.Abs(), []),
                             QuantizeAll(samples, encoder.cfg.bitsPerSample));
               !encoder.finished && q.Ok? ==> RoomFor(sender.Abs(), q.value.out)
      modifies encoder, sender.Core(), sender.sinkRepr
      ensures Valid() && sender.sinkRepr == old(sender.sinkRepr)
      ensures old(encoder.finished) ==>
                r == Err(Finished) && encoder.Abs() == old(encoder.Abs()) && sender.Abs() == old(sender.Abs())
      ensures !old(encoder.finished) ==>
                match Push(encoder.flac, encoder.nominalChunkSamples, Progress(old(encoder.Abs()), []),
                           QuantizeAll(samples, encoder.cfg.bitsPerSample))
                case Err(e) => r == Err(e) && sender.Abs() == old(sender.Abs())
                case Ok(q) =>
                  && r.Ok? && encoder.Abs() == q.s
                  && sender.Abs() == PushEach(old(sender.Abs()), q.out, clockEpochUs, sampleRate)
    {
      var chunks := encoder.PushF32(samples);
      if chunks.Err? { return Err(chunks.error); }
      Hand(chunks.value);
      return Ok(());
    }

    /** Stop: flush the encoder, hand over the last chunk, drain. */
    method Finish() returns (r: Result<(), CodecError>)
      requires Valid()
      requires var q := Encoder.Finish(encoder.flac, encoder.nominalChunkSamples, Progress(encoder.Abs(), []));
               !encoder.finished && q.Ok? ==> RoomFor(sender.Abs(), q.value.out) && sender.nextSeq > 0
      modifies encoder, sender.Core(), sender.sinkRepr
      ensures Valid() && sender.sinkRepr == old(sender.sinkRepr)
      ensures old(encoder.finished) ==>
                r == Err(Finished) && encoder.Abs() == old(encoder.Abs()) && sender.Abs() == old(sender.Abs())
      ensures !old(encoder.finished) ==>
                match Encoder.Finish(encoder.flac, encoder.nominalChunkSamples, Progress(old(encoder.Abs()), []))
                case Err(e) => r == Err(e) && sender.Abs() == old(sender.Abs())
                case Ok(q) => r.Ok? && sender.Abs() == FinishAfter(old(sender.Abs()), q.out, clockEpochUs, sampleRate)
    {
      var chunks := encoder.Finish();
      if chunks.Err? { return Err(chunks.error); }
      ghost var start := sender.Abs();
      RoomStays(start, chunks.value, |chunks.value|, clockEpochUs, sampleRate);
      assert chunks.value[..|chunks.value|] == chunks.value;
      Hand(chunks.value);
      var _ := sender.Finish();
      return Ok(());
    }
  }

  lemma NextFits(s: Sender.State, chunks: seq<EncodedChunk>, i: nat)
    requires RoomFor(s, chunks) && i < |chunks|
    ensures s.nextSeq + i < U32_MAX && s.nextFirst + SampleTotal(chunks[..i]) + chunks[i].sampleCount <= U64_MAX
  {
    TotalsGrow(chunks, i + 1);
    assert chunks[..i + 1][..i] == chunks[..i];
  }
}
