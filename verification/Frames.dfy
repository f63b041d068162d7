/** The protocol's entities: stream and chunk keys, chunks, and data-plane frames. */
module Frames {
  import opened Machine
  import opened Ranges

  const CHWM_NONE: u32 := 0xFFFF_FFFF
  const MAX_FRAME_BYTES := 65_536
  const FRAME_HEADER_LEN := 4
  const AUDIO_CHUNK_HEADER_LEN := 68
  const MAX_CHUNK_PAYLOAD_BYTES := MAX_FRAME_BYTES - AUDIO_CHUNK_HEADER_LEN
  const MAX_RANGES_PER_FRAME := (MAX_FRAME_BYTES - FRAME_HEADER_LEN - 32 - 2) / 8

  type Id = s: seq<byte> | |s| == 16 witness [0, 0, 0, 0, 0, 0, 0, 0, 0, 0, 0, 0, 0, 0, 0, 0]

  datatype StreamKey = StreamKey(takeId: Id, streamId: Id)

  /** Seq 0 carries the stream header; every later seq carries audio. */
  datatype AudioChunk = AudioChunk(
    stream: StreamKey,
    seqNo: u32,
    firstSampleIndex: u64,
    sampleCount: u32,
    captureTsUs: u64,
    crc32c: bv32,
    payload: seq<byte>)

  datatype AckStatus = AckStatus(stream: StreamKey, chwm: u32, holes: seq<SeqRange>)

  datatype RangeList = RangeList(stream: StreamKey, ranges: seq<SeqRange>)

  datatype TimePing = TimePing(pingId: u32, t1: u64)

  datatype TimePong = TimePong(pingId: u32, t1: u64, t2: u64, t3: u64)

  datatype Frame =
    | ChunkFrame(chunk: AudioChunk)
    | AckFrame(ack: AckStatus)
    | BackfillRequest(list: RangeList)
    | GapReport(list: RangeList)
    | PingFrame(ping: TimePing)
    | PongFrame(pong: TimePong)
    | HaveSummary(list: RangeList)

  /** Split an arbitrarily long range list into frame-sized batches. */
  function SplitForFrames(ranges: seq<SeqRange>): (batches: seq<seq<SeqRange>>)
    ensures forall b :: b in batches ==> 1 <= |b| <= MAX_RANGES_PER_FRAME
    decreases |ranges|
  {
    if ranges == [] then []
    else if |ranges| <= MAX_RANGES_PER_FRAME then [ranges]
    else [ranges[..MAX_RANGES_PER_FRAME]] + SplitForFrames(ranges[MAX_RANGES_PER_FRAME..])
  }

  /** Batching loses nothing: together the batches cover exactly what the list covers. */
  lemma {:induction false} SplitCovers(ranges: seq<SeqRange>, x: int)
    ensures Covers(ranges, x) <==> exists b :: b in SplitForFrames(ranges) && Covers(b, x)
    decreases |ranges|
  {
    if ranges == [] {
    } else if |ranges| <= MAX_RANGES_PER_FRAME {
      assert ranges in SplitForFrames(ranges);
    } else {
      var head, tail := ranges[..MAX_RANGES_PER_FRAME], ranges[MAX_RANGES_PER_FRAME..];
      CoversSplit(head, tail, ranges);
      SplitCovers(tail, x);
      assert SplitForFrames(ranges) == [head] + SplitForFrames(tail);
      assert head in SplitForFrames(ranges);
    }
  }
}
