/** The sink's engine: one receiver per stream, fed with raw frames. Storage stays with the caller. */
module SinkEngine {
  import opened Machine
  import opened Sets
  import opened Ranges
  import opened Frames
  import Receiver
  import Wire

  type Streams = map<StreamKey, Receiver.State>

  /** What one inbound frame was, as far as the caller must act on it. */
  datatype IngestResult =
    | NewChunk(chunk: AudioChunk, continuous: bool)
    | CrcConflict(chunk: AudioChunk)
    | Gaps(list: RangeList)
    | Nothing

  /** The receiver of a stream, fresh if there is none yet. */
  function Entry(streams: Streams, k: StreamKey): Receiver.State { if k in streams then streams[k] else Receiver.NEW }

  /** A frame's effect on the table of receivers. */
  ghost function Fed(streams: Streams, bytes: seq<byte>): Streams {
    match Wire.Layout(bytes)
    case Ok(Known(ChunkFrame(c))) => streams[c.stream := Receiver.Ingest(Entry(streams, c.stream), c).0]
    case Ok(Known(GapReport(list))) => streams[list.stream := Receiver.RecordGaps(Entry(streams, list.stream),
        list.ranges)]
    case _ => streams
  }

  function Verdict(streams: Streams, bytes: seq<byte>): IngestResult {
    match Wire.Layout(bytes)
    case Ok(Known(ChunkFrame(c))) =>
      (match Receiver.Ingest(Entry(streams, c.stream), c).1
       case Stored => NewChunk(c, true)
       case ContinuityViolation(_, _) => NewChunk(c, false)
       case FatalCrcConflict(_, _) => CrcConflict(c)
       case _ => Nothing)
    case Ok(Known(GapReport(list))) => Gaps(list)
    case _ => Nothing
  }

  /** The seqs a list of ranges names, one by one. */
  method MembersOf(ranges: seq<SeqRange>) returns (s: set<u32>)
    ensures s == Members(ranges)
  {
    var all := FromRanges(ranges);
    var values := all.Values();
    AscendingFacts(all.Contents());
    s := set x | x in values;
  }

  class SinkEngine {
    var streams: Streams

    constructor ()
      ensures streams == map[]
    {
      streams := map[];
    }

    method Ingest(bytes: seq<byte>) returns (r: IngestResult)
      modifies this
      ensures streams == Fed(old(streams), bytes) && r == Verdict(old(streams), bytes)
    {
      var decoded := Wire.Decode(bytes);
      match decoded {
        case Ok(Known(ChunkFrame(c))) =>
          var (recv, outcome) := Receiver.Ingest(Entry(streams, c.stream), c);
          streams := streams[c.stream := recv];
          match outcome {
            case Stored => r := NewChunk(c, true);
            case ContinuityViolation(_, _) => r := NewChunk(c, false);
            case FatalCrcConflict(_, _) => r := CrcConflict(c);
            case _ => r := Nothing;
          }
        case Ok(Known(GapReport(list))) =>
          var lost := MembersOf(list.ranges);
          var recv := Entry(streams, list.stream);
          streams := streams[list.stream := recv.(gaps := recv.gaps + lost)];
          r := Gaps(list);
        case _ => r := Nothing;
      }
    }

    /** Crash recovery: reload one chunk's metadata. */
    method RebuildChunk(k: StreamKey, n: u32, m: Receiver.ChunkMeta)
      modifies this
      ensures streams == old(streams)[k := Receiver.RebuildOne(Entry(old(streams), k), n, m)]
    {
      streams := streams[k := Receiver.RebuildOne(Entry(streams, k), n, m)];
    }

    /** Crash recovery: a declared gap. */
    method RebuildGap(k: StreamKey, r: SeqRange)
      modifies this
      ensures streams == old(streams)[k := Receiver.RecordGaps(Entry(old(streams), k), [r])]
    {
      var lost := MembersOf([r]);
      var recv := Entry(streams, k);
      streams := streams[k := recv.(gaps := recv.gaps + lost)];
    }

    /** A deleted stream vanishes from all traffic. */
    method RemoveStream(k: StreamKey) returns (present: bool)
      modifies this
      ensures streams == old(streams) - {k} && present == (k in old(streams))
    {
      present := k in streams;
      streams := streams - {k};
    }

    method SetFinalSeq(k: StreamKey, f: u32)
      modifies this
      ensures streams == old(streams)[k := Receiver.SetFinal(Entry(old(streams), k), f)]
    {
      streams := streams[k := Receiver.SetFinal(Entry(streams, k), f)];
    }
  }
}
