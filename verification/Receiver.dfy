/** The sink-side stream engine as a function of its state: ingest, marks, holes, completeness. */
module Receiver {
  import opened Machine
  import opened Sets
  import opened Ranges
  import opened Frames
  import Crc32c

  datatype ChunkMeta = ChunkMeta(crc32c: bv32, firstSampleIndex: u64, sampleCount: u32, payloadLen: int)

  datatype Outcome =
    | Stored
    | Duplicate
    | FatalCrcConflict(existingCrc: bv32, incomingCrc: bv32)
    | CorruptPayload(declaredCrc: bv32, computedCrc: bv32)
    | ContinuityViolation(expected: u64, got: u64)

  datatype StreamFlag =
    | CrcConflict(seqNo: u32, existingCrc: bv32, incomingCrc: bv32)
    | Discontinuity(seqNo: u32, expected: u64, got: u64)

  /** The abstract receiver: every field of the Rust struct, range sets read as sets. */
  datatype State = State(
    held: set<u32>,
    meta: map<u32, ChunkMeta>,
    gaps: set<u32>,
    final: Option<u32>,
    flags: seq<StreamFlag>)

  const NEW := State({}, map[], {}, None, [])

  // ---- ingest -------------------------------------------------------------

  function MetaOf(c: AudioChunk): ChunkMeta {
    ChunkMeta(c.crc32c, c.firstSampleIndex, c.sampleCount, |c.payload|)
  }

  predicate Intact(c: AudioChunk) { Crc32c.Checksum(c.payload) == c.crc32c }

  function SatAdd(a: u64, b: u32): u64 { if a + b > U64_MAX then U64_MAX else a + b }

  /** Where the chunk after one with this metadata must start. */
  function Expected(m: ChunkMeta): u64 { SatAdd(m.firstSampleIndex, m.sampleCount) }

  /** The first disagreement with a stored neighbour, as (expected, got). */
  function CheckContinuity(meta: map<u32, ChunkMeta>, c: AudioChunk): Option<(u64, u64)> {
    if c.seqNo == 0 then None
    else if c.seqNo == 1 && c.firstSampleIndex != 0 then Some((0, c.firstSampleIndex))
    else if c.seqNo >= 2 && c.seqNo - 1 in meta && c.firstSampleIndex != Expected(meta[c.seqNo - 1]) then
      Some((Expected(meta[c.seqNo - 1]), c.firstSampleIndex))
    else if c.seqNo + 1 in meta && meta[c.seqNo + 1].firstSampleIndex != Expected(MetaOf(c)) then
      Some((Expected(MetaOf(c)), meta[c.seqNo + 1].firstSampleIndex))
    else None
  }

  function AddFlag(flags: seq<StreamFlag>, f: StreamFlag): seq<StreamFlag> {
    if f in flags then flags else flags + [f]
  }

  function Ingest(r: State, c: AudioChunk): (State, Outcome) {
    var computed := Crc32c.Checksum(c.payload);
    if computed != c.crc32c then (r, CorruptPayload(c.crc32c, computed))
    else if c.seqNo in r.meta then
      var existing := r.meta[c.seqNo].crc32c;
      if existing == c.crc32c then (r, Duplicate)
      else (r.(flags := AddFlag(r.flags, CrcConflict(c.seqNo, existing, c.crc32c))), FatalCrcConflict(existing,
          c.crc32c))
    else
      var stored := r.(held := r.held + {c.seqNo}, meta := r.meta[c.seqNo := MetaOf(c)]);
      match CheckContinuity(r.meta, c)
      case Some((expected, got)) =>
        (stored.(flags := AddFlag(r.flags, Discontinuity(c.seqNo, expected, got))), ContinuityViolation(expected, got))
      case None => (stored, Stored)
  }

  ghost function RecordGaps(r: State, ranges: seq<SeqRange>): State { r.(gaps := r.gaps + Members(ranges)) }

  function RebuildOne(r: State, s: u32, m: ChunkMeta): State { r.(held := r.held + {s}, meta := r.meta[s := m]) }

  /** First writer wins; a conflicting later value can only raise the expectation. */
  function SetFinal(r: State, f: u32): State {
    match r.final
    case None => r.(final := Some(f))
    case Some(g) => r.(final := Some(Max(g, f)))
  }

  // ---- status ---------------------------------------------------------------

  /** The end of the run of s that starts at zero. */
  ghost function ContiguousEnd(s: set<u32>): Option<u32> {
    var rs := RangesOf(s);
    if rs == [] || rs[0].start != 0 then None else Some(rs[0].end)
  }

  lemma ContiguousEndFacts(s: set<u32>)
    ensures ContiguousEnd(s).None? <==> 0 !in s
    ensures ContiguousEnd(s).Some? ==> var m := ContiguousEnd(s).value;
                                       Below(m + 1) <= s && (m < U32_MAX ==> m + 1 !in s)
  {
    RangesOfFacts(s);
    var rs := RangesOf(s);
    assert forall x: u32 :: x in s <==> Covers(rs, x);
    if rs != [] { FirstRun(rs); }
  }

  /** That end is unique: any m with 0..=m held and m + 1 missing is it. */
  lemma ContiguousEndUnique(s: set<u32>, m: u32)
    requires Below(m + 1) <= s && (m < U32_MAX ==> m + 1 !in s)
    ensures ContiguousEnd(s) == Some(m)
  {
    ContiguousEndFacts(s);
    assert 0 in Below(m + 1);
    var e := ContiguousEnd(s).value;
    var upToM, upToE := Below(m + 1), Below(e + 1);
    assert e < m ==> e + 1 in upToM;
    assert m < e ==> m + 1 in upToE;
  }

  ghost function Chwm(r: State): u32 {
    var e := ContiguousEnd(r.held + r.gaps);
    if e.None? then CHWM_NONE else e.value
  }

  ghost function MaxHeld(s: set<u32>): Option<u32> {
    if s == {} then None else Some(Latest(s))
  }

  /** The highest seq known to exist. */
  ghost function Horizon(r: State): Option<u32> {
    match (MaxHeld(r.held), r.final)
    case (Some(m), Some(f)) => Some(Max(m, f))
    case (Some(m), None) => Some(m)
    case (None, f) => f
  }

  ghost function HoleSet(r: State): set<u32> {
    match Horizon(r)
    case None => {}
    case Some(h) => Below(h + 1) - r.held - r.gaps
  }

  ghost function Holes(r: State): seq<SeqRange> { RangesOf(HoleSet(r)) }

  ghost function AckOf(r: State, stream: StreamKey): AckStatus { AckStatus(stream, Chwm(r), Holes(r)) }

  ghost predicate Complete(r: State) {
    r.final.Some? && Below(r.final.value + 1) <= r.held
  }

  ghost predicate Settled(r: State) {
    r.final.Some? && Below(r.final.value + 1) <= r.held + r.gaps
  }
}
