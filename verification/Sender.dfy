/** The recorder-side stream engine as a function of its state. */
module Sender {
  import opened Machine
  import opened Sets
  import opened Ranges
  import opened Frames
  import Crc32c
  import Ring

  type SinkId = u32

  datatype TakeState = Idle | Armed | Streaming | Draining | Closed

  /** What the sender tracks for one sink. */
  datatype Tx = Tx(
    connected: bool,
    proven: set<u32>,
    chwm: u32,
    queued: set<u32>,
    live: seq<u32>,
    backfill: seq<u32>,
    control: seq<Frame>,
    reported: set<u32>)

  const NEW_TX := Tx(false, {}, CHWM_NONE, {}, [], [], [], {})

  datatype State = State(
    stream: StreamKey,
    take: TakeState,
    ring: Ring.State,
    produced: set<u32>,
    nextSeq: u32,
    nextFirst: u64,
    final: Option<u32>,
    sinks: map<SinkId, Tx>)

  function New(stream: StreamKey, budget: nat): State {
    State(stream, Idle, Ring.Empty(budget), {}, 0, 0, None, map[])
  }

  function ChunkFor(stream: StreamKey, seqNo: u32, first: u64, count: u32, ts: u64, payload: seq<byte>): AudioChunk {
    AudioChunk(stream, seqNo, first, count, ts, Crc32c.Checksum(payload), payload)
  }

  // ---- take lifecycle -------------------------------------------------------

  /** Sequence numbers must stay below the CHWM_NONE sentinel, and the sample index must not overflow. */
  predicate Room(s: State, count: u32) { s.nextSeq < U32_MAX && s.nextFirst + count <= U64_MAX }

  ghost function Arm(s: State, clockEpochUs: u64, header: seq<byte>): State
    requires s.take.Idle? ==> Room(s, 0)
  {
    if !s.take.Idle? then s
    else Produce(s, ChunkFor(s.stream, 0, 0, 0, clockEpochUs, header)).(take := Streaming)
  }

  ghost function PushAudio(s: State, count: u32, ts: u64, payload: seq<byte>): State
    requires s.take.Streaming? ==> Room(s, count)
  {
    if !s.take.Streaming? then s
    else Produce(s.(nextFirst := s.nextFirst + count), ChunkFor(s.stream, s.nextSeq, s.nextFirst, count, ts, payload))
  }

  ghost function Finish(s: State): State
    requires s.take.Streaming? ==> s.nextSeq > 0
  {
    if !s.take.Streaming? then s
    else TryClose(s.(final := Some(s.nextSeq - 1), take := Draining))
  }

  function EnqueueLive(tx: Tx, s: u32): Tx {
    if s in tx.queued then tx else tx.(queued := tx.queued + {s}, live := tx.live + [s])
  }

  function EnqueueAll(sinks: map<SinkId, Tx>, s: u32): map<SinkId, Tx> {
    map id | id in sinks :: EnqueueLive(sinks[id], s)
  }

  ghost function ReportAll(stream: StreamKey, sinks: map<SinkId, Tx>, lost: set<u32>): map<SinkId, Tx> {
    map id | id in sinks :: QueueGapReport(stream, sinks[id], lost)
  }

  ghost function Produce(s: State, c: AudioChunk): State
    requires s.nextSeq < U32_MAX
  {
    BroadcastNewGaps(s.(
      nextSeq := s.nextSeq + 1,
      produced := s.produced + {c.seqNo},
      ring := Ring.Insert(s.ring, c),
      sinks := EnqueueAll(s.sinks, c.seqNo)))
  }

  /** Drain the ring's pending gaps and tell every sink once. */
  ghost function BroadcastNewGaps(s: State): State {
    var lost := s.ring.pending;
    var drained := s.(ring := s.ring.(pending := {}));
    if lost == {} then drained
    else drained.(sinks := ReportAll(s.stream, s.sinks, lost))
  }

  function GapFrames(stream: StreamKey, ranges: seq<SeqRange>): (frames: seq<Frame>)
    ensures |frames| == |SplitForFrames(ranges)|
    ensures forall i :: 0 <= i < |frames| ==> frames[i] == GapReport(RangeList(stream, SplitForFrames(ranges)[i]))
  {
    var batches := SplitForFrames(ranges);
    seq(|batches|, i requires 0 <= i < |batches| => GapReport(RangeList(stream, batches[i])))
  }

  ghost function QueueGapReport(stream: StreamKey, tx: Tx, gaps: set<u32>): Tx {
    var unreported := gaps - tx.reported;
    if unreported == {} then tx
    else tx.(control := tx.control + GapFrames(stream, RangesOf(unreported)), reported := tx.reported + unreported)
  }

  // ---- sink management --------------------------------------------------------

  /** A brand-new sink has nothing proven and is owed everything still resident. */
  ghost function NewTx(ring: Ring.State): Tx {
    NEW_TX.(queued := ring.chunks.Keys, backfill := Ascending(ring.chunks.Keys))
  }

  ghost function AddSink(s: State, id: SinkId): State {
    if id in s.sinks then s
    else s.(sinks := s.sinks[id := NewTx(s.ring)])
  }

  function RemoveSink(s: State, id: SinkId): State { s.(sinks := s.sinks - {id}) }

  /** On disconnect the unsent live chunks are demoted, in order, to the back of the backlog. */
  function Connected(tx: Tx, up: bool): Tx {
    if up then tx.(connected := up)
    else tx.(connected := up, live := [], backfill := tx.backfill + Sorted(tx.live))
  }

  function SetConnected(s: State, id: SinkId, up: bool): State {
    if id !in s.sinks then s else s.(sinks := s.sinks[id := Connected(s.sinks[id], up)])
  }

  // ---- inbound frames -----------------------------------------------------------

  /** What lies strictly between the cursor and each hole. */
  ghost function BetweenHoles(cursor: u32, holes: seq<SeqRange>): set<u32>
    decreases |holes|
  {
    if holes == [] then {}
    else
      (if holes[0].start > cursor then Span(SeqRange(cursor, holes[0].start - 1)) else {})
      + BetweenHoles(if holes[0].end == U32_MAX then U32_MAX else holes[0].end + 1, holes[1..])
  }

  /** Possession an ACK snapshot proves: 0..=chwm, and what lies strictly between holes. */
  ghost function ProvenBy(ack: AckStatus): set<u32> {
    (if ack.chwm == CHWM_NONE then {} else Span(SeqRange(0, ack.chwm)))
    + BetweenHoles(if ack.chwm == CHWM_NONE then 0 else ack.chwm + 1, ack.holes)
  }

  /** Queue, oldest first, whatever of `wanted` is resident and not already queued. */
  ghost function Requeue(tx: Tx, ring: Ring.State, wanted: set<u32>): Tx {
    var missing := (wanted * ring.chunks.Keys) - tx.queued;
    tx.(queued := tx.queued + missing, backfill := tx.backfill + Ascending(missing))
  }

  /** One sink's record after its ACK: outstanding chunks requeued, holes that are declared gaps re-reported. */
  ghost function AckTx(stream: StreamKey, tx: Tx, ring: Ring.State, proven: set<u32>, ack: AckStatus,
      produced: set<u32>): Tx {
    var requeued := Requeue(tx.(proven := proven, chwm := ack.chwm), ring, produced - proven - ring.gaps);
    var gapped := Members(ack.holes) * ring.gaps;
    if gapped == {} then requeued else QueueGapReport(stream, requeued.(reported := {}), gapped)
  }

  ghost function HandleAck(s: State, id: SinkId, ack: AckStatus): State {
    if id !in s.sinks then s
    else
      var proven := ProvenBy(ack);
      var ring := Ring.MarkAcked(s.ring, proven);
      TryClose(s.(ring := ring, sinks := s.sinks[id := AckTx(s.stream, s.sinks[id], ring, proven, ack, s.produced)]))
  }

  /** One sink's record after its request: declared gaps not reported before are reported, the rest is queued. */
  ghost function BackfillTx(stream: StreamKey, tx: Tx, ring: Ring.State, wanted: set<u32>): Tx {
    var gapped := wanted * ring.gaps;
    Requeue(if gapped == {} then tx else QueueGapReport(stream, tx, gapped), ring, wanted)
  }

  ghost function HandleBackfill(s: State, id: SinkId, ranges: seq<SeqRange>): State {
    if id !in s.sinks then s
    else
      s.(sinks := s.sinks[id := BackfillTx(s.stream, s.sinks[id], s.ring, Members(ranges))])
  }

  ghost function HandleFrame(s: State, id: SinkId, frame: Frame): State {
    match frame
    case AckFrame(ack) => if ack.stream == s.stream then HandleAck(s, id, ack) else s
    case BackfillRequest(req) => if req.stream == s.stream then HandleBackfill(s, id, req.ranges) else s
    case _ => s
  }

  // ---- outbound frames ------------------------------------------------------------

  /** Live before backlog; what the sink provably holds or the ring no longer has is skipped. */
  function PopChunk(tx: Tx, ring: Ring.State): (r: (Tx, Option<AudioChunk>))
    ensures r.0.connected == tx.connected && r.0.control == tx.control
    ensures r.1.Some? ==> |r.0.live| + |r.0.backfill| < |tx.live| + |tx.backfill|
    decreases |tx.live| + |tx.backfill|
  {
    if tx.live == [] && tx.backfill == [] then (tx, None)
    else
      var s := if tx.live != [] then tx.live[0] else tx.backfill[0];
      var rest := if tx.live != [] then tx.(live := tx.live[1..]) else tx.(backfill := tx.backfill[1..]);
      var out := rest.(queued := tx.queued - {s});
      if s in tx.proven || s !in ring.chunks then PopChunk(out, ring) else (out, Some(ring.chunks[s]))
  }

  /** Control frames first, then chunks; nothing while disconnected. */
  function PopTx(tx: Tx, ring: Ring.State): (Tx, Option<Frame>) {
    if !tx.connected then (tx, None)
    else if tx.control != [] then (tx.(control := tx.control[1..]), Some(tx.control[0]))
    else
      var (out, c) := PopChunk(tx, ring);
      (out, if c.Some? then Some(ChunkFrame(c.value)) else None)
  }

  function PopFrame(s: State, id: SinkId): (State, Option<Frame>) {
    if id !in s.sinks then (s, None)
    else
      var (tx, f) := PopTx(s.sinks[id], s.ring);
      (s.(sinks := s.sinks[id := tx]), f)
  }

  // ---- drain / completion -----------------------------------------------------------

  ghost predicate SinkSettled(s: State, id: SinkId) {
    && s.final.Some? && id in s.sinks
    && Below(s.final.value + 1) <= s.sinks[id].proven + s.ring.gaps
  }

  ghost predicate DrainedAll(s: State) {
    s.final.Some? && s.sinks != map[] && forall id :: id in s.sinks ==> SinkSettled(s, id)
  }

  ghost function TryClose(s: State): State {
    if s.take.Draining? && DrainedAll(s) then s.(take := Closed) else s
  }
}
