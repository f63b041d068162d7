/** The tasks of the server's chain: what each may assume, what it sends, and what it does when nothing fails. */
module Tasks {
  import opened Machine
  import opened Ranges
  import opened Frames
  import Receiver
  import StreamHeader
  import Wire
  import opened SinkEngine
  import opened Archive
  import opened Mirror

  datatype Task =
    | NoteTake(takeId: Id)
    | NoteTakeStop(takeId: Id)
    | NoteStream(key: StreamKey, attributed: bool)
    | SetFinalSeq(key: StreamKey, final: u32)
    | DeleteStreams(refs: seq<StreamKey>)
    | FrameArrived(bytes: seq<byte>)
    | SendAcks

  /** A stream id names one take only: what the chunk table's key relies on. */
  ghost predicate KeyOk(takeOf: Id -> Id, k: StreamKey) { k.takeId == takeOf(k.streamId) }

  ghost predicate FrameOk(takeOf: Id -> Id, bytes: seq<byte>) {
    match Wire.Layout(bytes)
    case Ok(Known(ChunkFrame(c))) => KeyOk(takeOf, c.stream)
    case Ok(Known(GapReport(list))) => KeyOk(takeOf, list.stream)
    case _ => true
  }

  /** The same of what a frame turned out to be. */
  ghost predicate ResultOk(takeOf: Id -> Id, r: IngestResult) {
    match r
    case NewChunk(c, _) => KeyOk(takeOf, c.stream)
    case Gaps(list) => KeyOk(takeOf, list.stream)
    case _ => true
  }

  ghost predicate TaskOk(takeOf: Id -> Id, task: Task) {
    match task
    case NoteStream(k, _) => KeyOk(takeOf, k)
    case SetFinalSeq(k, _) => KeyOk(takeOf, k)
    case DeleteStreams(refs) => forall i :: 0 <= i < |refs| ==> KeyOk(takeOf, refs[i])
    case FrameArrived(bytes) => FrameOk(takeOf, bytes)
    case _ => true
  }

  /** ACKs on their way out, with the receiver's declared gaps of the time. */
  datatype Sent = Sent(ack: AckStatus, gaps: set<u32>)

  ghost predicate AllHonest(acks: set<Sent>, chunks: Chunks, blobs: Blobs) {
    forall a :: a in acks ==> Honest(a.ack, chunks, blobs, a.gaps)
  }

  ghost function AcksOf(streams: Streams): set<Sent> {
    set k | k in streams :: Sent(Receiver.AckOf(streams[k], k), streams[k].gaps)
  }

  lemma AllAcksHonest(streams: Streams, chunks: Chunks, blobs: Blobs)
    requires Mirrors(streams, chunks) && AllBacked(blobs, chunks)
    ensures AllHonest(AcksOf(streams), chunks, blobs)
  {
    forall k | k in streams ensures Honest(Receiver.AckOf(streams[k], k), chunks, blobs, streams[k].gaps) {
      AckIsHonest(streams, chunks, blobs, k);
    }
  }

  /** Each tracked stream gets exactly one ACK, with the mark and the holes of its receiver. */
  lemma OneAckPerStream(streams: Streams)
    ensures forall a :: a in AcksOf(streams) ==> a.ack.stream in streams
    ensures forall k :: k in streams ==>
        && Sent(AckStatus(k, Receiver.Chwm(streams[k]), Receiver.Holes(streams[k])), streams[k].gaps) in AcksOf(streams)
        && forall a, b :: a in AcksOf(streams) && b in AcksOf(streams) && a.ack.stream == b.ack.stream == k ==> a == b
  {
  }

  // ---- what a task does ----------------------------------------------------------------------------------

  /** The server's engine and store at one moment; no engine while ingest is offline. */
  datatype View = View(engine: Option<Streams>, closed: bool, store: Store)

  /** What the caller of the engine has done about a verdict. */
  ghost predicate Acted(was: Store, now: Store, r: IngestResult, bytes: seq<byte>) {
    match r
    case NewChunk(c, continuous) =>
      && c.stream.streamId in now.streams
      && (c.seqNo == 0 || HeaderOf(now.streams, c.stream) == HeaderOf(was.streams, c.stream))
      && now == Noted(was, c.stream).(
            streams := StreamUpdated(Noted(was, c.stream).streams, c.stream.streamId, None, !continuous,
                now.streams[c.stream.streamId].headerKnown),
            chunks := Inserted(was.chunks, KeyOf(c), RowOf(c)),
            blobs := was.blobs[BlobOf(KeyOf(c), RowOf(c)) := bytes])
    case CrcConflict(c) => now == was.(streams := StreamUpdated(was.streams, c.stream.streamId, None, true, false))
    case Gaps(list) =>
      now == Noted(was, list.stream).(gaps := GapsAdded(was.gaps, list.stream.streamId, list.ranges))
    case Nothing => now == was
  }

  /** A readable header that came with a new chunk 0 is in the stream's row. */
  ghost predicate HeaderRead(rows: StreamRows, r: IngestResult) {
    match r
    case NewChunk(c, _) =>
      c.seqNo == 0 && StreamHeader.Decode(c.payload).Ok? ==>
        c.stream.streamId in rows && rows[c.stream.streamId].headerKnown
    case _ => true
  }

  /** The store with a row for the stream and its take. */
  ghost function Noted(was: Store, k: StreamKey): Store {
    was.(takes := was.takes + {k.takeId}, streams := StreamAdded(was.streams, k.streamId, k.takeId))
  }

  /** Every other stream's row is as before, and the row's take is too; a new row is the stream's. */
  ghost predicate RowsKept(was: StreamRows, now: StreamRows, k: StreamKey) {
    && now.Keys == was.Keys + {k.streamId}
    && (forall s :: s in was && s != k.streamId ==> now[s] == was[s])
    && now[k.streamId].takeId == (if k.streamId in was then was[k.streamId].takeId else k.takeId)
  }

  ghost predicate HeaderOf(rows: StreamRows, k: StreamKey) { k.streamId in rows && rows[k.streamId].headerKnown }

  ghost predicate WasFlagged(rows: StreamRows, id: Id) { id in rows && rows[id].flagged }

  ghost function FinalOf(rows: StreamRows, id: Id): Option<u32> { if id in rows then rows[id].final else None }

  /** Only this stream's receiver may have changed. */
  ghost predicate OthersSame(was: Streams, now: Streams, k: StreamKey) {
    now.Keys == was.Keys + {k} && forall j :: j in was && j != k ==> now[j] == was[j]
  }

  /** The chunk has another checksum than the one held, or it is new and disagrees with a held neighbour. */
  ghost predicate Alarming(r: Receiver.State, c: AudioChunk) {
    if c.seqNo in r.meta then r.meta[c.seqNo].crc32c != c.crc32c else Receiver.CheckContinuity(r.meta, c).Some?
  }

  /** An intact chunk is held afterwards, a new one with its own metadata; a damaged one changes nothing. */
  ghost predicate ChunkHeld(was: Streams, now: Streams, c: AudioChunk) {
    var before, after := Entry(was, c.stream), Entry(now, c.stream);
    && OthersSame(was, now, c.stream) && after.gaps == before.gaps && after.final == before.final
    && if !Receiver.Intact(c) then after == before
       else if c.seqNo in before.held then after.held == before.held && after.meta == before.meta
       else after.held == before.held + {c.seqNo} && after.meta == before.meta[c.seqNo := Receiver.MetaOf(c)]
  }

  /** A new chunk brings its own row and its own bytes; one that was held has them already. */
  ghost predicate ChunkStored(prior: Store, next: Store, before: Receiver.State, c: AudioChunk, bytes: seq<byte>) {
    var k := c.stream;
    && next.gaps == prior.gaps
    && if c.seqNo in before.held then
         next.takes == prior.takes && next.chunks == prior.chunks && next.blobs == prior.blobs
       else
         && next.takes == prior.takes + {k.takeId} && next.chunks == prior.chunks[KeyOf(c) := RowOf(c)]
         && next.blobs == prior.blobs[BlobKey(k.takeId, k.streamId, c.seqNo) := bytes]
  }

  /** The stream's row is flagged if it was, or if the chunk is alarming. */
  ghost predicate RowFlagged(prior: StreamRows, next: StreamRows, k: StreamKey, alarm: bool) {
    && RowsKept(prior, next, k) && FinalOf(next, k.streamId) == FinalOf(prior, k.streamId)
    && (WasFlagged(next, k.streamId) <==> WasFlagged(prior, k.streamId) || alarm)
  }

  ghost predicate ChunkTaken(was: View, now: View, c: AudioChunk, bytes: seq<byte>)
    requires was.engine.Some? && now.engine.Some?
  {
    var before := Entry(was.engine.value, c.stream);
    && ChunkHeld(was.engine.value, now.engine.value, c)
    && if !Receiver.Intact(c) then now.store == was.store
       else
         && ChunkStored(was.store, now.store, before, c, bytes) && HasRow(now.store.chunks, c.stream, c.seqNo)
         && RowFlagged(was.store.streams, now.store.streams, c.stream, Alarming(before, c))
         && (HeaderOf(was.store.streams, c.stream) ==> HeaderOf(now.store.streams, c.stream))
         && (HeaderOf(now.store.streams, c.stream) && !HeaderOf(was.store.streams, c.stream) ==>
               c.seqNo == 0 && 0 !in before.held)
  }

  /** The receiver knows every reported gap, and each reported start has a gap row; nothing else changes. */
  ghost predicate GapsTaken(was: View, now: View, list: RangeList)
    requires was.engine.Some? && now.engine.Some?
  {
    var k, prior, next := list.stream, was.store, now.store;
    var before, after := Entry(was.engine.value, k), Entry(now.engine.value, k);
    && OthersSame(was.engine.value, now.engine.value, k)
    && after == before.(gaps := before.gaps + Members(list.ranges))
    && next.chunks == prior.chunks && next.blobs == prior.blobs && next.takes == prior.takes + {k.takeId}
    && RowFlagged(prior.streams, next.streams, k, false) && HeaderOf(next.streams, k) == HeaderOf(prior.streams, k)
    && (forall key :: key in prior.gaps ==> key in next.gaps && next.gaps[key] == prior.gaps[key])
    && (forall i :: 0 <= i < |list.ranges| ==> ChunkKey(k.streamId, list.ranges[i].start) in next.gaps)
  }

  /** A frame that arrived has been dealt with. */
  ghost predicate FrameTaken(was: View, now: View, bytes: seq<byte>)
    requires was.engine.Some?
  {
    && now.engine.Some? && now.closed == was.closed
    && match Wire.Layout(bytes)
       case Ok(Known(ChunkFrame(c))) => ChunkTaken(was, now, c, bytes)
       case Ok(Known(GapReport(list))) => GapsTaken(was, now, list)
       case _ => now == was
  }

  /** The ACKs a round sends. */
  ghost function AcksDue(v: View): set<Sent> {
    if v.engine.None? || v.closed then {} else AcksOf(v.engine.value)
  }

  /** The row has the final seq, and the receiver too unless it knew of a higher one. */
  ghost predicate FinalTaken(was: View, now: View, k: StreamKey, final: u32) {
    var prior, next := was.store, now.store;
    && RowsKept(prior.streams, next.streams, k) && next.streams[k.streamId].final == Some(final)
    && HeaderOf(next.streams, k) == HeaderOf(prior.streams, k)
    && (WasFlagged(next.streams, k.streamId) <==> WasFlagged(prior.streams, k.streamId))
    && next == prior.(takes := prior.takes + {k.takeId}, streams := next.streams)
    && now.closed == was.closed && (now.engine.Some? <==> was.engine.Some?)
    && (was.engine.Some? ==>
          && OthersSame(was.engine.value, now.engine.value, k)
          && var before, after := Entry(was.engine.value, k), Entry(now.engine.value, k);
             && after == before.(final := after.final)
             && after.final == Some(if before.final.None? then final else Max(before.final.value, final)))
  }

  ghost predicate TakeNamed(refs: seq<StreamKey>, takeId: Id) { exists k :: k in refs && k.takeId == takeId }

  ghost predicate TakeUsed(rows: StreamRows, takeId: Id) { exists s :: s in rows && rows[s].takeId == takeId }

  /** Rows, receivers and takes left empty are gone; a blob may stay behind, but only of a deleted row. */
  ghost predicate StreamsDeleted(was: View, now: View, refs: seq<StreamKey>) {
    var prior, next, doomed := was.store, now.store, Ids(refs);
    && (forall s :: s in next.streams <==> s in prior.streams && s !in doomed)
    && (forall s :: s in next.streams ==> next.streams[s] == prior.streams[s])
    && (forall key :: key in next.chunks <==> key in prior.chunks && key.streamId !in doomed)
    && (forall key :: key in next.chunks ==> next.chunks[key] == prior.chunks[key])
    && (forall key :: key in next.gaps <==> key in prior.gaps && key.streamId !in doomed)
    && (forall key :: key in next.gaps ==> next.gaps[key] == prior.gaps[key])
    && (forall t :: t in next.takes <==> t in prior.takes && (TakeNamed(refs, t) ==> TakeUsed(next.streams, t)))
    && (forall at :: at in next.blobs ==> at in prior.blobs && next.blobs[at] == prior.blobs[at])
    && (forall at :: at in prior.blobs && at.streamId !in doomed ==> at in next.blobs)
    && now.closed == was.closed && (now.engine.Some? <==> was.engine.Some?)
    && (was.engine.Some? ==>
          now.engine.value == map k | k in was.engine.value && k !in refs :: was.engine.value[k])
  }

  /** A new chunk 0 with a readable header: the row knows the header. Only a store failure can prevent that. */
  ghost predicate HeaderTaken(task: Task, was: View, now: View) {
    match task
    case FrameArrived(bytes) =>
      (match Wire.Layout(bytes)
       case Ok(Known(ChunkFrame(c))) =>
         && was.engine.Some? && !was.closed && Receiver.Intact(c) && c.seqNo == 0
         && 0 !in Entry(was.engine.value, c.stream).held && StreamHeader.Decode(c.payload).Ok? ==>
           c.stream.streamId in now.store.streams && now.store.streams[c.stream.streamId].headerKnown
       case _ => true)
    case _ => true
  }

  /** What a task that did not fail has done, and sent. */
  ghost predicate Did(task: Task, was: View, now: View, acks: set<Sent>) {
    match task
    case NoteTake(takeId) => acks == {} && now == was.(store := was.store.(takes := was.store.takes + {takeId}))
    case NoteTakeStop(takeId) =>
      && acks == AcksDue(now)
      && now == was.(store := was.store.(takes :=
            if exists s :: s in was.store.streams && was.store.streams[s].takeId == takeId then was.store.takes
            else was.store.takes - {takeId}))
    case NoteStream(k, _) => acks == {} && now == was.(store := Noted(was.store, k))
    case SetFinalSeq(k, final) => acks == AcksDue(now) && FinalTaken(was, now, k, final)
    case DeleteStreams(refs) => acks == {} && StreamsDeleted(was, now, refs)
    case FrameArrived(bytes) =>
      && acks == {}
      && if was.engine.None? || was.closed then now == was else FrameTaken(was, now, bytes)
    case SendAcks => acks == AcksDue(now) && now == was
  }

  // ---- from the steps to the effect ----------------------------------------------------------------------

  /** What the receiver makes of a chunk, and what that makes of the frame. */
  lemma ChunkIsHeld(streams: Streams, c: AudioChunk, bytes: seq<byte>)
    requires Wire.Layout(bytes) == Ok(Wire.Known(ChunkFrame(c)))
    requires Entry(streams, c.stream).held == Entry(streams, c.stream).meta.Keys
    ensures ChunkHeld(streams, Fed(streams, bytes), c)
    ensures var before, verdict := Entry(streams, c.stream), Verdict(streams, bytes);
            if !Receiver.Intact(c) then verdict == Nothing
            else if c.seqNo !in before.held then verdict == NewChunk(c, !Alarming(before, c))
            else verdict == if Alarming(before, c) then CrcConflict(c) else Nothing
  {
    hide Receiver.Ingest, Receiver.Intact, Alarming;
    IngestFacts(Entry(streams, c.stream), c);
  }

  lemma IngestFacts(r: Receiver.State, c: AudioChunk)
    requires r.held == r.meta.Keys
    ensures var (after, outcome) := Receiver.Ingest(r, c);
            && after.gaps == r.gaps && after.final == r.final
            && if !Receiver.Intact(c) then after == r && outcome.CorruptPayload?
               else if c.seqNo in r.held then
                 && after.held == r.held && after.meta == r.meta
                 && if Alarming(r, c) then outcome.FatalCrcConflict? else outcome.Duplicate?
               else
                 && after.held == r.held + {c.seqNo} && after.meta == r.meta[c.seqNo := Receiver.MetaOf(c)]
                 && if Alarming(r, c) then outcome.ContinuityViolation? else outcome.Stored?
  {
    hide Receiver.CheckContinuity, Receiver.AddFlag;
  }

  lemma RowIsFlagged(rows: StreamRows, k: StreamKey, alarm: bool, header: bool)
    ensures RowFlagged(rows, StreamUpdated(StreamAdded(rows, k.streamId, k.takeId), k.streamId, None, alarm, header),
        k, alarm)
    ensures HeaderOf(StreamUpdated(StreamAdded(rows, k.streamId, k.takeId), k.streamId, None, alarm, header), k)
       <==> HeaderOf(rows, k) || header
  {
  }

  /** The engine first, then the store. */
  lemma ChunkIsTaken(was: View, now: View, c: AudioChunk, bytes: seq<byte>, takeOf: Id -> Id)
    requires was.engine.Some? && Mirrors(was.engine.value, was.store.chunks)
    requires NamingOf(was.store.streams, was.store.chunks, takeOf) == Unique && KeyOk(takeOf, c.stream)
    requires forall key :: key in was.store.chunks ==> key.streamId in was.store.streams
    requires Wire.Layout(bytes) == Ok(Wire.Known(ChunkFrame(c)))
    requires now.engine == Some(Fed(was.engine.value, bytes))
    requires Acted(was.store, now.store, Verdict(was.engine.value, bytes), bytes)
    ensures ChunkTaken(was, now, c, bytes)
  {
    hide ChunkHeld, RowFlagged, Verdict, Fed, Alarming, StreamUpdated, HeaderOf, Receiver.Intact;
    var streams, k, rows := was.engine.value, c.stream, was.store.streams;
    var before := Entry(streams, k);
    ReceiverMirrors(streams, was.store.chunks, k, c.seqNo);
    ChunkIsHeld(streams, c, bytes);
    if Receiver.Intact(c) {
      if c.seqNo in before.held {
        assert StreamAdded(rows, k.streamId, k.takeId) == rows;
        RowIsFlagged(rows, k, Alarming(before, c), false);
        SameRow(rows, k.streamId);
      } else {
        RowIsFlagged(rows, k, Alarming(before, c), now.store.streams[k.streamId].headerKnown);
      }
    }
  }

  lemma SameRow(rows: StreamRows, id: Id)
    ensures StreamUpdated(rows, id, None, false, false) == rows
  {
  }

  lemma ReceiverMirrors(streams: Streams, chunks: Chunks, k: StreamKey, n: u32)
    requires Mirrors(streams, chunks)
    ensures Entry(streams, k).held == Entry(streams, k).meta.Keys
    ensures n in Entry(streams, k).held <==> HasRow(chunks, k, n)
  {
    assert Holds(streams, k, n) <==> HasRow(chunks, k, n);
  }

  lemma GapsAreTaken(was: View, now: View, list: RangeList, bytes: seq<byte>)
    requires was.engine.Some? && Wire.Layout(bytes) == Ok(Wire.Known(GapReport(list)))
    requires now.engine == Some(Fed(was.engine.value, bytes))
    requires Acted(was.store, now.store, Verdict(was.engine.value, bytes), bytes)
    ensures GapsTaken(was, now, list)
  {
    GapsAddedFacts(was.store.gaps, list.stream.streamId, list.ranges);
  }

  lemma FrameIsTaken(was: View, now: View, bytes: seq<byte>, takeOf: Id -> Id)
    requires was.engine.Some? && Mirrors(was.engine.value, was.store.chunks)
    requires NamingOf(was.store.streams, was.store.chunks, takeOf) == Unique && FrameOk(takeOf, bytes)
    requires forall key :: key in was.store.chunks ==> key.streamId in was.store.streams
    requires now.engine == Some(Fed(was.engine.value, bytes)) && now.closed == was.closed
    requires Acted(was.store, now.store, Verdict(was.engine.value, bytes), bytes)
    ensures FrameTaken(was, now, bytes)
  {
    hide Acted, ChunkTaken, GapsTaken, Mirrors, NamingOf;
    match Wire.Layout(bytes) {
      case Ok(Known(ChunkFrame(c))) => ChunkIsTaken(was, now, c, bytes, takeOf);
      case Ok(Known(GapReport(list))) => GapsAreTaken(was, now, list, bytes);
      case _ => NothingTaken(was, now, bytes);
    }
  }

  lemma StreamsAreDeleted(was: View, now: View, refs: seq<StreamKey>)
    requires var prior, next := was.store, now.store;
             && next.streams == prior.streams - Ids(refs) && next.chunks == Without(prior.chunks, Ids(refs))
             && next.gaps == GapsWithout(prior.gaps, Ids(refs))
             && next.takes == prior.takes - Emptied(next.streams, refs)
             && OnlyOrphaned(prior.blobs, next.blobs, BlobsOf(prior.chunks, Ids(refs)))
    requires now.closed == was.closed
    requires now.engine == if was.engine.None? then None
                           else Some(map k | k in was.engine.value && k !in refs :: was.engine.value[k])
    ensures StreamsDeleted(was, now, refs)
  {
    forall t ensures t in Emptied(now.store.streams, refs) <==> TakeNamed(refs, t) && !TakeUsed(now.store.streams, t) {
      if TakeNamed(refs, t) && !TakeUsed(now.store.streams, t) {
        var k :| k in refs && k.takeId == t;
        assert t in Emptied(now.store.streams, refs);
      }
    }
  }

  lemma FinalIsTaken(was: View, now: View, k: StreamKey, final: u32)
    requires now.closed == was.closed
    requires now.engine == if was.engine.None? then None else
               Some(was.engine.value[k := Receiver.SetFinal(Entry(was.engine.value, k), final)])
    requires now.store == Noted(was.store, k).(streams :=
               StreamUpdated(Noted(was.store, k).streams, k.streamId, Some(final), false, false))
    ensures FinalTaken(was, now, k, final)
  {
  }

  /** A new chunk's rows, whether or not its header could be applied on the way. */
  lemma NewIsActed(prior: Store, next: Store, c: AudioChunk, continuous: bool, bytes: seq<byte>, named: StreamRows)
    requires var rows, id := Noted(prior, c.stream).streams, c.stream.streamId;
             && (named == rows || (c.seqNo == 0 && named == StreamUpdated(rows, id, None, false, true)))
             && next == Noted(prior, c.stream).(
                    streams := if continuous then named else StreamUpdated(named, id, None, true, false),
                    chunks := Inserted(prior.chunks, KeyOf(c), RowOf(c)),
                    blobs := prior.blobs[BlobOf(KeyOf(c), RowOf(c)) := bytes])
    ensures Acted(prior, next, NewChunk(c, continuous), bytes)
  {
    var id := c.stream.streamId;
    assert id in named && id in next.streams;
  }

  lemma HeaderIsTaken(was: View, now: View, bytes: seq<byte>)
    requires was.engine.Some? && Mirrors(was.engine.value, was.store.chunks)
    requires HeaderRead(now.store.streams, Verdict(was.engine.value, bytes))
    ensures HeaderTaken(FrameArrived(bytes), was, now)
  {
    hide Mirrors, Verdict, Fed, ChunkHeld, Receiver.Intact, StreamHeader.Decode;
    match Wire.Layout(bytes) {
      case Ok(Known(ChunkFrame(c))) =>
        ReceiverMirrors(was.engine.value, was.store.chunks, c.stream, c.seqNo);
        ChunkIsHeld(was.engine.value, c, bytes);
      case _ =>
    }
  }

  lemma NothingTaken(was: View, now: View, bytes: seq<byte>)
    requires was.engine.Some? && now.engine == Some(Fed(was.engine.value, bytes)) && now.closed == was.closed
    requires Acted(was.store, now.store, Verdict(was.engine.value, bytes), bytes)
    requires match Wire.Layout(bytes)
             case Ok(Known(ChunkFrame(_))) => false
             case Ok(Known(GapReport(_))) => false
             case _ => true
    ensures now == was
  {
  }
}
