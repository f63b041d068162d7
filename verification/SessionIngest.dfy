/**
 * The server's sink: tasks run one after the other on a chain; a failed task drops every peer and rebuilds the
 * engine from the archive. That is what makes an ACK a durability claim.
 */
module SessionIngest {
  import opened Machine
  import opened Ranges
  import opened Frames
  import Receiver
  import Sender
  import AckReading
  import StreamHeader
  import Wire
  import opened SinkEngine
  import opened Archive
  import opened Mirror
  import opened Rebuild
  import opened Tasks

  class SessionIngest {
    /** Null while ingest is offline. */
    var engine: SinkEngine?
    const archive: Archive
    var closed: bool
    var headerApplied: set<Id>
    var knownTakes: set<Id>
    var knownStreams: set<Id>
    /** Connected peers. */
    var peers: set<string>

    ghost function Engines(): set<object>
      reads this
    {
      if engine == null then {} else {engine}
    }

    ghost function Seen(): View
      reads this, archive, Engines()
    {
      View(if engine == null then None else Some(engine.streams), closed, archive.Books())
    }

    /** What is remembered as stored is stored: it is not stored again. */
    ghost predicate RemembersRows()
      reads this, archive
    {
      && knownTakes <= archive.takes && knownStreams <= archive.streams.Keys
      && HeadersKnown(headerApplied, archive.streams)
    }

    /** What holds between any two tasks. */
    ghost predicate AtRest()
      reads this, archive, Engines()
    {
      && archive.Sound() && archive.Naming() == Unique && RemembersRows()
      && archive !in Engines() && this !in Engines()
      && (engine != null ==> Mirrors(engine.streams, archive.chunks))
    }

    constructor (archive: Archive)
      requires archive.Sound() && archive.Naming() == Unique
      ensures AtRest() && this.archive == archive && engine == null
    {
      engine := null;
      this.archive := archive;
      closed := false;
      headerApplied, knownTakes, knownStreams, peers := {}, {}, {}, {};
    }

    /** The engine is what a rebuild from the rows gives. */
    ghost predicate FromRows()
      reads this, archive, Engines()
    {
      engine != null && Rebuilt(engine.streams, archive.streams, archive.chunks, archive.gaps)
    }

    /** Build the engine from the archive. */
    method Init() returns (ok: bool)
      requires archive.Sound() && archive.Naming() == Unique && RemembersRows()
      modifies `engine, `headerApplied, `knownTakes, `knownStreams, archive`failures
      ensures archive.Sound() && RemembersRows() && archive.failures == old(archive.failures) + (if ok then 0 else 1)
      ensures ok ==> engine != null && fresh(engine) && AtRest() && FromRows()
      ensures !ok ==> engine == old(engine)
    {
      hide Mirrors, Restored, AllBacked, NamingOf;
      var rebuilt;
      ok, rebuilt := RebuildEngine(archive);
      if ok {
        engine := rebuilt;
        knownStreams := knownStreams + archive.streams.Keys;
        knownTakes := knownTakes + (set s | s in archive.streams :: archive.streams[s].takeId);
        headerApplied := headerApplied + (set s | s in archive.streams && archive.streams[s].headerKnown);
      }
    }

    /** Fail-stop: drop the peers, forget what was known, rebuild; if even that fails, go offline. */
    method Poison()
      requires archive.Sound() && archive.Naming() == Unique
      modifies this, archive`failures
      ensures AtRest() && peers == {} && closed == old(closed)
      ensures engine == null || (fresh(engine) && FromRows())
      ensures archive.failures >= old(archive.failures) + if engine == null then 1 else 0
    {
      hide Mirrors, Rebuilt, AllBacked, NamingOf;
      peers := {};
      headerApplied, knownTakes, knownStreams := {}, {}, {};
      var ok := Init();
      if !ok { engine := null; }
    }

    /** Every open channel gets one ACK per tracked stream. */
    method EmitAcks() returns (ghost acks: set<Sent>)
      ensures acks == AcksDue(Seen())
    {
      acks := if engine == null || closed then {} else AcksOf(engine.streams);
    }

    /** Between two tasks every ACK that goes out is honest. */
    method SendAcks() returns (ghost acks: set<Sent>)
      requires AtRest()
      ensures acks == AcksDue(Seen()) && AllHonest(acks, archive.chunks, archive.blobs)
    {
      hide Mirrors, AllBacked, NamingOf, Honest, HeadersKnown;
      acks := EmitAcks();
      if engine != null { AllAcksHonest(engine.streams, archive.chunks, archive.blobs); }
    }

    method EnsureStreamPersisted(k: StreamKey, attributed: bool) returns (ok: bool)
      requires archive.Sound() && RemembersRows()
      modifies `knownTakes, `knownStreams, archive`takes, archive`streams, archive`failures
      ensures archive.Sound() && RemembersRows()
      ensures ok ==> k.streamId in archive.streams && archive.Books() == Noted(old(archive.Books()), k)
      ensures archive.failures >= old(archive.failures) + if ok then 0 else 1
      ensures old(archive.Naming()) == Unique && KeyOk(archive.takeOf, k) ==> archive.Naming() == Unique
    {
      hide Mirrors, AllBacked, NamingOf, Archive.Sound;
      if k.takeId !in knownTakes {
        ok := archive.EnsureTake(k.takeId);
        if !ok { return; }
        knownTakes := knownTakes + {k.takeId};
      }
      if k.streamId !in knownStreams || attributed {
        ok := archive.EnsureStream(k.takeId, k.streamId);
        if !ok { return; }
        knownStreams := knownStreams + {k.streamId};
      }
      ok := true;
    }

    /**
     * Engine first, then the archive. With no store failure both have the frame, except a chunk whose key another
     * take's row already has: the engine then holds it and the archive does not.
     */
    method ProcessFrame(bytes: seq<byte>) returns (ok: bool)
      requires AtRest()
      modifies `headerApplied, `knownTakes, `knownStreams, archive, Engines()
      ensures archive.Sound() && Kept(old(archive.chunks), archive.chunks)
      ensures FrameOk(archive.takeOf, bytes) ==> archive.Naming() == Unique && (ok ==> AtRest())
      ensures engine != null && !closed ==> engine.streams == Fed(old(engine.streams), bytes)
      ensures ok && engine != null && !closed ==>
        archive.chunks == Persisted(old(archive.chunks), Verdict(old(engine.streams), bytes))
      ensures archive.failures >= old(archive.failures) + if ok then 0 else 1
      ensures ok && FrameOk(archive.takeOf, bytes) ==> Did(FrameArrived(bytes), old(Seen()), Seen(), {})
      ensures ok && archive.failures == old(archive.failures) ==> HeaderTaken(FrameArrived(bytes), old(Seen()), Seen())
    {
      hide Mirrors, AllBacked, NamingOf, FrameTaken, Acted, Fed, Verdict, FrameOk, Persisted, Kept, HeadersKnown;
      PersistedKeeps(archive.chunks, if engine == null then Nothing else Verdict(engine.streams, bytes));
      if engine == null || closed { return true; }
      ghost var was := Seen();
      ghost var streams, chunks, takeOf := engine.streams, archive.chunks, archive.takeOf;
      FrameFacts(streams, chunks, bytes, Verdict(streams, bytes));
      if FrameOk(takeOf, bytes) { FrameMirrors(streams, archive.streams, chunks, bytes, takeOf); }
      var r := engine.Ingest(bytes);
      ok := Act(r, bytes);
      if ok && FrameOk(takeOf, bytes) { FrameIsTaken(was, Seen(), bytes, takeOf); }
      if ok && archive.failures == old(archive.failures) { HeaderIsTaken(was, Seen(), bytes); }
    }

    /** A frame, and the next round of ACKs. */
    method FrameThenAck(bytes: seq<byte>) returns (ok: bool, ghost acks: set<Sent>)
      requires AtRest() && engine != null && !closed
      modifies `headerApplied, `knownTakes, `knownStreams, archive, Engines()
      ensures acks == AcksOf(Fed(old(engine.streams), bytes))
      ensures ok ==> archive.chunks == Persisted(old(archive.chunks), Verdict(old(engine.streams), bytes))
      ensures archive.failures >= old(archive.failures) + if ok then 0 else 1
    {
      hide Mirrors, AllBacked, NamingOf, FrameTaken, Fed, Verdict, FrameOk, Persisted, Kept, HeadersKnown;
      ok := ProcessFrame(bytes);
      acks := EmitAcks();
    }

    /** What the caller does about a frame the engine has taken in. */
    method Act(r: IngestResult, bytes: seq<byte>) returns (ok: bool)
      requires archive.Sound() && RemembersRows()
      requires match r
               case NewChunk(c, _) =>
                 && Wire.Layout(bytes) == Ok(Wire.Known(ChunkFrame(c))) && Receiver.Intact(c)
                 && !HasRow(archive.chunks, c.stream, c.seqNo)
               case _ => true
      modifies `headerApplied, `knownTakes, `knownStreams, archive
      ensures archive.Sound() && RemembersRows()
      ensures archive.chunks == old(archive.chunks) || archive.chunks == Persisted(old(archive.chunks), r)
      ensures ok ==> archive.chunks == Persisted(old(archive.chunks), r) && Acted(old(archive.Books()),
          archive.Books(), r, bytes)
      ensures ok && archive.failures == old(archive.failures) ==> HeaderRead(archive.streams, r)
      ensures archive.failures >= old(archive.failures) + if ok then 0 else 1
      ensures old(archive.Naming()) == Unique && ResultOk(archive.takeOf, r) ==> archive.Naming() == Unique
    {
      hide Mirrors, AllBacked, NamingOf, HasRow, Receiver.Intact;
      match r {
        case NewChunk(c, continuous) =>
          ok := PersistNew(c, bytes, continuous);
        case CrcConflict(c) =>
          ok := archive.UpdateStream(c.stream.streamId, None, true, false);
        case Gaps(list) =>
          ok := EnsureStreamPersisted(list.stream, false);
          if ok { ok := archive.PersistGaps(list.stream.streamId, list.ranges); }
        case Nothing =>
          ok := true;
      }
    }

    /** Persist a chunk the engine has just accepted. */
    method PersistNew(c: AudioChunk, bytes: seq<byte>, continuous: bool) returns (ok: bool)
      requires archive.Sound() && RemembersRows() && !HasRow(archive.chunks, c.stream, c.seqNo)
      requires Wire.Layout(bytes) == Ok(Wire.Known(ChunkFrame(c))) && Receiver.Intact(c)
      modifies `headerApplied, `knownTakes, `knownStreams, archive
      ensures archive.Sound() && RemembersRows()
      ensures archive.chunks == old(archive.chunks)
           || archive.chunks == Inserted(old(archive.chunks), KeyOf(c), RowOf(c))
      ensures ok ==> archive.chunks == Inserted(old(archive.chunks), KeyOf(c), RowOf(c))
      ensures ok ==> Acted(old(archive.Books()), archive.Books(), NewChunk(c, continuous), bytes)
      ensures ok && archive.failures == old(archive.failures) ==> HeaderRead(archive.streams, NewChunk(c, continuous))
      ensures archive.failures >= old(archive.failures) + if ok then 0 else 1
      ensures old(archive.Naming()) == Unique && KeyOk(archive.takeOf, c.stream) ==> archive.Naming() == Unique
    {
      hide Mirrors, AllBacked, NamingOf, Backed, Receiver.Intact, Acted, StreamUpdated, Noted, Inserted, RowOf;
      hide HeadersKnown, Archive.Sound;
      ghost var was := archive.Books();
      ok := EnsureStreamPersisted(c.stream, false);
      if !ok { return; }
      if c.seqNo == 0 { ApplyHeader(c.stream.streamId, c.payload); }
      ghost var named := archive.streams;
      ok := StoreNew(c, bytes, continuous);
      if ok { NewIsActed(was, archive.Books(), c, continuous, bytes, named); }
    }

    /** Blob, row, and a flag if the chunk starts where it should not. */
    method StoreNew(c: AudioChunk, bytes: seq<byte>, continuous: bool) returns (ok: bool)
      requires archive.Sound() && RemembersRows() && !HasRow(archive.chunks, c.stream, c.seqNo)
      requires Wire.Layout(bytes) == Ok(Wire.Known(ChunkFrame(c))) && Receiver.Intact(c)
      requires c.stream.streamId in archive.streams
      modifies archive`streams, archive`chunks, archive`blobs, archive`failures
      ensures archive.Sound() && RemembersRows()
      ensures forall s :: s in old(archive.streams) && old(archive.streams)[s].headerKnown ==>
        s in archive.streams && archive.streams[s].headerKnown
      ensures archive.chunks == old(archive.chunks)
           || archive.chunks == Inserted(old(archive.chunks), KeyOf(c), RowOf(c))
      ensures ok ==> archive.chunks == Inserted(old(archive.chunks), KeyOf(c), RowOf(c))
      ensures ok ==> archive.blobs == old(archive.blobs)[BlobOf(KeyOf(c), RowOf(c)) := bytes]
      ensures ok ==> archive.streams == if continuous then old(archive.streams)
                                        else StreamUpdated(old(archive.streams), c.stream.streamId, None, true, false)
      ensures archive.failures >= old(archive.failures) + if ok then 0 else 1
      ensures old(archive.Naming()) == Unique && KeyOk(archive.takeOf, c.stream) ==> archive.Naming() == Unique
    {
      hide Mirrors, AllBacked, NamingOf, Backed, Receiver.Intact, StreamUpdated, Inserted, RowOf, Archive.Sound;
      ok := archive.PersistChunk(c, bytes);
      if !ok { return; }
      if !continuous { ok := archive.UpdateStream(c.stream.streamId, None, true, false); }
    }

    /** A header that cannot be read or stored is only logged; the chunk itself is archived verbatim. */
    method ApplyHeader(streamId: Id, payload: seq<byte>)
      requires archive.Sound() && RemembersRows() && streamId in archive.streams
      modifies `headerApplied, archive`streams, archive`failures
      ensures archive.Sound() && RemembersRows() && archive.streams.Keys == old(archive.streams).Keys
      ensures archive.streams == old(archive.streams)
           || archive.streams == StreamUpdated(old(archive.streams), streamId, None, false, true)
      ensures archive.failures >= old(archive.failures)
      ensures archive.failures == old(archive.failures) && StreamHeader.Decode(payload).Ok? ==>
        archive.streams[streamId].headerKnown
      ensures old(archive.Naming()) == Unique ==> archive.Naming() == Unique
    {
      if streamId in headerApplied || StreamHeader.Decode(payload).Err? { return; }
      var ok := archive.UpdateStream(streamId, None, false, true);
      if ok { headerApplied := headerApplied + {streamId}; }
    }

    /** Engine state goes first, so no peer can push the streams back; then rows and blobs. */
    method RemoveStreams(refs: seq<StreamKey>) returns (ok: bool)
      requires AtRest() && forall i :: 0 <= i < |refs| ==> KeyOk(archive.takeOf, refs[i])
      modifies `headerApplied, `knownTakes, `knownStreams, archive, Engines()
      ensures archive.Sound() && archive.Naming() == Unique
      ensures ok ==> AtRest() && archive.streams == old(archive.streams) - Ids(refs)
      ensures ok ==> archive.chunks == Without(old(archive.chunks), Ids(refs))
      ensures engine != null ==> engine.streams == old(engine.streams) - Refs(refs)
      ensures archive.failures >= old(archive.failures) + if ok then 0 else 1
      ensures ok ==> StreamsDeleted(old(Seen()), Seen(), refs)
    {
      hide Mirrors, AllBacked, NamingOf, Archive.Sound, Without, GapsWithout, Emptied, BlobsOf, OnlyOrphaned;
      hide StreamsDeleted, HeadersKnown;
      ghost var was := Seen();
      ghost var streams := if engine == null then map[] else engine.streams;
      for i := 0 to |refs|
        invariant archive.Sound()
        invariant archive.Books() == old(archive.Books()) && archive.failures == old(archive.failures)
        invariant archive.Naming() == Unique && knownTakes == old(knownTakes)
        invariant knownStreams == old(knownStreams) - Ids(refs[..i])
        invariant headerApplied == old(headerApplied) - Ids(refs[..i])
        invariant engine != null ==> engine.streams == streams - Refs(refs[..i])
      {
        OneMoreRef(refs, i);
        assert streams - Refs(refs[..i]) - {refs[i]} == streams - (Refs(refs[..i]) + {refs[i]});
        if engine != null { var _ := engine.RemoveStream(refs[i]); }
        knownStreams := knownStreams - {refs[i].streamId};
        headerApplied := headerApplied - {refs[i].streamId};
      }
      assert refs[..|refs|] == refs;
      if engine != null { RemovalMirrors(streams, archive.streams, archive.chunks, refs, archive.takeOf); }
      HeadersLeft(old(headerApplied), archive.streams, Ids(refs));
      var deletedTakes;
      ok, deletedTakes := archive.DeleteStreams(refs);
      knownTakes := knownTakes - deletedTakes;
      if ok {
        if engine != null { assert engine.streams == map k | k in streams && k !in refs :: streams[k]; }
        StreamsAreDeleted(was, Seen(), refs);
      }
    }

    /** One task's work; false when it threw. */
    method Attempt(task: Task) returns (ok: bool, ghost acks: set<Sent>)
      requires AtRest() && TaskOk(archive.takeOf, task)
      modifies `headerApplied, `knownTakes, `knownStreams, archive, Engines()
      ensures archive.Sound() && archive.Naming() == Unique
      ensures task.DeleteStreams? || Kept(old(archive.chunks), archive.chunks)
      ensures ok ==> AtRest() && AllHonest(acks, archive.chunks, archive.blobs)
      ensures ok ==> Did(task, old(Seen()), Seen(), acks)
      ensures ok && archive.failures == old(archive.failures) ==> HeaderTaken(task, old(Seen()), Seen())
      ensures archive.failures >= old(archive.failures) + if ok then 0 else 1
    {
      hide Mirrors, AllBacked, NamingOf, FrameTaken, Fed, Verdict, FrameOk, Persisted, FinalTaken, StreamsDeleted;
      hide Noted, Honest, AcksDue, Archive.Sound, HeadersKnown;
      acks := {};
      match task {
        case NoteTake(takeId) =>
          ok := archive.EnsureTake(takeId);
          if ok { knownTakes := knownTakes + {takeId}; }
        case NoteTakeStop(takeId) =>
          ok := StopTake(takeId);
          if ok { acks := SendAcks(); }
        case NoteStream(k, attributed) =>
          ok := EnsureStreamPersisted(k, attributed);
        case SetFinalSeq(k, final) =>
          ok := LearnFinal(k, final);
          if ok { acks := SendAcks(); }
        case DeleteStreams(refs) =>
          ok := RemoveStreams(refs);
        case FrameArrived(bytes) =>
          ok := ProcessFrame(bytes);
        case SendAcks =>
          acks := SendAcks();
          ok := true;
      }
    }

    method StopTake(takeId: Id) returns (ok: bool)
      requires AtRest()
      modifies `knownTakes, archive`takes, archive`failures
      ensures archive.Sound() && archive.Naming() == Unique && (ok ==> AtRest())
      ensures archive.failures >= old(archive.failures) + if ok then 0 else 1
      ensures ok ==> archive.takes == if exists s :: s in archive.streams && archive.streams[s].takeId == takeId
                                      then old(archive.takes) else old(archive.takes) - {takeId}
    {
      hide Mirrors, AllBacked, NamingOf, HeadersKnown;
      var effect;
      effect, ok := archive.Attempted();
      if !ok { return; }
      var deleted;
      ok, deleted := archive.DeleteTakeIfEmpty(takeId);
      if deleted { knownTakes := knownTakes - {takeId}; }
    }

    method LearnFinal(k: StreamKey, final: u32) returns (ok: bool)
      requires AtRest() && KeyOk(archive.takeOf, k)
      modifies `knownTakes, `knownStreams, archive`takes, archive`streams, archive`failures, Engines()
      ensures AtRest() && archive.failures >= old(archive.failures) + if ok then 0 else 1
      ensures ok ==> FinalTaken(old(Seen()), Seen(), k, final)
      ensures ok ==> k.streamId in archive.streams && archive.streams[k.streamId].final == Some(final)
      ensures ok && engine != null ==>
        engine.streams == old(engine.streams)[k := Receiver.SetFinal(Entry(old(engine.streams), k), final)]
        && (engine.streams[k].final == archive.streams[k.streamId].final
            <==> var was := Entry(old(engine.streams), k).final; was.Some? ==> was.value <= final)
    {
      hide Mirrors, AllBacked, NamingOf, FinalTaken, Archive.Sound;
      ghost var was := Seen();
      ok := EnsureStreamPersisted(k, false);
      if !ok { return; }
      if engine != null {
        SameMirrors(engine.streams, archive.chunks, k, Receiver.SetFinal(Entry(engine.streams, k), final));
        engine.SetFinalSeq(k, final);
      }
      ok := archive.UpdateStream(k.streamId, Some(final), false, false);
      if ok { FinalIsTaken(was, Seen(), k, final); }
    }

    /** One link of the chain: the task, and on any failure the fail-stop. */
    method Run(task: Task) returns (ok: bool, ghost acks: set<Sent>)
      requires AtRest() && TaskOk(archive.takeOf, task)
      modifies this, archive, Engines()
      ensures AtRest() && closed == old(closed) && (engine == old(engine) || engine == null || fresh(engine))
      ensures ok ==> Did(task, old(Seen()), Seen(), acks)
      ensures archive.failures == old(archive.failures) ==> HeaderTaken(task, old(Seen()), Seen())
      ensures archive.failures >= old(archive.failures) + if ok then 0 else 1
      ensures !ok ==> acks == {} && peers == {} && (engine == null || FromRows())
      ensures engine == null ==> old(engine) == null || archive.failures > old(archive.failures) + 1
      ensures AllHonest(acks, archive.chunks, archive.blobs)
      ensures task.DeleteStreams? || Kept(old(archive.chunks), archive.chunks)
    {
      hide Mirrors, Rebuilt, AllBacked, NamingOf, Did, Kept, HeadersKnown;
      ok, acks := Attempt(task);
      if !ok {
        acks := {};
        Poison();
      }
    }
  }

  ghost predicate HeadersKnown(ids: set<Id>, rows: StreamRows) {
    forall s :: s in ids ==> s in rows && rows[s].headerKnown
  }

  lemma HeadersLeft(ids: set<Id>, rows: StreamRows, gone: set<Id>)
    requires HeadersKnown(ids, rows)
    ensures HeadersKnown(ids - gone, rows - gone)
  {
  }

  /** No row is lost or changed. */
  ghost predicate Kept(before: Chunks, after: Chunks) {
    forall key :: key in before ==> key in after && after[key] == before[key]
  }

  lemma PersistedKeeps(chunks: Chunks, verdict: IngestResult)
    ensures Kept(chunks, chunks) && Kept(chunks, Persisted(chunks, verdict))
  {
  }

  ghost function Refs(refs: seq<StreamKey>): set<StreamKey> { set k | k in refs }

  lemma RemovalMirrors(streams: Streams, rows: StreamRows, chunks: Chunks, refs: seq<StreamKey>, takeOf: Id -> Id)
    requires Mirrors(streams, chunks) && NamingOf(rows, chunks, takeOf) == Unique
    requires forall i :: 0 <= i < |refs| ==> KeyOk(takeOf, refs[i])
    ensures Mirrors(streams - Refs(refs), Without(chunks, Ids(refs)))
  {
    forall s | s in Ids(refs) ensures StreamKey(takeOf(s), s) in Refs(refs) {
      var i :| 0 <= i < |refs| && refs[i].streamId == s;
      assert refs[i] in refs;
    }
    WithoutMirrors(streams, chunks, Refs(refs), Ids(refs), takeOf);
  }

  lemma OneMoreRef(refs: seq<StreamKey>, i: nat)
    requires i < |refs|
    ensures Refs(refs[..i + 1]) == Refs(refs[..i]) + {refs[i]}
    ensures Ids(refs[..i + 1]) == Ids(refs[..i]) + {refs[i].streamId}
  {
    assert refs[..i + 1] == refs[..i] + [refs[i]];
    forall x | x in Ids(refs[..i]) ensures x in Ids(refs[..i + 1]) {
      var j :| 0 <= j < i && refs[..i][j].streamId == x;
      assert refs[..i + 1][j].streamId == x;
    }
    assert refs[..i + 1][i].streamId == refs[i].streamId;
    forall x | x in Ids(refs[..i + 1]) && x != refs[i].streamId ensures x in Ids(refs[..i]) {
      var j :| 0 <= j < i + 1 && refs[..i + 1][j].streamId == x;
      assert refs[..i][j].streamId == x;
    }
  }

  /** What the archive holds once a verdict has been acted on without failure. */
  ghost function Persisted(chunks: Chunks, verdict: IngestResult): Chunks {
    match verdict
    case NewChunk(c, _) => Inserted(chunks, KeyOf(c), RowOf(c))
    case _ => chunks
  }

  /**
   * What feeding a frame does to the mirror: a new chunk is one the archive has no row for, and persisting it keeps
   * the mirror exactly when no other take's row has its key; anything else changes neither side.
   */
  lemma FeedFacts(streams: Streams, chunks: Chunks, bytes: seq<byte>, fed: Streams, verdict: IngestResult)
    requires Mirrors(streams, chunks)
    requires fed == Fed(streams, bytes) && verdict == Verdict(streams, bytes)
    ensures match verdict
            case NewChunk(c, _) =>
              && Wire.Layout(bytes) == Ok(Wire.Known(ChunkFrame(c))) && Receiver.Intact(c)
              && !HasRow(chunks, c.stream, c.seqNo)
              && (Mirrors(fed, Inserted(chunks, KeyOf(c), RowOf(c))) <==> KeyOf(c) !in chunks)
            case Gaps(list) => Wire.Layout(bytes) == Ok(Wire.Known(GapReport(list))) && Mirrors(fed, chunks)
            case _ => Mirrors(fed, chunks)
  {
    match Wire.Layout(bytes) {
      case Ok(Known(ChunkFrame(c))) =>
        FeedChunk(streams, chunks, c);
        ChunkVerdict(streams, bytes, c);
      case Ok(Known(GapReport(list))) =>
        SameMirrors(streams, chunks, list.stream, Receiver.RecordGaps(Entry(streams, list.stream), list.ranges));
      case _ =>
    }
  }

  lemma ChunkVerdict(streams: Streams, bytes: seq<byte>, c: AudioChunk)
    requires Wire.Layout(bytes) == Ok(Wire.Known(ChunkFrame(c)))
    ensures var (recv, outcome) := Receiver.Ingest(Entry(streams, c.stream), c);
            && Fed(streams, bytes) == streams[c.stream := recv]
            && (if outcome.Stored? then Verdict(streams, bytes) == NewChunk(c, true)
                else if outcome.ContinuityViolation? then Verdict(streams, bytes) == NewChunk(c, false)
                else Verdict(streams, bytes) == CrcConflict(c) || Verdict(streams, bytes) == Nothing)
  {
  }

  lemma FeedChunk(streams: Streams, chunks: Chunks, c: AudioChunk)
    requires Mirrors(streams, chunks)
    ensures var (recv, outcome) := Receiver.Ingest(Entry(streams, c.stream), c);
            var more := streams[c.stream := recv];
            if outcome.Stored? || outcome.ContinuityViolation? then
              && Receiver.Intact(c) && !HasRow(chunks, c.stream, c.seqNo)
              && (Mirrors(more, Inserted(chunks, KeyOf(c), RowOf(c))) <==> KeyOf(c) !in chunks)
            else Mirrors(more, chunks)
  {
    hide Receiver.CheckContinuity, Receiver.AddFlag;
    var k := c.stream;
    var (recv, outcome) := Receiver.Ingest(Entry(streams, k), c);
    if outcome.Stored? || outcome.ContinuityViolation? {
      assert !Holds(streams, k, c.seqNo);
      if KeyOf(c) !in chunks {
        AddMirrors(streams, chunks, k, c.seqNo, recv, RowOf(c));
      } else {
        assert Holds(streams[k := recv], k, c.seqNo);
      }
    } else {
      SameMirrors(streams, chunks, k, recv);
    }
  }

  lemma FrameFacts(streams: Streams, chunks: Chunks, bytes: seq<byte>, verdict: IngestResult)
    requires Mirrors(streams, chunks) && verdict == Verdict(streams, bytes)
    ensures match verdict
            case NewChunk(c, _) =>
              && Wire.Layout(bytes) == Ok(Wire.Known(ChunkFrame(c))) && Receiver.Intact(c)
              && !HasRow(chunks, c.stream, c.seqNo)
            case _ => true
  {
    FeedFacts(streams, chunks, bytes, Fed(streams, bytes), verdict);
  }

  /** Where stream ids are unique, no other take's row can be in the way. */
  lemma FrameMirrors(streams: Streams, rows: StreamRows, chunks: Chunks, bytes: seq<byte>, takeOf: Id -> Id)
    requires Mirrors(streams, chunks) && FrameOk(takeOf, bytes) && NamingOf(rows, chunks, takeOf) == Unique
    ensures Mirrors(Fed(streams, bytes), Persisted(chunks, Verdict(streams, bytes)))
    ensures Mirrors(Fed(streams, bytes), chunks) || Verdict(streams, bytes).NewChunk?
    ensures ResultOk(takeOf, Verdict(streams, bytes))
  {
    FeedFacts(streams, chunks, bytes, Fed(streams, bytes), Verdict(streams, bytes));
  }

  // ---- whole chains ------------------------------------------------------------------------------------

  /** One task: whether it succeeded, what it sent, and what it started from and left. */
  datatype Moment = Moment(ok: bool, acks: set<Sent>, was: View, now: View)

  /** What every task leaves: a task that did not fail did its work; after one that did, the rows are the state. */
  ghost predicate LinkOk(task: Task, m: Moment) {
    && (m.ok ==> Did(task, m.was, m.now, m.acks))
    && (!m.ok ==> m.acks == {} && (m.now.engine.None? || RebuiltView(m.now)))
  }

  ghost predicate RebuiltView(v: View) {
    v.engine.Some? && Rebuilt(v.engine.value, v.store.streams, v.store.chunks, v.store.gaps)
  }

  /** Each task starts from what the one before it left. */
  ghost predicate Linked(trace: seq<Moment>, first: View, last: View) {
    && (trace != [] ==> trace[0].was == first)
    && (forall i, j :: 0 <= i && j == i + 1 < |trace| ==> trace[j].was == trace[i].now)
    && last == if trace == [] then first else trace[|trace| - 1].now
  }

  /** The task was the arrival of this chunk, intact, at a live server, and did not fail. */
  ghost predicate Landed(task: Task, m: Moment, c: AudioChunk) {
    && m.ok && m.was.engine.Some? && !m.was.closed && task.FrameArrived?
    && Wire.Layout(task.bytes) == Ok(Wire.Known(ChunkFrame(c))) && Receiver.Intact(c)
  }

  /** The chunk has its row and its blob, and the engine holds it unless ingest is offline. */
  ghost predicate StillThere(v: View, k: StreamKey, n: u32) {
    && HasRow(v.store.chunks, k, n)
    && Backed(v.store.blobs, ChunkKey(k.streamId, n), v.store.chunks[ChunkKey(k.streamId, n)])
    && (v.engine.Some? ==> Holds(v.engine.value, k, n))
  }

  /** Every row has its blob, and the engine mirrors the rows. */
  ghost predicate Steady(v: View) {
    && AllBacked(v.store.blobs, v.store.chunks)
    && (v.engine.Some? ==> Mirrors(v.engine.value, v.store.chunks))
  }

  /** ACKs stay true, and landed chunks stay where they are, for as long as nothing is deleted. */
  ghost predicate Lasting(tasks: seq<Task>, trace: seq<Moment>)
    requires |trace| <= |tasks|
  {
    && (forall i, j :: 0 <= i <= j < |trace| && NoDeletion(tasks, i, j) ==>
          AllHonest(trace[i].acks, trace[j].now.store.chunks, trace[j].now.store.blobs))
    && (forall i, j, c :: 0 <= i <= j < |trace| && NoDeletion(tasks, i, j) && Landed(tasks[i], trace[i], c) ==>
          StillThere(trace[j].now, c.stream, c.seqNo))
  }

  lemma LandedIsThere(task: Task, m: Moment, c: AudioChunk)
    requires Landed(task, m, c) && LinkOk(task, m) && Steady(m.now)
    ensures StillThere(m.now, c.stream, c.seqNo)
  {
    hide Mirrors, RowFlagged, ChunkStored, Rebuilt, OthersSame, Receiver.Intact;
    assert FrameTaken(m.was, m.now, task.bytes);
    assert ChunkTaken(m.was, m.now, c, task.bytes);
    assert Holds(m.now.engine.value, c.stream, c.seqNo);
  }

  lemma StaysThere(was: View, now: View, k: StreamKey, n: u32)
    requires StillThere(was, k, n) && Kept(was.store.chunks, now.store.chunks) && Steady(now)
    ensures StillThere(now, k, n)
  {
    var key := ChunkKey(k.streamId, n);
    assert Backed(now.store.blobs, key, now.store.chunks[key]);
  }

  /** No deletion among the tasks after i, up to j. */
  ghost predicate NoDeletion(tasks: seq<Task>, i: nat, j: nat)
    requires j < |tasks|
  {
    forall x :: i < x <= j ==> !tasks[x].DeleteStreams?
  }

  /** A claim stays true as long as its rows are kept. */
  lemma StillHonest(acks: set<Sent>, chunks: Chunks, blobs: Blobs, later: Chunks, laterBlobs: Blobs)
    requires AllHonest(acks, chunks, blobs) && Kept(chunks, later) && AllBacked(laterBlobs, later)
    ensures AllHonest(acks, later, laterBlobs)
  {
    forall a, n | a in acks && n in Sender.ProvenBy(a.ack) && n !in a.gaps
      ensures HasRow(later, a.ack.stream, n) && Backed(laterBlobs, ChunkKey(a.ack.stream.streamId, n),
          later[ChunkKey(a.ack.stream.streamId, n)])
    {
      assert Honest(a.ack, chunks, blobs, a.gaps);
    }
  }

  /**
   * For every chain of tasks and every way the store may fail: each task that does not fail does its work, and tasks
   * fail only if the store did. Whatever ACK a task sent, each chunk it proves is stored with its blob, then and
   * after every later task, until a stream is deleted; and so is every intact chunk that has landed.
   */
  method RunChain(ingest: SessionIngest, tasks: seq<Task>) returns (ghost trace: seq<Moment>)
    requires ingest.AtRest() && forall i :: 0 <= i < |tasks| ==> TaskOk(ingest.archive.takeOf, tasks[i])
    modifies ingest, ingest.archive, ingest.Engines()
    ensures ingest.AtRest() && |trace| == |tasks| && Linked(trace, old(ingest.Seen()), ingest.Seen())
    ensures forall i :: 0 <= i < |tasks| ==> LinkOk(tasks[i], trace[i])
    ensures ingest.archive.failures > old(ingest.archive.failures) || forall i :: 0 <= i < |tasks| ==> trace[i].ok
    ensures Lasting(tasks, trace)
  {
    hide LinkOk, Lasting, Linked, TaskOk, Rebuilt, Kept, Mirrors, AllBacked, NamingOf, HeadersKnown;
    trace := [];
    NothingYet(tasks, ingest.Seen());
    for x := 0 to |tasks|
      invariant ingest.AtRest() && |trace| == x && Linked(trace, old(ingest.Seen()), ingest.Seen())
      invariant ingest.engine == old(ingest.engine) || ingest.engine == null || fresh(ingest.engine)
      invariant ingest.archive.failures >= old(ingest.archive.failures)
      invariant ingest.archive.failures > old(ingest.archive.failures) || forall i :: 0 <= i < x ==> trace[i].ok
      invariant forall i :: 0 <= i < x ==> LinkOk(tasks[i], trace[i])
      invariant Lasting(tasks, trace)
    {
      ghost var was := ingest.Seen();
      var ok;
      ghost var acks;
      ok, acks := ingest.Run(tasks[x]);
      ghost var m := Moment(ok, acks, was, ingest.Seen());
      LinkIsOk(tasks[x], m);
      LinkedGrows(trace, old(ingest.Seen()), m);
      LastingGrows(tasks, trace, m, old(ingest.Seen()));
      trace := trace + [m];
    }
  }

  lemma NothingYet(tasks: seq<Task>, v: View)
    ensures Lasting(tasks, []) && Linked([], v, v)
  {
  }

  lemma LinkIsOk(task: Task, m: Moment)
    requires m.ok ==> Did(task, m.was, m.now, m.acks)
    requires !m.ok ==> m.acks == {} && (m.now.engine.None? || RebuiltView(m.now))
    ensures LinkOk(task, m)
  {
  }

  lemma LinkedGrows(trace: seq<Moment>, first: View, m: Moment)
    requires Linked(trace, first, m.was)
    ensures Linked(trace + [m], first, m.now)
  {
    var more := trace + [m];
    assert forall i :: 0 <= i < |trace| ==> more[i] == trace[i];
  }

  /** One more task. */
  lemma LastingGrows(tasks: seq<Task>, trace: seq<Moment>, m: Moment, first: View)
    requires |trace| < |tasks| && Lasting(tasks, trace) && Linked(trace, first, m.was)
    requires LinkOk(tasks[|trace|], m) && Steady(m.now) && AllHonest(m.acks, m.now.store.chunks, m.now.store.blobs)
    requires tasks[|trace|].DeleteStreams? || Kept(m.was.store.chunks, m.now.store.chunks)
    ensures Lasting(tasks, trace + [m])
  {
    hide LinkOk, Steady, AllHonest, Kept, Landed, StillThere;
    var x, more := |trace|, trace + [m];
    assert forall i :: 0 <= i < x ==> more[i] == trace[i];
    assert x > 0 ==> trace[x - 1].now == m.was;
    forall i, j | 0 <= i <= j <= x && NoDeletion(tasks, i, j)
      ensures AllHonest(more[i].acks, more[j].now.store.chunks, more[j].now.store.blobs)
    {
      if i < j == x {
        assert NoDeletion(tasks, i, x - 1);
        HonestSteady(trace[i].acks, trace[x - 1].now, m.now);
      }
    }
    forall i, j, c | 0 <= i <= j <= x && NoDeletion(tasks, i, j) && Landed(tasks[i], more[i], c)
      ensures StillThere(more[j].now, c.stream, c.seqNo)
    {
      if i == x {
        LandedIsThere(tasks[x], m, c);
      } else if j == x {
        assert NoDeletion(tasks, i, x - 1);
        StaysThere(trace[x - 1].now, m.now, c.stream, c.seqNo);
      }
    }
  }

  lemma HonestSteady(acks: set<Sent>, was: View, now: View)
    requires AllHonest(acks, was.store.chunks, was.store.blobs) && Steady(now)
    requires Kept(was.store.chunks, now.store.chunks)
    ensures AllHonest(acks, now.store.chunks, now.store.blobs)
  {
    StillHonest(acks, was.store.chunks, was.store.blobs, now.store.chunks, now.store.blobs);
  }

  /** A chunk held without a row, and vouched for, is a false claim. */
  lemma FalseClaim(streams: Streams, chunks: Chunks, blobs: Blobs, k: StreamKey, n: u32)
    requires k in streams && n in streams[k].held && n !in streams[k].gaps && !HasRow(chunks, k, n)
    requires AckReading.Vouched(Receiver.AckOf(streams[k], k), n)
    ensures !AllHonest(AcksOf(streams), chunks, blobs)
  {
    AckReading.AckReadsBack(streams[k], k);
    var sent := Sent(Receiver.AckOf(streams[k], k), streams[k].gaps);
    assert sent in AcksOf(streams) && n in Sender.ProvenBy(sent.ack);
  }

  /** A receiver whose only chunk is the first one acknowledges it. */
  lemma FirstIsVouched(c: AudioChunk)
    requires Receiver.Intact(c) && c.seqNo == 0
    ensures var (recv, outcome) := Receiver.Ingest(Receiver.NEW, c);
            && outcome == Receiver.Stored && 0 in recv.held && 0 !in recv.gaps
            && AckReading.Vouched(Receiver.AckOf(recv, c.stream), 0)
  {
    var recv := Receiver.Ingest(Receiver.NEW, c).0;
    assert AckReading.InRange(recv);
    AckReading.MarkFacts(recv);
  }

  /**
   * Why stream ids must be unique per take: the chunk table is keyed by stream id and seq alone. Let one take have
   * the first row of a stream id, and let another take's stream start under the same id: with every store
   * operation succeeding, the very next ACK proves a chunk that was never stored.
   */
  method SharedStreamIdLies(ingest: SessionIngest, c: AudioChunk, bytes: seq<byte>)
    returns (ok: bool, ghost acks: set<Sent>)
    requires ingest.AtRest() && ingest.engine != null && !ingest.closed
    requires Wire.Layout(bytes) == Ok(Wire.Known(ChunkFrame(c))) && Receiver.Intact(c) && c.seqNo == 0
    requires KeyOf(c) in ingest.archive.chunks && ingest.archive.chunks[KeyOf(c)].takeId != c.stream.takeId
    requires c.stream !in ingest.engine.streams
    modifies ingest, ingest.archive, ingest.Engines()
    ensures ok ==> !AllHonest(acks, ingest.archive.chunks, ingest.archive.blobs)
  {
    ghost var streams, chunks := ingest.engine.streams, ingest.archive.chunks;
    ok, acks := ingest.FrameThenAck(bytes);
    if ok {
      NextAckLies(streams, chunks, c, bytes, acks, ingest.archive.chunks, ingest.archive.blobs);
    }
  }

  lemma NextAckLies(
    streams: Streams, chunks: Chunks, c: AudioChunk, bytes: seq<byte>, acks: set<Sent>, now: Chunks, blobs: Blobs)
    requires Wire.Layout(bytes) == Ok(Wire.Known(ChunkFrame(c))) && Receiver.Intact(c) && c.seqNo == 0
    requires KeyOf(c) in chunks && chunks[KeyOf(c)].takeId != c.stream.takeId && c.stream !in streams
    requires acks == AcksOf(Fed(streams, bytes)) && now == Persisted(chunks, Verdict(streams, bytes))
    ensures !AllHonest(acks, now, blobs)
  {
    FirstIsVouched(c);
    FalseClaim(Fed(streams, bytes), chunks, blobs, c.stream, 0);
  }
}
