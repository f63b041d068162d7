/** The engine against the archive: when the one mirrors the other, an ACK claims only what is stored. */
module Mirror {
  import opened Machine
  import opened Frames
  import Receiver
  import Sender
  import AckReading
  import opened SinkEngine
  import opened Archive

  ghost predicate Holds(streams: Streams, k: StreamKey, n: u32) { k in streams && n in streams[k].held }

  ghost predicate HasRow(chunks: Chunks, k: StreamKey, n: u32) {
    ChunkKey(k.streamId, n) in chunks && chunks[ChunkKey(k.streamId, n)].takeId == k.takeId
  }

  /** Held chunks are exactly the persisted rows, with the same metadata. */
  ghost predicate Mirrors(streams: Streams, chunks: Chunks) {
    && (forall k, n :: Holds(streams, k, n) <==> HasRow(chunks, k, n))
    && (forall k :: k in streams ==> streams[k].meta.Keys == streams[k].held)
    && (forall k, n :: Holds(streams, k, n) ==>
        n in streams[k].meta && streams[k].meta[n] == chunks[ChunkKey(k.streamId, n)].meta)
  }

  lemma NothingMirrors(chunks: Chunks)
    requires chunks == map[]
    ensures Mirrors(map[], chunks)
  {
  }

  /** One more chunk held, one more row. */
  lemma AddMirrors(streams: Streams, chunks: Chunks, k: StreamKey, n: u32, recv: Receiver.State, row: ChunkRow)
    requires Mirrors(streams, chunks) && ChunkKey(k.streamId, n) !in chunks && row.takeId == k.takeId
    requires recv.held == Entry(streams, k).held + {n} && recv.meta == Entry(streams, k).meta[n := row.meta]
    ensures Mirrors(streams[k := recv], chunks[ChunkKey(k.streamId, n) := row])
  {
    var more, rows := streams[k := recv], chunks[ChunkKey(k.streamId, n) := row];
    forall j, m ensures Holds(more, j, m) <==> HasRow(rows, j, m) {
      assert Holds(streams, j, m) <==> HasRow(chunks, j, m);
      if j == k && k !in streams { assert !Holds(streams, j, m); }
    }
    forall j, m | Holds(more, j, m) ensures m in more[j].meta && more[j].meta[m] == rows[ChunkKey(j.streamId, m)].meta {
      if !(j == k && m == n) { assert Holds(streams, j, m); }
    }
  }

  /** A receiver that changed in other respects. */
  lemma SameMirrors(streams: Streams, chunks: Chunks, k: StreamKey, recv: Receiver.State)
    requires Mirrors(streams, chunks)
    requires recv.held == Entry(streams, k).held && recv.meta == Entry(streams, k).meta
    ensures Mirrors(streams[k := recv], chunks)
  {
    var more := streams[k := recv];
    forall j, m ensures Holds(more, j, m) <==> Holds(streams, j, m) { }
  }

  /** Streams deleted on both sides. */
  lemma WithoutMirrors(streams: Streams, chunks: Chunks, gone: set<StreamKey>, doomed: set<Id>, takeOf: Id -> Id)
    requires Mirrors(streams, chunks)
    requires forall key :: key in chunks ==> chunks[key].takeId == takeOf(key.streamId)
    requires forall k :: k in gone ==> k.streamId in doomed && k.takeId == takeOf(k.streamId)
    requires forall s :: s in doomed ==> StreamKey(takeOf(s), s) in gone
    ensures Mirrors(streams - gone, Without(chunks, doomed))
  {
    var fewer, rows := streams - gone, Without(chunks, doomed);
    forall j, m ensures Holds(fewer, j, m) <==> HasRow(rows, j, m) {
      assert Holds(streams, j, m) <==> HasRow(chunks, j, m);
      assert HasRow(chunks, j, m) ==> j == StreamKey(takeOf(j.streamId), j.streamId);
    }
    forall j, m | Holds(fewer, j, m)
        ensures m in fewer[j].meta && fewer[j].meta[m] == rows[ChunkKey(j.streamId, m)].meta {
      assert Holds(streams, j, m);
    }
  }

  // ---- what an ACK claims -----------------------------------------------------------------------

  /** Every seq the ACK proves to a recorder is a persisted chunk, with its blob, or a declared gap. */
  ghost predicate Honest(ack: AckStatus, chunks: Chunks, blobs: Blobs, gaps: set<u32>) {
    forall n :: n in Sender.ProvenBy(ack) ==>
      n in gaps || (HasRow(chunks, ack.stream, n) && Backed(blobs, ChunkKey(ack.stream.streamId, n),
          chunks[ChunkKey(ack.stream.streamId, n)]))
  }

  lemma AckIsHonest(streams: Streams, chunks: Chunks, blobs: Blobs, k: StreamKey)
    requires Mirrors(streams, chunks) && AllBacked(blobs, chunks) && k in streams
    ensures Honest(Receiver.AckOf(streams[k], k), chunks, blobs, streams[k].gaps)
  {
    var ack := Receiver.AckOf(streams[k], k);
    AckReading.AckReadsBack(streams[k], k);
    forall n | n in Sender.ProvenBy(ack) && n !in streams[k].gaps ensures HasRow(chunks, k, n) {
      assert Holds(streams, k, n);
    }
  }
}
