/** Crash rebuild: a fresh engine from the stored rows, and how much of the receivers that restores. */
module Rebuild {
  import opened Machine
  import opened Ranges
  import opened Frames
  import Receiver
  import ReceiverRuns
  import ReadSide
  import opened SinkEngine
  import opened Archive
  import opened Mirror

  /** The rows replayed so far. */
  ghost function Only(chunks: Chunks, done: set<ChunkKey>): Chunks { map key | key in chunks && key in done ::
      chunks[key] }

  lemma ReplayMirrors(streams: Streams, chunks: Chunks, done: set<ChunkKey>, key: ChunkKey)
    requires Mirrors(streams, Only(chunks, done)) && key in chunks && key !in done
    ensures var row := chunks[key];
            var k := StreamKey(row.takeId, key.streamId);
            Mirrors(streams[k := Receiver.RebuildOne(Entry(streams, k), key.seqNo, row.meta)], Only(chunks,
                done + {key}))
  {
    var row := chunks[key];
    var k := StreamKey(row.takeId, key.streamId);
    AddMirrors(streams, Only(chunks, done), k, key.seqNo, Receiver.RebuildOne(Entry(streams, k), key.seqNo,
        row.meta), row);
    assert Only(chunks, done + {key}) == Only(chunks, done)[key := row];
  }

  // ---- what else the rows say about a stream ---------------------------------------------------------

  ghost function FinalRow(rows: StreamRows, k: StreamKey): Option<u32> {
    if k.streamId in rows && rows[k.streamId].takeId == k.takeId then rows[k.streamId].final else None
  }

  /** A gap row of the stream declares x lost. */
  ghost predicate GapRow(rows: StreamRows, gaps: Gaps, k: StreamKey, x: u32) {
    k.streamId in rows && rows[k.streamId].takeId == k.takeId && Declared(gaps, k.streamId, x)
  }

  /** The receiver's final seq and gaps are those of the rows, and it starts without flags. */
  ghost predicate Restores(r: Receiver.State, finals: StreamRows, rows: StreamRows, gaps: Gaps, k: StreamKey) {
    && r.final == FinalRow(finals, k) && r.flags == []
    && forall x: u32 :: x in r.gaps <==> GapRow(rows, gaps, k, x)
  }

  ghost predicate Restored(streams: Streams, finals: StreamRows, rows: StreamRows, gaps: Gaps) {
    forall k :: Restores(Entry(streams, k), finals, rows, gaps, k)
  }

  lemma NothingRestored(rows: StreamRows)
    ensures Restored(map[], map[], rows, map[])
  {
  }

  ghost function OnlyRows(rows: StreamRows, done: set<Id>): StreamRows { map s | s in rows && s in done :: rows[s] }

  ghost function OnlyGaps(gaps: Gaps, done: set<ChunkKey>): Gaps { map key | key in gaps && key in done :: gaps[key] }

  /** A chunk row says nothing of final seqs and gaps. */
  lemma ChunkRestores(streams: Streams, rows: StreamRows, k: StreamKey, n: u32, m: Receiver.ChunkMeta)
    requires Restored(streams, map[], rows, map[])
    ensures Restored(streams[k := Receiver.RebuildOne(Entry(streams, k), n, m)], map[], rows, map[])
  {
    var more := streams[k := Receiver.RebuildOne(Entry(streams, k), n, m)];
    forall j ensures Restores(Entry(more, j), map[], rows, map[], j) {
      assert Restores(Entry(streams, j), map[], rows, map[], j);
    }
  }

  /** One stream row's final seq, if it has one. */
  lemma FinalRestores(streams: Streams, rows: StreamRows, done: set<Id>, s: Id)
    requires Restored(streams, OnlyRows(rows, done), rows, map[]) && s in rows && s !in done
    ensures var k := StreamKey(rows[s].takeId, s);
            var out := if rows[s].final.None? then streams
                       else streams[k := Receiver.SetFinal(Entry(streams, k), rows[s].final.value)];
            Restored(out, OnlyRows(rows, done + {s}), rows, map[])
  {
    var k := StreamKey(rows[s].takeId, s);
    var out := if rows[s].final.None? then streams
               else streams[k := Receiver.SetFinal(Entry(streams, k), rows[s].final.value)];
    forall j ensures Restores(Entry(out, j), OnlyRows(rows, done + {s}), rows, map[], j) {
      assert Restores(Entry(streams, j), OnlyRows(rows, done), rows, map[], j);
    }
  }

  /** One gap row, if its stream has a row. */
  lemma GapRestores(streams: Streams, rows: StreamRows, gaps: Gaps, done: set<ChunkKey>, key: ChunkKey)
    requires Restored(streams, rows, rows, OnlyGaps(gaps, done)) && key in gaps && key !in done
    ensures key.streamId !in rows ==> Restored(streams, rows, rows, OnlyGaps(gaps, done + {key}))
    ensures key.streamId in rows ==>
              var k := StreamKey(rows[key.streamId].takeId, key.streamId);
              var r := SeqRange(key.seqNo, gaps[key]);
              Restored(streams[k := Receiver.RecordGaps(Entry(streams, k), [r])], rows, rows,
                  OnlyGaps(gaps, done + {key}))
  {
    if key.streamId in rows {
      var k, r := StreamKey(rows[key.streamId].takeId, key.streamId), SeqRange(key.seqNo, gaps[key]);
      var out := streams[k := Receiver.RecordGaps(Entry(streams, k), [r])];
      forall j ensures Restores(Entry(out, j), rows, rows, OnlyGaps(gaps, done + {key}), j) {
        assert Restores(Entry(streams, j), rows, rows, OnlyGaps(gaps, done), j);
        OneMoreGapRow(rows, gaps, done, key, j);
        if j == k { OnlySpan(r); }
      }
    } else {
      forall j ensures Restores(Entry(streams, j), rows, rows, OnlyGaps(gaps, done + {key}), j) {
        assert Restores(Entry(streams, j), rows, rows, OnlyGaps(gaps, done), j);
        OneMoreGapRow(rows, gaps, done, key, j);
      }
    }
  }

  lemma OnlySpan(r: SeqRange)
    ensures forall x: u32 :: x in Members([r]) <==> r.start <= x <= r.end
  {
    forall x: u32 ensures x in Members([r]) <==> r.start <= x <= r.end {
      if r.start <= x <= r.end { assert [r][0].Contains(x); }
    }
  }

  lemma OneMoreGapRow(rows: StreamRows, gaps: Gaps, done: set<ChunkKey>, key: ChunkKey, j: StreamKey)
    requires key in gaps
    ensures forall x: u32 :: GapRow(rows, OnlyGaps(gaps, done + {key}), j, x) <==>
              GapRow(rows, OnlyGaps(gaps, done), j, x)
              || (j.streamId == key.streamId && j.streamId in rows && rows[j.streamId].takeId == j.takeId
                  && key.seqNo <= x <= gaps[key])
  {
    var was, now := OnlyGaps(gaps, done), OnlyGaps(gaps, done + {key});
    forall x: u32
      ensures Declared(now, j.streamId, x) <==>
                Declared(was, j.streamId, x) || (j.streamId == key.streamId && key.seqNo <= x <= gaps[key])
    {
      if Declared(was, j.streamId, x) {
        var other :| other in was && other.streamId == j.streamId && other.seqNo <= x <= was[other];
        assert other in now && now[other] == was[other];
      }
      if j.streamId == key.streamId && key.seqNo <= x <= gaps[key] { assert key in now && now[key] == gaps[key]; }
    }
  }

  // ---- the replay ------------------------------------------------------------------------------------

  /** What the rows say of every stream: chunks, final seq and gaps. */
  ghost predicate Rebuilt(streams: Streams, rows: StreamRows, chunks: Chunks, gaps: Gaps) {
    Mirrors(streams, chunks) && Restored(streams, rows, rows, gaps)
  }

  /** Replay every stored row, final seq and gap into a fresh engine; reading the archive may fail. */
  method RebuildEngine(archive: Archive) returns (ok: bool, engine: SinkEngine)
    requires archive.Sound()
    modifies archive`failures
    ensures fresh(engine) && archive.Sound() && archive.failures == old(archive.failures) + (if ok then 0 else 1)
    ensures ok ==> Rebuilt(engine.streams, archive.streams, archive.chunks, archive.gaps)
  {
    hide Restored, Mirrors;
    engine := new SinkEngine();
    var read;
    read, ok := archive.Attempted();
    if !ok { return; }
    ReplayChunks(engine, archive);
    ReplayFinals(engine, archive);
    ReplayGaps(engine, archive);
  }

  method ReplayChunks(engine: SinkEngine, archive: Archive)
    requires engine.streams == map[]
    modifies engine
    ensures Mirrors(engine.streams, archive.chunks) && Restored(engine.streams, map[], archive.streams, map[])
  {
    hide Restored, Mirrors;
    var chunks := archive.chunks;
    var left := chunks.Keys;
    ghost var done: set<ChunkKey> := {};
    assert Only(chunks, {}) == map[];
    NothingMirrors(Only(chunks, {}));
    NothingRestored(archive.streams);
    while left != {}
      invariant done + left == chunks.Keys && done !! left && Mirrors(engine.streams, Only(chunks, done))
      invariant Restored(engine.streams, map[], archive.streams, map[])
      decreases left
    {
      var key :| key in left;
      left := left - {key};
      var k := StreamKey(chunks[key].takeId, key.streamId);
      ReplayMirrors(engine.streams, chunks, done, key);
      ChunkRestores(engine.streams, archive.streams, k, key.seqNo, chunks[key].meta);
      engine.RebuildChunk(k, key.seqNo, chunks[key].meta);
      done := done + {key};
    }
    assert Only(chunks, done) == chunks;
  }

  method ReplayFinals(engine: SinkEngine, archive: Archive)
    requires Mirrors(engine.streams, archive.chunks) && Restored(engine.streams, map[], archive.streams, map[])
    modifies engine
    ensures Mirrors(engine.streams, archive.chunks)
    ensures Restored(engine.streams, archive.streams, archive.streams, map[])
  {
    hide Restored, Mirrors;
    var rows := archive.streams;
    var left := rows.Keys;
    ghost var done: set<Id> := {};
    assert OnlyRows(rows, {}) == map[];
    while left != {}
      invariant done + left == rows.Keys && done !! left && Mirrors(engine.streams, archive.chunks)
      invariant Restored(engine.streams, OnlyRows(rows, done), rows, map[])
      decreases left
    {
      var s :| s in left;
      left := left - {s};
      FinalRestores(engine.streams, rows, done, s);
      if rows[s].final.Some? {
        var k, final := StreamKey(rows[s].takeId, s), rows[s].final.value;
        SameMirrors(engine.streams, archive.chunks, k, Receiver.SetFinal(Entry(engine.streams, k), final));
        engine.SetFinalSeq(k, final);
      }
      done := done + {s};
    }
    assert OnlyRows(rows, done) == rows;
  }

  method ReplayGaps(engine: SinkEngine, archive: Archive)
    requires Mirrors(engine.streams, archive.chunks)
    requires Restored(engine.streams, archive.streams, archive.streams, map[])
    modifies engine
    ensures Rebuilt(engine.streams, archive.streams, archive.chunks, archive.gaps)
  {
    hide Restored, Mirrors;
    var rows, gaps := archive.streams, archive.gaps;
    var left := gaps.Keys;
    ghost var done: set<ChunkKey> := {};
    assert OnlyGaps(gaps, {}) == map[];
    while left != {}
      invariant done + left == gaps.Keys && done !! left && Mirrors(engine.streams, archive.chunks)
      invariant Restored(engine.streams, rows, rows, OnlyGaps(gaps, done))
      decreases left
    {
      var key :| key in left;
      left := left - {key};
      GapRestores(engine.streams, rows, gaps, done, key);
      if key.streamId in rows {
        var k := StreamKey(rows[key.streamId].takeId, key.streamId);
        var r := SeqRange(key.seqNo, gaps[key]);
        SameMirrors(engine.streams, archive.chunks, k, Receiver.RecordGaps(Entry(engine.streams, k), [r]));
        engine.RebuildGap(k, r);
      }
      done := done + {key};
    }
    assert OnlyGaps(gaps, done) == gaps;
  }

  // ---- what a restart restores -------------------------------------------------------------------------

  /** These chunk rows and gap ranges, in any order, are the stream's stored ones. */
  ghost predicate Lists(listed: seq<(u32, Receiver.ChunkMeta)>, lost: seq<SeqRange>, rows: StreamRows, chunks: Chunks,
      gaps: Gaps, k: StreamKey) {
    && (forall n: u32, m :: (n, m) in listed <==> HasRow(chunks, k, n) && chunks[ChunkKey(k.streamId, n)].meta == m)
    && (forall x: u32 :: x in Members(lost) <==> GapRow(rows, gaps, k, x))
  }

  /** Each rebuilt receiver is a fresh one that was fed the stored rows. */
  lemma RebuiltFromRows(streams: Streams, rows: StreamRows, chunks: Chunks, gaps: Gaps, k: StreamKey,
      listed: seq<(u32, Receiver.ChunkMeta)>, lost: seq<SeqRange>)
    requires Rebuilt(streams, rows, chunks, gaps) && Lists(listed, lost, rows, chunks, gaps, k)
    ensures Entry(streams, k) == ReceiverRuns.Rebuilt(listed, FinalRow(rows, k), lost)
  {
    var r := Entry(streams, k);
    assert Restores(r, rows, rows, gaps, k);
    HeldAreRows(streams, chunks, k);
    forall row | row in listed ensures row.0 in r.meta && row.1 == r.meta[row.0] { assert (row.0, row.1) in listed; }
    ReceiverRuns.RebuildRowsFacts(Receiver.NEW, listed, r.meta);
    var out := ReceiverRuns.RebuildRows(Receiver.NEW, listed);
    forall n | n in r.meta ensures n in out.meta { assert (n, r.meta[n]) in listed; }
    assert out.meta == r.meta;
    assert {} + Members(lost) == r.gaps;
  }

  lemma HeldAreRows(streams: Streams, chunks: Chunks, k: StreamKey)
    requires Mirrors(streams, chunks)
    ensures var r := Entry(streams, k);
            && r.held == r.meta.Keys && (forall n: u32 :: n in r.held <==> HasRow(chunks, k, n))
            && (forall n: u32 :: n in r.held ==> r.meta[n] == chunks[ChunkKey(k.streamId, n)].meta)
  {
    var r := Entry(streams, k);
    forall n: u32 ensures n in r.held <==> HasRow(chunks, k, n) {
      assert Holds(streams, k, n) <==> HasRow(chunks, k, n);
    }
    forall n: u32 | n in r.held ensures r.meta[n] == chunks[ChunkKey(k.streamId, n)].meta {
      assert Holds(streams, k, n);
    }
  }

  /**
   * A restart gives back a receiver whose chunks are all stored, marks, holes and verdicts included, if and only if
   * its final seq is in the stream row and its gaps are those of the gap rows.
   */
  lemma RestartRestores(streams: Streams, rows: StreamRows, chunks: Chunks, gaps: Gaps, was: Streams, k: StreamKey)
    requires Rebuilt(streams, rows, chunks, gaps) && Mirrors(was, chunks)
    ensures var r := Entry(was, k);
            ReceiverRuns.SameBut(r, Entry(streams, k))
            <==> r.final == FinalRow(rows, k) && forall x: u32 :: x in r.gaps <==> GapRow(rows, gaps, k, x)
  {
    var r, out := Entry(was, k), Entry(streams, k);
    assert Restores(out, rows, rows, gaps, k);
    HeldAreRows(streams, chunks, k);
    HeldAreRows(was, chunks, k);
    assert r.held == out.held && r.meta == out.meta;
    if r.final == FinalRow(rows, k) && forall x: u32 :: x in r.gaps <==> GapRow(rows, gaps, k, x) {
      assert r.gaps == out.gaps;
      ReceiverRuns.SameStatus(r, out);
    }
  }

  /** After a rebuild the queries over the rows and the engine give the same verdict on every stream. */
  lemma RowsTellStatus(streams: Streams, rows: StreamRows, chunks: Chunks, gaps: Gaps, k: StreamKey, have: set<u32>,
      lost: set<u32>)
    requires Rebuilt(streams, rows, chunks, gaps)
    requires forall n: u32 :: n in have <==> HasRow(chunks, k, n)
    requires forall x: u32 :: x in lost <==> GapRow(rows, gaps, k, x)
    ensures var r := Entry(streams, k);
            && (ReadSide.QuerySettled(have, lost, FinalRow(rows, k)) <==> Receiver.Settled(r))
            && (ReadSide.NoStray(r) ==> ReadSide.QueryHoles(have, lost, FinalRow(rows, k)) == Receiver.Holes(r))
            && r.held == have && r.gaps == lost
  {
    var r := Entry(streams, k);
    assert Restores(r, rows, rows, gaps, k);
    HeldAreRows(streams, chunks, k);
    assert r.held == have && r.gaps == lost;
    ReadSide.SettledAgrees(r);
    ReadSide.HolesAgree(r);
  }
}
