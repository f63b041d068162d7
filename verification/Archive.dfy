/**
 * The server's durable store: rows and blobs. Every operation may fail, before or after taking effect; the caller
 * only learns that it failed.
 */
module Archive {
  import opened Machine
  import opened Ranges
  import opened Frames
  import Receiver
  import Wire

  datatype StreamRow = StreamRow(takeId: Id, final: Option<u32>, flagged: bool, headerKnown: bool)

  datatype ChunkRow = ChunkRow(takeId: Id, meta: Receiver.ChunkMeta)

  datatype BlobKey = BlobKey(takeId: Id, streamId: Id, seqNo: u32)

  /** The primary key of a chunk row. */
  datatype ChunkKey = ChunkKey(streamId: Id, seqNo: u32)

  type StreamRows = map<Id, StreamRow>
  type Chunks = map<ChunkKey, ChunkRow>
  type Gaps = map<ChunkKey, u32>
  type Blobs = map<BlobKey, seq<byte>>

  /** Everything stored, at one moment. */
  datatype Store = Store(takes: set<Id>, streams: StreamRows, chunks: Chunks, gaps: Gaps, blobs: Blobs)

  /** The blob is the very frame its row describes. */
  ghost predicate Backed(blobs: Blobs, key: ChunkKey, row: ChunkRow) {
    var at := BlobKey(row.takeId, key.streamId, key.seqNo);
    && at in blobs
    && match Wire.Layout(blobs[at])
       case Ok(Known(ChunkFrame(c))) =>
         c.stream == StreamKey(row.takeId, key.streamId) && c.seqNo == key.seqNo && Receiver.MetaOf(c) == row.meta
             && Receiver.Intact(c)
       case _ => false
  }

  function BlobOf(key: ChunkKey, row: ChunkRow): BlobKey { BlobKey(row.takeId, key.streamId, key.seqNo) }

  function KeyOf(c: AudioChunk): ChunkKey { ChunkKey(c.stream.streamId, c.seqNo) }

  function RowOf(c: AudioChunk): ChunkRow { ChunkRow(c.stream.takeId, Receiver.MetaOf(c)) }

  /** On conflict, do nothing. */
  function Inserted(chunks: Chunks, key: ChunkKey, row: ChunkRow): Chunks {
    if key in chunks then chunks else chunks[key := row]
  }

  function StreamAdded(streams: StreamRows, id: Id, takeId: Id): StreamRows {
    if id in streams then streams else streams[id := StreamRow(takeId, None, false, false)]
  }

  /** The stream's row, if there is one, with what an update sets. */
  function StreamUpdated(streams: StreamRows, id: Id, final: Option<u32>, flag: bool, header: bool): StreamRows {
    if id !in streams then streams
    else
      var row := streams[id];
      streams[id := row.(final := if final.Some? then final else row.final,
                         flagged := row.flagged || flag, headerKnown := row.headerKnown || header)]
  }

  function GapAdded(gaps: Gaps, id: Id, r: SeqRange): Gaps {
    var key := ChunkKey(id, r.start);
    if key in gaps then gaps else gaps[key := r.end]
  }

  /** One gap row per range, in order; a range that starts where a row does adds none. */
  function GapsAdded(gaps: Gaps, id: Id, ranges: seq<SeqRange>): Gaps
    decreases |ranges|
  {
    if ranges == [] then gaps
    else GapAdded(GapsAdded(gaps, id, ranges[..|ranges| - 1]), id, ranges[|ranges| - 1])
  }

  /** The first range with this start. */
  predicate FirstAt(ranges: seq<SeqRange>, i: nat)
    requires i < |ranges|
  {
    forall j :: 0 <= j < i ==> ranges[j].start != ranges[i].start
  }

  /**
   * Afterwards every start has a row, and no row that was there has changed; a new row is the stream's, and ends
   * where the first range with its start does.
   */
  lemma {:induction false} GapsAddedFacts(gaps: Gaps, id: Id, ranges: seq<SeqRange>)
    ensures var out := GapsAdded(gaps, id, ranges);
            && (forall key :: key in gaps ==> key in out && out[key] == gaps[key])
            && (forall i :: 0 <= i < |ranges| ==> ChunkKey(id, ranges[i].start) in out)
            && (forall key :: key in out && key !in gaps ==> key.streamId == id && exists i ::
                  0 <= i < |ranges| && ranges[i] == SeqRange(key.seqNo, out[key]) && FirstAt(ranges, i))
    decreases |ranges|
  {
    if ranges != [] {
      var front, last := ranges[..|ranges| - 1], ranges[|ranges| - 1];
      var before, out := GapsAdded(gaps, id, front), GapsAdded(gaps, id, ranges);
      GapsAddedFacts(gaps, id, front);
      forall i | 0 <= i < |ranges| ensures ChunkKey(id, ranges[i].start) in out {
        if i < |front| { assert ChunkKey(id, front[i].start) in before; }
      }
      forall key | key in out && key !in gaps
        ensures key.streamId == id && exists i ::
                  0 <= i < |ranges| && ranges[i] == SeqRange(key.seqNo, out[key]) && FirstAt(ranges, i)
      {
        if key in before {
          var i :| 0 <= i < |front| && front[i] == SeqRange(key.seqNo, before[key]) && FirstAt(front, i);
          assert ranges[i] == front[i] && FirstAt(ranges, i);
        } else {
          forall j | 0 <= j < |front| ensures ranges[j].start != last.start {
            assert ChunkKey(id, front[j].start) in before;
          }
          assert FirstAt(ranges, |front|);
        }
      }
    }
  }

  /** Some gap row of the stream declares x lost. */
  ghost predicate Declared(gaps: Gaps, id: Id, x: u32) {
    exists key :: key in gaps && key.streamId == id && key.seqNo <= x <= gaps[key]
  }

  ghost predicate AllDeclared(gaps: Gaps, id: Id, r: SeqRange) {
    forall x: u32 :: r.start <= x <= r.end ==> Declared(gaps, id, x)
  }

  /**
   * Storing a reported gap keeps all of it if and only if no row with its start ends short of it, unless other rows
   * already declare the rest: a longer report of a known gap adds nothing.
   */
  lemma ReportKept(gaps: Gaps, id: Id, r: SeqRange)
    ensures var key := ChunkKey(id, r.start);
            AllDeclared(GapAdded(gaps, id, r), id, r)
            <==> (key in gaps && gaps[key] < r.end ==>
                    AllDeclared(gaps, id, SeqRange(Max(gaps[key] + 1, r.start), r.end)))
  {
    var key, out := ChunkKey(id, r.start), GapAdded(gaps, id, r);
    if key !in gaps {
      forall x: u32 | r.start <= x <= r.end ensures Declared(out, id, x) { assert key in out && out[key] == r.end; }
    } else {
      assert forall x: u32 :: r.start <= x <= gaps[key] ==> Declared(gaps, id, x) by { assert key in gaps; }
      if gaps[key] < r.end {
        var rest := SeqRange(Max(gaps[key] + 1, r.start), r.end);
        assert AllDeclared(gaps, id, r) ==> AllDeclared(gaps, id, rest);
      }
    }
  }

  ghost predicate AllBacked(blobs: Blobs, chunks: Chunks) {
    forall key :: key in chunks ==> Backed(blobs, key, chunks[key])
  }

  lemma BackedSame(a: Blobs, b: Blobs, key: ChunkKey, row: ChunkRow)
    requires Backed(a, key, row) && BlobOf(key, row) in b && b[BlobOf(key, row)] == a[BlobOf(key, row)]
    ensures Backed(b, key, row)
  {
  }

  /** Changing a blob no row refers to leaves every row backed. */
  lemma OthersBacked(a: Blobs, b: Blobs, chunks: Chunks, touched: set<BlobKey>)
    requires AllBacked(a, chunks) && forall key :: key in chunks ==> BlobOf(key, chunks[key]) !in touched
    requires forall at :: at in a && at !in touched ==> at in b && b[at] == a[at]
    ensures AllBacked(b, chunks)
  {
    forall key | key in chunks ensures Backed(b, key, chunks[key]) {
      assert Backed(a, key, chunks[key]);
      BlobPresent(a, key, chunks[key]);
      BackedSame(a, b, key, chunks[key]);
    }
  }

  lemma BlobPresent(blobs: Blobs, key: ChunkKey, row: ChunkRow)
    requires Backed(blobs, key, row)
    ensures BlobOf(key, row) in blobs
  {
  }

  lemma OneMoreBacked(blobs: Blobs, chunks: Chunks, key: ChunkKey, row: ChunkRow)
    requires AllBacked(blobs, chunks) && Backed(blobs, key, row)
    ensures AllBacked(blobs, chunks[key := row])
  {
    var more := chunks[key := row];
    forall k | k in more ensures Backed(blobs, k, more[k]) {
      if k != key { assert Backed(blobs, k, chunks[k]); }
    }
  }

  /** The one row a blob may already belong to keeps it when it is written again. */
  lemma SameOrOthersBacked(blobs: Blobs, chunks: Chunks, at: BlobKey, bytes: seq<byte>)
    requires AllBacked(blobs, chunks)
    requires forall key :: key in chunks && BlobOf(key, chunks[key]) == at ==> at in blobs && blobs[at] == bytes
    ensures AllBacked(blobs[at := bytes], chunks)
  {
    forall key | key in chunks ensures Backed(blobs[at := bytes], key, chunks[key]) {
      assert Backed(blobs, key, chunks[key]);
      BlobPresent(blobs, key, chunks[key]);
      BackedSame(blobs, blobs[at := bytes], key, chunks[key]);
    }
  }

  lemma FewerBacked(blobs: Blobs, chunks: Chunks, fewer: Chunks)
    requires AllBacked(blobs, chunks) && forall key :: key in fewer ==> key in chunks && fewer[key] == chunks[key]
    ensures AllBacked(blobs, fewer)
  {
    forall key | key in fewer ensures Backed(blobs, key, fewer[key]) { assert Backed(blobs, key, chunks[key]); }
  }

  datatype Naming = Unique | Shared

  /** Every row belongs to the take its stream id belongs to. */
  ghost predicate Attributed(streams: StreamRows, chunks: Chunks, takeOf: Id -> Id) {
    && (forall s :: s in streams ==> streams[s].takeId == takeOf(s))
    && (forall key :: key in chunks ==> chunks[key].takeId == takeOf(key.streamId))
  }

  ghost function NamingOf(streams: StreamRows, chunks: Chunks, takeOf: Id -> Id): Naming {
    if Attributed(streams, chunks, takeOf) then Unique else Shared
  }

  lemma FewerUnique(streams: StreamRows, chunks: Chunks, takeOf: Id -> Id, doomed: set<Id>)
    requires NamingOf(streams, chunks, takeOf) == Unique
    ensures NamingOf(streams - doomed, Without(chunks, doomed), takeOf) == Unique
  {
  }

  lemma OneMoreUnique(streams: StreamRows, chunks: Chunks, takeOf: Id -> Id, key: ChunkKey, row: ChunkRow)
    requires NamingOf(streams, chunks, takeOf) == Unique && row.takeId == takeOf(key.streamId)
    ensures NamingOf(streams, Inserted(chunks, key, row), takeOf) == Unique
  {
  }

  class Archive {
    /** The takes of this session. */
    var takes: set<Id>
    var streams: StreamRows
    var chunks: Chunks
    var gaps: Gaps
    var blobs: Blobs
    /** How many operations have failed, reported or not. */
    ghost var failures: nat
    /** The take each stream id belongs to, where ids are unique per take. */
    ghost const takeOf: Id -> Id

    ghost function Books(): Store
      reads `takes, `streams, `chunks, `gaps, `blobs
    {
      Store(takes, streams, chunks, gaps, blobs)
    }

    /** Foreign keys hold, and every chunk row has its blob. True at every moment, failures included. */
    ghost predicate Sound()
      reads this
    {
      && (forall s :: s in streams ==> streams[s].takeId in takes)
      && (forall key :: key in chunks ==> key.streamId in streams)
      && AllBacked(blobs, chunks)
      && (forall key :: key in gaps ==> key.streamId in streams)
    }

    /** Whether stream ids are unique per take, as the chunk table's key relies on. */
    ghost function Naming(): Naming
      reads `streams, `chunks
    {
      NamingOf(streams, chunks, takeOf)
    }

    constructor (ghost takeOf: Id -> Id)
      ensures Sound() && Naming() == Unique && chunks == map[] && this.takeOf == takeOf
    {
      takes := {};
      streams := map[];
      chunks := map[];
      gaps := map[];
      blobs := map[];
      failures := 0;
      this.takeOf := takeOf;
    }

    /** An operation may fail before or after taking effect; success means that it took effect. */
    method Attempted() returns (effect: bool, ok: bool)
      modifies `failures
      ensures ok ==> effect
      ensures failures == old(failures) + (if ok then 0 else 1)
    {
      effect, ok := *, *;
      ok := ok && effect;
      if !ok { failures := failures + 1; }
    }

    method EnsureTake(takeId: Id) returns (ok: bool)
      requires Sound()
      modifies `takes, `failures
      ensures Sound() && failures == old(failures) + (if ok then 0 else 1)
      ensures takes == old(takes) || takes == old(takes) + {takeId}
      ensures ok ==> takeId in takes
    {
      hide AllBacked, NamingOf;
      var effect;
      effect, ok := Attempted();
      if effect { takes := takes + {takeId}; }
    }

    /** Insert if absent; the take row must exist. A stream id already there keeps its take. */
    method EnsureStream(takeId: Id, streamId: Id) returns (ok: bool)
      requires Sound()
      modifies `streams, `failures
      ensures Sound() && failures >= old(failures) && (!ok ==> failures > old(failures) || takeId !in takes)
      ensures streams == old(streams) || streams == StreamAdded(old(streams), streamId, takeId)
      ensures ok ==> streams == StreamAdded(old(streams), streamId, takeId)
      ensures old(Naming()) == Unique && takeId == takeOf(streamId) ==> Naming() == Unique
    {
      hide AllBacked;
      if takeId !in takes { return false; }
      var effect;
      effect, ok := Attempted();
      if effect { streams := StreamAdded(streams, streamId, takeId); }
    }

    /** Writing a blob some row refers to must repeat it: chunks are immutable. */
    method PutBlob(at: BlobKey, bytes: seq<byte>) returns (ok: bool)
      requires Sound()
      requires forall key :: key in chunks && BlobOf(key, chunks[key]) == at ==> at in blobs && blobs[at] == bytes
      modifies `blobs, `failures
      ensures Sound() && failures == old(failures) + (if ok then 0 else 1)
      ensures ok ==> blobs == old(blobs)[at := bytes]
    {
      SameOrOthersBacked(blobs, chunks, at, bytes);
      var effect;
      effect, ok := Attempted();
      if effect { blobs := blobs[at := bytes]; }
    }

    /** Insert if absent; the stream row must exist. A key already there is left alone, and that is success. */
    method InsertChunk(key: ChunkKey, row: ChunkRow) returns (ok: bool)
      requires Sound() && Backed(blobs, key, row)
      modifies `chunks, `failures
      ensures Sound() && failures >= old(failures)
      ensures !ok ==> failures > old(failures) || key.streamId !in streams
      ensures chunks == old(chunks) || chunks == Inserted(old(chunks), key, row)
      ensures ok ==> chunks == Inserted(old(chunks), key, row)
      ensures old(Naming()) == Unique && row.takeId == takeOf(key.streamId) ==> Naming() == Unique
    {
      hide AllBacked, NamingOf, Backed, StreamAdded;
      if key.streamId !in streams { return false; }
      OneMoreBacked(blobs, chunks, key, row);
      if Naming() == Unique && row.takeId == takeOf(key.streamId) {
        OneMoreUnique(streams, chunks, takeOf, key, row);
      }
      var effect;
      effect, ok := Attempted();
      if effect { chunks := Inserted(chunks, key, row); }
    }

    /** Blob before row: a row implies a durable blob. */
    method PersistChunk(c: AudioChunk, bytes: seq<byte>) returns (ok: bool)
      requires Sound() && Wire.Layout(bytes) == Ok(Wire.Known(ChunkFrame(c))) && Receiver.Intact(c)
      requires KeyOf(c) in chunks && chunks[KeyOf(c)].takeId == c.stream.takeId ==>
                 BlobOf(KeyOf(c), RowOf(c)) in blobs && blobs[BlobOf(KeyOf(c), RowOf(c))] == bytes
      modifies `blobs, `chunks, `failures
      ensures Sound() && failures >= old(failures)
      ensures !ok ==> failures > old(failures) || c.stream.streamId !in streams
      ensures chunks == old(chunks) || chunks == Inserted(old(chunks), KeyOf(c), RowOf(c))
      ensures ok ==> chunks == Inserted(old(chunks), KeyOf(c), RowOf(c))
      ensures ok ==> blobs == old(blobs)[BlobOf(KeyOf(c), RowOf(c)) := bytes]
      ensures old(Naming()) == Unique && c.stream.takeId == takeOf(c.stream.streamId) ==> Naming() == Unique
    {
      hide AllBacked, NamingOf;
      ok := PutBlob(BlobKey(c.stream.takeId, c.stream.streamId, c.seqNo), bytes);
      if !ok { return false; }
      ok := InsertChunk(KeyOf(c), RowOf(c));
    }

    /** Update one stream row, if there is one. */
    method UpdateStream(streamId: Id, final: Option<u32>, flag: bool, header: bool) returns (ok: bool)
      requires Sound()
      modifies `streams, `failures
      ensures Sound() && failures == old(failures) + (if ok then 0 else 1)
      ensures streams.Keys == old(streams).Keys
      ensures forall s :: s in streams && old(streams)[s].headerKnown ==> streams[s].headerKnown
      ensures streams == old(streams) || streams == StreamUpdated(old(streams), streamId, final, flag, header)
      ensures ok ==> streams == StreamUpdated(old(streams), streamId, final, flag, header)
      ensures old(Naming()) == Unique ==> Naming() == Unique
    {
      hide AllBacked;
      var effect;
      effect, ok := Attempted();
      if effect { streams := StreamUpdated(streams, streamId, final, flag, header); }
    }

    /** Insert if absent, keyed by start; all rows of one statement or none. */
    method PersistGaps(streamId: Id, ranges: seq<SeqRange>) returns (ok: bool)
      requires Sound()
      modifies `gaps, `failures
      ensures Sound() && failures >= old(failures) && (!ok ==> failures > old(failures) || streamId !in streams)
      ensures gaps == old(gaps) || gaps == GapsAdded(old(gaps), streamId, ranges)
      ensures ok ==> gaps == GapsAdded(old(gaps), streamId, ranges)
    {
      hide AllBacked, NamingOf;
      if ranges == [] { return true; }
      if streamId !in streams { return false; }
      var effect;
      effect, ok := Attempted();
      if effect {
        for i := 0 to |ranges|
          invariant Sound() && gaps == GapsAdded(old(gaps), streamId, ranges[..i])
        invariant failures == old(failures) + (if ok then 0 else 1)
        {
          assert ranges[..i + 1][..i] == ranges[..i];
          gaps := GapAdded(gaps, streamId, ranges[i]);
        }
        assert ranges[..|ranges|] == ranges;
      }
    }

    /** Drop a take row that ended without streams. */
    method DeleteTakeIfEmpty(takeId: Id) returns (ok: bool, deleted: bool)
      requires Sound()
      modifies `takes, `failures
      ensures Sound() && failures == old(failures) + (if ok then 0 else 1)
      ensures takes == old(takes) || takes == old(takes) - {takeId}
      ensures ok ==> takes == (if deleted then old(takes) - {takeId} else old(takes))
      ensures ok ==> (deleted <==> forall s :: s in streams ==> streams[s].takeId != takeId)
      ensures deleted ==> ok
    {
      hide AllBacked, NamingOf;
      if exists s :: s in streams && streams[s].takeId == takeId { return true, false; }
      var effect;
      effect, ok := Attempted();
      if effect { takes := takes - {takeId}; }
      deleted := ok;
    }

    /** Rows first - deleting a stream row cascades to its chunks and gaps - then blobs, then empty takes. */
    method DeleteStreams(refs: seq<StreamKey>) returns (ok: bool, deletedTakes: set<Id>)
      requires Sound()
      modifies `takes, `streams, `chunks, `gaps, `blobs, `failures
      ensures Sound() && failures >= old(failures) && (!ok ==> failures > old(failures))
      ensures old(Naming()) == Unique ==> Naming() == Unique
      ensures chunks == old(chunks) || chunks == Without(old(chunks), Ids(refs))
      ensures ok ==> chunks == Without(old(chunks), Ids(refs)) && streams == old(streams) - Ids(refs)
      ensures ok ==> gaps == GapsWithout(old(gaps), Ids(refs))
      ensures ok ==> takes == old(takes) - deletedTakes && deletedTakes == Emptied(streams, refs)
      ensures OnlyOrphaned(old(blobs), blobs, BlobsOf(old(chunks), Ids(refs)))
      ensures failures == old(failures) ==> BlobsOf(old(chunks), Ids(refs)) !! blobs.Keys
    {
      hide AllBacked, NamingOf;
      var doomed := Ids(refs);
      var blobKeys: set<BlobKey>;
      ok, blobKeys := DeleteRows(doomed);
      if !ok { return false, {}; }
      DeleteBlobs(blobKeys);
      ok, deletedTakes := DeleteEmptyTakes(refs);
    }

    method DeleteRows(doomed: set<Id>) returns (ok: bool, blobKeys: set<BlobKey>)
      requires Sound()
      modifies `streams, `chunks, `gaps, `failures
      ensures Sound() && failures == old(failures) + (if ok then 0 else 1)
      ensures old(Naming()) == Unique ==> Naming() == Unique
      ensures chunks == old(chunks) || chunks == Without(old(chunks), doomed)
      ensures ok ==> chunks == Without(old(chunks), doomed) && streams == old(streams) - doomed
      ensures ok ==> gaps == GapsWithout(old(gaps), doomed)
      ensures ok ==> forall key :: key in chunks ==> BlobOf(key, chunks[key]) !in blobKeys
      ensures blobKeys == BlobsOf(old(chunks), doomed)
    {
      hide AllBacked, NamingOf, Backed;
      if Naming() == Unique { FewerUnique(streams, chunks, takeOf, doomed); }
      blobKeys := BlobsOf(chunks, doomed);
      FewerBacked(blobs, chunks, Without(chunks, doomed));
      var effect;
      effect, ok := Attempted();
      if effect {
        streams := streams - doomed;
        chunks := Without(chunks, doomed);
        gaps := GapsWithout(gaps, doomed);
      }
    }

    method DeleteEmptyTakes(refs: seq<StreamKey>) returns (ok: bool, deletedTakes: set<Id>)
      requires Sound()
      modifies `takes, `failures
      ensures Sound() && failures >= old(failures) && (!ok ==> failures > old(failures))
      ensures ok ==> takes == old(takes) - deletedTakes && deletedTakes == Emptied(streams, refs)
    {
      hide AllBacked, NamingOf;
      deletedTakes := {};
      for i := 0 to |refs|
        invariant Sound() && takes == old(takes) - deletedTakes && failures >= old(failures)
        invariant deletedTakes == Emptied(streams, refs[..i])
      {
        assert refs[..i + 1] == refs[..i] + [refs[i]];
        var fine, gone := DeleteTakeIfEmpty(refs[i].takeId);
        if !fine { return false, {}; }
        if gone { deletedTakes := deletedTakes + {refs[i].takeId}; }
      }
      assert refs[..|refs|] == refs;
      ok := true;
    }

    /** Delete blobs no row refers to any more; a failed delete only orphans bytes. */
    method DeleteBlobs(keys: set<BlobKey>)
      requires Sound() && forall key :: key in chunks ==> BlobOf(key, chunks[key]) !in keys
      modifies `blobs, `failures
      ensures Sound() && failures >= old(failures) && OnlyOrphaned(old(blobs), blobs, keys)
      ensures failures == old(failures) ==> keys !! blobs.Keys
    {
      var left := keys;
      while left != {}
        invariant Sound() && left <= keys && failures >= old(failures) && OnlyOrphaned(old(blobs), blobs, keys)
        invariant failures == old(failures) ==> (keys - left) !! blobs.Keys
        decreases left
      {
        var at :| at in left;
        left := left - {at};
        OthersBacked(blobs, blobs - {at}, chunks, {at});
        var effect, fine := Attempted();
        if effect { blobs := blobs - {at}; }
      }
    }
  }

  function Ids(refs: seq<StreamKey>): set<Id> { set i | 0 <= i < |refs| :: refs[i].streamId }

  /** The chunk rows left once these streams are deleted. */
  function Without(chunks: Chunks, doomed: set<Id>): Chunks {
    map key | key in chunks && key.streamId !in doomed :: chunks[key]
  }

  function GapsWithout(gaps: Gaps, doomed: set<Id>): Gaps {
    map key | key in gaps && key.streamId !in doomed :: gaps[key]
  }

  /** The blobs of these streams' rows. */
  function BlobsOf(chunks: Chunks, doomed: set<Id>): set<BlobKey> {
    set key | key in chunks && key.streamId in doomed :: BlobOf(key, chunks[key])
  }

  /** The takes named that no stream row refers to. */
  function Emptied(streams: StreamRows, refs: seq<StreamKey>): set<Id> {
    set k | k in refs && (forall s :: s in streams ==> streams[s].takeId != k.takeId) :: k.takeId
  }

  /** No blob has changed, and only these may be gone. */
  ghost predicate OnlyOrphaned(was: Blobs, now: Blobs, keys: set<BlobKey>) {
    && (forall at :: at in now ==> at in was && now[at] == was[at])
    && (forall at :: at in was && at !in keys ==> at in now)
  }
}
