/** What the server's completeness check lets through: it counts rows, so a row past the end can stand in for one. */
module ServedWhole {
  import opened Machine
  import opened Sets
  import opened Ranges
  import opened Frames
  import opened FlacFile
  import opened EndToEnd
  import StreamHeader
  import opened Streaminfo

  /** Stored chunks the server can read: every frame fits, and chunk 0 carries a stream header. */
  predicate Readable(store: map<u32, AudioChunk>) {
    && (forall s :: s in store ==> |store[s].payload| <= MAX_CHUNK_PAYLOAD_BYTES)
    && (0 in store ==> BootstrapOf(store[0].payload).Some?)
  }

  lemma {:induction false} PartsAreReadable(keys: seq<u32>, store: map<u32, AudioChunk>, served: nat)
    requires Readable(store) && forall k :: k in keys ==> k in store
    ensures PartsOf(keys, StoredRows(store), served).Some?
    decreases |keys|
  {
    if keys != [] {
      var front, last := keys[..|keys| - 1], keys[|keys| - 1];
      assert last in keys && forall k :: k in front ==> k in keys;
      PartsAreReadable(front, store, served);
      BlobReads(store[last]);
    }
  }

  /** In ascending order 0 comes first, if it is there at all. */
  lemma ZeroFirst(s: set<u32>)
    ensures 0 in s <==> Ascending(s) != [] && Ascending(s)[0] == 0
  {
    AscendingFacts(s);
    var keys := Ascending(s);
    forall i | 0 < i < |keys| ensures keys[i] != 0 {
      assert keys[0] < keys[i];
    }
  }

  /** A stream of known length is served exactly when chunk 0 is stored and the number of rows is right. */
  lemma ServedByCount(store: map<u32, AudioChunk>, final: u32)
    requires Readable(store)
    ensures FileOf(true, Some(final), StoredRows(store), false).Served?
       <==> 0 in store && |store.Keys| == final + 1
  {
    var rows, keys := StoredRows(store), Ascending(store.Keys);
    assert rows.Keys == store.Keys;
    AscendingFacts(store.Keys);
    ZeroFirst(store.Keys);
    AscendingSize(store.Keys);
    PartsAreReadable(keys, store, SampleSum(keys, rows));
    FileIsServed(rows, keys, final);
  }

  lemma FileIsServed(rows: map<u32, Row>, keys: seq<u32>, final: u32)
    requires keys == Ascending(rows.Keys) && forall k :: k in keys ==> k in rows
    requires PartsOf(keys, rows, SampleSum(keys, rows)).Some?
    ensures FileOf(true, Some(final), rows, false).Served? <==> keys != [] && keys[0] == 0 && |keys| == final + 1
  {
  }

  ghost predicate NoStrayKey(keys: set<u32>, final: u32) { forall k :: k in keys ==> k <= final }

  /**
   * "Never lie about audio": a stream is served as whole if and only if it is, exactly when no stored seq lies
   * beyond the final one or the count is off all the same.
   */
  lemma ServedMeansWhole(store: map<u32, AudioChunk>, final: u32)
    requires Readable(store)
    ensures (FileOf(true, Some(final), StoredRows(store), false).Served? <==> store.Keys == Below(final + 1))
       <==> (NoStrayKey(store.Keys, final) || 0 !in store || |store.Keys| != final + 1)
  {
    ServedByCount(store, final);
    BelowSize(final + 1);
    assert 0 in Below(final + 1);
    if |store.Keys| == final + 1 {
      AscendingSize(store.Keys);
      CountTellsCompleteness(store.Keys, final);
    }
  }

  lemma HeaderReads(stream: StreamKey, h: StreamHeader.StreamHeaderV1)
    requires |h.deviceDesc| <= 65_394 && |h.codecHeader| == HEADER_BYTES
    ensures var payload := StreamHeader.HeaderChunk(stream, h).payload;
            |payload| <= MAX_CHUNK_PAYLOAD_BYTES && BootstrapOf(payload).Some?
  {
    StreamHeader.FitsOneChunk(h);
    StreamHeader.DecodeOfEncode(h);
  }

  /** The failing input: with any header and any fitting chunk stored as 0 and 2, a take ending at 1 is served. */
  lemma StrayRowPasses(stream: StreamKey, h: StreamHeader.StreamHeaderV1, c: AudioChunk)
    requires |h.deviceDesc| <= 65_394 && |h.codecHeader| == HEADER_BYTES
    requires |c.payload| <= MAX_CHUNK_PAYLOAD_BYTES
    ensures var store: map<u32, AudioChunk> := map[0 := StreamHeader.HeaderChunk(stream, h), 2 := c];
            1 !in store && FileOf(true, Some(1), StoredRows(store), false).Served?
  {
    var start := StreamHeader.HeaderChunk(stream, h);
    var store: map<u32, AudioChunk> := map[0 := start, 2 := c];
    HeaderReads(stream, h);
    TwoReadable(store, start, c);
    ServedByCount(store, 1);
  }

  lemma TwoReadable(store: map<u32, AudioChunk>, start: AudioChunk, c: AudioChunk)
    requires store == map[0 := start, 2 := c]
    requires |start.payload| <= MAX_CHUNK_PAYLOAD_BYTES && |c.payload| <= MAX_CHUNK_PAYLOAD_BYTES
    requires BootstrapOf(start.payload).Some?
    ensures Readable(store) && 0 in store && |store.Keys| == 2
  {
    assert store.Keys == {0, 2};
  }
}
