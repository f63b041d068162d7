/** A partial download: exactly what is stored, and a header that says so. */
module PartialFile {
  import opened Machine
  import opened Sets
  import opened Frames
  import opened Encoder
  import opened Streaminfo
  import opened FlacFile
  import opened EndToEnd
  import StreamHeader

  /** The chunks stored under these seqs, in their order. */
  ghost function Kept(store: map<u32, AudioChunk>, keys: seq<u32>): (kept: seq<EncodedChunk>)
    requires forall s :: s in keys ==> s in store
    ensures |kept| == |keys|
  {
    seq(|keys|, i requires 0 <= i < |keys| =>
      EncodedChunk(store[keys[i]].payload, store[keys[i]].firstSampleIndex, store[keys[i]].sampleCount))
  }

  /** The seqs stored behind the header, in ascending order. */
  ghost predicate Behind(store: map<u32, AudioChunk>, keys: seq<u32>) {
    && StrictlyIncreasing(keys)
    && (forall s :: s in keys <==> s in store && s != 0)
  }

  /** A store with a readable header and chunks of legal size. */
  ghost predicate Headed(store: map<u32, AudioChunk>, stream: StreamKey, h: StreamHeader.StreamHeaderV1) {
    && 0 in store && store[0] == StreamHeader.HeaderChunk(stream, h)
    && |h.deviceDesc| <= 65_394 && |h.codecHeader| == HEADER_BYTES
    && forall s :: s in store ==> |store[s].payload| <= MAX_CHUNK_PAYLOAD_BYTES
  }

  lemma HeaderFirst(store: map<u32, AudioChunk>, keys: seq<u32>)
    requires 0 in store && Behind(store, keys)
    ensures Ascending(store.Keys) == [0] + keys
  {
    AscendingFacts(store.Keys);
    var all: seq<u32> := [0] + keys;
    forall s ensures s in all <==> s in Ascending(store.Keys) { }
    forall i, j | 0 <= i < j < |all| ensures all[i] < all[j] {
      if i == 0 { assert all[j] in keys; }
    }
    IncreasingUnique(all, Ascending(store.Keys));
  }

  lemma KeptRow(store: map<u32, AudioChunk>, keys: seq<u32>, i: nat)
    requires (forall s :: s in keys ==> s in store) && i < |keys|
    requires |store[keys[i]].payload| <= MAX_CHUNK_PAYLOAD_BYTES
    ensures StoredRows(store)[keys[i]].sampleCount == Kept(store, keys)[i].sampleCount
    ensures PayloadOf(StoredRows(store)[keys[i]].blob) == Some(Kept(store, keys)[i].payload)
  {
    hide PayloadOf;
    BlobReads(store[keys[i]]);
  }

  lemma HeadRow(store: map<u32, AudioChunk>, stream: StreamKey, h: StreamHeader.StreamHeaderV1, served: nat)
    requires Headed(store, stream, h)
    ensures StoredRows(store)[0].sampleCount == 0
    ensures PartOf(0, StoredRows(store)[0], served) == Some(Finalized(h.codecHeader, served))
  {
    hide PartOf;
    HeaderBlobReads(stream, h, served);
  }

  lemma KeptRows(store: map<u32, AudioChunk>, keys: seq<u32>, stream: StreamKey, h: StreamHeader.StreamHeaderV1,
      served: nat)
    requires Headed(store, stream, h) && Behind(store, keys)
    ensures TakeRows([0] + keys, StoredRows(store), served, Finalized(h.codecHeader, served), Kept(store, keys))
  {
    hide PartOf, PayloadOf, StoredRows, Finalized, Kept;
    var all, rows := [0] + keys, StoredRows(store);
    HeadRow(store, stream, h, served);
    assert rows.Keys == store.Keys by { RowKeys(store); }
    forall i | 0 < i < |all|
      ensures all[i] != 0 && rows[all[i]].sampleCount == Kept(store, keys)[i - 1].sampleCount
      ensures PayloadOf(rows[all[i]].blob) == Some(Kept(store, keys)[i - 1].payload)
    {
      assert all[i] == keys[i - 1] && keys[i - 1] in keys;
      KeptRow(store, keys, i - 1);
    }
  }

  lemma RowKeys(store: map<u32, AudioChunk>)
    ensures StoredRows(store).Keys == store.Keys
  {
  }

  /**
   * With partial downloads allowed, what is served is the header followed by exactly the stored payloads, by seq,
   * whatever the final seq; and the header counts exactly their samples.
   */
  lemma PartialIsWhatIsStored(store: map<u32, AudioChunk>, keys: seq<u32>, stream: StreamKey,
      h: StreamHeader.StreamHeaderV1, final: Option<u32>)
    requires Headed(store, stream, h) && Behind(store, keys)
    ensures var kept := Kept(store, keys);
            var start := Finalized(h.codecHeader, SampleTotal(kept));
            && FileOf(true, final, StoredRows(store), true) == Served(start + Payloads(kept))
            && (SampleTotal(kept) < TOTAL_LIMIT ==> TotalField(start) == SampleTotal(kept))
  {
    hide StoredRows, Finalized, TotalField, SampleTotal, Payloads, TakeRows, Headed, Behind, Flatten, PartsOf, Kept;
    hide FileOf;
    HeadedFacts(store, keys, stream, h);
    var all, rows, kept := [0] + keys, StoredRows(store), Kept(store, keys);
    var total := SampleTotal(kept);
    var start := Finalized(h.codecHeader, total);
    if total < TOTAL_LIMIT { TotalWritten(h.codecHeader, total); }
    KeptRows(store, keys, stream, h, total);
    HeaderFirst(store, keys);
    RowKeys(store);
    AllRows(all, rows, total, start, kept);
    AssembleUpTo(all, rows, |all|, total, start, kept);
    assert all[..|all|] == all && kept[..|kept|] == kept;
    PartialIs(rows, all, final, PartsOf(all, rows, total).value);
  }

  lemma HeadedFacts(store: map<u32, AudioChunk>, keys: seq<u32>, stream: StreamKey, h: StreamHeader.StreamHeaderV1)
    requires Headed(store, stream, h) && Behind(store, keys)
    ensures 0 in store && |h.codecHeader| == HEADER_BYTES && forall s :: s in keys ==> s in store
  {
  }

  lemma AllRows(keys: seq<u32>, rows: map<u32, Row>, served: nat, start: seq<byte>, kept: seq<EncodedChunk>)
    requires TakeRows(keys, rows, served, start, kept)
    ensures |keys| == |kept| + 1 && keys[0] == 0 && forall k :: k in keys ==> k in rows
  {
  }

  lemma PartialIs(rows: map<u32, Row>, keys: seq<u32>, final: Option<u32>, parts: seq<seq<byte>>)
    requires keys == Ascending(rows.Keys) && (forall k :: k in keys ==> k in rows)
    requires keys != [] && keys[0] == 0 && PartsOf(keys, rows, SampleSum(keys, rows)) == Some(parts)
    ensures FileOf(true, final, rows, true) == Served(Flatten(parts))
  {
  }
}
