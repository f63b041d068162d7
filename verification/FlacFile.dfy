/** Whole FLAC files: encoded in one go, or reassembled by the server from stored chunks. */
module FlacFile {
  import opened Machine
  import opened Sets
  import opened Ranges
  import opened Encoder
  import opened Streaminfo
  import StreamEncoder
  import StreamHeader
  import Wire
  import ChunkRing

  // ---- one-shot encoding --------------------------------------------------------------------

  /** Bootstrap with the final count, then every frame. */
  function FlacMono(cfg: Config, flac: Flac, samples: seq<int>): Result<seq<byte>, CodecError>
    requires Validate(cfg).Ok?
  {
    match Chunks(flac, NominalSamples(cfg), samples)
    case Err(e) => Err(e)
    case Ok(chunks) => Ok(Finalized(CodecHeader(cfg), |samples|) + Payloads(chunks))
  }

  method EncodeFlacMono(cfg: Config, flac: Flac, samples: seq<real>) returns (r: Result<seq<byte>, CodecError>)
    ensures match Validate(cfg)
            case Err(e) => r == Err(e)
            case Ok(_) => r == FlacMono(cfg, flac, QuantizeAll(samples, cfg.bitsPerSample))
  {
    var valid := Validate(cfg);
    if valid.Err? { return Err(valid.error); }
    var bootstrap := CodecHeader(cfg);
    var header := new byte[HEADER_BYTES](i requires 0 <= i < HEADER_BYTES => bootstrap[i]);
    assert header[..] == bootstrap;
    FinalizeTotalSamples(header, |samples|);
    var chunks := EncodeAll(cfg, flac, samples);
    if chunks.Err? { return Err(chunks.error); }
    var out := AppendPayloads(header[..], chunks.value);
    return Ok(out);
  }

  /** One push of everything, then finish. */
  method EncodeAll(cfg: Config, flac: Flac, samples: seq<real>) returns (r: Result<seq<EncodedChunk>, CodecError>)
    requires Validate(cfg).Ok?
    ensures r == Chunks(flac, NominalSamples(cfg), QuantizeAll(samples, cfg.bitsPerSample))
  {
    var enc := new StreamEncoder.StreamEncoder(cfg, flac);
    ghost var nominal, start, ints := NominalSamples(cfg), Progress(NEW, []), QuantizeAll(samples, cfg.bitsPerSample);
    var pushed := enc.PushF32(samples);
    if pushed.Err? { return Err(pushed.error); }
    StillOpen(flac, nominal, start, ints);
    ChunksInTwo(flac, nominal, ints);
    var last := enc.Finish();
    if last.Err? { return Err(last.error); }
    return Ok(pushed.value + last.value);
  }

  /** The chunks of a take are those of the push, then those of the finish. */
  lemma ChunksInTwo(flac: Flac, nominal: nat, ints: seq<int>)
    ensures Chunks(flac, nominal, ints)
         == match Push(flac, nominal, Progress(NEW, []), ints)
            case Err(e) => Err(e)
            case Ok(p) =>
              match Finish(flac, nominal, Progress(p.s, []))
              case Err(e) => Err(e)
              case Ok(q) => Ok(p.out + q.out)
  {
    var r := Push(flac, nominal, Progress(NEW, []), ints);
    if r.Ok? {
      FinishRebase(flac, nominal, r.value.out, Progress(r.value.s, []));
      assert r.value.out + [] == r.value.out;
    }
  }

  method AppendPayloads(start: seq<byte>, chunks: seq<EncodedChunk>) returns (out: seq<byte>)
    ensures out == start + Payloads(chunks)
  {
    out := start;
    for i := 0 to |chunks|
      invariant out == start + Payloads(chunks[..i])
    {
      assert chunks[..i + 1][..i] == chunks[..i];
      out := out + chunks[i].payload;
    }
    assert chunks[..|chunks|] == chunks;
  }

  /** Pushing never finishes an encoder. */
  lemma {:induction false} StillOpen(flac: Flac, nominal: nat, p: Progress, samples: seq<int>)
    ensures Push(flac, nominal, p, samples).Ok? ==> Push(flac, nominal, p, samples).value.s.finished == p.s.finished
    decreases |samples|
  {
    if samples != [] && PushOne(flac, nominal, p, samples[0]).Ok? {
      StillOpen(flac, nominal, PushOne(flac, nominal, p, samples[0]).value, samples[1..]);
    }
  }

  // ---- reassembly ---------------------------------------------------------------------------------

  /** A stored chunk: its metadata row's sample count, and the frame bytes in the blob store. */
  datatype Row = Row(sampleCount: nat, blob: seq<byte>)

  /** Unreadable: a stored blob is not the frame its row promises. */
  datatype Reply = Served(bytes: seq<byte>) | NotFound | Incomplete | Unreadable

  function PayloadOf(blob: seq<byte>): Option<seq<byte>> {
    match Wire.Layout(blob)
    case Ok(Known(ChunkFrame(c))) => Some(c.payload)
    case _ => None
  }

  function BootstrapOf(payload: seq<byte>): Option<seq<byte>> {
    match StreamHeader.Decode(payload)
    case Ok(h) => Some(h.codecHeader)
    case Err(_) => None
  }

  /** What a row contributes to the file. */
  function PartOf(s: u32, row: Row, served: nat): Option<seq<byte>> {
    match PayloadOf(row.blob)
    case None => None
    case Some(payload) =>
      if s != 0 then Some(payload)
      else
        match BootstrapOf(payload)
        case None => None
        case Some(bootstrap) => Some(Patched(bootstrap, served))
  }

  function SampleSum(keys: seq<u32>, rows: map<u32, Row>): nat
    requires forall k :: k in keys ==> k in rows
    decreases |keys|
  {
    if keys == [] then 0 else SampleSum(keys[..|keys| - 1], rows) + rows[keys[|keys| - 1]].sampleCount
  }

  function PartsOf(keys: seq<u32>, rows: map<u32, Row>, served: nat): Option<seq<seq<byte>>>
    requires forall k :: k in keys ==> k in rows
    decreases |keys|
  {
    if keys == [] then Some([])
    else
      var last := keys[|keys| - 1];
      match PartsOf(keys[..|keys| - 1], rows, served)
      case None => None
      case Some(parts) =>
        match PartOf(last, rows[last], served)
        case None => None
        case Some(part) => Some(parts + [part])
  }

  function Flatten(parts: seq<seq<byte>>): seq<byte>
    decreases |parts|
  {
    if parts == [] then [] else Flatten(parts[..|parts| - 1]) + parts[|parts| - 1]
  }

  /** The served file, or why there is none. Completeness is a count of rows. */
  ghost function FileOf(known: bool, final: Option<u32>, rows: map<u32, Row>, allowPartial: bool): Reply {
    var keys := Ascending(rows.Keys);
    AscendingFacts(rows.Keys);
    if !known then NotFound
    else if keys == [] || keys[0] != 0 then Incomplete
    else if !allowPartial && (final.None? || |keys| != final.value + 1) then Incomplete
    else
      match PartsOf(keys, rows, SampleSum(keys, rows))
      case None => Unreadable
      case Some(parts) => Served(Flatten(parts))
  }

  method ReconstructFlac(known: bool, final: Option<u32>, rows: map<u32, Row>, allowPartial: bool) returns (r: Reply)
    ensures r == FileOf(known, final, rows, allowPartial)
  {
    if !known { return NotFound; }
    var keys := ChunkRing.SortedKeys(rows);
    AscendingFacts(rows.Keys);
    if keys == [] || keys[0] != 0 { return Incomplete; }
    if !allowPartial {
      if final.None? { return Incomplete; }
      if |keys| != final.value + 1 { return Incomplete; }
    }
    var served := ServedSamples(keys, rows);
    var parts := CollectParts(keys, rows, served);
    if parts.None? { return Unreadable; }
    var bytes := Splice(parts.value);
    r := Served(bytes);
  }

  method ServedSamples(keys: seq<u32>, rows: map<u32, Row>) returns (n: nat)
    requires forall k :: k in keys ==> k in rows
    ensures n == SampleSum(keys, rows)
  {
    n := 0;
    for i := 0 to |keys|
      invariant n == SampleSum(keys[..i], rows)
    {
      assert keys[..i + 1][..i] == keys[..i];
      n := n + rows[keys[i]].sampleCount;
    }
    assert keys[..|keys|] == keys;
  }

  method CollectParts(keys: seq<u32>, rows: map<u32, Row>, served: nat) returns (r: Option<seq<seq<byte>>>)
    requires forall k :: k in keys ==> k in rows
    ensures r == PartsOf(keys, rows, served)
  {
    var parts: seq<seq<byte>> := [];
    for i := 0 to |keys|
      invariant PartsOf(keys[..i], rows, served) == Some(parts)
    {
      assert keys[..i + 1][..i] == keys[..i];
      var part := PartOf(keys[i], rows[keys[i]], served);
      if part.None? {
        Stuck(keys, rows, served, i + 1);
        return None;
      }
      parts := parts + [part.value];
    }
    assert keys[..|keys|] == keys;
    r := Some(parts);
  }

  lemma {:induction false} Stuck(keys: seq<u32>, rows: map<u32, Row>, served: nat, i: nat)
    requires (forall k :: k in keys ==> k in rows) && i <= |keys| && PartsOf(keys[..i], rows, served).None?
    ensures PartsOf(keys, rows, served).None?
    decreases |keys| - i
  {
    if i < |keys| {
      assert keys[..i + 1][..i] == keys[..i];
      Stuck(keys, rows, served, i + 1);
    } else {
      assert keys[..i] == keys;
    }
  }

  /** Copy the parts one after the other into a buffer of the total size. */
  method Splice(parts: seq<seq<byte>>) returns (bytes: seq<byte>)
    ensures bytes == Flatten(parts)
  {
    var total := 0;
    for i := 0 to |parts|
      invariant total == |Flatten(parts[..i])|
    {
      assert parts[..i + 1][..i] == parts[..i];
      total := total + |parts[i]|;
    }
    assert parts[..|parts|] == parts;
    var out := new byte[total];
    var off := 0;
    for i := 0 to |parts|
      invariant off == |Flatten(parts[..i])| <= total && out[..off] == Flatten(parts[..i])
    {
      var p := parts[i];
      assert parts[..i + 1][..i] == parts[..i];
      FlattenFits(parts, i + 1);
      forall k | 0 <= k < |p| { out[off + k] := p[k]; }
      assert out[..off + |p|] == out[..off] + p;
      off := off + |p|;
    }
    bytes := out[..];
  }

  lemma {:induction false} FlattenFits(parts: seq<seq<byte>>, i: nat)
    requires i <= |parts|
    ensures |Flatten(parts[..i])| <= |Flatten(parts)|
    decreases |parts| - i
  {
    if i < |parts| {
      assert parts[..i + 1][..i] == parts[..i];
      FlattenFits(parts, i + 1);
    } else {
      assert parts[..i] == parts;
    }
  }

  // ---- what counting rows can tell ---------------------------------------------------------------

  lemma {:induction false} AscendingBelowSize(s: set<u32>, n: nat)
    requires n <= U32_MAX + 1
    ensures |AscendingBelow(s, n)| == |s * Below(n)|
  {
    if n == 0 {
      assert s * Below(0) == {};
    } else {
      AscendingBelowSize(s, n - 1);
      OneMoreBelow(s, n - 1);
    }
  }

  lemma OneMoreBelow(s: set<u32>, n: u32)
    ensures |s * Below(n + 1)| == |s * Below(n)| + (if n in s then 1 else 0)
  {
    var before, now := s * Below(n), s * Below(n + 1);
    if n in s { assert now == before + {n}; } else { assert now == before; }
  }

  lemma AscendingSize(s: set<u32>)
    ensures |Ascending(s)| == |s|
  {
    AscendingBelowSize(s, U32_MAX + 1);
    assert s * Below(U32_MAX + 1) == s;
  }

  /** With the right number of seqs, none is missing if and only if none lies beyond the final one. */
  lemma CountTellsCompleteness(keys: set<u32>, final: u32)
    requires |Ascending(keys)| == final + 1
    ensures keys == Below(final + 1) <==> forall k :: k in keys ==> k <= final
  {
    AscendingSize(keys);
    BelowSize(final + 1);
    var all := Below(final + 1);
    if forall k :: k in keys ==> k <= final {
      assert keys <= all;
      if keys != all { ProperSubsetSize(keys, all); }
    }
  }

  lemma ProperSubsetSize(a: set<u32>, b: set<u32>)
    requires a < b
    ensures |a| < |b|
  {
    var x :| x in b && x !in a;
    SubsetSize(a, b - {x});
    assert |b - {x}| == |b| - 1;
  }
}
