/** Whole-run facts about one receiver: order does not matter, rebuilding restores it, and its flags are exact. */
module ReceiverRuns {
  import opened Machine
  import opened Ranges
  import opened Frames
  import opened Receiver

  datatype Event =
    | ChunkArrives(chunk: AudioChunk)
    | GapsReported(ranges: seq<SeqRange>)
    | FinalLearned(final: u32)

  ghost function Absorb(r: State, e: Event): State {
    match e
    case ChunkArrives(c) => Ingest(r, c).0
    case GapsReported(ranges) => RecordGaps(r, ranges)
    case FinalLearned(f) => SetFinal(r, f)
  }

  /** A new receiver after these events, in this order. */
  ghost function AbsorbAll(es: seq<Event>): State
    decreases |es|
  {
    if es == [] then NEW else Absorb(AbsorbAll(es[..|es| - 1]), es[|es| - 1])
  }

  /** An undamaged chunk among the events. */
  ghost predicate Arrived(es: seq<Event>, c: AudioChunk) { ChunkArrives(c) in es && Intact(c) }

  /** The idempotency law: one seq, one chunk. Damaged copies may differ. */
  ghost predicate OneChunkPerSeq(es: seq<Event>) {
    forall c, d :: Arrived(es, c) && Arrived(es, d) && c.seqNo == d.seqNo ==> c == d
  }

  /** What the events determine, whatever their order. */
  ghost predicate Reflects(r: State, es: seq<Event>) {
    && r.held == r.meta.Keys
    && (forall c :: Arrived(es, c) ==> c.seqNo in r.meta && r.meta[c.seqNo] == MetaOf(c))
    && (forall s :: s in r.meta ==> exists c :: Arrived(es, c) && c.seqNo == s)
    && (forall x: u32 :: x in r.gaps <==> exists rs :: GapsReported(rs) in es && x in Members(rs))
    && (r.final.None? ==> forall f: u32 :: FinalLearned(f) !in es)
    && (r.final.Some? ==> FinalLearned(r.final.value) in es && forall f: u32 :: FinalLearned(f) in es ==>
        f <= r.final.value)
  }

  lemma OnePerSeqPrefix(es: seq<Event>)
    requires es != [] && OneChunkPerSeq(es)
    ensures OneChunkPerSeq(es[..|es| - 1])
  {
    forall c, d | Arrived(es[..|es| - 1], c) && Arrived(es[..|es| - 1], d) && c.seqNo == d.seqNo ensures c == d {
      assert Arrived(es, c) && Arrived(es, d);
    }
  }

  lemma {:induction false} AbsorbAllReflects(es: seq<Event>)
    requires OneChunkPerSeq(es)
    ensures Reflects(AbsorbAll(es), es)
    decreases |es|
  {
    if es != [] {
      OnePerSeqPrefix(es);
      AbsorbAllReflects(es[..|es| - 1]);
      AbsorbReflects(AbsorbAll(es[..|es| - 1]), es[..|es| - 1], es[|es| - 1], es);
    }
  }

  lemma AbsorbReflects(r: State, front: seq<Event>, e: Event, es: seq<Event>)
    requires Reflects(r, front) && es == front + [e] && OneChunkPerSeq(es)
    ensures Reflects(Absorb(r, e), es)
  {
    match e
    case ChunkArrives(c) => ChunkReflects(r, front, c, es);
    case GapsReported(ranges) => GapsReflect(r, front, ranges, es);
    case FinalLearned(f) => FinalReflects(r, front, f, es);
  }

  lemma ChunkReflects(r: State, front: seq<Event>, c: AudioChunk, es: seq<Event>)
    requires Reflects(r, front) && es == front + [ChunkArrives(c)] && OneChunkPerSeq(es)
    ensures Reflects(Ingest(r, c).0, es)
  {
    OnlyArrives(front, c, es);
    if !Intact(c) {
      OldReflects(r, Ingest(r, c).0, front, c, es);
    } else if c.seqNo in r.meta {
      var d :| Arrived(front, d) && d.seqNo == c.seqNo;
      assert Arrived(es, d) && Arrived(es, c);
      OldReflects(r, Ingest(r, c).0, front, c, es);
    } else {
      NewReflects(r, Ingest(r, c).0, front, c, es);
    }
  }

  lemma OnlyArrives(front: seq<Event>, c: AudioChunk, es: seq<Event>)
    requires es == front + [ChunkArrives(c)]
    ensures forall d :: Arrived(es, d) <==> Arrived(front, d) || (d == c && Intact(c))
    ensures forall rs :: GapsReported(rs) in es <==> GapsReported(rs) in front
    ensures forall f: u32 :: FinalLearned(f) in es <==> FinalLearned(f) in front
  {
  }

  /** A damaged chunk, or one stored before, changes nothing that counts. */
  lemma OldReflects(r: State, out: State, front: seq<Event>, c: AudioChunk, es: seq<Event>)
    requires Reflects(r, front) && out == r.(flags := out.flags) && es == front + [ChunkArrives(c)]
    requires Intact(c) ==> Arrived(front, c)
    ensures Reflects(out, es)
  {
    OnlyArrives(front, c, es);
  }

  lemma NewReflects(r: State, out: State, front: seq<Event>, c: AudioChunk, es: seq<Event>)
    requires Reflects(r, front) && es == front + [ChunkArrives(c)] && Intact(c) && c.seqNo !in r.meta
    requires out == r.(held := r.held + {c.seqNo}, meta := r.meta[c.seqNo := MetaOf(c)], flags := out.flags)
    ensures Reflects(out, es)
  {
    OnlyArrives(front, c, es);
    assert Arrived(es, c);
  }

  lemma GapsReflect(r: State, front: seq<Event>, ranges: seq<SeqRange>, es: seq<Event>)
    requires Reflects(r, front) && es == front + [GapsReported(ranges)]
    ensures Reflects(RecordGaps(r, ranges), es)
  {
    assert forall d :: Arrived(es, d) <==> Arrived(front, d);
    assert forall f: u32 :: FinalLearned(f) in es <==> FinalLearned(f) in front;
    assert forall rs :: GapsReported(rs) in es <==> GapsReported(rs) in front || rs == ranges;
  }

  lemma FinalReflects(r: State, front: seq<Event>, f: u32, es: seq<Event>)
    requires Reflects(r, front) && es == front + [FinalLearned(f)]
    ensures Reflects(SetFinal(r, f), es)
  {
    assert forall d :: Arrived(es, d) <==> Arrived(front, d);
    assert forall rs :: GapsReported(rs) in es <==> GapsReported(rs) in front;
    assert forall g: u32 :: FinalLearned(g) in es <==> FinalLearned(g) in front || g == f;
  }

  /** Everything but the flags. */
  ghost predicate SameBut(a: State, b: State) {
    && a.held == b.held && a.meta == b.meta && a.gaps == b.gaps && a.final == b.final
    && Chwm(a) == Chwm(b) && Holes(a) == Holes(b)
    && (Complete(a) <==> Complete(b)) && (Settled(a) <==> Settled(b))
  }

  /** Confluence: the same events in any order, with any repeats, leave the same receiver. */
  lemma Confluence(es: seq<Event>, fs: seq<Event>)
    requires OneChunkPerSeq(es) && forall e :: e in es <==> e in fs
    ensures SameBut(AbsorbAll(es), AbsorbAll(fs))
  {
    hide Reflects, SameBut;
    OneChunkPerSeqAgrees(es, fs);
    AbsorbAllReflects(es);
    AbsorbAllReflects(fs);
    SameReflection(AbsorbAll(es), AbsorbAll(fs), es, fs);
  }

  lemma OneChunkPerSeqAgrees(es: seq<Event>, fs: seq<Event>)
    requires OneChunkPerSeq(es) && forall e :: e in es <==> e in fs
    ensures OneChunkPerSeq(fs)
  {
    forall c, d | Arrived(fs, c) && Arrived(fs, d) && c.seqNo == d.seqNo ensures c == d {
      assert Arrived(es, c) && Arrived(es, d);
    }
  }

  lemma SameReflection(a: State, b: State, es: seq<Event>, fs: seq<Event>)
    requires Reflects(a, es) && Reflects(b, fs) && forall e :: e in es <==> e in fs
    ensures SameBut(a, b)
  {
    hide Reflects, SameBut;
    MetaWithin(a, b, es, fs);
    MetaWithin(b, a, fs, es);
    assert a.meta == b.meta;
    GapsWithin(a, b, es, fs);
    GapsWithin(b, a, fs, es);
    SameFinal(a, b, es, fs);
    SameStatus(a, b);
  }

  lemma MetaWithin(a: State, b: State, es: seq<Event>, fs: seq<Event>)
    requires Reflects(a, es) && Reflects(b, fs) && forall e :: e in es <==> e in fs
    ensures a.held == a.meta.Keys && forall s :: s in a.meta ==> s in b.meta && a.meta[s] == b.meta[s]
  {
    forall s | s in a.meta ensures s in b.meta && a.meta[s] == b.meta[s] {
      var c :| Arrived(es, c) && c.seqNo == s;
      assert Arrived(fs, c);
    }
  }

  lemma GapsWithin(a: State, b: State, es: seq<Event>, fs: seq<Event>)
    requires Reflects(a, es) && Reflects(b, fs) && forall e :: e in es <==> e in fs
    ensures a.gaps <= b.gaps
  {
    forall x | x in a.gaps ensures x in b.gaps {
      var rs :| GapsReported(rs) in es && x in Members(rs);
      assert GapsReported(rs) in fs;
    }
  }

  lemma SameFinal(a: State, b: State, es: seq<Event>, fs: seq<Event>)
    requires Reflects(a, es) && Reflects(b, fs) && forall e :: e in es <==> e in fs
    ensures a.final == b.final
  {
    if a.final.Some? { assert FinalLearned(a.final.value) in fs; }
    if b.final.Some? { assert FinalLearned(b.final.value) in es; }
  }

  /** Every status question is answered from held, gaps and final alone. */
  lemma SameStatus(a: State, b: State)
    requires a.held == b.held && a.meta == b.meta && a.gaps == b.gaps && a.final == b.final
    ensures SameBut(a, b)
  {
  }

  // ---- rebuilding -------------------------------------------------------------

  ghost function RebuildRows(r: State, rows: seq<(u32, ChunkMeta)>): State
    decreases |rows|
  {
    if rows == [] then r else RebuildRows(RebuildOne(r, rows[0].0, rows[0].1), rows[1..])
  }

  /** A receiver rebuilt from stored chunk rows, the stored final seq and gap rows, in any row order. */
  ghost function Rebuilt(rows: seq<(u32, ChunkMeta)>, final: Option<u32>, gaps: seq<SeqRange>): State {
    var r := RebuildRows(NEW, rows);
    RecordGaps(if final.Some? then SetFinal(r, final.value) else r, gaps)
  }

  lemma {:induction false} RebuildRowsFacts(r: State, rows: seq<(u32, ChunkMeta)>, meta: map<u32, ChunkMeta>)
    requires r.held == r.meta.Keys
    requires forall row :: row in rows ==> row.0 in meta && row.1 == meta[row.0]
    requires forall s :: s in r.meta ==> s in meta && r.meta[s] == meta[s]
    ensures var out := RebuildRows(r, rows);
            && out.held == out.meta.Keys && out.gaps == r.gaps && out.final == r.final && out.flags == r.flags
            && (forall s :: s in out.meta ==> s in meta && out.meta[s] == meta[s])
            && (forall s :: s in out.meta <==> s in r.meta || exists row :: row in rows && row.0 == s)
    decreases |rows|
  {
    if rows != [] {
      var next := RebuildOne(r, rows[0].0, rows[0].1);
      assert rows[0] in rows;
      RebuildRowsFacts(next, rows[1..], meta);
      assert forall row :: row in rows <==> row == rows[0] || row in rows[1..];
    }
  }

  lemma HeldHasMeta(es: seq<Event>)
    requires OneChunkPerSeq(es)
    ensures AbsorbAll(es).held == AbsorbAll(es).meta.Keys
  {
    AbsorbAllReflects(es);
  }

  /** Crash recovery: rebuilding from the stored metadata, gaps and final seq restores all but the flags. */
  lemma RebuildRestores(es: seq<Event>, rows: seq<(u32, ChunkMeta)>, gaps: seq<SeqRange>)
    requires OneChunkPerSeq(es)
    requires var r := AbsorbAll(es);
             && (forall row :: row in rows ==> row.0 in r.meta && row.1 == r.meta[row.0])
             && (forall s :: s in r.meta ==> (s, r.meta[s]) in rows)
             && Members(gaps) == r.gaps
    ensures var r := AbsorbAll(es);
            SameBut(r, Rebuilt(rows, r.final, gaps)) && Rebuilt(rows, r.final, gaps).flags == []
  {
    hide AbsorbAll, OneChunkPerSeq, SameBut;
    var r := AbsorbAll(es);
    HeldHasMeta(es);
    RebuildRowsFacts(NEW, rows, r.meta);
    var out := RebuildRows(NEW, rows);
    forall s | s in r.meta ensures s in out.meta { assert (s, r.meta[s]) in rows; }
    assert out.meta == r.meta;
    assert {} + r.gaps == r.gaps;
    SameStatus(r, Rebuilt(rows, r.final, gaps));
  }

  // ---- flags --------------------------------------------------------------------

  /** Audio does not start at 0, or two held neighbours disagree about where the second starts. */
  ghost predicate Discontinuous(meta: map<u32, ChunkMeta>) {
    || (1 in meta && meta[1].firstSampleIndex != 0)
    || (exists k: int :: k >= 1 && Disagree(meta, k))
  }

  ghost predicate Disagree(meta: map<u32, ChunkMeta>, k: int) {
    0 <= k < U32_MAX && k in meta && k + 1 in meta && meta[k + 1].firstSampleIndex != Expected(meta[k])
  }

  /** Seqs below the sentinel, so that `seq + 1` cannot overflow. */
  ghost predicate SeqsInRange(es: seq<Event>) {
    forall c :: ChunkArrives(c) in es ==> c.seqNo < U32_MAX
  }

  /** The continuity check looks at exactly the pairs the new chunk completes. */
  lemma NewDisagreement(meta: map<u32, ChunkMeta>, c: AudioChunk)
    requires c.seqNo !in meta && c.seqNo < U32_MAX
    ensures Discontinuous(meta[c.seqNo := MetaOf(c)]) <==> Discontinuous(meta) || CheckContinuity(meta, c).Some?
  {
    var now := meta[c.seqNo := MetaOf(c)];
    var s: int := c.seqNo;
    assert forall k: int :: k != s && k + 1 != s ==> (Disagree(now, k) <==> Disagree(meta, k));
    assert !Disagree(meta, s) && !Disagree(meta, s - 1);
    if CheckContinuity(meta, c).Some? {
      assert (s == 1 && c.firstSampleIndex != 0) || (s >= 2 && Disagree(now, s - 1)) || (s >= 1 && Disagree(now, s));
    }
    if Discontinuous(meta) && !(1 in meta && meta[1].firstSampleIndex != 0) {
      var k: int :| k >= 1 && Disagree(meta, k);
      assert Disagree(now, k);
    }
    if Discontinuous(now) && !(1 in now && now[1].firstSampleIndex != 0) {
      var k: int :| k >= 1 && Disagree(now, k);
      assert Disagree(meta, k) || k == s || k == s - 1;
    }
  }

  ghost predicate SawDiscontinuity(flags: seq<StreamFlag>) { exists f :: f in flags && f.Discontinuity? }

  ghost predicate SawConflict(flags: seq<StreamFlag>) { exists f :: f in flags && f.CrcConflict? }

  lemma FlagAdded(flags: seq<StreamFlag>, f: StreamFlag)
    ensures SawDiscontinuity(AddFlag(flags, f)) <==> SawDiscontinuity(flags) || f.Discontinuity?
    ensures SawConflict(AddFlag(flags, f)) <==> SawConflict(flags) || f.CrcConflict?
  {
    assert f in AddFlag(flags, f);
    assert forall g :: g in flags ==> g in AddFlag(flags, f);
  }

  /** Something intact arrived that differs from what was stored under its seq. */
  ghost predicate Contradicted(meta: map<u32, ChunkMeta>, es: seq<Event>) {
    exists c :: Arrived(es, c) && c.seqNo in meta && c.crc32c != meta[c.seqNo].crc32c
  }

  /** Every stored seq has its intact chunk among the events. */
  ghost predicate Sourced(meta: map<u32, ChunkMeta>, es: seq<Event>) {
    forall s :: s in meta ==> exists c :: Arrived(es, c) && c.seqNo == s && MetaOf(c) == meta[s]
  }

  /** What a run of any chunks at all, damaged, repeated or contradictory, leaves in the flags. */
  ghost predicate FlagsExact(r: State, es: seq<Event>) {
    && r.held == r.meta.Keys
    && (forall c :: Arrived(es, c) ==> c.seqNo in r.meta)
    && Sourced(r.meta, es)
    && (SawDiscontinuity(r.flags) <==> Discontinuous(r.meta))
    && (SawConflict(r.flags) <==> Contradicted(r.meta, es))
  }

  lemma NothingFlagged(es: seq<Event>)
    requires es == []
    ensures FlagsExact(NEW, es)
  {
    assert forall k: int :: !Disagree(map[], k);
  }

  /** A chunk under a new seq: the check sees a discontinuity exactly when the chunk completes one. */
  lemma FreshFlags(r: State, front: seq<Event>, c: AudioChunk, es: seq<Event>)
    requires FlagsExact(r, front) && es == front + [ChunkArrives(c)] && c.seqNo < U32_MAX
    requires Intact(c) && c.seqNo !in r.meta
    ensures FlagsExact(Ingest(r, c).0, es)
  {
    hide Arrived, Sourced, Discontinuous, SawDiscontinuity, SawConflict, Contradicted, AddFlag;
    var out := Ingest(r, c).0;
    NewDisagreement(r.meta, c);
    match CheckContinuity(r.meta, c) {
      case Some(pair) => FlagAdded(r.flags, Discontinuity(c.seqNo, pair.0, pair.1));
      case None =>
    }
    SameArrivals(front, es, c);
    SourcedFresh(r.meta, front, es, c);
    SameContradictions(r.meta, out.meta, front, es, c);
  }

  lemma SourcedFresh(meta: map<u32, ChunkMeta>, front: seq<Event>, es: seq<Event>, c: AudioChunk)
    requires Sourced(meta, front) && es == front + [ChunkArrives(c)] && Intact(c)
    ensures Sourced(meta[c.seqNo := MetaOf(c)], es)
  {
    SameArrivals(front, es, c);
    var now := meta[c.seqNo := MetaOf(c)];
    assert Arrived(es, c);
    forall s | s in now && s != c.seqNo ensures exists d :: Arrived(es, d) && d.seqNo == s && MetaOf(d) == now[s] {
      var d :| Arrived(front, d) && d.seqNo == s && MetaOf(d) == meta[s];
      assert Arrived(es, d);
    }
  }

  lemma SameArrivals(front: seq<Event>, es: seq<Event>, c: AudioChunk)
    requires es == front + [ChunkArrives(c)]
    ensures forall d :: Arrived(es, d) <==> Arrived(front, d) || (d == c && Intact(c))
  {
  }

  lemma SameContradictions(
    meta: map<u32, ChunkMeta>, now: map<u32, ChunkMeta>, front: seq<Event>, es: seq<Event>, c: AudioChunk)
    requires es == front + [ChunkArrives(c)] && c.seqNo !in meta && now == meta[c.seqNo := MetaOf(c)]
    requires forall d :: Arrived(front, d) ==> d.seqNo in meta
    ensures Contradicted(now, es) <==> Contradicted(meta, front)
  {
    SameArrivals(front, es, c);
    if Contradicted(meta, front) {
      var d :| Arrived(front, d) && d.seqNo in meta && d.crc32c != meta[d.seqNo].crc32c;
      assert Arrived(es, d);
    }
    if Contradicted(now, es) {
      var d :| Arrived(es, d) && d.seqNo in now && d.crc32c != now[d.seqNo].crc32c;
      assert Arrived(front, d);
    }
  }

  lemma OneMoreContradiction(meta: map<u32, ChunkMeta>, front: seq<Event>, es: seq<Event>, c: AudioChunk)
    requires es == front + [ChunkArrives(c)] && Intact(c) && c.seqNo in meta
    ensures Contradicted(meta, es) <==> Contradicted(meta, front) || c.crc32c != meta[c.seqNo].crc32c
  {
    SameArrivals(front, es, c);
    assert Arrived(es, c);
    if Contradicted(meta, front) {
      var d :| Arrived(front, d) && d.seqNo in meta && d.crc32c != meta[d.seqNo].crc32c;
      assert Arrived(es, d);
    }
  }

  /** A chunk under a stored seq: nothing is stored, and a conflict is flagged exactly when the checksums differ. */
  lemma RepeatFlags(r: State, front: seq<Event>, c: AudioChunk, es: seq<Event>)
    requires FlagsExact(r, front) && es == front + [ChunkArrives(c)] && Intact(c) && c.seqNo in r.meta
    ensures FlagsExact(Ingest(r, c).0, es)
  {
    SameArrivals(front, es, c);
    FlagAdded(r.flags, CrcConflict(c.seqNo, r.meta[c.seqNo].crc32c, c.crc32c));
    StillSourced(r.meta, front, es);
    OneMoreContradiction(r.meta, front, es, c);
  }

  lemma StillSourced(meta: map<u32, ChunkMeta>, front: seq<Event>, es: seq<Event>)
    requires Sourced(meta, front) && forall d :: Arrived(front, d) ==> Arrived(es, d)
    ensures Sourced(meta, es)
  {
    forall s | s in meta ensures exists c :: Arrived(es, c) && c.seqNo == s && MetaOf(c) == meta[s] {
      var c :| Arrived(front, c) && c.seqNo == s && MetaOf(c) == meta[s];
      assert Arrived(es, c);
    }
  }

  lemma QuietArrivals(front: seq<Event>, e: Event, es: seq<Event>, meta: map<u32, ChunkMeta>)
    requires es == front + [e] && (e.ChunkArrives? ==> !Intact(e.chunk))
    ensures forall d :: Arrived(es, d) <==> Arrived(front, d)
    ensures Contradicted(meta, es) <==> Contradicted(meta, front)
  {
    assert forall d :: Arrived(es, d) <==> Arrived(front, d);
  }

  /** Anything else brings no intact chunk and raises no flag. */
  lemma QuietFlags(r: State, front: seq<Event>, e: Event, es: seq<Event>)
    requires FlagsExact(r, front) && es == front + [e]
    requires e.ChunkArrives? ==> !Intact(e.chunk)
    ensures FlagsExact(Absorb(r, e), es)
  {
    hide Arrived, Sourced, SawDiscontinuity, SawConflict, Discontinuous, Contradicted;
    QuietArrivals(front, e, es, r.meta);
    StillSourced(r.meta, front, es);
  }

  lemma RangePrefix(es: seq<Event>, front: seq<Event>, e: Event)
    requires SeqsInRange(es) && es != [] && front == es[..|es| - 1] && e == es[|es| - 1]
    ensures SeqsInRange(front) && (e.ChunkArrives? ==> e.chunk.seqNo < U32_MAX) && es == front + [e]
  {
    assert forall c :: ChunkArrives(c) in front ==> ChunkArrives(c) in es;
    assert e in es;
  }

  /**
   * Flags are exact, for every run: the discontinuity flag is up if and only if what is held is discontinuous, and
   * the conflict flag if and only if an intact chunk arrived that differs from the one stored under its seq.
   */
  lemma {:induction false} FlagsAreExact(es: seq<Event>)
    requires SeqsInRange(es)
    ensures FlagsExact(AbsorbAll(es), es)
    decreases |es|
  {
    hide FlagsExact, Absorb, SeqsInRange;
    if es == [] {
      NothingFlagged(es);
    } else {
      var front, e := es[..|es| - 1], es[|es| - 1];
      RangePrefix(es, front, e);
      FlagsAreExact(front);
      FlagsStayExact(AbsorbAll(front), front, e, es);
    }
  }

  lemma FlagsStayExact(r: State, front: seq<Event>, e: Event, es: seq<Event>)
    requires FlagsExact(r, front) && es == front + [e]
    requires e.ChunkArrives? ==> e.chunk.seqNo < U32_MAX
    ensures FlagsExact(Absorb(r, e), es)
  {
    if e.ChunkArrives? && Intact(e.chunk) {
      if e.chunk.seqNo in r.meta {
        RepeatFlags(r, front, e.chunk, es);
      } else {
        FreshFlags(r, front, e.chunk, es);
      }
    } else {
      QuietFlags(r, front, e, es);
    }
  }

  /** Any two intact chunks of one seq have the same payload checksum; their sample indices may differ. */
  ghost predicate NoConflicts(es: seq<Event>) {
    forall c, d :: Arrived(es, c) && Arrived(es, d) && c.seqNo == d.seqNo ==> c.crc32c == d.crc32c
  }

  /** Without conflicts, flagged at all means discontinuous, in any arrival order. */
  lemma FlaggedMeansDiscontinuous(es: seq<Event>)
    requires SeqsInRange(es) && NoConflicts(es)
    ensures AbsorbAll(es).flags != [] <==> Discontinuous(AbsorbAll(es).meta)
  {
    FlagsAreExact(es);
    var r := AbsorbAll(es);
    forall c | Arrived(es, c) ensures c.crc32c == r.meta[c.seqNo].crc32c {
      var d :| Arrived(es, d) && d.seqNo == c.seqNo && MetaOf(d) == r.meta[c.seqNo];
    }
    assert !Contradicted(r.meta, es);
    if r.flags != [] {
      assert r.flags[0] in r.flags;
    }
  }

  /** The exact sum of the sample counts of chunks 1..k-1. */
  ghost function SamplesBefore(meta: map<u32, ChunkMeta>, k: nat): nat
    requires k <= U32_MAX
  {
    if k <= 1 then 0
    else SamplesBefore(meta, k - 1) + (if k - 1 in meta then meta[k - 1].sampleCount else 0)
  }

  lemma {:induction false} SamplesBeforeBound(meta: map<u32, ChunkMeta>, k: nat)
    requires k <= U32_MAX
    ensures SamplesBefore(meta, k) <= k * U32_MAX
  {
    if k > 1 { SamplesBeforeBound(meta, k - 1); }
  }

  /** In a run 1..=k without discontinuity, chunk k starts at the exact sum of the counts before it, unsaturated. */
  lemma {:induction false} ExactStart(meta: map<u32, ChunkMeta>, k: nat)
    requires !Discontinuous(meta) && 1 <= k <= U32_MAX
    requires forall j :: 1 <= j <= k ==> j in meta
    ensures meta[k].firstSampleIndex == SamplesBefore(meta, k)
  {
    if k > 1 {
      ExactStart(meta, k - 1);
      assert !Disagree(meta, k - 1);
      NextStart(meta, k);
    }
  }

  lemma NextStart(meta: map<u32, ChunkMeta>, n: nat)
    requires 1 < n <= U32_MAX && n - 1 in meta && n in meta && !Disagree(meta, n - 1)
    requires meta[n - 1].firstSampleIndex == SamplesBefore(meta, n - 1)
    ensures meta[n].firstSampleIndex == SamplesBefore(meta, n)
  {
    SamplesBeforeBound(meta, n);
    assert n * U32_MAX <= U64_MAX;
  }

  /** An unflagged receiver's run of chunks 1..=n starts each chunk at the exact sum of the counts before it. */
  lemma UnflaggedRunIsExact(es: seq<Event>, n: u32)
    requires SeqsInRange(es) && AbsorbAll(es).flags == []
    requires forall k: u32 :: 1 <= k <= n ==> k in AbsorbAll(es).held
    ensures var meta := AbsorbAll(es).meta;
            forall k: u32 :: 1 <= k <= n ==> k in meta && meta[k].firstSampleIndex == SamplesBefore(meta, k)
  {
    FlagsAreExact(es);
    var meta := AbsorbAll(es).meta;
    forall k: u32 | 1 <= k <= n ensures k in meta && meta[k].firstSampleIndex == SamplesBefore(meta, k) {
      ExactStart(meta, k);
    }
  }

  // ---- flags are recorded once ---------------------------------------------------------------------------

  ghost predicate Once(flags: seq<StreamFlag>) {
    forall i, j :: 0 <= i < j < |flags| ==> flags[i] != flags[j]
  }

  lemma AbsorbFlags(r: State, e: Event)
    requires Once(r.flags)
    ensures Once(Absorb(r, e).flags) && r.flags <= Absorb(r, e).flags
  {
    hide CheckContinuity, Intact;
  }

  /** In every run a flag is never taken back, and never recorded twice. */
  lemma {:induction false} FlagsNeverRepeat(es: seq<Event>)
    ensures Once(AbsorbAll(es).flags)
    ensures es != [] ==> AbsorbAll(es[..|es| - 1]).flags <= AbsorbAll(es).flags
    decreases |es|
  {
    hide Absorb, Once;
    if es == [] {
      NoneTwice();
    } else {
      FlagsNeverRepeat(es[..|es| - 1]);
      AbsorbFlags(AbsorbAll(es[..|es| - 1]), es[|es| - 1]);
    }
  }

  lemma NoneTwice()
    ensures Once(NEW.flags)
  {
  }
}
