/** The sink-side stream engine as it runs: fields updated in place, proved against the receiver's state functions. */
module StreamReceiver {
  import opened Machine
  import opened Sets
  import opened Ranges
  import opened Frames
  import Crc32c
  import Receiver

  class StreamReceiver {
    const held: RangeSet
    var meta: map<u32, Receiver.ChunkMeta>
    const declaredGaps: RangeSet
    var finalSeq: Option<u32>
    var flags: seq<Receiver.StreamFlag>

    ghost function Repr(): set<object> { {this, held, declaredGaps} }

    ghost predicate Valid()
      reads Repr()
    {
      held != declaredGaps && held.Valid() && declaredGaps.Valid()
    }

    ghost function Abs(): Receiver.State
      reads Repr()
    {
      Receiver.State(held.Contents(), meta, declaredGaps.Contents(), finalSeq, flags)
    }

    constructor ()
      ensures Valid() && fresh(Repr())
      ensures Abs() == Receiver.NEW
    {
      held := new RangeSet();
      declaredGaps := new RangeSet();
      meta := map[];
      finalSeq := None;
      flags := [];
    }

    /** Crash recovery: reload one held chunk's metadata from durable storage. */
    method RebuildOne(s: u32, m: Receiver.ChunkMeta)
      requires Valid()
      modifies Repr()
      ensures Valid()
      ensures Abs() == Receiver.RebuildOne(old(Abs()), s, m)
    {
      held.Insert(s);
      meta := meta[s := m];
    }

    method SetFinalSeq(f: u32)
      requires Valid()
      modifies this
      ensures Valid()
      ensures Abs() == Receiver.SetFinal(old(Abs()), f)
    {
      match finalSeq {
        case None => finalSeq := Some(f);
        case Some(existing) =>
          if existing != f { finalSeq := Some(Max(existing, f)); }
      }
    }

    method PushFlag(flag: Receiver.StreamFlag)
      requires Valid()
      modifies this
      ensures Valid()
      ensures flags == Receiver.AddFlag(old(flags), flag) && meta == old(meta) && finalSeq == old(finalSeq)
    {
      if flag !in flags { flags := flags + [flag]; }
    }

    /** Ingest one chunk; `seq + 1` must not overflow. */
    method Ingest(chunk: AudioChunk) returns (outcome: Receiver.Outcome)
      requires Valid() && chunk.seqNo < U32_MAX
      modifies Repr()
      ensures Valid()
      ensures (Abs(), outcome) == Receiver.Ingest(old(Abs()), chunk)
    {
      var computed := Crc32c.Compute(chunk.payload);
      if computed != chunk.crc32c {
        return Receiver.CorruptPayload(chunk.crc32c, computed);
      }
      if chunk.seqNo in meta {
        var existing := meta[chunk.seqNo];
        if existing.crc32c == chunk.crc32c { return Receiver.Duplicate; }
        PushFlag(Receiver.CrcConflict(chunk.seqNo, existing.crc32c, chunk.crc32c));
        return Receiver.FatalCrcConflict(existing.crc32c, chunk.crc32c);
      }
      var continuity := Receiver.CheckContinuity(meta, chunk);
      held.Insert(chunk.seqNo);
      meta := meta[chunk.seqNo := Receiver.MetaOf(chunk)];
      match continuity {
        case Some(pair) =>
          PushFlag(Receiver.Discontinuity(chunk.seqNo, pair.0, pair.1));
          outcome := Receiver.ContinuityViolation(pair.0, pair.1);
        case None =>
          outcome := Receiver.Stored;
      }
    }

    method RecordGaps(ranges: seq<SeqRange>)
      requires Valid()
      modifies Repr()
      ensures Valid()
      ensures Abs() == Receiver.RecordGaps(old(Abs()), ranges)
    {
      for i := 0 to |ranges|
        invariant Valid() && Abs() == Receiver.RecordGaps(old(Abs()), ranges[..i])
      {
        MembersSnoc(ranges, i);
        declaredGaps.InsertRange(ranges[i]);
      }
      assert ranges[..|ranges|] == ranges;
    }

    /** Contiguous high-water mark; declared gaps count as satisfied. */
    method Chwm() returns (mark: u32)
      requires Valid()
      ensures mark == Receiver.Chwm(Abs())
    {
      var satisfied := held.Union(declaredGaps);
      satisfied.Representation();
      var end := satisfied.ContiguousFromZero();
      mark := if end.Some? then end.value else CHWM_NONE;
    }

    /** Missing ranges worth requesting. */
    method Holes() returns (holes: seq<SeqRange>)
      requires Valid()
      ensures holes == Receiver.Holes(Abs())
    {
      var top := held.Max();
      var horizon: u32;
      match (top, finalSeq) {
        case (Some(m), Some(f)) => horizon := Max(m, f);
        case (Some(m), None) => horizon := m;
        case (None, Some(f)) => horizon := f;
        case (None, None) =>
          RangesOfFacts({});
          assert Canonical([]) && Members([]) == {};
          return [];
      }
      var missing := held.MissingWithin(SeqRange(0, horizon));
      var wanted := missing.Subtract(declaredGaps);
      wanted.Representation();
      assert Span(SeqRange(0, horizon)) == Below(horizon + 1);
      holes := wanted.ranges;
    }

    method AckStatus(stream: StreamKey) returns (ack: Frames.AckStatus)
      requires Valid()
      ensures ack == Receiver.AckOf(Abs(), stream)
    {
      var mark := Chwm();
      var holes := Holes();
      ack := Frames.AckStatus(stream, mark, holes);
    }

    /** What we hold that the other sink's summary lacks: exactly what a replication push sends. */
    method PlanPush(theirHave: RangeSet) returns (push: RangeSet)
      requires Valid() && theirHave.Valid()
      ensures fresh(push) && push.Valid()
      ensures push.Contents() == Abs().held - theirHave.Contents()
    {
      push := held.Subtract(theirHave);
    }

    /** The explicit request for all holes, in frame-sized batches. */
    method BackfillRequest(stream: StreamKey) returns (requests: seq<RangeList>)
      requires Valid()
      ensures |requests| == |SplitForFrames(Receiver.Holes(Abs()))|
      ensures forall i :: 0 <= i < |requests| ==>
          requests[i] == RangeList(stream, SplitForFrames(Receiver.Holes(Abs()))[i])
    {
      var holes := Holes();
      var batches := SplitForFrames(holes);
      requests := seq(|batches|, i requires 0 <= i < |batches| => RangeList(stream, batches[i]));
    }

    method IsComplete() returns (b: bool)
      requires Valid()
      ensures b <==> Receiver.Complete(Abs())
    {
      match finalSeq {
        case Some(f) =>
          var missing := held.MissingWithin(SeqRange(0, f));
          missing.EmptyMeans();
          b := missing.IsEmpty();
          NoneMissing(f, held.Contents());
        case None => b := false;
      }
    }

    method IsSettled() returns (b: bool)
      requires Valid()
      ensures b <==> Receiver.Settled(Abs())
    {
      match finalSeq {
        case Some(f) =>
          var satisfied := held.Union(declaredGaps);
          var missing := satisfied.MissingWithin(SeqRange(0, f));
          missing.EmptyMeans();
          b := missing.IsEmpty();
          NoneMissing(f, satisfied.Contents());
        case None => b := false;
      }
    }
  }
}
