/** What the sender reads out of an ACK_STATUS is exactly what the receiver put in. */
module AckReading {
  import opened Machine
  import opened Sets
  import opened Ranges
  import opened Frames
  import Receiver
  import Sender

  /** Between canonical holes: from the cursor up to the last hole, everything that is not a hole. */
  lemma {:induction false} BetweenHolesFacts(cursor: u32, holes: seq<SeqRange>)
    requires Canonical(holes)
    requires holes != [] ==> cursor <= holes[0].start
    ensures forall x: u32 :: x in Sender.BetweenHoles(cursor, holes) <==>
              holes != [] && cursor <= x < holes[|holes| - 1].start && !Covers(holes, x)
    decreases |holes|
  {
    if holes != [] {
      var h, rest := holes[0], holes[1..];
      var next: u32 := if h.end == U32_MAX then U32_MAX else h.end + 1;
      CanonicalTail(holes);
      assert rest != [] ==> rest[0] == holes[1] && rest[|rest| - 1] == holes[|holes| - 1];
      BetweenHolesFacts(next, rest);
      forall x: u32 ensures x in Sender.BetweenHoles(cursor, holes) <==>
                              cursor <= x < holes[|holes| - 1].start && !Covers(holes, x) {
        assert Covers(holes, x) <==> h.Contains(x) || Covers(rest, x) by { CoversSplit([h], rest, holes); }
        if Covers(rest, x) { FirstRun(rest); }
      }
    }
  }

  /** Every seq the receiver knows of is a real seq: below the CHWM_NONE sentinel. */
  ghost predicate InRange(r: Receiver.State) {
    && (forall x :: x in r.held + r.gaps ==> x < CHWM_NONE)
    && (r.final.Some? ==> r.final.value < CHWM_NONE)
  }

  /** The mark, read back: chwm is NONE exactly when 0 is missing, and otherwise ends the run from 0. */
  lemma MarkFacts(r: Receiver.State)
    requires InRange(r)
    ensures Receiver.Chwm(r) == CHWM_NONE <==> 0 !in r.held + r.gaps
    ensures Receiver.Chwm(r) != CHWM_NONE ==>
              Below(Receiver.Chwm(r) + 1) <= r.held + r.gaps && Receiver.Chwm(r) + 1 !in r.held + r.gaps
  {
    var s := r.held + r.gaps;
    Receiver.ContiguousEndFacts(s);
    if 0 in s {
      var m := Receiver.ContiguousEnd(s).value;
      assert m in Below(m + 1);
    }
  }

  /** The seqs an ACK vouches for: at or below the mark, or below the start of the last hole. */
  ghost predicate Vouched(ack: AckStatus, x: u32) {
    || (ack.chwm != CHWM_NONE && x <= ack.chwm)
    || (ack.holes != [] && x < ack.holes[|ack.holes| - 1].start)
  }

  /** Everything up to a reported mark is held or declared lost. */
  lemma MarkBelow(r: Receiver.State)
    ensures Receiver.Chwm(r) != CHWM_NONE ==> Below(Receiver.Chwm(r) + 1) <= r.held + r.gaps
  {
    Receiver.ContiguousEndFacts(r.held + r.gaps);
  }

  /** A receiver's holes lie above its mark, and below the last hole everything else is held or declared lost. */
  lemma HoleFacts(r: Receiver.State, stream: StreamKey)
    ensures var ack := Receiver.AckOf(r, stream);
            && Canonical(ack.holes) && Members(ack.holes) == Receiver.HoleSet(r)
            && (ack.holes != [] ==>
              && (if ack.chwm == CHWM_NONE then 0 else ack.chwm + 1) <= ack.holes[0].start
              && (forall y: u32 :: y < ack.holes[|ack.holes| - 1].start ==>
                   (y in Receiver.HoleSet(r) <==> y !in r.held + r.gaps)))
  {
    var ack := Receiver.AckOf(r, stream);
    RangesOfFacts(Receiver.HoleSet(r));
    MarkBelow(r);
    if ack.holes != [] {
      var first, last := ack.holes[0], ack.holes[|ack.holes| - 1];
      assert first.Contains(first.start) && last.Contains(last.start);
      assert first.start in Members(ack.holes) && last.start in Members(ack.holes);
      assert first.start !in Below(ack.chwm + 1) || ack.chwm == CHWM_NONE;
    }
  }

  /** Reading back an ACK: the proven set is exactly the seqs held or declared lost that the ACK vouches for. */
  lemma AckReadsBack(r: Receiver.State, stream: StreamKey)
    ensures forall x: u32 :: x in Sender.ProvenBy(Receiver.AckOf(r, stream)) <==>
              x in r.held + r.gaps && Vouched(Receiver.AckOf(r, stream), x)
  {
    forall x: u32 ensures x in Sender.ProvenBy(Receiver.AckOf(r, stream)) <==>
                            x in r.held + r.gaps && Vouched(Receiver.AckOf(r, stream), x) {
      AckReadsBackAt(r, stream, x);
    }
  }

  lemma AckReadsBackAt(r: Receiver.State, stream: StreamKey, x: u32)
    ensures x in Sender.ProvenBy(Receiver.AckOf(r, stream)) <==>
              x in r.held + r.gaps && Vouched(Receiver.AckOf(r, stream), x)
  {
    var ack := Receiver.AckOf(r, stream);
    HoleFacts(r, stream);
    MarkBelow(r);
    ReadAt(ack, r.held + r.gaps, Receiver.HoleSet(r), x);
  }

  /** The same for any mark and holes that fit together: holes above the mark, only holes missing below the last. */
  lemma ReadAt(ack: AckStatus, s: set<u32>, missing: set<u32>, x: u32)
    requires Canonical(ack.holes) && Members(ack.holes) == missing
    requires ack.chwm != CHWM_NONE ==> Below(ack.chwm + 1) <= s
    requires ack.holes != [] ==> (if ack.chwm == CHWM_NONE then 0 else ack.chwm + 1) <= ack.holes[0].start
    requires ack.holes != [] ==> forall y: u32 :: y < ack.holes[|ack.holes| - 1].start ==> (y in missing <==> y !in s)
    ensures x in Sender.ProvenBy(ack) <==> x in s && Vouched(ack, x)
  {
    var cursor: u32 := if ack.chwm == CHWM_NONE then 0 else ack.chwm + 1;
    BetweenHolesFacts(cursor, ack.holes);
    assert x in missing <==> Covers(ack.holes, x);
    assert ack.chwm != CHWM_NONE ==> (x in Below(ack.chwm + 1) <==> x <= ack.chwm);
  }

  /** An ACK stays a sound claim however late it is read: what it proves is within anything the sink holds by then. */
  lemma AckStaysSound(then_: Receiver.State, now: Receiver.State, stream: StreamKey)
    requires then_.held <= now.held && then_.gaps <= now.gaps
    ensures Sender.ProvenBy(Receiver.AckOf(then_, stream)) <= now.held + now.gaps
  {
    AckReadsBack(then_, stream);
  }

  /** A settled receiver's ACK proves the whole stream. */
  lemma SettledAckProvesAll(r: Receiver.State, stream: StreamKey)
    requires InRange(r) && Receiver.Settled(r)
    ensures Below(r.final.value + 1) <= Sender.ProvenBy(Receiver.AckOf(r, stream))
  {
    AckReadsBack(r, stream);
    MarkFacts(r);
    var f := r.final.value;
    assert forall x: u32 :: x <= f ==> x in r.held + r.gaps;
  }
}
