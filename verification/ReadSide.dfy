/** The server's database-side recomputation of marks, holes and completeness, against the live engine's. */
module ReadSide {
  import opened Machine
  import opened Sets
  import opened Ranges
  import opened Frames
  import Receiver
  import FlacFile

  // ---- the queries as they run ------------------------------------------------------------------

  /** The stored seqs together with every seq of the gap rows. */
  method Have(seqs: seq<u32>, gaps: seq<SeqRange>) returns (have: set<u32>)
    ensures have == Elems(seqs) + Members(gaps)
  {
    have := set s | s in seqs;
    for g := 0 to |gaps|
      invariant have == Elems(seqs) + Members(gaps[..g])
    {
      MembersSnoc(gaps, g);
      have := AddRange(have, gaps[g]);
    }
    assert gaps[..|gaps|] == gaps;
  }

  method AddRange(start: set<u32>, r: SeqRange) returns (have: set<u32>)
    ensures have == start + Span(r)
  {
    have := start;
    var i: int := r.start;
    while i <= r.end
      invariant r.start <= i
      invariant forall x: u32 :: x in have <==> x in start || (r.start <= x < i && x <= r.end)
      decreases r.end + 1 - i
    {
      have := have + {i};
      i := i + 1;
    }
  }

  /** The contiguous mark: the end of the run from 0, and none when 0 is missing. */
  ghost predicate IsMark(have: set<u32>, mark: Option<u32>) {
    match mark
    case None => 0 !in have
    case Some(m) => (forall x: u32 :: x <= m ==> x in have) && (m < U32_MAX ==> m + 1 !in have)
  }

  method ComputeChwm(seqs: seq<u32>, gaps: seq<SeqRange>) returns (mark: Option<u32>)
    ensures IsMark(Elems(seqs) + Members(gaps), mark)
  {
    var have := Have(seqs, gaps);
    var chwm := -1;
    while chwm + 1 <= U32_MAX && chwm + 1 in have
      invariant -1 <= chwm <= U32_MAX && forall x: u32 :: x <= chwm ==> x in have
      decreases U32_MAX - chwm
    {
      chwm := chwm + 1;
    }
    mark := if chwm >= 0 then Some(chwm) else None;
  }

  /** The greatest of the stored seqs, or -1. */
  method Greatest(seqs: seq<u32>) returns (top: int)
    ensures seqs == [] ==> top == -1
    ensures seqs != [] ==> top in seqs
    ensures forall s :: s in seqs ==> s <= top
  {
    top := -1;
    for i := 0 to |seqs|
      invariant i == 0 ==> top == -1
      invariant i > 0 ==> top in seqs[..i]
      invariant forall s :: s in seqs[..i] ==> s <= top
    {
      assert seqs[..i + 1] == seqs[..i] + [seqs[i]];
      if seqs[i] > top { top := seqs[i]; }
    }
    assert seqs[..|seqs|] == seqs;
  }

  /** Up to where the query looks: the final seq if known, else the greatest stored one. */
  ghost function QueryHorizon(held: set<u32>, final: Option<u32>): int {
    if final.Some? then final.value else if held == {} then -1 else Latest(held)
  }

  ghost function QueryHoles(held: set<u32>, gaps: set<u32>, final: Option<u32>): seq<SeqRange> {
    RangesOf(Below(QueryHorizon(held, final) + 1) - (held + gaps))
  }

  method ComputeHoles(seqs: seq<u32>, final: Option<u32>, gaps: seq<SeqRange>) returns (holes: seq<SeqRange>)
    ensures holes == QueryHoles(Elems(seqs), Members(gaps), final)
  {
    var have := Have(seqs, gaps);
    var horizon := -1;
    if final.Some? { horizon := final.value; } else { horizon := Greatest(seqs); }
    GreatestIs(seqs, horizon, final);
    holes := MissingUpTo(have, horizon);
  }

  /** The scan from seq 0 on: a hole opens at a seq that is not there, and closes before the next one that is. */
  method MissingUpTo(have: set<u32>, horizon: int) returns (holes: seq<SeqRange>)
    requires -1 <= horizon <= U32_MAX
    ensures holes == RangesOf(Below(horizon + 1) - have)
  {
    hide Scanned, Canonical, RangesOf;
    holes := [];
    var start: Option<u32> := None;
    var i := 0;
    ScanBegins(have);
    while i <= horizon
      invariant 0 <= i <= horizon + 1
      invariant Scanned(have, holes, start, i) && (start.Some? ==> start.value < i)
      decreases horizon + 1 - i
    {
      ScanStep(have, holes, start, i);
      if i !in have {
        if start == None { start := Some(i); }
      } else if start != None {
        holes := holes + [SeqRange(start.value, i - 1)];
        start := None;
      }
      i := i + 1;
    }
    ScanEnds(have, holes, start, i);
    if start != None { holes := holes + [SeqRange(start.value, horizon)]; }
    RangesOfFacts(Below(horizon + 1) - have);
  }

  lemma GreatestIs(seqs: seq<u32>, top: int, final: Option<u32>)
    requires final.Some? ==> top == final.value
    requires final.None? ==> (seqs == [] ==> top == -1) && (seqs != [] ==> top in seqs) && forall s :: s in seqs ==>
        s <= top
    ensures top == QueryHorizon(Elems(seqs), final)
  {
    if final.None? && seqs != [] {
      assert seqs[0] in Elems(seqs);
      assert top in Elems(seqs);
    } else if final.None? {
      assert Elems(seqs) == {};
    }
  }

  /** Holes closed so far, and the one still open, are exactly what is missing below i. */
  ghost predicate Scanned(have: set<u32>, holes: seq<SeqRange>, start: Option<u32>, i: int) {
    && Canonical(holes)
    && (forall k :: 0 <= k < |holes| ==> holes[k].end + 1 < (if start.Some? then start.value else i))
    && (start.Some? ==> start.value < i && forall x: u32 :: start.value <= x < i ==> x !in have)
    && forall x: u32 :: Covers(holes, x) <==> x < (if start.Some? then start.value else i) && x !in have
  }

  /** Closing the open hole. */
  lemma Close(have: set<u32>, holes: seq<SeqRange>, start: u32, i: int)
    requires Scanned(have, holes, Some(start), i) && i <= U32_MAX + 1
    ensures var more := holes + [SeqRange(start, i - 1)];
            && Canonical(more)
            && (forall k :: 0 <= k < |more| ==> more[k].end < i)
            && forall x: u32 :: Covers(more, x) <==> x < i && x !in have
  {
    PushCovers(holes, SeqRange(start, i - 1));
  }

  lemma ScanBegins(have: set<u32>)
    ensures Scanned(have, [], None, 0)
  {
  }

  lemma ScanEnds(have: set<u32>, holes: seq<SeqRange>, start: Option<u32>, i: int)
    requires Scanned(have, holes, start, i) && 0 <= i <= U32_MAX + 1
    ensures var all := if start.None? then holes else holes + [SeqRange(start.value, i - 1)];
            Canonical(all) && Members(all) == Below(i) - have
  {
    if start.Some? { Close(have, holes, start.value, i); }
  }

  lemma ScanStep(have: set<u32>, holes: seq<SeqRange>, start: Option<u32>, i: u32)
    requires Scanned(have, holes, start, i)
    ensures i !in have ==> Scanned(have, holes, if start.None? then Some(i) else start, i + 1)
    ensures i in have && start.Some? ==> Scanned(have, holes + [SeqRange(start.value, i - 1)], None, i + 1)
    ensures i in have && start.None? ==> Scanned(have, holes, None, i + 1)
  {
    if i in have && start.Some? { Close(have, holes, start.value, i); }
  }

  /** The status rule of the summary: complete and settled, from the holes and the row count. */
  method Verdicts(seqs: seq<u32>, final: Option<u32>, gaps: seq<SeqRange>) returns (complete: bool, settled: bool)
    ensures complete <==> QueryComplete(Elems(seqs), Members(gaps), final, |seqs|)
    ensures settled <==> QuerySettled(Elems(seqs), Members(gaps), final)
  {
    var holes := ComputeHoles(seqs, final, gaps);
    settled := final.Some? && |holes| == 0;
    complete := settled && |seqs| == final.value + 1;
  }

  ghost predicate QuerySettled(held: set<u32>, gaps: set<u32>, final: Option<u32>) {
    final.Some? && QueryHoles(held, gaps, final) == []
  }

  ghost predicate QueryComplete(held: set<u32>, gaps: set<u32>, final: Option<u32>, rows: nat) {
    QuerySettled(held, gaps, final) && rows == final.value + 1
  }

  // ---- agreement with the engine --------------------------------------------------------------------

  /** The mark computed from the rows is the receiver's own, for every receiver state; "none" is the sentinel. */
  lemma MarksAgree(r: Receiver.State, seqs: seq<u32>, gaps: seq<SeqRange>, mark: Option<u32>)
    requires Elems(seqs) == r.held && Members(gaps) == r.gaps && IsMark(Elems(seqs) + Members(gaps), mark)
    ensures Receiver.Chwm(r) == if mark.None? then CHWM_NONE else mark.value
  {
    var have := r.held + r.gaps;
    Receiver.ContiguousEndFacts(have);
    if mark.Some? {
      Receiver.ContiguousEndUnique(have, mark.value);
    }
  }

  /** No stored seq beyond the final one, or no final known. */
  ghost predicate NoStray(r: Receiver.State) { r.final.Some? ==> forall s :: s in r.held ==> s <= r.final.value }

  lemma NoHoles(s: set<u32>)
    ensures RangesOf(s) == [] <==> s == {}
  {
    RangesOfFacts(s);
    assert Canonical([]) && Members([]) == {};
  }

  /** The query's hole list is the engine's, exactly when the engine has no hole beyond the final seq. */
  lemma HolesAgree(r: Receiver.State)
    ensures QueryHoles(r.held, r.gaps, r.final) == Receiver.Holes(r)
       <==> (r.final.Some? ==> forall x :: x in Receiver.HoleSet(r) ==> x <= r.final.value)
  {
    var query := Below(QueryHorizon(r.held, r.final) + 1) - (r.held + r.gaps);
    RangesOfFacts(query);
    RangesOfFacts(Receiver.HoleSet(r));
    if r.final.Some? {
      if forall x :: x in Receiver.HoleSet(r) ==> x <= r.final.value {
        assert query == Receiver.HoleSet(r);
      } else {
        var x :| x in Receiver.HoleSet(r) && x > r.final.value;
        assert x !in query;
      }
    } else {
      assert query == Receiver.HoleSet(r);
    }
  }

  /** "Settled" is one rule on both sides, for every receiver state. */
  lemma SettledAgrees(r: Receiver.State)
    ensures QuerySettled(r.held, r.gaps, r.final) <==> Receiver.Settled(r)
  {
    if r.final.Some? {
      var missing := Below(r.final.value + 1) - (r.held + r.gaps);
      NoHoles(missing);
      if missing == {} {
        forall x | x in Below(r.final.value + 1) ensures x in r.held + r.gaps { assert x !in missing; }
      }
    }
  }

  /** "Complete" counts rows; without stray seqs the count is right. */
  lemma CompleteAgrees(r: Receiver.State)
    requires NoStray(r)
    ensures QueryComplete(r.held, r.gaps, r.final, |r.held|) <==> Receiver.Complete(r)
  {
    SettledAgrees(r);
    if r.final.Some? {
      BelowSize(r.final.value + 1);
      FlacFile.AscendingSize(r.held);
      if |r.held| == r.final.value + 1 { FlacFile.CountTellsCompleteness(r.held, r.final.value); }
      if Receiver.Complete(r) { assert r.held == Below(r.final.value + 1); }
    }
  }

  /** The count can be right only by leaving out as many seqs as lie beyond the final one. */
  lemma StrayIsNotComplete(r: Receiver.State)
    requires QueryComplete(r.held, r.gaps, r.final, |r.held|) && Receiver.Complete(r)
    ensures NoStray(r)
  {
    var whole := Below(r.final.value + 1);
    BelowSize(r.final.value + 1);
    if whole < r.held {
      FlacFile.ProperSubsetSize(whole, r.held);
    }
  }

  /** Exactly when the two agree: there is no stray seq, or neither side calls the stream complete. */
  lemma CompleteAgreesExactly(r: Receiver.State)
    ensures (QueryComplete(r.held, r.gaps, r.final, |r.held|) <==> Receiver.Complete(r))
       <==> (NoStray(r) || !(QueryComplete(r.held, r.gaps, r.final, |r.held|) || Receiver.Complete(r)))
  {
    if NoStray(r) {
      CompleteAgrees(r);
    } else if QueryComplete(r.held, r.gaps, r.final, |r.held|) && Receiver.Complete(r) {
      StrayIsNotComplete(r);
    }
  }

  /** With a stray seq the count misleads both ways: whole takes look short, and short takes look whole. */
  lemma StraySeqsMislead()
    ensures var whole := Receiver.NEW.(held := {0, 1, 2}, final := Some(1));
            Receiver.Complete(whole) && !QueryComplete(whole.held, whole.gaps, whole.final, |whole.held|)
    ensures var short := Receiver.NEW.(held := {0, 2}, gaps := {1}, final := Some(1));
            !Receiver.Complete(short) && QueryComplete(short.held, short.gaps, short.final, |short.held|)
  {
    var whole := Receiver.NEW.(held := {0, 1, 2}, final := Some(1));
    var short := Receiver.NEW.(held := {0, 2}, gaps := {1}, final := Some(1));
    assert 1 in Below(2) && 1 !in short.held;
    SettledAgrees(short);
  }
}
