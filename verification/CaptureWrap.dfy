/** How long the capture ring stays in order: for every run exactly when its capacity divides the index width. */
module CaptureWrap {
  import opened CaptureRing

  lemma {:induction false} RunConcat(s: State, a: seq<Event>, b: seq<Event>)
    ensures Run(s, a + b) == Run(Run(s, a), b)
    decreases |a|
  {
    if a == [] {
      assert a + b == b;
    } else {
      assert (a + b)[1..] == a[1..] + b;
      RunConcat(Step(s, a[0]), a[1..], b);
    }
  }

  lemma RunThree(s: State, a: Event, b: Event, c: Event)
    ensures Run(s, [a, b, c]) == Step(Step(Step(s, a), b), c)
  {
    var t := Step(s, a);
    var u := Step(t, b);
    assert [a, b, c][1..] == [b, c] && [b, c][1..] == [c] && [c][1..] == [];
    assert Run(u, [c]) == Run(Step(u, c), []);
    assert Run(t, [b, c]) == Run(u, [c]);
  }

  // ---- calls that nothing interrupts ------------------------------------------------------------

  /** One sample offered: both index loads, the copy, the publication and the quantum count. */
  function OfferOne(x: Sample): seq<Event> {
    [Process([x]), WriterMove, WriterMove] + [WriterMove, WriterMove, WriterMove]
  }

  predicate Resting(s: State) {
    s.ring.writer == WriterIdle && s.ring.reader == ReaderIdle
  }

  /** The state with this sample stored in the cell the write index names. */
  function Stored(s: State, x: Sample): State {
    s.(ring := s.ring.(data := Put(s.ring.data, Cell(|s.ring.data|, s.ring.write, 1, 0), x)))
  }

  /** The state with this sample published. */
  function Published(s: State, x: Sample): State {
    State(s.ring.(write := Wrap(s.ring.write + 1), quanta := Wrap(s.ring.quanta + 1)),
          s.log.(published := s.log.published + [x], offered := s.log.offered + 1, accepted := s.log.accepted + 1))
  }

  function AfterOffer(s: State, x: Sample): State { Published(Stored(s, x), x) }

  function WithWriter(s: State, writer: Writer): State { s.(ring := s.ring.(writer := writer)) }

  lemma OfferBegins(s: State, x: Sample)
    requires Resting(s) && Wrap(s.ring.write - s.ring.read) + 1 <= |s.ring.data|
    ensures Run(s, [Process([x]), WriterMove, WriterMove])
            == WithWriter(Stored(s, x), CopyingIn([x], s.ring.write, 1))
  {
    RunThree(s, Process([x]), WriterMove, WriterMove);
    var loaded := Step(s, Process([x]));
    assert loaded == WithWriter(s, LoadedWrite([x], s.ring.write));
    var begun := Step(loaded, WriterMove);
    assert begun == WithWriter(s, CopyingIn([x], s.ring.write, 0));
  }

  lemma OfferEnds(t: State, x: Sample)
    requires Resting(t)
    ensures Run(WithWriter(t, CopyingIn([x], t.ring.write, 1)), [WriterMove, WriterMove, WriterMove])
            == Published(t, x)
  {
    RunThree(WithWriter(t, CopyingIn([x], t.ring.write, 1)), WriterMove, WriterMove, WriterMove);
  }

  lemma OfferOneEffect(s: State, x: Sample)
    requires Resting(s) && Wrap(s.ring.write - s.ring.read) + 1 <= |s.ring.data|
    ensures Run(s, OfferOne(x)) == AfterOffer(s, x)
  {
    hide Run, Wrap, Put, Cell, Published;
    RunConcat(s, [Process([x]), WriterMove, WriterMove], [WriterMove, WriterMove, WriterMove]);
    OfferBegins(s, x);
    OfferEnds(Stored(s, x), x);
  }

  /** One sample read: the index loads, the copy and the new read index. */
  function ReadOne(): seq<Event> {
    [BeginRead(1), ReaderMove, ReaderMove] + [ReaderMove, ReaderMove, ReaderMove]
  }

  function WithReader(s: State, reader: Reader): State { s.(ring := s.ring.(reader := reader)) }

  lemma ReadBegins(s: State)
    requires s.ring.reader == ReaderIdle && Wrap(s.ring.write - s.ring.read) >= 1
    ensures Run(s, [BeginRead(1), ReaderMove, ReaderMove]) == WithReader(s, CopyingOut(1, s.ring.read, []))
  {
    RunThree(s, BeginRead(1), ReaderMove, ReaderMove);
    var asked := Step(s, BeginRead(1));
    assert asked == WithReader(s, SawWrite(1, s.ring.write));
    var sized := Step(asked, ReaderMove);
    assert sized == WithReader(s, Sized(1));
  }

  lemma CopyStep(s: State, x: Sample)
    requires x == Get(s.ring.data, Cell(|s.ring.data|, s.ring.read, 1, 0))
    ensures Step(WithReader(s, CopyingOut(1, s.ring.read, [])), ReaderMove)
        == WithReader(s, CopyingOut(1, s.ring.read, [x]))
  {
    assert [] + [x] == [x];
  }

  /** The state once a read of this sample has returned. */
  function AfterRead(s: State, x: Sample): State {
    State(s.ring.(read := Wrap(s.ring.read + 1), reader := ReaderIdle),
          s.log.(taken := s.log.taken + [Given([x])]))
  }

  lemma GiveStep(s: State, x: Sample)
    ensures Step(WithReader(s, CopyingOut(1, s.ring.read, [x])), ReaderMove) == AfterRead(s, x)
  {
  }

  lemma IdleStep(s: State)
    requires s.ring.reader == ReaderIdle
    ensures Step(s, ReaderMove) == s
  {
  }

  /** A read of one sample, wherever the worklet is. */
  lemma ReadOneEffect(s: State, x: Sample)
    requires s.ring.reader == ReaderIdle && Wrap(s.ring.write - s.ring.read) >= 1
    requires x == Get(s.ring.data, Cell(|s.ring.data|, s.ring.read, 1, 0))
    ensures Run(s, ReadOne()) == AfterRead(s, x)
  {
    hide Step;
    var mid := WithReader(s, CopyingOut(1, s.ring.read, []));
    RunConcat(s, [BeginRead(1), ReaderMove, ReaderMove], [ReaderMove, ReaderMove, ReaderMove]);
    ReadBegins(s);
    RunThree(mid, ReaderMove, ReaderMove, ReaderMove);
    CopyStep(s, x);
    GiveStep(s, x);
    IdleStep(AfterRead(s, x));
  }

  // ---- a run that reaches the end of the index ----------------------------------------------------

  /** n silent samples, each read as soon as it was published. */
  function Rounds(n: nat): seq<Event> {
    if n == 0 then [] else Rounds(n - 1) + (OfferOne(0.0) + ReadOne())
  }

  /** n silent samples published, and none read. */
  function Offers(n: nat): seq<Event> {
    if n == 0 then [] else Offers(n - 1) + OfferOne(0.0)
  }

  /** Nothing but silence so far: n samples taken, and j more waiting. */
  predicate Waiting(s: State, capacity: nat, n: nat, j: nat) {
    && Resting(s)
    && s.ring.read == Wrap(n) && s.ring.write == Wrap(n + j) && |s.ring.data| == capacity
    && Position(s.log.taken) == n && |s.log.published| == n + j
    && forall i :: 0 <= i < n + j ==> s.log.published[i] == 0.0
  }

  lemma PositionSnoc(taken: seq<Taken>, t: Taken)
    ensures Position(taken + [t]) == Position(taken) + Moved(t)
  {
    assert (taken + [t])[..|taken|] == taken;
  }

  lemma OfferWaits(s: State, capacity: nat, n: nat, j: nat)
    requires Waiting(s, capacity, n, j) && j < capacity < 0x1_0000_0000
    ensures Waiting(Run(s, OfferOne(0.0)), capacity, n, j + 1)
  {
    hide Run, OfferOne, Wrap;
    WrapDifference(n + j, n);
    OfferOneEffect(s, 0.0);
    WrapSum(n + j, 1);
  }

  lemma ReadMoves(s: State, x: Sample, capacity: nat, n: nat)
    requires Waiting(s, capacity, n, 1)
    ensures Waiting(AfterRead(s, x), capacity, n + 1, 0)
  {
    hide Wrap;
    PositionSnoc(s.log.taken, Given([x]));
    WrapSum(n, 1);
  }

  lemma ReadDrains(s: State, capacity: nat, n: nat)
    requires Waiting(s, capacity, n, 1)
    ensures Waiting(Run(s, ReadOne()), capacity, n + 1, 0)
  {
    hide Run, ReadOne, AfterRead, Get, Cell;
    var x := Get(s.ring.data, Cell(capacity, s.ring.read, 1, 0));
    ReadMoves(s, x, capacity, n);
    WrapDifference(n + 1, n);
    ReadOneEffect(s, x);
  }

  lemma {:induction false} RoundsDrain(capacity: nat, n: nat)
    requires 1 <= capacity < 0x1_0000_0000
    ensures Waiting(Run(Start(capacity), Rounds(n)), capacity, n, 0)
  {
    if n == 0 {
      NothingYet(capacity);
    } else {
      hide Run, OfferOne, ReadOne, Waiting;
      RoundsDrain(capacity, n - 1);
      var before := Run(Start(capacity), Rounds(n - 1));
      OfferWaits(before, capacity, n - 1, 0);
      ReadDrains(Run(before, OfferOne(0.0)), capacity, n - 1);
      RunConcat(before, OfferOne(0.0), ReadOne());
      RunConcat(Start(capacity), Rounds(n - 1), OfferOne(0.0) + ReadOne());
    }
  }

  lemma NothingYet(capacity: nat)
    ensures Waiting(Run(Start(capacity), []), capacity, 0, 0)
  {
  }

  lemma {:induction false} OffersWait(s: State, capacity: nat, n: nat, j: nat)
    requires Waiting(s, capacity, n, 0) && j <= capacity < 0x1_0000_0000
    ensures Waiting(Run(s, Offers(j)), capacity, n, j)
  {
    if j > 0 {
      OffersWait(s, capacity, n, j - 1);
      hide Run, OfferOne;
      OfferWaits(Run(s, Offers(j - 1)), capacity, n, j - 1);
      RunConcat(s, Offers(j - 1), OfferOne(0.0));
    }
  }

  /** Samples before the end of the index since the buffer's first cell was last written. */
  function Tail(capacity: nat): nat
    requires capacity > 0
  {
    0x1_0000_0000 % capacity
  }

  /** The index value at which that cell was written names the cell, and so does the index after the last one. */
  lemma TailCells(capacity: nat)
    requires capacity > 0
    ensures var n := 0x1_0000_0000 - Tail(capacity);
            n >= 0 && (Tail(capacity) > 0 ==> Cell(capacity, n, 1, 0) == 0) && Cell(capacity, 0, 1, 0) == 0
  {
    var turns := 0x1_0000_0000 / capacity;
    ModUnique(0x1_0000_0000 - Tail(capacity), turns, 0, capacity);
  }

  /** A loud sample on its way in: its copy has been made, and it has not been published. */
  function CopyOnly(): seq<Event> { [Process([1.0]), WriterMove, WriterMove] }

  /** With all index values used up, the copy lands on a sample still waiting, and the worker reads it there. */
  lemma CopySpoils(s: State, capacity: nat)
    requires 1 <= capacity < 0x1_0000_0000 && Tail(capacity) > 0
    requires Waiting(s, capacity, 0x1_0000_0000 - Tail(capacity), Tail(capacity))
    ensures var l := Run(Run(s, CopyOnly()), ReadOne()).log;
            l == s.log.(taken := s.log.taken + [Given([1.0])])
  {
    hide Run, ReadOne;
    TailCells(capacity);
    WrapDifference(0x1_0000_0000, 0x1_0000_0000 - Tail(capacity));
    OfferBegins(s, 1.0);
    ReadOneEffect(WithWriter(Stored(s, 1.0), CopyingIn([1.0], s.ring.write, 1)), 1.0);
  }

  /** The run: silence read up to the tail, the tail left waiting, one copy, and one read. */
  function AcrossTheWrap(capacity: nat): seq<Event>
    requires capacity > 0
  {
    var tail := Tail(capacity);
    TailCells(capacity);
    Rounds(0x1_0000_0000 - tail) + (Offers(tail) + (CopyOnly() + ReadOne()))
  }

  /** With any other capacity, the worker can be given a sample out of order once as many samples are published as
      there are index values. */
  lemma WrapBreaksFifo(capacity: nat)
    requires 1 <= capacity < 0x1_0000_0000 && 0x1_0000_0000 % capacity != 0
    ensures var s := Run(Start(capacity), AcrossTheWrap(capacity));
            !Fifo(s.log.published, s.log.taken) && |s.log.published| == 0x1_0000_0000
  {
    hide Run, Rounds, Offers, CopyOnly, ReadOne;
    var tail := Tail(capacity);
    var n := 0x1_0000_0000 - tail;
    TailCells(capacity);
    RoundsDrain(capacity, n);
    var drained := Run(Start(capacity), Rounds(n));
    OffersWait(drained, capacity, n, tail);
    var waiting := Run(drained, Offers(tail));
    CopySpoils(waiting, capacity);
    NotTheNext(waiting.log.published, waiting.log.taken);
    RunConcat(waiting, CopyOnly(), ReadOne());
    RunConcat(drained, Offers(tail), CopyOnly() + ReadOne());
    RunConcat(Start(capacity), Rounds(n), Offers(tail) + (CopyOnly() + ReadOne()));
  }

  lemma NotTheNext(published: seq<Sample>, taken: seq<Taken>)
    requires Position(taken) < |published| && published[Position(taken)] == 0.0
    ensures !Fifo(published, taken + [Given([1.0])])
  {
    var after, position := taken + [Given([1.0])], Position(taken);
    assert after[..|after| - 1] == taken;
    assert position + 1 <= |published| ==> published[position..position + 1][0] == 0.0;
    assert [1.0][0] == 1.0;
  }

  /** Every run that publishes no more than so many samples is in order if and only if they are fewer than the index
      values, or the capacity divides the number of index values. */
  lemma FifoExactlyUpTo(capacity: nat, limit: nat)
    requires 1 <= capacity < 0x1_0000_0000
    ensures (forall events: seq<Event> ::
               var l := Run(Start(capacity), events).log; |l.published| <= limit ==> Fifo(l.published, l.taken))
            <==> limit < 0x1_0000_0000 || 0x1_0000_0000 % capacity == 0
  {
    if limit < 0x1_0000_0000 || 0x1_0000_0000 % capacity == 0 {
      forall events: seq<Event>
        ensures var l := Run(Start(capacity), events).log; |l.published| <= limit ==> Fifo(l.published, l.taken)
      {
        if |Run(Start(capacity), events).log.published| <= limit {
          EveryRunIsFifo(capacity, events);
        }
      }
    } else {
      WrapBreaksFifo(capacity);
    }
  }

  /** Every run of a ring is in order if and only if its capacity divides the number of index values. */
  lemma FifoExactlyWhenDividing(capacity: nat)
    requires 1 <= capacity < 0x1_0000_0000
    ensures (forall events: seq<Event> ::
               var s := Run(Start(capacity), events); Fifo(s.log.published, s.log.taken))
            <==> 0x1_0000_0000 % capacity == 0
  {
    if 0x1_0000_0000 % capacity == 0 {
      forall events: seq<Event>
        ensures var s := Run(Start(capacity), events); Fifo(s.log.published, s.log.taken)
      {
        EveryRunIsFifo(capacity, events);
      }
    } else {
      WrapBreaksFifo(capacity);
    }
  }
}
