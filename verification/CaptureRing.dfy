/**
 * The shared ring between the capture worklet, its only writer, and the encoder worker, its only reader. Every
 * atomic access and every cell copy is a step of its own, and a run is any interleaving of the two sides' steps.
 */
module CaptureRing {
  import opened Machine

  type Sample = real

  /** Header slots and positions wrap at the width of a 32-bit word. */
  function Wrap(x: int): u32 { x % 0x1_0000_0000 }

  /** Where the worklet is in process(). */
  datatype Writer =
    | WriterIdle
    | LoadedWrite(channel: seq<Sample>, write: u32)
    | Refusing(channel: seq<Sample>)
    | CopyingIn(channel: seq<Sample>, write: u32, done: nat)
    | CountingQuantum

  /** Where the worker is in read() or snapToWrite(). */
  datatype Reader =
    | ReaderIdle
    | SawWrite(max: nat, write: u32)
    | Sized(n: nat)
    | CopyingOut(n: nat, read: u32, out: seq<Sample>)
    | Snapping(write: u32)

  datatype Ring = Ring(
    write: u32,
    read: u32,
    dropped: u32,
    emptyQuanta: u32,
    quanta: u32,
    data: seq<Sample>,
    writer: Writer,
    reader: Reader)

  /** What the reader has moved past, in order: samples it was given, or samples it skipped. */
  datatype Taken = Given(samples: seq<Sample>) | Skipped(count: nat)

  /** History: samples published and taken in all; samples offered and accepted since the counter was reset. */
  datatype Log = Log(published: seq<Sample>, taken: seq<Taken>, offered: nat, accepted: nat)

  datatype State = State(ring: Ring, log: Log)

  function Start(capacity: nat): State {
    State(Ring(0, 0, 0, 0, 0, seq(capacity, _ => 0.0), WriterIdle, ReaderIdle), Log([], [], 0, 0))
  }

  datatype Event =
    | Process(channel: seq<Sample>)
    | WriterMove
    | BeginRead(max: nat)
    | BeginSnap
    | ReaderMove
    | ResetDropped

  // ---- one step ---------------------------------------------------------------------------------

  /** The cell of the i-th of n samples laid out from an index on: up to the end of the buffer, then from its start. */
  function Cell(capacity: nat, index: u32, n: nat, i: nat): int {
    var pos := if capacity == 0 then 0 else index % capacity;
    var first := Min(n, capacity - pos);
    if i < first then pos + i else i - first
  }

  /** A typed-array store; one outside the array does nothing. */
  function Put(data: seq<Sample>, cell: int, x: Sample): (r: seq<Sample>)
    ensures |r| == |data|
  {
    if 0 <= cell < |data| then data[cell := x] else data
  }

  function Get(data: seq<Sample>, cell: int): Sample {
    if 0 <= cell < |data| then data[cell] else 0.0
  }

  function WriterStep(r: Ring): Ring {
    match r.writer
    case WriterIdle => r
    case LoadedWrite(channel, write) =>
      if Wrap(write - r.read) + |channel| > |r.data| then r.(writer := Refusing(channel))
      else r.(writer := CopyingIn(channel, write, 0))
    case Refusing(channel) => r.(dropped := Wrap(r.dropped + |channel|), writer := WriterIdle)
    case CopyingIn(channel, write, done) =>
      if done < |channel| then
        r.(data := Put(r.data, Cell(|r.data|, write, |channel|, done), channel[done]),
           writer := CopyingIn(channel, write, done + 1))
      else r.(write := Wrap(write + |channel|), writer := CountingQuantum)
    case CountingQuantum => r.(quanta := Wrap(r.quanta + 1), writer := WriterIdle)
  }

  function ReaderStep(r: Ring): Ring {
    match r.reader
    case ReaderIdle => r
    case SawWrite(max, write) =>
      var n := Min(Wrap(write - r.read), max);
      r.(reader := if n == 0 then ReaderIdle else Sized(n))
    case Sized(n) => r.(reader := CopyingOut(n, r.read, []))
    case CopyingOut(n, read, out) =>
      if |out| < n then
        r.(reader := CopyingOut(n, read, out + [Get(r.data, Cell(|r.data|, read, n, |out|))]))
      else r.(read := Wrap(read + n), reader := ReaderIdle)
    case Snapping(write) => r.(read := write, reader := ReaderIdle)
  }

  /** Each side starts a call only when its last one has returned. */
  function Next(r: Ring, e: Event): Ring {
    match e
    case Process(channel) =>
      if !r.writer.WriterIdle? then r
      else if channel == [] then r.(emptyQuanta := Wrap(r.emptyQuanta + 1))
      else r.(writer := LoadedWrite(channel, r.write))
    case WriterMove => WriterStep(r)
    case BeginRead(max) => if r.reader.ReaderIdle? then r.(reader := SawWrite(max, r.write)) else r
    case BeginSnap => if r.reader.ReaderIdle? then r.(reader := Snapping(r.write)) else r
    case ReaderMove => ReaderStep(r)
    case ResetDropped => if r.reader.ReaderIdle? then r.(dropped := 0) else r
  }

  /** What a step adds to the history; the ring never looks at it. */
  function Record(l: Log, r: Ring, e: Event): Log {
    match e
    case WriterMove =>
      (match r.writer
       case Refusing(channel) => l.(offered := l.offered + |channel|)
       case CopyingIn(channel, _, done) =>
         if done < |channel| then l
         else l.(published := l.published + channel,
                 offered := l.offered + |channel|, accepted := l.accepted + |channel|)
       case _ => l)
    case ReaderMove =>
      (match r.reader
       case CopyingOut(n, _, out) => if |out| < n then l else l.(taken := l.taken + [Given(out)])
       case Snapping(write) => l.(taken := l.taken + [Skipped(Wrap(write - r.read))])
       case _ => l)
    case ResetDropped => if r.reader.ReaderIdle? then l.(offered := 0, accepted := 0) else l
    case _ => l
  }

  function Step(s: State, e: Event): State { State(Next(s.ring, e), Record(s.log, s.ring, e)) }

  function Run(s: State, events: seq<Event>): State
    decreases |events|
  {
    if events == [] then s else Run(Step(s, events[0]), events[1..])
  }

  // ---- what the reader was promised -------------------------------------------------------------

  function Moved(t: Taken): nat {
    match t
    case Given(samples) => |samples|
    case Skipped(count) => count
  }

  /** How far the reader has moved. */
  function Position(taken: seq<Taken>): nat {
    if taken == [] then 0 else Position(taken[..|taken| - 1]) + Moved(taken[|taken| - 1])
  }

  /** Samples given or skipped are the published ones, each once and in order. */
  predicate Fifo(published: seq<Sample>, taken: seq<Taken>)
    decreases |taken|
  {
    && Position(taken) <= |published|
    && (taken != [] ==>
          var rest, last := taken[..|taken| - 1], taken[|taken| - 1];
          && Fifo(published, rest)
          && Position(rest) + Moved(last) <= |published|
          && (last.Given? ==> last.samples == published[Position(rest)..Position(rest) + |last.samples|]))
  }

  /** A position survives wrapping: nothing has wrapped yet, or the wrap is a whole number of turns. */
  predicate Faithful(capacity: nat, position: nat) {
    position < 0x1_0000_0000 || capacity == 0 || 0x1_0000_0000 % capacity == 0
  }

  // ---- index arithmetic -------------------------------------------------------------------------

  lemma ProductOrder(a: int, b: int, c: nat)
    ensures a < b ==> a * c + c <= b * c
  {
    assert (a + 1) * c == a * c + c;
  }

  lemma ModUnique(x: int, q: int, rest: int, c: int)
    requires c > 0 && 0 <= rest < c && x == q * c + rest
    ensures x % c == rest
  {
    var q', r' := x / c, x % c;
    assert x == q' * c + r';
    ProductOrder(q, q', c);
    ProductOrder(q', q, c);
  }

  lemma WrapDifference(a: nat, b: nat)
    requires 0 <= a - b < 0x1_0000_0000
    ensures Wrap(Wrap(a) - Wrap(b)) == a - b
  {
  }

  lemma WrapSum(a: nat, n: nat)
    ensures Wrap(Wrap(a) + n) == Wrap(a + n)
  {
  }

  /** Going from one index by the wrapped distance to another lands on the other. */
  lemma WrapLands(from: u32, to: u32)
    ensures Wrap(from + Wrap(to - from)) == to
  {
  }

  /** Reducing an index that wrapped equals reducing the position itself. */
  lemma FaithfulIndex(capacity: nat, position: nat)
    requires capacity > 0 && Faithful(capacity, position)
    ensures Wrap(position) % capacity == position % capacity
  {
    if position >= 0x1_0000_0000 {
      var turns, wraps := 0x1_0000_0000 / capacity, position / 0x1_0000_0000;
      var low := Wrap(position);
      assert 0x1_0000_0000 == turns * capacity;
      assert wraps * 0x1_0000_0000 == (wraps * turns) * capacity by {
        assert wraps * (turns * capacity) == (wraps * turns) * capacity;
      }
      assert position == (wraps * turns) * capacity + low;
      var q := low / capacity;
      assert low == q * capacity + low % capacity;
      assert (wraps * turns + q) * capacity == (wraps * turns) * capacity + q * capacity;
      ModUnique(position, wraps * turns + q, low % capacity, capacity);
    }
  }

  /** The two-part layout is the position modulo the capacity. */
  lemma CellIs(capacity: nat, position: nat, n: nat, i: nat)
    requires i < n <= capacity && Faithful(capacity, position)
    ensures Cell(capacity, Wrap(position), n, i) == (position + i) % capacity
  {
    FaithfulIndex(capacity, position);
    var pos, turns := position % capacity, position / capacity;
    assert position == turns * capacity + pos;
    if pos + i < capacity {
      ModUnique(position + i, turns, pos + i, capacity);
    } else {
      assert (turns + 1) * capacity == turns * capacity + capacity;
      ModUnique(position + i, turns + 1, pos + i - capacity, capacity);
    }
  }

  /** Positions less than one turn apart have different cells. */
  lemma CellsDiffer(capacity: nat, a: nat, b: nat)
    requires capacity > 0 && a < b < a + capacity
    ensures a % capacity != b % capacity
  {
    if a % capacity == b % capacity {
      var p, q := a / capacity, b / capacity;
      var rest := a % capacity;
      assert a == p * capacity + rest && b == q * capacity + rest;
      ProductOrder(p, q, capacity);
      ProductOrder(q, p, capacity);
    }
  }

  // ---- the invariant ----------------------------------------------------------------------------

  predicate HeldAt(data: seq<Sample>, whole: seq<Sample>, k: nat)
    requires k < |whole|
  {
    0 < |data| && data[k % |data|] == whole[k]
  }

  /** The cells of every position from lo on hold that list's samples. */
  predicate Holds(data: seq<Sample>, whole: seq<Sample>, lo: nat) {
    forall k :: lo <= k < |whole| ==> HeldAt(data, whole, k)
  }

  /** The published samples, and behind them what the worklet has copied in but not published. */
  function Staged(w: Writer, published: seq<Sample>): seq<Sample> {
    if w.CopyingIn? && w.done <= |w.channel| then published + w.channel[..w.done] else published
  }

  /** The worklet's private view: its index is current, and its channel fits even behind a stale read index. */
  predicate WriterOk(r: Ring, published: nat, position: nat) {
    match r.writer
    case LoadedWrite(channel, write) => write == r.write
    case CopyingIn(channel, write, done) =>
      write == r.write && done <= |channel| && published + |channel| <= position + |r.data|
    case _ => true
  }

  /** The worker's private view: its index is current, and what it means to take is published. */
  predicate ReaderOk(r: Ring, published: seq<Sample>, position: nat) {
    match r.reader
    case ReaderIdle => true
    case SawWrite(_, write) => position + Wrap(write - r.read) <= |published|
    case Sized(n) => position + n <= |published|
    case CopyingOut(n, read, out) =>
      read == r.read && |out| <= n && position + n <= |published| && out == published[position..position + |out|]
    case Snapping(write) => position + Wrap(write - r.read) <= |published|
  }

  predicate Indices(r: Ring, published: nat, position: nat) {
    && |r.data| < 0x1_0000_0000
    && position <= published <= position + |r.data|
    && r.write == Wrap(published)
    && r.read == Wrap(position)
  }

  predicate Inv(s: State) {
    var r, published, position := s.ring, s.log.published, Position(s.log.taken);
    && Indices(r, |published|, position)
    && Holds(r.data, Staged(r.writer, published), position)
    && WriterOk(r, |published|, position)
    && ReaderOk(r, published, position)
    && Fifo(published, s.log.taken)
    && s.log.accepted <= s.log.offered
    && r.dropped == Wrap(s.log.offered - s.log.accepted)
  }

  // ---- what each step keeps ---------------------------------------------------------------------

  /** Storing one sample more, less than a turn ahead of the reader, spoils no unread cell. */
  lemma PutKeeps(data: seq<Sample>, whole: seq<Sample>, lo: nat, x: Sample)
    requires lo <= |whole| < lo + |data| && Holds(data, whole, lo)
    ensures Holds(data[|whole| % |data| := x], whole + [x], lo)
  {
    var after, longer := data[|whole| % |data| := x], whole + [x];
    forall k | lo <= k < |longer| ensures HeldAt(after, longer, k) {
      if k < |whole| {
        assert HeldAt(data, whole, k);
        CellsDiffer(|data|, k, |whole|);
      }
    }
  }

  /** Publishing more leaves what the reader has taken as it was. */
  lemma {:induction false} FifoExtended(published: seq<Sample>, more: seq<Sample>, taken: seq<Taken>)
    requires Fifo(published, taken)
    ensures Fifo(published + more, taken)
    decreases |taken|
  {
    if taken != [] {
      FifoExtended(published, more, taken[..|taken| - 1]);
    }
  }

  lemma FifoSnoc(published: seq<Sample>, taken: seq<Taken>, t: Taken)
    requires Fifo(published, taken) && Position(taken) + Moved(t) <= |published|
    requires t.Given? ==> t.samples == published[Position(taken)..Position(taken) + |t.samples|]
    ensures Fifo(published, taken + [t]) && Position(taken + [t]) == Position(taken) + Moved(t)
  {
    assert (taken + [t])[..|taken|] == taken;
  }

  lemma CopyInKeeps(s: State)
    requires Inv(s) && Faithful(|s.ring.data|, |s.log.published|)
    requires s.ring.writer.CopyingIn? && s.ring.writer.done < |s.ring.writer.channel|
    ensures Inv(Step(s, WriterMove))
  {
    hide Fifo, Wrap, Cell;
    var r, published := s.ring, s.log.published;
    var channel, done := r.writer.channel, r.writer.done;
    CellIs(|r.data|, |published|, |channel|, done);
    PutKeeps(r.data, published + channel[..done], Position(s.log.taken), channel[done]);
    assert published + channel[..done] + [channel[done]] == published + channel[..done + 1];
  }

  /** Publishing more leaves the worker's view as it was. */
  lemma ReaderOkGrows(r: Ring, t: Ring, published: seq<Sample>, more: seq<Sample>, position: nat)
    requires ReaderOk(r, published, position) && t.reader == r.reader && t.read == r.read
    ensures ReaderOk(t, published + more, position)
  {
    if r.reader.CopyingOut? {
      var n := |r.reader.out|;
      assert (published + more)[position..position + n] == published[position..position + n];
    }
  }

  lemma PublishKeeps(s: State)
    requires Inv(s) && s.ring.writer.CopyingIn? && s.ring.writer.done == |s.ring.writer.channel|
    ensures Inv(Step(s, WriterMove))
  {
    var l, channel, t := s.log, s.ring.writer.channel, Step(s, WriterMove);
    var position := Position(l.taken);
    assert channel[..|channel|] == channel;
    assert t.log.published == l.published + channel;
    assert Staged(t.ring.writer, t.log.published) == Staged(s.ring.writer, l.published);
    FifoExtended(l.published, channel, l.taken);
    ReaderOkGrows(s.ring, t.ring, l.published, channel, position);
    assert Indices(t.ring, |t.log.published|, position) by {
      WrapSum(|l.published|, |channel|);
    }
    assert t.log.offered - t.log.accepted == l.offered - l.accepted;
  }

  /** A step that leaves the indices, the cells and what was taken alone only has its own fields to answer for. */
  lemma IndicesUntouched(s: State, t: State)
    requires Inv(s)
    requires t.ring.write == s.ring.write && t.ring.read == s.ring.read && t.ring.data == s.ring.data
    requires t.log.published == s.log.published && t.log.taken == s.log.taken
    requires WriterOk(t.ring, |s.log.published|, Position(s.log.taken))
    requires Staged(t.ring.writer, s.log.published) == Staged(s.ring.writer, s.log.published)
    requires ReaderOk(t.ring, s.log.published, Position(s.log.taken))
    requires t.log.accepted <= t.log.offered && t.ring.dropped == Wrap(t.log.offered - t.log.accepted)
    ensures Inv(t)
  {
  }

  lemma DecideKeeps(s: State)
    requires Inv(s) && s.ring.writer.LoadedWrite?
    ensures Inv(Step(s, WriterMove))
  {
    hide Holds, Fifo;
    WrapDifference(|s.log.published|, Position(s.log.taken));
    IndicesUntouched(s, Step(s, WriterMove));
  }

  lemma RefuseKeeps(s: State)
    requires Inv(s) && s.ring.writer.Refusing?
    ensures Inv(Step(s, WriterMove))
  {
    var offered, accepted, n := s.log.offered, s.log.accepted, |s.ring.writer.channel|;
    WrapSum(offered - accepted, n);
    assert offered + n - accepted == offered - accepted + n;
    IndicesUntouched(s, Step(s, WriterMove));
  }

  lemma WriterKeeps(s: State)
    requires Inv(s) && Faithful(|s.ring.data|, |s.log.published|)
    ensures Inv(Step(s, WriterMove))
  {
    var writer := s.ring.writer;
    if writer.CopyingIn? {
      if writer.done < |writer.channel| {
        CopyInKeeps(s);
      } else {
        PublishKeeps(s);
      }
    } else if writer.LoadedWrite? {
      DecideKeeps(s);
    } else if writer.Refusing? {
      RefuseKeeps(s);
    } else {
      IndicesUntouched(s, Step(s, WriterMove));
    }
  }

  lemma StagedHoldsPublished(data: seq<Sample>, w: Writer, published: seq<Sample>, lo: nat)
    requires Holds(data, Staged(w, published), lo)
    ensures Holds(data, published, lo)
  {
    forall k | lo <= k < |published| ensures HeldAt(data, published, k) {
      assert HeldAt(data, Staged(w, published), k);
    }
  }

  lemma CopyOutKeeps(s: State)
    requires Inv(s) && Faithful(|s.ring.data|, |s.log.published|)
    requires s.ring.reader.CopyingOut? && |s.ring.reader.out| < s.ring.reader.n
    ensures Inv(Step(s, ReaderMove))
  {
    CopyOutView(s);
    hide ReaderOk, Holds, Fifo, Get, Cell;
    IndicesUntouched(s, Step(s, ReaderMove));
  }

  /** The cell the worker copies next holds the next published sample. */
  lemma CopyOutView(s: State)
    requires Inv(s) && Faithful(|s.ring.data|, |s.log.published|)
    requires s.ring.reader.CopyingOut? && |s.ring.reader.out| < s.ring.reader.n
    ensures ReaderOk(Step(s, ReaderMove).ring, s.log.published, Position(s.log.taken))
  {
    var r, l := s.ring, s.log;
    var n, out, position := r.reader.n, r.reader.out, Position(l.taken);
    CellIs(|r.data|, position, n, |out|);
    StagedHoldsPublished(r.data, r.writer, l.published, position);
    assert HeldAt(r.data, l.published, position + |out|);
    assert out + [l.published[position + |out|]] == l.published[position..position + |out| + 1];
  }

  /** Moving the read index up to samples already published frees cells and nothing else. */
  lemma TakeKeeps(s: State, t: Taken)
    requires Inv(s) && Step(s, ReaderMove).log == s.log.(taken := s.log.taken + [t])
    requires Position(s.log.taken) + Moved(t) <= |s.log.published|
    requires t.Given? ==> t.samples == s.log.published[Position(s.log.taken)..Position(s.log.taken) + |t.samples|]
    requires Step(s, ReaderMove).ring == s.ring.(read := Wrap(Position(s.log.taken) + Moved(t)), reader := ReaderIdle)
    ensures Inv(Step(s, ReaderMove))
  {
    FifoSnoc(s.log.published, s.log.taken, t);
  }

  lemma GiveKeeps(s: State)
    requires Inv(s)
    requires s.ring.reader.CopyingOut? && |s.ring.reader.out| >= s.ring.reader.n
    ensures Inv(Step(s, ReaderMove))
  {
    WrapSum(Position(s.log.taken), s.ring.reader.n);
    TakeKeeps(s, Given(s.ring.reader.out));
  }

  lemma SnapKeeps(s: State)
    requires Inv(s) && s.ring.reader.Snapping?
    ensures Inv(Step(s, ReaderMove))
  {
    var ahead := Wrap(s.ring.reader.write - s.ring.read);
    WrapLands(s.ring.read, s.ring.reader.write);
    WrapSum(Position(s.log.taken), ahead);
    TakeKeeps(s, Skipped(ahead));
  }

  /** Looking at the indices changes neither of them. */
  lemma LookKeeps(s: State)
    requires Inv(s) && !s.ring.reader.CopyingOut? && !s.ring.reader.Snapping?
    ensures Inv(Step(s, ReaderMove))
  {
    IndicesUntouched(s, Step(s, ReaderMove));
  }

  lemma ReaderKeeps(s: State)
    requires Inv(s) && Faithful(|s.ring.data|, |s.log.published|)
    ensures Inv(Step(s, ReaderMove))
  {
    hide Inv, Step, Faithful;
    var reader := s.ring.reader;
    if reader.CopyingOut? {
      if |reader.out| < reader.n {
        CopyOutKeeps(s);
      } else {
        GiveKeeps(s);
      }
    } else if reader.Snapping? {
      SnapKeeps(s);
    } else {
      LookKeeps(s);
    }
  }

  lemma ProcessKeeps(s: State, channel: seq<Sample>)
    requires Inv(s)
    ensures Inv(Step(s, Process(channel)))
  {
    hide Holds, Fifo, Wrap;
    IndicesUntouched(s, Step(s, Process(channel)));
  }

  /** The worker loads the write index, which says no more than is published. */
  lemma BeginKeeps(s: State, e: Event)
    requires Inv(s) && (e.BeginRead? || e.BeginSnap?)
    ensures Inv(Step(s, e))
  {
    hide Holds, Fifo;
    WrapDifference(|s.log.published|, Position(s.log.taken));
    IndicesUntouched(s, Step(s, e));
  }

  lemma ResetKeeps(s: State)
    requires Inv(s)
    ensures Inv(Step(s, ResetDropped))
  {
    hide Holds, Fifo, WriterOk, ReaderOk, Staged;
    var t := Step(s, ResetDropped);
    if t != s { SameViews(s, t); }
  }

  /** Both sides' views are about the fields this leaves alone. */
  lemma SameViews(s: State, t: State)
    requires Inv(s) && t == State(s.ring.(dropped := 0), s.log.(offered := 0, accepted := 0))
    ensures Inv(t)
  {
    hide Holds, Fifo;
  }

  lemma OtherKeeps(s: State, e: Event)
    requires Inv(s) && !e.WriterMove? && !e.ReaderMove?
    ensures Inv(Step(s, e))
  {
    hide Inv, Step;
    match e
    case Process(channel) => ProcessKeeps(s, channel);
    case ResetDropped => ResetKeeps(s);
    case _ => BeginKeeps(s, e);
  }

  // ---- every run --------------------------------------------------------------------------------

  lemma {:induction false} PublishedGrows(s: State, events: seq<Event>)
    ensures |s.log.published| <= |Run(s, events).log.published|
    ensures |Run(s, events).ring.data| == |s.ring.data|
    decreases |events|
  {
    if events != [] {
      PublishedGrows(Step(s, events[0]), events[1..]);
    }
  }

  lemma {:induction false} RunKeeps(s: State, events: seq<Event>)
    requires Inv(s) && Faithful(|s.ring.data|, |Run(s, events).log.published|)
    ensures Inv(Run(s, events))
    decreases |events|
  {
    if events != [] {
      hide Inv, Step;
      PublishedGrows(s, events);
      match events[0] {
        case WriterMove => WriterKeeps(s);
        case ReaderMove => ReaderKeeps(s);
        case _ => OtherKeeps(s, events[0]);
      }
      RunKeeps(Step(s, events[0]), events[1..]);
    }
  }

  /** Under any interleaving, while positions survive wrapping: the reader gets or skips exactly the published
      samples in order, every published sample not yet taken is still in its cell, and what the worklet was offered
      since the last reset is what it published plus what the counter says it dropped. */
  lemma EveryRunIsFifo(capacity: u32, events: seq<Event>)
    requires Faithful(capacity, |Run(Start(capacity), events).log.published|)
    ensures var s := Run(Start(capacity), events);
            && Fifo(s.log.published, s.log.taken)
            && Holds(s.ring.data, s.log.published, Position(s.log.taken))
            && s.log.accepted <= s.log.offered
            && s.ring.dropped == Wrap(s.log.offered - s.log.accepted)
            && Wrap(s.ring.write - s.ring.read) == |s.log.published| - Position(s.log.taken)
  {
    RunKeeps(Start(capacity), events);
    var s := Run(Start(capacity), events);
    StagedHoldsPublished(s.ring.data, s.ring.writer, s.log.published, Position(s.log.taken));
    WrapDifference(|s.log.published|, Position(s.log.taken));
  }
}
