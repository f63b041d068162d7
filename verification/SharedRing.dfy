/** The capture ring as the two programs write it, one call at a time; CaptureRing covers their interleavings. */
module SharedRing {
  import opened Machine
  import opened CaptureRing

  /** The shared buffer: header slots and cells. `published` and `position` are the absolute history. */
  class Buffer {
    var write: u32
    var read: u32
    var dropped: u32
    var emptyQuanta: u32
    var quanta: u32
    const data: array<Sample>
    ghost var published: seq<Sample>
    ghost var position: nat

    ghost predicate Valid()
      reads this, data
    {
      && data.Length < 0x1_0000_0000
      && position <= |published| <= position + data.Length
      && write == Wrap(|published|) && read == Wrap(position)
      && Holds(data[..], published, position)
    }

    constructor (capacity: u32)
      ensures Valid() && fresh(data) && data.Length == capacity
      ensures published == [] && position == 0 && dropped == 0 && emptyQuanta == 0 && quanta == 0
    {
      data := new Sample[capacity](_ => 0.0);
      write, read, dropped, emptyQuanta, quanta := 0, 0, 0, 0, 0;
      published, position := [], 0;
    }

    /** The worklet's callback: publishes the whole channel behind what is unread, or counts it as dropped. */
    method Process(channel: seq<Sample>)
      requires Valid() && Faithful(data.Length, |published|)
      modifies this, data
      ensures Valid() && position == old(position) && read == old(read)
      ensures channel == [] ==>
                published == old(published) && dropped == old(dropped) && quanta == old(quanta)
                && emptyQuanta == Wrap(old(emptyQuanta) + 1)
      ensures channel != [] && old(|published| - position) + |channel| > data.Length ==>
                published == old(published) && dropped == Wrap(old(dropped) + |channel|)
                && quanta == old(quanta) && emptyQuanta == old(emptyQuanta)
      ensures channel != [] && old(|published| - position) + |channel| <= data.Length ==>
                published == old(published) + channel && dropped == old(dropped)
                && quanta == Wrap(old(quanta) + 1) && emptyQuanta == old(emptyQuanta)
    {
      if channel == [] {
        emptyQuanta := Wrap(emptyQuanta + 1);
        return;
      }
      WrapDifference(|published|, position);
      var used := Wrap(write - read);
      if used + |channel| > data.Length {
        dropped := Wrap(dropped + |channel|);
        return;
      }
      CopyIn(channel);
      WrapSum(|published|, |channel|);
      write := Wrap(write + |channel|);
      published := published + channel;
      quanta := Wrap(quanta + 1);
    }

    /** The two copy loops: up to the end of the buffer, then from its start. */
    method CopyIn(channel: seq<Sample>)
      requires Valid() && Faithful(data.Length, |published|) && channel != []
      requires |published| + |channel| <= position + data.Length
      modifies data
      ensures Holds(data[..], published + channel, position)
    {
      var pos := write % data.Length;
      var first := Min(|channel|, data.Length - pos);
      assert channel[..0] == [] && published + [] == published;
      for i := 0 to first
        invariant Holds(data[..], published + channel[..i], position)
      {
        StoreKeeps(data[..], published, channel, i, position, pos + i);
        data[pos + i] := channel[i];
      }
      for i := first to |channel|
        invariant Holds(data[..], published + channel[..i], position)
      {
        StoreKeeps(data[..], published, channel, i, position, i - first);
        data[i - first] := channel[i];
      }
      assert channel[..|channel|] == channel;
    }

    method Available() returns (n: u32)
      requires Valid()
      ensures n == |published| - position
    {
      WrapDifference(|published|, position);
      n := Wrap(write - read);
    }

    /** Hands over the oldest unread samples, at most `max` of them, and moves past them. */
    method Read(max: nat) returns (out: array<Sample>)
      requires Valid() && Faithful(data.Length, position)
      modifies this
      ensures Valid() && fresh(out) && published == old(published) && dropped == old(dropped)
      ensures out.Length == Min(old(|published| - position), max) && position == old(position) + out.Length
      ensures out[..] == published[old(position)..position]
    {
      var available := Available();
      var n := Min(available, max);
      out := new Sample[n](_ => 0.0);
      if n == 0 {
        return;
      }
      CopyOut(out);
      WrapSum(position, n);
      read := Wrap(read + n);
      position := position + n;
    }

    /** The two copies: up to the end of the buffer, then from its start. */
    method CopyOut(out: array<Sample>)
      requires Valid() && Faithful(data.Length, position) && out != data
      requires 0 < out.Length <= |published| - position
      modifies out
      ensures Valid() && out[..] == published[position..position + out.Length]
    {
      var n := out.Length;
      var pos := read % data.Length;
      var first := Min(n, data.Length - pos);
      ghost var cells, wanted := data[..], published[position..position + n];
      for i := 0 to first
        invariant data[..] == cells && out[..i] == wanted[..i]
      {
        LoadFinds(cells, published, position, n, i, pos + i);
        out[i] := data[pos + i];
      }
      for i := first to n
        invariant data[..] == cells && out[..i] == wanted[..i]
      {
        LoadFinds(cells, published, position, n, i, i - first);
        out[i] := data[i - first];
      }
      assert out[..n] == out[..] && wanted[..n] == wanted;
    }

    /** Discards everything published so far. */
    method SnapToWrite()
      requires Valid()
      modifies this
      ensures Valid() && published == old(published) && position == |published| && dropped == old(dropped)
    {
      read := write;
      position := |published|;
    }

    method ResetDropped()
      requires Valid()
      modifies this`dropped
      ensures Valid() && dropped == 0
    {
      dropped := 0;
    }
  }

  /** Storing the next sample of a channel at its cell extends what the cells hold by that sample. */
  lemma StoreKeeps(data: seq<Sample>, published: seq<Sample>, channel: seq<Sample>, i: nat, lo: nat, cell: nat)
    requires i < |channel| && lo <= |published| && |published| + |channel| <= lo + |data| && |channel| <= |data|
    requires Faithful(|data|, |published|) && Holds(data, published + channel[..i], lo)
    requires cell == Cell(|data|, Wrap(|published|), |channel|, i)
    ensures cell < |data| && Holds(data[cell := channel[i]], published + channel[..i + 1], lo)
  {
    CellIs(|data|, |published|, |channel|, i);
    var whole := published + channel[..i];
    PutKeeps(data, whole, lo, channel[i]);
    assert whole + [channel[i]] == published + channel[..i + 1];
  }

  /** The cell of the i-th sample to be read holds it. */
  lemma LoadFinds(data: seq<Sample>, published: seq<Sample>, lo: nat, n: nat, i: nat, cell: nat)
    requires i < n <= |data| && lo + n <= |published| && Faithful(|data|, lo) && Holds(data, published, lo)
    requires cell == Cell(|data|, Wrap(lo), n, i)
    ensures cell < |data| && data[cell] == published[lo..lo + n][i]
  {
    CellIs(|data|, lo, n, i);
    assert HeldAt(data, published, lo + i);
  }
}
