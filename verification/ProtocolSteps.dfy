/** Every step of the system keeps the invariant and only adds to history, gaps and durable stores. */
module ProtocolSteps {
  import opened Machine
  import opened Sets
  import opened Ranges
  import opened Frames
  import Ring
  import Receiver
  import Sender
  import opened SenderFacts
  import opened AckReading
  import opened Protocol

  // ---- a sink's moves ---------------------------------------------------------

  /** A genuine chunk is always accepted or recognised: never corrupt, conflicting or discontinuous. */
  lemma GenuineIngest(n: Node, log: seq<AudioChunk>, gaps: set<u32>, final: Option<u32>, nextFirst: u64, c: AudioChunk)
    requires NodeOk(n, log, gaps, final) && LogOk(log) && TimelineOk(log, nextFirst)
    requires c.seqNo < |log| && c == log[c.seqNo]
    ensures var (recv, outcome) := Receiver.Ingest(n.recv, c);
            && outcome == (if c.seqNo in n.recv.held then Receiver.Duplicate else Receiver.Stored)
            && recv.flags == [] && recv.gaps == n.recv.gaps && recv.final == n.recv.final
            && recv.held == n.recv.held + {c.seqNo}
            && recv.meta == (if c.seqNo in n.recv.held then n.recv.meta else n.recv.meta[c.seqNo := Receiver.MetaOf(c)])
  {
    GenuineContinues(n.recv.meta, log, nextFirst, c);
    if c.seqNo in n.recv.held {
      assert n.recv.meta[c.seqNo] == Receiver.MetaOf(c);
    }
  }

  /** A genuine chunk never disagrees with genuine neighbours. */
  lemma GenuineContinues(meta: map<u32, Receiver.ChunkMeta>, log: seq<AudioChunk>, nextFirst: u64, c: AudioChunk)
    requires forall s :: s in meta ==> s < |log| && meta[s] == Receiver.MetaOf(log[s])
    requires TimelineOk(log, nextFirst) && c.seqNo < |log| && c == log[c.seqNo]
    requires forall i :: 0 <= i < |log| ==> log[i].seqNo == i
    ensures Receiver.CheckContinuity(meta, c) == None
  {
    TimelineBounds(log, nextFirst);
    if c.seqNo > 0 {
      assert log[c.seqNo - 1].firstSampleIndex + log[c.seqNo - 1].sampleCount == c.firstSampleIndex;
    }
  }

  /** The end of every chunk is a valid sample index: the saturating sums of the continuity check never saturate. */
  lemma {:induction false} TimelineBounds(log: seq<AudioChunk>, nextFirst: u64)
    requires TimelineOk(log, nextFirst)
    ensures forall i :: 0 <= i < |log| ==> log[i].firstSampleIndex + log[i].sampleCount <= nextFirst
    decreases |log|
  {
    if |log| > 1 {
      var front := log[..|log| - 1];
      var last := log[|log| - 1];
      assert front[|front| - 1] == log[|log| - 2];
      TimelinePrefix(front, last.firstSampleIndex);
      forall i | 0 <= i < |log| ensures log[i].firstSampleIndex + log[i].sampleCount <= nextFirst {
        if i < |log| - 1 { assert front[i] == log[i]; }
      }
    }
  }

  lemma {:induction false} TimelinePrefix(log: seq<AudioChunk>, nextFirst: u64)
    requires |log| > 0
    requires log[|log| - 1].firstSampleIndex + log[|log| - 1].sampleCount == nextFirst
    requires forall i :: 0 < i < |log| ==>
        log[i].firstSampleIndex == log[i - 1].firstSampleIndex + log[i - 1].sampleCount
    ensures forall i :: 0 <= i < |log| ==> log[i].firstSampleIndex + log[i].sampleCount <= nextFirst
    decreases |log|
  {
    if |log| > 1 {
      var front := log[..|log| - 1];
      TimelinePrefix(front, log[|log| - 1].firstSampleIndex);
      forall i | 0 <= i < |log| ensures log[i].firstSampleIndex + log[i].sampleCount <= nextFirst {
        if i < |log| - 1 { assert front[i] == log[i]; }
      }
    }
  }

  lemma ReceiveKeeps(n: Node, log: seq<AudioChunk>, gaps: set<u32>, final: Option<u32>, nextFirst: u64, f: Frame)
    requires NodeOk(n, log, gaps, final) && LogOk(log) && TimelineOk(log, nextFirst)
    requires HonestFrame(f, log, gaps)
    ensures NodeOk(Receive(n, f), log, gaps, final)
    ensures Receive(n, f).store == n.store
  {
    if f.ChunkFrame? {
      GenuineIngest(n, log, gaps, final, nextFirst, f.chunk);
      if f.chunk.seqNo !in n.recv.held { TakeInKeeps(n, log, gaps, final, f.chunk, Receive(n, f)); }
    }
  }

  /** Taking in one more genuine chunk. */
  lemma TakeInKeeps(n: Node, log: seq<AudioChunk>, gaps: set<u32>, final: Option<u32>, c: AudioChunk, out: Node)
    requires NodeOk(n, log, gaps, final) && c.seqNo < |log| && c == log[c.seqNo]
    requires out == n.(recv := out.recv, unsaved := n.unsaved[c.seqNo := c])
    requires out.recv == n.recv.(held := n.recv.held + {c.seqNo}, meta := n.recv.meta[c.seqNo := Receiver.MetaOf(c)])
    ensures NodeOk(out, log, gaps, final)
  {
    hide Genuine, GenuineMeta, Receiver.MetaOf;
    assert out.unsaved.Keys == n.unsaved.Keys + {c.seqNo};
    assert out.recv.meta.Keys == n.recv.meta.Keys + {c.seqNo};
    GenuineMore(n.unsaved, n.recv.meta, log, c);
  }

  lemma GenuineMore(
    chunks: map<u32, AudioChunk>, meta: map<u32, Receiver.ChunkMeta>, log: seq<AudioChunk>, c: AudioChunk)
    requires Genuine(chunks, log) && GenuineMeta(meta, log) && c.seqNo < |log| && c == log[c.seqNo]
    ensures Genuine(chunks[c.seqNo := c], log) && GenuineMeta(meta[c.seqNo := Receiver.MetaOf(c)], log)
  {
  }

  lemma SaveKeeps(n: Node, log: seq<AudioChunk>, gaps: set<u32>, final: Option<u32>, s: u32)
    requires NodeOk(n, log, gaps, final)
    ensures NodeOk(Save(n, s), log, gaps, final)
    ensures n.store.Keys <= Save(n, s).store.Keys
  {
    if s in n.unsaved {
      assert Save(n, s).store.Keys == n.store.Keys + {s};
      assert Save(n, s).unsaved.Keys == n.unsaved.Keys - {s};
    }
  }

  lemma RecoverKeeps(n: Node, log: seq<AudioChunk>, gaps: set<u32>, final: Option<u32>, keptGaps: set<u32>,
      keptFinal: bool)
    requires NodeOk(n, log, gaps, final)
    ensures NodeOk(Recover(n, keptGaps, keptFinal), log, gaps, final)
    ensures Recover(n, keptGaps, keptFinal).store == n.store
  {
  }

  /** An acknowledging sink is in range, and its ACK claims only stored chunks and declared gaps. */
  lemma AckIsDurable(n: Node, log: seq<AudioChunk>, gaps: set<u32>, final: Option<u32>, stream: StreamKey)
    requires LogOk(log) && NodeOk(n, log, gaps, final) && n.unsaved == map[]
    requires final.Some? ==> final.value < CHWM_NONE
    requires gaps <= Below(|log|)
    ensures InRange(n.recv)
    ensures Sender.ProvenBy(Receiver.AckOf(n.recv, stream)) <= n.store.Keys + gaps
  {
    assert n.recv.held == n.store.Keys;
    AckReadsBack(n.recv, stream);
  }

  // ---- putting a step back together ------------------------------------------------

  lemma SameLogGrows(s: System, t: System)
    requires t.log == s.log && t.nodes == s.nodes && s.everAdded <= t.everAdded
    requires s.sender.ring.gaps <= t.sender.ring.gaps
    requires s.sender.final.Some? ==> t.sender.final == s.sender.final
    requires s.sender.take.Closed? ==> t.sender.take.Closed?
    ensures Grows(s, t)
  {
    assert t.log[..|s.log|] == s.log;
  }

  lemma NodesGrow(s: System, t: System)
    requires NodesOk(s) && Grows(s, t) && t.nodes == s.nodes
    ensures NodesOk(t)
  {
    forall id | id in t.nodes ensures NodeOk(t.nodes[id], t.log, t.sender.ring.gaps, t.sender.final) {
      NodeOkGrows(t.nodes[id], s, t);
    }
  }

  /** A step that changes only the sender, history, and frames on their way to sinks. */
  lemma SenderMoveKeeps(s: System, t: System)
    requires Inv(s) && Grows(s, t)
    requires SenderOk(t.sender, t.log) && TimelineOk(t.log, t.sender.nextFirst) && ProofsOk(t)
    requires t.nodes == s.nodes && t.toSender == s.toSender
    requires forall m :: m in t.toSinks ==> m in s.toSinks || HonestFrame(m.1, t.log, t.sender.ring.gaps)
    ensures Inv(t)
  {
    NetOkGrows(s, t);
    NodesGrow(s, t);
  }

  /** A step that changes one sink only. */
  lemma NodeMoveKeeps(s: System, id: SinkId, n: Node)
    requires Inv(s) && id in s.nodes
    requires NodeOk(n, s.log, s.sender.ring.gaps, s.sender.final)
    requires s.nodes[id].store.Keys <= n.store.Keys
    ensures Inv(s.(nodes := s.nodes[id := n])) && Grows(s, s.(nodes := s.nodes[id := n]))
  {
    hide NodeOk, ProofsOk, SenderOk, TimelineOk, HonestReply, HonestFrame, Grows;
    var t := s.(nodes := s.nodes[id := n]);
    NodeMoveGrows(s, id, n);
    NetOkGrows(s, t);
    NodeMoveProofs(s, t);
  }

  lemma NodeMoveGrows(s: System, id: SinkId, n: Node)
    requires id in s.nodes && s.nodes[id].store.Keys <= n.store.Keys
    ensures Grows(s, s.(nodes := s.nodes[id := n]))
  {
    assert s.log[..|s.log|] == s.log;
    assert s.nodes[id := n].Keys == s.nodes.Keys;
  }

  lemma NodeMoveProofs(s: System, t: System)
    requires ProofsOk(s) && Grows(s, t) && t == s.(nodes := t.nodes)
    ensures ProofsOk(t)
  {
    ProofsGrow(s, t);
  }

  // ---- the steps ----------------------------------------------------------------------

  /** A sender change that takes nothing as acknowledged and gives no sink a new proof. */
  ghost predicate NoNewProof(s: Sender.State, t: Sender.State) {
    && t.ring.acked == s.ring.acked
    && forall id :: id in t.sinks ==>
        (id in s.sinks && t.sinks[id].proven == s.sinks[id].proven) || t.sinks[id].proven == {}
  }

  lemma NoNewProofKeeps(s: System, t: System)
    requires ProofsOk(s) && Grows(s, t) && NoNewProof(s.sender, t.sender)
    requires t.sender.sinks.Keys <= t.everAdded <= t.nodes.Keys
    ensures ProofsOk(t)
  {
    ProofsGrow(s, t);
  }

  lemma ProduceStepKeeps(s: System, c: AudioChunk, t: System)
    requires Inv(s) && t == s.(sender := t.sender, log := s.log + [c])
    requires TimelineOk(t.log, t.sender.nextFirst) && SenderOk(t.sender, t.log)
    requires s.sender.ring.gaps <= t.sender.ring.gaps && s.sender.final == t.sender.final == None
    requires !s.sender.take.Closed? && t.sender.ring.acked == s.sender.ring.acked && SameProofs(s.sender, t.sender)
    ensures Inv(t) && Grows(s, t)
  {
    assert Grows(s, t) by { assert t.log[..|s.log|] == s.log; }
    NoNewProofKeeps(s, t);
    SenderMoveKeeps(s, t);
  }

  lemma TimelineSnoc(log: seq<AudioChunk>, nextFirst: u64, c: AudioChunk)
    requires TimelineOk(log, nextFirst) && c.firstSampleIndex == nextFirst && nextFirst + c.sampleCount <= U64_MAX
    requires |log| == 0 ==> c.sampleCount == 0
    ensures TimelineOk(log + [c], nextFirst + c.sampleCount)
  {
  }

  lemma ArmNow(s: System, ts: u64, header: seq<byte>, c: AudioChunk)
    requires Inv(s) && s.sender.take.Idle? && Sender.Room(s.sender, 0)
    requires c == Sender.ChunkFor(s.sender.stream, 0, 0, 0, ts, header)
    ensures var t := s.(sender := Sender.Arm(s.sender, ts, header), log := s.log + [c]);
            Inv(t) && Grows(s, t)
  {
    var t := s.(sender := Sender.Arm(s.sender, ts, header), log := s.log + [c]);
    ArmKeeps(s.sender, s.log, ts, header);
    ProduceKeeps(s.sender, c, s.log);
    TimelineSnoc(s.log, s.sender.nextFirst, c);
    ProduceStepKeeps(s, c, t);
  }

  lemma PushNow(s: System, count: u32, ts: u64, payload: seq<byte>, c: AudioChunk)
    requires Inv(s) && s.sender.take.Streaming? && Sender.Room(s.sender, count)
    requires c == Sender.ChunkFor(s.sender.stream, s.sender.nextSeq, s.sender.nextFirst, count, ts, payload)
    ensures var t := s.(sender := Sender.PushAudio(s.sender, count, ts, payload), log := s.log + [c]);
            Inv(t) && Grows(s, t)
  {
    var t := s.(sender := Sender.PushAudio(s.sender, count, ts, payload), log := s.log + [c]);
    hide SenderOk, TimelineOk, NodesOk, ProofsOk, NetOk, Grows, SameProofs;
    PushKeeps(s.sender, s.log, count, ts, payload);
    PushLeaves(s.sender, s.log, count, ts, payload);
    TimelineSnoc(s.log, s.sender.nextFirst, c);
    ProduceStepKeeps(s, c, t);
  }

  lemma PushLeaves(s: Sender.State, log: seq<AudioChunk>, count: u32, ts: u64, payload: seq<byte>)
    requires SenderOk(s, log) && s.take.Streaming? && Sender.Room(s, count)
    ensures var t := Sender.PushAudio(s, count, ts, payload);
            && t.nextFirst == s.nextFirst + count && t.final == None && s.ring.gaps <= t.ring.gaps
            && t.ring.acked == s.ring.acked && SameProofs(s, t)
  {
    hide Partition, LogOk, TxOk;
    ProduceKeeps(s.(nextFirst := s.nextFirst + count), Sender.ChunkFor(s.stream, s.nextSeq, s.nextFirst, count, ts,
        payload), log);
  }

  /** A sender change that also declares nothing lost and forgets no outcome. */
  ghost predicate Quiet(s: Sender.State, t: Sender.State) {
    && t.ring == s.ring && t.nextFirst == s.nextFirst
    && (s.final.Some? ==> t.final == s.final) && (s.take.Closed? ==> t.take.Closed?)
    && NoNewProof(s, t)
  }

  lemma SenderOnlyStep(s: System, t: System)
    requires Inv(s) && SenderOk(t.sender, s.log) && Quiet(s.sender, t.sender)
    requires t == s.(sender := t.sender, everAdded := t.everAdded, toSinks := t.toSinks)
    requires s.everAdded <= t.everAdded && t.sender.sinks.Keys <= t.everAdded <= t.nodes.Keys
    requires forall m :: m in t.toSinks ==> m in s.toSinks || HonestFrame(m.1, s.log, s.sender.ring.gaps)
    ensures Inv(t) && Grows(s, t)
  {
    SameLogGrows(s, t);
    NoNewProofKeeps(s, t);
    SenderMoveKeeps(s, t);
  }

  lemma FinishNow(s: System)
    requires Inv(s) && s.sender.take.Streaming? && s.sender.nextSeq > 0
    ensures var t := s.(sender := Sender.Finish(s.sender)); Inv(t) && Grows(s, t)
  {
    FinishKeeps(s.sender, s.log);
    FinishQuiet(s.sender);
    SenderOnlyStep(s, s.(sender := Sender.Finish(s.sender)));
  }

  lemma FinishQuiet(s: Sender.State)
    requires s.take.Streaming? && s.nextSeq > 0 && s.final == None
    ensures Quiet(s, Sender.Finish(s)) && Sender.Finish(s).sinks == s.sinks
  {
  }

  lemma AddSinkNow(s: System, id: SinkId)
    requires Inv(s) && id in s.nodes
    ensures var t := s.(sender := Sender.AddSink(s.sender, id), everAdded := s.everAdded + {id}); Inv(t) && Grows(s, t)
  {
    AddSinkKeeps(s.sender, s.log, id);
    AddSinkQuiet(s.sender, id);
    SenderOnlyStep(s, s.(sender := Sender.AddSink(s.sender, id), everAdded := s.everAdded + {id}));
  }

  lemma AddSinkQuiet(s: Sender.State, id: SinkId)
    ensures Quiet(s, Sender.AddSink(s, id)) && Sender.AddSink(s, id).sinks.Keys == s.sinks.Keys + {id}
  {
  }

  lemma RemoveSinkNow(s: System, id: SinkId)
    requires Inv(s)
    ensures var t := s.(sender := Sender.RemoveSink(s.sender, id)); Inv(t) && Grows(s, t)
  {
    RemoveSinkKeeps(s.sender, s.log, id);
    SenderOnlyStep(s, s.(sender := Sender.RemoveSink(s.sender, id)));
  }

  lemma SetConnectedNow(s: System, id: SinkId, up: bool)
    requires Inv(s)
    ensures var t := s.(sender := Sender.SetConnected(s.sender, id, up)); Inv(t) && Grows(s, t)
  {
    SetConnectedKeeps(s.sender, s.log, id, up);
    SetConnectedQuiet(s.sender, id, up);
    SenderOnlyStep(s, s.(sender := Sender.SetConnected(s.sender, id, up)));
  }

  lemma SetConnectedQuiet(s: Sender.State, id: SinkId, up: bool)
    ensures Quiet(s, Sender.SetConnected(s, id, up)) && Sender.SetConnected(s, id, up).sinks.Keys == s.sinks.Keys
  {
  }

  lemma PopNow(s: System, id: SinkId)
    requires Inv(s)
    ensures var (sender, f) := Sender.PopFrame(s.sender, id);
            var t := s.(sender := sender, toSinks := if f.Some? then s.toSinks + {(id, f.value)} else s.toSinks);
            Inv(t) && Grows(s, t)
  {
    PopKeeps(s.sender, s.log, id);
    PopQuiet(s.sender, id);
    var (sender, f) := Sender.PopFrame(s.sender, id);
    SentKeeps(s, id, sender, f);
  }

  lemma SentKeeps(s: System, id: SinkId, sender: Sender.State, f: Option<Frame>)
    requires Inv(s) && SenderOk(sender, s.log) && Quiet(s.sender, sender) && sender.sinks.Keys == s.sender.sinks.Keys
    requires f.Some? ==> HonestFrame(f.value, s.log, s.sender.ring.gaps)
    ensures var t := s.(sender := sender, toSinks := if f.Some? then s.toSinks + {(id, f.value)} else s.toSinks);
            Inv(t) && Grows(s, t)
  {
    SenderOnlyStep(s, s.(sender := sender, toSinks := if f.Some? then s.toSinks + {(id, f.value)} else s.toSinks));
  }

  lemma PopQuiet(s: Sender.State, id: SinkId)
    requires SameProofs(s, Sender.PopFrame(s, id).0)
    ensures Quiet(s, Sender.PopFrame(s, id).0)
  {
  }

  /** A frame reaches a sink, from the sender's link or from another sink. */
  lemma ArriveKeeps(s: System, id: SinkId, f: Frame)
    requires Inv(s) && id in s.nodes && HonestFrame(f, s.log, s.sender.ring.gaps)
    ensures var t := s.(nodes := s.nodes[id := Receive(s.nodes[id], f)]); Inv(t) && Grows(s, t)
  {
    ReceiveKeeps(s.nodes[id], s.log, s.sender.ring.gaps, s.sender.final, s.sender.nextFirst, f);
    NodeMoveKeeps(s, id, Receive(s.nodes[id], f));
  }

  /** A frame sent to a sink arrives. */
  lemma SentArrives(s: System, id: SinkId, f: Frame)
    requires Inv(s) && id in s.nodes && (id, f) in s.toSinks
    ensures var t := s.(nodes := s.nodes[id := Receive(s.nodes[id], f)]); Inv(t) && Grows(s, t)
  {
    assert HonestFrame(f, s.log, s.sender.ring.gaps);
    hide Inv, Grows, HonestFrame;
    ArriveKeeps(s, id, f);
  }

  /** A chunk stored at one sink arrives at another. */
  lemma StoredArrives(s: System, source: SinkId, target: SinkId, n: u32)
    requires Inv(s) && source in s.nodes && target in s.nodes && n in s.nodes[source].store
    ensures var f := ChunkFrame(s.nodes[source].store[n]);
            var t := s.(nodes := s.nodes[target := Receive(s.nodes[target], f)]);
            Inv(t) && Grows(s, t)
  {
    hide Inv, Grows, HonestFrame;
    StoredIsHonest(s, source, n);
    ArriveKeeps(s, target, ChunkFrame(s.nodes[source].store[n]));
  }

  lemma StoredIsHonest(s: System, source: SinkId, n: u32)
    requires Inv(s) && source in s.nodes && n in s.nodes[source].store
    ensures HonestFrame(ChunkFrame(s.nodes[source].store[n]), s.log, s.sender.ring.gaps)
  {
    assert NodeOk(s.nodes[source], s.log, s.sender.ring.gaps, s.sender.final);
  }

  lemma PersistNow(s: System, id: SinkId, n: u32)
    requires Inv(s) && id in s.nodes
    ensures var t := s.(nodes := s.nodes[id := Save(s.nodes[id], n)]); Inv(t) && Grows(s, t)
  {
    SaveKeeps(s.nodes[id], s.log, s.sender.ring.gaps, s.sender.final, n);
    NodeMoveKeeps(s, id, Save(s.nodes[id], n));
  }

  lemma ToldFinal(s: System, id: SinkId, n: Node)
    requires Inv(s) && id in s.nodes && s.sender.final.Some?
    requires n == s.nodes[id].(recv := Receiver.SetFinal(s.nodes[id].recv, s.sender.final.value))
    ensures NodeOk(n, s.log, s.sender.ring.gaps, s.sender.final)
  {
    hide Inv, Genuine, Receiver.MetaOf;
    NodeIsOk(s, id);
  }

  lemma NodeIsOk(s: System, id: SinkId)
    requires Inv(s) && id in s.nodes
    ensures NodeOk(s.nodes[id], s.log, s.sender.ring.gaps, s.sender.final)
  {
  }

  lemma LearnFinalNow(s: System, id: SinkId)
    requires Inv(s) && id in s.nodes && s.sender.final.Some?
    ensures var n := s.nodes[id].(recv := Receiver.SetFinal(s.nodes[id].recv, s.sender.final.value));
            var t := s.(nodes := s.nodes[id := n]);
            Inv(t) && Grows(s, t)
  {
    hide Inv, Grows;
    var n := s.nodes[id];
    var f := s.sender.final.value;
    ToldFinal(s, id, n.(recv := Receiver.SetFinal(n.recv, f)));
    NodeMoveKeeps(s, id, n.(recv := Receiver.SetFinal(n.recv, f)));
  }

  lemma CrashNow(s: System, id: SinkId, keptGaps: set<u32>, keptFinal: bool)
    requires Inv(s) && id in s.nodes
    ensures var t := s.(nodes := s.nodes[id := Recover(s.nodes[id], keptGaps, keptFinal)]); Inv(t) && Grows(s, t)
  {
    RecoverKeeps(s.nodes[id], s.log, s.sender.ring.gaps, s.sender.final, keptGaps, keptFinal);
    NodeMoveKeeps(s, id, Recover(s.nodes[id], keptGaps, keptFinal));
  }

  lemma ReplyNow(s: System, id: SinkId, f: Frame)
    requires Inv(s) && HonestReply(id, f, s.nodes, s.sender.ring.gaps)
    ensures var t := s.(toSender := s.toSender + {(id, f)}); Inv(t) && Grows(s, t)
  {
    hide NodesOk, ProofsOk, NetOk, SenderOk, TimelineOk, HonestReply, Grows;
    var t := s.(toSender := s.toSender + {(id, f)});
    SameLogGrows(s, t);
    ReplyLeaves(s, t);
    ReplyHonest(s, id, f, t);
  }

  lemma ReplyLeaves(s: System, t: System)
    requires NodesOk(s) && ProofsOk(s) && t == s.(toSender := t.toSender)
    ensures NodesOk(t) && ProofsOk(t)
  {
    forall x | x in t.sender.ring.acked && x !in t.sender.ring.gaps ensures StoredSomewhere(t, x) {
      assert StoredSomewhere(s, x);
    }
  }

  lemma ReplyHonest(s: System, id: SinkId, f: Frame, t: System)
    requires NetOk(s) && HonestReply(id, f, s.nodes, s.sender.ring.gaps)
    requires t == s.(toSender := s.toSender + {(id, f)})
    ensures NetOk(t)
  {
    hide HonestReply, HonestFrame;
  }

  lemma SendAckNow(s: System, id: SinkId)
    requires Inv(s) && id in s.nodes && CanAck(s.nodes[id])
    ensures var t := s.(toSender := s.toSender + {(id, AckFrame(Receiver.AckOf(s.nodes[id].recv, s.sender.stream)))});
            Inv(t) && Grows(s, t)
  {
    AckIsDurable(s.nodes[id], s.log, s.sender.ring.gaps, s.sender.final, s.sender.stream);
    ReplyNow(s, id, AckFrame(Receiver.AckOf(s.nodes[id].recv, s.sender.stream)));
  }

  lemma BackfillArrives(s: System, id: SinkId, ranges: seq<SeqRange>)
    requires Inv(s)
    ensures var t := s.(sender := Sender.HandleBackfill(s.sender, id, ranges)); Inv(t) && Grows(s, t)
  {
    HandleBackfillKeeps(s.sender, s.log, id, ranges);
    BackfillQuiet(s.sender, id, ranges);
    SenderOnlyStep(s, s.(sender := Sender.HandleBackfill(s.sender, id, ranges)));
  }

  lemma BackfillQuiet(s: Sender.State, id: SinkId, ranges: seq<SeqRange>)
    requires SameProofs(s, Sender.HandleBackfill(s, id, ranges))
    ensures Quiet(s, Sender.HandleBackfill(s, id, ranges))
  {
  }

  lemma AckArrives(s: System, id: SinkId, ack: AckStatus)
    requires Inv(s) && id in s.sender.sinks
    requires HonestReply(id, AckFrame(ack), s.nodes, s.sender.ring.gaps)
    ensures var t := s.(sender := Sender.HandleAck(s.sender, id, ack)); Inv(t) && Grows(s, t)
  {
    HandleAckKeeps(s.sender, s.log, id, ack);
    AckLeaves(s.sender, id, ack);
    AckMoveKeeps(s, id, Sender.ProvenBy(ack), s.(sender := Sender.HandleAck(s.sender, id, ack)));
  }

  /** What an ACK changes outside its sink's queues. */
  ghost predicate AckEffect(s: Sender.State, id: SinkId, proven: set<u32>, t: Sender.State) {
    && t.ring == Ring.MarkAcked(s.ring, proven)
    && t.final == s.final && t.nextFirst == s.nextFirst && (s.take.Closed? ==> t.take.Closed?)
    && id in s.sinks && t.sinks.Keys == s.sinks.Keys
    && t.sinks[id].proven == proven
    && (forall i :: i in s.sinks && i != id ==> t.sinks[i] == s.sinks[i])
  }

  lemma AckLeaves(s: Sender.State, id: SinkId, ack: AckStatus)
    requires id in s.sinks
    ensures AckEffect(s, id, Sender.ProvenBy(ack), Sender.HandleAck(s, id, ack))
  {
  }

  lemma AckMoveKeeps(s: System, id: SinkId, proven: set<u32>, t: System)
    requires Inv(s) && t == s.(sender := t.sender)
    requires id in s.nodes && proven <= s.nodes[id].store.Keys + s.sender.ring.gaps
    requires SenderOk(t.sender, t.log) && AckEffect(s.sender, id, proven, t.sender)
    ensures Inv(t) && Grows(s, t)
  {
    SameLogGrows(s, t);
    AckProofs(s, id, proven, t);
    SenderMoveKeeps(s, t);
  }

  lemma AckProofs(s: System, id: SinkId, proven: set<u32>, t: System)
    requires ProofsOk(s) && t == s.(sender := t.sender) && Grows(s, t)
    requires id in s.nodes && proven <= s.nodes[id].store.Keys + s.sender.ring.gaps
    requires AckEffect(s.sender, id, proven, t.sender)
    ensures ProofsOk(t)
  {
    ProofsGrow(s, t);
    forall x | x in proven ensures x in t.sender.ring.gaps || StoredSomewhere(t, x) {
      assert x in t.nodes[id].store || x in t.sender.ring.gaps;
    }
  }

  lemma DeliverToSenderKeeps(s: System, id: SinkId, f: Frame)
    requires Inv(s) && (id, f) in s.toSender
    ensures var t := s.(sender := Sender.HandleFrame(s.sender, id, f)); Inv(t) && Grows(s, t)
  {
    assert HonestReply(id, f, s.nodes, s.sender.ring.gaps);
    hide Inv, Grows, HonestReply;
    SameLogGrows(s, s);
    if f.AckFrame? && f.ack.stream == s.sender.stream && id in s.sender.sinks {
      AckArrives(s, id, f.ack);
    } else if f.BackfillRequest? && f.list.stream == s.sender.stream {
      BackfillArrives(s, id, f.list.ranges);
    }
  }

  // ---- every step, every run -----------------------------------------------------------

  lemma SenderStepKeeps(s: System, step: Step)
    requires Inv(s) && Apply(s, step) != s
    requires step.Arm? || step.Push? || step.Finish? || step.AddSink? || step.RemoveSink? || step.SetConnected?
        || step.Pop?
    ensures Inv(Apply(s, step)) && Grows(s, Apply(s, step))
  {
    hide Inv, Grows;
    match step
    case Arm(ts, header) => ArmNow(s, ts, header, Sender.ChunkFor(s.sender.stream, 0, 0, 0, ts, header));
    case Push(count, ts, payload) =>
      PushNow(s, count, ts, payload, Sender.ChunkFor(s.sender.stream, s.sender.nextSeq, s.sender.nextFirst, count,
          ts, payload));
    case Finish => FinishNow(s);
    case AddSink(id) => AddSinkNow(s, id);
    case RemoveSink(id) => RemoveSinkNow(s, id);
    case SetConnected(id, up) => SetConnectedNow(s, id, up);
    case Pop(id) => PopNow(s, id);
  }

  lemma ArrivalStepKeeps(s: System, step: Step)
    requires Inv(s) && (step.DeliverToSink? || step.SyncPush?) && Apply(s, step) != s
    ensures Inv(Apply(s, step)) && Grows(s, Apply(s, step))
  {
    hide Inv, Grows;
    match step
    case DeliverToSink(id, f) => SentArrives(s, id, f);
    case SyncPush(source, target, n) => StoredArrives(s, source, target, n);
  }

  /** A step whose guard fails changes nothing. */
  lemma IdleStepKeeps(s: System, step: Step)
    requires Inv(s) && Apply(s, step) == s
    ensures Inv(Apply(s, step)) && Grows(s, Apply(s, step))
  {
    hide Inv, Grows;
    SameLogGrows(s, s);
  }

  lemma SinkStepKeeps(s: System, step: Step)
    requires Inv(s) && (step.Persist? || step.LearnFinal? || step.Crash?) && Apply(s, step) != s
    ensures Inv(Apply(s, step)) && Grows(s, Apply(s, step))
  {
    hide Inv, Grows;
    match step
    case Persist(id, n) => PersistNow(s, id, n);
    case LearnFinal(id) => LearnFinalNow(s, id);
    case Crash(id, keptGaps, keptFinal) => CrashNow(s, id, keptGaps, keptFinal);
  }

  lemma ReplyStepKeeps(s: System, step: Step)
    requires Inv(s) && (step.SendAck? || step.RequestBackfill? || step.DeliverToSender?) && Apply(s, step) != s
    ensures Inv(Apply(s, step)) && Grows(s, Apply(s, step))
  {
    hide Inv, Grows;
    match step
    case SendAck(id) => SendAckNow(s, id);
    case RequestBackfill(id, ranges) => ReplyNow(s, id, BackfillRequest(RangeList(s.sender.stream, ranges)));
    case DeliverToSender(id, f) => DeliverToSenderKeeps(s, id, f);
  }

  /** Every step, whatever the network and the sinks do. */
  lemma StepKeeps(s: System, step: Step)
    requires Inv(s)
    ensures Inv(Apply(s, step)) && Grows(s, Apply(s, step))
  {
    hide Inv, Grows;
    if Apply(s, step) == s {
      IdleStepKeeps(s, step);
    } else if step.DeliverToSink? || step.SyncPush? {
      ArrivalStepKeeps(s, step);
    } else if step.Persist? || step.LearnFinal? || step.Crash? {
      SinkStepKeeps(s, step);
    } else if step.SendAck? || step.RequestBackfill? || step.DeliverToSender? {
      ReplyStepKeeps(s, step);
    } else {
      SenderStepKeeps(s, step);
    }
  }

  lemma GrowsTransitive(a: System, b: System, c: System)
    requires Grows(a, b) && Grows(b, c)
    ensures Grows(a, c)
  {
    assert c.log[..|a.log|] == c.log[..|b.log|][..|a.log|];
  }

  lemma {:induction false} RunKeeps(s: System, steps: seq<Step>)
    requires Inv(s)
    ensures Inv(Execute(s, steps)) && Grows(s, Execute(s, steps))
    decreases |steps|
  {
    hide Inv, Grows;
    if steps == [] {
      SameLogGrows(s, s);
    } else {
      StepKeeps(s, steps[0]);
      RunKeeps(Apply(s, steps[0]), steps[1..]);
      GrowsTransitive(s, Apply(s, steps[0]), Execute(s, steps));
    }
  }
}
