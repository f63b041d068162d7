# Verification of the chunk protocol, its codec path and its sinks

A recorder captures audio, encodes it into numbered FLAC chunks and streams them to several sinks over a network
that drops, reorders, duplicates and disconnects. Its ring buffer has a byte budget: it may evict acknowledged
chunks, and under pressure declare chunks permanently lost. The server is such a sink; it persists what it accepts,
acknowledges it, and assembles the stored chunks into a file. These Dafny modules model that system and prove what
it promises, for all inputs, all runs and all interleavings. `dafny verify dfyconfig.toml` checks them.

## How the modules are laid out

- **Sets and entities.** `Machine`, `Sets`, `Frames`; `Ranges` holds the `RangeSet` class, proved to be the
  canonical list of a mathematical set.
- **The protocol.** `Ring`, `Receiver` and `Sender` are the three machines as functions of their state, and the
  classes in `ChunkRing`, `StreamReceiver`, `SinkTx`, `SinkTable` and `StreamSender` are the machines as they run,
  each method proved against those functions. `Protocol` puts one recorder, any number of sinks with volatile
  receiver and durable store, and the network into one step function; the network keeps every frame ever sent and
  may deliver any of them at any time, any number of times, or never. `SenderFacts` and `ProtocolSteps` prove what
  every step keeps; `SenderMoves` says what each move does to a sink's queues, and `SenderRuns` what that means
  over whole runs; `Guarantees`, `Convergence`, `AckReading`, `RingRuns` and `ReceiverRuns` state the other results.
- **Bytes.** `Bits`, `Crc32c` and `CrcDivision` for the checksum; `LittleEndian`, `Wire` and `WireFacts` for the
  frame codec; `Utf8` and `StreamHeader` for the stream header.
- **The codec path.** `Encoder`, `ChunkSizes`, `StreamEncoder` and `Streaminfo` for chunking; `FlacFile`,
  `ServedWhole` and `PartialFile` for served files; `EndToEnd`, `RecorderRun`, `RecorderEngine` and `RecordedTake`
  for the path from captured floats to the served file.
- **The server.** `SinkEngine`, `Archive` (a store that may fail before or after taking effect, and counts its
  failures), `Mirror` (what keeps ACKs honest), `Rebuild` (the replay of the rows after a crash), `Tasks` (what each
  task does when nothing fails), `SessionIngest` (the task chain with its fail-stop) and `ReadSide` (the queries).
- **Drift and capture.** `LineFit`, `Drift`, `Gate` and `Breakdown`, over exact reals; `CaptureRing` and
  `CaptureWrap` for every interleaving of the capture ring's two sides, one atomic access or cell copy a step, and
  `SharedRing` for its methods as they run.

The frame coder `flacenc` is a parameter: any deterministic function from block, frame number and verbatim flag to
bytes or an error, never empty. Correlation of one drift window (`measure_window`) is a parameter too.

## Findings

These promises turned out to hold only under a condition. Each is stated with its exact condition or with an input
that breaks it, or both.

- **Capture ring.** Indices wrap at 2^32 while the cell of a sample is its index modulo the capacity, so the order
  of samples survives the wrap exactly when the capacity divides 2^32 (`CaptureWrap.FifoExactlyWhenDividing`). With
  any other capacity every run of fewer than 2^32 published samples is in order, and some run of exactly 2^32 is not
  (`CaptureWrap.FifoExactlyUpTo`): the worklet's next copy starts at cell 0 and can land on a sample still unread.
  The product's ring of eight seconds at 48 kHz has 384000 cells, which does not divide 2^32, and reaches the wrap
  after about 24.9 hours of capture.
- **Complete by count.** The read side and the FLAC assembly decide completeness by counting rows. A stored seq
  beyond the final one can stand in for a missing one (`ServedWhole.StrayRowPasses`, `ReadSide.StraySeqsMislead`);
  `ServedWhole.ServedMeansWhole` and `ReadSide.CompleteAgreesExactly` say exactly when the count is right.
- **Shared stream ids.** The chunk table's key is the stream id and the seq, without the take
  (apps/server/src/db/schema.ts:123-126). A second take under a known stream id loses its rows silently while its
  ACKs claim them (`SessionIngest.SharedStreamIdLies`); `SessionIngest.FeedFacts` gives the exact condition for one
  frame, and `SessionIngest.RunChain` assumes unique ids, as the schema's comment promises.
- **Gaps and final seqs across a restart.** A gap report that starts where a shorter gap row does is not stored, though
  the engine takes it in (`Archive.ReportKept` has the exact condition). A smaller final seq overwrites the stream
  row's, while the engine keeps the larger (`SessionIngest.SessionIngest.LearnFinal`). `Rebuild.RestartRestores` says
  exactly when a restart gives a receiver back.
- **Robust fit.** The often quoted breakdown of about 29 % is made exact: `Breakdown.BreakdownPoint`.

## Model

| member | source | states |
|---|---|---|
| Guarantees.ConservationOfAudio | packages/core/src/ring.rs:87-163 | In every state of every run the produced seqs are exactly the disjoint union of the ring-resident, the evicted-after-ACK and the declared-gap seqs, and each evicted one is stored, byte for byte, at some sink |
| Guarantees.HonestClosing | packages/core/src/sender.rs:438-467 | At the step that closes the take every registered sink durably holds all of 0..=final except declared gaps, with the recorder's own bytes; its store does so ever after, and the take stays closed |
| Guarantees.TransmitQueues | packages/core/src/sender.rs:205-260 | In every run, per sink: live is the consecutive run ending at next_seq - 1, every backfill seq is older than every live one, nothing is queued twice, and `queued` is exactly what the queues hold |
| Guarantees.AcksAreDurable | packages/core/src/sender.rs:279-307 | Every ACK in flight, however stale, proves only seqs its sink has durably stored, or declared gaps |
| Guarantees.NoFalseAlarm | packages/core/src/sender.rs:162-186 | A recorder's own chunks never raise a flag at any sink, and below the seq limit its sample clock always has room for one more chunk |
| Convergence.ConvergesInOneRound | packages/core/src/sender.rs:279-338 | With one sink ever registered, and connected: from any reachable state of a finished take one lossless round (persist, learn the final seq, ACK, pops until none remain, deliveries, persist, ACK) settles the receiver and closes the take, everything obtainable stored; its ACK must fit a frame |
| Convergence.AllSinksConverge | packages/core/src/sender.rs:391-420 | The same for any number of sinks, one round each, once replication has brought each of them what the ring evicted |
| Convergence.PopAllDelivers | packages/core/src/sender.rs:391-420 | Popping a sink's queues until they are empty ends, and what it pops includes every control frame and every queued resident chunk the sink is not proven to hold |
| AckReading.AckReadsBack | packages/core/src/receiver.rs:239-268 | For any receiver state the proven set rebuilt from its ACK is exactly the held-or-lost seqs that are at or below the mark, or below the start of the last hole |
| AckReading.AckStaysSound | packages/core/src/sender.rs:284-304 | Read however late, an ACK proves only what the sink holds or knows lost by then |
| AckReading.SettledAckProvesAll | packages/core/src/receiver.rs:317-326 | A settled receiver's ACK proves all of 0..=final |
| Ranges.CanonicalUnique | packages/core/src/ranges.rs:9-15 | Two range lists in canonical form with the same members are the same list |
| Ranges.RangeSet.Contains | packages/core/src/ranges.rs:38-50 | The binary search answers membership in the set |
| Ranges.RangeSet.InsertRange | packages/core/src/ranges.rs:69-90 | The splice yields the canonical list of the union with the range, at both ends of u32 |
| Ranges.RangeSet.Insert | packages/core/src/ranges.rs:65-67 | Adds one member |
| Ranges.RangeSet.RemoveRange | packages/core/src/ranges.rs:96-113 | The rebuilt list is the canonical list of the difference |
| Ranges.RangeSet.Remove | packages/core/src/ranges.rs:92-94 | Takes one member out |
| Ranges.RangeSet.Union | packages/core/src/ranges.rs:116-122 | Exactly the union, both operands unchanged |
| Ranges.RangeSet.Subtract | packages/core/src/ranges.rs:125-131 | Exactly the difference, both operands unchanged |
| Ranges.RangeSet.MissingWithin | packages/core/src/ranges.rs:134-141 | Exactly the complement within the range |
| Ranges.RangeSet.ContiguousFromZero | packages/core/src/ranges.rs:144-149 | The end of the run from 0: everything up to it is a member and its successor is not |
| Ranges.RangeSet.Count | packages/core/src/ranges.rs:53-55 | The cardinality of the set |
| Ranges.RangeSet.Values | packages/core/src/ranges.rs:152-154 | The members in increasing order |
| Ranges.FromRanges | packages/core/src/ranges.rs:22-28 | The canonical set of all members of any list of ranges, empty, overlapping or unsorted ones included |
| Frames.SplitCovers | packages/core/src/frame.rs:338-343 | The frame-sized batches together cover exactly what the list covers |
| Ring.InsertFacts | packages/core/src/ring.rs:87-163 | After an insert used bytes are the resident cost; acknowledged chunks go first and oldest first, gaps are declared only when no acknowledged one is left, seq 0 and the newest never go, and no chunk goes once the budget is met |
| RingRuns.RingRunFromEmpty | packages/core/src/ring.rs:87-163 | After any sequence of inserts, ACK marks and drains: used bytes are the resident cost, the budget is met or only seq 0 and the newest remain, and the drained gap sets with what is pending partition all gaps ever declared |
| RingRuns.CostIsWireSize | packages/core/src/ring.rs:35-37 | What the budget counts for a chunk is what its frame takes on the wire |
| ChunkRing.ChunkRing.Insert | packages/core/src/ring.rs:87-98 | The two-pass eviction over the map and the range sets takes the ring exactly to Ring.Insert of its old state |
| ChunkRing.ChunkRing.MarkAcked | packages/core/src/ring.rs:101-105 | Adds exactly the given seqs to the acknowledged ones |
| ChunkRing.ChunkRing.TakePendingGaps | packages/core/src/ring.rs:108-110 | Hands out all pending gaps and leaves none |
| ChunkRing.ChunkRing.EvictToBudget | packages/core/src/ring.rs:117-163 | Both victim loops together realise the eviction policy |
| StreamReceiver.StreamReceiver.Ingest | packages/core/src/receiver.rs:131-182 | The new state and the outcome are those of Receiver.Ingest: corrupt, duplicate, conflict, discontinuity or stored |
| StreamReceiver.StreamReceiver.RecordGaps | packages/core/src/receiver.rs:222-226 | Declares exactly the members of the ranges lost |
| StreamReceiver.StreamReceiver.RebuildOne | packages/core/src/receiver.rs:84-87 | Reloads one chunk's metadata without checks |
| StreamReceiver.StreamReceiver.SetFinalSeq | packages/core/src/receiver.rs:89-99 | First writer wins, and a later value can only raise the expectation |
| StreamReceiver.StreamReceiver.Chwm | packages/core/src/receiver.rs:239-244 | The end of the run from 0 of held and lost seqs, or the sentinel |
| StreamReceiver.StreamReceiver.Holes | packages/core/src/receiver.rs:248-260 | The canonical list of what is missing up to the known horizon |
| StreamReceiver.StreamReceiver.AckStatus | packages/core/src/receiver.rs:262-268 | Mark and holes of this moment |
| StreamReceiver.StreamReceiver.PlanPush | packages/core/src/receiver.rs:288-290 | Exactly the held seqs the other side lacks |
| StreamReceiver.StreamReceiver.BackfillRequest | packages/core/src/receiver.rs:293-304 | The hole list in frame-sized batches |
| StreamReceiver.StreamReceiver.IsComplete | packages/core/src/receiver.rs:309-314 | Whether all of 0..=final is held |
| StreamReceiver.StreamReceiver.IsSettled | packages/core/src/receiver.rs:317-326 | Whether all of 0..=final is held or declared lost |
| ReceiverRuns.Confluence | packages/core/src/receiver.rs:131-182 | With one chunk per seq, any two orders with any repeats of the same chunks, gap reports and finals end in the same held, metadata, gaps, final, mark and holes |
| ReceiverRuns.RebuildRestores | packages/core/src/receiver.rs:84-99 | Rebuilding from the stored metadata, gaps and final seq restores all of that, whatever order the rows come in |
| ReceiverRuns.FlagsAreExact | packages/core/src/receiver.rs:131-219 | For every run, damaged, repeated and contradictory chunks included: the discontinuity flag is up iff chunk 1 does not start at 0 or two held neighbours disagree, and the conflict flag iff an intact chunk arrived that differs from the one stored under its seq |
| ReceiverRuns.FlagsNeverRepeat | packages/core/src/receiver.rs:139-182 | In every run a flag is never taken back, and never recorded twice |
| ReceiverRuns.FlaggedMeansDiscontinuous | packages/core/src/receiver.rs:164-219 | Without checksum conflicts, flagged at all means discontinuous, in any arrival order |
| ReceiverRuns.UnflaggedRunIsExact | packages/core/src/receiver.rs:193-219 | In an unflagged receiver every chunk of a run 1..=n starts at the exact sum of the earlier counts, with no saturation |
| StreamSender.StreamSender.Arm | packages/core/src/sender.rs:147-159 | Chunk 0 is produced and streaming begins, only from idle |
| StreamSender.StreamSender.PushAudio | packages/core/src/sender.rs:162-186 | One more chunk at the sample clock, which advances by its count, only while streaming |
| StreamSender.StreamSender.Finish | packages/core/src/sender.rs:189-203 | Freezes the final seq, drains, and closes at once if every sink is settled |
| StreamSender.StreamSender.Produce | packages/core/src/sender.rs:205-218 | Retained, queued live at every sink, and the gaps the ring declared are reported to every sink |
| StreamSender.StreamSender.BroadcastNewGaps | packages/core/src/sender.rs:374-385 | Every gap drained from the ring is reported to every sink that was not told |
| StreamSender.StreamSender.AddSink | packages/core/src/sender.rs:226-236 | A new sink is owed every resident chunk as backlog, with nothing proven; a known one is left alone |
| StreamSender.StreamSender.RemoveSink | packages/core/src/sender.rs:238-240 | Forgets the sink and nothing else |
| StreamSender.StreamSender.SetConnected | packages/core/src/sender.rs:246-260 | On a disconnect the live queue moves behind the backlog, in order |
| StreamSender.StreamSender.HandleAck | packages/core/src/sender.rs:279-338 | The proven set becomes what the ACK proves, the ring learns it, what is missing is queued again, known gaps in holes are reported again, and the take may close |
| StreamSender.StreamSender.HandleBackfillRequest | packages/core/src/sender.rs:340-355 | Asked-for resident chunks are queued, and declared gaps not reported yet are reported |
| StreamSender.StreamSender.PopFrame | packages/core/src/sender.rs:391-420 | Control first, then live, then backlog; stale or proven seqs are skipped; nothing while disconnected |
| StreamSender.StreamSender.SinkSettled | packages/core/src/sender.rs:438-449 | Whether proven and lost seqs cover 0..=final |
| StreamSender.StreamSender.DrainedAll | packages/core/src/sender.rs:457-461 | Whether there is a sink and every sink is settled |
| StreamSender.StreamSender.TryClose | packages/core/src/sender.rs:463-467 | Closes exactly when draining and all sinks are settled |
| SinkTx.SinkTx.QueueGapReport | packages/core/src/sender.rs:357-371 | Queues the frame-sized reports of exactly the gaps not reported yet, and marks them |
| SinkTx.SinkTx.PopChunk | packages/core/src/sender.rs:391-420 | The first chunk still resident and not proven held, from live and then from backlog |
| SenderMoves.PopOrder | packages/core/src/sender.rs:391-420 | What comes out: the waiting control frame; else the first live chunk still resident and unproven; else the first such backlog chunk; nothing exactly when there is none; stated without the popping loop |
| SenderRuns.LiveOutranksBacklog | packages/core/src/sender.rs:391-420 | In every run a chunk from the backlog goes out only when no live chunk is owed and no control frame waits, and a live one before every younger one |
| SenderMoves.DisconnectDemotes | packages/core/src/sender.rs:246-260 | After a disconnect live is empty and backlog is the old backlog followed by the old live queue; a connect only connects |
| SenderMoves.BackfillAnswered | packages/core/src/sender.rs:340-355 | Every asked-for resident seq is queued afterwards, and reports of exactly the asked-for gaps not told before wait behind the control frames |
| SenderMoves.AckAnswered | packages/core/src/sender.rs:279-338 | What the ACK proves replaces what was proven; every produced resident chunk it does not prove is queued; reports of exactly the declared gaps among its holes are queued |
| SenderMoves.GapsTold | packages/core/src/sender.rs:357-371 | The queued reports cover exactly the gaps not told before, and afterwards all of them count as told |
| SenderMoves.NewSinkOwed | packages/core/src/sender.rs:226-236 | A new sink is owed exactly the resident chunks, oldest first, with nothing proven |
| SenderMoves.ReAddedStartsOver | packages/core/src/sender.rs:226-240 | Removing forgets one sink alone, and adding it again starts from nothing proven |
| SenderMoves.ForeignIgnored | packages/core/src/sender.rs:268-277 | Frames of other streams, of other kinds or from unknown sinks change nothing |
| SenderMoves.ProducedEverywhere | packages/core/src/sender.rs:205-218 | A produced chunk is the newest of every sink's live queue, and what its insert declared lost is reported to every sink |
| SenderRuns.AckedIsWhatWasProven | packages/core/src/sender.rs:284-307 | In every run the acknowledged seqs are exactly those that handled ACKs of registered sinks proved |
| SenderRuns.OnlyUnprovenIsLost | packages/core/src/ring.rs:117-163 | In every run no step declares lost a seq that a handled ACK has proved, and a gap is declared only when no proved chunk is left but seq 0 and the newest |
| SenderRuns.EverySinkIsTold | packages/core/src/sender.rs:374-385 | In every run each step that produces a chunk queues it live, and reports what it declared lost, at every registered sink |
| Crc32c.BuildTable | packages/core/src/crc32c.rs:9-30 | Each of the 256 entries is eight single-bit division steps of its index |
| Crc32c.ComputeAppend | packages/core/src/crc32c.rs:38-44 | The table-driven loop equals the bit-by-bit register for every start value and every input |
| Crc32c.AppendSplits | packages/core/src/crc32c.rs:34-44 | Appending in two parts, split anywhere, equals the one-shot value |
| CrcDivision.DivisionIsExact | packages/core/src/crc32c.rs:1-30 | Long division by the Castagnoli polynomial divides: dividend = quotient * generator + remainder over GF(2) |
| CrcDivision.ChecksumDivides | packages/core/src/crc32c.rs:32-44 | The checksum is the complemented remainder of that division (section 12.1 of RFC 3720) |
| CrcDivision.BurstDetected | packages/core/src/crc32c.rs:32-44 | Equal-length payloads that differ only within four consecutive bytes have different checksums |
| CrcDivision.DamageRefused | packages/core/src/receiver.rs:131-138 | Such damage is rejected as corrupt, with the state unchanged |
| Wire.EncodeFrame | packages/core/src/frame.rs:177-219 | Appending field by field writes the frame's layout |
| Wire.Decode | packages/core/src/frame.rs:235-322 | The cursor-based reader returns exactly what the layout of the bytes means, every error case included |
| Wire.Reader.Ranges | packages/core/src/frame.rs:386-403 | Reads a counted range list, stopping at the first truncated or inverted range |
| Wire.Reader.ExpectEnd | packages/core/src/frame.rs:405-410 | Refuses trailing bytes |
| WireFacts.ChunkFields | packages/core/src/frame.rs:177-219 | Byte by byte where each field of a chunk frame lies |
| WireFacts.AckFields | packages/core/src/frame.rs:177-219 | The same for an ACK |
| WireFacts.EncodedLenIsExact | packages/core/src/frame.rs:221-233 | The announced length is the written one, up to 65535 ranges |
| WireFacts.DecodeOfEncode | packages/core/src/frame.rs:177-323 | Exactly which frames survive the wire: those within the size limit with no inverted range; the others are refused as oversize or malformed |
| WireFacts.EncodeOfDecode | packages/core/src/frame.rs:235-411 | Encoding reproduces, byte for byte, every message the decoder accepts as a known frame |
| WireFacts.PrefixIsTruncated | packages/core/src/frame.rs:351-359 | Every proper prefix of a fitting frame's encoding is truncated |
| WireFacts.ExtensionIsRefused | packages/core/src/frame.rs:405-410 | Every proper extension is refused as trailing bytes or oversize |
| WireFacts.EncodeInjective | packages/core/src/frame.rs:177-219 | Two fitting well-formed frames with the same encoding are the same frame |
| Utf8.CutIffBoundary | packages/core/src/chunk.rs:55-79 | A prefix of valid UTF-8 is valid exactly when it ends at a character boundary |
| Utf8.LongestCut | packages/core/src/chunk.rs:55-79 | The device description is cut to the longest valid prefix that fits |
| StreamHeader.Encode | packages/core/src/chunk.rs:55-79 | Field by field, the truncated description and codec header with their lengths |
| StreamHeader.DecodeOfEncode | packages/core/src/chunk.rs:55-137 | Decoding an encoded header gives back the header with its over-long parts cut |
| StreamHeader.EncodeOfDecode | packages/core/src/chunk.rs:81-137 | Encoding an accepted header reproduces the bytes it was read from |
| StreamHeader.KeptWhole | packages/core/src/chunk.rs:55-79 | Nothing is cut exactly when both variable parts are at most 65535 bytes |
| StreamHeader.FitsOneChunk | packages/core/src/chunk.rs:142-153 | An encoded header fits one chunk exactly up to 65436 variable bytes, with a 42-byte codec header up to 65394 bytes of description |
| StreamEncoder.StreamEncoder.PushI32 | packages/codec/src/encoder.rs:193-210 | The block-wise loop ends in the state, and emits the chunks, of pushing the samples one by one |
| StreamEncoder.StreamEncoder.PushF32 | packages/codec/src/encoder.rs:181-190 | The same for the quantized floats; refused once finished |
| StreamEncoder.StreamEncoder.Finish | packages/codec/src/encoder.rs:215-230 | Flushes the partial block and the last chunk; refused once finished |
| StreamEncoder.StreamEncoder.EncodeBlock | packages/codec/src/encoder.rs:240-257 | A frame over the payload bound is coded again verbatim, and one still over it is an error |
| StreamEncoder.StreamEncoder.AppendFrame | packages/codec/src/encoder.rs:277-302 | Closes the open chunk before a frame that would overflow it and after one that makes it long enough |
| Encoder.SlabsDoNotMatter | packages/codec/src/encoder.rs:193-210 | However the samples are cut into slabs, the encoder ends in the same state with the same chunks |
| Encoder.ChunksAreTheFrames | packages/codec/src/encoder.rs:193-312 | A take's chunks account for every sample without gap or overlap, stay within the payload bound, and their payloads are exactly the take's frames in order |
| Encoder.ChunksAreShort | packages/codec/src/encoder.rs:277-312 | No chunk is more than one block longer than the nominal length |
| ChunkSizes.ChunksAreFull | packages/codec/src/encoder.rs:277-302 | Every chunk of a take but the last ends on a frame boundary, with the nominal length reached or with no room for the next frame |
| ChunkSizes.FrameChosen | packages/codec/src/encoder.rs:240-257 | A frame is coded verbatim only if the normal coding succeeds but does not fit a chunk, and there is a frame exactly if the normal coding fits, or succeeds and the verbatim one fits |
| ChunkSizes.ConfigsAccepted | packages/codec/src/encoder.rs:30-38 | Accepted are exactly 16 and 24 bits at rates from 1 to 2^20 - 1 |
| ChunkSizes.NominalIsHalfASecond | packages/codec/src/encoder.rs:136 | The nominal length is half a second, rounded down to whole samples |
| Streaminfo.FinalizeTotalSamples | packages/codec/src/encoder.rs:337-344 | The five bytes are rewritten in place; a count of 2^36 or more leaves them alone |
| Streaminfo.WithTotalSamples | apps/server/src/flac-streaminfo.ts:16-34 | The server's patch writes a copy with the same field |
| Streaminfo.TotalWritten | apps/server/src/flac-streaminfo.ts:16-34 | The 36-bit total-samples field (section 8.2 of RFC 9639) reads back as the count, and every other bit is kept |
| Streaminfo.HeaderFields | packages/codec/src/encoder.rs:158-178 | Rate, channel count and bit depth read back from the bootstrap header |
| Streaminfo.QuantizeInRange | packages/codec/src/encoder.rs:181-190 | Every float quantizes into the bit depth's range |
| Streaminfo.QuantizeNearest | packages/codec/src/encoder.rs:181-190 | A quantized sample is the integer of the depth nearest to the float times 32768 or 8388608; of two equally near, the one farther from zero |
| Streaminfo.QuantizeMonotone | packages/codec/src/encoder.rs:181-190 | A greater float never quantizes to less |
| Streaminfo.QuantizeHits | packages/codec/src/encoder.rs:181-190 | Every integer of the bit depth has a float that quantizes to it |
| FlacFile.EncodeFlacMono | packages/codec/src/encoder.rs:321-331 | The one-shot file is the finalized header and the payloads of the take's chunks |
| FlacFile.ReconstructFlac | apps/server/src/archive/flac.ts:14-64 | The loops over the rows return what FileOf says: not found, incomplete, unreadable, or the parts spliced in seq order |
| EndToEnd.FileFromStore | apps/server/src/archive/flac.ts:24-63 | A store that holds a whole take reassembles to exactly the one-shot file, sample count included |
| RecorderRun.CapturedIsWhole | packages/wasm/src/recorder.rs:89-120 | Float slabs, quantized and pushed one by one, give the chunks of the whole recording, and within the seq and sample limits all of them can be sent |
| RecorderRun.TakeLogs | packages/wasm/src/recorder.rs:89-120 | Armed, fed and finished, the recorder's history is the header chunk followed by the encoder's chunks |
| RecorderRun.ServedFileIsTheEncode | apps/server/src/archive/flac.ts:24-63 | End to end: for any run with any loss, reordering, duplication, disconnects and crashes in which the recorder records these float slabs, once a sink stores every chunk the served file is byte for byte the one-shot encode of all the samples |
| EndToEnd.CaptureTsIsClock | packages/wasm/src/recorder.rs:231-240 | The capture time is the last microsecond at or before the sample, on a clock of epoch plus samples over rate that stops at the end of 64 bits |
| EndToEnd.LogIsTimed | packages/wasm/src/recorder.rs:89-120 | Every chunk a recorder hands out carries that clock's reading of its first sample |
| PartialFile.PartialIsWhatIsStored | apps/server/src/archive/flac.ts:24-63 | A partial download is the header followed by exactly the stored payloads in seq order, whatever the final seq, and its header counts exactly their samples |
| RecorderEngine.RecorderEngine.constructor | packages/wasm/src/recorder.rs:31-71 | A new recorder is armed at once: chunk 0 carries its header |
| RecorderEngine.RecorderEngine.PushSamples | packages/wasm/src/recorder.rs:89-101 | The chunks that fall out go to the sender in order; an encoder error, or a finished encoder, sends nothing |
| RecorderEngine.RecorderEngine.Finish | packages/wasm/src/recorder.rs:105-120 | The last chunks are handed over and the sender drains |
| RecordedTake.RecordTake | packages/wasm/src/recorder.rs:31-120 | From creation to finish, whatever the slabs, the recorder object leaves its sender where the protocol's own run of the take does, with exactly the calls that the end-to-end theorem takes for this recording |
| ServedWhole.ServedByCount | apps/server/src/archive/flac.ts:29-40 | A readable stream of known length is served exactly when chunk 0 is stored and the row count is right |
| ServedWhole.ServedMeansWhole | apps/server/src/archive/flac.ts:32-40 | Served if and only if whole holds exactly when no stored seq lies beyond the final one, or chunk 0 is missing or the count is off |
| ServedWhole.StrayRowPasses | apps/server/src/archive/flac.ts:35-39 | The failing input: rows 0 and 2 of a take that ends at 1 are served as a whole file |
| SinkEngine.SinkEngine.Ingest | packages/wasm/src/sink.rs:76-185 | One frame's effect on the table of receivers, and what the caller must do about it |
| SinkEngine.SinkEngine.RebuildChunk | packages/wasm/src/sink.rs:189-213 | Reloads one chunk into its stream's receiver |
| SinkEngine.SinkEngine.RebuildGap | packages/wasm/src/sink.rs:216-232 | Reloads one declared gap |
| SinkEngine.SinkEngine.RemoveStream | packages/wasm/src/sink.rs:238-244 | The stream is gone, the others unchanged |
| SinkEngine.SinkEngine.SetFinalSeq | packages/wasm/src/sink.rs:247-262 | The stream's receiver learns the final seq |
| Archive.Archive.PersistChunk | apps/server/src/archive/index.ts:147-166 | Blob before row, insert-if-absent, failing at any point: every row has its blob at every moment, and on success the row is there or its key was taken |
| Archive.Archive.PersistGaps | apps/server/src/archive/index.ts:182-188 | On success exactly the missing starts have got a row, the first range with a start giving its end; a failed statement adds all of them or none |
| Archive.GapsAddedFacts | apps/server/src/db/schema.ts:129-140 | No gap row is changed or lost, every reported start has one, and a new row ends where the first range with its start does |
| Archive.ReportKept | apps/server/src/archive/index.ts:182-188 | A reported gap is durable as a whole if and only if no row with its start ends short of it, unless other rows already declare the rest |
| Archive.Archive.DeleteStreams | apps/server/src/archive/retention.ts:37-74 | Rows first, then blobs: on success no row of these streams is left, and a failed blob delete never leaves a row without its blob |
| Archive.Archive.DeleteTakeIfEmpty | apps/server/src/archive/retention.ts:22-31 | Reports deletion exactly when no stream refers to the take, and then the row is gone and no other |
| Rebuild.RebuildEngine | apps/server/src/ingest/rebuild.ts:15-56 | A rebuilt engine holds exactly the persisted chunks with their metadata; each receiver's final seq is its stream row's, and its gaps are exactly what its gap rows declare |
| Rebuild.RebuiltFromRows | apps/server/src/ingest/rebuild.ts:15-56 | Each rebuilt receiver is a fresh one fed the stored chunk, final and gap rows in any order, so what is proved of a receiver's rebuild holds of the server's |
| Rebuild.RestartRestores | apps/server/src/ingest/rebuild.ts:15-56 | A restart gives back a stored receiver, its mark, holes and verdicts included, if and only if its final seq is in the stream row and its gaps are those of the gap rows |
| Rebuild.RowsTellStatus | apps/server/src/archive/read.ts:135-157 | After a rebuild the queries over the rows and the engine agree on settled, and on holes unless a seq is stored past the final one |
| Mirror.AckIsHonest | apps/server/src/ingest/index.ts:212-218 | While the engine mirrors the archive, every seq an ACK proves is a persisted row with its blob, or a declared gap |
| Tasks.OneAckPerStream | apps/server/src/ingest/index.ts:212-218 | A round of ACKs has exactly one per tracked stream, with its receiver's mark and holes |
| Tasks.FrameIsTaken | apps/server/src/ingest/frames.ts:86-172 | An intact new chunk ends up held with its own metadata, row and bytes, a contradicting or misplaced one flags the stream, a damaged one changes nothing, and a gap report reaches receiver and rows; no other stream is touched |
| Tasks.HeaderIsTaken | apps/server/src/ingest/frames.ts:60-84 | With no store failure, a new chunk 0 whose stream header can be read leaves the header known in the stream's row |
| Tasks.StreamsAreDeleted | apps/server/src/ingest/index.ts:174-196 | Exactly these streams' rows, chunks, gaps and receivers are gone, and of the takes named those left without a stream; a blob left behind is a deleted row's |
| SessionIngest.FeedFacts | apps/server/src/ingest/frames.ts:94-116 | A chunk the engine accepts as new has no row of its stream; with no store failure the mirror survives exactly when no other take's row has its key |
| SessionIngest.SessionIngest.ProcessFrame | apps/server/src/ingest/frames.ts:86-172 | Engine first, then archive: no row is lost, and with ids unique per take a frame that did not fail is taken in by both, which stay in step |
| SessionIngest.SessionIngest.RemoveStreams | apps/server/src/ingest/index.ts:174-196 | On success exactly these streams are gone from engine and archive; it fails only if the store does |
| SessionIngest.SessionIngest.LearnFinal | apps/server/src/ingest/index.ts:161-168 | On success the stream row carries the new final seq and the engine the larger of old and new; the two agree exactly when no larger one was known |
| SessionIngest.SessionIngest.Poison | apps/server/src/ingest/index.ts:230-242 | Fail-stop: peers dropped, and the engine is what a rebuild from the rows gives; offline only if the store failed again |
| SessionIngest.SessionIngest.Run | apps/server/src/ingest/index.ts:230-242 | One link of the chain reports whether its task failed, which it does only if the store did. If not, the frame is taken in, the final seq or deletion has taken effect, or one ACK per tracked stream is sent; if so, the engine is rebuilt from the rows. Either way the ACKs are honest |
| SessionIngest.RunChain | apps/server/src/ingest/index.ts:161-242 | For every chain of tasks and every way the store may fail: each task that does not fail does its work; each chunk an ACK proved, and each intact chunk that landed, is stored with its blob, then and after every later task, until a deletion |
| SessionIngest.SharedStreamIdLies | apps/server/src/archive/index.ts:147-166 | Without unique stream ids the claim fails: with no store failure at all, the next ACK proves a chunk that has no row |
| ReadSide.ComputeChwm | apps/server/src/archive/read.ts:193-201 | The counting loop ends at the contiguous mark of stored and lost seqs |
| ReadSide.ComputeHoles | apps/server/src/archive/read.ts:203-225 | The scan returns the canonical list of what is missing up to the final seq, or to the greatest stored one |
| ReadSide.Verdicts | apps/server/src/archive/read.ts:135-157 | Complete and settled, from the holes and the row count |
| ReadSide.MarksAgree | apps/server/src/archive/read.ts:193-201 | The mark from the rows is the receiver's own, for every receiver state |
| ReadSide.HolesAgree | apps/server/src/archive/read.ts:203-225 | The query's hole list equals the engine's exactly when the engine has no hole beyond the final seq |
| ReadSide.SettledAgrees | apps/server/src/archive/read.ts:155-157 | The two sides' settled verdicts are one, for every receiver state |
| ReadSide.CompleteAgrees | apps/server/src/archive/read.ts:155-157 | Without stored seqs beyond the final one, the two complete verdicts are one |
| ReadSide.CompleteAgreesExactly | apps/server/src/archive/read.ts:155-157 | The complete verdicts agree exactly when there is no stray seq or neither side says complete |
| ReadSide.StraySeqsMislead | apps/server/src/archive/read.ts:155-157 | Inputs for both failures: a whole take called incomplete, an incomplete one called whole |
| LineFit.Median | packages/dsp/src/drift.rs:411-422 | Sorts the buffer in place and reads the middle value, or the mean of the two middle ones |
| LineFit.MajorityIsMedian | packages/dsp/src/drift.rs:411-422 | A value held by a strict majority is the median, whatever the others are |
| LineFit.TheilSen | packages/dsp/src/drift.rs:395-409 | The pairwise loops compute the median slope and the median intercept |
| LineFit.TheilSenIsExact | packages/dsp/src/drift.rs:395-409 | With most pairs of points on a line the fit is that line, whatever the other points are |
| Drift.UsedKeepsTheLine | packages/dsp/src/drift.rs:245-271 | The MAD gate only ever drops points off that line, so the refit finds it again |
| Gate.GateIsExact | packages/dsp/src/drift.rs:245-271 | The refit uses exactly the points within the tolerance of the first line, in order, if they are two or more, and else all; the tolerance is eight times the median distance, at least four samples |
| Gate.MedianIsMiddle | packages/dsp/src/drift.rs:411-422 | The median lies halfway between the two middle values of the ordered list |
| Gate.PointPairsCentres | packages/dsp/src/drift.rs:208-232 | A measured window pairs the centre of its target span with the centre of the reference span matched to it |
| Gate.NoEvidenceNoDrift | packages/dsp/src/drift.rs:234-248 | With fewer than two usable windows no ratio is made up: no drift, no offset, no confidence |
| Gate.ConfidenceIsShare | packages/dsp/src/drift.rs:277-288 | With a median peak in 0..1 the confidence is that peak times the share of scheduled windows used, with nothing cut off |
| Drift.MarginIsLeast | packages/dsp/src/drift.rs:177-180 | The search margin is the misalignment allowed for plus the least whole number of samples that covers the greatest drift |
| Drift.ClockIsRecovered | packages/dsp/src/drift.rs:237-288 | With k of n windows right and 2k(k-1) > n(n-1), ratio and offset come back exactly, and no right window is dropped |
| Breakdown.BreakdownPoint | packages/dsp/src/drift.rs:237-288 | That condition is exact: for every n and k the estimate survives n - k arbitrary wrong windows if and only if 2k(k-1) > n(n-1) |
| Drift.RequestCovers | packages/dsp/src/drift.rs:184-205 | The segment asked for lies in the stream and holds every alignment within the margin, and no other |
| Drift.NextIsFirstUsable | packages/dsp/src/drift.rs:184-205 | The next request is the first scheduled window that has an alignment |
| Drift.DriftEstimator.NextRequest | packages/dsp/src/drift.rs:184-205 | A pure peek at that window |
| Drift.DriftEstimator.PushWindow | packages/dsp/src/drift.rs:208-232 | Takes exactly the pending window's slices and advances past it; a wrong shape or no window changes nothing |
| Drift.DriftEstimator.Estimate | packages/dsp/src/drift.rs:237-288 | The gated fit over everything pushed so far |
| Drift.EstimateDriftWith | packages/dsp/src/drift.rs:300-315 | The driver ends, no push is refused, and under the same condition it returns the true clock |
| CaptureRing.EveryRunIsFifo | apps/web/public/worklets/capture.js:22-42 | Under any interleaving of single steps, while positions survive wrapping: the reader gets or skips exactly the published samples in order, no unread cell is overwritten, and offered = published + counted dropped since the last reset |
| CaptureRing.CopyInKeeps | apps/web/public/worklets/capture.js:35-38 | Each single cell store keeps every unread cell, even behind a stale read index |
| CaptureRing.CopyOutKeeps | apps/web/src/audio/sab-ring.ts:66-77 | Each single cell load yields the next published sample while the writer runs on |
| CaptureWrap.FifoExactlyWhenDividing | apps/web/public/worklets/capture.js:28-39 | Every run of a ring is in order if and only if its capacity divides 2^32 |
| CaptureWrap.WrapBreaksFifo | apps/web/src/audio/sab-ring.ts:66-77 | For every other capacity, a run of exactly 2^32 published samples whose last read is out of order: a copy not yet published lands on a sample still unread |
| CaptureWrap.FifoExactlyUpTo | apps/web/public/worklets/capture.js:28-39 | Every run that publishes at most so many samples is in order if and only if they are fewer than 2^32, or the capacity divides 2^32 |
| SharedRing.Buffer.Process | apps/web/public/worklets/capture.js:22-42 | Uninterrupted, the callback publishes the whole channel behind what is unread, or counts it as dropped, or counts an empty quantum |
| SharedRing.Buffer.Read | apps/web/src/audio/sab-ring.ts:66-77 | Uninterrupted, a read returns the oldest unread samples and moves past them |
| SharedRing.Buffer.SnapToWrite | apps/web/src/audio/sab-ring.ts:50-53 | Everything published so far is skipped |
| SharedRing.Buffer.Available | apps/web/src/audio/sab-ring.ts:40-44 | The number of unread samples |

## Left out

- Convergence.ConvergesInOneRound: needs an ACK that fits a frame (at most 8186 holes, once the final seq is known), because `ack_status` does not split.
- Guarantees.HonestClosing: closing is stated about the step that closes and the durable stores afterwards, because a stale ACK or a sink added later can make `drained_all` false again while the state stays closed.
- ReceiverRuns.FlagsAreExact: seqs stay below 2^32 - 1, because `chunk.seq + 1` is unchecked in the source; rebuilt receivers are outside it, because rebuilding skips the continuity check and does not restore flags.
- RecorderRun.ServedFileIsTheEncode: assumes a device description of at most 65394 bytes, fewer than 2^32 - 2 chunks and at most 2^64 - 1 samples, beyond which the source overflows a frame or a counter; quantization is over exact reals, where the source uses 64-bit floats.
- SessionIngest.RunChain: frames a server answers without storing anything (HAVE, backfill requests, time pings) are not modelled, so it says nothing of pushes and tees; it assumes one take per stream id, as the schema promises; durable gap rows may be fewer than the engine's gaps, because they are inserted only if no row has the same start (Archive.ReportKept), so gaps in an ACK are compared with the engine's own.
- StreamSender.StreamSender.HandleBackfillRequest: a gap already marked as reported is not reported again, as in the source; only an ACK forces it.
- Drift.ClockIsRecovered: arithmetic is exact where the source rounds; how one window is measured is not modelled.
- CaptureRing.EveryRunIsFifo: steps are sequentially consistent, which the source's atomics give for the header, and for the cells between a header store and a header load.
- Seqs stay below 2^32 - 1 throughout, as the sentinel `CHWM_NONE` and the unchecked `next_seq += 1` require.
- The desk's sink worker (apps/web/src/audio/sink.worker.ts:203-207) keeps its engine after a failed write; persist-before-ACK is stated for the server only.
- WebRTC channels, peers, tees between sinks, time sync, timers, logging and the JSON facade: glue around the modelled calls.
- Sessions, uploads, retention sweeps over whole sessions, signaling, collaboration, exports and the UI: not part of the protocol.
- `have_summaries` and the other status renderings: easy members over the modelled state.
- `content.rs`, `correlate.rs`, `chirp.rs` and the thresholds of `measure_window`: heuristics without an exact specification.
- Allocation failure, 32-bit `usize` and integer overflow of byte counts.
