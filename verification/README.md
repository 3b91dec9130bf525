# FECTP, modelled and proved in Dafny

FECTP is an encrypted datagram transport: small state machines stacked on one another,
each relying on the bounds of the one below. This project models the parts that carry
its guarantees and proves those guarantees for every input, every run and every
reachable state. `dafny verify dfyconfig.toml` checks all of it.

| modules | what they model |
|---|---|
| `Dedup`, `Retransmit`, `SenderRuns`, `Timing`, `Arq` | selective repeat with wrapping 32-bit identifiers: the receiver's window, the sender's queue, and the two of them across a network that drops, duplicates and reorders |
| `Replay`, `Session`, `SessionRuns`, `Refusals` | sealing and opening: the replay bitmap, the key chain, the plaintext layout, and what is refused and how |
| `Frames`, `Reassembly`, `ReassemblyRuns` | the frame header, the fragment descriptor, cutting and reassembly |
| `Sealing`, `Pipeline`, `PipelineRuns`, `Peers`, `Resealing`, `Flush` | one peer's sending side: what fits a frame, the fragment queue, retransmission, reported delivery, `flush` |
| `LinkRuns`, `EndToEnd`, `OnTheWire`, `Cuts`, `Delivery` | that sending side over the reliability queue, the network and the receiver, down to the payload that comes out |
| `TwoSlots`, `Exhibits` | runs of all that, played out call by call |
| `Pmtu`, `PmtuRuns` | path MTU discovery, after section 5 of RFC 8899 |
| `Strides`, `Varint`, `Numeric`, `Transpose`, `Codec`, `CodecForms`, `Compress` | the lossless codecs: LEB128 varints (section 7.6 of DWARF 5), per-channel deltas, byte transposition, and the policy that picks among them |
| `Endpoint` | the three indexes of an endpoint's sessions, and the handshakes it has under way |
| `Control`, `Rendezvous`, `RendezvousRuns`, `RendezvousAnswers`, `RendezvousServer` | the rendezvous: its messages, introductions, relays and groups, and what it answers |
| `WireForms` | what goes on the wire, byte by byte |
| `Bits`, `Wire`, `Outcomes` | machine words, little-endian bytes, results |

Where the source changes state in place the model does too: classes and methods, each
proved to take the state where a step function says, and the properties are proved of
the step functions over whole runs. Identifiers and sequence numbers that wrap on the
wire are kept unbounded beside their wire form, so that a property can say which message
it means.

What comes from outside is a parameter: clock readings, random tokens, whether a window
is open, whether a frame was sent, which addresses a session is at. The AEAD is any pair
of functions, assumed ideal where a lemma says so; the one-way step of the key chain
(section 11.3 of the Noise Protocol Framework, revision 34) is symbolic; Zstandard is any
lossless pair.

## Where the code and its documentation part

In each case the model follows the code, a lemma exhibits the difference and another says
exactly when it arises.

- A retransmission pass that fails to seal or send a frame stops, and messages it had
  given up further on stay in `pending` for good, uncounted
  (`Exhibits.FailedFrameStrandsAnother`, `PipelineRuns.PassKeepsToFlight`,
  `PipelineRuns.KeptIsInFlight`). When such a message was the last unacknowledged fragment of
  the front queued message, that one is never reported and the queue never moves again
  (`Exhibits.FailedFrameBlocksTheQueue`, `PipelineRuns.BlockedForGood`).
- A flush can succeed although a queued message was lost, when one of its fragments had
  been abandoned before the call (`Exhibits.LossBeforeFlush`, `Flush.FlushForgetsAnEarlierLoss`,
  `Flush.FlushIsSound`).
- The peer's `codecs` word is said to govern every coding stage, but Zstandard is governed
  by a separate flag (`Compress.UnadvertisedZstd`, `Compress.CodecsWordRespected`).
- The delta transform is said to be a bijection; for two-byte samples the decoder also
  accepts streams its encoder never writes (`Numeric.NarrowSpellingsDiffer`,
  `Numeric.NumericCanonical`).
- The cap on clients registered from one address counts only new clients, so one that has
  moved can exceed it (`RendezvousRuns.MovedClientExceedsTheCap`,
  `RendezvousRuns.CapSurvivesUnlessMoved`).

## Model

| member | source | states |
|---|---|---|
| Arq.ExactlyWhatWasSent | crates/fectp-core/src/reliability.rs:99-193 | over every timely run of two parties on a network that drops, duplicates and reorders, wrap-around of the 32-bit identifiers included: each message is delivered at most once, only if sent, and whatever `on_ack` removed was delivered |
| Arq.NeverStranded | crates/fectp-core/src/reliability.rs:482-541 | in every reachable state an in-flight message the receiver lacks would be accepted, and one it has is covered by its current acknowledgement |
| Arq.RunInv | crates/fectp/src/pipeline.rs:779-788 | the two-party invariant holds after every timely run |
| Arq.AckedWasSeen | crates/fectp-core/src/reliability.rs:548-572 | an identifier an acknowledgement removes had been received, however old the acknowledgement, up to 2^32 - 64 identifiers |
| Arq.ReplayWindowBoundsAge | crates/fectp-core/src/session.rs:166-205 | the replay window alone keeps an opened data frame within 127 identifiers of the newest received |
| Arq.TooFarAheadIsRefused | crates/fectp-core/src/reliability.rs:155-193 | a message 2^31 or more ahead of the newest is refused though never seen: the distance assumption is needed |
| Arq.SenderIsARun | crates/fectp-core/src/reliability.rs:482-608 | whatever the network does, the sending queue only goes through runs of its own |
| Dedup.AcceptExact | crates/fectp-core/src/reliability.rs:155-193 | within half the identifier space, accepted exactly when unseen and at most 64 behind, and the bitmap goes on recording exactly what was seen |
| Dedup.AckExact | crates/fectp-core/src/reliability.rs:99-114 | an acknowledgement covers exactly what was seen no more than 64 below its highest |
| Dedup.StaleAckLies | crates/fectp-core/src/reliability.rs:99-114 | 2^32 - 64 is the exact age at which an acknowledgement starts to cover a message never received |
| Dedup.SlideTracks | crates/fectp-core/src/reliability.rs:155-193 | sliding the window keeps the bitmap an exact record |
| Dedup.DedupWindow.Accept | crates/fectp-core/src/reliability.rs:155-193 | the in-place window takes the step the exactness lemmas are about |
| Retransmit.RetransmitQueue.constructor | crates/fectp-core/src/reliability.rs:363-372 | an empty queue of 32 slots |
| Retransmit.RetransmitQueue.Register | crates/fectp-core/src/reliability.rs:482-529 | registers under the next identifier in the first free slot, due one timeout on (`Timing.RegisteredIsDueLater`), or refuses for an overrun or a full window, changing nothing |
| Retransmit.RetransmitQueue.OnAck | crates/fectp-core/src/reliability.rs:548-572 | clears exactly the covered slots, samples by Karn's rule, widens the window once per delivery and reports the identifiers in slot order |
| Retransmit.RetransmitQueue.Poll | crates/fectp-core/src/reliability.rs:580-608 | reports what timed out in slot order, as far as the output has room, resetting or removing exactly those slots; one collapse per pass; `Timing` says when each is due and what the window becomes |
| Retransmit.RetransmitQueue.CountInFlight | crates/fectp-core/src/reliability.rs:461-463 | the number of occupied slots |
| Retransmit.RetransmitQueue.OldestDistance | crates/fectp-core/src/reliability.rs:535-541 | the largest distance of an outstanding identifier behind the next one |
| Retransmit.RetransmitQueue.ForgetPath | crates/fectp-core/src/reliability.rs:408-412 | the estimator and both congestion limits go back to their first values; nothing in flight is touched |
| Retransmit.RetransmitQueue.SetMaxRetries | crates/fectp-core/src/reliability.rs:388-390 | zero is raised to one |
| SenderRuns.EveryMessageIsAccountedFor | crates/fectp-core/src/reliability.rs:482-608 | over every run each registered message is in exactly one of in flight, acknowledged, given up; identifiers in flight are distinct and 1 to 64 behind the next |
| SenderRuns.RunInv | crates/fectp-core/src/reliability.rs:482-608 | the queue's invariant over every sequence of calls, acknowledgements and clock readings |
| SenderRuns.AbandonmentSchedule | crates/fectp-core/src/reliability.rs:516-608 | whatever limits, samples and path resets occur, a message given up against limit R had been resent at least R times, never more than the largest limit there has been, and was kept for at least 20(2^(min(R,5)+1) - 1) + 640 max(R - 5, 0) ms; only 64-bit time saturation shortens it |
| SenderRuns.FixedBudget | crates/fectp-core/src/reliability.rs:388-390 | for every limit R set once at the start, R = 0 meaning 1: no message is ever resent more than R times, and one given up was resent exactly R times and kept for at least the whole schedule of R |
| SenderRuns.ScheduleClosed | crates/fectp-core/src/reliability.rs:279-282 | the sum of the least backoffs in closed form |
| SenderRuns.DefaultBudget | crates/fectp-core/src/reliability.rs:580-608 | the same of the default limit: at most five resends, given up only after exactly five and at least 1.26 s |
| SenderRuns.EstimatorInRange | crates/fectp-core/src/reliability.rs:237-275 | the smoothed round trip stays within the samples folded in, the timeout within 20 ms to 5 s, both congestion limits within 2 to 32 messages |
| SenderRuns.AvoidanceAddsAtMostOne | crates/fectp-core/src/reliability.rs:429-439 | at or above the threshold a window's worth of deliveries adds at most one message |
| SenderRuns.RegisterFindsASlot | crates/fectp-core/src/reliability.rs:505-513 | once the overrun and window checks pass a free slot always exists |
| Replay.CheckExact | crates/fectp-core/src/session.rs:166-181 | a sequence passes exactly when it was not accepted and is less than 64 below the highest |
| Replay.CommitTracks | crates/fectp-core/src/session.rs:184-205 | committing keeps the bitmap an exact record of the accepted set |
| Replay.ReplayWindow.Commit | crates/fectp-core/src/session.rs:184-205 | the in-place window takes that step |
| Session.Session.constructor | crates/fectp-core/src/session.rs:340-362 | a session at generation zero in both directions |
| Session.Session.SealFramePadded | crates/fectp-core/src/session.rs:587-685 | writes the frame the specification names or refuses, the sequence advancing only on success and the key catching up either way |
| Session.Session.CatchUp | crates/fectp-core/src/session.rs:597-608 | the rekey loop arrives at the key of the sequence's generation |
| Session.Session.Open | crates/fectp-core/src/session.rs:691-837 | opens or refuses as the specification says and leaves the payload at the front of the frame's body |
| SessionRuns.FrameRoundTrip | crates/fectp-core/src/session.rs:587-814 | under an ideal AEAD and for every padding mode a sealed frame opens exactly when its sequence is acceptable, within 4 generations ahead and not from a generation jumped over, and gives back header, identifier, descriptor and payload |
| SessionRuns.KeyForSequence | crates/fectp-core/src/session.rs:691-741 | a key is found exactly for those sequences, and it is the one the sequence names |
| SessionRuns.NeverTwoGenerationsBehind | crates/fectp-core/src/session.rs:237-240 | a sequence that passes the replay check is never two generations behind: that refusal is unreachable |
| SessionRuns.OpenKeeps | crates/fectp-core/src/session.rs:691-837 | for arbitrary bytes, a refused frame changes nothing and an opened one adds its number and keeps the key chain |
| SessionRuns.ReceiverRun | crates/fectp-core/src/session.rs:817-828 | in every run of arbitrary frames `recv` is the key of `recv_generation`, `recv_prev` the one before it when held, and the window records exactly the accepted numbers |
| SessionRuns.RejectedFramesLeaveNoTrace | crates/fectp-core/src/session.rs:691-837 | deleting every refused frame from a trace leaves the final state and all remaining results unchanged |
| SessionRuns.SenderRun | crates/fectp-core/src/session.rs:597-684 | over every mix of seal calls, failed ones included, frames are numbered without repeat and frame n is sealed under key number n / 65536 |
| SessionRuns.PeelPlaintext | crates/fectp-core/src/session.rs:743-814 | the nested optional prefixes come off as they were laid out |
| SessionRuns.BlockPaddingHidesLength | crates/fectp-core/src/session.rs:624-650 | a block-padded plaintext is a multiple of 64 fixed by the payload's bucket, and only by it |
| SessionRuns.ProbeIsExactlyItsSize | crates/fectp-core/src/session.rs:523-541 | a probe of at least 40 bytes is sealed to exactly the requested size |
| SessionRuns.FreshReceiver | crates/fectp-core/src/session.rs:340-362 | a new session satisfies the receiving invariant |
| Frames.HeaderRoundTrip | crates/fectp-core/src/frame.rs:146-185 | decoding an encoded header gives it back |
| Frames.HeaderCanonical | crates/fectp-core/src/frame.rs:162-185 | whatever header parses has one spelling, with defined flags only |
| Frames.EncodeHeader | crates/fectp-core/src/frame.rs:146-155 | writes exactly the 14 bytes, or refuses a short buffer untouched |
| Frames.FragmentRoundTrip | crates/fectp-core/src/fragment.rs:54-90 | a descriptor survives the wire exactly when it is coherent |
| ReassemblyRuns.SplitThenReassemble | crates/fectp/src/pipeline.rs:132-241 | for up to four messages interleaved in any order, duplicates only before completion, the arrival that completes a message returns exactly its bytes and no other returns anything |
| ReassemblyRuns.NothingLeftBehind | crates/fectp/src/pipeline.rs:191-241 | the table holds exactly the unfinished messages |
| ReassemblyRuns.SplitIsWhole | crates/fectp/src/pipeline.rs:651-676 | the chunks tile the payload |
| ReassemblyRuns.ChunkLengths | crates/fectp-core/src/fragment.rs:102-110 | every chunk but the last has the same length, and the last takes the rest |
| ReassemblyRuns.GenuineFits | crates/fectp/src/pipeline.rs:132-171 | a genuine fragment is never refused and never takes a partial over its bound |
| Reassembly.AcceptMeans | crates/fectp/src/pipeline.rs:191-241 | for arbitrary decoded fragments a message is returned exactly when its last missing piece arrives, as the concatenation of the first fragment kept for each index; other messages are untouched but for one eviction |
| Reassembly.AcceptValid | crates/fectp/src/pipeline.rs:113-247 | at most 4 partials of at most 1 MiB each remain after every call, `received` counting the set slots |
| Reassembly.InsertMeans | crates/fectp/src/pipeline.rs:132-171 | one insertion: duplicates change nothing, a piece is kept or completes the message |
| Reassembly.Reassembler.Accept | crates/fectp/src/pipeline.rs:191-241 | the in-place table takes that step, every index in bounds |
| Reassembly.Reassembler.Insert | crates/fectp/src/pipeline.rs:132-171 | stores the piece at index times stride, or refuses |
| PmtuRuns.FindsTheLargestCarried | crates/fectp/src/pmtu.rs:107-238 | on a path carrying sizes up to P, once a first search ends the size in use is the largest of base, ladder and cap the path carries, for any answer order, and stays so |
| PmtuRuns.NeverStuck | crates/fectp/src/pmtu.rs:125-184 | over every run the size is the base or one that was answered, and with a cap above the base a probe is out or a search planned |
| PmtuRuns.SearchEnds | crates/fectp/src/pmtu.rs:160-184 | every search ends: whatever else happens, by the third pass at which every awaited answer is overdue there was a point with no probe out and the next search planned |
| PmtuRuns.FallsBackOnlyUnanswered | crates/fectp/src/pmtu.rs:224-238 | the size drops, other than by reset, exactly when a validating search ends with nothing it sent answered, and then to the base |
| PmtuRuns.SizesMember | crates/fectp/src/pmtu.rs:125-184 | which sizes a search probes |
| Pmtu.Discovery.constructor | crates/fectp/src/pmtu.rs:85-95 | starts at the base with a search planned when the cap allows one |
| Pmtu.Discovery.Due | crates/fectp/src/pmtu.rs:125-184 | one pass, in place: what it sends is what `PmtuRuns.SearchAsks` and `PmtuRuns.ProbesArePaced` say |
| Pmtu.Discovery.Answered | crates/fectp/src/pmtu.rs:187-209 | an answer raises the size and settles the smaller probes |
| Pmtu.Discovery.Suspect | crates/fectp/src/pmtu.rs:217-221 | suspicion brings the next search forward |
| Pmtu.Discovery.Reset | crates/fectp/src/pmtu.rs:107-112 | a new path starts again from the base |
| Varint.VarintRoundTrip | crates/fectp-core/src/codec/varint.rs:27-76 | decoding an encoded value gives it back, whatever follows, in at most five bytes |
| Varint.VarintCanonical | crates/fectp-core/src/codec/varint.rs:57-76 | whatever decodes is the shortest spelling of a 32-bit value |
| Varint.Encode | crates/fectp-core/src/codec/varint.rs:27-42 | writes exactly the encoding, or refuses for want of room |
| Varint.Decode | crates/fectp-core/src/codec/varint.rs:57-76 | the shift-and-overflow loop computes the recursive reading |
| Varint.GatherMeans | crates/fectp-core/src/codec/varint.rs:57-76 | the overflow test of a shifted payload refuses exactly a fifth byte above 15 |
| Varint.ZigzagRoundTrip | crates/fectp-core/src/codec/varint.rs:17-24 | zigzag is undone by its inverse |
| Varint.WrapRoundTrip | crates/fectp-core/src/codec/numeric.rs:92-99 | wrapping subtraction and addition undo each other, both ways |
| Numeric.NumericRoundTrip | crates/fectp-core/src/codec/numeric.rs:86-134 | per-channel delta coding is lossless for both widths, every channel count and every difference |
| Numeric.NumericCanonical | crates/fectp-core/src/codec/numeric.rs:105-134 | an accepted encoding is the encoder's own exactly when every value it spells fits a sample |
| Numeric.NarrowSpellingsDiffer | crates/fectp-core/src/codec/numeric.rs:67-72 | two encodings of one two-byte sample: the truncating write drops a difference of 65536 |
| Numeric.NumericBound | crates/fectp-core/src/codec/numeric.rs:86-103 | at most 3 bytes per two-byte sample and 5 per four-byte one, so never more than twice the input |
| Numeric.StreamCanonical | crates/fectp-core/src/codec/numeric.rs:117-132 | a list of words has one spelling, and trailing bytes are refused |
| Numeric.InterleaveRoundTrip | crates/fectp-core/src/codec/numeric.rs:86-128 | reading by channel and writing interleaved undo each other |
| Numeric.Encode | crates/fectp-core/src/codec/numeric.rs:86-103 | the nested loops write exactly the specified stream, or refuse a wrong shape or a short buffer |
| Numeric.Decode | crates/fectp-core/src/codec/numeric.rs:105-134 | the nested loops put every sample in its place, and check in the source's order |
| Transpose.ShuffleRoundTrip | crates/fectp-core/src/codec/transpose.rs:23-64 | the byte-transpose filter is undone in either order, tail included |
| Transpose.Encode | crates/fectp-core/src/codec/transpose.rs:23-42 | the running-index loops produce the transposed bytes |
| Transpose.Decode | crates/fectp-core/src/codec/transpose.rs:45-64 | the running-index loops put every byte back |
| Strides.TransposeTwice | crates/fectp-core/src/codec/transpose.rs:1-16 | laying a grid out by columns and back is the identity |
| Codec.HeaderRoundTrip | crates/fectp-core/src/codec/mod.rs:220-243 | decoding an encoded codec header gives it back |
| Codec.HeaderCanonical | crates/fectp-core/src/codec/mod.rs:231-243 | whatever codec header parses has one spelling |
| Codec.EncodeHeader | crates/fectp-core/src/codec/mod.rs:220-228 | writes exactly the four bytes, or refuses a short buffer |
| Codec.TransformLossless | crates/fectp-core/src/codec/mod.rs:103-150 | every transform that applies is reversed exactly and at most doubles its input |
| Codec.ApplyInto | crates/fectp-core/src/codec/mod.rs:103-116 | applies the transform, refusing only a wrong shape when twice the input's room is given |
| Codec.ReverseInto | crates/fectp-core/src/codec/mod.rs:119-150 | reverses the transform, checking shape before room |
| Compress.CodedIsLossless | crates/fectp/src/compress.rs:186-306 | for every payload, declared shape, peer and buffers, a coded result is smaller than the original with its header and decodes to the same bytes |
| Compress.OnlyWhatThePeerAccepts | crates/fectp/src/compress.rs:186-225 | the transform's bit was advertised, and Zstandard is used only towards a peer that accepts compression |
| Compress.ShorterIsSent | crates/fectp/src/compress.rs:226-261 | coding is used exactly when it pays, and the shorter of the two forms is sent |
| Compress.CodecsWordRespected | crates/fectp/src/compress.rs:196-196 | both stages are in the peer's `codecs` word for every payload exactly when a peer that sets the compression flag also sets the word's Zstandard bit |
| Compress.UnadvertisedZstd | crates/fectp-core/src/session.rs:53-60 | a peer that sets only the flag is sent Zstandard all the same |
| Compress.EncodePayload | crates/fectp/src/compress.rs:186-261 | the stages run through the growing buffers and leave the specified bytes, never short of room; which bytes those are is in the rows on samples, elements and the rest |
| Compress.DecodePayload | crates/fectp/src/compress.rs:267-306 | the receiver's scratch is always large enough for what was sent, and errors come in the source's order |
| Compress.Buffer.Ensure | crates/fectp/src/compress.rs:171-175 | a buffer only grows, keeping its contents |
| Sealing.FrameFitsTheLimit | crates/fectp/src/pipeline.rs:441-562 | with padding off a sealed frame is within its datagram limit, and the peer's, exactly when the limit holds the parts around the payload: 42 bytes for a fragment |
| Sealing.WithinRoomAlwaysSeals | crates/fectp/src/pipeline.rs:454-463 | a payload within its room always seals, whatever the coder does |
| Sealing.SealedMessageIsDelivered | crates/fectp/src/pipeline.rs:474-562 | end to end: a sealed message opens when the session allows and delivers the caller's bytes with its identifier and descriptor, coded or not |
| Sealing.RefusedOnlyIfNeitherFits | crates/fectp/src/pipeline.rs:493-551 | a payload is refused exactly when neither it nor its coding fits, and one too large raw is always tried coded |
| Sealing.ChosenDelivers | crates/fectp/src/pipeline.rs:887-917 | the capacity worked out from the body alone is exact and sufficient |
| PipelineRuns.ReportedDeliveryIsSound | crates/fectp/src/pipeline.rs:608-692 | in every run a message reported delivered had every fragment registered, sent with its own bytes and descriptor, and acknowledged; one reported lost had one given up |
| PipelineRuns.RetransmissionsAreFaithful | crates/fectp/src/pipeline.rs:839-863 | each retransmission reseals the same bytes, shape, descriptor and limit as the first sending |
| PipelineRuns.KeptIsInFlight | crates/fectp/src/pipeline.rs:63-85 | over every run `pending` is within what is in flight exactly when no retransmission pass had a failing resend before a message given up, and it is then all of it but messages whose first frame never went out |
| PipelineRuns.PassKeepsToFlight | crates/fectp/src/pipeline.rs:839-878 | a retransmission pass leaves only in-flight messages in `pending` exactly when, in what came due, no kept message whose resend fails is ahead of a kept message given up |
| PipelineRuns.StrandedForGood | crates/fectp/src/pipeline.rs:839-878 | a message left so stays in `pending`, in flight no more, whatever happens afterwards |
| Exhibits.FailedFrameStrandsAnother | crates/fectp/src/pipeline.rs:853-863 | a run, played through the retransmission queue's own clock and the receiver's acknowledgement, in which a failed frame leaves a given-up message in `pending`, uncounted and, by any continuation, for good |
| PipelineRuns.BlockedForGood | crates/fectp/src/pipeline.rs:678-692 | when that was the front message's last unacknowledged fragment, the message is never reported and nothing behind it ever goes out, whatever happens afterwards |
| Exhibits.FailedFrameBlocksTheQueue | crates/fectp/src/pipeline.rs:853-863 | and such a run comes to that |
| PipelineRuns.DriveQueueMoves | crates/fectp/src/pipeline.rs:608-692 | a pass finishes at most the front message, as delivered exactly when none of its fragments had been abandoned |
| PipelineRuns.OpenWindowSendsAll | crates/fectp/src/pipeline.rs:638-676 | while the window is open and frames go out, a pass sends every fragment there is |
| PipelineRuns.AcknowledgedIsReported | crates/fectp/src/pipeline.rs:678-692 | a message wholly out and acknowledged is reported delivered by the next pass |
| PipelineRuns.GivenUpAreCounted | crates/fectp/src/pipeline.rs:864-874 | an uninterrupted pass counts every message it gives up, and apart those no queued message waited for, without wrapping |
| PipelineRuns.QueuedMessagesAreNumbered | crates/fectp/src/pipeline.rs:568-601 | at most four messages are queued, numbered consecutively across the wrap |
| PipelineRuns.DriveQueueKeeps | crates/fectp/src/pipeline.rs:608-692 | every pass, failed ones included, keeps the invariant |
| PipelineRuns.DriveRetransmitsKeeps | crates/fectp/src/pipeline.rs:839-878 | so does every retransmission pass |
| PipelineRuns.ApplyAckKeeps | crates/fectp/src/pipeline.rs:829-835 | so does every acknowledgement |
| PipelineRuns.QueueMessageKeeps | crates/fectp/src/pipeline.rs:568-601 | so does queueing |
| PipelineRuns.LaunchedKeeps | crates/fectp/src/lib.rs:1073-1095 | so does sending one frame, whether or not it goes out |
| Peers.Peer.constructor | crates/fectp/src/pipeline.rs:407-423 | an empty sending side, with no history |
| Peers.Peer.QueueMessage | crates/fectp/src/pipeline.rs:568-601 | refuses an unreliable peer, a full queue or a message too large, in that order, or queues the cut; the state stays that of the run of calls so far, one longer |
| Peers.Peer.DriveQueue | crates/fectp/src/pipeline.rs:608-692 | the feed loop takes the state where the specification says, failures included; the run is one pass longer |
| Peers.Peer.FeedFront | crates/fectp/src/pipeline.rs:638-676 | feeds fragments until the window closes, the job ends or a frame fails |
| Peers.Peer.ApplyAck | crates/fectp/src/pipeline.rs:829-835 | drops exactly what was acknowledged; the run is one acknowledgement longer |
| Peers.Peer.DriveRetransmits | crates/fectp/src/pipeline.rs:839-878 | resends (`PipelineRuns.PassResends`), gives up and stops as the specification says; the run is one pass longer when what came due was in flight |
| Peers.Peer.WorkThrough | crates/fectp/src/pipeline.rs:844-877 | the loop over what came due, up to the first resend that fails |
| Peers.Peer.SendOne | crates/fectp/src/lib.rs:1073-1095 | registers and sends one frame, keeping it only once it is out; the run is one call longer |
| Resealing.EveryResendFits | crates/fectp/src/pipeline.rs:68-84 | in every run each frame kept for resending seals again within its own limit, however the session's limit has moved |
| Flush.FlushIsSound | crates/fectp/src/lib.rs:1546-1574 | a flush that succeeds means everything in flight on entry was acknowledged, nothing was given up meanwhile, and every queued message was delivered, except exactly a front message one of whose fragments had been abandoned before entry |
| Flush.FlushForgetsAnEarlierLoss | crates/fectp/src/lib.rs:1546-1574 | that exception is real: such a flush succeeds though the message is lost |
| Exhibits.LossBeforeFlush | crates/fectp/src/lib.rs:1546-1574 | a run, played through the queue's own clock, after which it does: a queued byte is resent and given up, and the flush that follows succeeds while reporting it lost |
| Flush.LoopIsSound | crates/fectp/src/lib.rs:1550-1568 | the loop, turn by turn |
| EndToEnd.SameThroughout | crates/fectp/src/pipeline.rs:608-692 | at every point of every run of the sending side over the reliability queue, the network and the receiver, the messages in flight, acknowledged and given up are the same for `Pipeline` as for the queue, each in a run of its own |
| EndToEnd.DeliveredWasReceived | crates/fectp/src/pipeline.rs:678-692 | in every such run that is timely, a message reported delivered had every fragment handed to the receiver, once, with the bytes and descriptor it was cut into |
| Delivery.DeliveredCameOutWhole | crates/fectp/src/pipeline.rs:191-241 | and, when at most 2^32 messages were queued and at most three reported lost, the receiver's reassembly, fed the frames it was handed, returned that message's payload byte for byte |
| Delivery.EveryArrivalAcceptable | crates/fectp/src/pipeline.rs:191-241 | under those bounds the receiver has room for every fragment as it comes, in whatever order the network brings them, and none comes after its message is complete |
| Cuts.RunCut | crates/fectp/src/pipeline.rs:568-676 | in every run messages are numbered in the order queued, and each fragment sent is one of a message queued, under one identifier only |
| Cuts.StepGrows | crates/fectp/src/pipeline.rs:608-692 | no event changes what an identifier was sent as, or which message has which number |
| Exhibits.ByteIsDelivered | crates/fectp/src/pipeline.rs:608-692 | a run that meets what is supposed, and reports a delivery |
| EndToEnd.FeedInStep | crates/fectp/src/pipeline.rs:638-676 | a feed pass registers, sends and loses the same messages in both |
| Delivery.TableOfFragments | crates/fectp/src/pipeline.rs:191-241 | reassembly of the frames is reassembly of the fragments they carry |
| LinkRuns.PollIsGivenUp | crates/fectp-core/src/reliability.rs:580-608 | polling reports in-flight messages, each once, and gives up exactly those it says: what the pipeline takes it to do |
| LinkRuns.AckIsAcked | crates/fectp-core/src/reliability.rs:548-572 | acknowledgement moves exactly the covered messages |
| LinkRuns.RegisterIsRegistered | crates/fectp-core/src/reliability.rs:482-529 | registration adds exactly the next message |
| LinkRuns.NoneInFlight | crates/fectp-core/src/reliability.rs:461-463 | `in_flight()` is zero exactly when nothing is in flight |
| Endpoint.Endpoint.File | crates/fectp/src/endpoint.rs:2447-2495 | files a session in place of any at the same address and identifier, after making room; the three indexes agree and the count stays within the maximum |
| Endpoint.Endpoint.SettleProbe | crates/fectp/src/endpoint.rs:1911-1965 | moves a session to the address that answered, displacing only a session of the same identifier there; the indexes agree |
| Endpoint.Endpoint.Disconnect | crates/fectp/src/endpoint.rs:1507-1520 | lets go of a handshake under way, or else of the session in all three indexes, and reports whether there was either |
| Endpoint.Endpoint.StartHandshake | crates/fectp/src/endpoint.rs:1368-1386 | a handle never given out before, and in use by no session |
| Endpoint.Endpoint.CompleteOutbound | crates/fectp/src/endpoint.rs:1968-2017 | a reply that matches no handshake changes nothing; one that matches uses it up, and files a session under its handle exactly when authentic |
| Endpoint.Endpoint.Accept | crates/fectp/src/endpoint.rs:2073-2094 | a session the other side began is filed under a handle never given out before |
| Endpoint.Endpoint.DriveLiveness | crates/fectp/src/endpoint.rs:2631-2652 | lets go of exactly the peers not heard from inside the limit, all of them when it is zero; the indexes agree |
| Endpoint.Endpoint.MakeRoom | crates/fectp/src/endpoint.rs:2419-2434 | evicts only when full, the peer that never spoke and is oldest, or the oldest when all have |
| Endpoint.Endpoint.PickVictim | crates/fectp/src/endpoint.rs:2423-2427 | finds a least peer by spoken then filed |
| Endpoint.Endpoint.UnfileSession | crates/fectp/src/endpoint.rs:2438-2445 | takes one peer off its identifier's list, and the list with its last |
| Endpoint.Endpoint.Route | crates/fectp/src/endpoint.rs:1699-1702 | a route is found exactly for an address and identifier some peer is filed under, and leads to that peer |
| Endpoint.Endpoint.SetMaxPeers | crates/fectp/src/endpoint.rs:2250-2252 | zero is raised to one |
| Endpoint.SpokenAreSafe | crates/fectp/src/endpoint.rs:2412-2434 | while fewer than the maximum have spoken, making room never evicts one that has |
| Endpoint.RouteFindsThePeer | crates/fectp/src/endpoint.rs:1692-1702 | no two sessions share a route |
| Endpoint.FiledAgrees | crates/fectp/src/endpoint.rs:2462-2468 | filing keeps the three indexes in agreement |
| Endpoint.SettledAgrees | crates/fectp/src/endpoint.rs:1940-1957 | moving keeps them in agreement |
| Endpoint.DropAgrees | crates/fectp/src/endpoint.rs:1512-1516 | taking a peer out keeps them in agreement |
| Control.MessageRoundTrip | crates/fectp/src/rendezvous.rs:224-343 | every control message decodes to itself, a member list exactly when it has at most 64 members |
| Control.MessageCanonical | crates/fectp/src/rendezvous.rs:279-343 | whatever decodes is spelled the one way encoding spells it |
| Control.AddressRoundTrip | crates/fectp/src/rendezvous.rs:181-212 | an address at the front of a body is read back with what follows |
| RendezvousRuns.IntroductionsAreMutual | crates/fectp/src/rendezvous.rs:680-719 | in every run an introduction is sent only when each side had asked for the other within the window, and no request serves two introductions |
| RendezvousRuns.TablesAgree | crates/fectp/src/rendezvous.rs:653-801 | in every run `clients` and `by_key` are inverse to each other, relays stay within 64 in all and 4 per address, groups within 8 per client and 64 members |
| RendezvousRuns.RelayOnlyAfterIntroduction | crates/fectp/src/rendezvous.rs:731-801 | in every run the pair of each relay had each asked for the other and been introduced, and the relay was opened within the relay window of that introduction |
| RendezvousRuns.IntroducedTables | crates/fectp/src/rendezvous.rs:702-719 | an introduction keeps every request, entry and relay backed by what was asked and introduced |
| RendezvousRuns.AllocationFits | crates/fectp/src/rendezvous.rs:757-784 | a new allocation keeps both bounds |
| RendezvousRuns.CapSurvivesUnlessMoved | crates/fectp/src/rendezvous.rs:653-678 | the cap of 32 clients per address survives a registration exactly when it is not a registered client moving into a full address |
| RendezvousRuns.MovedClientExceedsTheCap | crates/fectp/src/rendezvous.rs:653-678 | a run of thirty-four registrations in which it does not: thirty-three clients end at one address |
| RendezvousRuns.RegisterKeeps | crates/fectp/src/rendezvous.rs:653-678 | registration keeps every table invariant |
| RendezvousRuns.IntroduceKeeps | crates/fectp/src/rendezvous.rs:680-719 | so does a request to be introduced |
| RendezvousRuns.RelayKeeps | crates/fectp/src/rendezvous.rs:731-801 | so does a request to be relayed |
| RendezvousRuns.JoinKeeps | crates/fectp/src/rendezvous.rs:539-557 | so does joining a group, refused or not |
| RendezvousRuns.LeaveKeeps | crates/fectp/src/rendezvous.rs:559-573 | so does leaving one |
| RendezvousRuns.ForgetKeeps | crates/fectp/src/rendezvous.rs:520-536 | so does forgetting a client |
| RendezvousRuns.ExpireKeeps | crates/fectp/src/rendezvous.rs:805-832 | so does the passing of time |
| RendezvousRuns.RipeRequestsAreIntroduced | crates/fectp/src/rendezvous.rs:680-719 | the second of two requests introduces the pair, each told the other's present address, exactly when both are registered and reachable, allowed, and the first is within the window; both are then spent |
| RendezvousRuns.JoinerIsListed | crates/fectp/src/rendezvous.rs:539-588 | a joiner there is room for is listed once, the rest kept, everyone told, no other group changed |
| RendezvousRuns.LeaverIsGone | crates/fectp/src/rendezvous.rs:559-573 | leaving takes a client out of that group and no other |
| RendezvousRuns.ForgottenIsGone | crates/fectp/src/rendezvous.rs:520-536 | a client that has gone is in no table and no group |
| RendezvousServer.Server.Poll | crates/fectp/src/rendezvous.rs:498-515 | what has run out goes first, then what came is dealt with; the tables are those of the run of events so far, made longer by the round, and so have all that is proved of runs |
| RendezvousServer.Server.Handle | crates/fectp/src/rendezvous.rs:608-650 | a request makes the run one event longer |
| RendezvousServer.Server.Lose | crates/fectp/src/rendezvous.rs:505-511 | so does a session gone, with exactly the groups it was in |
| RendezvousServer.Server.PassTime | crates/fectp/src/rendezvous.rs:499-499 | so does time, with exactly the requests that ran out |
| RendezvousServer.Server.Answer | crates/fectp/src/rendezvous.rs:608-650 | each kind of message takes the tables where the step says |
| RendezvousServer.Server.Register | crates/fectp/src/rendezvous.rs:653-678 | the tables after a registration, in place |
| RendezvousServer.Server.Introduce | crates/fectp/src/rendezvous.rs:680-719 | the tables and mail after a request to be introduced, in place |
| RendezvousServer.Server.Relay | crates/fectp/src/rendezvous.rs:731-801 | the tables and mail after a request to be relayed, in place; who is told what is `RendezvousAnswers.RelayIsOffered` and `RendezvousAnswers.RelayIsRefused` |
| RendezvousServer.Server.Join | crates/fectp/src/rendezvous.rs:539-557 | the group after a joiner, or without one there is no room for, and its mail |
| RendezvousServer.Server.Leave | crates/fectp/src/rendezvous.rs:559-573 | the group after a leaver, and its mail |
| RendezvousServer.Server.Forget | crates/fectp/src/rendezvous.rs:520-536 | the tables after a client has gone, which leaves exactly the groups it was in, in some order |
| RendezvousServer.Server.Expire | crates/fectp/src/rendezvous.rs:805-832 | the tables and notices after time has passed: the requests past the window, worked out from the table and told in some order, old introductions, and relays that have not forwarded for a minute |
| Timing.TimeoutInRuns | crates/fectp-core/src/reliability.rs:237-275 | in every run the timeout in force is that of the RFC 6298 averages of the round trips measured since the path was last new: 200 ms before any, then the smoothed trip and four times its variation, within 20 ms and 5 s |
| Timing.NeverResentAreMeasured | crates/fectp-core/src/reliability.rs:548-572 | an acknowledgement folds in exactly the messages it removes that were never resent, each measured from its registration |
| Timing.RegisteredIsDueLater | crates/fectp-core/src/reliability.rs:516-529 | a message registered is due one timeout later |
| Timing.ResentIsDueLater | crates/fectp-core/src/reliability.rs:580-608 | one resent for the k-th time is due again after the timeout doubled k times, five at most, and at most 5 s |
| Timing.OverdueIsReported | crates/fectp-core/src/reliability.rs:580-608 | a poll with room for every slot reports a message exactly when it is overdue, as given up when its resends are spent and to be resent otherwise |
| Timing.LossHalvesTheWindow | crates/fectp-core/src/reliability.rs:449-453 | a pass that resends anything leaves a window of two messages and a threshold of half what it was, two at the least; one that resends nothing changes neither |
| Timing.SlowStartAddsOneEach | crates/fectp-core/src/reliability.rs:429-439 | below the threshold each delivery adds one message |
| Timing.AvoidanceAddsItsShare | crates/fectp-core/src/reliability.rs:429-439 | at or above it each adds its share of one, and never more than 32 in all |
| Timing.AckWidensOnceEach | crates/fectp-core/src/reliability.rs:548-572 | an acknowledgement widens the window once for each message it removes |
| Timing.NewPathStartsAfresh | crates/fectp-core/src/reliability.rs:408-412 | a new path has nothing measured, four messages of window and the threshold at 32 |
| Timing.FourToBeginWith | crates/fectp-core/src/reliability.rs:482-513 | a new queue takes four messages and refuses a fifth |
| PipelineRuns.PassResends | crates/fectp/src/pipeline.rs:839-863 | a retransmission pass resends, in the order they came due, exactly the frames due and still kept that come before the first failure, each as it is kept, and nothing else |
| PipelineRuns.QueueAnswer | crates/fectp/src/pipeline.rs:568-601 | a message is refused without a peer that acknowledges, with four waiting, or when it cannot be cut; otherwise it is put last, cut into the largest fragments both limits allow after 42 bytes around each |
| PipelineRuns.SendAnswer | crates/fectp/src/lib.rs:1073-1095 | a frame refused changes nothing; one that goes out is in flight, kept and reported by its identifier, and one that fails to is in flight and not kept |
| OnTheWire.EveryFrameIsAccountedFor | crates/fectp/src/pipeline.rs:839-863 | in every run over the reliability queue and the network, the frames sealed for a message are its first sending, if it went out, and one for each resend recorded of it: none missing and none besides |
| PmtuRuns.SearchAsks | crates/fectp/src/pmtu.rs:125-156 | the pass that begins a search sends one probe for every size there is to ask about and for no other, from the smallest up, each under its own token |
| PmtuRuns.ProbesAreSent | crates/fectp/src/pmtu.rs:160-184 | in every run each probe outstanding was sent as often as it says, one to three times, in the search under way |
| PmtuRuns.OnlyProbesAreSent | crates/fectp/src/pmtu.rs:160-184 | every probe a pass sends is outstanding after it |
| PmtuRuns.ProbesArePaced | crates/fectp/src/pmtu.rs:160-184 | a probe outstanding is sent again exactly when it went out fewer than three times and the larger of the retry time and 250 ms has passed |
| PmtuRuns.NextSearchIsPlanned | crates/fectp/src/pmtu.rs:224-238 | a search that ends plans the next ten minutes on, or one minute after it fell back |
| PmtuRuns.NewPathIsSearched | crates/fectp/src/pmtu.rs:107-112 | a new path is at the base, and the next pass asks about everything above it |
| PmtuRuns.SuspicionIsFollowedUp | crates/fectp/src/pmtu.rs:217-221 | after suspicion the next pass checks the size in use, unless that is the base or a search is under way, when nothing changes |
| PmtuRuns.ChangesAreReported | crates/fectp/src/pmtu.rs:187-209 | an answer is reported as a change exactly when the size in use is another, and a token nobody waits for changes nothing |
| Compress.HeaderSaysTheShape | crates/fectp/src/compress.rs:160-168 | the header of a coding names the transform of the declared shape, its parameter and the payload's length |
| Compress.SamplesAreDeltaCoded | crates/fectp/src/compress.rs:186-261 | whole frames of samples, declared as such to a peer that undoes deltas, are differenced channel by channel, compressed where that is shorter, and sent so exactly when it pays |
| Compress.ElementsAreTransposed | crates/fectp/src/compress.rs:186-261 | likewise elements, transposed, when Zstandard is available |
| Compress.BrokenFramesAreSentPlain | crates/fectp/src/compress.rs:186-225 | a payload that is not whole frames of its declared samples is sent as it is |
| Compress.OthersAreCompressed | crates/fectp/src/compress.rs:186-261 | without a usable transform a payload is compressed exactly when it is 1024 bytes or more, Zstandard is available, it does not look compressed and that pays |
| CodecForms.VarintIs | crates/fectp-core/src/codec/varint.rs:27-42 | a varint is the value's base-128 digits, least first, with the top bit on all but the last |
| CodecForms.DeltaStreamIs | crates/fectp-core/src/codec/numeric.rs:86-103 | the stream spells, channel by channel, the zigzagged wrapping difference of each little-endian sample from the one before it in its channel, zero before the first |
| CodecForms.ShuffledIs | crates/fectp-core/src/codec/transpose.rs:23-42 | byte b of element e goes to place b * elements + e, and bytes past the last whole element stay |
| RendezvousAnswers.RegistrationAnswer | crates/fectp/src/rendezvous.rs:653-678 | a client is registered and told its address unless it has none or, new, finds 32 at it; an older session of its key goes |
| RendezvousAnswers.RequestAnswer | crates/fectp/src/rendezvous.rs:680-719 | a request the policy forbids is refused and the asker told; one whose counterpart stands within the window introduces the pair and uses both requests up; any other is recorded and nobody told |
| RendezvousAnswers.RelayIsOffered | crates/fectp/src/rendezvous.rs:731-801 | two clients introduced within the last minute and allowed are both told of a relay exactly when they have one already or there is room: fewer than 64 in all, fewer than 4 at either address, and ports; it is counted at the addresses they registered from |
| RendezvousAnswers.RelayIsRefused | crates/fectp/src/rendezvous.rs:731-801 | otherwise nothing is opened and who is told what depends on the reason: an unregistered target, no recent introduction, policy, or no room |
| RendezvousAnswers.JoinAnswer | crates/fectp/src/rendezvous.rs:539-557 | a joiner is put last with any earlier row of theirs gone, when fewer than 64 others are in and they are in fewer than eight other groups; otherwise only that row goes |
| RendezvousAnswers.LeavingIsTold | crates/fectp/src/rendezvous.rs:559-588 | those who stay are told who is left |
| RendezvousAnswers.ExpiryAnswer | crates/fectp/src/rendezvous.rs:805-832 | exactly the requests past the window, the introductions past a minute and the relays idle for one go, and the asker of each request listed as run out, if still registered, is told whether the other never registered or did not ask |
| Sealing.SealedExactlyWhenItFits | crates/fectp/src/pipeline.rs:441-463 | a payload sent as it is seals exactly when, with 30 bytes around it, 4 for an identifier and 8 for a descriptor, it is within the peer's limit and the path's |
| Endpoint.GoesBeforeAll | crates/fectp/src/endpoint.rs:2419-2434 | the one let go is oldest among the peers that never spoke, or the oldest when all have |
| WireForms.HeaderIs | crates/fectp-core/src/frame.rs:146-159 | version and type in one byte, the flags, the session in four bytes and the number in eight, least first |
| WireForms.DescriptorIs | crates/fectp-core/src/fragment.rs:54-66 | the message in four bytes, the index and the count in two each |
| WireForms.PlaintextIs | crates/fectp-core/src/session.rs:587-688 | identifier and descriptor where there is one, then the payload; padded, its length before and zeros after, to a multiple of 64 or the exact length asked for |
| WireForms.PieceCountIs | crates/fectp-core/src/fragment.rs:102-113 | as few fragments as hold the payload, one at the least; refused exactly when they hold nothing, the payload passes a mebibyte, or 4096 are too few |
| WireForms.CodingHeaderIs | crates/fectp-core/src/codec/mod.rs:220-229 | transform and entropy in the two halves of a byte, the parameter, and the length |
| WireForms.AddressIs | crates/fectp/src/rendezvous.rs:181-193 | the family, the address and the port |
| WireForms.MessageIs | crates/fectp/src/rendezvous.rs:224-276 | one byte for each kind of message and its parts in order; a list of members is 48 bytes each |
| Refusals.OpenAnswer | crates/fectp-core/src/session.rs:691-838 | whatever bytes arrive, the frame is refused before decryption with the error its length, version, type, flags, session and number call for, given the numbers accepted so far; otherwise it opens only under the key its number names, as what its flags and plaintext say, a path frame only as a bare token |
| Refusals.SealAnswer | crates/fectp-core/src/session.rs:587-688 | when a sealing is refused and with which error; a refusal uses no number, and leaves the key up to date unless the numbers have run out |
| Refusals.DecodeAnswer | crates/fectp/src/compress.rs:267-306 | a coded payload is refused for its header, then for want of room, then for its compression; otherwise it has the length its header says or is a bad header |
| Refusals.DeliverAnswer | crates/fectp/src/pipeline.rs:887-917 | a payload sent as it is is delivered exactly when there is room, and a buffer of the capacity read off the body is never too small |

## Left out

- Sockets, threads, locks and blocking reads: datagrams, times and outcomes are arguments instead.
- The Noise handshake, X25519, BLAKE2s, resumption tickets and zeroization: cryptographic library work.
- Zstandard's own format and the magic numbers by which a payload looks compressed already: the first is an abstract lossless pair, the second an arbitrary predicate.
- The token buckets of the endpoint, the rendezvous and the relays: floating-point rates that only decide whether a request is served.
- The heuristic that skips coding on streams that did not shrink: every theorem about sealing holds whatever it answers.
- The receiving side of `Peer::ingest` beyond opening, acknowledging, delivering and reassembling, which are modelled apart.
- Relay ports, their checks and forwarding threads; the client's side of the rendezvous; group certificates.
- The endpoint's resending of opening frames, its events and its wake-up times; the contents of handshakes.
- `Sealing.Seal` is a function of values: the reuse of the two coding buffers inside `Peer::seal` is modelled in `Compress` only.
- `Pipeline` compares identifiers without wrap-around. Identifiers in flight are within 64 of each other (`SenderRuns.EveryMessageIsAccountedFor`), so they compare alike; what happens once 2^32 others have been registered beside a list of acknowledged fragments, or beside a stranded message, whose wire identifier is then used again, is not covered: `PipelineRuns.StrandedForGood` and `PipelineRuns.BlockedForGood` hold until then.
- `Pipeline` keeps `pending`, `outstanding` and `abandoned` as maps and sets: the vectors' order is never read.
- `Rendezvous` orders keys as numbers and leaves the flow label and scope of IPv6 addresses out, as the wire form does.
- Arq.ExactlyWhatWasSent: supposes, as the protocol does, that the two sides are never 2^31 identifiers apart and that no acknowledgement outlives 2^32 - 64 of them.
- ReassemblyRuns.SplitThenReassemble: supposes at most four messages unfinished at once and no fragment of a message after it is complete; otherwise the oldest is evicted or the message starts again.
- Delivery.DeliveredCameOutWhole: supposes what `Arq.ExactlyWhatWasSent` does, and its two bounds: a message number used again, or a fourth message given up half received, can cost another its place in the receiver's table.
