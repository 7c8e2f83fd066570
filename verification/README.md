# VAL protocol: verified model

VAL is a blocking file-transfer protocol: a sender offers files one after another, the
two ends negotiate where to resume, the data goes out in windows of DATA frames that
are acknowledged cumulatively, and every frame carries a CRC-32. This project models
the protocol's core in Dafny and proves what it promises, from the bits of the
checksum up to whole batches of files.

`dafny verify dfyconfig.toml` checks everything.

## Layers

| file | models |
|---|---|
| `Crc32.dfy` | the built-in CRC: bit by bit, table-driven, chunked, over a file region; linearity and burst detection |
| `CrcPolynomial.dfy` | the CRC as a remainder of polynomials over GF(2), with the IEEE 802.3 generator |
| `Wire.dfy` | little-endian fields, the 8-byte frame header, the 44-byte HELLO |
| `Framing.dfy` | frames on a byte stream, the in-place send buffer, partial reads, corruption refined to loss |
| `DataOnWire.dfy` | the messages of the data phase as frames: they fit, read back, and a damaging link only loses some |
| `DataPhase.dfy` | the transitions of the Go-Back-N sender and the cumulative receiver |
| `Sender.dfy`, `Receiver.dfy` | the two data loops as objects with their file handles, against any script of events |
| `LossyTransfer.dfy` | one file, window one, over a channel that loses, duplicates and reorders |
| `LosslessTransfer.dfy` | one file, any window, over lossless FIFO pipes |
| `WindowLimits.dfy` | exactly which windows survive a lossy channel, and what goes wrong otherwise |
| `Resume.dfy` | resume negotiation with tail verification |
| `Session.dfy`, `SessionProof.dfy`, `SessionProgress.dfy`, `SessionRecovery.dfy` | whole batches over lossy FIFO pipes: safety of every run with window one, success of every reliable run with any windows, and exactly which states can recover from losses |
| `FlowControl.dfy`, `Rtt.dfy` | the AIMD window, the RTT estimator and the timeouts |
| `Handshake.dfy`, `ControlWait.dfy` | HELLO agreement; bounded control waits and Karn's rule |
| `PathCleaning.dfy`, `PathComponents.dfy` | the path sanitizer; what becomes of a path's components |

## What the proofs turned up

- With a negotiated window above one, a single lost frame can end in a transfer that
  both sides report as complete while the target is wrong
  (`WindowLimits.LostFrameCompletesWrong`). The safe cases are exactly characterised
  (`WindowLimits.SafeWindows`), also in terms of the two configurations
  (`Handshake.SafeConfigurations`).
- The 16-bit content length is checked only after truncation, so DATA frames survive
  for every payload exactly when the effective packet size is at most 65547
  (`Framing.LargestSafePacketSize`), although the handshake admits up to 2 MiB.
- Outside NEVER mode an empty source leaves an existing target untouched
  (`Resume.EmptySourceLeavesTarget`).
- A target whose tail window matches by checksum is continued even if it is not a
  prefix of the source (`Resume.WrongPrefixIsContinued`); when the result is an exact
  copy is stated by `Resume.ExactCopyIff`.
- The receiver's check of the peer's required features can never fail, because both
  sides of it are masked alike; only the sender enforces its own requirement
  (`Handshake.HandshakeAgrees`).
- Metadata, an offer without VERIFY, a VERIFY result, DONE_ACK and EOT_ACK are never sent
  again: losing one of them loses the batch, losing anything else does not
  (`SessionRecovery.RecoversIff`).
- No run, whatever the window, ever makes the receiver send a NAK
  (`LossyTransfer.NoNakEver`).
- The extra tries after a large resume are added in eight bits and can wrap to fewer
  (`Sender.FirstTriesAdd`).
- A run of dots before a separator merges two path components
  (`PathCleaning.TrailingDotsMergeComponents`); when the names of a path survive one by
  one is stated by `PathComponents.NamesSurviveIff`.
- README.md and docs/message-formats.md of the repository describe a 24-byte frame
  header; the code's header has 8 bytes. The model follows the code.

## Assumptions

- The effective packet size is at most 65547, so that a DATA content fits its 16-bit
  length. The handshake admits more; `DataOnWire.PayloadLimitIsExact` shows that the
  code needs exactly this bound, and all data-phase and batch models assume it.
- Files are byte sequences shorter than 2^64 bytes; seek succeeds, a read or write succeeds (perhaps in
  pieces) or fails, and no timeout strikes inside a frame.
- The metadata validator accepts. Timeouts, local cancellation, link failures and
  giving up are nondeterministic events.
- Integers are unbounded except where the source's width matters and is written out:
  the content length, the resume verify cast, the outstanding-packet count, the
  backoff shift, the AIMD counters, the timeout product and the try counter.

## Model

| member | source | states |
|---|---|---|
| Crc32.TableStep | src/val_core.c:133-148 | one table look-up equals eight shifts of the bit-serial register, for every register and byte |
| Crc32.InitTable | src/val_core.c:133-148 | the table built in place holds, for every byte, its eight-shift image |
| Crc32.UpdateState | src/val_core.c:168-178 | the table-driven loop computes the bit-by-bit CRC register over any data from any state |
| Crc32.Checksum | src/val_core.c:150-160 | preset, table loop and complement compute the bit-by-bit CRC, which CrcPolynomial.CrcIsRemainder fixes as the IEEE 802.3 one |
| Crc32.RunConcat | src/val_core.c:162-183 | incremental updates compose over concatenation |
| Crc32.RegionChecksum | src/val_core.c:414-455 | the chunked region checksum equals the one-shot checksum of that slice for every chunk size, and fails exactly when the region leaves the file |
| Crc32.RunIsInjective | src/val_core.c:168-178 | different registers stay different over any common data |
| Crc32.TrailerMatchesIffResidue | src/val_core.c:963-974 | a trailer matches its body exactly when body and trailer together leave the fixed residue |
| Crc32.BurstChangesRegister | src/val_core.c:133-183 | changing anything inside four consecutive bytes changes the register at the end of the message |
| CrcPolynomial.PolyIsGenerator | src/val_core.c:135-148 | the polynomial constant holds exactly the exponents 26, 23, 22, 16, 12, 11, 10, 8, 7, 5, 4, 2, 1, 0 of the generator below its leading term |
| CrcPolynomial.ShiftReduces | src/val_core.c:139-146 | one shift of the register is multiplication by x and reduction by the generator, over GF(2) |
| CrcPolynomial.RemainderIsUnique | src/val_core.c:150-183 | below degree 32 the remainder modulo the generator is unique |
| CrcPolynomial.CrcIsRemainder | src/val_core.c:150-183 | clause 3.2.9 of IEEE 802.3, without any register: a word is the CRC of a message if and only if its complement is the remainder of the preset message polynomial times x^32 modulo the generator |
| Wire.Le16RoundTrip | include/val_byte_order.h:211-265 | 16-bit fields read back as written |
| Wire.Le64RoundTrip | include/val_byte_order.h:239-287 | 64-bit fields read back as written through their two halves |
| Wire.HeaderRoundTrip | src/val_wire.c:27-45 | every frame header survives serialization |
| Wire.HelloRoundTrip | src/val_wire.c:47-98 | HELLO survives serialization for all field values |
| Framing.FrameLayout | src/val_wire.c:27-45 | every frame byte by byte: type, flags, 16-bit length low byte first, content from byte 8, four bytes of trailer |
| Framing.DataLayout | include/val_protocol.h:56-68 | DATA is type 5; an explicit offset sets flag 1 and takes the first eight content bytes, low half first |
| Framing.AckLayout | include/val_wire.h:45-51 | the types and flags of the acknowledgements in numbers, and how their offsets are split |
| Framing.ParseFrame | src/val_core.c:880-974 | a frame at the head of the stream is read whole, checked, and the rest of the stream is left alone |
| Framing.InterpretReadsBack | src/val_core.c:976-1043 | DATA, ACK, NAK and control frames give back their 64-bit offset (or the implied marker) and payload |
| Framing.SendParses | src/val_core.c:718-834 | what the send path emits for content within min(P-12, 65535) parses to the packet that was sent |
| Framing.StreamRoundTrip | src/val_core.c:718-834 | any sequence of fitting packets comes back in order, complete and unmixed |
| Framing.LargestSafePacketSize | src/val_core.c:733-827 | every DATA packet the packet size admits, offset explicit or implied, survives if and only if the packet size is at most 65547 |
| Framing.OversizedDataIsLost | src/val_core.c:736-827 | the concrete failure: a 65536-byte content, at any offset, goes out as an empty frame that the peer rejects |
| Framing.CorruptionIsLoss | src/val_core.c:911-974 | a frame altered within four consecutive bytes outside its length field is a CRC error, and the next frame is parsed at its true boundary |
| Framing.DamageIsOnlyLoss | src/val_core.c:880-974 | over a whole stream with any number of such frames, all others are delivered in order and unchanged |
| Framing.ShiftRightEight | src/val_core.c:750-755 | the in-place shift moves the payload by eight bytes, keeps it intact and stays inside the buffer |
| Framing.BuildDataInPlace | src/val_core.c:743-834 | the frame built in place is the frame of the model for every packet size up to the buffer's, the length cut to 16 bits included, and nothing beyond the packet is touched |
| Framing.Transport.RecvFull | src/val_core.c:12-43 | exactly the requested bytes are read across arbitrary partial reads, or the stream is exhausted |
| Framing.Transport.RecvPacket | src/val_core.c:880-1043 | one receive call over partial reads computes the model's parse, then applies the caller's capacity: too large a payload is refused, no capacity means header only |
| Framing.Transport.Drain | src/val_core.c:880-1043 | repeated receive calls see exactly the parse of the whole stream, however it is split |
| DataOnWire.OffsetRoundTrip | src/val_core.c:780-786 | every 64-bit offset survives its encoding |
| DataOnWire.NeverImplied | src/val_core.c:985-993 | no offset inside a file collides with the marker of an implied one |
| DataOnWire.ChunkReadsBack | src/val_core.c:983-994 | the receiver reads every DATA message back with its offset, or its lack of one, and its bytes |
| DataOnWire.ReplyReadsBack | src/val_core.c:995-1009 | every DATA_ACK and DATA_NAK fits every packet size and is read back with its offset |
| DataOnWire.NextChunkFits | src/val_sender.c:270-280 | every DATA the sender cuts under a payload limit of at most 65535 fits a frame of the packet size |
| DataOnWire.PayloadLimitIsExact | src/val_core.c:736-827 | every cut of every file survives if and only if the payload limit is at most 65535, the bound the data-phase models assume |
| DataOnWire.LinkOnlyLoses | src/val_core.c:880-974 | from bytes to messages: however many frames are damaged, the receiver hears exactly the undamaged messages, in order, which is the frame-losing pipe of the step systems |
| DataOnWire.SentIsHeard | src/val_sender.c:303-311 | everything a data phase put on an undisturbed wire is heard as it was sent |
| DataPhase.ReceiverAgainstAnything | src/val_receiver.c:871-1001 | against any DATA sequence the file grows by exactly written - r, each DATA gets exactly one ACK, the offsets never fall and the last one is the current position |
| Sender.DataSender.constructor | src/val_sender.c:721-756 | the data phase opens with handle, cursor, acknowledged and next offset all at the resume offset |
| Sender.DataSender.ReadAtNext | src/val_sender.c:282-301 | after a seek only when the cached cursor differs, the bytes read are the source's at the next offset |
| Sender.DataSender.SendDataPacket | src/val_sender.c:258-312 | each DATA payload is exactly src[next..next+len], explicit only at the acknowledged offset, and the cursor stays equal to the handle position |
| Sender.DataSender.FillWindow | src/val_sender.c:818-842 | a fill sends exactly the frames the model prescribes, at most one window |
| Sender.DataSender.TakeAck | src/val_sender.c:457-507 | a cumulative ACK moves the window as in the model and restores the tries; stale ones change nothing; the 32-bit packet count loses nothing; success is recorded with the flow control exactly for news outside a retransmission |
| Sender.DataSender.Restart | src/val_sender.c:541-577 | a restart returns next, cursor and the real handle position to the acknowledged offset, records one error with the flow control and takes over its window |
| Sender.DataSender.TakeNak | src/val_sender.c:432-455 | a NAK is adopted only if it advances within the file, then restarts |
| Sender.DataSender.TakeTimeout | src/val_sender.c:524-577 | a silent or damaged receive uses up a try and restarts whenever one is left, and gives up otherwise |
| Sender.DataSender.HandleEvent | src/val_sender.c:418-577 | the decision on every kind of event exactly, with window, tries and flow control after it |
| Sender.DataSender.WaitForWindowAck | src/val_sender.c:404-578 | for every script the wait ends; all events but the last were ACKs or ignored, the last decides as the history of events says; a restart uses up a packet or a try |
| Sender.FirstTriesAdd | src/val_sender.c:744-749 | the first window after a resume has one try more per 256 MiB, at most six, unless eight bits do not hold the sum, when it has fewer |
| Sender.DataSender.FillAndWait | src/val_sender.c:818-906 | every round first sends exactly what the model's fill prescribes for the window it starts from |
| Sender.DataSender.SendWindow | src/val_sender.c:813-910 | one window ends with an ACK that really arrived, or an error within the try budget |
| Sender.DataSender.SendFileData | src/val_sender.c:757-911 | for every script: success exactly on an ACK of the last byte that is news, giving up exactly when the silent receives since the last news exceed the tries granted, an error exactly on its packet; one restart per other silent receive; at most 255(n+1) restarts and 256(n+1) fills for n packets; everything sent is a true piece of the source |
| Receiver.DataReceiver.TakeData | src/val_receiver.c:871-1001 | stride, end-of-file and duplicate rules together are the model's receiver step: one ACK per DATA |
| Receiver.DataReceiver.ReceivePacket | src/val_receiver.c:809-870 | the next packet, or giving up exactly on one silent or damaged receive in a row more than allowed; no input is skipped |
| Receiver.DataReceiver.ReceiveFile | src/val_receiver.c:801-1049 | for every script the loop ends at its first deciding input: success exactly on DONE, a protocol error exactly on ERROR or metadata; file, replies and DONE_ACK are what the model makes of the DATA heard |
| Receiver.EndIsUnique | src/val_receiver.c:801-1049 | one script can end in one way only |
| LossyTransfer.LossyRunsStayIntact | src/val_sender.c:757-911 | window one, lossy reordering channel: in every reachable state the target is old[..r] ++ src[r..written], r <= acked <= written <= size, no NAK exists, and a DONE implies the whole file |
| LossyTransfer.EachCutWrittenOnce | src/val_receiver.c:879-910 | the k-th write is at r + k(max_payload - 8); at DONE there were exactly ceil((size - r)/(max_payload - 8)), each once |
| LossyTransfer.NoNakEver | src/val_receiver.c:920-932 | for every window, on any lossy, duplicating and reordering channel, no NAK is ever sent: nothing the sender names lies ahead of what is written |
| LosslessTransfer.ImpliedOffsetsResolve | src/val_sender.c:818-910 | any window, lossless FIFO: payloads in flight are src[written..next], nothing is misplaced, no NAK |
| LosslessTransfer.WindowsDoNotOverlap | src/val_sender.c:491-506 | a window starts only when everything before it has been written and acknowledged |
| LosslessTransfer.EveryMaximalRunDelivers | src/val_sender.c:757-911 | every run is finite, and one that cannot go on has delivered the file |
| WindowLimits.SafeWindows | src/val_sender.c:829-836 | all transfers of a shape are intact in all lossy runs, and equally all completed runs have delivered the file, if and only if the window is one or the rest fits one packet |
| WindowLimits.LostFrameCompletesWrong | src/val_receiver.c:871-876 | in every other shape one lost frame can complete with the stated target, wrong exactly when the second packet differs from the bytes it replaces |
| Resume.VerifyWindowBounds | src/val_receiver.c:157-166 | the verify window is at least one byte, at most the local size, and fits 32 bits |
| Resume.VerifyWindowExact | src/val_receiver.c:157-166 | the window in numbers: the whole target within the cap (configured, at most 256 MiB, 8 MiB by default) or the minimum, otherwise the larger of the two |
| Resume.VerifyWindowGrows | src/val_receiver.c:157-166 | a larger cap or minimum never compares less |
| Resume.DirectOfferAgrees | src/val_receiver.c:67-182 | an offer without VERIFY leaves both sides with the reference plan |
| Resume.VerifyOffer | src/val_sender.c:205-230 | the sender checks exactly the offered tail window; the 32-bit cast loses nothing |
| Resume.VerifiedOfferAgrees | src/val_receiver.c:662-729 | after VERIFY both sides start at the same offset <= size or both skip, as the reference plan says |
| Resume.OutcomeFits | src/val_receiver.c:729-743 | a plan that writes starts within the source and behind exactly the bytes that are kept |
| Resume.ExactCopyIff | src/val_receiver.c:98-181 | in terms of mode, policy, old target and source: the target ends as an exact copy exactly when it is one, is written from zero, or is a proper prefix that passes the tail check |
| Resume.WrongPrefixIsContinued | src/val_receiver.c:155-181 | the failing input: with a one-byte window [1, 2] is continued from [0, 2, 3] to [1, 2, 3] |
| Resume.ContinuedTailMatches | src/val_receiver.c:157-181 | a target is continued only at its own end and only if its last bytes, as many as the window says, have the checksum of the source's |
| Resume.ContinuedWholeMatches | src/val_receiver.c:157-181 | a target within the cap is continued only if all of it has the checksum of the source's beginning |
| Resume.SmallDamageIsNoticed | src/val_receiver.c:662-729 | a target within the cap that differs from the source's beginning inside four consecutive bytes is never continued: it is rewritten, or left by policy |
| Resume.EmptySourceLeavesTarget | src/val_receiver.c:729 | an empty source changes the target only in NEVER mode |
| SessionProof.StepKeeps | src/val_sender.c:979-1010 | every step of either party, every loss, timeout and failure keeps the safety invariant; what the steps achieve is stated by SessionRecovery.RecoversIff |
| SessionProof.SuccessMeansDelivered | src/val_sender.c:979-1010 | window one, frame-losing FIFO pipes: if either side reports success the directory is the old one with every file handled in order by the reference rule; stale frames never cause a wrong completion |
| SessionProof.EachFileUntouchedOrContinued | src/val_receiver.c:729-743 | per file: untouched, or old[..r] ++ src[r..] with old exactly r bytes long and its tail window matching |
| SessionProof.DoneOnlyForCompleteFile | src/val_receiver.c:1002-1015 | in every run, a DONE that can reach a receiver in its data loop belongs to a completely written file, although the receiver does not check |
| SessionProof.DataExtendsOrKeeps | src/val_receiver.c:871-932 | in every run, a DATA taken by the receiver appends the next cut of the current file or changes nothing, and is answered with the position reached |
| SessionProgress.QuietRunsStayInStep | src/val_receiver.c:262-333 | for any windows, without loss or timeout: cuts and acknowledgements in the pipes line up, the directory is right, and each delivery uses up work |
| SessionProgress.ReliableLinkSucceeds | src/val_sender.c:979-1010 | for any windows, without loss or timeout: no party ever fails, runs are bounded, and a run that cannot go on has succeeded on both sides and delivered every file |
| SessionProgress.EveryBatchCanSucceed | src/val_sender.c:979-1010 | every batch, with any windows, mode and old directory, has a succeeding run |
| SessionRecovery.AnswerableSucceeds | src/val_core.c:1243-1255 | window one, whatever was lost: while the sender's next resend will be answered, success is still possible |
| SessionRecovery.RecoversIff | src/val_core.c:1161-1179 | window one, in every state of every run with losses and timeouts: success is possible if and only if it has happened, or both parties are well and either the resend will be answered or the frame nobody resends (metadata, direct offer, VERIFY result, DONE_ACK, EOT_ACK) is still under way |
| SessionRecovery.FallbackIsFatal | src/val_receiver.c:497-537 | in NEVER mode a receiver that stops waiting for the request has lost the batch |
| FlowControl.Session.RecordError | src/val_core.c:2093-2122 | one error as in the model, limits kept |
| FlowControl.Session.RecordSuccess | src/val_core.c:2124-2157 | one success as in the model, limits kept |
| FlowControl.WindowIsPaidFor | src/val_core.c:2093-2157 | over any run: 1 <= cwnd <= negotiated, increases x (recovery threshold - 1) <= successes, decreases x degrade threshold <= errors |
| FlowControl.Session.constructor | src/val_core.c:2101-2104 | configured thresholds, or 3 errors and 10 successes |
| FlowControl.ErrorsHalveRepeatedly | src/val_core.c:2093-2122 | k x threshold consecutive errors give cwnd <= max(1, cwnd / 2^k) |
| FlowControl.SuccessesRecover | src/val_core.c:2124-2157 | k x threshold consecutive successes give cwnd >= min(negotiated, cwnd + k) |
| Rtt.Estimator.Record | src/val_core.c:480-513 | one measurement as in the model, within 32 bits |
| Rtt.SampleRecurrence | src/val_core.c:487-511 | section 2 of RFC 6298 in integers: 8 SRTT' is 7 SRTT + R and 4 RTTVAR' is 3 RTTVAR plus the deviation, up to rounding down; nothing while retransmitting |
| Rtt.EstimateStaysInRange | src/val_core.c:480-513 | with samples in [lo, hi], lo <= SRTT <= hi and RTTVAR <= max(hi/2, hi - lo) for ever |
| Rtt.ConstantSamplesSettle | src/val_core.c:480-513 | under a constant sample x SRTT moves monotonically into [x - 7, x] in at most as many steps as it is away from x, and stays |
| Rtt.TimeoutIsExact | src/val_core.c:515-558 | no overflow and no effect of the saturation: the exact product, clamped |
| Rtt.TimeoutByCases | src/val_core.c:318-330 | the timeout by cases, with the factors 5, 4, 3, 3, 4, 4, 6 and the bounds in order, 200 and 8000 ms by default |
| Handshake.HandshakeAgrees | src/val_core.c:1742-1839 | through the wire: each side accepts exactly when the peer has what it requires; both then hold min(Ps, Pr) in [512, 2 MiB] and a window between one and what the other advertised |
| Handshake.AdoptIff | src/val_core.c:1771-1838 | any HELLO: accepted exactly for the right magic, major version, packet size and features; the congestion window starts at the configured value or four, within the negotiated one |
| Handshake.ForeignBytesRefused | src/val_core.c:2033-2048 | bytes that do not spell the magic and the major version are refused by both ends |
| Handshake.HelloLayout | src/val_wire.c:47-73 | the opening HELLO byte by byte |
| Handshake.SafeConfigurations | src/val_core.c:1755-1825 | every DATA frame arrives and no file is ever completed wrongly on a lossy channel if and only if the smaller packet size is at most 65547 and the receiver's cap is at most one or the sender's is one |
| ControlWait.SleepIsBounded | src/val_internal.h:325-339 | k backoff steps sleep at most base + 4000(k - 1) ms, for every 32-bit base |
| ControlWait.BackoffDoubles | src/val_internal.h:333-337 | below the cap the backoff doubles each time, past it it stays at 4000 ms |
| ControlWait.SleepDoubles | src/val_internal.h:325-339 | until the cap is reached k sleeps add up to base(2^k - 1) |
| ControlWait.Waiter.BackoffStep | src/val_internal.h:325-339 | sleep, double with 32-bit wrap up to the cap, use up one retry |
| ControlWait.Waiter.Wait | src/val_core.c:1182-1259 | terminates on every script at its first deciding event: success exactly on the wanted packet, giving up exactly on one silence more than there are tries; one resend and one sleep for every other silence; the retransmit flag is up exactly when something was resent |
| ControlWait.Waiter.WaitForAck | src/val_core.c:1261-1298 | the sleep bound, and an RTT sample only from a successful wait that never resent (section 3 of RFC 6298) |
| PathCleaning.CleanIsTidy | src/val_core.c:256-315 | with a buffer longer than the input: only safe characters, single inner separators, no component ending in a dot |
| PathCleaning.ComponentsAreNames | src/val_core.c:285-298 | no component is empty or made of dots |
| PathCleaning.TidyIffUnchanged | src/val_core.c:256-315 | cleaning leaves a path alone if and only if it is tidy |
| PathCleaning.WrittenCharacter | src/val_core.c:299-312 | letters, digits, dot, underscore, hyphen and space are written as they are, everything else as an underscore |
| PathCleaning.CleaningIsIdempotent | src/val_core.c:256-315 | cleaning twice is cleaning once |
| PathCleaning.TrailingDotsMergeComponents | src/val_core.c:285-298 | the witness of a merge: "a../b" becomes "ab" |
| PathCleaning.CleanInto | src/val_core.c:256-315 | the buffer version writes exactly the cleaned path and its terminator for every buffer size |
| PathComponents.ComponentsAreGluedNames | src/val_core.c:256-315 | for every path: the components written are the path's names (components holding a non-dot), each with trailing dots dropped and unsafe characters replaced, a name that ends in a dot glued to the next |
| PathComponents.NamesSurviveIff | src/val_core.c:256-315 | every name survives as a component of its own, in order, if and only if no name but the last ends in a dot |

## Left out

- Transport, filesystem, clock and delay hooks: files are byte sequences, the channel is frames or bytes, timeouts are events.
- `crc32_provider` overrides: foreign code; only the built-in CRC is modelled.
- Metadata validator callbacks and the NEVER-mode fallbacks beyond answering without a request (src/val_receiver.c:464-585).
- Metadata, resume, verify and error payload serializers (src/val_wire.c:100-200): fixed layouts that would only repeat the HELLO proof; the batch model carries their fields as values.
- Legacy helpers that are not on the live path (`await_resume_ack`, `handle_file_resume`, `val_internal_wait_verify`, `val_internal_wait_hello`).
- Sticky cancellation, health diagnostics, metrics, logging, progress, mutexes and tracking slots.
- 32-bit clock wrap-around inside deadlines and `long` truncation of seek offsets.
- Batches over lossy pipes are treated for a negotiated window of one and pipes that keep order; reordering is treated for one file at a time. With larger windows loss is unsafe, and batches are treated over reliable pipes.
- In the single-file step systems the adapted window may be any value between one and the negotiated limit; the AIMD rule that picks it is proved separately and used in Sender.dfy.
- A damaged frame in the receiver's metadata, request and skip waits ends the receiver with an error in the source; the batch model covers it as a receiver that gives up.
- RTT samples taken during DATA waits: the retransmit flag is cleared before each such wait (src/val_sender.c:848), so Karn's rule is claimed only for the DONE and EOT waits.
- Pacing and the time budget of the HELLO exchange (src/val_core.c:1882-1985).
- Sender.DataSender.SendDataPacket: assumes a payload limit above eight bytes, which every negotiated packet size (at least 512) provides; the invalid-argument branch for smaller ones is not modelled.
- Wire.HelloRoundTrip: the payload serializers are modelled on byte sequences rather than as writes at fixed buffer offsets; in-place writing is modelled where buffers overlap, in Framing.dfy.
- Handshake.HandshakeAgrees: adoption is modelled as a value that the session takes over, not as field updates.
- Framing.Transport.RecvPacket: a header-only receive of explicit-offset DATA with fewer than eight content bytes is reported as malformed; the source hands it over with an offset read from stale buffer bytes.
- PathCleaning.CleanIsTidy: asks for a buffer longer than the input; with a shorter one the output may be cut inside a component and end in a dot.
