# A verified model of the Daxson tunnel core

This project models, in Dafny 4.11, the parts of the Daxson tunnel that have to be right for bytes
and credentials to arrive intact:

* **Shaped connections.** An application writes chunks into an inbox; a sender goroutine gathers
  them into bursts, cuts each burst into DATA frames of random size with random padding, and
  answers PINGs in between; a keepalive goroutine writes PINGs of its own; the peer parses frames
  and hands bytes up through a leftover buffer. `FrameCodec`, `FrameStream`, `Fragment`, `Conn`,
  `ConnInvariant`, `ConnRuns`, `ConnPaths`, `ConnClose`, `ConnProgress`, `ConnShape` and
  `ConnLoops` model this down to the bytes on the channel; `SizeModel`, `Personality`, `Padding` and `Pacer` model the samplers and the congestion
  pacer behind it.
* **Registration and authentication.** `Registry` and `RegistryRuns` model the invite and device
  registry with saves that may fail and restarts that load the last snapshot. `Invite`, `Auth`,
  `AuthBytes` and `AuthWindow` model the three two-message handshakes and when they succeed.
* **Connect requests and reconnection.** `Connect` models the request that opens a stream and its
  way through a relay; `Backoff` models the client's reconnect loop.

`dafny verify dfyconfig.toml` checks everything. `Bytes`, `Text` and `Stream` hold the shared
vocabulary: big-endian integers, concatenation and subsequences, numerals, and byte channels read
through short reads.

## Main results

* Over every interleaving of the goroutines of two endpoints, with any frame sizes, padding,
  control frames, channel failures and failed padding draws, accepted bytes are conserved: each is
  sent, given up after an error, dropped on cancellation or still on its way, and the bytes sent
  are delivered, buffered or in flight (`ConnRuns.BytesConserved`). Until cancellation or a failed
  padding draw the peer has read a prefix of what was written, whatever the channel does
  (`StreamConserved`), and everything can be delivered (`ConnClose.CanDeliver`).
* After cancellation, and after a padding draw that fails while the channel works, the peer can
  read a later chunk without an earlier one (`ConnClose.GapReachable`, `SkipReachable`). The exact
  condition for such a gap is `GapIff`: the channel works and the sender is running with two things
  under way, or one after something was lost, or can still be given some by new calls of `Write`.
  So closing leaves no gap, as long as `Write` is not called again, if and only if the channel has
  failed or at most one thing is under way (`CloseSafeIff`, `CloseKeepsPrefix`), and right after a
  failed padding draw if and only if no chunk is pending (`PadFailureGapIff`).
* Every PONG read echoes, in order and at most once, a PING sent, whatever the payloads
  (`ConnRuns.PongsEchoPings`). A keepalive PING goes out while the sender is quiet if the sender
  takes up no chunk after the keepalive's check (`ConnShape.PingWithoutTake`), and can go out
  on a working channel during a burst, its flush or its drain exactly when a chunk can still reach
  the sender (`BusyPingIff`, `BusyPings`).
* As long as the sender is running and the channel works every queued PING can be answered, and
  only then (`ConnProgress.CanAnswer`, `AnswerIff`); queued PONGs can be turned into latency samples
  (`CanSample`), a burst can take in all that is waiting (`CanCoalesce`), an open connection can
  come to rest (`CanRest`) and Close can complete from every state (`CanClose`).
* The frame stream is uniquely decodable, and the writer's reused buffer refines the pure encoder
  (`FrameStream.EncodingUnique`, `FrameCodec.Writer.WriteFrame`).
* Status-0 replies for an invite token equal the uses on record plus the grants that a restart
  came upon before any successful save, over every run (`RegistryRuns.GrantsExact`), which says
  exactly when a limit is exceeded (`GrantsLimited`); every answer goes back to the creation of the
  invite, so that no grant comes after its lifetime (`RepliesExplained`, `GrantsInTime`); a saved
  revocation is permanent (`RevocationPermanent`).
* In all three handshakes client and server agree on the session, with the exact condition under
  which a failed save or a failed response write makes them disagree (`Auth.HmacAgreement`,
  `DeviceAgreement`, `BootstrapAgreement`). On arbitrary bytes the server's session, reply, bytes
  left and registry are given by offsets on the wire: a device gets in exactly with a fresh,
  properly signed request of an enrolled key (`AuthBytes.DeviceBytes`, `HmacBytes`,
  `BootstrapBytes`).
* Large-mode sampling can return for every personality except video
  (`Padding.LargeModeReturns`), whose selector returns as long as it never switches modes
  (`VideoRun`); the selector's mode is the parity of its switches (`ModeParity`); and the pacer
  recovers, and backs off to the floor, within a number of observations known in advance
  (`Pacer.Recovers`, `BacksOff`).

## How the source is modelled

* `Conn` is a labelled step relation over both endpoints; each action is one step of one goroutine
  and every schedule is allowed. Timers may fire at any moment, random draws are parameters, and
  the tail call of `runBurstCycle` (internal/bcl/conn.go:320, 342) is a loop. A caller of `Write`
  checks for an earlier error and enqueues in two separate steps.
* Writing one frame is one step. This is an assumption: the comment at internal/bcl/conn.go:224
  speaks of a single writing goroutine, but the keepalive goroutine also calls `WriteFrame`
  (internal/bcl/conn.go:451, 460-471), and `Writer` is documented as unsafe for concurrent use
  (pkg/protocol/frame.go:97). Taking a PING off its queue and writing the PONG is also one step.
* A frame whose padding cannot be drawn is not written and leaves the channel as it is
  (pkg/protocol/frame.go:127-131); the sender records the error, gives up the burst and goes on
  with the inbox (internal/bcl/conn.go:229-233, 304-308).
* A channel is reliable and ordered until it fails; a failed write may have delivered any prefix of
  the frame, and a channel that failed once keeps failing.
* The loops of the connection (`Read`, `fragmentAndSend`, `coalesceBurst`) also appear as methods
  proved against the functions the step relation uses (`ConnLoops.Incoming.Read`,
  `Fragment.FragmentAndSend`, `ConnLoops.CoalesceBurst`); one call of `Read` is a run of the read
  steps (`ConnLoops.ReadIsRun`).
* PINGs carry any payload in the model; the source always sends the same eight bytes.
* Floating-point numbers are reals; rounding is not modelled. This matters at one place: the share
  of mobile's first three sizes is exactly the floor 0.6 in real arithmetic, so its fourth size
  is accepted.
* Hashes, MACs and signatures are function parameters. Only two things are ever assumed of them,
  each where it is used: a signature verifies under its own key (`SignaturesVerify`), and the MAC
  inputs compared in one handshake do not collide (`CollisionFree`).
* Strings are byte sequences, times are integer nanoseconds, and the registry file is an abstract
  snapshot replaced whole or not at all.
* Reads may be split anywhere but make progress until the stream ends; the end, a failure or an
  expired deadline, is reported after the last bytes or together with them.

Where code and comments disagree the model follows the code: the HMAC window is the current and the
previous bucket (internal/auth/hmac.go:93-95) and not one bucket either way
(internal/auth/hmac.go:14); a PING can go out during a burst although
internal/bcl/conn.go:417-419 says never; the PING payload is constant although
internal/bcl/conn.go:505-507 says it must not be; and large-mode sampling for video does not take
the expected few iterations of internal/bcl/padding.go:112 but never ends.

## Model

| member | source | states |
|---|---|---|
| FrameCodec.ParseEncode | pkg/protocol/frame.go:107-186 | an encoded legal frame followed by any bytes parses to that frame and consumes exactly 11 + payload + padding bytes |
| FrameCodec.ParseSound | pkg/protocol/frame.go:149-186 | whatever parses, from arbitrary bytes, is the encoding of a legal frame with some padding |
| FrameCodec.ParseBounded | pkg/protocol/frame.go:149-186 | on arbitrary bytes at most one maximal frame is consumed, and exactly the header when the frame is rejected |
| FrameCodec.ParsePartial | pkg/protocol/frame.go:149-186 | a proper prefix of an encoded frame is neither a frame nor malformed |
| FrameCodec.Reader.ReadFrame | pkg/protocol/frame.go:149-186 | however reads are split, the result and the bytes left are those of parsing the stream |
| FrameCodec.Writer.WriteFrame | pkg/protocol/frame.go:98-135 | whatever earlier frames left in the buffer, the channel gets a prefix of this frame's pure encoding, all of it exactly on success; rejected frames write nothing |
| FrameCodec.OpenRoundTrip | pkg/protocol/frame.go:197-219 | the STREAM_OPEN payload round-trips exactly for addresses below 256 bytes, and longer ones decode to something else |
| FrameCodec.FrameLayout | pkg/protocol/frame.go:107-135 | the offset of every field of an encoded frame, numbers big-endian |
| FrameStream.DecodeEncoded | pkg/protocol/frame.go:107-186 | decoding the concatenated encodings of any legal frames, followed by anything, yields those frames in order |
| FrameStream.DecodeSound | pkg/protocol/frame.go:149-186 | every byte string splits into the encodings of the frames read and the tail that stops the reader |
| FrameStream.EncodingUnique | pkg/protocol/frame.go:107-135 | two lists of legal frames with the same bytes are equal, padding included |
| FrameStream.DecodePrefix | pkg/protocol/frame.go:107-186 | however a channel is cut, the reader sees a prefix of the frames written and then the end of the stream, never a malformed frame |
| Fragment.FragmentsCarry | internal/bcl/conn.go:360-413 | for every sequence of draws the DATA payloads cut from a burst concatenate to the burst |
| Fragment.FragmentsDecode | internal/bcl/conn.go:360-413 | a peer decoding the bytes of a fragmented burst recovers exactly the burst |
| Fragment.FragmentAndSend | internal/bcl/conn.go:360-413 | the loop terminates, the channel gets the encoded fragments as far as it takes them and up to the first whose padding cannot be drawn, success means all of them, and frames attempted and latencies seen by the pacer are exactly those up to the frame that fails |
| Fragment.AttemptsExact | internal/bcl/conn.go:385-399 | the channel takes as much of the encoding as it has room for, and the last frame attempted is the first that does not fit |
| Fragment.FrameCount | internal/bcl/conn.go:365-383 | sizes between m >= 12 and M give at least ceil(n/(M-11)) and at most ceil(n/(m-11)) frames, with 65535 in place of m-11 where that is smaller |
| Fragment.PersonalityFrameCount | internal/bcl/personality.go:85-292 | those bounds with the smallest and largest size of each personality's own table |
| Fragment.FrameSize | internal/bcl/conn.go:365-393 | a DATA frame is no larger than the larger of its two sampled targets |
| Fragment.PaddedSize | internal/bcl/padding.go:62-80 | a frame whose padding is not skipped comes to exactly its target unless the payload exceeds it or the padding limit is reached |
| Fragment.FramesFitRecords | internal/bcl/personality.go:85-292 | every DATA frame is at most as large as the largest size of its personality's table, hence fits one TLS record of 2^14 bytes |
| Fragment.SelectedFromTable | internal/bcl/padding.go:91-119 | every size the selector returns is in its personality's table |
| ConnInvariant.EmitKeepsChannel | internal/bcl/conn.go:385-397 | however a frame write ends, the channel holds exactly the frames sent and not yet read, and nothing malformed |
| ConnInvariant.SendKeeps | internal/bcl/conn.go:360-413 | sending one fragment moves its bytes to those sent or, on a failed channel or a failed padding draw, accounts for the rest of the burst as given up; only the latter leaves the channel working |
| ConnInvariant.PongKeeps | internal/bcl/conn.go:473-479 | answering a PING accounts for every queued PING as answered, failed or still queued |
| ConnInvariant.StepKeeps | internal/bcl/conn.go:131-489 | every step of either endpoint, failed padding draws included, keeps the whole invariant: chunks, bytes and their fate, PINGs, reads, samples and both channels |
| ConnRuns.RunInv | internal/bcl/conn.go:131-489 | every schedule of both endpoints keeps the invariant |
| ConnRuns.BytesConserved | internal/bcl/conn.go:131-413 | in every reachable state the accepted bytes are, in order, sent, given up or dropped, then unsent, in the burst or in the inbox, and the bytes sent are delivered, left over or in flight |
| ConnRuns.StreamConserved | internal/bcl/conn.go:131-413 | until cancellation or a failed padding draw, whatever the channel does, accepted bytes are delivered, left over, in flight, lost to a failed channel, unsent, in the burst or in the inbox, in this order; nothing is lost before a DATA write fails; the peer has read a prefix |
| ConnRuns.QuiescentComplete | internal/bcl/conn.go:131-413 | when no DATA write has failed and nothing is left on the way, exactly what was written has been delivered |
| ConnRuns.PrefixOfKept | internal/bcl/conn.go:205-297 | in every reachable state the peer has read a prefix of the bytes sent, a subsequence of the kept bursts, whose chunks are an ordered subsequence of those accepted; without a failed padding draw a prefix of the kept bursts; nothing is dropped before cancellation |
| ConnRuns.KeptSentWhole | internal/bcl/conn.go:301-310 | until a DATA write fails a flushed burst is sent whole, cancelled or not |
| ConnRuns.PrefixWithoutGap | internal/bcl/conn.go:205-297 | in every reachable state in which nothing was sent after bytes given up or dropped, the peer has read a prefix of what was written |
| ConnClose.GapReachable | internal/bcl/conn.go:229-297 | for any two chunks, a schedule in which the peer reads the second without the first after cancellation, no write having failed |
| ConnClose.GapIff | internal/bcl/conn.go:131-310 | from a state without a gap, some schedule sends bytes after others were given up or dropped if and only if the channel works and the sender is running and has two things under way, or one after a loss, or, with new calls of Write, has met no error |
| ConnClose.CloseSafeIff | internal/bcl/conn.go:205-214 | at the moment of closing, before any error, schedules without further calls of Write leave no gap if and only if the channel has failed or at most one chunk, call of Write, burst being gathered or burst being flushed is under way |
| ConnClose.CloseKeepsPrefix | internal/bcl/conn.go:205-297 | closing in such a state keeps the peer on a prefix of what was written in every later state that is reached without further calls of Write, whatever fails |
| ConnClose.CloseThenWrite | internal/bcl/conn.go:131-150 | with calls of Write that start after Close, which are still accepted, closing is free of gaps only once the channel has failed |
| ConnClose.BrokenKeepsPrefix | internal/bcl/conn.go:304-308 | once the channel has failed without a gap, the peer stays on a prefix of what was written whatever follows |
| ConnClose.SkipReachable | internal/bcl/conn.go:229-308 | for any two chunks, a schedule in which a padding draw fails and the peer reads the second without the first, nothing cancelled and the channel working |
| ConnClose.PadFailureGapIff | internal/bcl/conn.go:229-308 | right after a padding draw fails on a working channel a gap can follow if and only if a chunk is pending |
| ConnClose.CanDeliver | internal/bcl/conn.go:226-413 | before any error and cancellation, some schedule without new calls of Write delivers everything accepted so far |
| ConnClose.GapDelivered | internal/bcl/conn.go:229-310 | whenever a gap is possible, a schedule after which the peer has read everything sent, the bytes after the gap included |
| ConnProgress.CanAnswer | internal/bcl/conn.go:235-237 | while the sender runs and the channel works, a schedule without cancellation or new calls of Write answers exactly the queued PINGs, in order; a control event ends the drain phase |
| ConnProgress.AnswerIff | internal/bcl/conn.go:226-347 | a queued PING can still be answered if and only if the sender is running and the channel works |
| ConnProgress.CanSample | internal/bcl/conn.go:481-489 | before any error and cancellation a queued PONG can be processed, and gives a sample exactly when a PING is pending |
| ConnProgress.CanCoalesce | internal/bcl/conn.go:264-301 | a burst can take in everything waiting in the inbox, if it stays below the limit, and goes out as one |
| ConnProgress.CanFill | internal/bcl/conn.go:108 | any 256 chunks can be waiting in the inbox, in the order written |
| ConnProgress.CanRest | internal/bcl/conn.go:310-352 | before any error and cancellation the sender can work off its inbox and come back to idle |
| ConnProgress.CanClose | internal/bcl/conn.go:205-214 | from every state, whatever the channel does, both goroutines can end and every call of Write under way can return |
| ConnRuns.PongsEchoPings | internal/bcl/conn.go:322-347 | PONGs written, failed and queued make up the PINGs read that found room; PONGs read are an ordered subsequence of the PINGs sent, for PINGs of any payload |
| ConnRuns.OnlyDataDelivered | internal/bcl/conn.go:155-203 | only DATA payloads reach the caller, in order, and no malformed frame is ever met |
| ConnRuns.SamplesBounded | internal/bcl/conn.go:460-489 | latency samples never outnumber the PINGs sent |
| ConnRuns.QueuesBounded | internal/bcl/conn.go:108-114 | inbox and control queues stay within 256 and 4 entries |
| ConnShape.BurstsLimited | internal/bcl/conn.go:256-282 | a burst without its last chunk is below the personality's limit, from three chunks on, and so is a burst of two or more chunks still being gathered |
| ConnShape.KeepaliveChecksQuiet | internal/bcl/conn.go:423-449 | the keepalive's state check passes only while nothing is gathered, flushed or drained, and until an error or cancellation exactly then |
| ConnShape.PingWithoutTake | internal/bcl/conn.go:423-471 | if the sender takes up no chunk between the keepalive's check and its write, the PING goes out while the sender is quiet |
| ConnShape.BusyPingIff | internal/bcl/conn.go:423-471 | a PING about to be written from a quiet state can go out on a working channel in another phase if and only if the channel works and a chunk can still reach the sender |
| ConnShape.BusyPings | internal/bcl/conn.go:417-471 | in that case, with a working channel, schedules that write the PING while gathering, while flushing and while draining |
| ConnShape.PingDuringBurst | internal/bcl/conn.go:417-471 | reachable states in which the last frame written is a PING during a burst, during its flush and during its drain |
| ConnShape.SenderExits | internal/bcl/conn.go:226-242 | the sender ends only when it finds the cancellation while waiting for a burst |
| ConnShape.KeepaliveLives | internal/bcl/conn.go:423-456 | while the connection is open and its channel works the keepalive keeps going |
| ConnShape.FailedPingEnds | internal/bcl/conn.go:451-455 | after a PING that cannot be written no further one is ever started |
| ConnLoops.Incoming.Read | internal/bcl/conn.go:155-203 | state, bytes returned and bytes left are those of reading once: the loop skips frames exactly as the scan does |
| ConnLoops.ReadOnceSplits | internal/bcl/conn.go:155-180 | leftovers first, otherwise the next payload; returned bytes and leftovers together are that payload |
| ConnLoops.ReadIsRun | internal/bcl/conn.go:155-203 | one call of Read is a run of the read steps of the connection, with the same state, bytes returned and bytes left |
| ConnLoops.ScanConserves | internal/bcl/conn.go:155-203 | skipping control frames loses no data and queues exactly the PINGs and PONGs skipped, as far as there is room |
| ConnLoops.OfferKeepsFirst | internal/bcl/conn.go:181-193 | of everything offered a control queue keeps the first that fit into its four slots |
| ConnLoops.CoalesceBurst | internal/bcl/conn.go:494-503 | joining chunks is concatenation, the single-chunk shortcut included |
| SizeModel.NewSizeModel | internal/bcl/math.go:140-152 | the running sums of normalised weights are the prefix sums divided by the total; no model of numbers results exactly when the weights of a non-empty table sum to zero |
| SizeModel.CumulativeShape | internal/bcl/math.go:140-152 | positive weights give strictly increasing shares from 0 to 1, the i-th of length weight_i / total |
| SizeModel.Sample | internal/bcl/math.go:155-167 | the bisection returns what the linear search for the first cumulative weight >= u returns |
| SizeModel.SampleInterval | internal/bcl/math.go:140-167 | the draws that choose bucket i are exactly an interval of length weight_i / total |
| SizeModel.AcceptedSuffix | internal/bcl/padding.go:107-133 | the buckets accepted under a floor are those whose share starts at or above it, a suffix |
| SizeModel.AcceptedExists | internal/bcl/padding.go:107-133 | some bucket is accepted exactly when the weight before the last bucket reaches the floor |
| SizeModel.QuantileScan | internal/bcl/padding.go:123-133 | the scan computes the share below the first bucket of at least this size |
| Personality.TablesProper | internal/bcl/personality.go:85-292 | all five tables have positive weights summing to 1 and increasing sizes between 64 and 2^14 |
| Personality.TableWeights | internal/bcl/personality.go:85-292 | the weights before the last bucket: 0.75, 0.92, 0.15, 0.92 and 0.75 |
| Padding.SampleBiased | internal/bcl/padding.go:107-119 | the rejection loop returns the first accepted size among its draws |
| Padding.AcceptanceThreshold | internal/bcl/padding.go:107-133 | a draw is accepted exactly when it exceeds the left end of the first accepted bucket |
| Padding.BiasedReturns | internal/bcl/padding.go:107-119 | the loop stops exactly when some draw exceeds that threshold |
| Padding.BiasedChooses | internal/bcl/padding.go:107-119 | it returns the size that the first draw above the threshold chooses |
| Padding.FloorSelects | internal/bcl/padding.go:107-133 | a positive floor lets through exactly the sizes whose share starts at or above it |
| Padding.BiasedCanReturn | internal/bcl/padding.go:107-119 | a table lets the loop stop at all exactly when the weight before its last bucket reaches the floor |
| Padding.LargeModeReturns | internal/bcl/padding.go:91-119 | large mode can return for a personality if and only if it is not video |
| Padding.VideoSelector | internal/bcl/padding.go:91-119 | a video selector call returns exactly when it ends in small mode |
| Padding.VideoRun | internal/bcl/padding.go:84-119 | all calls of a video selector return if and only if it never switches modes |
| Padding.ModeParity | internal/bcl/padding.go:62-103 | after any run of uses the selector is in its starting mode exactly when the number of switches is even |
| Padding.ModeSizes | internal/bcl/padding.go:91-103 | small mode returns the size of its first draw; large mode returns exactly the sizes whose share starts at or above 0.6 |
| Padding.PadFor | internal/bcl/padding.go:69-79 | the padded frame comes to exactly the target, or to 1024 bytes of padding below it, or is unpadded because it exceeds the target |
| Padding.Selector.SampleApparentSize | internal/bcl/padding.go:84-103 | the mode flips exactly below the transition probability and decides the floor |
| Padding.Selector.SelectPadding | internal/bcl/padding.go:62-80 | no padding and no mode change on a zero draw, otherwise the padding for a fresh target |
| Pacer.Pacer.constructor | internal/bcl/pacing.go:42-56 | a new pacer starts at full rate with an average of 1 ms and its personality's threshold |
| Pacer.Pacer.ObserveWrite | internal/bcl/pacing.go:60-74 | one observation updates average and rate as the value-level step does |
| Pacer.RunBounded | internal/bcl/pacing.go:60-74 | over every run the rate stays in [0.1, 1] and congestion after an observation means at most one half |
| Pacer.DelaysBounded | internal/bcl/pacing.go:86-114 | over every run the burst delay is 0 or 20 to 100 ms and only under congestion, the frame gap at most 20 ms; the base gap is the whole nanoseconds of its sample up to the cap |
| Pacer.DelaysScale | internal/bcl/pacing.go:86-114 | over every run both delays times the rate give back their base to within a nanosecond, and the burst delay is 0 exactly without congestion or at full rate |
| Pacer.CongestionHalves | internal/bcl/pacing.go:42-74 | for thresholds of at least 1 ms, congestion always comes with a rate of at most one half |
| Pacer.CongestedRate | internal/bcl/pacing.go:60-74 | n congested observations divide the rate by 2^n, down to the floor |
| Pacer.ClearRate | internal/bcl/pacing.go:60-74 | n clear observations add n steps of 0.05, up to full rate |
| Pacer.FourDownEighteenUp | internal/bcl/pacing.go:60-74 | four congested observations reach the floor and eighteen clear ones full rate |
| Pacer.EwmaDecays | internal/bcl/pacing.go:60-74 | after n latencies of at most x the average exceeds x by at most (3/4)^n of its excess |
| Pacer.EwmaRises | internal/bcl/pacing.go:60-74 | after n latencies of at least x the average falls short of x by at most (3/4)^n of its shortfall |
| Pacer.Recovers | internal/bcl/pacing.go:60-74 | latencies of at most some x under the threshold lead to full rate and no congestion after a known number of observations |
| Pacer.BacksOff | internal/bcl/pacing.go:60-114 | latencies of at least some x over the threshold lead to the floor rate and a burst delay of 100 ms after a known number of observations |
| Pacer.StaysFast | internal/bcl/pacing.go:42-114 | a fresh pacer that sees only latencies within a threshold of at least 1 ms keeps full rate and adds no delay |
| Registry.Load | internal/registry/registry.go:66-79 | loading yields the saved snapshot, an empty registry without a file, and no registry when the file cannot be read or parsed |
| Registry.Registry.Save | internal/registry/registry.go:82-95 | a save replaces the file with memory or leaves it alone |
| Registry.Registry.Bootstrap | internal/registry/registry.go:119-160 | status, new device, use consumed, error and file, a failed save included |
| Registry.Registry.AuthorizeDevice | internal/registry/registry.go:99-115 | the status of the key's first record, its last-seen time and the file |
| Registry.Registry.CreateInvite | internal/registry/registry.go:163-190 | the invite is recorded even when the save fails and is not returned then |
| Registry.Registry.RevokeInvite | internal/registry/registry.go:193-204 | exactly the first invite whose ID starts with the given one is revoked |
| Registry.Registry.RevokeDevice | internal/registry/registry.go:207-218 | exactly the first device with the given ID is revoked |
| Registry.Registry.DeviceCount | internal/registry/registry.go:239-249 | the number of indices of records not revoked |
| Registry.BootstrapAnswers | internal/registry/registry.go:119-142 | 1 without a live invite of the token; otherwise the first one decides: 2 past its expiry second, 3 when its uses reach max(1, MaxUses), 0 otherwise |
| Registry.BootstrapChanges | internal/registry/registry.go:144-155 | a grant consumes one use of exactly that invite and appends one record of the key; any other answer changes nothing |
| Registry.AuthorizeExact | internal/registry/registry.go:99-115 | 0 exactly for a key whose first record is not revoked, 3 exactly for an unknown key; only the last-seen time of that record changes |
| Registry.RevokeChanges | internal/registry/registry.go:193-218 | each revocation marks exactly the first record that matches and leaves all others alone |
| RegistryRuns.UseAccounting | internal/registry/registry.go:119-218 | over every run, uses stay within max(1, MaxUses) and device records number the uses |
| RegistryRuns.Handle | internal/registry/registry.go:66-218 | handling an event with the registry object is one step of the runs, memory and file alike |
| RegistryRuns.RepliesExplained | internal/registry/registry.go:119-190 | every answer over every run goes back to the event that created the invite: expired exactly past the second its lifetime ends, then used up at its limit |
| RegistryRuns.GrantsInTime | internal/registry/registry.go:133-135 | no status-0 reply comes after the lifetime of the invite, whatever failed in between |
| RegistryRuns.GrantIffRecorded | internal/registry/registry.go:119-160 | status 0 is replied exactly when a device was appended and a use consumed, failed save or not |
| RegistryRuns.GrantsConserved | internal/registry/registry.go:66-160 | status-0 replies for a token equal uses on record plus uses that restarts forgot |
| RegistryRuns.ForgottenEvents | internal/registry/registry.go:66-160 | what restarts forget of a token, counted event by event: grants with no successful save before the next restart |
| RegistryRuns.GrantsExact | internal/registry/registry.go:66-160 | status-0 replies for any token are the uses on record plus the grants followed by a restart before any successful save, which are no more than the grants whose own save failed |
| RegistryRuns.GrantsLimited | internal/registry/registry.go:66-160 | replies exceed max(1, MaxUses) exactly when the forgotten grants are more than the uses left on the record, and never for a token none of whose grants failed to be saved |
| RegistryRuns.DoubleGrant | internal/registry/registry.go:156-158 | one failed bootstrap save and a restart grant a single-use token twice |
| RegistryRuns.FileIsLastSave | internal/registry/registry.go:66-95 | the file is always memory right after the last successful save |
| RegistryRuns.ChangesSaved | internal/registry/registry.go:99-218 | every event that changes memory and whose save succeeds leaves the new memory on file, and the file changes in no other way |
| RegistryRuns.RecordsPermanent | internal/registry/registry.go:99-218 | records are never removed or renamed, uses never shrink, revocations stand, across restarts for what was saved |
| RegistryRuns.RevocationPermanent | internal/registry/registry.go:99-115 | once the first record of a key is revoked and saved, the key is refused in every later state, re-registration included |
| RegistryRuns.RevokeByShortId | internal/registry/registry.go:207-217 | revoking a key by its short ID works exactly when it was revoked already or no earlier record shares the ID |
| RegistryRuns.RevokeInviteExact | internal/registry/registry.go:193-204 | an ID puts a live invite out of use exactly when that invite is the first it matches |
| RegistryRuns.InviteRevocationPermanent | internal/registry/registry.go:119-131 | the token of an invite revoked and saved is invalid in every later state |
| RegistryRuns.ActivePlusRevoked | internal/registry/registry.go:239-249 | every record is counted as active or revoked |
| Invite.HmacRoundTrip | internal/auth/hmac.go:53-57 | the 49-byte request decodes to itself whatever follows |
| Invite.DeviceRoundTrip | pkg/invite/invite.go:183-213 | the 121-byte request decodes to itself whatever follows |
| Invite.BootstrapRoundTrip | pkg/invite/invite.go:249-279 | the 145-byte request decodes to itself whatever follows |
| Invite.ResponseRoundTrip | pkg/invite/invite.go:220-241 | the 17-byte response decodes to itself and leaves what follows |
| Invite.MessagesTight | pkg/invite/invite.go:193-279 | every byte string of the right size is the encoding of what it decodes to |
| Invite.HmacLayout | internal/auth/hmac.go:53-57 | the offset of every field of the 49-byte request |
| Invite.DeviceLayout | pkg/invite/invite.go:193-201 | the offset of every field of the 121-byte request, the bucket big-endian |
| Invite.BootstrapLayout | pkg/invite/invite.go:259-267 | the offset of every field of the 145-byte request |
| Invite.NullTrim | internal/auth/device.go:314-321 | the scan returns the longest prefix without a zero byte: all of it, or up to the first zero byte |
| Invite.NameSurvives | internal/auth/device.go:258-262 | the server reads back the first k bytes of the name, k its length or 64 or the place of its first zero byte, whichever comes first |
| Auth.MacInputInjective | internal/auth/hmac.go:129-140 | the MAC input determines nonce and bucket |
| Auth.FormatIntReads | internal/auth/hmac.go:138-140 | the bucket numeral reads back to its number, with a minus sign exactly for negative ones |
| Auth.HmacHandshake | internal/auth/hmac.go:79-115 | whatever arrives, session, reply and bytes left are those of the value-level server |
| Auth.DeviceHandshake | internal/auth/device.go:165-211 | the same for device requests, with the registry's answer and update |
| Auth.BootstrapHandshake | internal/auth/device.go:214-248 | the same for bootstrap requests, a failed save included |
| Auth.ServerDispatch | internal/auth/device.go:120-162 | the same for any first byte, relay mode and failing response writes included |
| Auth.ClientRead | internal/auth/device.go:82-103 | a client takes 17 bytes and the session ID exactly on status 0 |
| Auth.HmacAgreement | internal/auth/hmac.go:47-115 | client and server succeed together with the same session, both at the first byte after the handshake, unless the write of a granting response fails after all of it went out |
| Auth.DeviceAgreement | internal/auth/device.go:60-211 | the same for device keys, any registry or none, unless a granting response does not arrive whole |
| Auth.BootstrapAgreement | internal/auth/device.go:214-294 | the same for bootstrap, exactly when nothing is granted or save and delivery of the response succeed or fail together |
| AuthBytes.DeviceBytes | internal/auth/device.go:165-211 | on arbitrary bytes a session is granted exactly to a fresh request of an enrolled key whose signature at offset 57 verifies over bytes 1 to 57; reply, bytes left and registry in every case |
| AuthBytes.FreshBuckets | internal/auth/device.go:179-184 | the time check in plain numbers for every bucket a request can carry |
| AuthBytes.HmacBytes | internal/auth/hmac.go:79-140 | on arbitrary bytes a session is granted exactly when the 32 bytes at offset 17 are the token of the nonce for the server's time or 30 s before |
| AuthBytes.BootstrapBytes | internal/auth/device.go:214-248 | on arbitrary bytes the answer for the token at offset 1 is sent, and on status 0 the key at offset 33 is recorded under the name at offset 65 |
| AuthBytes.OtherBytes | internal/auth/device.go:120-162 | an empty stream, an unknown first byte and registry modes without a registry are refused, with the answer each gets |
| AuthBytes.HmacClientBytes | internal/auth/hmac.go:47-61 | the client sends version, nonce and the token of the nonce for its own time |
| AuthBytes.DeviceClientBytes | internal/auth/device.go:60-77 | the client sends key, nonce, time bucket and a signature over those 56 bytes |
| AuthBytes.BootstrapClientBytes | internal/auth/device.go:252-268 | the client sends token, key, the name cut or zero-padded to 64 bytes, and nonce |
| AuthWindow.HmacAccepts | internal/auth/hmac.go:93-95 | barring a MAC collision, a session is granted exactly for the server's current bucket and that of 30 s ago |
| AuthWindow.HmacSkew | internal/auth/hmac.go:93-95 | the window is one-sided: up to 30 s behind is accepted, 60 s behind, 30 s ahead or one bucket ahead refused |
| AuthWindow.BucketWindow | internal/auth/device.go:179-184 | the unsigned check accepts the server's bucket and its neighbours, and nothing in the first bucket |
| AuthWindow.DeviceSkew | internal/auth/device.go:179-184 | every skew up to 30 s passes and every skew of 60 s or more fails |
| AuthWindow.DeviceAccepts | internal/auth/device.go:165-211 | a device gets a session exactly when its clock is in the window and its key is registered and not revoked |
| AuthWindow.BootstrapThenAuthorize | internal/auth/device.go:214-248 | a granted bootstrap records the key under as much of its name as the field holds, or under its short ID, and the registry then authorises the key unless it was revoked before |
| AuthWindow.BootstrapThenConnect | internal/auth/device.go:165-248 | after a granted bootstrap a device handshake with the new key gets a session if and only if its clock is in the window and the key was not revoked before |
| Connect.ServerReadRequest | internal/tunnel/protocol.go:43-61 | however reads are split, request and bytes left are those of decoding the stream; empty addresses are refused after the header |
| Connect.FillBuffer | internal/relay/relay.go:305-324 | the relay's short-read loop yields exactly the next n bytes, or fails when they are not there or the end of the stream comes with the last of them |
| Connect.RelayReadRequest | internal/relay/relay.go:305-327 | the same as the server's reader, but empty addresses pass and an end of stream reported with the last byte is an error |
| Connect.RelayForward | internal/relay/relay.go:169-187 | what is forwarded is the request read, and together with the bytes left it is byte for byte what arrived |
| Connect.DecodeEncode | internal/tunnel/protocol.go:28-61 | a target round-trips exactly when its address has at most 255 bytes and is not refused as empty |
| Connect.EncodeDecode | internal/relay/relay.go:278-327 | encoding what was decoded gives back the bytes consumed |
| Connect.RelayTransparent | internal/relay/relay.go:278-327 | the relay passes on exactly the client's bytes unless the stream's end is reported with the last of them, and the server recovers the target exactly for addresses of 1 to 255 bytes |
| Connect.RequestLayout | internal/tunnel/protocol.go:28-40 | the offset of every field of a request |
| Backoff.Run | internal/tunnel/client.go:70-119 | gives up at the first run of maxRetries + 1 failures and not before; one pause per failure, its length the delay for the failures so far plus jitter; a success starts over; panics exactly on a delay of 1 to 3 ns; for any configuration |
| Backoff.ClosedForm | internal/tunnel/client.go:100-103 | for a whole multiplier the delay after k >= 1 failures is min(max, base * m^k), whatever the base |
| Backoff.GrowExact | internal/tunnel/client.go:100-103 | the next delay is the whole nanoseconds of the product, or the maximum when the product reaches it |
| Backoff.DelaysGrow | internal/tunnel/client.go:100-103 | for any multiplier of at least 1 delays never shrink and never pass the maximum, except a first delay configured above it |
| Backoff.DefaultSchedule | internal/config/config.go:208-213 | the default delays are min(60 s, 2^k s), as docs/setup.md:656 promises |
| Backoff.Jitter | internal/tunnel/client.go:254-259 | jitter is below a quarter of the delay |

## Left out

- ConnRuns.PrefixWithoutGap: one direction, because after a gap the bytes read can still be a prefix of those written when contents repeat; the exact condition, over schedules, is `ConnClose.GapIff`.
- ConnRuns.BytesConserved: writing a frame is one step, so two goroutines interleaving inside `WriteFrame` and the shared buffer are not covered.
- ConnClose.CanDeliver: takes the draws of a frame as given; for video in large mode the selector never produces them.
- ConnRuns.SamplesBounded: says nothing about how accurate a latency sample is; a PONG read while idle is processed only in the next drain or think phase.
- SizeModel.NewSizeModel: the NaN and infinite weights of a table that sums to zero are represented by the absence of a model.
- Pacer.DelaysBounded: the frame gap is any Pareto sample of at least its scale; the sampler's shape is not modelled.
- Backoff.Run: durations are unbounded integers, and cancellation of the context ends the run at any prefix of the attempts.
- Auth.ServerDispatch: an expired read deadline is the end of the stream; setting deadlines is not a step of its own.
- RegistryRuns.GrantsLimited: new invite tokens are taken to differ from all earlier ones, as random 32-byte tokens do.
- Liveness: that a sender makes progress, or that a PING is answered in the end, is not stated; `ConnProgress` states that it stays possible.
- Wall-clock durations, sleeps, and memory-level races on the published state.
- The shapes of the Pareto, Weibull and log-normal samplers and the keepalive jitter.
- TLS, uTLS and stream multiplexing: a connection is a byte channel.
- The internals of Ed25519, HMAC, SHA-256 and random number generation.
- JSON, base64 and YAML encodings: invite links, configuration and the registry file format.
- RegistryRuns.GrantsInTime: a lifetime that ends in the first second of the epoch is stored as no expiry, as in the source, and bounds nothing.
- Other processes editing the registry file while a server runs.
- SOCKS5 and HTTP inbounds, stream copying, probe forwarding, connect responses and session replacement.
- Telemetry, metrics, user interface, command line and deployment: bookkeeping that would add only easy members.
