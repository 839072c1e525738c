# A verified model of the MAVLink telemetry server

The server receives MAVLink v2 datagrams over UDP, checks and decodes them, limits each drone's
message rate, and hands every event either to a registry of drone states or to a fan-out hub.
This project models those parts in Dafny and proves what they promise, for every input and every
interleaving.

| file | what it models |
|---|---|
| `Bytes.dfy`, `Crc.dfy` | bit strings, the CRC of `internal/mavlink/crc.go`, its bit-serial reference and what it detects |
| `Bursts.dfy` | which corruptions the CRC misses when a byte that is not sent is fed in between |
| `Frames.dfy`, `FrameLaws.dfy`, `ErrorDetection.dfy` | the frame parser, the simulator's frame builder, the laws between them, and what the checksum detects |
| `Decoder.dfy`, `Builders.dfy` | payload decoding and validation, and the simulator's payload builders |
| `WireFormat.dfy` | the wire format byte by byte, written out apart from parser and decoders, and that they agree with it on every input |
| `Capture.dfy` | the capture file written by the generator and read by the replay tool |
| `RateLimit.dfy` | the per-drone token bucket |
| `History.dfy`, `DroneState.dfy`, `Manager.dfy` | ring buffer, drone state and drone manager as objects updated in place |
| `Registry.dfy`, `RegistryLaws.dfy`, `RegistryUpdates.dfy`, `RegistryHistory.dfy` | the manager as a transition system, and what holds of every run |
| `Hub.dfy`, `HubLaws.dfy`, `HubBuffers.dfy`, `HubCode.dfy` | the hub as a transition system, what holds of every run, and the hub as an object |
| `Pipeline.dfy`, `PipelineLaws.dfy`, `PipelineData.dfy`, `EndToEnd.dfy`, `PipelineRate.dfy`, `PooledPayloads.dfy` | receiver, pool, queue, workers and the two consumers as a transition system; the rate limit in every run; what consumers see of a payload in a pooled buffer |
| `PipelineFates.dfy`, `PipelineProgress.dfy` | which datagrams are let through, why others are lost, in what order they go; that the work left always ends |
| `Workers.dfy` | packet, packet pool and packet processing as objects |
| `Telemetry.dfy`, `Collections.dfy` | shared values; subsequences and sums |

Concurrent parts are transition systems: a step is what one goroutine does between two points
where others can get in (under a lock, one channel operation, one atomic counter), and a run is any
feasible list of steps. Parts that update objects in place are also classes, whose methods are
proved against the functions and steps that the laws are about.

## Conventions

- Telemetry is in wire units: 1e-7 degree, millimetre, hundredth of a degree, millivolt.
- Tokens are counted in units of 1e-9 token and time in nanoseconds, so that a refill is
  `elapsed * perSecond` exactly and one message costs 10^9.
- Clocks are parameters of the steps and methods. The source address whitelist is an arbitrary predicate.
- A 16-bit CRC word is its sixteen bits, least significant first.
- In the transition systems a payload is a value and `None` is the nil pointer. The objects of `DroneState.dfy`
  and `Manager.dfy` hold pointers (`Ref`) to heap structs, and so do the snapshots and summaries they hand out.

## What the proofs found

- **A checksum gap.** `CRC_EXTRA` is fed to the CRC between payload and checksum, but not sent. So the promise of a
  16-bit CRC, every burst of at most sixteen bits, fails across the end of the payload. Exactly seven bursts that leave the
  message ID alone go unseen; as changes (exclusive or) of the last two payload bytes and the two checksum bytes they are
  00 91 85 00, 88 51 01 00, 10 A3 02 00, 98 F2 03 00, 00 64 35 02, 40 AC 29 00 and 00 C8 6A 04, of 14 to 16 bits.
  `LostAccepted`: each of them turns every accepted known-ID frame with two payload bytes or more into another accepted frame.
- **An unchecked message ID.** The ID decides whether the checksum is looked at. A frame whose ID becomes one without a
  seed is accepted unchecked, whatever else is wrong with it, and handed on undecoded (`UnknownUnchecked`). One flipped bit is
  enough in every accepted known-ID frame, 33 becoming 35 for instance (`OneBitAccepted`). If the ID becomes another
  known one, the seed changes with it, and the frame passes exactly when the CRC misses both changes together.
- **What is detected.** `ChangeDecides` says of any corruption that leaves start byte and length alone when the frame is still
  accepted. `BurstRejected` says it of every burst of at most sixteen bits: such a burst passes in the cases of the two
  findings above and in no other. `TailChange` says it of any change of the last two covered bytes and the checksum. Of
  frames with another length byte nothing more is known than `AcceptedIffResidueZero`, which holds of any bytes.
- **A missing seed.** The parser knows a seed for message 245, the simulator and the capture generator do
  not. Their frames with that ID carry checksum 0 and are refused unless the CRC happens to be 0:
  `RoundTrip` gives the exact condition, `MissingSeedRefused` concrete frames.
- **Nil payloads.** A heartbeat or position shorter than its minimum is accepted as a typed nil pointer
  (`NilIffShort`); `ProcessEvent` stores it and panics on the dereference. `AcceptedIsReported` shows that the handling of an
  accepted packet panics if and only if its message is 0, 24 or 33 and its payload too short. The event processor
  recovers: the message is counted, the pointer is nil, the last update is lost. The registry model follows that path
  exactly, so its laws need no assumption about payloads.
- **Lost subscribers.** `Subscribe` overwrites a registered subscriber exactly when both the name and the
  fallback key are taken (`OverwritesExactly`); three subscriptions can do it (`ThreeCollide`). The one
  overwritten gets no more events, and neither `Unsubscribe` nor `Stop` closes its channel (`ReplacedStaysOpen`).
- **Closing one's own subscription.** A broadcast panics on a closed channel exactly when it delivers to a
  subscriber whose consumer called `Close` itself (`PanicExactly`).
- **A blocked hub.** In blocking mode the broadcast waits on a channel without room, full or unbuffered, with the read lock
  held (`WaitHappens`). Only that channel's own consumer can end the wait, by taking an event or by `Close`: a consumer that calls `Unsubscribe` instead never
  returns, and nobody else can subscribe or unsubscribe (`WaitsForConsumer`).
- **Aliased raw payloads.** The payload of an undecoded message is a slice of a pooled buffer, handed on after the
  buffer went back to the pool. What a consumer sees of an event is what was decoded if and only if, of the datagrams read
  into that packet, the last one to reach each byte of the payload left the same byte there (`ViewIsDecoded`);
  for decoded payloads, and empty ones, that is always so. `RawCanChange` is a run with the real decoder in which an event the
  hub already has comes to show another drone's byte, so that it is the decoding of no datagram received.
- **Shared pointers.** A snapshot points to copies, a summary into structs the registry still holds; both read the same
  for ever, because the registry replaces those structs and never writes to them (`Later`). The history buffer is
  shared and does change under a snapshot (`HistoryIsLive`), although the comment on `Clone` says deep copy.
- The comment on `ValidateBattery` gives -1 and 0..100 as the valid charge levels; the code refuses only levels
  above 100, so -128..-2 pass. The model follows the code.
- The rate bound holds for timestamps in any order; the exact characterisation needs only that the first
  call is not before the bucket's creation.
- `UDPListener.parseErrors` is declared and reported but never incremented; parse failures are counted in
  `WorkerPool.errors`, which is the counter in the model.

## Model

| member | source | states |
|---|---|---|
| Crc.Calculate | internal/mavlink/crc.go:26-34 | the byte loop computes the bit-at-a-time reflected 0x8408 CRC from 0xFFFF over the buffer and then the seed |
| Crc.ByteStep | internal/mavlink/crc.go:19-23 | the shift/xor step on a byte equals eight steps of the bit-serial register, for every byte and register |
| Crc.FastIsBitSerial | internal/mavlink/crc.go:19-34 | the same for whole buffers and every seed |
| Crc.BurstDetected | internal/mavlink/crc.go:19-34 | buffers of equal length that differ only within sixteen consecutive bits have different CRCs |
| Crc.AdjacentBytesDetected | internal/mavlink/crc.go:19-34 | so do buffers that differ only in two adjacent bytes |
| Crc.CrcParity | internal/mavlink/crc.go:19-34 | the parity of the CRC is the parity of buffer and seed together |
| Crc.Residue | internal/mavlink/crc.go:19-34 | continuing the CRC through two bytes gives 0 if and only if they are the CRC, low byte first |
| Crc.StartsAtOnes | internal/mavlink/crc.go:26-34 | the register starts at 0xFFFF: of all two-byte buffers only FF FF takes it to 0 |
| Bursts.SameIffUnseen | internal/mavlink/crc.go:19-34 | the register is linear: two inputs of one length leave it in the same state if and only if their difference takes the zero register back to zero |
| Bursts.UnseenIsMultiple | internal/mavlink/crc.go:19-34 | a difference of 24 bits goes unseen if and only if it is the multiple of the polynomial that its first byte gives |
| Bursts.BurstUnseen | internal/mavlink/crc.go:26-34 | with a byte of zeros (the seed) between buffer and CRC, a burst of at most sixteen bits across both goes unseen if and only if it is one of the seven in LOST_BURSTS |
| Frames.SimDrone.BuildFrame | cmd/simulator/main.go:316-342 | writes start byte, nine header bytes, payload and checksum (0 without a seed) at their offsets, and advances the sequence number modulo 256 |
| FrameLaws.RoundTrip | cmd/simulator/main.go:316-342 | parsing a built frame with anything after it returns every field and consumes exactly the frame, if and only if the payload has at most 255 bytes, the ID fits 24 bits and both sides agree on the checksum |
| FrameLaws.Rebuild | internal/mavlink/parser.go:86-146 | building again from what was parsed of any accepted frame gives back its bytes if and only if it carries no flags, component 1, and a checksum the builder would write: an ID the builder has a seed for, or checksum 0 |
| FrameLaws.UnseededRefused | cmd/simulator/main.go:20-27 | where the parser has a seed and the builder none, every built frame of the wrong parity is refused |
| FrameLaws.MissingSeedRefused | cmd/replay/generate.go:16-23 | such frames exist: message 245 without payload |
| WireFormat.ParsesBack | internal/mavlink/parser.go:86-146 | a frame written out byte by byte, with any flags, 13 signature bytes exactly when bit 0 of the incompatibility flags is set and anything after it, parses back field by field and consumes 12 bytes plus payload plus signature, or is refused exactly for a wrong checksum of a known ID |
| WireFormat.OnlyWire | internal/mavlink/parser.go:86-146 | only such frames are accepted: the size is 12 plus the length byte, plus 13 exactly when that flag bit is set, and the bytes consumed are those of the fields returned |
| WireFormat.Refusals | internal/mavlink/parser.go:68-128 | which bytes are refused with which error: too short, old version or wrong start byte, with the sizes as numbers |
| WireFormat.KnownSeeds | internal/mavlink/crc.go:8-16 | the CRC_EXTRA bytes of parser and simulator, ID by ID |
| FrameLaws.PrefixTooShort | internal/mavlink/parser.go:68-146 | every strict prefix of an accepted frame, whose size OnlyWire gives, is reported too short, and bytes after the frame change nothing |
| FrameLaws.UniqueSplit | internal/mavlink/parser.go:68-146 | a concatenation of accepted frames splits into frames, of the sizes OnlyWire gives, in one way only |
| ErrorDetection.AcceptedIffResidueZero | internal/mavlink/parser.go:68-146 | any bytes are accepted as a frame if and only if they are complete (Refusals says when, in numbers) and, for a known ID, the bit-serial CRC over header, payload, seed and checksum ends in 0 |
| ErrorDetection.ChangeDecides | internal/mavlink/parser.go:86-146 | an accepted known-ID frame corrupted anywhere but in start byte and length is still accepted if and only if it is still complete and, when its ID is known, the zero-started CRC over the changes of covered bytes, seed and checksum is 0 |
| ErrorDetection.BurstRejected | internal/mavlink/parser.go:86-146 | an accepted known-ID frame corrupted by a burst of at most sixteen bits in header, payload and checksum, the length byte apart, is accepted if and only if it is still complete and: its ID became unknown; or became another known one and the CRC misses the change with that of the seed; or is the same and the burst is one of the seven in LOST_BURSTS. Otherwise the error is a checksum error, or too short if no longer complete |
| ErrorDetection.LostAccepted | internal/mavlink/parser.go:130-141 | each burst in LOST_BURSTS, applied to any accepted known-ID frame with at least two payload bytes, gives a different accepted frame with the same ID |
| ErrorDetection.UnknownUnchecked | internal/mavlink/parser.go:133-143 | a complete frame with an unknown ID becomes an event with its raw payload whatever its checksum, unless its system ID is invalid |
| ErrorDetection.OneBitAccepted | internal/mavlink/parser.go:133-143 | flipping one particular bit of the message ID of any accepted known-ID frame gives an accepted frame with an unknown ID, different in that bit only |
| ErrorDetection.ChecksumChangeRejected | internal/mavlink/parser.go:130-141 | so is one whose two checksum bytes changed |
| ErrorDetection.TailChange | internal/mavlink/parser.go:130-141 | any change of the last two covered bytes and the two checksum bytes is accepted if and only if 24 register shifts take the one change to the other, or it changes the message ID, as it can in frames with fewer than two payload bytes |
| ErrorDetection.AcceptedParity | internal/mavlink/parser.go:130-141 | header, payload and checksum of an accepted known-ID frame have the parity of the seed |
| ErrorDetection.EvenDistance | internal/mavlink/parser.go:130-141 | two accepted frames with the same known ID and length differ in an even number of bits |
| Decoder.ValidateGPS | internal/mavlink/validate.go:9-32 | accepts exactly the non-nil positions in bounds and leaves the heading reduced modulo 360 degrees; both loops end for every heading |
| Decoder.SumCells | internal/mavlink/parser.go:308-336 | the loop adds up the valid cell voltages among the ten slots |
| Decoder.Decode | internal/mavlink/parser.go:170-208 | the branches of DecodePacket compute the decoding function that the WireFormat lemmas below describe payload byte by payload byte |
| WireFormat.PacketRefused | internal/mavlink/parser.go:170-191 | a frame error is handed on unchanged, and the error for the system ID comes exactly for frames that parse with one outside 1..250 |
| WireFormat.HeartbeatFromWire | internal/mavlink/parser.go:231-249 | every accepted heartbeat of nine payload bytes or more decodes to the bytes at their places, the little-endian custom mode, and armed exactly when bit 7 of the base mode is set |
| WireFormat.GlobalPositionFromWire | internal/mavlink/parser.go:253-277 | every position message decodes to the two's complement latitude, longitude and altitude of bytes 4 to 15 and the heading of bytes 26 and 27 reduced, or is refused exactly out of the bounds given as numbers |
| WireFormat.GPSRawFromWire | internal/mavlink/parser.go:281-305 | the same for the raw GPS message, from byte 8 on |
| WireFormat.BatteryFromWire | internal/mavlink/parser.go:308-336 | every battery report decodes to the sum of its ten cells without those that read 0 or 65535, the current of bytes 30 and 31 and the charge of byte 35, or is refused exactly for a charge above 100 |
| WireFormat.AttitudeFromWire | internal/mavlink/parser.go:340-353 | an attitude message hands on the six values in bytes 4 to 27 |
| WireFormat.OtherFromWire | internal/mavlink/parser.go:211-227 | every other message becomes an event with its raw payload |
| Decoder.AcceptedIsValid | internal/mavlink/parser.go:170-208 | every accepted event has a system ID in 1..250, a position in bounds with reduced heading, and battery level at most 100 |
| Decoder.HeadingFromWire | internal/mavlink/validate.go:22-30 | the heading of an accepted position is the wire value modulo 36000 |
| Decoder.NilIffShort | internal/mavlink/parser.go:211-227 | an accepted packet carries a nil payload pointer if and only if its message is a decoded one and its payload is shorter than the decoder's minimum |
| Builders.HeartbeatLayout | cmd/simulator/main.go:344-363 | where the fields of a built heartbeat are, as numbers |
| Builders.GlobalPositionLayout | cmd/simulator/main.go:365-388 | where time, position, relative altitude, both speeds and heading of a built position are |
| Builders.GPSRawLayout | cmd/simulator/main.go:390-409 | the same for the raw GPS message, whose fix type overwrites the last byte of its time |
| Builders.BatteryLayout | cmd/simulator/main.go:426-452 | four cells, six marked absent, current and charge at their places, all other bytes zero |
| Builders.BuildHeartbeat | cmd/simulator/main.go:344-363 | the bytes written are the frame of the nine payload fields at their offsets |
| Builders.BuildGlobalPosition | cmd/simulator/main.go:365-388 | the same for the 28 payload bytes of a position |
| Builders.GlobalPositionOverWire | cmd/simulator/main.go:365-388 | a built position decodes to the position sent, heading reduced, or is refused if and only if it is out of bounds |
| Builders.GPSRawOverWire | cmd/simulator/main.go:390-409 | the same for the raw GPS message |
| Builders.HeartbeatOverWire | cmd/simulator/main.go:344-363 | a built heartbeat decodes to the heartbeat sent, armed flag included; heartbeats of any other sender are in HeartbeatFromWire |
| Builders.ShortHeartbeatIsNil | internal/mavlink/parser.go:231-249 | a heartbeat frame with fewer than nine payload bytes is accepted with a nil payload |
| Builders.BatteryOverWire | cmd/simulator/main.go:426-452 | a built battery report decodes to four times the cell voltage, the current and the charge sent, or is refused if and only if the charge is above 100 |
| Capture.RecordLayout | cmd/replay/generate.go:99-103 | a record is four bytes of delay, two of length, little-endian, and the frame |
| Capture.ReplayLaw | cmd/replay/main.go:126-148 | what a file holds, one record at a time: a length of 0 or above 300 skips the header only, a record cut short ends it |
| Capture.WriteCapture | cmd/replay/generate.go:99-103 | writing record after record gives the concatenation of delay, length and frame of each |
| Capture.ReplayFile | cmd/replay/main.go:113-167 | the read loop ends for every file; uninterrupted it sends exactly the frames the file holds and reports an error exactly when the reader fails instead of ending, interrupted on some turn it sends those of the turns before; it counts them |
| Capture.CaptureRoundTrip | cmd/replay/main.go:113-167 | reading a written file gives exactly the recorded frames if and only if every frame has 1 to 300 bytes |
| Capture.PrefixReplays | cmd/replay/main.go:126-148 | reading the first k bytes of a written file gives exactly the records that lie wholly inside them, for every k |
| Capture.InterruptedIsPrefix | cmd/replay/main.go:118-123 | what an interrupted replay sent is a prefix of what the whole file holds, for every file |
| Capture.CaptureToServer | cmd/replay/generate.go:109-129 | messages framed by the generator, recorded and replayed come out one by one as the server's decoding of each message |
| RateLimit.TokenBucket.Take | internal/ingest/udp.go:408-447 | refill, cap and decision on the bucket's fields are the model's check, for any clock reading |
| RateLimit.RateBound | internal/ingest/udp.go:412-447 | between any two admitted calls on a bucket the number admitted is at most capacity plus rate times the time between them, whatever the order of the timestamps |
| RateLimit.LevelIsSomeWindow | internal/ingest/udp.go:436-447 | the tokens a call finds are the minimum, over all windows ending there, of capacity plus refill minus what was admitted (with LevelBelowWindow) |
| RateLimit.LevelBelowWindow | internal/ingest/udp.go:436-447 | no window's allowance is ever exceeded, for any timestamps |
| RateLimit.AdmitsIff | internal/ingest/udp.go:436-447 | a call is admitted if and only if every window ending at it still has a token |
| RateLimit.NoDropIff | internal/ingest/udp.go:390-447 | a stream has no drop if and only if in every window i..j the message count is at most capacity plus rate times t_j - t_i |
| RateLimit.DropsAreRefusals | internal/ingest/udp.go:442-447 | the drop counter counts exactly the calls not admitted |
| RateLimit.GreedyIsOptimal | internal/ingest/udp.go:403-448 | at every prefix the bucket has admitted at least as many messages as any choice that never spends a token it does not have |
| RateLimit.GreedyIsAffordable | internal/ingest/udp.go:403-448 | the bucket's own decisions are such a choice, and its count is the one compared |
| RateLimit.RateLimiters.CheckLimit | internal/ingest/udp.go:403-448 | load-or-store of the bucket and the check on it change only that system ID's bucket |
| RateLimit.NoInterference | internal/ingest/udp.go:403-448 | over any interleaving of system IDs each bucket is the one its own calls alone would have left |
| RateLimit.DecisionIsOwn | internal/ingest/udp.go:403-448 | each decision depends on the ID's own calls only |
| History.RingBuffer.constructor | internal/drone/history.go:32-37 | a new buffer of any capacity holds nothing |
| History.RingBuffer.Push | internal/drone/history.go:40-49 | the contents become the latest `cap` of old contents and new entry, on the circular array |
| History.RingBuffer.Last | internal/drone/history.go:52-69 | a fresh array with the latest min(n, count) entries, oldest first |
| History.RingBuffer.Len | internal/drone/history.go:72-76 | the number of entries held |
| History.PushesAreSuffix | internal/drone/history.go:40-49 | after any number of pushes the contents are the latest `cap` entries pushed |
| DroneState.State.Clone | internal/drone/state.go:40-64 | a snapshot that reads as the state does, with every non-nil pointer to a fresh struct and the same history buffer |
| DroneState.State.ToSummary | internal/drone/state.go:90-122 | a summary with the state's own flags, mode, and position and battery pointers, that reads as the function SummaryFromEvents describes |
| Manager.SummaryFromEvents | internal/drone/state.go:90-122 | after every run each drone's summary says connected and armed exactly as replaying its update log does; mode and vehicle type are those of its latest heartbeat, the position is its latest, the charge is there if and only if known and not negative, the voltage if and only if positive, the time is that of its last event in milliseconds |
| DroneState.State.Apply | internal/drone/manager.go:128-171 | the payload switch on the object's fields is the model's, nil dereference included |
| Registry.EmitsOnly | internal/drone/manager.go:183-199 | emitting updates appends them to the log in order and touches neither drones nor what was received |
| RegistryLaws.RunIsSolo | internal/drone/manager.go:71-180 | after every run each drone's state and its share of the update log are those of a fold over that drone's own events and the stale checks |
| RegistryLaws.NonInterference | internal/drone/manager.go:71-180 | two runs with the same events of one drone and the same times of stale checks in between agree on its state and updates, whatever other drones there are and in whatever order the checks visit them |
| RegistryLaws.LogReplays | internal/drone/manager.go:71-199 | replaying a drone's update log never meets an impossible update and reconstructs its connected and armed flags |
| RegistryLaws.UpdatesFit | internal/drone/manager.go:99-117 | in every run every update's snapshot fits its kind: connected unless Disconnect, armed for Armed, disarmed for Disarmed, no message counted yet exactly for New |
| RegistryLaws.PanicsIff | internal/drone/manager.go:128-164 | handling an event panics if and only if its payload is a nil heartbeat or a nil position |
| RegistryUpdates.EventReported | internal/drone/manager.go:71-180 | what an event adds to the log of any run, exactly: New for an unknown drone, Reconnect for a disconnected one, each with the state at that moment and the event's time, then its own update with the new state, unless the payload is a nil heartbeat or position |
| RegistryUpdates.StaleReported | internal/drone/manager.go:321-345 | what a stale check adds, exactly: one Disconnect, at the time of the check, for each connected drone silent for longer than the threshold |
| RegistryUpdates.ChannelStep | internal/drone/manager.go:183-199 | in every run a step that emits fills the channel as far as there is room and drops the rest; a receive takes the oldest |
| RegistryUpdates.DropsWhenFull | internal/drone/manager.go:188-197 | in every run a step that drops an update leaves the channel full |
| RegistryUpdates.NothingDroppedIff | internal/drone/manager.go:183-199 | nothing is dropped if and only if after every step at most a channel's capacity of the updates emitted was still to be received; then received and waiting together are the whole log |
| RegistryHistory.AcceptedIsReported | internal/mavlink/parser.go:211-227 | handling an accepted packet panics if and only if its message ID is 0, 24 or 33 and its payload shorter than 9, 30 or 28 bytes; otherwise the log grows by the announcement, if any, and the update of the event |
| RegistryLaws.RunLogOrdered | internal/drone/manager.go:71-199 | in the log of every run, a drone's first update is New and no other is; each Reconnect comes after a Disconnect not yet answered and each Disconnect when all are; the same for Disarmed and Armed |
| RegistryLaws.NewFirst | internal/drone/manager.go:78-106 | a well-formed log starts with New and has no other New |
| RegistryLaws.DisconnectsAlternate | internal/drone/manager.go:109-117 | in a well-formed log Disconnect and Reconnect strictly alternate, Disconnect first |
| RegistryLaws.ArmingAlternates | internal/drone/manager.go:131-145 | in a well-formed log Armed and Disarmed strictly alternate, Armed first |
| RegistryLaws.ChannelIsSubsequence | internal/drone/manager.go:183-199 | what the consumer received and what waits is an in-order subsequence of the updates emitted; the rest is counted as dropped (NothingDroppedIff says when there is none); the channel never exceeds its capacity |
| RegistryLaws.NobodySilent | internal/drone/manager.go:321-345 | a stale check leaves every drone as it was except that exactly those silent beyond the threshold are disconnected |
| RegistryHistory.RunSummarises | internal/drone/manager.go:71-180 | a drone is registered if and only if it sent something, and its count, times, address, latest heartbeat, position, battery, attitude, armed flag, mode and history are the stated functions of its events |
| RegistryHistory.HistoryIsTrack | internal/drone/manager.go:243-253 | with one component per system ID, GetHistory returns exactly the last min(n, capacity) positions the drone sent, oldest first, each stamped with the latest earlier battery level, armed flag and mode |
| RegistryHistory.MessagesCounted | internal/drone/manager.go:404-425 | the total message count is the number of events processed, panics included |
| RegistryHistory.StatsFromLog | internal/drone/manager.go:404-425 | all four statistics equal counts computed from the events and the update log alone |
| RegistryHistory.KeptPositionsValid | internal/drone/manager.go:146-164 | fed with accepted events, every position kept, current or historical, is in bounds with a reduced heading |
| Manager.UpdateChannel.Emit | internal/drone/manager.go:183-199 | sends a snapshot taken now, or counts a drop, as ChannelStep and DropsWhenFull say of the model it is proved against; what waits reads as each state was when emitted, pointers followed, all but the history |
| Manager.Manager.ProcessEvent | internal/drone/manager.go:71-180 | on the map of state objects does exactly the model's step, and panics exactly when the model does |
| Manager.ProcessInOrder | internal/drone/manager.go:71-180 | emitting each update when the state reaches it comes to the same as computing the outcome first |
| Manager.Manager.CheckStale | internal/drone/manager.go:321-345 | visits every drone once, in some order, and does exactly the model's check on each |
| Manager.Manager.GetState | internal/drone/manager.go:203-214 | a snapshot at fresh addresses that reads as the drone does, with its live history, or none for an unknown ID |
| Manager.Manager.GetAllSummaries | internal/drone/manager.go:230-240 | one summary of each drone, in some order, each as SummaryFromEvents describes |
| Manager.Later | internal/drone/state.go:40-64 | after any later calls of ProcessEvent and checkStale and any receives, every snapshot and every summary reads as it did, pointers followed |
| Manager.HistoryIsLive | internal/drone/state.go:42-43 | a snapshot's history does not: the drone's next position is the last entry a holder of the snapshot sees |
| Manager.Manager.GetHistory | internal/drone/manager.go:243-253 | the latest n entries of a drone with that system ID, or none if there is no such drone |
| Manager.Manager.Stats | internal/drone/manager.go:404-425 | the loop's counts are the cardinalities and the sum they stand for |
| HubLaws.PanicExactly | internal/pubsub/hub.go:178-200 | after any run no step closes a channel twice, and a step sends on a closed one if and only if its receiver closed its own subscription |
| HubLaws.ChannelSafety | internal/pubsub/hub.go:68-130 | if no consumer closes its own subscription, no run panics, and outside Stop's closing phase every subscriber in the map has an open channel |
| HubLaws.HubDelivery | internal/pubsub/hub.go:178-200 | in every run without a panic, what each subscriber consumed and what waits for it is an in-order subsequence of the events broadcast while it was registered, and with its drops adds up to their number |
| HubLaws.BlockingIsExact | internal/pubsub/hub.go:193-197 | in blocking mode and without a panic every registered subscriber has, between broadcasts, exactly the events since it subscribed and no drops |
| HubBuffers.BufferBound | internal/pubsub/hub.go:92-97 | in every run a channel holds at most as many events as its buffer |
| HubBuffers.DropsOnlyFull | internal/pubsub/hub.go:184-192 | in every run an event is dropped only in dropping mode and only for a subscriber whose channel holds exactly as many as its buffer |
| HubBuffers.RoomIsExact | internal/pubsub/hub.go:178-200 | in either mode a registered subscriber whose channel never filled has, between broadcasts, exactly the events since it subscribed and no drops |
| HubBuffers.BroadcastEnds | internal/pubsub/hub.go:184-192 | in dropping mode a broadcast under way can always be finished by the hub alone, with one step for each subscriber left and one more |
| HubBuffers.SubscribesUnder | internal/pubsub/hub.go:99-104 | a new subscriber is registered under its name if that is free, otherwise under the name, an underscore and the rune of its number modulo 2^32, U+FFFD where that is no code point |
| HubLaws.HubTotals | internal/pubsub/hub.go:203-225 | received, broadcast and dropped totals equal the sums over all subscribers, past and present |
| HubLaws.OverwritesExactly | internal/pubsub/hub.go:99-104 | Subscribe overwrites a subscriber if and only if the name and the fallback key are both taken and the latter is the subscriber's |
| HubLaws.NobodyReplaced | internal/pubsub/hub.go:88-112 | with fewer than 0xD800 subscriptions and no name equal to another plus underscore and one character, no run overwrites anybody |
| HubLaws.ThreeCollide | internal/pubsub/hub.go:99-104 | otherwise three subscriptions can |
| HubLaws.ReplacedStaysOpen | internal/pubsub/hub.go:115-130 | an overwritten subscriber's channel is never closed by the hub |
| HubLaws.SelfCloseBreaks | internal/pubsub/hub.go:257-263 | a run in which a consumer calls Close and the next broadcast panics |
| HubLaws.WaitsExactly | internal/pubsub/hub.go:193-197 | after every run, a subscriber's turn in a broadcast cannot be taken without its consumer if and only if the hub is in blocking mode and the channel is open and has no room, unbuffered channels included; with a buffer the consumer has to take an earlier event first |
| HubLaws.WaitsForConsumer | internal/pubsub/hub.go:178-197 | unless that subscriber's consumer takes an event or closes the channel, or a send panics, the broadcast waits for ever, and in every continuation nobody subscribes or unsubscribes |
| HubLaws.WaitHappens | internal/pubsub/hub.go:178-197 | in blocking mode, for every buffer size, a run after which the broadcast waits |
| HubCode.FanOut.Subscribe | internal/pubsub/hub.go:88-112 | on the object's map and counters does the model's step and returns a new ID with an open, empty channel |
| HubCode.FanOut.Unsubscribe | internal/pubsub/hub.go:115-130 | finds the ID by scanning the map, removes and closes it; afterwards no key leads to it |
| HubCode.FanOut.Broadcast | internal/pubsub/hub.go:178-200 | every registered channel has the event appended, or one more drop if full; no other channel changes; the counters grow by one received, the channels with room broadcast, the others dropped |
| HubCode.FanOut.Stop | internal/pubsub/hub.go:68-84 | every registered channel is closed, no other touched, and the map is empty |
| HubCode.FanOut.Take | internal/pubsub/hub.go:178-200 | a consumer gets the oldest waiting event; no other channel changes |
| PipelineLaws.OwnershipStep | internal/ingest/packet.go:49-64 | every step keeps each packet with at most one owner: pool, receiver, one place in the queue, or one worker |
| PipelineLaws.TagsStep | internal/ingest/udp.go:139-203 | every step keeps each datagram with at most one holder, in the place on record |
| PipelineLaws.BooksStep | internal/ingest/udp.go:335-372 | every step keeps each counter and queue length equal to the number of datagrams in that place |
| PipelineData.BuffersStep | internal/ingest/udp.go:150-194 | every step keeps the packet of a queued or processed datagram holding exactly that datagram |
| PipelineData.ContentsStep | internal/ingest/udp.go:155-176 | every step keeps each byte of each buffer, in the pool or not, what the last datagram long enough to reach it left there |
| PipelineData.EventsStep | internal/ingest/udp.go:335-372 | every step keeps each event somebody holds (worker, output channel, either consumer, before or after counting it) the decoding of its datagram, which was read into its packet; what it shows later is ViewIsDecoded |
| EndToEnd.WorkerSeesDatagram | internal/ingest/udp.go:335-339 | in every run a worker's packet holds exactly its datagram and is not in the pool until the worker puts it back |
| PipelineRate.BucketsAreCalls | internal/ingest/udp.go:403-448 | after every run of the pipeline the buckets are those that its limiter calls, in order, make |
| PipelineRate.CheckPasses | internal/ingest/udp.go:335-372 | in every run a worker's message passes the limit if and only if the system ID's own bucket, on that ID's own calls, admits the last of them, so that all the laws of the bucket apply |
| PipelineRate.RateHolds | internal/ingest/udp.go:335-372 | in every run, from one message of a system ID that passes the limit to another, at most capacity plus rate times the time between them pass, whatever the interleaving and the order of the clock readings |
| PipelineFates.RunOnlyAllowed | internal/ingest/udp.go:180-186 | in every run each datagram that got past the receiver (queue, worker, output, consumers, failed, limited or dropped at the output) came from an address the whitelist allows |
| PipelineFates.ConsumersGetAllowed | internal/ingest/udp.go:180-186 | so every event given to the hub or the registry bears an allowed source address |
| PipelineFates.ReceiverChoice | internal/ingest/udp.go:180-201 | in every run a datagram just read can be queued, handed to an idle worker or dropped exactly under the conditions of the whitelist and the queue |
| PipelineFates.RefusedOnly | internal/ingest/udp.go:180-201 | in every run a datagram is dropped by the receiver only if its address is not allowed or the queue is full |
| PipelineFates.FailedOnly | internal/ingest/udp.go:339-350 | one counts as an error only if the decoder refuses its bytes |
| PipelineFates.LimitedOnly | internal/ingest/udp.go:353-356 | one is limited only if the bucket of the system ID it was decoded to refuses it |
| PipelineFates.OutputDroppedOnly | internal/ingest/udp.go:360-371 | an event is dropped at the output only if the output channel is full |
| PipelineFates.ReadRecords | internal/ingest/udp.go:155-178 | a read is counted and records the datagram with its address, as far as the buffer holds it |
| PipelineFates.GivenInOrder | internal/ingest/udp.go:188-192 | in every run a datagram in the queue was received after every one a worker was ever given |
| PipelineFates.OutputInOrder | internal/ingest/udp.go:360-363 | in every run the events sent into the output are, in that order, those taken out and those waiting; what the hub and the registry have are subsequences of those taken out that together make up their number |
| PipelineProgress.WorkIsBounded | internal/ingest/udp.go:335-372 | in every run each datagram read causes at most nine steps of receiver, workers and consumers, whatever it holds |
| PipelineProgress.Drains | internal/ingest/udp.go:188-201 | no datagram is ever stuck: with at least one worker, from every reachable state some finite continuation without a read refuses, fails, limits, drops or hands to a consumer each datagram received |
| EndToEnd.Conservation | internal/ingest/udp.go:176-201 | in every reachable state received = dropped + queued + in work + errors + bucket drops + processed, and processed = output drops + waiting + in hands + hub's count + registry's count; when each of them may grow is in PipelineFates |
| EndToEnd.OneConsumer | cmd/server/main.go:84-97 | each event given to the hub or the registry came from a datagram of its own, none twice or to both, and shows that datagram's decoding if and only if it is intact |
| EndToEnd.SubscribersGetDecoded | cmd/server/main.go:89 | as long as the hub does not panic, what a subscriber consumed or has waiting are, in order, the events of some of the items given to the hub while it was subscribed, each showing its datagram's decoding if and only if it is intact |
| EndToEnd.OnlyValidPositions | cmd/server/main.go:243-270 | whatever datagrams arrive and however goroutines interleave, the registry only ever holds positions in bounds with reduced heading |
| EndToEnd.ViewIsDecoded | internal/mavlink/parser.go:223-226 | in every run, whoever holds an event sees what was decoded from its datagram if and only if the payload is typed or, of the datagrams read into its packet, the last to reach each payload byte left that byte the same; decoded and empty payloads always read as decoded |
| PooledPayloads.ReadAgain | internal/ingest/packet.go:49-64 | in any state with the packet back in the pool, the next read into it is what every holder of a raw payload from it then sees |
| PooledPayloads.RawCanChange | internal/ingest/udp.go:336 | for any two different bytes, a run with the real decoder after which the event the hub has from drone 1 shows drone 2's byte and is the decoding of no datagram received |
| PooledPayloads.RawDatagram | internal/mavlink/parser.go:133-143 | the datagrams of that run: an ID without seed is accepted unchecked with its raw payload |
| Workers.Packet.Fill | internal/ingest/udp.go:155-176 | a read overwrites the front of the buffer, cuts off what does not fit, and records length and address |
| Workers.PacketPool.Get | internal/ingest/packet.go:49-53 | a reset packet of the pool's size that is no longer in the pool |
| Workers.PacketPool.Put | internal/ingest/packet.go:56-64 | takes back exactly packets of the expected size; the packets in the pool stay distinct if and only if the one put back was not there already |
| Workers.WorkerPool.ProcessPacket | internal/ingest/udp.go:335-372 | decode, rate limit and output change the counters as the outcome says, and the packet goes back to the pool |
| Workers.SettledOnce | internal/ingest/udp.go:335-372 | every packet adds one to exactly one of errors, bucket drops and processed, and each processed one to the output or its drops |
| Workers.StepsSettle | internal/ingest/udp.go:335-372 | the object's books and those of the pipeline's worker steps agree |

## Left out

- Sockets, HTTP and WebSocket handlers, JSON, GeoJSON and KML output, the TUI, metrics, configuration files, logging and profiling.
- IEEE floating point: coordinates and tokens are exact; rounding of `float64` tokens and positions is not modelled.
- Attitude values (floating point) are carried as payload bytes; fix type, satellite count, speeds, dilutions and voltages per cell are not carried. `groundSpeed` holds a squared speed; nothing is claimed of it.
- Flight mode names: a mode is the pair of numbers the table lookup gets.
- `lastRate`, `noisyCount` and the one-second windows of the bucket, which only feed a log message and a report.
- `GetAllStates` and `GetStateBySystemID`, which clone as GetState does, and the string methods. A summary's four position pointers are one pointer to the position struct.
- The simulator's flight physics and its attitude builder; the capture generator's payload builders, which fill the same layouts.
- Replay timing: the recorded delay is written and skipped; sleeping and the speed multiplier are not modelled.
- Shutdown: runs end at cancellation. Restart of a panicked goroutine is modelled only for the event processor; a second `Stop` of the hub would close its `done` channel twice and is not a step.
- Signature bytes are skipped, as in the code; no code verifies them.
- Integer widths of counters and identifiers: 64-bit wrap-around of counters and of `nextID` is not modelled; `rune(id)` is.
- ErrorDetection.BurstRejected: bursts that hit the length byte, because the checksum is then looked for elsewhere; a changed start byte is always refused.
- Registry: a nil update channel, and an unbuffered one whose consumer happens to be waiting, are not modelled; Manager.GetHistory and History.RingBuffer.Last take a non-negative n, and History.RingBuffer.Push needs a positive capacity (the code panics otherwise).
- Manager.Manager.GetHistory: the order in which Go iterates a map is arbitrary, so with several components per system ID any of them may answer.
- HubCode.FanOut.Broadcast: one broadcast with nobody else at work, buffered channels and, in blocking mode, room in each; interleavings are in Hub.dfy and HubLaws.dfy.
- Hub.dfy: subscribers are looked up by the key they were registered under; HubCode.FanOut.Unsubscribe scans the map as the code does.
- Pipeline.dfy: sync.Pool is a set that may lose packets at any time; a worker's atomic counters and channel operations are steps of their own, its parsing is one step.
