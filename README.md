# go-ant driver core, modelled in Dafny

This project models the core of the go-ant `ant.go` driver for ANT+ USB
sticks. The core has three parts:

- **The frame decoder** (`decodeLoop`). It cuts the byte stream arriving from
  the stick into frames: it skips bytes until the sync byte and reads a length
  byte `L`. It then collects a buffer of `L + 4` bytes, hands it to the codec
  and publishes each accepted message without blocking. A message is dropped
  when no reader is waiting.
- **Burst transfers** (`SendBurstTransfer`, `SendBurstTransferPacket`). A
  payload is cut into 8-byte packets. Each packet is sent as one burst-data
  message whose first byte is `channel | sequence<<5`. The sequence field is
  0 for the first packet, cycles 1, 2, 3 after that, and the last packet,
  unless it is also the first, also has the terminal flag `0b100`.
- **The command layer**. The `Ant` session holds two outbound queues, `write`
  and `writeInTimeslot`. Every configuration, control and data command builds
  one message with a fixed payload layout and appends it to one of the queues.
  16-bit fields are little-endian.

Files and modules:

- `bytes.dfy` (`Bytes`): 8- and 16-bit integers, little-endian `uint16`, and
  bitwise OR/AND written as arithmetic on naturals.
- `messages.dfy` (`Messages`): the `Message` value and the message-id and mask
  constants.
- `decoder.dfy` (`Decoder`): `Scan` is the decoding loop as a function of the
  whole stream. `DecodeLoop` is the imperative loop proved against it. The
  publication step, the framing properties, and the as-written and corrected
  buffer sizes are here too.
- `burst.dfy` (`Burst`): the sequence field, the channel-sequence byte, the
  burst as the code computes it with its `uint8` arithmetic, and a corrected
  burst with its round trip.
- `payloads.dfy` (`Payloads`): the payload layout of each command.
- `device.dfy` (`Device`): the class `Ant` and one method per command.

How the model treats the source's environment:

- The byte channel is the finite `seq<uint8>` of bytes that arrive before it
  closes.
- The codec's `Decode` is a parameter `decode: seq<uint8> -> Option<Message>`,
  which may fail.
- `NewMessage` is the datatype constructor `Message(id, payload)`.
- The `MESG_*` ids and `RADIO_TX_POWER_LVL_MASK` are constants without a
  value, so nothing proved here depends on their values.
- Whether a reader is waiting at each publish is an oracle
  `ready: nat -> bool`, asked once per decoded frame, in order.
- A panic becomes a result value. The decoder stops with `IndexPanic`. A
  refused command returns `InvalidArgument` and enqueues nothing. A burst that
  hits a bad slice returns `SliceOutOfRange` and keeps the packets it had
  already enqueued.

A one-packet burst goes out with no terminal flag: packet 0 always gets
sequence 0, and the flag is only set in the `else if` branch that follows
(`Burst.SinglePacketBurst`).

## Model

| member | source | states |
|---|---|---|
| Bytes.PutUint16 | ant.go:194 | the two bytes written read back, little-endian, as the value |
| Bytes.PutUint16OfUint16 | ant.go:194 | writing back a little-endian pair that was read gives the same two bytes (the other half of the round trip) |
| Bytes.OrBitsBelow | ant.go:334 | OR of two values below 2^n stays below 2^n, so ORing in the terminal flag or the shifted sequence keeps a byte |
| Bytes.OrDisjoint | ant.go:337 | OR of a value below 2^n with a multiple of 2^n is their sum: the fields do not overlap |
| Bytes.AndBitsIdempotent | ant.go:231 | masking a masked value again changes nothing |
| Decoder.BufferLength | ant.go:137 | `length+4` in uint8: exactly L+4 below 252; wraps to L-252, below 4, from 252 on |
| Decoder.Deliver | ant.go:154-166 | publication never delivers more messages than were decoded |
| Decoder.ReadyIndices | ant.go:154-166 | the positions where a reader was ready, strictly increasing, each below the frame count, and every ready position present |
| Decoder.ReadFrame | ant.go:137-144 | the fill loop yields exactly the stream bytes from the sync byte up to the buffer size, or nothing when the stream ends first |
| Decoder.ScanAt | ant.go:123-143 | at a non-sync byte the loop skips it; after a sync byte it stops when the stream ends, panics on a buffer shorter than 2, and stops on a truncated frame |
| Decoder.ScanFrameAt | ant.go:137-150 | a complete frame at a position is decoded from exactly its bytes, and scanning resumes after it |
| Decoder.DecodeLoop | ant.go:119-168 | the imperative loop ends the way the stream-level decoder does and publishes exactly the decoded frames whose reader was ready, in order |
| Decoder.DeliverSnoc | ant.go:154-166 | one more decoded frame extends the published list by that frame exactly when its reader is ready |
| Decoder.DeliverIsOrderedSubsequence | ant.go:154-166 | published messages are the decoded frames at strictly increasing ready positions: dropped, never reordered or duplicated |
| Decoder.SkipNoise | ant.go:124-129 | non-sync bytes before a stream are consumed and change nothing |
| Decoder.FrameExact | ant.go:131-150 | a frame is passed to the codec as exactly its L+4 bytes; its message is emitted iff the codec accepts it; scanning resumes right after it |
| Decoder.TruncatedStreamEmitsNothing | ant.go:125-143 | a stream ending while seeking sync, after the sync byte or mid-frame emits nothing and ends with the channel closed |
| Decoder.Resynchronizes | ant.go:147-150 | a rejected frame followed by an accepted one yields exactly the second message |
| Decoder.StreamRoundTrip | ant.go:119-168 | if the codec frames each message so that it decodes back to itself, the decoder recovers the whole list in order from the concatenated frames |
| Decoder.WrappedLengthPanics | ant.go:137-139 | as written, the lengths 252 and 253 make the header writes panic |
| Decoder.ShortBufferDecoded | ant.go:137-147 | as written, the lengths 254 and 255 hand the codec a buffer of only 2 or 3 bytes and resume right after it |
| Decoder.CorrectedFrameExact | ant.go:137-147 | with the size computed without wrap-around, a frame of any length L is decoded from exactly its L+4 bytes |
| Decoder.ScanAgreesBelowWrap | ant.go:137-140 | on streams where no sync byte is followed by a byte of 252 or more, the loop as written never panics and emits what the corrected loop emits |
| Burst.PacketCount | ant.go:326 | `uint8(len/8)` never exceeds len/8 and equals it below 2048 bytes |
| Burst.FlagIsDisjoint | ant.go:333-335 | ORing the terminal flag into a rolling value 1..3 adds 4 |
| Burst.SequenceNumberFields | ant.go:328-335 | packet 0 has sequence 0; packet i > 0 carries (i-1) mod 3 + 1 in its low two bits; the terminal flag is set iff the packet is the last and not packet 0 |
| Burst.ChannelSequenceFields | ant.go:337 | for channel < 32 and sequence < 8, channel OR (sequence shifted left by 5) is channel + 32 * sequence, and both read back |
| Burst.BurstAsWritten | ant.go:326-340 | as written, a burst sends exactly the truncated packet count of packets when it is below 32 and 31 otherwise, and panics iff that count is 32 or more |
| Burst.SliceBounds | ant.go:339 | the uint8 bounds `i*8`, `i*8+8` are exact up to packet 30, and the upper bound wraps to 0 at packet 31 |
| Burst.RollingSequence | ant.go:328-335 | the loop's uint8 computation of the sequence field equals the sequence function |
| Burst.BurstAsWrittenPacket | ant.go:337-339 | packet i sent as written is burst data with the channel-sequence byte and the data slice [8i, 8i+8) |
| Burst.Burst | ant.go:321-343 | the corrected burst has one packet per 8 data bytes |
| Burst.ReassemblePrefix | ant.go:339 | the first k packets carry exactly the first 8k data bytes |
| Burst.BurstReassembles | ant.go:309-340 | the packets of a burst carry the whole data, in order, with nothing added or lost |
| Burst.BurstPacketFields | ant.go:314-339 | every packet is burst data with a 9-byte payload whose tail is its data slice; for channel < 32 its first byte reads back as channel and sequence |
| Burst.AsWrittenMatchesBelow256 | ant.go:326-340 | below 256 bytes the burst as written sends every packet, without panic |
| Burst.LongBurstPanics | ant.go:326-339 | as written, 256 to 2047 bytes send only the first 31 packets and then panic |
| Burst.TruncatedBurstSendsNothing | ant.go:326-328 | as written, 2048 bytes send no packet at all, where 256 are due |
| Burst.SinglePacketBurst | ant.go:328-337 | a one-packet burst sends the channel byte unchanged: sequence 0, no terminal flag |
| Burst.EightPacketBurst | ant.go:328-337 | 64 bytes on channel 2 give the channel-sequence bytes 2, 34, 66, 98, 34, 66, 98, 162 |
| Payloads.ChannelIdPayload | ant.go:193-194 | 5 bytes: channel, device number little-endian, device type, transmission type |
| Payloads.ChannelPeriodPayload | ant.go:202-203 | 3 bytes: channel, then the period little-endian |
| Payloads.NetworkKeyPayload | ant.go:223-224 | 9 bytes: channel, then the 8 key bytes |
| Payloads.SearchWaveformPayload | ant.go:237-241 | a payload exists iff the waveform is 97 or 316; it is channel, then the waveform little-endian |
| Payloads.DataPayload | ant.go:286-291 | a payload exists iff the data is exactly 8 bytes; it is the first byte, then the data |
| Payloads.AddChannelIdPayload | ant.go:350-351 | 6 bytes: the channel-id layout, then the list index |
| Payloads.TransmitPowerPayload | ant.go:231 | the payload is 0, then power AND mask: a level at most the mask and the requested power, with no bit outside the mask |
| Device.Ant.constructor | ant.go:49-61 | a new session has both outbound queues empty |
| Device.Ant.UnAssignChannel | ant.go:174-178 | appends exactly the unassign message to `write`; the timeslot queue is unchanged |
| Device.Ant.AssignChannel | ant.go:180-184 | appends exactly the assign message with its three bytes to `write` |
| Device.Ant.AssignChannelExt | ant.go:186-190 | appends exactly the assign message with its four bytes to `write` |
| Device.Ant.SetChannelId | ant.go:192-199 | appends exactly one channel-id message with the 5-byte layout to `write` |
| Device.Ant.SetChannelPeriod | ant.go:201-208 | appends exactly the period message to `write` |
| Device.Ant.SetChannelSearchTimeout | ant.go:210-214 | appends exactly the search-timeout message to `write` |
| Device.Ant.SetChannelRFFreq | ant.go:216-220 | appends exactly the RF-frequency message to `write` |
| Device.Ant.SetNetworkKey | ant.go:222-228 | appends exactly the network-key message to `write` |
| Device.Ant.SetTransmitPower | ant.go:230-234 | appends the power message whose payload is 0 and power AND mask |
| Device.Ant.SetSearchWaveform | ant.go:236-245 | refuses any waveform but 97 and 316 with nothing enqueued; otherwise appends one message with the id the code uses, `MESG_RADIO_TX_POWER_ID` |
| Device.Ant.ResetSystem | ant.go:251-255 | appends exactly the reset message to `write` |
| Device.Ant.OpenChannel | ant.go:257-261 | appends exactly the open message to `write` |
| Device.Ant.CloseChannel | ant.go:263-267 | appends exactly the close message to `write` |
| Device.Ant.RequestMessage | ant.go:269-273 | appends one message to `write` with the id the code uses, `MESG_REQUEST_SIZE` |
| Device.Ant.WriteMessage | ant.go:275-279 | appends the given message to `write` |
| Device.Ant.SendBroadcastData | ant.go:285-296 | refuses data that is not 8 bytes, with nothing enqueued; otherwise appends broadcast data to `write` |
| Device.Ant.SendAcknowledgedData | ant.go:298-307 | refuses data that is not 8 bytes; otherwise appends acknowledged data to `writeInTimeslot`, leaving `write` unchanged |
| Device.Ant.SendBurstTransferPacket | ant.go:309-319 | refuses data that is not 8 bytes; otherwise appends one burst-data message to `writeInTimeslot` |
| Device.Ant.SendBurstTransfer | ant.go:321-343 | refuses a length not a multiple of 8 with nothing enqueued; otherwise appends exactly the as-written packets in order and reports the slice panic iff it occurs |
| Device.Ant.AddChannelID | ant.go:349-355 | appends exactly the 6-byte list-add message to `write` |
| Device.Ant.ConfigList | ant.go:357-361 | appends one message to `write` with the id the code uses, `MESG_ID_LIST_ADD_ID` |
| Device.Ant.OpenRxScanMode | ant.go:363-367 | appends the scan-mode message with payload 0, 1 to `write` |

## Left out

- The session lifecycle (`Start`, `Stop`, `loop`, the `stopper` and `done` channels, ant.go:63-117): it is goroutine scheduling and handing bytes to the transport. Go's `select` picks at random among ready cases, so there is no order to state.
- The `AntDriver` transport (`Open`, `Read`, `Write`, `Close`, `BufferSize`): I/O behind an interface. The decoder starts from the bytes the transport delivered.
- `Decode`, `Encode`, `NewMessage`, the `MESG_*` ids and `RADIO_TX_POWER_LVL_MASK`: their definitions are not part of this model. They appear as a parameter, a constructor and constants without values.
- The blocking of unbuffered channels: both outbound queues are plain sequences. In the code nothing reads `writeInTimeslot`, because its reader is commented out, so a send on it would block forever.
- The non-deterministic choice of the publish `select`: it is the oracle `ready`, not a model of goroutine timing.
- `log.Println`.
- Panics as process aborts: each is a result value (see above), so the model says nothing about the crash of the other goroutines.
- Device.Ant.SetNetworkKey: requires an 8-byte key, because the source's parameter is a Go array `[8]uint8`.
- Burst.ChannelSequenceFields: reads channel and sequence back only for channel numbers below 32. For larger numbers the code ORs channel bits into the sequence field and the byte cannot be split.

## Findings

| source | as written | input that shows it | evidently intended | confidence | as-written member | corrected member |
|---|---|---|---|---|---|---|
| ant.go:137 | `make([]byte, length+4)` adds in uint8, so the buffer size wraps to 0..3 for the lengths 252..255 | `[MESG_TX_SYNC, 252]` panics on `buf[0]`; `[MESG_TX_SYNC, 255, b]` hands `Decode` a 3-byte buffer instead of 259 bytes | a buffer of `int(length)+4` bytes for every length byte | not executed | Decoder.WrappedLengthPanics | Decoder.CorrectedFrameExact |
| ant.go:339 | the slice bounds `i*8` and `i*8+8` are uint8 (and `packets` at ant.go:326 truncates), so packet 31 asks for `data[248:0]` | 256 bytes of data enqueue 31 packets, then panic; 2048 bytes enqueue nothing | one packet per 8 bytes of data, whatever the length | not executed | Burst.LongBurstPanics | Burst.BurstReassembles |
