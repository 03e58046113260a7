# The WaveStation protocol, verified

WaveStation is an ESP32 device with a microphone, a speaker, an infrared receiver and transmitter and three sensors. It
serves one TCP client at a time with its own packet protocol, WSP: a 16-byte header and at most 4096 bytes of payload.
This project models both ends of the connection, the firmware's session engine and the Python host, and proves what
holds over every run, every interleaving and every way in which the network can cut the bytes up.

`dafny verify dfyconfig.toml` checks everything.

## How it is built

| file | content |
|---|---|
| `Bytes.dfy`, `Protocol.dfy`, `Codec.dfy` | integers as bytes, packets and bodies, firmware structs against the host's format strings |
| `Parsing.dfy` | the meaning of a whole byte stream, for the firmware and for the host |
| `Transmit.dfy`, `Drivers.dfy` | the partial-write loop; the loops of the infrared, speaker and microphone drivers |
| `Session.dfy` | the session as functions on a `World`: state, unread bytes, clock, and a trace of events |
| `History.dfy` | what a trace means by itself, and the rules each event must obey given the events before it |
| `Reactions.dfy`, `Invariant.dfy` | every reaction obeys the protocol; every operation keeps the invariant |
| `Reception.dfy`, `Emission.dfy`, `Subscription.dfy`, `Isolation.dfy` | the main results about the firmware |
| `Passes.dfy`, `Oracles.dfy` | what one pass of the main loop may do and in which order; how the answers of the outside world are used |
| `Firmware.dfy` | the firmware as it runs: a class whose methods update the globals, the receive buffer and the wire in place, each proved equal to its function in `Session.dfy` |
| `Audio.dfy`, `Decoding.dfy`, `Host.dfy`, `Reader.dfy`, `HostLock.dfy` | the host: what packets say, decoding, building and sending, receiving, and its two threads under a lock |
| `EndToEnd.dfy` | results that span both ends |
| `StampZero.dfy` | the run in which a reading stamped 0 is followed too soon |

Three layers carry the argument. `History.dfy` says what must be true without looking at the firmware's state: folds over
the trace give the bytes read, the packets dispatched, the subscriptions, the numbers, the stamps and the values reported.
`Session.dfy` says what the code does, branch by branch. `Invariant.RunInv` ties the two together for every run, and
`Firmware.RunDevice` ties the session functions to the imperative code.

What the firmware does not decide is given by parameters, quantified over in every result. `Session.Env` holds which
drivers came up and the answers of the socket, the speaker and the Opus decoder to their successive calls;
`Session.LoopInput` holds, for one pass of the main loop, the time that has passed, the answers to its connection checks,
a waiting client, the bytes that arrive, the sizes in which they are read, and the drivers' results. The only assumption
about the clock is `Transmit.Ticking`: between the timeout checks of two stalled iterations at least a millisecond and
less than 49 days pass.

## Where the code says less than its documentation

- README.md:379 promises that a failed send ends the session. The code does so for MicPCM, IrReceive and Sensor packets
  only; a failed MicComp packet (esp32/app.cpp:581-585) is dropped, and the results of `wspSendAck`, `wspSendError` and
  `wspSendHeartbeat` are ignored. So outgoing framing needs a condition: that no byte is accepted after
  a torn reply or a torn MicComp packet. `Emission.MangledExactly` shows that this is exactly when bytes follow a torn
  packet, and `Emission.TornReplyMangles` that the condition cannot be dropped.
- The host's lock keeps whole packets apart in every interleaving in which no `sendall` fails (`HostLock.UnfailingStream`),
  and otherwise as long as no byte is handed over after a `sendall` that failed part way (`HostLock.LockedStream`). The
  socket has a timeout of one second, and a heartbeat that times out leaves a torn frame behind which the main thread goes
  on writing (`HostLock.TimeoutMangles`).
- A stamp of exactly 0 means "never read" (esp32/app.cpp:656-658), so after a reading at that very millisecond the interval
  is not observed. `Subscription.ReportsSpaced` and `Subscription.DueExactly` name the exception, and
  `StampZero.StampZeroUnspaced` gives, for every interval, a run that falls under it.
- `repeat + 1` is kept in sixteen bits (esp32/ir_driver.cpp:89), so a repeat count of 65535 sends nothing
  (`EndToEnd.LearnAndReplay`).
- A buffer found full ends the session before it is parsed (esp32/app.cpp:532-550), so results about dispatched packets are
  about sessions that did not overflow; `Reception.OverflowExactly` says which do.

## Modelling choices

- The globals of one sensor, which the code passes to `maybeSendSensor` by reference, are grouped in a `SensorState`; the
  three nearly identical sensor branches of the request handlers are one method with the sensor as a parameter.
- The clock of the session advances between passes; `pollSensors` reads it once per pass, as the code does. The clock readings
  inside a write belong to that write.
- The static packet buffers are allocated anew for each packet; their sizes and the moving offset are the code's. A handler
  is given the payload as a value taken from the buffer instead of a pointer into it.
- Sensor values are reals. What goes on the wire is their bit pattern, given by an uninterpreted function.
- The Opus encoder and decoder either fail or return between one element and the capacity, which is what their wrappers
  guarantee (esp32/opus_codec.cpp:120-131, 160-171).
- A sender's `requestId` under two threads is any value: nothing is claimed about it.

## Model

| member | source | states |
|---|---|---|
| Reception.DispatchedIsParsed | esp32/app.cpp:490-551 | Between any two passes of the main loop, in every run: the packets dispatched are the ones a one-shot parser finds in all the bytes read in this session, the buffer holds exactly the unparsed remainder, and no bad header has been read. |
| Reception.ArrivalsParsed | esp32/app.cpp:490-551 | Packets and verdict are the one-shot parser's on the whole stream that arrived: a session not ended by an overflow, a failed send or the loss of its client has dispatched exactly the packets found there once nothing waits, and is still open exactly if no bad header is found. |
| Reception.FragmentationIndependence | esp32/app.cpp:490-551 | Send the same bytes to two firmwares with any drivers, clocks, sockets, read sizes and schedules, cut up in any way: once each has read them all or met a bad header, both have dispatched the same packets, come to the same verdict and hold the same remainder, however much either has read past the bad header. |
| Reception.NothingLost | esp32/app.cpp:529-551 | Conservation in every run, also after a session has ended: the bytes read and the bytes waiting are the first of the bytes that arrived since the client was accepted, in order, and all of them while the session is open; what was dispatched is an initial part of what a one-shot parser finds in the bytes that arrived. |
| Reception.SessionVerdict | esp32/app.cpp:495-511 | A session ended by a bad header had dispatched every packet in front of that header and the one-shot parser rejects its bytes too; an open session has no verdict and no bad header; however a session ends, what it dispatched is an initial part of what its bytes mean. |
| Reception.ResidueBound | esp32/app.cpp:490-527 | Between passes at most 4111 bytes wait in the 8192-byte buffer. |
| Reception.DrainExact | esp32/app.cpp:532-548 | The read loop reports an overflow only if more bytes wait than fit; if no read fails it reads everything that fits and reports an overflow exactly then. |
| Reception.DrainFails | esp32/app.cpp:544-545 | A read that fails ends the loop with exactly the bytes of the reads before it, and without an overflow. |
| Reception.PollReadsAll | esp32/app.cpp:529-548 | A poll of a connected client reads everything that waits and fits if no read fails; without a connected client it changes nothing. |
| Reception.OverflowExactly | esp32/app.cpp:529-551 | In every reachable state, with no failing read, a poll ends the session for overflow exactly when residue and waiting bytes exceed 8192; with failing reads it can only do so less. |
| Reception.SmallBurstsFit | esp32/app.cpp:532-537 | A poll that meets at most 4081 bytes never overflows, in any reachable state. |
| Reception.LargerBurstOverflows | esp32/app.cpp:532-537 | The bound is tight: there is a run in which 4082 bytes overflow the buffer. |
| Reception.EveryPacketReceived | esp32/app.cpp:507-526 | After any packets, a packet of any legal size up to 4112 bytes is dispatched once exactly its frame has been read, and the buffer is then empty. |
| Session.Drain | esp32/app.cpp:532-548 | The read loop never reads more than there is room for or more than waits, whatever the read sizes. |
| Parsing.FrontOf | esp32/app.cpp:490-516 | A whole packet at the front is legal and within the stream; an incomplete front is shorter than the largest packet. |
| Parsing.ParseAppend | esp32/app.cpp:490-527 | Parsing is incremental: later bytes continue from the remainder, and a bad header stays bad whatever follows. |
| Parsing.ParseRest | esp32/app.cpp:490-527 | The remainder starts with a bad header exactly if parsing ended there, and otherwise holds no complete packet. |
| Parsing.ParseFrames | esp32/app.cpp:490-527 | Framing any list of legal packets and parsing the bytes gives the list back, whatever follows it. |
| Parsing.PrefixIncomplete | esp32/app.cpp:490-516 | No proper prefix of a frame is taken for a packet or for a bad header. |
| Parsing.ReadPacketAgrees | test_backend/wave_station_test_backend.py:447-461 | One step of the host's reader against the firmware's parser, in both directions: they differ only on types the host does not know. |
| Parsing.ReadersAgree | test_backend/wave_station_test_backend.py:447-461 | On every stream the host's packets are an initial part of the firmware's; if all types are known the two readers find the same packets; every bad header and every unknown type makes the host stop. |
| Parsing.ReadFrames | test_backend/wave_station_test_backend.py:429-461 | From whole frames followed by a torn one the host reads exactly the whole packets and refuses nothing. |
| Invariant.RunInv | esp32/app.cpp:738-764 | In every run, after every pass: flags, counters, intervals, stamps and reference values are what the trace of events says, the trace obeys all rules of a session, the buffer holds what is read and not dispatched, no failed send is left unanswered, and no complete packet waits. |
| Invariant.RunOrderly | esp32/app.cpp:738-764 | At every moment of every run, also in the middle of a pass, each event obeys the rules of a session given the events before it. |
| Invariant.AppLoopInv | esp32/app.cpp:738-764 | One pass of the main loop keeps the invariant from any state that satisfies it. |
| Invariant.ConsumeInv | esp32/app.cpp:518-525 | Dispatching and compacting keep the invariant, and the buffer then holds exactly what followed the packet. |
| Invariant.ProcessRxInv | esp32/app.cpp:490-527 | Processing the buffer keeps the invariant and leaves a closed session or no complete packet. |
| Invariant.SendDataInv | esp32/app.cpp:564-567 | Sending an IrReceive, MicPCM or MicComp packet to a subscriber keeps the invariant, and closes the session where the code does. |
| Invariant.SenseInv | esp32/app.cpp:619-649 | A due reading keeps the invariant, also on a session that an earlier sensor has just closed. |
| Invariant.PollSensorsInv | esp32/app.cpp:651-702 | Polling the sensors keeps the invariant although the three decisions are taken up front and polling goes on after a disconnect. |
| Invariant.WrappedDifference | esp32/app.cpp:655-658 | The 32-bit difference of two `millis()` values is the true difference modulo 2^32 and never more than it. |
| Invariant.GrantedExactly | esp32/app.cpp:85-89 | The interval granted is the one asked for, but at least 200, 2000 and 2000 ms, and 1000, 2000 and 2000 ms if none is asked for. |
| Invariant.ChangedExactly | esp32/app.cpp:91-93 | A change is too small exactly if it is less than 1 lux, 0.2 degrees or 1 percent, up or down. |
| Reactions.Answers | esp32/app.cpp:149-488 | For every packet and state the reaction is what the protocol prescribes: which action, whether there is a reply, its type and its exact error code. |
| Reactions.RepliesLegal | esp32/app.cpp:448-488 | Every reply is a legal Ack, Error or Heartbeat packet. |
| Reactions.ReactStream | esp32/app.cpp:149-305 | A packet changes a stream's flag exactly if it is an accepted request for that stream, and never a counter or the buffer. |
| Reactions.ReactSensor | esp32/app.cpp:200-243 | A packet changes a sensor's state exactly if it is an accepted request for that sensor; everything else of every sensor stays. |
| Reactions.HandleRx | esp32/app.cpp:448-488 | Dispatching any packet leaves the receive buffer alone. |
| Subscription.SubscriptionState | esp32/app.cpp:149-305 | After every pass of every run each flag, interval and on-change option is a fold over the requests dispatched in the session; intervals respect their minima; what is enabled has its driver ready and a client. |
| Subscription.ResetReestablished | esp32/app.cpp:95-121 | Whenever there is no client between two passes, everything that `resetSessionState` writes has its reset value, whatever ran after the disconnect. |
| Subscription.Gating | esp32/app.cpp:556-702 | At every moment of every run, no byte of a data type is accepted by the socket unless the session is open, the latest accepted request for the type was a Subscribe, and its Ack has been sent or tried before. |
| Subscription.ReplyDiscipline | esp32/app.cpp:149-488 | In every run the reply to a packet is a function of the packet, of what is ready and of how carrying it out went, down to the error code and its message: one Heartbeat; one Ack or one Error per request; none for an IrTransmit that passes the checks or an audio packet played as a whole, one Error otherwise; each echoes the identifier in header and body. |
| Subscription.ReportsSpaced | esp32/app.cpp:651-702 | Consecutive readings of a sensor in one subscription are at least the requested interval apart in true time, across wrap-around of the clock, unless the earlier stamp was exactly 0. |
| StampZero.StampZeroUnspaced | esp32/app.cpp:655-658 | The exception is real, for every requested interval: there is a run in which the first reading is stamped 0 and the next follows one millisecond later, in the same open subscription. |
| Subscription.DueExactly | esp32/app.cpp:655-658 | Between passes a sensor is due exactly if it is subscribed and never read, stamped 0, or its wrapped elapsed time has reached the interval; so it is due at every true elapsed time from the interval up to 2^32 ms. |
| Subscription.DueReadingsTaken | esp32/app.cpp:651-702 | Every pass takes exactly one reading of each sensor that is due when the sensors' turn comes, and none of any other, even when an earlier report has closed the session. |
| Subscription.OnChangeChain | esp32/app.cpp:619-649 | At every due reading: an invalid one is always reported as 0 with quality 0 and does not move the reference; a valid one is held back exactly if only changes are wanted and it lies less than 1 lux, 0.2 degrees or 1 percent above or below the last value reported; reported values differ from their predecessors by at least that much. |
| Subscription.ReportedDiffer | esp32/app.cpp:628-642 | In an on-change subscription each valid value reported lies at least 1 lux, 0.2 degrees or 1 percent above or below the one before. |
| Emission.OutgoingFraming | esp32/wsp_packet.cpp:3-243 | In every run, as long as no byte is accepted after a torn reply or a torn MicComp packet, the bytes accepted in a session are whole frames and at most one torn one at the end, and the host reads exactly the whole packets. |
| Emission.MangledExactly | esp32/app.cpp:556-649 | The condition is exact over every run: bytes follow a torn packet of any kind exactly if they follow a torn reply or MicComp packet, since every other failed send ends the session; without such a tear they never do. |
| Emission.UnmangledExactly | esp32/app.cpp:556-649 | The same equivalence at every moment of a trace that obeys the rules. |
| Emission.FailureEndsSession | esp32/app.cpp:566-569 | A session is closed for a failed send exactly when the latest event is a MicPCM, IrReceive or Sensor packet not accepted as a whole, and at once. |
| Emission.TornReplyMangles | README.md:379 | The condition is needed: with a socket that cuts one Heartbeat reply the firmware sends on and the host refuses the stream, although the repository's README promises a disconnect. |
| Emission.TornReplyUnnoticed | esp32/wsp_packet.cpp:3-30 | It is not necessary byte for byte: there is a run in which bytes follow a torn reply and the host still happens to read exactly the packet delivered. |
| Parsing.AccidentalFrame | test_backend/wave_station_test_backend.py:447-461 | How that can be: a Heartbeat whose identifier is the magic number, torn after twelve bytes, is completed by the header of whatever follows, and both readers find the packet that was sent exactly if it is the same Heartbeat again. |
| Emission.ConsecutiveNumbers | esp32/app.cpp:556-649 | Whole packets of every stream but MicComp are numbered 0, 1, 2, ... modulo 2^32 within a session; held-back readings, failed encodes and resubscriptions use up no number. |
| Emission.SkippedNumbers | esp32/app.cpp:572-585 | The next MicComp number is the last whole one plus one plus the packets lost since, modulo 2^32. |
| Emission.SequenceCheck | test_backend/wave_station_test_backend.py:549-553 | At every delivery of every run the host's check does not warn about a type other than MicComp, and warns about MicComp exactly if a number was skipped since the last one received. |
| Emission.HostSeesNoGaps | test_backend/wave_station_test_backend.py:549-553 | Over a whole session in which nothing follows a torn reply or MicComp packet the host reads the delivered packets and its check warns about no type but MicComp, nor about MicComp if none was lost. |
| Isolation.SessionIsolation | esp32/app.cpp:744-763 | Two firmware states that differ in any way produce, from the acceptance of a client on, the same dispatches, replies, data packets and closes, given the same bytes, socket, clock and drivers. |
| Isolation.SameSense | esp32/app.cpp:619-649 | The values that a reset does not clear never influence a report of the new session. |
| Oracles.AnswersBelieved | esp32/app.cpp:738-764 | At every moment of every run each packet got as far as its own write call says, each piece was taken if its own speaker call says so, and each frame was decoded to what its own decoder call returned: every answer is used once and in order. |
| Passes.PassInTurn | esp32/app.cpp:758-761 | In every pass the events come in the order of the main loop: reading and dispatching, infrared, ambient light, temperature, humidity, MicPCM, MicComp, each of the last six at most once. |
| Passes.AcceptsExactly | esp32/app.cpp:744-756 | A pass without a connected client accepts a waiting one, and does nothing else. |
| Passes.ClockAdvances | esp32/app.cpp:738-764 | Every pass takes the time it takes, whatever happens in it. |
| Passes.MicSilent | esp32/app.cpp:556-562 | Without a client, a subscription, a microphone or a complete frame nothing is sent or changed by the microphone's turn. |
| Passes.IrSilent | esp32/app.cpp:598-605 | Without a client, a subscription, a receiver or a signal nothing is sent or changed by the infrared turn. |
| Transmit.WspWritePacket | esp32/wsp_packet.cpp:3-30 | For every pattern of short and zero writes the loop ends; the accepted bytes are an initial part of the packet, once and in order, as many as the socket takes before the first iteration in which everything is taken, the connection is gone, or a stall is more than a second old; the call succeeds exactly if that is all of them. |
| Transmit.AcceptedCounts | esp32/wsp_packet.cpp:6-29 | On a connected socket exactly that many bytes are accepted: the sum of what the writes before that iteration take, and at most the packet. |
| Transmit.StallCosts | esp32/wsp_packet.cpp:19-26 | A stalled iteration that does not give up uses up retry time, also when the clock wraps: the measure that makes the loop end. |
| Transmit.ShortWriteReason | esp32/wsp_packet.cpp:9-27 | A packet is cut short only where the loop ends by a lost connection or a stall more than a second old, and then exactly the bytes taken before have gone out. |
| Drivers.IrReceiveRaw | esp32/ir_driver.cpp:44-78 | The buffer, length and overflow flag are those of the capture without its gap: at most 512 timings, each saturated at 65535, flagged if some were cut off; it succeeds exactly if there is a timing. |
| Drivers.IrSendRaw | esp32/ir_driver.cpp:80-99 | The transmitter is handed the same array `repeat + 1` times modulo 2^16 with the carrier in kHz, or nothing. |
| Drivers.SpeakerPlayPcm16Mono | esp32/speaker_driver.cpp:62-81 | Every sample is written to both slots of its pair; success means that speaker, size and write were in order. |
| Drivers.DuplicateAppend | esp32/speaker_driver.cpp:66-70 | Pieces played one after the other fill the slots of the joined samples. |
| Drivers.DuplicateSlots | esp32/speaker_driver.cpp:66-70 | Each side's slots are exactly the mono samples. |
| Drivers.DuplicatePairs | esp32/speaker_driver.cpp:66-70 | Both slots of the i-th pair hold the i-th sample. |
| Drivers.MicReadFrame | esp32/i2s_mic.cpp:79-128 | The frame is the converted slot with the larger energy, the first one on a tie; it succeeds exactly on a complete read of a ready microphone. |
| Drivers.Deinterleave | esp32/i2s_mic.cpp:98-110 | The two temporary arrays hold the two converted slots and the sums their energies. |
| Drivers.LouderSlot | esp32/i2s_mic.cpp:112-116 | The selected slot is one of the two and has the larger energy, the first one on a tie. |
| Drivers.SlotExactly | esp32/i2s_mic.cpp:21-29 | The i-th sample of a side is its i-th 32-bit word divided by 2^14, rounded down and saturated to sixteen bits. |
| Drivers.ConvertRaw | esp32/i2s_mic.cpp:27-29 | The same of a single word. |
| Drivers.EnergyExactly | esp32/i2s_mic.cpp:108-109 | The energy of a slot is the sum of its samples' magnitudes. |
| Drivers.CarrierKHz | esp32/ir_driver.cpp:83-87 | From 1 kHz to 65.5 MHz the carrier is the frequency in whole kHz, below it 38, and never 0. |
| Protocol.HeaderRoundTrip | esp32/wave_station.h:66-89 | Decoding an encoded header, followed by anything, gives the header back. |
| Codec.HeaderReverse | esp32/wave_station.h:66-89 | Encoding what was decoded from any sixteen bytes gives those bytes back. |
| Codec.HeaderAgrees | test_backend/wave_station_test_backend.py:218-228 | The host's packed header format is the firmware's header struct. |
| Codec.HeaderUnpacked | test_backend/wave_station_test_backend.py:448-449 | What the host unpacks from any header is what the firmware's fields hold. |
| Codec.FrontExactly | esp32/app.cpp:490-516 | The firmware ends the session exactly at sixteen bytes that do not start with 31 50 53 57, are not of version 1, or announce more than 4096 bytes; it waits exactly while a good packet is incomplete; otherwise it finds the packet those bytes describe. |
| Codec.ReadExactly | test_backend/wave_station_test_backend.py:450-459 | The host refuses the same headers and those of a type that is not in its table, and no other. |
| Codec.SubscribeAgrees | test_backend/wave_station_test_backend.py:240 | The host's Subscribe body is the firmware's struct, byte for byte, and always fits its fields. |
| Codec.UnsubscribeAgrees | test_backend/wave_station_test_backend.py:251 | The host's Unsubscribe body is the firmware's struct. |
| Codec.AckAgrees | test_backend/wave_station_test_backend.py:507 | The host's Ack format is the firmware's struct. |
| Codec.ErrorAgrees | test_backend/wave_station_test_backend.py:513 | The host's Error format, with its signed code, is the firmware's struct. |
| Codec.AudioPcmAgrees | test_backend/wave_station_test_backend.py:296 | The host's PCM body is the firmware's struct. |
| Codec.AudioCompAgrees | test_backend/wave_station_test_backend.py:379 | The host's compressed-audio body is the firmware's struct. |
| Codec.IrTransmitAgrees | test_backend/wave_station_test_backend.py:266 | The host's IrTransmit body is the firmware's struct. |
| Codec.IrReceiveAgrees | test_backend/wave_station_test_backend.py:613 | The host's IrReceive format is the firmware's struct. |
| Codec.SensorAgrees | test_backend/wave_station_test_backend.py:640 | The host's sensor format is the firmware's struct. |
| Bytes.PackRoundTrip | test_backend/wave_station_test_backend.py:218-228 | Unpacking packed fields of any format, followed by anything, gives the values back. |
| Bytes.UnpackRoundTrip | test_backend/wave_station_test_backend.py:449 | Packing what was unpacked from any bytes gives the bytes back. |
| Bytes.U16sRoundTrip | esp32/wsp_packet.cpp:207-209 | The timings of an IR tail are read back as they were written. |
| Bytes.U16sAt | esp32/wsp_packet.cpp:207-209 | Each timing stands at its place, low byte first. |
| Bytes.I16sAt | esp32/wsp_packet.cpp:134-136 | Each sample stands at its place in two's complement. |
| Bytes.TwosComplement | test_backend/wave_station_test_backend.py:513 | Signed fields are read in two's complement. |
| Bytes.I16sRoundTrip | esp32/wsp_packet.cpp:134-136 | The samples of a PCM tail are read back as they were written, with their signs. |
| Protocol.RepliesFit | esp32/wsp_packet.cpp:32-100 | Every reply fits the 128-byte payload area and no error message is clipped. |
| Protocol.MessageExactly | esp32/wsp_packet.cpp:72-87 | Every error message reaches the wire whole, character by character. |
| Protocol.NumbersExactly | esp32/wave_station.h:25-48 | The type numbers of the streams and the units of the sensors. |
| Protocol.DataFramesFit | esp32/wsp_packet.cpp:102-212 | Every frame the drivers can produce fills at most its sender's static buffer and is legal, so no size check rejects it. |
| Decoding.HearsPcm | test_backend/wave_station_test_backend.py:555-569 | The host decodes a MicPCM packet to its samples, in order, without a mismatch warning. |
| Decoding.HearsComp | test_backend/wave_station_test_backend.py:581-595 | The host decodes a MicComp packet to its encoded frame, without a mismatch warning. |
| Decoding.HearsTimings | test_backend/wave_station_test_backend.py:609-619 | The host decodes an IrReceive packet to exactly its timings and overflow flag. |
| Decoding.HearsReading | test_backend/wave_station_test_backend.py:636-640 | The host decodes a sensor packet to its unit, quality and value bits. |
| Decoding.HearsReplies | test_backend/wave_station_test_backend.py:502-517 | The host decodes each reply to the identifier, status, code and message it was made from. |
| Decoding.TimestampStripped | test_backend/wave_station_test_backend.py:540-547 | A timestamp in front of any body is taken off and read; without the flag the payload is left alone. |
| Decoding.DecodesExactly | test_backend/wave_station_test_backend.py:496-547 | Any packet at all: which are malformed, which bytes mean what, and when a timestamp is taken off. |
| Decoding.PcmExactly | test_backend/wave_station_test_backend.py:555-566 | Any MicPCM payload: malformed below eight bytes, and a mismatch exactly if the announced size differs. |
| Decoding.CompExactly | test_backend/wave_station_test_backend.py:581-595 | Any MicComp payload: malformed below nine bytes, and a mismatch exactly if the announced size differs. |
| Decoding.TimingsExactly | test_backend/wave_station_test_backend.py:609-619 | Any IrReceive payload: malformed exactly if it is shorter than its header or than announced. |
| Decoding.ReadingExactly | test_backend/wave_station_test_backend.py:636-640 | Any sensor payload: malformed unless it has eight bytes. |
| Firmware.RunDevice | esp32/app.cpp:738-764 | The device, updated in place from power-up through any inputs, is in the state `Session.Run` describes and its wire is the one of that trace: every theorem about runs is a theorem about the device. |
| Firmware.Device.AppLoop | esp32/app.cpp:738-764 | One pass of the main loop on the globals, the buffer and the wire is one step of the session. |
| Firmware.Device.PollTcpReceive | esp32/app.cpp:529-551 | Reading into the buffer in any portions, the overflow check and parsing compute the session's receive step. |
| Firmware.Device.FillBuffer | esp32/app.cpp:532-548 | The read loop appends exactly the bytes it takes from the socket and stops where the specification says. |
| Firmware.Device.ReadWaiting | esp32/app.cpp:532-548 | After the read loop the buffer has grown by exactly the bytes read. |
| Firmware.Device.ProcessRxBuffer | esp32/app.cpp:490-527 | The parsing loop over the buffer computes the session's parsing. |
| Firmware.Device.TakeFront | esp32/app.cpp:518-525 | Dispatching in place and moving the rest down leaves exactly the undispatched suffix. |
| Firmware.Device.DispatchPacket | esp32/app.cpp:448-488 | Every packet type is handled as the session says, without touching the buffer. |
| Firmware.Device.HandleSubscribe | esp32/app.cpp:149-247 | Subscribe requests in place: flags, interval, options, stamp and reference as the session says, and the reply. |
| Firmware.Device.HandleSubscribeSensor | esp32/app.cpp:200-243 | The three sensor branches of Subscribe. |
| Firmware.Device.HandleUnsubscribe | esp32/app.cpp:249-305 | Unsubscribe requests in place, and the reply. |
| Firmware.Device.HandleUnsubscribeSensor | esp32/app.cpp:283-302 | The three sensor branches of Unsubscribe. |
| Firmware.Device.HandleIrTransmit | esp32/app.cpp:307-343 | IrTransmit checks in the code's order, and what the transmitter is handed. |
| Firmware.Device.HandleSpkPcm | esp32/app.cpp:345-389 | SpkPCM checks in the code's order, the slots handed to the speaker, and the reply. |
| Firmware.Device.HandleSpkComp | esp32/app.cpp:391-446 | SpkComp checks in the code's order, and the encoded bytes handed on. |
| Firmware.Device.DecodeAndPlay | esp32/app.cpp:422-436 | Decoder reset on a key frame, the encoded bytes of the packet handed to the decoder, playing, and the reply to either failure. |
| Firmware.Device.ResetSessionState | esp32/app.cpp:95-110 | All session globals take their reset values; the last sensor values stay. |
| Firmware.Device.DisconnectClient | esp32/app.cpp:112-121 | The session is closed and reset, and waiting bytes are dropped. |
| Firmware.Device.AcceptClient | esp32/app.cpp:744-756 | A new client starts from the reset state with an empty wire. |
| Firmware.Device.PollMic | esp32/app.cpp:556-596 | MicPCM before MicComp; a MicPCM failure ends the session and skips MicComp, a MicComp failure drops the frame. |
| Firmware.Device.PollIrReceive | esp32/app.cpp:598-617 | A capture is sent to its subscriber; a failure ends the session. |
| Firmware.Device.PollSensors | esp32/app.cpp:651-702 | The three decisions are taken before any sensor is read, and each due sensor is read. |
| Firmware.Device.ReadSensor | esp32/app.cpp:664-675 | The stamp is set before the reading is judged, with the same outcome. |
| Firmware.Device.MaybeSendSensor | esp32/app.cpp:619-649 | One stamped reading: held back, reported, or failed with a disconnect; the reference moves only with a valid report that went out. |
| Firmware.Device.Transmit | esp32/wsp_packet.cpp:3-30 | The wire grows by exactly the bytes of the packet that the socket accepted. |
| Firmware.Device.SendControl | esp32/wsp_packet.cpp:32-53 | A reply is framed and written, or refused if it exceeds 128 bytes. |
| Firmware.Device.WspSendAck | esp32/wsp_packet.cpp:55-70 | An Ack for the identifier is attempted, and a failure changes nothing else. |
| Firmware.Device.WspSendError | esp32/wsp_packet.cpp:72-95 | An Error with the reason's code and message is attempted, and a failure changes nothing else. |
| Firmware.Device.WspSendHeartbeat | esp32/wsp_packet.cpp:97-100 | A Heartbeat for the identifier is attempted, and a failure changes nothing else. |
| Firmware.Device.WspSendMicPcm | esp32/wsp_packet.cpp:102-139 | A MicPCM packet is assembled at a moving offset and written; no or more than 320 samples are refused. |
| Firmware.Device.WspSendMicComp | esp32/wsp_packet.cpp:141-176 | A MicComp packet is assembled and written; no or more than 512 bytes are refused. |
| Firmware.Device.WspSendIrReceive | esp32/wsp_packet.cpp:178-212 | An IrReceive packet is assembled and written; no or more than 512 timings are refused. |
| Firmware.Device.WspSendSensor | esp32/wsp_packet.cpp:214-243 | A sensor packet is assembled and written. |
| Firmware.Assemble | esp32/wsp_packet.cpp:130-136 | Header, body and tail copied one after the other are the packet's frame. |
| Firmware.MemMoveDown | esp32/app.cpp:521-524 | Moving the rest of the buffer down in place keeps its bytes. |
| Firmware.StampFirst | esp32/app.cpp:664-666 | Setting the stamp before the reading is judged does not change the outcome. |
| Host.BuiltLegal | test_backend/wave_station_test_backend.py:238-386 | Every packet a builder makes is within the payload limit. |
| Host.BuildsExactly | test_backend/wave_station_test_backend.py:238-271 | Exactly which arguments make a Subscribe or an IrTransmit, and which error the others raise. |
| Host.BuildsSpeechExactly | test_backend/wave_station_test_backend.py:277-385 | Exactly which arguments make a SpkPCM or a SpkComp packet, and which error the others raise. |
| Host.FrameSamples | test_backend/wave_station_test_backend.py:351 | A frame holds its milliseconds rounded down to whole samples, but at least one. |
| Host.WavFramed | test_backend/wave_station_test_backend.py:351-361 | The plan of a 16 kHz file is refused nowhere; its packets say exactly the samples, all but the last of full size, under consecutive numbers. |
| Host.WavRefusals | test_backend/wave_station_test_backend.py:277-303 | Exactly which files cannot be sent and with which error: a first frame of more than 960 samples, or a rate that does not fit its field. |
| Host.IdsExactly | test_backend/wave_station_test_backend.py:196-201 | Identifiers drawn in a row are 1, 2, 3, ... and distinct until 2^32 - 2 of them have been drawn. |
| Host.WspClient.NextId | test_backend/wave_station_test_backend.py:196-201 | Request identifiers are used in turn and start again at 1 before the largest 32-bit value. |
| Host.WspClient.NextDataSequence | test_backend/wave_station_test_backend.py:203-206 | Numbers are consecutive per type modulo 2^32. |
| Host.WspClient.SendAll | test_backend/wave_station_test_backend.py:208-212 | A successful send appends exactly the packet's frame to the wire; a failed one an initial part of it. |
| Host.WspClient.SendHeartbeat | test_backend/wave_station_test_backend.py:230-236 | A Heartbeat with the next identifier is sent. |
| Host.WspClient.SendSubscribe | test_backend/wave_station_test_backend.py:238-247 | The Subscribe packet is sent, or a value that does not fit raises an error after the identifier is used up. |
| Host.WspClient.SendUnsubscribe | test_backend/wave_station_test_backend.py:249-255 | The Unsubscribe packet is sent. |
| Host.WspClient.SendIrTransmit | test_backend/wave_station_test_backend.py:257-275 | The IrTransmit packet is sent, or the first violated check raises its error; a number is used up exactly if a packet was built. |
| Host.WspClient.SendSpkPcmFrame | test_backend/wave_station_test_backend.py:277-303 | The SpkPCM packet is sent, or the first violated check raises its error; a number is used up exactly if a packet was built. |
| Host.WspClient.SendSpkCompFrame | test_backend/wave_station_test_backend.py:370-386 | The SpkComp packet is sent, or the first violated check raises its error; a number is used up exactly if a packet was built. |
| Host.WspClient.SendPiece | test_backend/wave_station_test_backend.py:355-361 | One frame of a file: the next packet of the plan goes out, or its error is raised. |
| Host.WspClient.SendSpkPcmWav | test_backend/wave_station_test_backend.py:341-368 | A file that is not 16-bit mono is refused; otherwise all packets of the file's plan are sent in order, or an initial part up to the frame that was refused or lost. A 16 kHz file in frames of 1 to 60 ms can fail only by the connection, and what is sent then says exactly the file, in frames of 16 samples per millisecond. |
| Reader.Connection.RecvExact | test_backend/wave_station_test_backend.py:429-445 | However `recv` splits the stream and however often it times out, exactly the requested bytes are taken, or the stream was too short or the client is stopping. |
| Reader.Connection.ReadOne | test_backend/wave_station_test_backend.py:447-461 | The pull reader finds what the specification defines on the whole stream, and leaves what follows it. |
| Reader.PacketLogger.CheckSequence | test_backend/wave_station_test_backend.py:549-553 | The check warns exactly if an earlier packet of the type has another number than the predecessor modulo 2^32. |
| Reader.PacketLogger.HandlePacket | test_backend/wave_station_test_backend.py:496-553 | Every packet is decoded; only data packets enter the check. |
| Reader.ReadLoop | test_backend/wave_station_test_backend.py:759-761 | The receiving loop handles exactly the packets of the stream, in order, and ends with the stream or at the first header it refuses. |
| HostLock.MutualExclusion | test_backend/wave_station_test_backend.py:208-212 | In every interleaving at most one thread is inside `sendall`, and it holds the lock. |
| HostLock.ScheduleOrdered | test_backend/wave_station_test_backend.py:203-212 | In every interleaving the main thread's completed packets have the types and payloads of its first requests, in order, data packets with the number of earlier requests of their type; the heartbeat thread's are empty Heartbeats. |
| HostLock.SendsAlone | test_backend/wave_station_test_backend.py:208-212 | A thread that finds the lock free gets its next packet out whole, and a data packet uses up the next number of its type. |
| HostLock.ScheduleFramed | test_backend/wave_station_test_backend.py:208-212 | In every interleaving, until bytes follow a failed send, the wire is whole frames followed by the bytes of the send that failed or is in progress. |
| HostLock.TearsExactly | test_backend/wave_station_test_backend.py:208-212 | In every schedule the stream is torn exactly if some send failed after part of its bytes, and bytes follow the tear exactly if some thread hands over a byte later. |
| HostLock.NothingTears | test_backend/wave_station_test_backend.py:208-212 | A schedule in which no send fails tears nothing. |
| HostLock.ParsedOnWire | test_backend/wave_station_test_backend.py:208-212 | Unless a thread hands over a byte after a send that failed part way, a parser finds on the wire exactly the packets sent as a whole. |
| HostLock.LockedStream | test_backend/wave_station_test_backend.py:203-236 | The lock protocol under that condition on the steps: whole packets, the main thread's with the types and payloads of its first requests in order, the heartbeat thread's empty Heartbeats, and consecutive numbers per type on the wire. |
| HostLock.UnfailingStream | test_backend/wave_station_test_backend.py:203-236 | In particular all of that holds in every interleaving, with any partial writes, in which no send fails. |
| HostLock.TimeoutMangles | test_backend/wave_station_test_backend.py:177-180 | The condition is needed: the socket has a timeout, so a heartbeat can fail after one byte while the main thread sends on, and the firmware finds a bad header. |
| HostLock.TearUnnoticed | test_backend/wave_station_test_backend.py:208-212 | It is not necessary byte for byte: there is a schedule in which bytes follow a tear and the parser still happens to find exactly the packet sent. |
| EndToEnd.Playback | esp32/app.cpp:345-389 | WAV to speaker: packets that say the samples, mixed with any packets but SpkComp and delivered in any portions, put the i-th sample into both slots of the i-th pair once they are read in an open session; if the speaker takes them all, no frame is answered with an error. |
| Host.WavSpeech | test_backend/wave_station_test_backend.py:341-368 | The frames of a 16-bit mono file are never refused by the builder and, at 16 kHz, together carry exactly its samples; each passes the firmware's checks exactly if the rate is 16 kHz. |
| EndToEnd.PlayedIsSpeech | esp32/speaker_driver.cpp:62-81 | In every session trace the slots handed to the speaker are the duplicated samples of the accepted SpkPCM packets, in order. |
| Host.SpkPcmUnderstood | test_backend/wave_station_test_backend.py:277-303 | A built SpkPCM frame passes the firmware's checks exactly if its rate is 16 kHz, and then carries its samples. |
| EndToEnd.SpkCompUnderstood | test_backend/wave_station_test_backend.py:370-386 | A built SpkComp frame passes the firmware's checks exactly if it is 16 kHz mono, and carries its encoded bytes. |
| EndToEnd.FedIsEncodings | esp32/app.cpp:391-431 | In every session trace the decoder is handed the encoded bytes of the accepted SpkComp packets, unchanged and in order, with a reset before each key frame. |
| EndToEnd.CompPlayback | test_backend/wave_station_test_backend.py:388-407 | The host's encoded frames, mixed with any packets and delivered in any portions, are exactly what the decoder is handed once they are read in an open session. |
| EndToEnd.SubscribeUnderstood | test_backend/wave_station_test_backend.py:238-247 | A built Subscribe is accepted for exactly the stream it names, if available, with its interval and option. |
| EndToEnd.UnsubscribeUnderstood | test_backend/wave_station_test_backend.py:249-255 | A built Unsubscribe cancels exactly the stream it names. |
| EndToEnd.IrTransmitUnderstood | test_backend/wave_station_test_backend.py:257-275 | A built IrTransmit passes the firmware's checks and carries its timings, carrier and repeat count. |
| EndToEnd.CapturedExactly | esp32/ir_driver.cpp:55-73 | A capture amounts to its first 512 timings after the gap, saturated at 65535, flagged if any was cut off. |
| EndToEnd.CaptureHeard | esp32/app.cpp:598-617 | A capture of a subscribed session is sent in the same pass, and the host decodes exactly its timings and flag. |
| EndToEnd.LearnAndReplay | esp32/ir_driver.cpp:80-99 | The decoded timings are always accepted by the host's builder; in every run the firmware accepts the packet and emits the identical timings `repeat + 1` times with the carrier asked for, or not at all when `repeat` is 65535. |
| EndToEnd.MicHeard | esp32/app.cpp:556-570 | A complete frame of a MicPCM subscriber is sent in the same pass, and the host decodes the 320 samples of the louder slot. |
| EndToEnd.CompHeard | esp32/app.cpp:572-585 | Its encoded form is sent to a MicComp subscriber unless the MicPCM packet before it ended the session, and reaches the host unchanged. |
| EndToEnd.ReadingHeard | esp32/app.cpp:651-702 | A sensor that is due is read in the same pass, and the host hears its own reading: lux as type 0x0301 and unit 1, degrees as 0x0302 and 2, percent as 0x0303 and 3, with quality 255 and the value, or quality 0 and the value 0. |
| EndToEnd.HostToFirmware | esp32/app.cpp:490-551 | Whatever the interleaving of the host's threads and however its bytes travel, unless a byte is handed over after a send that failed part way: once read in an open session, exactly the packets sent as a whole are dispatched, each thread's in order, with consecutive numbers per type. |
| EndToEnd.HostHears | test_backend/wave_station_test_backend.py:759-761 | The host on the other end of any run in which nothing follows a torn reply or MicComp packet: however `recv` cuts the wire, it handles exactly the delivered packets and warns about no type but MicComp, nor about MicComp if none was lost. |

## Left out

- Wi-Fi association, server start-up, pin assignment and driver installation: what remains of them is a constant flag per driver.
- Opus itself, the infrared, temperature and light sensor libraries, and all physical timing: their results are inputs.
- IEEE arithmetic: on-change comparisons are over the reals, so rounding at the threshold is not modelled.
- Serial and console logging, log throttling and statistics, file output of the host, command-line parsing and alias tables.
- Sine generation and pacing sleeps of the host's senders; `send_spkpcm_tone` frames its samples like `SendSpkPcmWav`, and `send_spkcomp_dir` repeats `SendSpkCompFrame`.
- Uniqueness of request identifiers under two threads: `next_request_id` runs outside the lock.
- The stop event and closing of the host's client, beyond a read that ends because the client is stopping.
- `check_raw.py`, `raw_to_wav.py`, `send_spkpcm_tone.py`, the case model and the task design proposed in the guide: not part of the protocol engine.
- Emission.OutgoingFraming: one direction only, since bytes after a torn packet can by accident still look like the packets delivered (`Emission.TornReplyUnnoticed`).
- HostLock.LockedStream: one direction only, for the same reason (`HostLock.TearUnnoticed`): a Heartbeat whose identifier equals the magic number, torn after twelve bytes and followed by the same Heartbeat.
- EndToEnd.CompPlayback: ends at the decoder, because what an encoded frame decodes to is the decoder's business; what it returns is duplicated into both slots like SpkPCM samples.
