# Sircond: the SiriusConnect link layer and what sits on it

Sircond talks to a satellite radio over a serial line and lets several network
clients share it. This project models

* the **codec and framer**: frame layout, two's complement checksum, byte
  stuffing, the de-escaping automaton, and the parse loop that finds frames in a
  damaged byte stream, over the slide-over staging buffer;
* the **stop-and-wait protocol**: retries, busy back-off, checksum NAKs,
  duplicate suppression, 8-bit sequence numbers, the link-failure counter;
* the **control arbiter**, a lock with a waiting line and hand-off;
* the **blocking structure** of the server, radio and timer threads;
* client streams and lines, the periodic timers and the channel bitmap.

Code that updates state in place is written as classes, arrays and loops
(`SOBuffer`, `CSirCon`, `SirServer`, `Client`, `CTimer`, `ChannelCache`), each
method proved against a function of the old state; whole-run theorems are then
proved about those functions.

## How the parts fit

| file | module | role |
|---|---|---|
| scp.dfy | Scp | constants and value types |
| codec.dfy | Codec | checksum, layout, escaping |
| framer.dfy | Framer | the parse loop as a function of the staged bytes |
| stream.dfy | Stream | what damaged bytes are parsed into, and when a frame is found in them |
| sobuf.dfy | SlideOver | the slide-over buffer |
| endpoint.dfy | Endpoint | the link endpoint as a state machine, runs and logs |
| sircon.dfy | SirCon | the `CSirCon` object: bytes and fields, refining the two above |
| arq.dfy | Arq | two endpoints over two channels that lose, duplicate and damage |
| arqlimit.dfy, arqlive.dfy | ArqLimit, ArqLive | runs that go wrong; what a good line achieves |
| wired.dfy, wiredlive.dfy | Wired, WiredLive | the same for two `CSirCon` objects and lines of bytes |
| arbiter.dfy | Arbiter | who may change settings |
| threads.dfy | Threads | mutexes, the awaited promise, deadlock freedom |
| client.dfy, text.dfy | ClientIo, Text | transmit buffer; lines and words |
| ctimer.dfy | Timers | periodic timers |
| channelmap.dfy | ChannelMap | valid-channel bitmap |

A run is a list of inputs (or events, commands, moves), so "in every run" is a
plain quantifier over lists. The `id` of a queued frame stands for the identity
of its promise; endpoints never read the `id` of a packet in flight.

## Where the code falls short of its promise, and exactly when

* A SUCCESS can be reported for a frame the other side dropped as a duplicate,
  once 255 frames in a row have timed out and the sequence number has come round
  (`ArqLimit.WrapAround`).
* After a bad checksum the parser looks for frames inside the bytes it has just
  refused. A frame whose payload contains another one, hit in a single header
  byte, delivers the inner one, which nobody sent: `Stream.HiddenFrame`, and as a
  run of the protocol `ArqLimit.HiddenDispatched`. Nothing is accepted from
  damaged bytes if and only if no span starting there passes for a frame
  (`Stream.HarmlessExactly`); a condition on the frame sent is that it has no
  sentinel behind the first byte (`Stream.OneByteDamage`).
* `ArqLimit.ExactTolerance` puts the two together: all runs within a bound on
  consecutive timeouts are safe if and only if the bound is at most 254 and no
  frame is hidden in damaged bytes.
* After a hit that makes a frame claim more bytes than it has, the parser waits,
  with no time limit, and whole frames behind it are not heard until enough bytes
  have come (`Stream.StallExactly`). Short frames can use up all three
  transmissions that way: `Stream.LengthHit`.
* Line noise ending in an unpaired ESC swallows the sentinel of the frame after
  it (`Codec.NoiseBeforeFrame` says what is received in either case).
* A client buffer that does not end in a newline makes the line loop turn for
  ever: `Text.FinishesExactly`.
* A client that is dropped and whose further commands are still processed can
  come to hold control for good: `Arbiter.LiveExactlyIfQuiet`.
* `SOBuffer` slides only when there is no room at all behind its contents, so a
  message can be refused although the buffer has that many free bytes: exactly
  when they are split (`Client.FreeButSplit` in the contract of `Send`);
  `ClientIo.RefusedWithRoom` is a run that gets there.
* A timer with an interval below 100 ms fires every 2^32 wakeups
  (`Timers.Period`).

`Threads.DeadlockFreeExactly` is a remark beside `Threads.DeadlockFree` and no
shortfall: it shows that the freedom rests on no command handler calling
`CSirCon::IsValidChannel`, as none does.

The `assert` at the head of the radio loop is not only a check: by calling
`GetWriteLen` it slides the buffer before the write pointer is read. The model
has it compiled in.

## Model

| member | source | states |
|---|---|---|
| Codec.ComputeChecksum | sircon.cpp:286-295 | the byte that brings the sum of all bytes to 0 modulo 256 |
| Codec.ValidateChecksum | sircon.cpp:313-322 | true exactly for byte strings summing to 0 modulo 256 |
| Codec.SingleByteErrorDetected | sircon.cpp:301-305 | changing any one byte of a span that passes the checksum is caught |
| Codec.EncodeWellFormed | sircon.cpp:350-384 | a composed frame has its claimed length, the sentinel and a valid checksum, fits 262 bytes, and decodes to what was composed |
| Codec.FrameLayout | scp.h:152-160 | the bytes of a composed frame by position and value, summing to 0 modulo 256 |
| Codec.ReadOut | scp.h:152-160 | number, flags and payload of a frame are read out whatever the two filler bytes are |
| Codec.DecodeEncode | scp.h:152-160 | a well-formed frame with the usual filler bytes is the composition of its decoding |
| Codec.EscapeFrame | sircon.cpp:224-260 | the escaping loop stays inside its 524 bytes and produces the wire form of the whole buffer, or of as many bytes as fill them |
| Codec.WireShape | scp.h:46-50 | on the wire the sentinel occurs at index 0 and nowhere else; at most 2n - 1 bytes |
| Codec.WiredAs | sircon.cpp:230-256 | behind the first byte A4 goes out as 1B 53, 1B as 1B 1B, every other byte as itself |
| Codec.EncodedFrameFits | scp.h:175-177 | the same for every composed frame, whose wire form is at most 523 bytes, so Write can send it |
| Codec.UnescapeConcat | sircon.cpp:142-204 | the one-bit automaton state is all that has to survive between two reads |
| Codec.UnescapeWire | sircon.cpp:163-204 | de-escaping inverts escaping and ends outside an escape |
| Codec.UnknownEscape | sircon.cpp:181-198 | an unknown escape is dropped, both bytes of it, and nothing around it |
| Codec.NoiseBeforeFrame | sircon.cpp:181-198 | what is received of a frame behind arbitrary noise: all of it, or all but the sentinel if the noise ends in an unpaired ESC |
| Framer.Residue | sircon.cpp:605-632 | the parse loop always stops waiting for more, with at most 261 bytes left |
| Framer.HeadStable | sircon.cpp:606-642 | once the parser can decide, later bytes do not change the decision |
| Framer.DrainConcat | sircon.cpp:605-714 | parsing a prefix first and the residue with the rest later gives the same events and residue as parsing everything at once |
| Framer.ChunkInvariance | sircon.cpp:556-717 | for any bytes and any division into reads, events and final receiver state depend on the bytes alone |
| Framer.WireRoundTrip | sircon.cpp:142-270 | any list of frames, escaped, concatenated and cut up anyhow, is accepted exactly and in order, ending idle |
| Framer.Advance | sircon.cpp:610-632 | where no frame starts, the parser moves one byte and one report at a time and accepts nothing, or still waits |
| Framer.FirstAccepted | sircon.cpp:605-714 | the first frame accepted is the earliest sentinel-headed, checksum-valid span, given 261 bytes from its start |
| Framer.Resynchronises | sircon.cpp:610-616 | in garbage, frame, tail: the frame is accepted first, or is still wholly staged with nothing accepted |
| Stream.HarmlessExactly | sircon.cpp:634-712 | given 261 bytes behind damaged ones, no accepted frame starts inside them if and only if no sentinel-headed, checksum-valid span does |
| Stream.HiddenFrame | sircon.cpp:704-709 | a frame carrying an encoded frame, damaged in its second byte, is reported bad and the inner frame is then accepted |
| Stream.SentinelFreeDamage | sircon.cpp:610-616 | whatever happened to a stretch of bytes, if no sentinel is left behind its first and it is not a frame, it gives one report and then skips, and the parser is in step behind it |
| Stream.DamagedFrameReported | sircon.cpp:704-709 | a one-byte error outside sentinel and length yields a bad-checksum report under the number the header carries, and a one-byte step |
| Stream.OneByteDamage | sircon.cpp:704-712 | a frame with no sentinel inside, hit in one byte that is not the first, not the length and does not become a sentinel, gives one bad-checksum report and skips to its end |
| Stream.StallExactly | sircon.cpp:626-632 | behind bytes with no sentinel after the first and no frame in them, a whole frame is heard if and only if the first byte heads no candidate, or all the bytes the candidate claims have come; else nothing is heard |
| Stream.LengthHit | sircon.cpp:626-632 | a frame hit on its length byte and three whole copies behind it: none of the four is heard if it claims more than they have |
| Stream.HeardPieceByPiece | sircon.cpp:605-714 | a stream of whole frames and debris with nothing hidden is reported piece by piece: each whole frame accepted, in order, and one frameless report for each byte of debris |
| SlideOver.SOBuffer.constructor | sobuf.cpp:36-41 | an empty queue of the given capacity, at the front of its array |
| SlideOver.SOBuffer.MarkRead | sobuf.cpp:75-88 | removes the first len bytes; the contents move back to the front exactly when none are left |
| SlideOver.SOBuffer.SlideToFront | sobuf.cpp:102-106 | moving the bytes down in place keeps the contents and what lies behind their new place |
| SlideOver.SOBuffer.GetWriteLen | sobuf.cpp:96-111 | contents survive; they slide exactly when there is no room behind them; the result is the room behind them then, 0 only when the buffer is full |
| SlideOver.SOBuffer.MarkWritten | sobuf.cpp:120-126 | for any count up to what GetWriteLen reports, appends the bytes found behind the contents where GetWriteLen leaves them |
| Endpoint.PromiseConservation | sircon.cpp:440-516 | over every run: promises resolved, then promises queued, are all those handed out, in order; frame n carries request n under n mod 256; only the head has retries, at most 3 |
| Endpoint.ExitAccountsForEverything | sircon.cpp:729-737 | resolved promises and those abandoned at exit together are every promise, once each |
| Endpoint.StepTicksLeft | sircon.cpp:444-467 | a tick brings a waiting frame one tick closer; only a busy NAK sets it back, by one |
| Endpoint.ExactTicksLeft | sircon.cpp:440-702 | exactly how far each input moves a waiting frame: a tick by one, a busy answer to the head frame to a back-off of one, data to none, a success by what is left of the head frame; nothing else at all |
| Endpoint.BusyHoldsBack | sircon.cpp:663-667 | after a busy answer for the head frame one tick passes without effect, and the one after it sends the frame or gives it up |
| Endpoint.DataEndsWait | sircon.cpp:680-702 | data is acknowledged, then dispatched unless its number is the last seen, and the next tick works the queue |
| Endpoint.AnswersTaken | sircon.cpp:643-679 | answers for other numbers change nothing; a checksum NAK has the head frame sent at once and uses up nothing; a positive one settles it |
| Endpoint.ExpectsNext | sircon.cpp:697-698 | over every run the number expected next is the one after the last seen |
| Endpoint.BoundedWait | sircon.cpp:440-469 | whatever else happens a frame is resolved within 4 ticks per frame up to it, less retries used, plus back-off, plus one per busy NAK |
| Endpoint.BoundedDrain | sircon.cpp:440-469 | n queued frames are resolved within 4n + busy timer ticks plus one per busy NAK |
| Endpoint.SilentRadioExactWait | sircon.cpp:455-461 | with a silent radio that bound is met on the exact tick |
| Endpoint.TransmissionCount | sircon.cpp:455-466 | a frame is given up only after exactly 3 timer transmissions; never more, none before its turn |
| Endpoint.LinkSupervision | sircon.cpp:502-516 | the failure count is the number of timeouts since bytes last arrived; alive exactly from a byte to the next timeout |
| Endpoint.LinkFailureShutdown | sircon.cpp:511-515 | shutdown has been requested exactly if eleven timeouts, not ten, came with no byte between |
| Endpoint.BytesOnlyWake | sircon.cpp:574-586 | that bytes came in revives a dead link and changes nothing else |
| Endpoint.ProbeAsked | sircon.cpp:587-601 | once bytes have come, a silence puts a request of 40 18 at the end of the queue |
| Endpoint.DeadNotProbed | sircon.cpp:592-598 | a dead link is not probed |
| Endpoint.SilenceFound | sircon.cpp:502-516 | a live link that falls silent is known to be dead within four ticks for the probe and each frame before it, plus back-off |
| SirCon.CSirCon.constructor | sircon.cpp:43-71 | starts as the initial endpoint and an idle receiver |
| SirCon.CSirCon.Write | sircon.cpp:224-270 | hands the port the wire form of the buffer; true exactly if the port reports that many bytes sent |
| SirCon.CSirCon.TransmitFrame | sircon.cpp:330-338 | the port gets the wire form of the queued frame; true exactly if it took all of it |
| SirCon.CSirCon.SendACK | sircon.cpp:400-415 | the port gets the wire form of an empty frame with the given number and flags; true exactly if it took all of it |
| SirCon.CSirCon.ComposeFrame | sircon.cpp:350-384 | the composed bytes are the encoding under the next sequence number, which wraps at 256 |
| SirCon.CSirCon.Send | sircon.cpp:783-802 | queues the composed frame and hands out its promise, state and log being the endpoint's after a request; without memory for the frame nothing changes and the answer is NOMEMORY |
| SirCon.CSirCon.TimerProc | sircon.cpp:440-469 | counts down the back-off, or sends the head frame, or gives it up with TIMEOUT after three retries; state and log are the endpoint's after a tick |
| SirCon.CSirCon.OnTimeout | sircon.cpp:502-516 | sets TIMEOUT, marks the link dead, counts, asks for shutdown beyond 10 |
| SirCon.CSirCon.OnACK | sircon.cpp:475-482 | sets SUCCESS |
| SirCon.CSirCon.HandleAck | sircon.cpp:643-679 | for the head's number only: flag 01 has its bytes written again, 02 sets the back-off to 1, neither takes it off the queue; state and log are the endpoint's |
| SirCon.CSirCon.HandleData | sircon.cpp:680-702 | writes the acknowledgement (80), dispatches if not a duplicate, notes the number, ends the back-off |
| SirCon.CSirCon.Judge | sircon.cpp:634-709 | a complete candidate is acted on and consumed, or reported and one byte skipped |
| SirCon.CSirCon.ParseOne | sircon.cpp:606-714 | waits, skips, accepts or reports exactly as the framer decides on the staged bytes, and consumes as many |
| SirCon.CSirCon.ParseStaged | sircon.cpp:605-714 | the loop feeds the endpoint every event and leaves the residue |
| SirCon.CSirCon.Read | sircon.cpp:142-211 | de-escapes straight into the staging array without overrunning it; a timeout is success with no bytes, a failing port changes nothing |
| SirCon.CSirCon.Stage | sircon.cpp:564-572 | there is always room to read: if bytes are waiting some are taken |
| SirCon.CSirCon.NoteArrival | sircon.cpp:574-603 | bytes revive the link; a silence on a live link queues a request of 40 18 if there is memory for a frame; nothing else is queued |
| SirCon.ProbesExactly | sircon.cpp:587-601 | a turn of the loop probes if and only if it is time and nothing came in, and then does nothing else |
| SirCon.CSirCon.RunPass | sircon.cpp:559-715 | for any answer of the port, one turn of the loop leaves the receiver state of the bytes taken and the endpoint state after the events in them; a failing port ends the loop with both unchanged |
| SirCon.CSirCon.OnExit | sircon.cpp:729-737 | empties the queue, abandoning the promises in it |
| SirCon.PortRoundTrip | sircon.cpp:142-270 | what one object logged as transmitted is what a receiver of its port writes hears |
| Arq.AckIsForHead | sircon.cpp:654-676 | with at most 254 timeouts in a row, an acknowledgement matching the head's number is the head's own |
| Arq.DuplicateIsLast | sircon.cpp:685-697 | under the same bound, a data frame with the last number seen is a copy of the last frame dispatched |
| Arq.AnyLine | sircon.cpp:142-211 | what a modelled line can deliver: its packets in order, each any number of times or not at all, with any damaged stretches between |
| Arq.PutOff | sircon.cpp:663-668 | and a radio may answer a data frame with flags 82 instead of taking it |
| Arq.ReliableDelivery | sircon.cpp:440-709 | over every run within that bound in which no frame is hidden in damaged bytes, in both directions: dispatched payloads are an in-order, duplicate-free selection of those requested, and every SUCCESS was dispatched |
| Arq.TickSends | sircon.cpp:464-465 | a tick puts the head frame in flight |
| Arq.ExchangeCompletes | sircon.cpp:670-702 | two undisturbed deliveries then dispatch it and report SUCCESS |
| Arq.DamageRepaired | sircon.cpp:657-712 | a frame with no sentinel inside, lost to one hit byte and replaced in the channel by what the parser makes of its bytes, is back in flight after two deliveries |
| ArqLimit.WrapAround | sircon.cpp:364 | a run with 255 timeouts in a row and nothing hidden, after which SUCCESS is reported for a frame never dispatched |
| ArqLimit.HiddenDispatched | sircon.cpp:680-709 | a run without timeouts in which one byte of the only frame is hit and a payload nobody asked to send is dispatched |
| ArqLimit.ExactTolerance | sircon.cpp:644-709 | all runs within a bound on consecutive timeouts, with or without frames hidden in damage, are safe if and only if the bound is at most 254 and none is hidden |
| ArqLive.EverythingDelivered | sircon.cpp:440-702 | from any calm state with both sides running, whole frames on the lines, and each head frame (if any) with a retry left, a copy on its way or an answer coming back: some schedule of deliveries and ticks empties lines and queues, every unresolved frame of either side ends in SUCCESS, and neither side stops |
| ArqLive.DeliverableExactly | sircon.cpp:455-461 | with whole frames on the lines such a schedule exists if and only if both sides run and neither head frame is without retry, copy and answer |
| Wired.RunMatched | sircon.cpp:556-717 | every run of two objects over lines of bytes, lost, added or changed anyhow, in which no frame is heard that was not sent, is matched by a run over packets with the same requests, results and dispatches |
| Wired.ReliableBytes | sircon.cpp:440-709 | so in every such run with at most 254 timeouts in a row payloads are dispatched in order, without duplicates, and every SUCCESS is true, in both directions |
| Wired.UndamagedIsGenuine | sircon.cpp:142-270 | over undamaged lines, however read, no frame is heard that was not sent |
| Wired.DebrisIsGenuine | sircon.cpp:605-714 | nor over damaged ones, if what was read falls into whole frames, drawn from those sent, and debris in which no frame starts |
| Wired.AnyDamage | sircon.cpp:142-211 | on a line of bytes any bytes can take the place of any stretch, or of everything, in one move |
| Wired.MoveIsMethod | sircon.cpp:440-717 | each move of a station is what Send, TimerProc or a turn of the main loop promises |
| WiredLive.ScheduleTracked | sircon.cpp:556-717 | with the receivers in step, every schedule of frame deliveries and ticks is one of one-byte reads and ticks |
| WiredLive.BytesDelivered | sircon.cpp:440-717 | after any run over bytes as above, if neither side has stopped, each receiver holds at most part of the next whole frame, and no head frame is without hope: some schedule of one-byte reads and ticks ends every request of both sides in SUCCESS |
| WiredLive.UndamagedDelivered | sircon.cpp:440-717 | over lines never damaged the receivers are always in step, so retries or frames under way are all it takes |
| WiredLive.AnyPayloadArrives | sircon.cpp:440-802 | from two objects just started, any payload asked for can be brought by one-byte reads and ticks to be dispatched once, unchanged, with SUCCESS |
| Arbiter.SirServer.constructor | sirserver.cpp:35 | nobody holds or waits for control |
| Arbiter.SirServer.IsWaitingForControl | sirserver.cpp:158-174 | membership in the wait queue |
| Arbiter.SirServer.HasControl | sirserver.cpp:182-186 | whether the client heads the line |
| Arbiter.SirServer.AcquireControl | sirserver.cpp:189-215 | append if absent; true exactly for the head; no duplicates |
| Arbiter.SirServer.LeaveQueue | sirserver.cpp:241-252 | the erasing loop removes every occurrence and keeps the order |
| Arbiter.SirServer.ReleaseControl | sirserver.cpp:218-254 | removal from the line; the new head is told exactly on hand-off |
| Arbiter.SirServer.ProcessControl | sirserver.cpp:671-693 | ACQUIRE and RELEASE with their replies; any other word changes nothing and is answered by an empty line |
| Arbiter.SirServer.OnDrop | sirserver.cpp:299-304 | a drop is a release without a reply |
| Arbiter.SirServer.ProcessSet | sirserver.cpp:596-668 | a SET is forwarded exactly if well-formed and from the controller, so never while there is none |
| Arbiter.LineHasNoDuplicates | sirserver.cpp:189-254 | over every run the line is duplicate-free |
| Arbiter.Fairness | sirserver.cpp:204-253 | those ahead of a client that stays are exactly those who were ahead and have not left, in order |
| Arbiter.GainsControl | sirserver.cpp:232-235 | a waiting client has control exactly when all ahead of it have left |
| Arbiter.Exclusion | sirserver.cpp:596-600 | while a client holds control only its SETs reach the radio |
| Arbiter.ForwardedExactly | sirserver.cpp:596-668 | over every run what reaches the radio are the well-formed SETs of whoever heads the line at the time, each once and in order |
| Arbiter.NoControlNoSet | sirserver.cpp:596-600 | on a server nobody has asked for control nothing reaches the radio |
| Arbiter.OneAnswer | sirserver.cpp:671-693 | every CONTROL command gets exactly one line back, the last thing it causes; SETs and drops get none |
| Arbiter.RepliesAreTrue | sirserver.cpp:671-693 | the last reply a client got always tells whether it holds control, waits or neither |
| Arbiter.LiveExactlyIfQuiet | sirserver.cpp:696-700 | nobody in line is ever a dropped client if and only if no dropped client acquires |
| Threads.MutualExclusion | server.cpp:117-158 | the invariant behind freedom from deadlock, over every interleaving from the start: no mutex has two owners, the frame queue is sound, awaited promises were handed out |
| Threads.NeverTogether | server.cpp:286-300 | in terms of what threads do: the client list is never walked by two at once, nor the frame queue worked by two, nor cached state read while it is changed |
| Threads.WaitersStay | server.cpp:117-158 | the server does not move while its promise is open, the radio thread does not enter the client list while the server is in it, nobody the frame queue while another is |
| Threads.WaitsUnderClients | sirserver.cpp:267-289 | a schedule in which the server waits for a promise under the client-list mutex and the radio thread for that mutex |
| Threads.PlainSailing | server.cpp:286-300 | schedules in which each thread gets the mutexes it asks for |
| Threads.AckReleases | sircon.cpp:670-676 | the acknowledgement of the head frame releases the server that waits for it in one step |
| Threads.RequestQueued | sircon.cpp:783-802 | a request of either thread goes to the end of the frame queue as made |
| Threads.DispatchedFirst | sircon.cpp:685-697 | a new frame is dispatched before anything is noted; a copy of the last ends the back-off at once |
| Threads.CopyNotDispatched | sircon.cpp:685-701 | when its dispatch is over the number is noted and the back-off ended, and a copy is not dispatched |
| Threads.DeadlockFree | server.cpp:117-158 | every blocked thread waits, in at most three hops, for one that can run |
| Threads.EmbraceForever | sircon.cpp:998-1003 | once the radio broadcasts under the cache mutex and the server asks for that mutex, neither moves again |
| Threads.DeadlockFreeExactly | sircon.cpp:1149-1151 | remark: freedom from deadlock if and only if no command handler checks channels |
| Threads.ServerReleased | sirserver.cpp:267-289 | a promise awaited under the client mutex is set within a bound on timer steps plus six per busy NAK, under any schedule; data ends the back-off when its dispatch is over |
| Threads.StepsLeftBound | sircon.cpp:440-469 | that bound is at most 24 timer steps for the frame and each ahead of it, plus six |
| Threads.TimerHeldUpBriefly | ctimer.cpp:88-99 | the timer thread is held up only by a thread that can run and lets go in one step |
| ClientIo.Client.constructor | client.h:42 | a fresh connection has accepted and sent nothing; both buffers have the given size |
| ClientIo.Client.Send | client.cpp:36-46 | whole message or nothing; refused exactly when that many bytes are not free, or free but split; accepted = sent + buffered |
| ClientIo.Client.TransmitData | client.cpp:76-98 | bytes the socket took leave from the front; accepted = sent + buffered |
| ClientIo.Client.Drop | client.cpp:54-66 | discards what was not sent |
| ClientIo.RefusedWithRoom | sobuf.cpp:96-111 | a run from a fresh connection in which 100 bytes are refused with 412 of 512 free |
| Text.FinishesExactly | sirclient.cpp:59-73 | the line loop ends if and only if the buffer is empty or ends in a newline |
| Text.ProcessData | sirclient.cpp:54-76 | after any number of turns: the newline-free lines handed on, newlines put back, are the bytes consumed; on complete input all of it |
| Text.SplitUnique | sirclient.cpp:58-73 | a text has one division into such parts |
| Text.StrTokenize | util.cpp:60-87 | for any separator: words without it, whose joining by its first character is the input up to the last separator, or the whole input if partial words are asked for; an empty one gives blanks, and throws if partial words are asked for |
| Text.OneSeparator | sirserver.cpp:705 | with a one-character separator words are free of it, and only one at the very end is swallowed |
| Timers.CTimer.OnWakeup | ctimer.cpp:88-99 | the list walk counts every timer down, fires and reloads those at zero |
| Timers.CTimer.Create | ctimer.cpp:106-122 | appends a timer loaded with a hundredth of its interval under the next handle |
| Timers.CTimer.Destroy | ctimer.cpp:125-140 | removes the first timer with the handle |
| Timers.CTimer.Restart | ctimer.cpp:143-158 | reloads the first timer with the handle |
| Timers.Periodic | ctimer.cpp:92-96 | a fresh timer fires in exactly one of every Period wakeups whatever is done to others, until its own handle is given out again |
| Timers.FiresFromCreation | ctimer.cpp:106-122 | counted from its creation a timer fires in exactly one of every interval/100 wakeups (2^32 for an interval below 100) |
| Timers.FiresFromRestart | ctimer.cpp:143-158 | the same counted from a restart, with the interval it was created with |
| Timers.OthersStay | ctimer.cpp:106-158 | creating, destroying or restarting one timer leaves every other as it is |
| Timers.SilentAfterDestroy | ctimer.cpp:125-140 | a destroyed timer never fires again until its handle is given out again |
| Timers.HandlesDistinct | ctimer.cpp:106-122 | with fewer than 2^32 creations no two timers share a handle, and a new handle is not given out again for 2^32 - 1 more |
| ChannelMap.ChannelCache.OnChannelMap | sircon.cpp:1032-1047 | responses of at least 32 bytes replace the map by bytes 4 to 31 |
| ChannelMap.ChannelCache.IsValidChannel | sircon.cpp:1149-1165 | true exactly if the channel is below 224 and its bit of the 224-bit big-endian map is set |
| ChannelMap.BitOfBigEndian | scevents.h:226-232 | bit c of the map as one number is bit c mod 8 of byte c div 8 from the end |

## Left out

- ReliableDelivery: runs in which a frame is accepted from damaged bytes (hidden in them, or the damaged frame itself when its bytes still sum to zero) are in the model and excluded by `HonestRun`; `ArqLimit.ExactTolerance` shows that they must be.
- BytesDelivered: requires each receiver in step with its line; behind an incomplete candidate `Stream.StallExactly` says when a frame is heard at all.
- EverythingDelivered: a damaged stretch on a packet channel is not admitted, since one delivery stands there for all its reports, which in the source may have to wait for more bytes; the byte-level statements are in `WiredLive`.
- ReliableBytes: the runs go on after a stop was requested, which adds runs to those the source has; each read is of as many bytes as the run says.
- AckIsForHead: the bound on consecutive timeouts is a hypothesis on the run; `ArqLimit.ExactTolerance` shows it cannot be weakened.
- ProcessData: the outer loop has no limit on its turns in the source; the method says where it stands after any number of them, and `Text.FinishesExactly` when it ends.
- Periodic: nothing is said of a timer once its handle has been given out again, after 2^32 - 1 further creations; also SilentAfterDestroy.
- StrTokenize: the comment in the source promises a set of separator characters; the code searches for the string as a whole, and so does the model.
- EscapeFrame: a buffer over 262 bytes in which an escape pair would straddle the end of the 524 bytes; nothing the daemon sends comes near (`Codec.EncodedFrameFits`).
- Send: `Client.Send` does not model the 8-bit length of `SERVER::Broadcast`, which cuts messages longer than 255 bytes; `CSirCon.Send` models a failing allocation of the frame, not of the queue node, which would use up a sequence number.
- RepliesAreTrue: speaks of the replies issued; a client whose transmit buffer is full does not get one (`Client.Send`).
- MSGBUF objects are values in the queue: their allocation, aliasing and freeing are not modelled beyond the out-of-memory answer of `Send`.
- The escape flag of `Read` is a static local in the source; here it is a field of the object, of which the daemon has one.
- The wait for idle time in the radio loop is a parameter of `RunPass`; the clock, the resynchronisation count, the slide count and all logging are left out.
- The failure counter and retry counts are unbounded; they are 32-bit in the source and shutdown follows at 11 failures.
- A failed or partial port write is a frame lost or damaged in the channel; `PortRoundTrip` is about complete ones. Serial drivers, sockets, `select` and signals are input and output only.
- Requests made while or after `OnExit` drains the queue, task start and stop beyond the shutdown flag, and data races finer than the steps given (`m_busy_timer`, `m_link_alive`, `m_controller` read without a lock).
- `SOBuffer::Resize`, which nothing calls and which does not update the stored size.
- `CLIENT::ReceiveData` and the receive buffer; client-list editing and connection set-up.
- Event deserialisation, formatting of events, and the individual GET and SET wrappers.
- `timetrax.cpp`, `pgetopt.c` and `BaseStrTokenize`, which play no part in the running protocol.
