# CPU communication: a model of the UART link and of the command broker

The M-CPU and the V-CPU of a head unit talk over a UART. A daemon owns the M-CPU's end of that line and
shares it out to client processes, which subscribe to commands and match requests with responses. This
project models both halves in Dafny and proves what they promise.

**The link.** A message is cut into regular, extended-length or divided frames; two table-driven state
machines (12 states to send, 19 to receive) carry the frames in a stop-and-wait ENQ / ACK / frame / ACK
handshake with refusals, ENQ collisions, retries and port reopenings; and one mutex is shared by both
machines. The device is a script of replies (a success with its bytes, a timeout or an error) and every
device call is recorded in a log together with the lock operations. The checksum is a parameter: every
theorem holds for every function from byte strings to bytes.

**The broker.** The daemon keeps a table of subscribers and a list of pending requests, each under a mutex
of its own. A step of the model is one locked section or the sending of one message, so a sequence of steps
is an interleaving of the handlers. A client of the second library version is put together with the daemon
over two first-in-first-out channels that may close and come back; the first library version's registry of
listeners is put together with the daemon's table.

| file | contents |
|---|---|
| Wire, Device, Events | bytes, constants, fixed-width fields; the device script and the log; the machines' events |
| Codec | frames of a message: the specification, and the loop that cuts a message up |
| Sender, Receiver | the two machines as functions on values: handlers, transitions, runs, invariants |
| ReceiverLog | why the receiver does what it does, read off its log: every write, denial and ending |
| FrameParser | the receive states from STX to the checksum as a parser of byte strings |
| Reassembly | the loop that puts a received message together |
| Protocol | the object itself: every handler as a method on mutable fields, proved to be the handler of Sender or Receiver; `Send` and `Receive` |
| RoundTrip | codec, parser and reassembly composed |
| Rounds | one enquiry of the handshake to either machine, over a line that loses and damages |
| Exclusion | a sending and a receiving thread interleaved |
| StopAndWait | both machines composed over whole exchanges, several receives one after the other included |
| QuietLine | both machines over a line that loses nothing, for every message |
| Endpoint | the two processors: commands, codebits, what one writes and the other reads |
| Broker, Daemon | the broker as steps; the daemon's handlers as methods proved to be sequences of those steps |
| Client, History | the second client version as an object, and what it is by the events it has taken |
| Server, Agreement | the daemon reading a client's messages; the client, the channels and the daemon as one system |
| Settlement | what becomes of every request, tracked send and command over whole runs |
| Provenance | where the promises, notifications and delivery reports an application sees come from |
| Registry | the first client version's registry of listeners, and its agreement with the daemon |

Run `dafny verify dfyconfig.toml` here.

## What the code does that its comments or callers do not say

The code was followed in each case, and the exact condition is a theorem.

- Messages of 1028 to 1030 bytes are sent undivided, because the sender counts the message (Protocol.cpp:82), but
  read as divided, because the receiver compares the length field, which is five larger (Protocol.cpp:989). They
  are never delivered (`CodecRoundTrip`, `GapMessage`); if their first data bytes read as frame 0 of 1,
  other data is delivered in their place (`WrongDelivery`).
- A divided message arrives with bit 1 of its codebit set, and `CPU::read` compares the whole codebit, so it
  refuses every divided message: endpoints exchange at most 1024 bytes of data (`EndpointDelivery`).
- `recvRetry` forgets the frame but not its kind (Protocol.cpp:1125). After a denied frame with a short length
  byte an extended frame is no longer read as one (`StickyKind`; the exact condition is
  `DeniedAttemptsTransparent`).
- A `recvPoll` that fails reaches `recvEnd`, which unlocks a mutex the thread never locked. Exclusion holds in
  every interleaving exactly if no poll fails (`ExclusionExactly`).
- The receiver does not check the number of a frame against what it already has (Protocol.cpp:1152), so when the
  last acknowledgement of a frame is lost, and the sender repeats the frame, it is stored twice. Lost at the
  last frame, the repetition meets a receiver that has already handed the message out: it throws, or hands out
  the last frame as a message of its own, or hands an undivided message out again. `AnyExchange` says what each
  receive reports under any such losses, and `ArrivesOnce` when the application still gets the message whole and
  once: exactly if none is lost at the last frame and either none is lost at all or the frames from the first
  one lost at on all carry the same full slice.
- A request that is outstanding when its connection closes stays in the client's table, unanswered, until the
  application drops it (`LostForever`); the two request tables agree exactly if there is none
  (`RequestAgreement`).

## Assumptions

- The state machine runs the current state's handler, follows the transition of the event it reports, and also
  runs the final state's handler before it stops.
- A read that fails leaves the byte it should fill as it was.
- Request identifiers are unique, a new connection has a session the daemon knows nothing of, channels between a
  client and the daemon keep their order, and the calls of one client are atomic. Closing a connection empties
  its channels. What a client sends while it is not connected is either all kept for the next connection or
  all lost, and what is kept is sent before or after the subscriptions a resumed connection begins with; the
  theorems hold in each case.

## Model

| member | source | states |
|---|---|---|
| Wire.FieldsRoundTrip | CpuComDaemon/src/vcpu/protocol/Protocol.cpp:92-98 | A number below 2^24 (2^16) written as three (two) bytes is read back as itself; a wider one loses its high bits. |
| Wire.FieldsAreBigEndian | CpuComDaemon/src/vcpu/protocol/Protocol.cpp:92-98 | A field stands for the number its bytes spell, most significant byte first. |
| Wire.MarksAccumulate | CpuComDaemon/src/vcpu/protocol/Protocol.cpp:124-129 | The codebit is marked again in every turn of the loop; marking it repeatedly is marking it once. |
| Wire.MarkBits | CpuComDaemon/src/vcpu/protocol/Protocol.cpp:124-129 | The marks by their bits: bit 1 set in every frame, bit 0 set in the last one and else left as it was, the other six bits untouched. |
| Codec.PrepareFrames | CpuComDaemon/src/vcpu/protocol/Protocol.cpp:65-164 | The frames are exactly those of the specification `Frames`, in all three formats. |
| Codec.Divide | CpuComDaemon/src/vcpu/protocol/Protocol.cpp:106-162 | The loop that consumes the message from the front yields the frames the specification slices out by index; both asserts of the source hold. |
| Codec.CutPiece | CpuComDaemon/src/vcpu/protocol/Protocol.cpp:117-160 | One turn of the loop makes frame i and leaves exactly what follows slice i. |
| Codec.Assemble | CpuComDaemon/src/vcpu/protocol/Protocol.cpp:118-157 | The fields of a divided frame in order: header, marked codebit, 24-bit length, number, total, payload, ETX, checksum. What their bytes are is `DividedFrameIsPiece`. |
| Codec.CountFrames | CpuComDaemon/src/vcpu/protocol/Protocol.cpp:108-111 | The rounded-up quotient; more than one frame. |
| Codec.RegularFrameBytes | CpuComDaemon/src/vcpu/protocol/Protocol.cpp:69-81 | Up to 251 bytes: one frame of 0x02, the length plus two, the message, 0x03 and the checksum of all between the first byte and the last. |
| Codec.ExtendedFrameBytes | CpuComDaemon/src/vcpu/protocol/Protocol.cpp:82-105 | 252 to 1030 bytes: one frame of 0x02, 0xfe, the three header bytes, the length plus five as a three-byte big-endian number, the data, 0x03 and the checksum. |
| Codec.DividedFrameIsPiece | CpuComDaemon/src/vcpu/protocol/Protocol.cpp:118-157 | Every byte of a divided frame: 0x02, 0xfe, command, the codebit by its bits (divided; last or not; addresses as in the message), big-endian length, number and total, 0x03 and the checksum. |
| Codec.Fragmentation | CpuComDaemon/src/vcpu/protocol/Protocol.cpp:106-162 | A message of 1031 bytes or more becomes at least two frames whose payloads joined are the data; all but the last hold 1024 bytes, the last is not empty; in each, byte 4 has bit 1 set and bit 0 set exactly as the message has it or, in the last, always, with the addresses of the message; length, number and total are the big-endian values of their bytes; and none exceeds 1038 bytes. |
| Codec.PayloadsJoin | CpuComDaemon/src/vcpu/protocol/Protocol.cpp:150-159 | The first n frames carry the data up to where slice n starts. |
| Sender.Run | CpuComDaemon/src/vcpu/protocol/Protocol.cpp:295-364 | Every run keeps the frames and reaches the end for every finite script (the function is total). |
| Sender.RunsHalt | CpuComDaemon/src/vcpu/protocol/Protocol.cpp:298-364 | For every script the sender takes at most 6 (length + 240) + 7 steps, counting the NAK and ENQ loops that r2 does not count. |
| Sender.StepDescends | CpuComDaemon/src/vcpu/protocol/Protocol.cpp:597-624 | Every step lowers a measure made of the replies left, the attempts left and the rank of the state. |
| Sender.StepKeepsLocked | CpuComDaemon/src/vcpu/protocol/Protocol.cpp:298-364 | The lock is held on entry to every state but idle and enquiry, and every device call but a reopening is made under it. |
| Sender.StepKeepsOrdered | CpuComDaemon/src/vcpu/protocol/Protocol.cpp:672-754 | The current frame counts the acknowledged ones; what was acknowledged is, in order, the frames before it; every frame written is the current one. |
| Sender.EnquiryKeepsInv | CpuComDaemon/src/vcpu/protocol/Protocol.cpp:597-624 | The same, and the bounds, for the re-enquiry state, whose drain loop may read any number of bytes. |
| Sender.StepKeepsBounded | CpuComDaemon/src/vcpu/protocol/Protocol.cpp:692-719 | r2 stays within 240; frame writes and reopenings are bounded by it. |
| Sender.RunKeepsInv | CpuComDaemon/src/vcpu/protocol/Protocol.cpp:298-364 | From any state that meets the invariants a run ends in a finished one. |
| Sender.SendRun | CpuComDaemon/src/vcpu/protocol/Protocol.cpp:570-578 | Every run: the lock is free at the end and was held at every device call; every frame write was of the frame then current; the result is true if and only if each frame of the message, in order and once, was written and the byte read next was 0x06; that is unless it failed 240 times, where the failures are read off the log (a failed write, an answer to an enquiry that is none of 0x06, 0x15 and 0x05, an answer to a frame that is not 0x06, a failed drain); r2 is their number; an enquiry is written only after silence, a frame only after 0x06 and a NAK only after 0x05 in answer to an enquiry, and nothing else; frame writes are at most n + 239, reopenings exactly min(r2, 239) / 6, so at most 39. |
| Sender.StepAccounted | CpuComDaemon/src/vcpu/protocol/Protocol.cpp:626-732 | Every step keeps it: the counter is the number of failures on the log, and every write has its reason. |
| Sender.SilenceIsNoSuccess | CpuComDaemon/src/vcpu/protocol/Protocol.cpp:626-670 | If no reply begins with 0x06 the result is false, for every script and all frames. |
| Receiver.Absorb | CpuComDaemon/src/vcpu/protocol/Protocol.cpp:773-803 | The parser handlers keep the frames stored before and never leave the range of the frame list. |
| Receiver.RunsHalt | CpuComDaemon/src/vcpu/protocol/Protocol.cpp:398-508 | For every script the receiver takes at most 3 length + 4 steps, counting the repoll loop that r1 does not count. |
| Receiver.StepDescends | CpuComDaemon/src/vcpu/protocol/Protocol.cpp:398-508 | Every step lowers a measure made of the replies left and the rank of the state. |
| Receiver.StepKeepsLocked | CpuComDaemon/src/vcpu/protocol/Protocol.cpp:398-508 | The lock is held on entry to every state but idle and poll, as long as no poll has failed. |
| Receiver.StepKeepsShape | CpuComDaemon/src/vcpu/protocol/Protocol.cpp:890-1181 | The bytes stored in each state have the size and the kind that state expects; `done` never sees an undefined kind. |
| Receiver.RunKeepsInv | CpuComDaemon/src/vcpu/protocol/Protocol.cpp:398-508 | From any state that meets the invariants a run ends in a finished one. |
| Receiver.ReceiveRun | CpuComDaemon/src/vcpu/protocol/Protocol.cpp:515-520 | Every run: r1 is at most 5; the last act is the unlocking; the lock discipline holds if and only if every poll succeeded; a true result comes with frames that reassembly can cut without leaving their range. Why each byte is written is `ReceiverLog.ReceiveAccounts`. |
| ReceiverLog.ReceiveAccounts | CpuComDaemon/src/vcpu/protocol/Protocol.cpp:835-1181 | Every run accounts for itself: each 0x06 written either follows a hearing whose last byte was 0x05 or the bytes of a frame, read since such a grant; each 0x15 follows bytes no frame begins with, a timeout within a frame, or a checksum that could not be read; nothing else is written; r1 counts the 0x15 written and the hearings that ended in a byte neither 0x05 nor 0x15; any other failing call ends the run; and the result is true if and only if r1 is below 5 and the last call was to acknowledge a frame. |
| ReceiverLog.ReportsTheAcknowledged | CpuComDaemon/src/vcpu/protocol/Protocol.cpp:515-568 | `receive` reports no message if and only if five attempts were denied or the last thing done was not to acknowledge a frame. |
| ReceiverLog.RunTracks | CpuComDaemon/src/vcpu/protocol/Protocol.cpp:398-508 | From any state whose log so far accounts for itself, and tracks the bytes of the frame begun, a run ends with one that does. |
| ReceiverLog.PathDenied | CpuComDaemon/src/vcpu/protocol/Protocol.cpp:1122-1136 | Once a parser state denies a byte, no continuation of what was read makes a frame. |
| ReceiverLog.PathEnds | CpuComDaemon/src/vcpu/protocol/Protocol.cpp:1080-1110 | Once the checksum passes, what was read is a frame, no more and no less. |
| ReceiverLog.NoEnquiryNoAnswer | CpuComDaemon/src/vcpu/protocol/Protocol.cpp:835-880 | If no reply begins with 0x05 the receiver writes nothing and reports no message. |
| FrameParser.RunParses | CpuComDaemon/src/vcpu/protocol/Protocol.cpp:428-476 | The machine, run from a parser state over the replies a byte string stands for, does what `Parse` says and goes on to the acknowledgement or the NAK. |
| FrameParser.Acceptance | CpuComDaemon/src/vcpu/protocol/Protocol.cpp:773-1110 | The handlers from stx to cs all pass if and only if the stream starts with STX, a valid length, a body of exactly the announced size, ETX and a matching checksum; then the stored frame is that prefix and the rest is left unread. |
| FrameParser.HeaderAccepted | CpuComDaemon/src/vcpu/protocol/Protocol.cpp:890-1038 | A valid header is read to its end and settles kind, size, number and total. |
| FrameParser.HeaderDenied | CpuComDaemon/src/vcpu/protocol/Protocol.cpp:890-1038 | Any other header is denied, with only the kind and the numbers it settled left behind. |
| FrameParser.LengthFieldIsSize | CpuComDaemon/src/vcpu/protocol/Protocol.cpp:1041-1053 | The announced size is the length field plus two, for extended lengths exactly if the field is large enough not to wrap around. |
| FrameParser.DeniedAttemptsTransparent | CpuComDaemon/src/vcpu/protocol/Protocol.cpp:1122-1136 | A frame valid for a parser with one past is read, whole and as the same kind, by a parser with another, if and only if the frame is regular, or the kind left behind is not regular and classifies the length alike. |
| FrameParser.StickyKind | CpuComDaemon/src/vcpu/protocol/Protocol.cpp:1122-1136 | After a denied frame with a short length byte, an extended frame a fresh parser accepts is not accepted as one. |
| Reassembly.JoinFrames | CpuComDaemon/src/vcpu/protocol/Protocol.cpp:525-547 | The loop over the announced total joins the frames; it leaves the frame list exactly if the total exceeds it, which throws. |
| Reassembly.Extract | CpuComDaemon/src/vcpu/protocol/Protocol.cpp:521-564 | The erasures in place leave the message of the accepted frames, for each of the three kinds. |
| Reassembly.JoinedIsMessage | CpuComDaemon/src/vcpu/protocol/Protocol.cpp:560-562 | Dropping two bytes at each end of the joined frames leaves the message. |
| RoundTrip.CodecRoundTrip | CpuComDaemon/src/vcpu/protocol/Protocol.cpp:65-164 | Sent, parsed and put together, a message of 3 to 1027 bytes is delivered as it is; one of 1031 to 3 + 65535 * 1024 bytes with bit 1 of its codebit set; and no other message is delivered in its full length. |
| RoundTrip.GapMessage | CpuComDaemon/src/vcpu/protocol/Protocol.cpp:989-997 | What comes of 1028 to 1030 bytes, by the number and the total their first data bytes read as: incomplete, an exception, or a shorter message. |
| RoundTrip.RegularDelivered | CpuComDaemon/src/vcpu/protocol/Protocol.cpp:69-81 | Up to 251 bytes: one regular frame, delivered as it is. |
| RoundTrip.ExtendedDelivered | CpuComDaemon/src/vcpu/protocol/Protocol.cpp:82-105 | 252 to 1027 bytes: one extended frame, delivered as it is. |
| RoundTrip.DividedSent | CpuComDaemon/src/vcpu/protocol/Protocol.cpp:515-568 | From 1031 bytes on: delivered with the codebit marked if the frame count fits 16 bits; if it does not, nothing of the full length is delivered. |
| RoundTrip.PieceRead | CpuComDaemon/src/vcpu/protocol/Protocol.cpp:1003-1039 | A parser that holds k pieces reads piece j whole, as divided, with its number and total. |
| RoundTrip.PiecesCollected | CpuComDaemon/src/vcpu/protocol/Protocol.cpp:1138-1164 | From k pieces on, the rest of the frames gives the joined message, by induction over the pieces. |
| Protocol.SendContext.OnFrameCompleted | CpuComDaemon/src/vcpu/protocol/Protocol.cpp:191-195 | Moves to the next frame; the assert holds. |
| Protocol.RecvContext.OnFrameCompleted | CpuComDaemon/src/vcpu/protocol/Protocol.cpp:240-245 | Adds an empty frame and makes it current; the assert holds. |
| Protocol.Protocol.SendIdle | CpuComDaemon/src/vcpu/protocol/Protocol.cpp:584-588 | Resets r2; the new state is that of `Sender.Handle` in idle. |
| Protocol.Protocol.SendEnquiry | CpuComDaemon/src/vcpu/protocol/Protocol.cpp:590-595 | Locks; the new state is that of `Sender.Handle` in enquiry. |
| Protocol.Protocol.SendReenquiry | CpuComDaemon/src/vcpu/protocol/Protocol.cpp:597-624 | Drains the device with a loop, then writes ENQ: exactly `Sender.Handle`, for every script. |
| Protocol.Protocol.SendAcknowledgement | CpuComDaemon/src/vcpu/protocol/Protocol.cpp:626-670 | Reads one byte and reports one of five events: exactly `Sender.Handle` in ack and ack2. |
| Protocol.Protocol.SendFrame | CpuComDaemon/src/vcpu/protocol/Protocol.cpp:672-688 | Writes the current frame: exactly `Sender.Handle` in frame. |
| Protocol.Protocol.SendRetry | CpuComDaemon/src/vcpu/protocol/Protocol.cpp:692-719 | Counts, unlocks and reopens every sixth time below 240, else fails: exactly `Sender.Handle` in retry. |
| Protocol.Protocol.SendNak | CpuComDaemon/src/vcpu/protocol/Protocol.cpp:721-732 | Writes NAK: exactly `Sender.Handle` in nak. |
| Protocol.Protocol.SendWait | CpuComDaemon/src/vcpu/protocol/Protocol.cpp:734-741 | Unlocks: exactly `Sender.Handle` in wait. |
| Protocol.Protocol.SendDone | CpuComDaemon/src/vcpu/protocol/Protocol.cpp:743-754 | Next frame or success: exactly `Sender.Handle` in done. |
| Protocol.Protocol.SendError | CpuComDaemon/src/vcpu/protocol/Protocol.cpp:756-764 | Clears the result: exactly `Sender.Handle` in error. |
| Protocol.Protocol.SendEnd | CpuComDaemon/src/vcpu/protocol/Protocol.cpp:766-771 | Unlocks: exactly `Sender.Handle` in end. |
| Protocol.Protocol.SendStep | CpuComDaemon/src/vcpu/protocol/Protocol.cpp:278-293 | Dispatches a state to its handler: the new state and event are those of `Sender.Handle`. |
| Protocol.Protocol.Send | CpuComDaemon/src/vcpu/protocol/Protocol.cpp:570-578 | The result, r2 and the whole device log are those of `Sender.Run` on the prepared frames, whatever r2 was before. |
| Protocol.Protocol.RecvIdle | CpuComDaemon/src/vcpu/protocol/Protocol.cpp:805-809 | Resets r1: exactly `Receiver.Handle` in idle. |
| Protocol.Protocol.RecvPoll | CpuComDaemon/src/vcpu/protocol/Protocol.cpp:811-826 | Polls and locks on success only: exactly `Receiver.Handle` in poll. |
| Protocol.Protocol.RecvRepoll | CpuComDaemon/src/vcpu/protocol/Protocol.cpp:828-833 | Unlocks: exactly `Receiver.Handle` in repoll. |
| Protocol.Protocol.RecvEnquiry | CpuComDaemon/src/vcpu/protocol/Protocol.cpp:835-880 | The read loop reports the last byte heard before the timeout: exactly `Receiver.Handle` in enquiry, for every script. |
| Protocol.Protocol.RecvAcknowledgement | CpuComDaemon/src/vcpu/protocol/Protocol.cpp:882-888 | Writes ACK: exactly `Receiver.Handle` in ack and ack2. |
| Protocol.Protocol.RecvNak | CpuComDaemon/src/vcpu/protocol/Protocol.cpp:1114-1120 | Writes NAK: exactly `Receiver.Handle` in nak. |
| Protocol.Protocol.RecvRetry | CpuComDaemon/src/vcpu/protocol/Protocol.cpp:1122-1136 | Counts and clears the frame, not the kind: exactly `Receiver.Handle` in retry. |
| Protocol.Protocol.RecvControlCode | CpuComDaemon/src/vcpu/protocol/Protocol.cpp:773-803 | One byte that must be STX or ETX: exactly `Receiver.Handle` in stx and etx. |
| Protocol.Protocol.RecvLength | CpuComDaemon/src/vcpu/protocol/Protocol.cpp:890-928 | Length byte or marker: exactly `Receiver.Handle` in len. |
| Protocol.Protocol.ReadField | CpuComDaemon/src/vcpu/protocol/Protocol.cpp:933-936 | Grows the frame and fills it from the device, keeping what was there. |
| Protocol.Protocol.RecvDataCommand | CpuComDaemon/src/vcpu/protocol/Protocol.cpp:930-955 | Three header bytes: exactly `Receiver.Handle` in datacmd. |
| Protocol.Protocol.RecvDataExtLen | CpuComDaemon/src/vcpu/protocol/Protocol.cpp:957-1001 | 24-bit length and classification, with 32-bit wrap-around: exactly `Receiver.Handle` in dataextlen. |
| Protocol.Protocol.RecvDataFrameNumber | CpuComDaemon/src/vcpu/protocol/Protocol.cpp:1003-1039 | 16-bit number and total of a divided frame: exactly `Receiver.Handle` in dataframenumber. |
| Protocol.Protocol.RecvData | CpuComDaemon/src/vcpu/protocol/Protocol.cpp:1041-1078 | Body of the size left, with 32-bit wrap-around: exactly `Receiver.Handle` in data. |
| Protocol.Protocol.RecvChecksum | CpuComDaemon/src/vcpu/protocol/Protocol.cpp:1080-1110 | Checksum over all but the first byte: exactly `Receiver.Handle` in cs. |
| Protocol.Protocol.RecvDone | CpuComDaemon/src/vcpu/protocol/Protocol.cpp:1138-1181 | Result or next frame; exactly `Receiver.Handle` in done. |
| Protocol.Protocol.RecvError | CpuComDaemon/src/vcpu/protocol/Protocol.cpp:1183-1188 | Clears the result: exactly `Receiver.Handle` in error. |
| Protocol.Protocol.RecvEnd | CpuComDaemon/src/vcpu/protocol/Protocol.cpp:1190-1195 | Unlocks: exactly `Receiver.Handle` in end. |
| Protocol.Protocol.RecvStep | CpuComDaemon/src/vcpu/protocol/Protocol.cpp:366-393 | Dispatches a state to its handler: the new state and event are those of `Receiver.Handle`. |
| Protocol.Protocol.Receive | CpuComDaemon/src/vcpu/protocol/Protocol.cpp:515-568 | The message or its absence, r1 and the whole device log are those of `Receiver.Run` followed by reassembly. |
| Exclusion.DisciplineExcludes | CpuComDaemon/src/vcpu/protocol/Protocol.cpp:590-624 | In any interleaving a mutex allows of two threads that each keep the lock discipline, every device call is made by the thread that holds the lock. |
| Exclusion.MutualExclusion | CpuComDaemon/src/vcpu/protocol/Protocol.cpp:766-833 | Any number of sends on one thread and of receives on another, interleaved in any way the mutex allows, with no poll failing: every device read and write is made by the thread holding the lock. Only reopening is outside it. |
| Exclusion.FailedPollBreaksIn | CpuComDaemon/src/vcpu/protocol/Protocol.cpp:811-826 | If a poll of any receive fails, and something is sent, there is an interleaving in which exclusion is broken. |
| Exclusion.ExclusionExactly | CpuComDaemon/src/vcpu/protocol/Protocol.cpp:1190-1195 | For any messages sent, at least one, and any receives: all interleavings are exclusive if and only if no poll fails. |
| Rounds.SendRound | CpuComDaemon/src/vcpu/protocol/Protocol.cpp:597-754 | One round of the sender: its writes, the retries it costs and the frame it moves to. |
| Rounds.RecvRound | CpuComDaemon/src/vcpu/protocol/Protocol.cpp:811-1181 | One round of the receiver: its writes, the denials it costs, the context it is left with and whether the receive goes on. |
| Rounds.AnswerByByte | CpuComDaemon/src/vcpu/protocol/Protocol.cpp:626-670 | What the sender makes of a reply, by its byte; silence denies. |
| Rounds.EnquiredByByte | CpuComDaemon/src/vcpu/protocol/Protocol.cpp:835-880 | What the receiver makes of the bytes it wakes up over, by the last of them. |
| Rounds.RecvUnreadable | CpuComDaemon/src/vcpu/protocol/Protocol.cpp:1080-1110 | A well-formed frame whose checksum cannot be read is denied with a NAK and counted, and the receiver polls again. |
| FrameParser.RunUnreadable | CpuComDaemon/src/vcpu/protocol/Protocol.cpp:462-476 | From any parser state, bytes that would be accepted lead to the NAK when the device fails at the checksum. |
| Rounds.RoundCloses | CpuComDaemon/src/vcpu/protocol/Protocol.cpp:597-688 | Every ACK the sender reads in a round the receiver wrote in it, two exactly if the frame is delivered; the receiver acknowledges only an enquiry that was written, the frame goes out only after an ACK, and the frame taken is the last thing the sender wrote. |
| StopAndWait.AnyExchange | CpuComDaemon/src/vcpu/protocol/Protocol.cpp:298-508 | Over every exchange, with ENQs, ACKs, NAKs, frames and last acknowledgements lost and frames damaged, within 240 retries and 5 denials of each receive: `send` returns true, and the receives, one after the other, report what `Harvest` says of the rounds, with their counters and writes; every round closes. |
| StopAndWait.HarvestIs | CpuComDaemon/src/vcpu/protocol/Protocol.cpp:1138-1181 | The first receive of an exchange has the frames kept, in the order of their arrival; each loss of the last acknowledgement of the last frame makes one more receive, which has nothing but that frame. |
| StopAndWait.TakesLast | CpuComDaemon/src/vcpu/protocol/Protocol.cpp:515-568 | What a receive reports when the last frame arrives: the frames it holds joined, as many as the message has; without the first frame, an exception or the last frame as a message of its own, by its size. |
| StopAndWait.TakesMore | CpuComDaemon/src/vcpu/protocol/Protocol.cpp:1157-1164 | A frame that others follow is stored behind those held, whether or not it is among them. |
| StopAndWait.ArrivesOnce | CpuComDaemon/src/vcpu/protocol/Protocol.cpp:1152-1164 | The receives report the message, whole and once, if and only if no last acknowledgement is lost, or none at the last frame and all frames from the first one lost at on carry the same full slice. |
| StopAndWait.FirstIsWhole | CpuComDaemon/src/vcpu/protocol/Protocol.cpp:1152-1164 | The first receive reports the message if and only if none is lost before the last frame, or the frames from there on are alike. |
| StopAndWait.DoubledIsWhole | CpuComDaemon/src/vcpu/protocol/Protocol.cpp:525-547 | Joining frames of which one was kept twice gives the message if and only if the slices from that one on are full and equal. |
| StopAndWait.StopAndWait | CpuComDaemon/src/vcpu/protocol/Protocol.cpp:298-508 | If no last acknowledgement is lost, with fewer than 240 retries and 5 denials in all: `send` returns true, one `receive` returns the message of the round trip, and the counters and writes of both are those of the rounds. |
| StopAndWait.RecvAll | CpuComDaemon/src/vcpu/protocol/Protocol.cpp:811-1181 | From the middle of a receive to the end of the exchange, across the receives that follow. |
| StopAndWait.DamageIsHarmless | CpuComDaemon/src/vcpu/protocol/Protocol.cpp:1080-1110 | A frame damaged outside its length field, or rubbish, is denied by every receiver that waits for the frame, and leaves it as ready as before. |
| StopAndWait.QuietExchange | CpuComDaemon/src/vcpu/protocol/Protocol.cpp:298-508 | The line that loses nothing is such an exchange and costs no attempt, so the assumptions of `StopAndWait` are met for every message it covers. |
| QuietLine.QuietDelivery | CpuComDaemon/src/vcpu/protocol/Protocol.cpp:298-568 | For every message of three bytes or more, deliverable or not: on a quiet line `send` returns true and `receive` reports what `RoundTrip.Sent` says its frames make. |
| QuietLine.CollectsAll | CpuComDaemon/src/vcpu/protocol/Protocol.cpp:811-1181 | The receive machine over the frames of a quiet line does what parsing and collecting them does. |
| Endpoint.CodebitsMatch | CpuComDaemon/src/vcpu/CPUCommon.cpp:40-57 | What one side sends is what the other expects, the two directions differ, and neither has a division flag. |
| Endpoint.CodebitFields | CpuComDaemon/src/vcpu/CPUCommon.cpp:36-57 | For every address below 8: the top three bits name the sender, the next three the receiver, the last two are clear; sending, that is the own address and the given one, and receiving the other way round. |
| Endpoint.CodebitValues | CpuComDaemon/src/vcpu/CPUCommon.cpp:36-57 | The values themselves: 0x44 is sent to address 1 and 0x28 expected from it; the other way round for address 2. |
| Endpoint.FramesCarry | CpuComDaemon/src/vcpu/CPU.cpp:45-48 | Every frame of a packed message has the command in bytes 2 and 3 and the addresses in byte 4; in an undivided message byte 4 is the codebit. |
| Endpoint.Pack | CpuComDaemon/src/vcpu/CPUCommon.cpp:14-24 | Command, codebit, data. |
| Endpoint.CPU.constructor | CpuComDaemon/src/vcpu/CPU.cpp:20-25 | The two codebits follow from the address: their sender, receiver and division bits are as `CodebitFields` says. |
| Endpoint.CPU.Write | CpuComDaemon/src/vcpu/CPU.cpp:45-48 | The result and the device log are those of sending command, codebit and data as one message; the result is true exactly if all its frames were acknowledged; and every frame written has the command in bytes 2 and 3 and sender and receiver of the codebit in byte 4. |
| Endpoint.CPU.Read | CpuComDaemon/src/vcpu/CPU.cpp:29-43 | What is received is unpacked and given out exactly if its codebit is the expected one. |
| Endpoint.AcceptedExactly | CpuComDaemon/src/vcpu/CPU.cpp:29-43 | A command and data are read exactly if what was received is them, packed with the expected codebit. |
| Endpoint.EndpointDelivery | CpuComDaemon/src/vcpu/CPU.cpp:29-48 | Over a quiet line the write succeeds and the peer, running the receive machine, reads the command and data that were written if and only if the data has at most 1024 bytes; from 1028 bytes on it reads no value. |
| Endpoint.WrongDelivery | CpuComDaemon/src/vcpu/CPU.cpp:29-43 | Between 1025 and 1027 bytes that begin with 0, 0, 0, 1 the peer reads the data without its first four and last two bytes. |
| Endpoint.EndpointDeliveryOverLine | CpuComDaemon/src/vcpu/CPU.cpp:29-48 | The same over a lossy line within the attempts of both sides: the write succeeds and the peer reads command and data. |
| Broker.TableIsHistory | CpuComDaemon/src/CpuComDaemon.cpp:148-196 | A session is in the subscriber set of a command if and only if its latest subscribe, unsubscribe or disconnect about it was a subscribe. |
| Broker.NotifiedExactlyOnce | CpuComDaemon/src/CpuComDaemon.cpp:113-123 | In every history, the notifications sent to a session, plus the one it is still owed, are as many as the snapshots that found it subscribed. |
| Broker.AccountIsComplete | CpuComDaemon/src/CpuComDaemon.cpp:204-206 | The account lists the registered requests in order, none missing. |
| Broker.PendingIsOpen | CpuComDaemon/src/CpuComDaemon.cpp:125-222 | Conservation and order: the pending list is exactly the registered requests neither answered, cancelled nor dropped, in order of registration, however the locked sections interleave. |
| Broker.FateIsFinal | CpuComDaemon/src/CpuComDaemon.cpp:125-222 | A request once answered, cancelled or dropped stays so. |
| Broker.NoOvertaking | CpuComDaemon/src/CpuComDaemon.cpp:128-138 | No request is answered while an earlier one for the same command is open. |
| Broker.AnsweredExactlyOnce | CpuComDaemon/src/CpuComDaemon.cpp:139-143 | A request has been sent one response, or has it about to be sent, if its fate is answered, and none otherwise. |
| Broker.ResponsesAreJustified | CpuComDaemon/src/CpuComDaemon.cpp:128-143 | Every response goes to the session that registered the request and carries data received with the command the request waits for. |
| Broker.CarriesAlways | CpuComDaemon/src/CpuComDaemon.cpp:113-143 | What the V-CPU thread holds between its sections was heard, and the request it answers is an answered one of the account. |
| Broker.BookedIsOpen | CpuComDaemon/src/CpuComDaemon.cpp:125-222 | One step on the list does what the same step does in the account. |
| Broker.Continues | CpuComDaemon/src/CpuComDaemon.cpp:110-232 | The steps of a handler, run from the state a history leaves, continue the history. |
| Broker.RemovesFirst | CpuComDaemon/src/CpuComDaemon.cpp:212-222 | It is the first request with the id that goes, and the order of the rest is kept. |
| Daemon.Daemon.OnSubscribe | CpuComDaemon/src/CpuComDaemon.cpp:178-186 | The new tables are those of the Subscribe step. |
| Daemon.Daemon.OnUnsubscribe | CpuComDaemon/src/CpuComDaemon.cpp:188-196 | The new tables are those of the Unsubscribe step. |
| Daemon.Daemon.OnRequest | CpuComDaemon/src/CpuComDaemon.cpp:198-210 | The new tables are those of the Register step; the command is written to the V-CPU. |
| Daemon.Daemon.OnCancelRequest | CpuComDaemon/src/CpuComDaemon.cpp:212-222 | The search and erasure are the Cancel step. |
| Daemon.Daemon.OnClientDisconnected | CpuComDaemon/src/CpuComDaemon.cpp:148-166 | The two sections, one after the other, are the two Forget steps. |
| Daemon.Daemon.ForgetSubscriber | CpuComDaemon/src/CpuComDaemon.cpp:151-155 | The loop over the table takes the session out of every set and touches nothing else. |
| Daemon.Daemon.ForgetPending | CpuComDaemon/src/CpuComDaemon.cpp:158-164 | Exactly the requests of the session go; the rest keep their order. |
| Daemon.Daemon.OnReceiveCommand | CpuComDaemon/src/CpuComDaemon.cpp:110-144 | Each subscriber at the start is notified once, in some order, then the oldest request for the command is taken out and answered; the whole is a sequence of broker steps. |
| Daemon.Daemon.CopySubscribers | CpuComDaemon/src/CpuComDaemon.cpp:115-117 | The subscribers of the command; reading creates the entry. |
| Daemon.Daemon.NotifyEach | CpuComDaemon/src/CpuComDaemon.cpp:120-123 | Each session of the set gets one notification. |
| Daemon.Daemon.TakeRequest | CpuComDaemon/src/CpuComDaemon.cpp:128-137 | The oldest request for the command is taken out; the rest keep their order. |
| Daemon.Daemon.OnSendCommand | CpuComDaemon/src/CpuComDaemon.cpp:168-176 | A command the V-CPU does not take is reported to its sender, and only then. |
| Daemon.Daemon.OnSendCommandWithDeliveryStatus | CpuComDaemon/src/CpuComDaemon.cpp:224-232 | The outcome is reported in either case. |
| Daemon.NotifyAll | CpuComDaemon/src/CpuComDaemon.cpp:110-144 | What a snapshot, all notifications, the taking and the response come to, for every order. |
| Server.Serve | CpuComDaemon/src/CpuComDaemon.cpp:168-232 | Each message of a client is handed to its handler: the tables, the messages sent and the commands written are those of its step. |
| Client.CpuCom.SendCommand | libCpuCom/src/CpuComImpl_v2.cpp:133-137 | Sends the command; no table changes. |
| Client.CpuCom.SendWithStatus | libCpuCom/src/CpuComImpl_v2.cpp:139-152 | Records the callback under its identifier, unless there is one, and sends. |
| Client.CpuCom.MakeRequest | libCpuCom/src/CpuComImpl_v2.cpp:154-178 | Records the request, then sends it. |
| Client.CpuCom.CancelRequest | libCpuCom/src/CpuComImpl_v2.cpp:73-84 | Sends a cancellation exactly if the request was still waiting. |
| Client.CpuCom.Subscribe | libCpuCom/src/CpuComImpl_v2.cpp:180-189 | The first callback of a command is recorded and the daemon told; a second one is ignored. |
| Client.CpuCom.Unsubscribe | libCpuCom/src/CpuComImpl_v2.cpp:198-205 | Forgets the callback; the daemon is told in any case. |
| Client.CpuCom.OnNotification | libCpuCom/src/CpuComImpl_v2.cpp:214-228 | Calls the callback of the command, if there is one and it is not empty. |
| Client.CpuCom.OnSendCommandResult | libCpuCom/src/CpuComImpl_v2.cpp:230-236 | Calls the error callback, if there is one. |
| Client.CpuCom.OnRequestResponse | libCpuCom/src/CpuComImpl_v2.cpp:238-252 | Sets the promise exactly if the request is waiting, and forgets it. |
| Client.CpuCom.OnDeliveryStatus | libCpuCom/src/CpuComImpl_v2.cpp:254-268 | Calls the callback if there is one and it is not empty, and forgets it; the lookup leaves no entry behind. |
| Client.CpuCom.TakeAll | libCpuCom/src/CpuComImpl_v2.cpp:133-268 | Driven by any series of calls and messages, the client ends with the tables, messages and effects of `Acts`. |
| Client.CpuCom.OnConnectionResumed | libCpuCom/src/CpuComImpl_v2.cpp:111-116 | Subscribes again to each command with a callback, once. |
| Client.CpuCom.Close | libCpuCom/src/CpuComImpl_v2.cpp:88-97 | Each request still waiting gets an empty answer, once. |
| History.ClientIsItsHistory | libCpuCom/src/CpuComImpl_v2.cpp:73-268 | After any events a client is what its history says, with no tables at all: a request waits exactly if it was asked for and neither given up nor answered since, a callback is the first given since there was none, and all it has sent and shown follows. |
| History.RequestTraced | libCpuCom/src/CpuComImpl_v2.cpp:73-178 | With fresh ids a request asked for is exactly one of waiting, given up while it waited, and answered. |
| History.RequestSettled | libCpuCom/src/CpuComImpl_v2.cpp:238-252 | It is answered exactly if its promise was set, with the data of the answer that found it waiting. |
| History.SendTraced | libCpuCom/src/CpuComImpl_v2.cpp:139-152 | A tracked send is exactly one of due, with the callback given for it, and reported. |
| History.SendSettled | libCpuCom/src/CpuComImpl_v2.cpp:254-268 | It is reported exactly if that callback, where it is not empty, was called with the flag of the report. |
| Agreement.RequestAgreement | libCpuCom/src/CpuComImpl_v2.cpp:73-178 | Over every run of one client, both channels, the daemon and other sessions, with crossing cancels and responses and reconnections: whenever nothing is on its way, the requests the client waits for are the daemon's for its session and some of earlier connections; the two tables agree if and only if none of those is left. |
| Agreement.RequestAgreementConnected | libCpuCom/src/CpuComImpl_v2.cpp:73-178 | Over one connection, whenever nothing is on its way, the requests the client waits for are exactly those the daemon holds for its session. |
| Agreement.EventsFireOnce | libCpuCom/src/CpuComImpl_v2.cpp:238-268 | Whatever a client is told, in whatever order, no promise is set and no delivery callback is called twice, as long as the ids it draws are fresh. |
| Agreement.SubscriptionAgreement | libCpuCom/src/CpuComImpl_v2.cpp:111-212 | After any subscribing, unsubscribing, closing and resuming: whenever the daemon has read what the client sent, it holds for the session exactly the commands the client has a callback for. |
| Agreement.FiresOnce | libCpuCom/src/CpuComImpl_v2.cpp:88-268 | No promise is set twice, closing the client included, and no delivery callback is called twice. |
| Agreement.DeliveryAgreement | libCpuCom/src/CpuComImpl_v2.cpp:139-268 | Whenever nothing is on its way, every tracked send of the connection has been reported. |
| Agreement.LostForever | libCpuCom/src/CpuComImpl_v2.cpp:104-116 | A request that waits while its connection closes is never answered, whatever happens, until the application drops it. |
| Agreement.DisconnectLoses | libCpuCom/src/CpuComImpl_v2.cpp:104-109 | Every request that waits when the connection closes is such a request. |
| Settlement.RequestsSettle | libCpuCom/src/CpuComImpl_v2.cpp:73-252 | Over every legal run, every id drawn for a request is exactly one of: in the table, given up by dropping its response while it waited, and answered; and it is answered with some data exactly if its promise is set with them. |
| Settlement.SendsSettle | libCpuCom/src/CpuComImpl_v2.cpp:139-268 | Over every legal run, every tracked send is exactly one of due and reported, and it is reported with a flag exactly if the callback given for it, unless empty, is called with that flag. |
| Settlement.NobodyForgotten | libCpuCom/src/CpuComImpl_v2.cpp:73-268 | Over one connection, whenever nothing is on its way, the requests neither given up nor answered are those the daemon holds, and no tracked send is unreported. |
| Settlement.RunIsHistory | libCpuCom/src/CpuComImpl_v2.cpp:73-268 | The client of a run is what the events it took in the run make of it. |
| Settlement.DeliverShows | libCpuCom/src/CpuComImpl_v2.cpp:214-268 | One delivery: an answer sets the promise that waits for it, a notification calls the recorded callback with its command and data, a report calls the recorded callback with its flag, a failed send calls the error callback; nothing else is shown. |
| Settlement.ServeTells | CpuComDaemon/src/CpuComDaemon.cpp:168-232 | The daemon tells a client of a plain send only that it failed, and of a tracked send the outcome in either case. |
| Settlement.WrittenInOrder | libCpuCom/src/CpuComImpl_v2.cpp:133-178 | Over one connection the commands written to the V-CPU for a client, with those on their way, are the commands its application called for: all of them, with their data, in order and once. |
| Settlement.WrittenOnce | libCpuCom/src/CpuComImpl_v2.cpp:133-178 | Across reconnections they are a subsequence of those: some may be lost, none is repeated, reordered or made up. |
| Settlement.MoveOutgoing | libCpuCom/src/CpuComImpl_v2.cpp:133-178 | Each move adds what it wants written, or nothing, and closing the connection takes back what was not yet read. |
| Provenance.EffectsHaveCauses | libCpuCom/src/CpuComImpl_v2.cpp:214-268 | Over every run: a promise is set only with data the V-CPU sent with the command its request named; a callback given for a command is called only with that command and data the V-CPU sent; a delivery callback is the one given for that send and is told what came of the write; the error callback hears only of a command that was sent and not taken. |
| Provenance.StepKnown | CpuComDaemon/src/CpuComDaemon.cpp:110-144 | A step of the daemon passes on only what it was given: the data of the command that came in, the request a session made. |
| Agreement.MoveKeeps | CpuComDaemon/src/CpuComDaemon.cpp:110-232 | Every move of the client, the channels and the daemon keeps the invariants that tie the tables to what is in flight. |
| Agreement.ServeKeeps | CpuComDaemon/src/CpuComDaemon.cpp:178-222 | The daemon reading a message keeps them. |
| Agreement.WorkKeeps | CpuComDaemon/src/CpuComDaemon.cpp:110-166 | A step of the V-CPU thread or of another session keeps them. |
| Agreement.CallKeeps | libCpuCom/src/CpuComImpl_v2.cpp:139-205 | A call of the application keeps them. |
| Agreement.DeliverKeeps | libCpuCom/src/CpuComImpl_v2.cpp:214-268 | The client reading a message keeps them. |
| Registry.CpuComImpl.Subscribe | libCpuCom/src/impl_CpuComImpl.h:106-136 | The first listener of a command makes a list and, if the socket is valid, a message; a later one joins the list. |
| Registry.CpuComImpl.Unsubscribe | libCpuCom/src/impl_CpuComImpl.h:145-180 | The first occurrence goes; an empty list goes too, with a message if the socket is valid. |
| Registry.CpuComImpl.SubscribeAll | libCpuCom/src/impl_CpuComImpl.h:138-143 | The loop is the calls one after the other. |
| Registry.CpuComImpl.UnsubscribeAll | libCpuCom/src/impl_CpuComImpl.h:182-187 | The loop is the calls one after the other. |
| Registry.CpuComImpl.OnNotification | libCpuCom/src/impl_CpuComImpl.h:208-224 | Each listener in the list is called in order, once for each time it is in it. |
| Registry.ListsAreCounts | libCpuCom/src/impl_CpuComImpl.h:106-180 | After any calls no list is empty, and a list holds each listener as often as it joined less the times it effectively left. |
| Registry.ChangeList | libCpuCom/src/impl_CpuComImpl.h:106-180 | A call changes only the list of its command: a listener joins at the end. |
| Registry.WithoutFirst | libCpuCom/src/impl_CpuComImpl.h:153-156 | Leaving takes out the first occurrence and keeps the order of the rest. |
| Registry.JoiningAll | libCpuCom/src/impl_CpuComImpl.h:138-143 | Joining many commands without listeners subscribes to each, in the order given. |
| Registry.LeavingAll | libCpuCom/src/impl_CpuComImpl.h:182-187 | Leaving them all again removes their lists and unsubscribes from each, in the order given. |
| Registry.WireAlternates | libCpuCom/src/impl_CpuComImpl.h:106-180 | The messages about a command strictly alternate, beginning with a subscription, and their number is odd exactly while the command has listeners. |
| Registry.ListenedIsCounted | libCpuCom/src/impl_CpuComImpl.h:150-161 | A command has a list exactly while some listener's counter is not zero. |
| Registry.RegistryAgreement | CpuComDaemon/src/CpuComDaemon.cpp:178-196 | Once the daemon has read what the process sent about a command, among anything else, the session is subscribed if and only if the command has a listener. |

## Left out

- Codec.PrepareFrames: messages of 2^32 bytes and more, where the source's 32-bit counters would wrap, because no caller can hold one.
- Protocol.Protocol.Send: the same limit; that the message has more than two bytes is the source's own assertion.
- Endpoint.CPU.Write: the same limit.
- Endpoint.CPU.Read: unpacking a message shorter than three bytes is undefined behaviour in the source; the model says `Undefined` and nothing more.
- StopAndWait.AnyExchange: damage is assumed to spare the length field of a frame and to be caught by the checksum; `StickyKind` shows what a damaged length can do. A NAK or an enquiry the sender reads where the receiver wrote none is line noise.
- Exclusion.MutualExclusion: the reopening of the port in `sendRetry` is outside the lock in the source and excluded here.
- Registry.RegistryAgreement: the socket is assumed valid throughout and the session not closed; the first library version never reconnects.
- Agreement.RequestAgreement: the first version of the library has no requests and is not part of it; the second library version's lists of commands are single calls repeated.
- The contents of a frame after a field that could not be read in full are zeros in the model; the frame is cleared or given up before anyone looks at them.
- The handler a client gives for a closed connection only passes the event on.
- The order in which sets and maps are iterated is left open, so every theorem holds for any order.
- Sleeps and timeouts in milliseconds: a timeout is a reply of the device.
- Opening, closing and configuring real devices, sockets and polling; closing and opening again for a reinitialisation is one entry in the log.
- `common::Messenger`, `Message::Parser`, `ThreadPool`, `UUID`, `checksum` and `StateMachine.h` are not part of this model; what is assumed of them is listed above.
- MultipleCPU.cpp: the same code as CPU.cpp with one Protocol for each direction, so the lock is never contended.
- Starting and stopping the daemon, its periodic executor, and its messages to the log.
- The Java service and its JNI glue, the V-CPU emulator and the applications: no state of their own beyond lists.
