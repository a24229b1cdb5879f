# A serial tunnel, modelled and verified

The repository connects a Windows host and an ESP32 over one lossy serial link.
A Go daemon and a C firmware multiplex eight logical channels over it; TCP
streams, encrypted management calls, configuration changes and firmware updates
all ride on those channels. This project models that machinery and proves what
it promises. `dafny verify dfyconfig.toml` checks everything.

| file | what it holds |
|---|---|
| Frames, FrameCodec, FrameReader | frame layout, COBS on both ends, the readers that find frames in a damaged stream |
| LinkHistory, LinkHost, LinkDevice, LinkSystem, LinkSafety | the reliable protocol as a step system: host, device and a medium that loses, repeats and reorders; its invariant and theorems |
| LinkNumbers, LinkOrder | the host's mapping from number to frame in every run; from the device's transmit queue to the channel |
| LinkReturn, LinkLoss | where exactly-once delivery ends, in each direction |
| LinkRounds, LinkCode | what send does to a list of events, written out round by round; the link's code on both ends over its own variables, proved to be those steps |
| LinkLive | what can still succeed after everything under way was lost |
| WriterSchedule | the host's frame writer and the device's lane cursor: fairness and wake-ups |
| StreamSlot, StreamOrder, StreamInv, StreamSafety | one stream slot through all its users: every task of the device, the host's Conns, the two queues between them |
| StreamProgress, StreamService, StreamLimits | how a slot gets on from every state and serves its next user; where the guarantees of StreamSafety end |
| StreamCode | the stream code on both ends over its own variables |
| Srp, Protobuf, SecureDevice, SecureClient, SecureSession | the pairing arithmetic, its message codec, the device's half of the pairing, the client, and a session over a hostile network |
| DeviceConfig, ConfigTransaction, ConfigCode | the device's configuration transaction over calls, ticks and power losses |
| Ota, OtaUpload | firmware updates on the device, and the host's upload loop against it |
| Admission, RequestConnections | the gateway's admission and a request's tunnels |
| ConfigLease, ConfigSystem | the lease that a configuration change holds, and that lease with the device's transaction as one system |
| UsageObserver, UsageEvents, UsageCode | the bounded observer of token usage; the event streams a provider writes, byte by byte; the observer's code |
| RequestRing | the ring of one-second buckets |
| Pagination | lists fetched page by page from a device that changes meanwhile |

How it is built. A protocol is a datatype state, a datatype of steps and a
function from one to the next, every step being one stretch of code between two
points where another goroutine or task can run; theorems speak about every run.
Fields that only record what happened are marked as history. Where the source
changes variables in place, a class has those variables and each method is
proved to be the corresponding step or specification function, so that the
theorems about runs are theorems about the code's transitions. Failures of
drivers, the network and flash, and the outcomes of waits, are arguments.

Assumptions: a frame whose CRC fails is lost, and the CRC is otherwise a
parameter; SHA-512, SHA-256 and AES-GCM are parameters (in SecureSession the
cipher is ideal); allocation succeeds; Go atomics and the device's mutexes are
sequentially consistent; a commit of the flash store is atomic.

## Where the code does less than its documentation says

- **A repeated HELLO of an earlier session.** docs/implementation/protocol.md:9
  says the device resets on a new session. The code compares with the current
  session only (firmware/main/link.c:392-396), so a late HELLO takes the device
  back to an old session with its counters at one. Exactly-once delivery is
  proved for every run without a return to a session that has left a trace:
  frames taken or transmitted, or one about to be transmitted
  (LinkSafety.ExactlyOnceDelivery). The condition is exact: whenever such a
  return is possible some run breaks delivery (LinkReturn.ReturningBreaksDelivery),
  by delivering a frame twice towards the device, or by putting two frames under
  one number towards the host (LinkLoss.ReturnRenumbers). If the host's link of
  that session is still open and has taken frames on the channel, some run loses
  a frame that the device counts as delivered (LinkLoss.ReturnLosesFrames).
  LinkReturn.ReturnsHappen gives a run that reaches such a return.
- **An ERROR can reach the next user of a slot.** The reply to an OPEN that
  finds the connect queue full is sent outside the guard that orders the other
  messages (firmware/main/network.c:353-358). It crosses users only if that
  user's CLOSE was queued before it; StreamSlot marks exactly that reply as
  Overtaken (StreamSafety.OvertakenExactly), and isolation is proved for every
  other message, all other ERRORs included. From every state in which the queue
  was found full some run hands the reply to the next user
  (StreamLimits.QueueFullReplyCanCross); StreamLimits.ErrorReachesNextUser is one.
- **A late Write can reach the next user's socket.** Write's context is
  cancelled by another goroutine (internal/link/conn.go:178-203), so a Write may
  take the channel after its own Conn's CLOSE barrier is over. Routing is proved
  for runs in which no Write is queued while another Conn is open
  (StreamSafety.WrittenToItsSocket); from every state in which a user's socket
  is open and the tasks are at rest such a Write goes into that socket
  (StreamLimits.Misroutes); StreamLimits.LateWriteReachesNextUser is a run.
- **Close and Read take from the same channel.** A Read that goes on past Close
  can skip bytes (internal/link/conn.go:50-62, 139-142). Until Close begins what
  a Conn reads is proved to be a prefix of its own socket's bytes
  (StreamSafety.ReadsAreAPrefix); after that, in every state, a Read that
  follows the draining of a DATA skips those bytes
  (StreamLimits.ReadAfterDrainSkips); StreamLimits.ReadDuringCloseSkips is a run.
- **A save that fails only in its commit is not undone.**
  docs/implementation/firmware.md:85 says that a failed confirmation or a restart
  keeps the last confirmed configuration. If the write of the document succeeds
  and its commit fails, the next commit for another purpose writes it out
  (firmware/main/management.c:304-321, 665-668). As long as no such commit
  succeeds after a torn save the flash holds the confirmed values
  (ConfigTransaction.FlashHoldsTheConfirmed), and the first that does makes the
  next boot adopt the unconfirmed ones
  (ConfigTransaction.FlushAdoptsTheUnconfirmed). The rollback that follows the
  torn save is such a commit (ConfigTransaction.TornSaveComesBack).
- **An update survives a session change until the next tick.**
  docs/implementation/firmware.md:91 says a session change prevents the boot slot
  from changing. Only the maintenance tick looks
  (firmware/main/management.c:1125-1128). Over all runs an End that finishes
  another session's update is accepted only while no tick has come since the
  change (Ota.TickEndsOldUpdate), and a complete update can be finished by any
  session if and only if no tick found it stale (Ota.NewSessionFinishesOldUpdate).
- **A requested rollback is tied to no transaction.** Confirming does not
  withdraw it (firmware/main/management.c:707-734): when it runs it takes the
  confirmed configuration off its UART settings, and it drops whatever
  transaction is then pending (ConfigTransaction.RollbackOutlivesConfirmation,
  RollbackHitsNextTransaction). A confirmation is final if and only if no
  rollback was scheduled when it was given, or the confirmed UART settings are
  the safe ones (ConfigTransaction.ConfirmationIsFinal); a pending transaction is
  safe until its deadline if and only if none is scheduled before it
  (ConfigTransaction.TransactionStands).
- **The gateway can resume while a change is pending on the device.** A
  disconnect ends the lease at once (internal/admin/server.go:570-573), and so
  does a rollback that the device has acknowledged and not carried out within the
  1.2 seconds the host waits (internal/admin/server.go:532-534,
  internal/device/manager.go:189-196). Apart from these and the end of the lease
  no request is admitted while a change is pending
  (ConfigSystem.PendingIsCovered), and each of them does open the gateway
  (ConfigSystem.UncoveringOpensTheGateway). A factory reset that reports success
  has been confirmed by the device, so it is not among them.
- **A dial counted before close began may still reach the dialer after it**
  (internal/gateway/connections.go:29-41), until close's wait is over; none does
  after that (RequestConnections.NoTunnelLeaks).
- **GET /tasks returns a list cut short by a lost pairing without an error**
  (internal/admin/server.go:431). Pagination.Tasks says when the list is
  complete.
- **Lone carriage returns.** The usage observer splits lines at line feeds only;
  section 9.2.6 of the WHATWG HTML standard also ends a line at a carriage return
  with no line feed behind it. The lines are the standard's if and only if there
  is none (UsageObserver.LinesAreStandard); UsageObserver.LoneReturnsAreMissed
  gives bodies whose event is never seen.

## Model

| member | source | states |
|---|---|---|
| FrameCodec.Stuff | internal/link/frame.go:56-76 | an encoding holds no zero byte, so the delimiter is unambiguous |
| FrameCodec.UnstuffStuff | internal/link/frame.go:42-109 | COBS decoding undoes COBS encoding for every byte string |
| FrameCodec.StuffLength | firmware/main/link.c:138-173 | the encoded length never exceeds n + n/254 + 1 bytes before the delimiter, the size both encoders reserve |
| FrameCodec.StuffZero | internal/link/frame.go:56-76 | up to a zero byte the encoding is the number of bytes before it plus one, and those bytes |
| FrameCodec.StuffFull | internal/link/frame.go:56-76 | 254 bytes without a zero are encoded as 255 and those bytes, with no zero after them |
| FrameCodec.LayoutBytes | docs/implementation/protocol.md:5-7 | the header byte by byte: little-endian fields at fixed places, the payload from byte 18, the checksum of both behind it |
| FrameCodec.ParseIff | internal/link/frame.go:98-108 | the receiver's structural checks accept a byte string as frame f exactly when it is f's own layout with its CRC |
| FrameCodec.DecodedIff | internal/link/frame.go:80-109 | Decode yields f exactly when the segment is within the limit, f is legal, and it unstuffs to f's layout |
| FrameCodec.RoundTrip | internal/link/frame.go:42-109 | every legal frame decodes from its own encoding, whose length is within the bound and both receive limits |
| FrameCodec.StuffBytes | internal/link/frame.go:56-76 | the back-patching loop computes the block-wise encoding |
| FrameCodec.Encode | internal/link/frame.go:42-78 | encoding succeeds exactly for payloads and channels within limits, and ends in the only zero byte |
| FrameCodec.UnstuffBytes | internal/link/frame.go:85-97 | the decoding loop computes the block-wise inverse, or rejects |
| FrameCodec.Decode | internal/link/frame.go:80-109 | the code's decoder returns exactly the frames DecodedIff describes |
| FrameCodec.StuffInto | firmware/main/link.c:138-173 | the device's in-place encoder writes the encoding and never leaves the reserved buffer |
| FrameCodec.WireSend | firmware/main/link.c:138-195 | the device's buffer has room for every frame and holds its encoding with delimiter |
| FrameCodec.UnstuffSegment | firmware/main/link.c:426-444 | the device's decoder agrees with the host's, and its write index never passes its read index |
| FrameCodec.DeviceReadsHostFrames | firmware/main/link.c:376-447 | every legal frame fits the device's receive buffer and parses there to itself |
| FrameReader.FeedSplit | internal/link/link.go:211-243 | what a reader holds after a stream does not depend on how the stream was cut into reads |
| FrameReader.FeedIsReceived | internal/link/link.go:211-243 | the byte-by-byte reader accepts what splitting the whole stream at its zero bytes gives |
| FrameReader.HostResynchronises | internal/link/link.go:211-243 | among any damage every sent frame is accepted, in order; anything else accepted is a damaged segment that itself decodes |
| FrameReader.DeviceResynchronises | firmware/main/link.c:404-447 | the same for the device's reader with its own limit |
| FrameReader.HostReader.Consume | internal/link/link.go:211-243 | the host's buffer-and-discard loop is that reader |
| FrameReader.DeviceReader.Consume | firmware/main/link.c:404-447 | the device's loop over its fixed buffers is that reader |
| LinkSafety.ExactlyOnceDelivery | internal/link/link.go:244-437 | in every run without a return to a session that has left a trace, both directions deliver a duplicate-free in-order prefix of what was sent, each number naming one frame, with at most one frame outstanding and completed sends delivered, for every channel of every session |
| LinkNumbers.NumbersAreUnambiguous | internal/link/link.go:326-437 | in every run, whatever the device and the medium do, a number that was ever queued keeps its frame, on the wire and in the queue: through retries, cancellation, cleanup and BUSY |
| LinkSafety.RepliesAreUnambiguous | firmware/main/link.c:242-295 | a number the device has transmitted a frame under keeps it, in every run without such a return |
| LinkSafety.AdvancedMeansTaken | internal/link/link.go:380-391 | every send whose sequence number advanced was taken at the other end, both directions |
| LinkSafety.DeliveryIsFifo | firmware/main/link.c:242-403 | seen from above a channel is a queue: a step takes nothing or exactly the next frame |
| LinkSafety.RunKeepsInv | firmware/main/link.c:205-403 | the invariant tying both ends, the medium and the record together holds in every such run |
| LinkReturn.ReturningBreaksDelivery | firmware/main/link.c:392-396 | whenever the device can return to a session that has left a trace, some run from there breaks exactly-once delivery in one direction or the other |
| LinkLoss.ReturnRenumbers | firmware/main/link.c:242-295 | a return to a session on whose channel the device has sent or is about to send is followed in some run by two frames under number one |
| LinkLoss.ReturnLosesFrames | internal/link/link.go:283-320 | if the host's link of that session is open and has taken frames there, in some run the device counts as delivered a frame the host never takes |
| LinkLoss.WorkerGivesUp | firmware/main/link.c:242-295 | while a reset is under way a worker lets go of whatever it carries |
| LinkOrder.QueueOrderIsSendOrder | firmware/main/link.c:242-313 | while a session lasts, frames sent, message in hand and messages waiting form one line that only grows at its end by what is queued; after giving up a worker sends nothing more |
| LinkReturn.ReturnsHappen | firmware/main/link.c:392-396 | a concrete run in which a late HELLO takes the device back |
| LinkReturn.TakenIsRepeatable | firmware/main/link.c:317-375 | every frame the device ever took can still be repeated by the medium |
| LinkCode.Link.Accept | internal/link/link.go:244-325 | one frame through accept: a repeated number is acknowledged again and changes nothing, the expected one is handed over and acknowledged or answered BUSY, anything else is passed over |
| LinkCode.Link.Offer | internal/link/link.go:287-309 | a frame is accepted exactly when the waiting queue has room or there is no Conn |
| LinkRounds.RoundsPass | internal/link/link.go:348-414 | after any rounds of queueing and timing out within the budget, which a matching BUSY restores, send stands before one more attempt with as many transmissions behind it |
| LinkRounds.AckEndsRounds | internal/link/link.go:379-391 | an ACK in the round after k such rounds completes the send with exactly k + 1 transmissions |
| LinkRounds.TimeoutsEndRounds | internal/link/link.go:348-437 | the link is closed by the timeout after the last retry, and not before |
| LinkCode.Link.Send | internal/link/link.go:326-437 | one call of send against every sequence of events: acknowledged exactly when an ACK follows rounds within the budget, after one transmission a round; the link closed exactly when the budget runs out, or by a wrap or a second cancellation |
| LinkCode.AwaitQueue | internal/link/link.go:360-375 | the wait for the outgoing queue, in terms of the events alone: cancelled before or after queueing, broken, or queued |
| LinkCode.AwaitAck | internal/link/link.go:379-434 | the wait for the matching ACK, in terms of the events alone: a matching BUSY restores the retry budget, a timeout ends the attempt and not the send |
| LinkCode.DeviceLink.AcceptSessionFrame | firmware/main/link.c:317-375 | one frame through the device's receiver, in the frame's own fields: a repeated number is acknowledged again and changes nothing, the expected one is taken and acknowledged, or answered BUSY for want of room |
| LinkCode.DeviceLink.ResetSession | firmware/main/link.c:205-237 | the whole of a session reset, over every channel |
| LinkCode.TransmitWorker | firmware/main/link.c:242-295 | one message through a transmit worker: sent again after each deadline, done exactly when its ACK is seen within ten attempts since the last BUSY, given up exactly when they run out |
| LinkCode.Poll | firmware/main/link.c:262-281 | one attempt's polling loop ends at the ACK, the deadline or a new session, whichever the device sees first |
| LinkLive.SendSurvivesLoss | internal/link/link.go:326-437 | from every state of every run without a return to a traced session, and with all bytes and frames under way lost, a send whose retries are not used up succeeds in some run: the device takes the frame, or repeats the ACK of one it has taken |
| LinkLive.WorkerSurvivesLoss | firmware/main/link.c:242-295 | the same for the device's frames towards the host |
| LinkLive.MessageIsTakenUp | firmware/main/link.c:242-262 | a message at the head of an idle lane can be numbered next and sent |
| LinkLive.ConnectingIsPossible | firmware/main/link.c:205-237 | from every state with the host's link closed, everything under way lost, some run connects in a new session |
| WriterSchedule.NoLostWakeup | internal/link/link.go:145-210 | whenever the writer is blocked and some queue is not empty, a wake token exists or some producer is about to offer it |
| WriterSchedule.BackloggedIsServed | internal/link/link.go:163-210 | a channel that stays backlogged is served within as many channel transmissions as there are queues, from any point of any run |
| WriterSchedule.PatienceShrinks | internal/link/link.go:178-200 | each transmission for another channel shortens the cyclic way to a waiting one |
| WriterSchedule.WaitingIsServed | internal/link/link.go:163-210 | after any run, the writer blocked or not, a queue that holds something is served in some run without a further push |
| WriterSchedule.PriorityIsServed | internal/link/link.go:163-178 | the same for the priority queue, ahead of the channels |
| WriterSchedule.Cursor.Scan | firmware/main/management.c:1043-1054 | the scan finds a waiting queue exactly when there is one, the nearest after the cursor, and moves past it |
| StreamSafety.DeliveredToItsUser | internal/link/conn.go:37-78 | whatever the host takes next from a slot was produced for the Conn in it and comes before that Conn's CLOSE, an overtaken ERROR excepted |
| StreamSafety.OvertakenExactly | firmware/main/network.c:353-358 | the reply to an OPEN that found the connect queue full is overtaken if and only if its user's CLOSE was queued before it |
| StreamSafety.OvertakenIsLate | firmware/main/network.c:353-358 | an overtaken ERROR finds its user's Conn closed by the device, or gone |
| StreamSafety.ReadsAreAPrefix | internal/link/conn.go:111-176 | until Close begins, and after that while it has drained no DATA, the bytes a Conn has read are a prefix of those the device read from that Conn's own socket |
| StreamSafety.OneClosePerUser | firmware/main/network.c:98-132 | the device queues exactly one CLOSE for each user it has finished with, none for others, never more than the host made |
| StreamSafety.FreedSlotIsClean | internal/link/conn.go:44-78 | when a slot is given back the device's one CLOSE was taken, nothing made for that user but an overtaken ERROR is still to come, and the pipe to the device ends past its CLOSE |
| StreamSafety.StaleCancelsAreHarmless | firmware/main/network.c:56-78 | a stream is cancelled only by a CLOSE numbered above its OPEN or an ABORT naming its OPEN |
| StreamSafety.LateJobsAreHarmless | firmware/main/network.c:273-304 | a connect or an observed end of stream whose generation is current belongs to the user still open |
| StreamSafety.WrittenToItsSocket | firmware/main/network.c:359-387 | DATA reaches only the socket opened for the Conn that wrote it, unless a Write was queued while another Conn was open |
| StreamSafety.RunKeepsInv | firmware/main/network.c:273-437 | the slot's invariant holds in every run of host and device steps |
| StreamSafety.NextIsMine | internal/link/conn.go:44-78 | the same isolation from the invariant alone |
| StreamInv.CloseBound | firmware/main/network.c:388-398 | CLOSEs sent or decided on never outnumber the host's users |
| StreamInv.NoNextUser | firmware/main/network.c:401-437 | while the read task still owes the last CLOSE there is no next user |
| StreamInv.StepKeepsSections | firmware/main/network.c:98-437 | the locking and closing discipline of the four tasks is kept by every device step |
| StreamInv.StepKeepsJobs | firmware/main/network.c:273-304 | generation numbers keep outdated connects outdated |
| StreamInv.StepKeepsFull | firmware/main/network.c:351-358 | a user whose OPEN found the connect queue full has no socket, and no connect under way can give it one |
| StreamInv.StepKeepsPromise | firmware/main/network.c:98-132 | the count of CLOSEs moves exactly with the CLOSEs queued |
| StreamOrder.OneCloseEach | firmware/main/network.c:98-132 | in an ordered output every finished user has one CLOSE |
| StreamOrder.TaggedAt | firmware/main/network.c:273-437 | each message carries the number of CLOSEs before it, an overtaken ERROR a smaller one |
| StreamLimits.QueueFullReplyCanCross | firmware/main/network.c:353-358 | from every reachable state in which an OPEN found the connect queue full some run makes its ERROR the next message for the following user's Conn |
| StreamLimits.ErrorReachesNextUser | firmware/main/network.c:353-358 | such a state is reached |
| StreamLimits.Misroutes | internal/link/conn.go:215-253 | from every state with an open socket and its tasks at rest, a Write of any other Conn goes into that socket |
| StreamLimits.LateWriteReachesNextUser | internal/link/conn.go:215-253 | a reachable state in which DATA was written to another user's socket |
| StreamLimits.ReadAfterDrainSkips | internal/link/conn.go:50-62 | in every state in which Close has drained none and two DATA wait, draining the first makes the next Read return the second in its place, which is no prefix unless the bytes happen to repeat |
| StreamLimits.ReadDuringCloseSkips | internal/link/conn.go:50-62 | a reachable state in which what a Conn read is no prefix of its socket's bytes |
| StreamProgress.IncomingFinishes | firmware/main/network.c:305-400 | from every state some run takes the write task to the end of the message it works on |
| StreamProgress.EverythingIsDelivered | firmware/main/network.c:305-437 | from every state some run delivers whatever the host has sent |
| StreamProgress.CloseCompletes | internal/link/conn.go:44-78 | once the host has taken a Conn's CLOSE some run gives its slot back, with nothing more taken |
| StreamService.FreeSlotServes | firmware/main/network.c:273-358 | from every reachable state with a free slot, leftovers of earlier users included, some run has the device open a socket for a new Conn and tell it so first |
| StreamService.FreeSlotCarriesBytes | internal/link/conn.go:111-253 | and for all bytes in both directions some run brings those written to that Conn's socket and returns those the socket gave from its Read |
| StreamService.AbortCutsOff | firmware/main/network.c:56-78 | an ABORT that names the stream's OPEN makes the stream invalid |
| StreamService.CloseCutsOff | firmware/main/network.c:56-78 | a CLOSE makes it invalid as soon as it is received, in every reachable state |
| StreamCode.Connection.CloseGeneration | firmware/main/network.c:98-132 | closing takes place exactly when the generation matches and no CLOSE is out, and a CLOSE follows exactly for an open session |
| StreamCode.Connection.OutgoingEnds | firmware/main/network.c:432-433 | the read task's end of stream is the model's step |
| StreamCode.Connection.IncomingCloses | firmware/main/network.c:386-393 | the write task's close is the model's step |
| StreamCode.Connection.IncomingClears | firmware/main/network.c:394-397 | the last stretch of a CLOSE is the model's step |
| StreamCode.Connection.IncomingOpens | firmware/main/network.c:316-358 | OPEN is the model's step: refused, accepted with a job, or accepted with the queue full |
| StreamCode.Connection.DialEnds | firmware/main/network.c:281-303 | the end of a connect is the model's step: it counts only for a current generation of a valid stream |
| StreamCode.WriteMessage | firmware/main/network.c:359-387 | the write loop sends each byte once, in order, as many as the socket takes, only in turns that find the stream valid, to the socket found then; it gives up only without a socket or at one that takes nothing and failed or is late |
| StreamCode.HostConn.Read | internal/link/conn.go:111-176 | reads hand out the stream in order without loss; the end is reported only after a CLOSE and when nothing is left, an error only after an ERROR |
| StreamCode.HostConn.Close | internal/link/conn.go:44-78 | a slot is given back in an open session only past both halves of the barrier |
| StreamCode.WriteStream | internal/link/conn.go:215-253 | the frames acknowledged are consecutive chunks of the buffer, each full but the last; Write stops exactly at the first send that fails or finds the Conn closed |
| Srp.SecretsAgree | internal/security/security2.go:79-83 | (B - kv)^(a+ux) equals (A v^u)^b modulo any N, for all k, x, u, a, b |
| Srp.Agreement | internal/security/security2.go:65-87 | for every salt, identity, password and private numbers the client refuses exactly on its stated checks and otherwise holds the device's secret |
| Srp.PaddedIsInteger | internal/security/security2.go:62-63 | fixed-width big-endian writing is undone by reading |
| Srp.LeadingZeros | internal/security/security2.go:69 | a public key is the same number with any leading zero bytes |
| Srp.PaddingIsFaithful | internal/security/security2.go:73 | two group elements hash alike only if they are equal |
| Protobuf.NumberRoundTrip | internal/security/security2.go:198 | reading a varint returns every 64-bit number written, and its length |
| Protobuf.UvarintFits | internal/security/security2.go:222-223 | whatever a varint decodes to fits 64 bits |
| Protobuf.ReadFields | internal/security/security2.go:216-267 | the consuming loop computes the field table, or the error, on every input |
| Protobuf.FieldsRoundTrip | internal/security/security2.go:199-267 | every field written is read back from a concatenation with distinct identifiers |
| Protobuf.RepetitionRefused | internal/security/security2.go:229-231 | a repeated identifier is refused wherever it stands |
| Protobuf.OtherWireTypes | internal/security/security2.go:252-262 | fixed-width fields are skipped over, groups and unassigned wire types refused |
| Protobuf.SessionBytes | internal/security/security2.go:205-208 | the bytes of a session message, written out |
| Protobuf.AnswersAreMatched | internal/security/security2.go:281-302 | a message of any version, number and field yields its payload exactly when all three are the expected ones, it is within the limit and it reports success |
| Protobuf.ResponseRoundTrip | internal/security/security2.go:205-302 | the reader returns the payload of a session message exactly when it is within the limit, its payload parses, and field 1 is absent or integer zero |
| SecureClient.CounterIsStored | internal/security/security2.go:173-190 | a counter put into a nonce is read back, and the rest of the nonce stands |
| SecureDevice.PayloadIsFound | internal/security/security2_test.go:57-115 | the device finds a command's fields under the message's number |
| SecureClient.PairsWithHonestDevice | internal/security/security2.go:97-161 | against a device that follows the protocol, by field numbers, with any verifier, salt and keys: paired with the device's key and nonce exactly when the stated checks on its key, its proof and its nonce hold |
| SecureClient.Client.Handshake | internal/security/security2.go:97-161 | a client tries once; it is ready exactly when both answers pass every check, and whenever it faces an honest device, with that device's key and nonce |
| SecureClient.Client.Call | internal/security/security2.go:167-192 | a call seals once, under a nonce never used before, opens the answer under the next one, and any failure ends the client |
| SecureSession.NoNonceTwice | internal/security/security2.go:167-192 | no nonce seals two messages in either direction, and no counter wraps, in every run |
| SecureSession.LockStep | internal/security/security2.go:164-192 | the two counters are equal between calls and at most one exchange apart during one |
| SecureSession.RepliesAreAuthentic | internal/security/security2.go:185-191 | successful calls returned the peer's replies to those very requests, in order, none skipped or repeated |
| SecureSession.ExchangeSucceeds | internal/security/security2.go:167-192 | in every run an exchange the network lets through returns the peer's reply and leaves the session ready for the next |
| SecureSession.NothingAfterFailure | internal/security/security2.go:162-189 | after a failure the client seals nothing in any continuation |
| DeviceConfig.Validate | firmware/main/management.c:190-242 | the validation loops accept exactly the valid configurations |
| DeviceConfig.DefaultsAreValid | firmware/main/management.c:158-170 | the defaults pass validation in every build |
| DeviceConfig.UartIsIndependent | firmware/main/management.c:292-307 | valid configurations may trade UART settings and stay valid |
| ConfigTransaction.RunIsFine | firmware/main/management.c:601-734 | over every run of calls, ticks and power losses, from any flash content: all three configurations are valid, and what is in force agrees with the confirmed or the tried one as documented |
| ConfigTransaction.OnlyConfirmationPersists | firmware/main/management.c:707-730 | confirmed values and revision change only together, in a confirmation that reached the flash and whose network, if any, had an address |
| ConfigTransaction.OnlyReachedNetworksPersist | firmware/main/management.c:711-718 | over every run, power losses included, whatever is confirmed, stored or about to be is what the device started with or was confirmed at a step at which its network, if it names one, had given the device an address |
| ConfigTransaction.PendingIsFrozen | firmware/main/management.c:601-656 | a pending transaction's values and deadline stand until it ends |
| ConfigTransaction.DeadlineDecides | firmware/main/management.c:1104-1124 | a tick at or past the deadline leaves nothing pending and the confirmed values in force on the safe UART |
| ConfigTransaction.FlashHoldsTheConfirmed | firmware/main/management.c:308-321 | in every run in which no commit but a save's own succeeds after a torn save, the flash holds the confirmed pair and a power loss changes nothing confirmed |
| ConfigTransaction.FlushAdoptsTheUnconfirmed | firmware/main/management.c:304-321 | the first such commit makes the next boot adopt the unconfirmed configuration under the next revision, in every run |
| ConfigTransaction.StepCommits | firmware/main/management.c:292-307 | the flash changes, apart from confirmations, exactly at successful applies and rollbacks whose commit succeeds |
| ConfigTransaction.TornSaveComesBack | firmware/main/management.c:304-321 | a torn save followed by the rollback is adopted at the next boot, for every pending transaction |
| ConfigTransaction.RollbackOutlivesConfirmation | firmware/main/management.c:731-734 | a rollback asked for before a confirmation still runs after it and resets the UART settings in force |
| ConfigTransaction.RollbackHitsNextTransaction | firmware/main/management.c:1121-1124 | a rollback asked for earlier drops a transaction applied since |
| ConfigTransaction.ConfirmationIsFinal | firmware/main/management.c:707-734 | after a confirmation the configuration stays in force, UART included, in every run without a new transaction, a requested rollback or a power loss, if and only if no rollback was scheduled or its UART settings are the safe ones |
| ConfigTransaction.TransactionStands | firmware/main/management.c:1104-1124 | a pending transaction stands until its deadline in every run of timely ticks if and only if no rollback is scheduled before that |
| ConfigTransaction.LargeRevisionsSaturate | firmware/main/management.c:1164-1165 | a revision beyond an int is read back as the largest int |
| ConfigCode.Management.constructor | firmware/main/management.c:1149-1177 | boot from any stored document is the model's boot |
| ConfigCode.Management.Stage | firmware/main/management.c:610-647 | staging succeeds exactly on a valid candidate: the caller's values, else the UART settings in force, else what was being edited |
| ConfigCode.Management.Merge | firmware/main/management.c:635-638 | the overlay loop gives the caller's values priority |
| ConfigCode.Management.NetworkChanged | firmware/main/management.c:673-678 | the comparison loop finds a changed radio setting exactly when there is one |
| ConfigCode.Management.Apply | firmware/main/management.c:648-706 | applying succeeds exactly when nothing is pending, the UART settings suit the build, the write succeeds and a changed network could be set up; it puts the values in force but for the UART and gives them 30 seconds |
| ConfigCode.Management.Confirm | firmware/main/management.c:707-730 | confirming succeeds exactly with a transaction pending, its UART switch over, an address obtained or no network named, and the document written; a refusal changes nothing confirmed |
| ConfigCode.Management.Rollback | firmware/main/management.c:292-307 | rollback is the model's step |
| ConfigCode.Management.Tick | firmware/main/management.c:1104-1124 | the maintenance tick: a due UART switch is made, a passed deadline or due rollback restores the confirmed values on the safe UART, and otherwise nothing changes |
| Ota.BootsAreSound | firmware/main/management.c:864-992 | in every run an image is made bootable only if it is whole and matches every digest given for it, of which there is one |
| Ota.WritesAreContiguous | firmware/main/management.c:910-935 | a write is accepted exactly at the end of those before it |
| Ota.TickEndsOldUpdate | firmware/main/management.c:1125-1128 | in every run, an accepted End of another session's update has had no tick since the session changed under it |
| Ota.NewSessionFinishesOldUpdate | firmware/main/management.c:936-989 | after any session changes and ticks a complete update can be finished if and only if no tick found it too old or another session's |
| OtaUpload.Device.Begin | firmware/main/management.c:864-909 | begin is the model's step |
| OtaUpload.Device.Write | firmware/main/management.c:910-935 | write is the model's step |
| OtaUpload.Device.End | firmware/main/management.c:936-989 | end is the model's step |
| OtaUpload.Firmware | internal/admin/server.go:705-771 | whatever calls are lost and sessions change, a new bootable image is the request body, there is at most one, and there is one whenever success is reported; success is reported whenever the body is whole and every call goes well in time |
| Admission.MaintenanceIsExclusive | internal/gateway/gateway.go:43-53 | between a successful Pause and its Resume no request is past the second check, in every interleaving |
| Admission.CounterIsExact | internal/gateway/gateway.go:102-126 | active is exactly the number of slots held and never exceeds the limit |
| Admission.PauseFailsOnlyWhenBusy | internal/gateway/gateway.go:43-52 | Pause succeeds exactly when no slot is held, and a failed one changes nothing |
| Admission.AloneIsServed | internal/gateway/gateway.go:103-126 | after any run a request that runs alone is served if and only if the gateway is not in maintenance and below its limit, and otherwise leaves no trace |
| Admission.SlotsCanDrain | internal/gateway/gateway.go:43-53 | from every state some run gives all slots back, so that a Pause succeeds |
| Admission.Admit | internal/gateway/gateway.go:108-119 | the compare-and-swap loop admits only on an unchanged count below the limit, and refuses only at the limit |
| Admission.WriteInChunks | internal/gateway/gateway.go:210-229 | what is reported written was written, in pieces within the chunk size; success means everything |
| RequestConnections.NoTunnelLeaks | internal/gateway/connections.go:28-73 | when close has finished every connection ever returned is closed and no dial is under way; no dial reaches the dialer once close's wait is over; the slot is freed only after that |
| RequestConnections.DialGetsThrough | internal/gateway/connections.go:28-50 | after any run a dial begun before close gets its connection, open; one begun later is refused before the dialer is called |
| RequestConnections.CloseCanFinish | internal/gateway/connections.go:52-67 | from every state some run lets close finish |
| RequestConnections.Connections.Enter | internal/gateway/connections.go:29-35 | counting a dial in is the model's step |
| RequestConnections.Connections.Register | internal/gateway/connections.go:45-48 | registering a connection is the model's step |
| RequestConnections.Connections.Leave | internal/gateway/connections.go:36 | a dial's end is the model's step |
| RequestConnections.Connections.Shut | internal/gateway/connections.go:53-56 | the locked part of close is the model's step |
| RequestConnections.Connections.CloseAll | internal/gateway/connections.go:57-61 | the loop is the model's sweep: every registered connection is closed, each wrapped one exactly once |
| RequestConnections.OwnedConn.Close | internal/gateway/connections.go:69-73 | however often it is called, the wrapped connection is closed once |
| ConfigLease.NotAppliedIsCertain | internal/device/manager.go:256-278 | "not applied" is reported exactly when staging was rejected and the device said nothing is pending; then no apply was sent and the device is unchanged |
| ConfigLease.PendingIsNeverNotApplied | internal/device/manager.go:256-278 | if anything may be pending the report is another one |
| ConfigLease.AppliedMeansPending | internal/device/manager.go:256-278 | success is reported exactly when both calls and the host's own port switch went well; the device is then trying exactly the requested values and will drop them after 30 seconds |
| ConfigLease.LeaseIsSound | internal/admin/server.go:90-113 | between operations maintenance is on exactly when the current timer will end it |
| ConfigLease.StaleTimersAreHarmless | internal/admin/server.go:96-104 | a callback resumes only the lease it was started for |
| ConfigSystem.PendingIsCovered | internal/admin/server.go:488-573 | in every run of both sides without an early end of the lease the gateway is in maintenance while a change is pending on the device |
| ConfigSystem.UncoveringOpensTheGateway | internal/admin/server.go:527-573 | the condition is exact: the first disconnect, lease end or acknowledged but undone rollback with a change pending opens the gateway |
| ConfigSystem.PatchReleasesOnlyWhenCertain | internal/admin/server.go:488-512 | after any run, a PATCH that got its pause gives it back at once only with nothing pending on the device and the device unchanged |
| ConfigSystem.ResetIsCovered | internal/device/manager.go:189-200 | a factory reset gives maintenance back only when the device has confirmed |
| ConfigSystem.OutlastsTicks | firmware/main/management.c:1104-1124 | a transaction outlasts a run of ticks exactly if none of them rolls it back |
| ConfigLease.LeaseOutlastsTransaction | internal/admin/server.go:96-104 | with the stated clock margin the device's transaction is decided when the lease ends |
| ConfigLease.Server.PatchConfig | internal/admin/server.go:488-515 | 409 exactly when the pause fails, and then nothing changes; a change reported not applied leaves maintenance off, any other holds it under a new timer |
| ConfigLease.Server.ConfirmConfig | internal/admin/server.go:516-526 | an accepted confirmation ends maintenance and its timer, even if the host cannot store its own settings; a refused one changes nothing |
| ConfigLease.Server.RollbackConfig | internal/admin/server.go:527-537 | 409 exactly without a lease and without a pause; an acknowledged rollback leaves maintenance off, a failed one on under a timer |
| ConfigLease.Server.ResetDevice | internal/admin/server.go:632-642 | 409 exactly when the pause fails; a confirmed reset leaves maintenance off, a failed one on under a new timer |
| ConfigLease.Server.TimerFires | internal/admin/server.go:96-104 | the callback of the current lease ends maintenance, an earlier one changes nothing |
| UsageObserver.ScanIsParse | internal/gateway/statistics.go:224-310 | the bounded scanner finds exactly what a parser of the whole body finds, within its buffer limits, at every point |
| UsageObserver.LinesAreStandard | internal/gateway/statistics.go:251-304 | the scanner's lines are those of section 9.2.6 of the WHATWG HTML standard if and only if no carriage return stands alone |
| UsageObserver.LoneReturnsAreMissed | internal/gateway/statistics.go:251-304 | an event whose lines end in carriage returns alone yields nothing |
| UsageEvents.DocumentIsRecorded | internal/gateway/statistics.go:251-274 | the bytes "data:", at most one space, a text, and a line end twice, LF or CR LF, yield exactly what that text says; without the blank line they yield nothing |
| UsageEvents.StreamIsRecorded | internal/gateway/statistics.go:251-310 | for every stream of events with any data lines, other fields and line ends, cut off anywhere in the next event, recorded is exactly what the finished events say, data lines joined by LF |
| UsageCode.UsageBody.TakeLine | internal/gateway/statistics.go:251-274 | one line through the event buffer |
| UsageCode.UsageBody.Read | internal/gateway/statistics.go:275-310 | the caller's bytes are untouched; from any stream of events, however cut, exactly what its finished events say is recorded; JSON counts only if all of it fits |
| RequestRing.SumIsWithin | internal/gateway/statistics.go:149-153 | however the clock moves on between the buckets, the sum lies between the request-by-request counts for its last and first reading |
| RequestRing.Ring.Begin | internal/gateway/statistics.go:75-91 | a beginning request keeps every bucket exact, even when requests take the lock out of clock order, by less than a minute |
| RequestRing.Ring.Recent | internal/gateway/statistics.go:149-153 | the total lies between the numbers of requests begun in the minute before the last and the first clock reading |
| Pagination.TaskPage | firmware/main/management.c:501-528 | a page is the stretch of tasks past the cursor, full unless it is the last, in order |
| Pagination.Tasks | internal/admin/server.go:426-481 | over changing lists the result is in order without repetition; either the end was reached and no task that lived throughout is missing, or the pairing was lost, or the limit of full pages was reached with an error; an unchanged list of at most 384 tasks comes back whole |
| Pagination.CrashExport | internal/admin/server.go:774-807 | the loop ends within the limit, and a dump left alone comes out whole exactly when it fits |

## Left out

- Physical timing (retry intervals, probe latency, three-second cleanups): timeouts are events that may happen at any time.
- The host's Handshake polling and the RPC identifier check on replies: each is settled by reading one branch.
- u2_network_config in the stream model: it clears slots without a CLOSE, so it appears in the configuration model only.
- StreamCode.Connection.IncomingOpens: one step, although the receive task may look at the session and the OPEN's number without the guard between the two assignments (firmware/main/network.c:65, 345-347); an ABORT that falls there is ignored or taken as one that comes just before or after.
- UsageObserver.LinesAreStandard: line splitting only; a byte order mark and a data field without a colon are treated as the code does.
- ConfigSystem.PendingIsCovered: the host starts with nothing pending on the device; a host restarted meanwhile learns of it from the rejected staging.
- RequestRing.Ring.Recent: the clock does not run backwards.
- The wrap of the device's generation counter and of 32-bit sequence numbers inside StreamSlot; the latter ends the session in LinkSafety.
- The byte counters, activity clocks and error texts of a stream; idleness is an event.
- Srp.Agreement: says nothing of the hardness of the problem or of the concrete 3072-bit prime; it holds for any modulus of at most 384 bytes.
- SecureSession.RepliesAreAuthentic: an ideal cipher; forgery probabilities are not modelled.
- SecureClient.PairsWithHonestDevice: the device's half is ESP-IDF's protocomm component, which is not part of the repository; it is modelled by the message fields, RFC 5054's formulas and 64-byte digests.
- LinkLive, StreamService, StreamProgress: some run succeeds; that the scheduler and the wire let it happen is not modelled.
- JSON, cJSON and base64: parsed values are arguments; in UsageObserver one document's yield is a parameter.
- inet_pton in DeviceConfig: a parameter of the build.
- ConfigLease.LeaseOutlastsTransaction: assumes both clocks run alike and that the apply took effect at most three seconds after the lease began; the code bounds neither.
- The recovery timer that puts the host's own serial port back to 115200, and the reconnect loop.
- StreamCode.WriteStream: a failed send is not counted even if the device took the frame; the code's count has the same meaning.
- Admission limits that change while requests run: one configuration at a time.
- TLS, HTTP, the reverse proxy, sockets and DNS: nondeterministic steps.
- Credentials, cookies, origin checks, ports, tray, user interface, packaging and hardware test scripts.
- Logs, telemetry layout, event history and average durations: no property spans operations there.
