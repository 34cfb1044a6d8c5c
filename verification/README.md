# A verified model of the gateway firmware

The firmware is a gateway: browsers talk to it over WebSockets, and it talks to serial ports, a
Modbus bus, a Wi-Fi access point and a TFTP client. This project models the parts of it that carry
state and protocol, and proves what they keep. Everything is checked with

    dafny verify dfyconfig.toml

## What is modelled

* **The WebSocket API server** (`ws_server/src/ws_server.c`). `WsModel` is the server's whole state
  (call records, request-data blocks, sessions, two linked lists, peripheral queues, the log of sends)
  with one function for each mutex-held section. Addresses are explicit: `free` removes an address,
  `malloc` may reuse it, and any use of an address that is not allocated sets `fault`. `WsInvariant`
  states what every section keeps, `WsSteps`, `WsForwarding`, `WsReplying` and `WsRuns` prove it, and
  `WsTheorems`, `WsPasses`, `WsDelivery`, `WsMeaning`, `WsThrottle`, `WsEndings` and `WsPings` state what
  follows; `WsQueues`, `WsTerms`, `WsSpeech` and `WsEvents` say what the queues hold, what a call keeps of its
  request, what its client is sent, and what each other event changes. `WsWalks` and
  `WsServer` are the code's own loops, which walk the lists from node to node while nodes are unlinked
  and freed; each method of the class is proved against its function. `WsBroadcast` is the counter of
  the frame buffer that the sends of one broadcast share, and `FrameLayout` the text in it.
* **The TFTP server** (`tftp_server/tftp.c`, with the file callbacks of `tftp_server/tftp_server.c`).
  `TftpModel` is what each packet and each timer tick does, `TftpServer` the record updated in place,
  `TftpRuns` what all runs keep, `TftpReading` and `TftpWriting` the two directions over a network that
  may lose, duplicate and reorder packets, `TftpUploads` the answer to each packet and a whole upload.
* **The virtual frequency converter** (`devices/virt_innovert_freq/innovert_virtual.py`). `Crc16` is the
  CRC with its algebra, `CrcErrors` the errors it detects, `InnovertModel` the device,
  `InnovertTheorems` its refinement of a register map,
  `InnovertMotor` the convergence of its motor and the values of its speed register, `InnovertLimits` the
  measured values that do not fit a register, `InnovertControl` its address and its motor's command,
  `InnovertPlate` what its settings and plate mean, `InnovertSlave` the object whose fields the handlers update.
* **Percent-encoding** (`protocol_examples_common/protocol_examples_utils.c`): `UriCodec`, and `UriBuffers`
  for the loops on buffers.
* **Smaller cores**: `UartReceive` (receive buffer and chunk loop), `ModbusReply` and `ModbusWorker` (one
  reply for each request, in a buffer that is large enough), `LinkPool` (the access point's links).

`Lists` and `Bytes` hold what they share. The list library of the firmware is not part of this model;
`vLinkedListInsertLast` is taken as "move to the tail of that list", which is how its callers use it.
A send either fails at once or is followed by exactly one callback.

## Where the code differs from what one might expect

* A file whose length is a multiple of 512, an empty one included, never ends in a short block: the
  server answers the last acknowledgement (or the request itself) with an ERROR packet, because reading
  no bytes is an error (`TftpReading.LossFreeTransfer`, `TftpReading.ClientHoldsPrefix`).
* A late duplicate of a write request empties a file that has been received completely
  (`TftpWriting.LateRequestEmptiesFile` says exactly when).
* The timer of a TFTP request is started before the file is opened, so a failed request leaves an entry
  behind, and a transfer that is requested before that entry has expired is timed by both: it gives up a
  silent peer in half the time.  A transfer is timed by one entry exactly when none was pending at its
  request (`TftpRuns.TimedByOneEntry`, `TftpRuns.StaleEntryTimesNextTransfer`, `TftpRuns.SilentPeerSeconds`).
* The escape table for refresh headers leaves `%` alone, so texts with a `%` do not come back
  (`UriCodec.RoundTrip`).
* A Modbus read of measured registers raises an exception, and is not answered, when a measured value
  does not fit 16 bits.  Five writes and one measurement bring the speed register there from any state
  (`InnovertMotor.SpeedReadCanRaise`).  `InnovertMotor.SpeedReadable` says of every motor when it can happen:
  exactly if the speed is 65536 or more at the goal, for a motor not above it, or at the maximum, for one
  that runs above that, or more than 65536 at the present frequency, for any other.
  `InnovertLimits.MeasurementReadable` gives the exact condition of one measurement for each measured
  register, the noise included.
* The TFTP server takes a stored port of zero for "any port".  A transfer that is requested from port zero is
  therefore continued, or ended, by packets from every port of that address: it is isolated from all other
  endpoints exactly if it was requested from another port (`TftpRuns.IsolatedExactly`,
  `TftpRuns.PortZeroIsEndedByOthers`), and a client at that address may receive a block of the wrong file
  (`TftpReading.PortZeroMixesFiles`).
* The FID that the server prints is read back as the same FID only below 2^31
  (`FrameLayout.PrintedFidReadBack`).
* The reply buffer of the Modbus worker has 9 bytes for each register, where its comment counts 7; 6 are used
  at most (`ModbusReply.TextFits`).
* A Modbus request whose deadline is more than 2^31 ticks ahead at a look at the clock is given up at that
  look (`ModbusWorker.DeadlineTest`); waits of at most 2^31 ticks pass in full
  (`ModbusWorker.ShortWaitsInFull`).  The conversion to ticks is a parameter: with a tick rate of 1000 Hz
  and 32-bit arithmetic it cannot give so many.

## Model

| member | source | states |
|---|---|---|
| WsTheorems.MemorySafety | ws_server/src/ws_server.c:528-709 | over every run no freed address is read or freed again, each record is on exactly one list once, each data block has exactly one pointer to it |
| WsTheorems.SessionSafety | ws_server/src/ws_server.c:110-168 | on either list a session pointer names a connected session, pending 0 means no session, and a waiting live one-shot call has given its data away |
| WsTheorems.DeliveredAtMostOnce | ws_server/src/ws_server.c:632-639 | over every run at most one DELIVERED is queued for a call |
| WsTheorems.SilentForEver | ws_server/src/ws_server.c:110-168 | a call that has lost its session never gets one again and no frame is sent for it any more, whatever follows |
| WsTheorems.NothingAfterDisconnect | ws_server/src/ws_server.c:517-524 | over every run, once a client has disconnected its calls have no session and no frame is sent for them, whatever follows |
| WsTheorems.NothingAfterUnregister | ws_server/src/ws_server.c:203-217 | over every run, once a FID has been unregistered its calls have no session and no frame is sent for them, whatever follows |
| WsEvents.NothingAfterFailedSend | ws_server/src/ws_server.c:170-177 | over every run, once a queued send has failed the calls on its file descriptor have no session and nothing is sent for them |
| WsEvents.DisconnectBreaksExactly | ws_server/src/ws_server.c:110-132 | a disconnect takes the session from the calls on its file descriptor and changes no other call |
| WsEvents.FailedSendBreaksExactly | ws_server/src/ws_server.c:170-174 | so does a failed send, if its callback gets the mutex; otherwise it changes nothing |
| WsEvents.UnregisterBreaksExactly | ws_server/src/ws_server.c:118-140 | unregistering takes the session from the calls of the FID and changes no other call |
| WsEvents.HandlersFollow | ws_server/src/ws_server.c:179-217 | over every run the handlers are those registered and not unregistered since |
| WsEvents.RoutesFollow | ws_server/src/ws_server.c:345-370 | over every run a FID goes to the queue of the first route made for it |
| WsEvents.HeardOnlyWhenAlive | ws_server/src/ws_server.c:375-412 | a client's time of last being heard from is set by its own frames and its connection, and by nothing else |
| WsTheorems.FailedPingSilences | ws_server/src/ws_server.c:156-160 | a ping that cannot be queued takes the session from its call, which never has more than one pending invocation |
| WsEndings.NothingAfterTheEnd | ws_server/src/ws_server.c:142-168 | over every run, once a call has been told BUSY or a ping for it could not be queued, it has no session and nothing more is sent for it, within that section or later |
| WsEndings.StepEnds | ws_server/src/ws_server.c:528-639 | in every section a frame that ends its call is the call's last |
| WsTheorems.BusySilences | ws_server/src/ws_server.c:550-567 | a call whose peripheral queue holds as many messages as it has room for loses its session after one BUSY, posts nothing and leaks nothing |
| WsQueues.QueuesBounded | ws_server/src/ws_server.c:528-569 | over every run no peripheral's queue holds more messages than its depth |
| WsQueues.RefusedExactlyWhenFull | ws_server/src/ws_server.c:547-567 | a call is told BUSY and nothing is posted exactly when as many messages as the depth wait for its queue; otherwise one message with its data is appended |
| WsQueues.ForwardedOrBusy | ws_server/src/ws_server.c:580-649 | in every run, wherever a new or one-shot call stands in the active list, the pass hands it over or refuses it, by the number of messages then waiting for its queue |
| WsQueues.TakesOldest | main/apih_modbus.c:251-262 | a peripheral takes the oldest message for it, and the others keep their order |
| WsQueues.AnswerJoinsQueue | main/apih_modbus.c:62-84 | an answer joins the tail of the worker's queue with its FID, id and payload, unless ten are waiting, when it leaves nothing behind |
| WsQueues.ReceivesOldest | ws_server/src/ws_server.c:652-653 | the worker takes the oldest answer |
| WsQueues.AnswersStand | ws_server/src/ws_server.c:572-710 | no other section changes the queue of answers |
| WsTheorems.CleanUpFreesTheDead | ws_server/src/ws_server.c:573-577 | the clean-up pass frees exactly the calls without a session and keeps the others in order |
| WsRuns.StepKeeps | ws_server/src/ws_server.c:110-709 | every section keeps single ownership, sound sessions, the acknowledgement count and the silence of quiet calls |
| WsRuns.RunKeeps | ws_server/src/ws_server.c:110-709 | so does every sequence of sections |
| WsRuns.RejectLeavesNothing | ws_server/src/ws_server.c:476-505 | a request that is turned away leaves nothing allocated and nothing listed, only its status in the log |
| WsReplying.DeliverOneKeeps | ws_server/src/ws_server.c:658-675 | freeing the bare record of a one-shot call after a reply leaks nothing |
| WsForwarding.DeleteKeeps | ws_server/src/ws_server.c:587-617 | a delete request frees its victims and itself once each |
| WsPasses.ForwardLeavesOnlyResting | ws_server/src/ws_server.c:580-649 | after the forwarding pass the active list holds only acknowledged long-term calls, unchanged, that were not due when looked at |
| WsPasses.DeletePurges | ws_server/src/ws_server.c:587-617 | after the pass no live call shares fd, FID and SID with a delete request reached while its client was connected |
| WsPasses.DeleteFate | ws_server/src/ws_server.c:587-617 | a delete request removes itself and the live calls of its client, FID and SID, and nothing else |
| WsEvents.DeleteFreesExactly | ws_server/src/ws_server.c:587-617 | a delete request is acknowledged once and frees itself and the live calls with its client's file descriptor, its FID and its SID, and no others |
| WsEvents.UnroutedTurnedAway | ws_server/src/ws_server.c:640-646 | a call without a queue is told INVALID and freed |
| WsPasses.DispatchFate | ws_server/src/ws_server.c:628-647 | a dispatched call leaves the active list or is freed; no other call is touched |
| WsDelivery.DeliverAllFate | ws_server/src/ws_server.c:654-677 | a delivery frees the one-shot addressees, moves the long-term ones in order to the active tail, each due one interval later, and leaves every other call alone |
| WsDelivery.DeliverAllCopies | ws_server/src/ws_server.c:660-666 | in list order each addressee is sent the reply once, exactly if its handler, run when the ones before it have been served, does not complete its call |
| WsDelivery.BroadcastReaches | ws_server/src/ws_server.c:654-677 | a reply with id 0 goes to the live waiting calls of its FID, in list order, and to no other |
| WsDelivery.SingleReplyReaches | ws_server/src/ws_server.c:680-706 | a reply with another id reaches exactly the first live waiting call of that id |
| WsDelivery.NobodyReached | ws_server/src/ws_server.c:680-684 | and none if there is no such call |
| WsDelivery.ReplyHandled | ws_server/src/ws_server.c:651-709 | handling a reply delivers it, whatever the handlers do, and then frees its block |
| WsDelivery.BroadcastFrames | ws_server/src/ws_server.c:264-309 | a broadcast attempts one frame for each live call of the FID, the waiting ones first, which is the number the shared counter starts at |
| WsThrottle.PolledExactlyWhenDue | ws_server/src/ws_server.c:620-626 | in every run, wherever an acknowledged long-term call stands in the list, the pass forwards it exactly when its interval has passed since its last reply, despite the 32-bit tick |
| WsThrottle.RunPunctual | ws_server/src/ws_server.c:672-703 | no call was ever last replied to in the future |
| WsThrottle.WrappedComparison | ws_server/src/ws_server.c:622-623 | the signed comparison of wrapped ticks decides the unwrapped one below 2^31 |
| WsMeaning.RequestFate | ws_server/src/ws_server.c:417-515 | a request is listed, with its fields, data, poll interval and the handler registered at that moment, exactly if it has a FID, FLAGS and a SID and a handler or queue; any other only gets its status |
| WsTerms.CallAsAsked | ws_server/src/ws_server.c:417-515 | over every run, whatever follows, a call keeps the FID, id, flags, interval and handler that its request gave it |
| WsTerms.PolledAsAsked | ws_server/src/ws_server.c:465-469 | in every run an acknowledged long-term call is forwarded again exactly when the RDL of its request, in ticks, has passed since its last reply, and at every pass if it gave none |
| WsSpeech.DeliveredAsRegistered | ws_server/src/ws_server.c:660-675 | in every run the client of a call is sent what the handler says until it completes the call, and then the reply; there is a handler exactly if one was registered when the request came |
| WsMeaning.DispatchHandsOver | ws_server/src/ws_server.c:528-639 | a due call whose queue has room is handed over with its data, a copy for a long-term call, moves to the waiting tail and is acknowledged if new |
| WsPings.PingedExactlyWhenQuiet | ws_server/src/ws_server.c:142-168 | in every run, wherever a live call stands in its list, its client is pinged exactly when it was last heard from and last pinged a ping delay ago, despite the wrap-around |
| WsPings.RunTimed | ws_server/src/ws_server.c:407-415 | over every run the stored times of each client are wrapped clock readings of the past |
| WsWalks.PurgeVisit | ws_server/src/ws_server.c:590-617 | when victims of a delete request are freed, the node read again after it is the next survivor, and skipping the freed rest of the old list changes nothing |
| WsWalks.ForwardVisit | ws_server/src/ws_server.c:582-648 | the node found before a visit is the node after it once the visited call has been moved or freed |
| WsWalks.DeliverVisit | ws_server/src/ws_server.c:656-676 | the next addressee found before a delivery is the next addressee after it |
| WsWalks.FreeFirstMatch | ws_server/src/ws_server.c:596-607 | freeing the first match of a list leaves the other matches in order and the other list alone |
| WsServer.Server.BreakCallsByFd | ws_server/src/ws_server.c:110-132 | the loop clears the sessions of exactly the listed calls of the file descriptor |
| WsServer.Server.BreakCallsByFid | ws_server/src/ws_server.c:118-140 | the loop clears the sessions of exactly the listed calls of the FID |
| WsServer.Server.OnDisconnect | ws_server/src/ws_server.c:517-524 | keeps the invariant and is the disconnect section |
| WsServer.Server.Unregister | ws_server/src/ws_server.c:203-217 | keeps the invariant and is the unregister section |
| WsServer.Server.ApiCallComplete | ws_server/src/ws_server.c:219-230 | takes one pending invocation from a listed call, and its session with the last |
| WsServer.Server.ServeList | ws_server/src/ws_server.c:575-576 | the walk serves every node of the list once, although visits unlink and free nodes |
| WsServer.Server.Post | ws_server/src/ws_server.c:528-569 | hands over the call's data or a copy of it, or refuses the call |
| WsServer.Server.PurgeCall | ws_server/src/ws_server.c:587-613 | acknowledges a delete request, frees its victims list by list, and reads the next node again |
| WsServer.Server.ForwardPass | ws_server/src/ws_server.c:580-649 | the walk terminates, never reads a freed node, and does what the pass over the calls of the list does |
| WsServer.Server.DeliverToGroup | ws_server/src/ws_server.c:654-677 | the walk delivers to every addressee of a broadcast once, in list order |
| WsServer.Server.DeliverReply | ws_server/src/ws_server.c:651-709 | keeps the invariant and is the delivery section |
| WsServer.Server.SendToGroup | ws_server/src/ws_server.c:254-314 | sends to every live call of the FID, the waiting list first |
| WsServer.Server.OnText | ws_server/src/ws_server.c:417-515 | keeps the invariant and is the request section |
| WsServer.Server.WorkerStep | ws_server/src/ws_server.c:572-710 | one iteration of the worker is a run of clean-up, forwarding and deliveries that leaves the reply queue empty |
| WsBroadcast.CounterIsExact | ws_server/src/ws_server.c:170-177 | under every interleaving the counter is unattempted targets plus sends in flight, and no freed buffer is touched |
| WsBroadcast.NothingLeaks | ws_server/src/ws_server.c:245-252 | when all targets are resolved each buffer made has been freed once |
| WsBroadcast.LastTargetFrees | ws_server/src/ws_server.c:170-177 | a callback frees its buffer exactly when it is the last target |
| WsBroadcast.EventFates | ws_server/src/ws_server.c:245-309 | a broadcast starts its counter at its targets, each send is either in flight or resolved at once, and a callback resolves its own send only |
| WsBroadcast.Transport.Attempt | ws_server/src/ws_server.c:245-252 | the next target is queued, or resolved at once when the send is refused |
| WsBroadcast.Transport.TransferComplete | ws_server/src/ws_server.c:170-177 | the callback gives up one reference |
| FrameLayout.Compose | ws_server/src/ws_server.c:277-291 | the buffer of ulLen + sizeof(template) + 6 characters is exactly header, payload and brace, with no write beyond it |
| FrameLayout.FrameTextInjective | ws_server/src/ws_server.c:277-285 | a frame names its FID, SID and payload without ambiguity |
| FrameLayout.PrintedFidReadBack | ws_server/src/ws_server.c:444-449 | the printed FID is read back as itself exactly below 2^31, otherwise as the greatest long |
| FrameLayout.StatusFits | ws_server/src/ws_server.c:321-325 | a status text and its terminating zero fill the 21 characters set aside |
| FrameLayout.KnownTexts | ws_server/src/ws_server.c:277-325 | the texts of frames and statuses, literally |
| TftpRuns.RunKeeps | tftp_server/tftp.c:100-439 | over every run the state of an open transfer is consistent: a reader holds the file's block of its number |
| TftpRuns.OpenHasTimer | tftp_server/tftp.c:282-427 | over every run an open transfer has a timer running |
| TftpRuns.PeerIsIsolated | tftp_server/tftp.c:251-257 | whatever is sent from another address, or from another port if the peer's is not zero, the transfer in progress is unchanged and each packet is answered with one error |
| TftpRuns.IsolatedExactly | tftp_server/tftp.c:251-257 | packets from all other endpoints leave the transfer unchanged exactly if its peer's port is not zero |
| TftpRuns.PortZeroIsEndedByOthers | tftp_server/tftp.c:251-257 | a transfer requested from port zero is ended by an error packet from any port of its address |
| TftpRuns.AckSendsNextBlock | tftp_server/tftp.c:366-400 | an ACK brings data exactly when it is for the last block, which was whole, and the file goes on; the data is the next block |
| TftpRuns.DuplicateAckSendsNoData | tftp_server/tftp.c:380-384 | a repeated ACK never brings data |
| TftpRuns.SilentPeer | tftp_server/tftp.c:416-439 | with a silent peer the transfer waits, resends once a tick while it may, and closes on the tick after that, from any state |
| TftpRuns.SilentPeerCloses | tftp_server/tftp.c:416-439 | from a fresh packet a reader closes on expiry 16 of the timer after five resends, a writer on expiry 11 |
| TftpRuns.SilentPeerSeconds | tftp_server/tftp.c:416-439 | with p timer entries a reader is open after n seconds exactly while n p is below 16, a writer while it is below 11; with one entry that is 16 and 11 seconds |
| TftpRuns.EachRequestStartsTimer | tftp_server/tftp.c:282-310 | when a request to an idle server opens, and how many timer entries it leaves: one more, opened or not, but for a read of an empty file |
| TftpRuns.TimedByOneEntry | tftp_server/tftp.c:282-427 | as long as it is open a transfer has one entry more than were pending at its request, so one exactly when none was |
| TftpRuns.StaleEntryTimesNextTransfer | tftp_server/tftp.c:282-298 | a failed request and then a good one give a transfer with two entries |
| TftpRuns.IdleEntriesExpire | tftp_server/tftp.c:416-427 | the entries of an idle server expire one by one and do nothing else |
| TftpReading.ClientHoldsPrefix | tftp_server/tftp.c:194-240 | under any loss, duplication or reordering a lock-step client holds a prefix of a file of fewer than 65536 blocks, and all of it once it is done |
| TftpReading.PortZeroMixesFiles | tftp_server/tftp.c:251-257 | without the condition on port zero a client can hold a block of another file |
| TftpReading.StepServes | tftp_server/tftp.c:242-439 | every DATA ever sent or resent to the peer is the file's block of its number |
| TftpReading.LossFreeTransfer | tftp_server/tftp.c:366-400 | without losses the file arrives whole and in order; a length that is a multiple of 512 ends in an ERROR packet |
| TftpReading.EndOfFile | tftp_server/tftp_server.c:72-80 | the last acknowledgement closes a transfer, with an error if the last block was whole |
| TftpWriting.WrittenOnceInOrder | tftp_server/tftp.c:340-356 | over any packets, what an open file gains is the payloads of the accepted packets |
| TftpWriting.AcceptedCountUp | tftp_server/tftp.c:339-356 | the accepted packets count up modulo 2^16 |
| TftpWriting.FileIsAcceptedPayloads | tftp_server/tftp.c:313-356 | from the request on the file is the payloads of blocks 1, 2, 3, ..., each once |
| TftpWriting.RepeatOnlyAcknowledged | tftp_server/tftp.c:357-359 | a repeat of the previous block is acknowledged again and never rewritten |
| TftpWriting.AcknowledgedFileIsWhole | tftp_server/tftp.c:326-364 | over any network the file is always a prefix of the peer's, and whole when the transfer ends with an acknowledgement |
| TftpWriting.WriteChainFate | tftp_server/tftp_server.c:83-93 | writing a chain appends all of it, or a prefix when it fails |
| TftpWriting.LateRequestEmptiesFile | tftp_server/tftp.c:300-315 | an idle server changes a file exactly when it accepts a write request for it, which empties it |
| TftpUploads.DataAnswered | tftp_server/tftp.c:326-364 | each data packet of an upload is answered by one packet: the block waited for is appended and acknowledged, or ends the transfer with an error; the one before is acknowledged again; any other is an error that changes nothing |
| TftpUploads.AckMeansWritten | tftp_server/tftp.c:340-359 | over every run of an upload, an ACK k is sent only when blocks 1, 2, 3, ... up to one numbered k have been written, in order |
| TftpUploads.LossFreeUpload | tftp_server/tftp.c:313-356 | a file sent without losses is stored whole, the transfer ends closed, and exactly ACK 0, 1, ..., n are sent |
| TftpUploads.WrongAckChangesNothing | tftp_server/tftp.c:380-384 | a wrong-numbered ACK is an error that leaves a download open at its block |
| TftpUploads.MisplacedPackets | tftp_server/tftp.c:326-409 | a packet of the wrong kind is told off and changes nothing; only an error packet ends a transfer |
| TftpUploads.RequestRefused | tftp_server/tftp.c:284-310 | a request that is not opened is answered by one error, of code 1 or 2 |
| TftpUploads.RequestNames | tftp_server/tftp.c:284-298 | a request names the file that its body starts with, up to the first zero, exactly if name and mode keep within their lengths |
| TftpServer.Tftp.Write | tftp_server/tftp_server.c:82-93 | the loop over the buffers of a packet writes the chain or stops at the first that does not fit |
| TftpServer.Tftp.SendData | tftp_server/tftp.c:214-240 | sends and keeps the next block, or ends the transfer with an error |
| TftpServer.Tftp.Receive | tftp_server/tftp.c:242-414 | keeps the invariant and does what the model's packet step does |
| TftpServer.Tftp.Tick | tftp_server/tftp.c:416-439 | keeps the invariant and does what the model's tick does |
| Crc16.ComputeCrc | devices/virt_innovert_freq/innovert_virtual.py:52-58 | the two loops compute the CRC function |
| Crc16.ShiftLinear | devices/virt_innovert_freq/innovert_virtual.py:57 | one shift is linear over exclusive or |
| Crc16.ShiftsInjective | devices/virt_innovert_freq/innovert_virtual.py:56-57 | shifting never merges two 16-bit values |
| Crc16.AddBitsAtOnce | devices/virt_innovert_freq/innovert_virtual.py:55-57 | adding bits one by one is adding their word and shifting it out |
| Crc16.CheckIsZeroCrc | devices/virt_innovert_freq/innovert_virtual.py:64-67 | a frame passes exactly when it has three bytes and its own CRC is zero |
| Crc16.Append | devices/virt_innovert_freq/innovert_virtual.py:60-62 | a frame with its CRC appended passes the check |
| Crc16.KnownCrc | devices/virt_innovert_freq/innovert_virtual.py:52-58 | the CRC of a single zero byte is 0x40BF |
| CrcErrors.BurstDetected | devices/virt_innovert_freq/innovert_virtual.py:52-67 | an accepted frame of any length, changed in nothing but 16 consecutive bits in the order sent, is accepted only if unchanged |
| CrcErrors.LongerBurst | devices/virt_innovert_freq/innovert_virtual.py:52-67 | a change within 17 consecutive bits goes unnoticed exactly if it is the generator's pattern |
| InnovertTheorems.AnyFrame | devices/virt_innovert_freq/innovert_virtual.py:479-532 | whatever the frame, every response passes the check, is at most 255 bytes and carries the current address, and a rejected request changes nothing |
| InnovertTheorems.RequestServed | devices/virt_innovert_freq/innovert_virtual.py:416-532 | every well-formed FC3, FC6 or FC16 request is served as the register map says |
| InnovertControl.AddressFollows | devices/virt_innovert_freq/innovert_virtual.py:461-467 | after any history the device has the last address from 1 to 247 that a granted write gave register 702 |
| InnovertControl.OnlyItsAddress | devices/virt_innovert_freq/innovert_virtual.py:484-485 | after any history a request to that address is served, and one to any other, such as the one before, meets silence |
| InnovertControl.StateFollows | devices/virt_innovert_freq/innovert_virtual.py:446-459 | after any history the motor does what registers 28 and 102 last told it, register 28 deciding within one write |
| InnovertControl.OtherFrames | devices/virt_innovert_freq/innovert_virtual.py:479-529 | damaged, foreign and truncated frames meet silence, unknown functions exception 1, and none changes anything |
| InnovertControl.CountDecides | devices/virt_innovert_freq/innovert_virtual.py:513-522 | a write of several registers goes by its register count, whatever its byte count says |
| InnovertTheorems.ReadsAnswered | devices/virt_innovert_freq/innovert_virtual.py:416-497 | after any history a granted read of any length is answered with the values last written, but for the positions that measurements own, and raises exactly if one of those does not fit |
| InnovertTheorems.ReadsLastWritten | devices/virt_innovert_freq/innovert_virtual.py:416-497 | after any history a read of 1 to 125 registers that measurements do not own is answered with the values last written, in order |
| InnovertTheorems.ReadRaisesOnlyForMeasured | devices/virt_innovert_freq/innovert_virtual.py:497 | a granted read raises exactly when a measured register in its range does not fit 16 bits |
| InnovertMotor.RampConverges | devices/virt_innovert_freq/innovert_virtual.py:349-359 | the frequency goes straight to its goal, never overshoots and stays there, however time is divided; from above its maximum a running motor is first cut down to it |
| InnovertMotor.MotorConverges | devices/virt_innovert_freq/innovert_virtual.py:325-359 | the device's frequency follows that law at the rates its registers set |
| InnovertPlate.FullSpeedTime | devices/virt_innovert_freq/innovert_virtual.py:325-354 | from standstill the motor reaches its maximum, register 105, exactly when the acceleration time, register 107, has passed, in proportion until then |
| InnovertPlate.StandstillTime | devices/virt_innovert_freq/innovert_virtual.py:325-359 | stopped at its maximum it stands exactly when the deceleration time, register 108, has passed |
| InnovertPlate.HoursCount | devices/virt_innovert_freq/innovert_virtual.py:355-397 | the hours of a running motor count the time and those of a stopped one stand still |
| InnovertPlate.RatedPoint | devices/virt_innovert_freq/innovert_virtual.py:363-398 | at the rated frequency a noise-free measurement finds the rated current, voltage and speed of the plate |
| InnovertPlate.HalfLoad | devices/virt_innovert_freq/innovert_virtual.py:363-398 | at half of it, half the voltage and the current half way between idle and rated |
| InnovertMotor.SpeedGrows | devices/virt_innovert_freq/innovert_virtual.py:377-381 | a faster output frequency is never a slower motor |
| InnovertMotor.SpeedReadable | devices/virt_innovert_freq/innovert_virtual.py:377-394 | some measurements make a read of the speed register raise exactly if the speed is 65536 or more at the goal, for a motor not above it, or at the maximum, for one that runs above that, or more than 65536 at the present frequency |
| InnovertMotor.SpeedReadCanRaise | devices/virt_innovert_freq/innovert_virtual.py:377-394 | from any state five orders and one measurement make that read raise |
| InnovertLimits.MeasurementReadable | devices/virt_innovert_freq/innovert_virtual.py:361-402 | of each measured register: some noise of a measurement makes a read of it raise exactly if the noise-free quantity with the largest error reaches 65536 or falls to -1 |
| InnovertLimits.AlwaysReadable | devices/virt_innovert_freq/innovert_virtual.py:388-402 | the set frequency, the bus voltage, the constants and the states always fit |
| InnovertLimits.InputReadable | devices/virt_innovert_freq/innovert_virtual.py:387-400 | the input register can raise exactly if the motor runs and 1010 times its setpoint reaches 65536 times its maximum |
| InnovertSlave.Inovert.WriteRegs | devices/virt_innovert_freq/innovert_virtual.py:427-467 | the loop writes the words and then the state and address follow the control registers |
| InnovertSlave.Inovert.Pack | devices/virt_innovert_freq/innovert_virtual.py:497 | the payload of a read, or the exception |
| InnovertSlave.Inovert.Handle | devices/virt_innovert_freq/innovert_virtual.py:479-532 | keeps the registers sound and does what the model's handler does |
| InnovertSlave.Inovert.Tick | devices/virt_innovert_freq/innovert_virtual.py:325-402 | keeps the registers sound and does what the model's measurement does, from the registers and the noise of each value |
| UriCodec.EncodedLength | protocol_examples_common/protocol_examples_utils.c:206-235 | the encoded length is the length plus twice the counting pass |
| UriCodec.RoundTripExactly | protocol_examples_common/protocol_examples_utils.c:222-364 | decoding at type 0 undoes encoding exactly when the percent sign is escaped or the text has none |
| UriCodec.RoundTrip | protocol_examples_common/protocol_examples_utils.c:59-364 | for the tables: every table but the one for refresh headers gives back every text, that one the texts without a percent sign |
| UriCodec.ExampleRoundTrip | protocol_examples_common/protocol_examples_utils.c:368-388 | the examples' decoder gives back the text up to and including its first question mark |
| UriCodec.ComponentEscapes | protocol_examples_common/protocol_examples_utils.c:118-137 | the table for URI components escapes exactly the bytes that are not unreserved in RFC 3986 section 2.3 |
| UriBuffers.CountPass | protocol_examples_common/protocol_examples_utils.c:202-217 | the counting loop sizes the buffer |
| UriBuffers.EscapeUri | protocol_examples_common/protocol_examples_utils.c:219-236 | the loop writes the encoded text and nothing beyond it |
| UriBuffers.WritesBehindReads | protocol_examples_common/protocol_examples_utils.c:254-358 | the decoder never writes more than it has read |
| UriBuffers.UnescapeInPlace | protocol_examples_common/protocol_examples_utils.c:240-365 | decoding a buffer over itself gives the decoded text and the bytes read |
| UartReceive.DrainsWhatCame | main/apih_uart.c:180-186 | each poll drains the first bytes that came since the poll before, in order and once, up to the buffer size |
| UartReceive.StreamConserved | main/apih_uart.c:45-57 | the stream is conserved exactly when no more came between two polls than fits |
| UartReceive.ChunksCollected | main/apih_uart.c:45-57 | chunks raised without a poll are held up to the buffer size |
| UartReceive.Subscription.OnRx | main/apih_uart.c:45-57 | copies as much as there is room for |
| UartReceive.Subscription.Drain | main/apih_uart.c:180-186 | hands out what is held and empties the buffer |
| UartReceive.HandleData | main/uart.c:34-51 | the chunk loop terminates, keeps order, raises 1 to 128 bytes at a time and stops early only when a read fails; while the receiver is locked nothing is read |
| ModbusReply.TextFits | main/apih_modbus.c:97-98 | the text of n registers is at most 63 + 6n + 2 characters, which the 96 + 9n buffer holds with room to spare |
| ModbusReply.Format | main/apih_modbus.c:92-134 | the buffer's text is the whole reply, never cut off |
| ModbusReply.ListReadsBack | main/apih_modbus.c:113-127 | the register list of a reply reads back as the registers |
| ModbusReply.ReplyReadsBack | main/apih_modbus.c:92-134 | a client that reads a reply finds each field of the frame under its key, and the registers with their low byte first |
| ModbusWorker.Parse | main/apih_modbus.c:152-199 | a request is accepted exactly when its fields are in range, and its payload carries its values, high byte first |
| ModbusWorker.Wait | main/apih_modbus.c:228-232 | the wait loop ends within a bound on the ticks, with the request complete or the time up |
| ModbusWorker.DeadlineTest | main/apih_modbus.c:228-229 | what the signed comparison of wrapped ticks decides |
| ModbusWorker.ShortWaitsInFull | main/apih_modbus.c:228-232 | a wait of at most 2^31 ticks is given up only after it has passed |
| ModbusWorker.Worker.Execute | main/apih_modbus.c:201-242 | the receiver is locked before the bus is asked and unlocked before the one reply, which says how the order ended |
| ModbusWorker.Worker.HandleMessage | main/apih_modbus.c:140-243 | every message gets exactly one reply with its own id, given up only half a second after the wait that the request asked for |
| LinkPool.PoolIsPartitioned | main/connection.c:257-312 | over every event sequence the lists partition the pool and active links have distinct MACs |
| LinkPool.DropBranchUnreachable | main/connection.c:270-274 | with a driver that keeps at most four stations and gives addresses only to connected ones, no station is ever turned away |
| LinkPool.DropsExactlyWhenFull | main/connection.c:257-285 | an address is refused exactly to a station without a link while all links are taken |
| LinkPool.ActiveHoldsAddress | main/connection.c:257-303 | over every run an active link has the address last assigned to its station, which has not disconnected since |
| LinkPool.AddressTaken | main/connection.c:257-285 | a station with a link keeps it with the new address, and its connections are dropped exactly if that differs; one without takes the first free link |
| LinkPool.StationComesAndGoes | main/connection.c:294-312 | who is turned away on connecting, and that a station that goes gives its link to the free tail |
| LinkPool.Pool.OnIpAssigned | main/connection.c:257-285 | takes a link, updates it, or turns the station away |
| LinkPool.Pool.OnDisconnected | main/connection.c:294-303 | returns the station's link to the free list |
| LinkPool.Pool.OnConnected | main/connection.c:305-312 | turns a station away when there is no link for it |
| LinkPool.Pool.constructor | main/connection.c:329-330 | the pool starts with every link free |

## Left out

- The heap: Dafny objects cannot be freed, so records and blocks are map entries under explicit addresses; that no freed address is used is then a theorem and not a typing fact.
- Allocation failure, scheduling inside a mutex-held section, and a missed or timed-out `xWsApiMutex` other than in the send callback, registration and routing, where it is a parameter.
- A text frame on a connection that has no session (ws_server/src/ws_server.c:418-419), and the result of the queue send that is not looked at (main/apih_uart.c:120).
- The message structure that `vForwardCallToPeripheral` allocates is identified with its slot in the peripheral's queue.
- Connecting, stamping a client alive, registering and routing are single assignments of the model and have no method in `WsServer`; nor have the peripherals' own ends of the queues.
- Handlers may send on their own call and complete it; other things a handler could do are not modelled.
- PONG and CLOSE replies, and the pending-invocation argument that handlers are given.
- JSON, base64, the Modbus library and the linked-list library: parsed records, bytes, an arbitrary outcome and sequences take their place.
- Packets from the address 0.0.0.0, which `tftp.c` would take for any address.
- TFTP client mode, packets too short to hold their fields, files changed by anybody but the server, and short reads other than at the end of a file.
- TftpReading.ClientHoldsPrefix: needs fewer than 65536 blocks, because above that block numbers repeat; and one unchanging file for the peer's endpoint, with no other file asked for from port zero of its address.
- TftpRuns.SilentPeerSeconds: takes each timer entry to expire once a second, and not at some point of it.
- The default register values of the frequency converter, its logging and serial port; the noise of each measured value is a parameter.
- InnovertMotor.MotorConverges: arithmetic over real numbers, without the rounding of floating point.
- The redirect type of the URI decoder is modelled and bounded, but no round trip is stated for it.
- The configuration calls of the serial port (main/uart.c:104-174), which copy fields one by one.
- Web pages, the file server, configuration storage, the HTTP transport, start-up code, LEDs and sensors, the second virtual device (same framing) and the host-side frame parser.
