# Verified models of the smart-disk experiment

The repository measures what a storage device gains from decoding or filtering data before sending
it. Around the measurements it has a number of small protocols, schedulers, counters and stream
loops. This project models those and proves what they are for. Objects whose methods update fields
are classes, loops are loops; the concurrent parts are state machines whose steps are the atomic
actions of each thread, with invariants kept by every step and theorems about every run.

- `FlowControl.dfy`, `KineticClient.dfy`: the kinetic client's resizable semaphore, its table of pending commands and the
  two threads that share them. When waiting for the queue succeeds, every command has had the
  callback captured at its issue called exactly once, except that command 0 can be called twice.
- `Framing.dfy`: its wire format, read under any fragmentation and sent under short sends.
- `SearchQueue.dfy`, `SearchProtocol.dfy`: the parallel search: one producer, any number of workers, a bounded joinable
  queue with one `None` per worker.
- `SlotProtocol.dfy`: the shared-memory slots of the HTTP front end and the processes that fill them;
  `SlotInvariants.dfy`, `SlotCalm.dfy` and `SlotResults.dfy`: what every step keeps, and what it means
  for requests;
  `SlotOversize.dfy`: what a value longer than a slot does to requests other than its own.
- `Proxy.dfy`: the pending and ready tables of the message proxy.
- `Quorum.dfy`: the batch groups that wait for a quorum of drives.
- `EmulatedDecoder.dfy`, `SimulatedDevice.dfy`: one-line device arithmetic, the event-driven devices,
  and the proof that they agree.
- `Pipeline.dfy`: decoder and bus run together, one event after the other.
- `VideoDecoder.dfy`: the stateful video decoder, and what skipping frames costs.
- `KeyGenerator.dfy`, `KeySizes.dfy`: key generators as base-n counters, and the search for random key
  sizes.
- `Extents.dfy`: block maps coalesced into extents.
- `FrameWindow.dfy`: frame picking, reference frames and their difference.
- `PerformanceTracker.dfy`, `TestSuite.dfy`, `CsvTable.dfy`, `RestartLimiter.dfy`: state that must
  agree with a simple specification.
- `Options.dfy`: optional values and results.

`dafny verify dfyconfig.toml` checks everything.

Where the code and its documentation differ the model follows the code: the random key sizes
(`TargetsPerSize`), the next lexicographic key (`LexicographicKeyGenerator.GenerateSequentialKey`),
the blocks that extent coalescing drops (`NothingLostIff`), the packet that is resent from its first
byte (`PacketLoopRightIff`), command 0 (`StepKeepsExact`, `RunExactIff`), and values longer than a
shared-memory slot (`SoundIff`). In each case a lemma says exactly when the promise is kept.

## Model

| member | source | states |
|---|---|---|
| `FlowControl.StepKeepsInv` | `kinetic/python-client/kv_client/client.py:64-87` | In every interleaving of caller and listener, each step keeps: slots in use are never negative and, with no close under way, are exactly the pending commands, plus a slot taken but not registered, plus commands deleted but not released; the pending table only holds callbacks captured at issue |
| `FlowControl.StepKeepsExact` | `kinetic/python-client/kv_client/client.py:866-911` | A step preserves "the captured callback of q ran once if q left the table, not at all if q still waits, and no other callback ran for q" if and only if it is not a second call of q while the other thread is between calling and deleting it |
| `FlowControl.DoubleCallOnlyOnZero` | `kinetic/python-client/kv_client/client.py:857-864` | Only command 0 can be called twice, because errors the client reports itself carry acknowledge sequence 0 |
| `FlowControl.RunKeepsInv` | `kinetic/python-client/kv_client/client.py:279-298` | The invariant holds after every run of issue, response, error, depth change and close steps |
| `FlowControl.RunExactIff` | `kinetic/python-client/kv_client/client.py:481-482` | At the end of any run q was called back exactly as it should be if and only if q was not called twice since the last close, which no command but 0 can be |
| `FlowControl.NoFailureNoDouble` | `kinetic/python-client/kv_client/client.py:471-482` | No double call happens in a run in which no send fails while command 0 is pending: a condition the caller can watch |
| `FlowControl.WaitQSound` | `kinetic/python-client/kv_client/client.py:920-942` | When the condition of wait_q(k) holds, at most k commands are pending, and every other command issued since the last close has had its captured callback run exactly once, no other, if and only if it was not called twice since that close; only command 0 can be |
| `FlowControl.Drained` | `kinetic/python-client/kv_client/client.py:936-938` | When wait_q(0) returns True nothing is pending, and the calls made are exactly one call of the captured callback for every command issued since the last close, if and only if command 0 was not called twice since |
| `FlowControl.RunLedger` | `kinetic/python-client/kv_client/client.py:350-371` | Read off the steps of any run: the depth and the delegate are those set last, the next sequence number counts the commands since the last connect, and the commands issued are exactly those registered since the last close, each under its number and with the delegate set last before it |
| `FlowControl.AcquireIff` | `kinetic/python-client/kv_client/client.py:77-87` | After any run the next command finds a slot exactly if those holding one are fewer than the depth set last, and a depth set now counts at once |
| `FlowControl.NeverAboveDepth` | `kinetic/python-client/kv_client/client.py:77-87` | No more slots are ever in use than the greatest depth that was set |
| `FlowControl.CloseResets` | `kinetic/python-client/kv_client/client.py:279-298` | A close waits for the listener and ends as in a new client, except for the settings and the last sequence number |
| `FlowControl.FailureOnZeroCanCallTwice` | `kinetic/python-client/kv_client/client.py:890-907` | From any state where the caller is sending while 0 is pending, a failed send and a response to 0 can interleave so that 0 is called back twice |
| `FlowControl.FailureOnZeroReachable` | `kinetic/python-client/kv_client/client.py:268-277` | Two commands in a row on a fresh connection reach such a state |
| `FlowControl.FailureOnZeroCanKillListener` | `kinetic/python-client/kv_client/client.py:890-907` | From such a state the caller can also delete command 0 from under the listener, whose lookup then fails and ends the thread |
| `FlowControl.DeadListenerStays` | `kinetic/python-client/kv_client/client.py:599-636` | A listener that has ended handles no response until the client is closed |
| `KineticClient.Semaphore.constructor` | `kinetic/python-client/kv_client/client.py:49-54` | A new semaphore has its depth and nothing outstanding |
| `KineticClient.Semaphore.Clear` | `kinetic/python-client/kv_client/client.py:64-67` | Nothing is outstanding; the depth stays |
| `KineticClient.Semaphore.Release` | `kinetic/python-client/kv_client/client.py:69-75` | Gives back one slot, or fails and changes nothing when none is outstanding |
| `KineticClient.Semaphore.Acquire` | `kinetic/python-client/kv_client/client.py:77-87` | Takes a slot exactly when the outstanding ones are below the present depth |
| `KineticClient.Client.constructor` | `kinetic/python-client/kv_client/client.py:142-163` | A fresh client is the initial state of the machine |
| `KineticClient.Client.SetQueueDepth` | `kinetic/python-client/kv_client/client.py:205-207` | The depth is the one given and nothing else changes: one depth step of the machine |
| `KineticClient.Client.SetCallbackDelegate` | `kinetic/python-client/kv_client/client.py:142` | The delegate is the one given and nothing else changes: commands already issued keep the callback they captured |
| `KineticClient.Client.Open` | `kinetic/python-client/kv_client/client.py:233-277` | Connected, with sequence numbers from 0 and a listener, all else as it was; nothing when connected already |
| `KineticClient.Client.OnResponse` | `kinetic/python-client/kv_client/client.py:890-907` | A response to a pending command calls its captured callback once, deletes it and releases one slot; any other changes nothing |
| `KineticClient.Client.Listen` | `kinetic/python-client/kv_client/client.py:599-636` | Handling a response in the listener is a run of the machine |
| `KineticClient.Client.BuildHeader` | `kinetic/python-client/kv_client/client.py:350-371` | A non-batch command takes a slot and enters the present callback under the next sequence number; a batch command only uses up the number |
| `KineticClient.Client.Operation` | `kinetic/python-client/kv_client/client.py:667-689` | Which of not connected, blocked, sent or failed an operation turns out as, the exact state after each, and the run of the machine it is |
| `KineticClient.Client.Close` | `kinetic/python-client/kv_client/client.py:279-298` | Not connected, no table, no slot in use, no listener; depth, delegate and sequence stay: the run disconnect, new table, clear slots, join |
| `KineticClient.Client.WaitQ` | `kinetic/python-client/kv_client/client.py:936-938` | One look at the condition answers whether at most k are outstanding |
| `KineticClient.ResponseIsRun` | `kinetic/python-client/kv_client/client.py:612` | The four actions of a handled response, without interruption, have the effect of OnResponse |
| `KineticClient.FailureIsRun` | `kinetic/python-client/kv_client/client.py:481-482` | The same for an error the caller reports on sequence 0 |
| `KineticClient.CloseIsRun` | `kinetic/python-client/kv_client/client.py:289-298` | The four actions of close end with an empty table, no slot in use and no listener |
| `KineticClient.SentIsRun` | `kinetic/python-client/kv_client/client.py:682-689` | Acquire, register, send is a run that ends with the command registered |
| `KineticClient.SendErrorIsRun` | `kinetic/python-client/kv_client/client.py:475-482` | Acquire, register, failed send, error on 0 is a run |
| `Framing.UnpackPack` | `kinetic/python-client/kv_client/client.py:436` | Unpacking a packed 32-bit length gives it back, negative ones included |
| `Framing.PackUnpack` | `kinetic/python-client/kv_client/client.py:311` | Packing an unpacked length gives the four bytes back |
| `Framing.PackIsBigEndian` | `kinetic/python-client/kv_client/client.py:436` | The four bytes, read most significant first, are the length, or its two's complement |
| `Framing.FrameLayout` | `kinetic/python-client/kv_client/client.py:434-440` | The byte 70, the message length, the value length, the message, the value, in this order |
| `Framing.RoundTrip` | `kinetic/python-client/kv_client/client.py:309-327` | Reading takes exactly the bytes of one encoded frame and returns the frame, whatever follows |
| `Framing.TruncatedIsClosed` | `kinetic/python-client/kv_client/client.py:343-344` | A stream cut anywhere inside a frame is reported as closed, never as a frame |
| `Framing.DecodeReads` | `kinetic/python-client/kv_client/client.py:309-344` | For any bytes at all, exactly what is read and left, or which error: closed when there are fewer than announced, a negative message length an error, a negative value length no value |
| `Framing.DecodedIsCanonical` | `kinetic/python-client/kv_client/client.py:311-317` | The bytes taken are those of the returned frame if and only if the magic byte is right and the value length not negative: the two things the reader does not check |
| `Framing.ListRoundTrip` | `kinetic/python-client/kv_client/client.py:300-327` | Reading the concatenated frames of any list followed by any bytes at all returns the list and then what those bytes give |
| `Framing.Incoming.RecvInto` | `kinetic/python-client/kv_client/client.py:342` | Any positive number of bytes up to what is wanted and there, in order; zero only at the end of the stream |
| `Framing.Incoming.FastRead` | `kinetic/python-client/kv_client/client.py:339-348` | Returns exactly the next bytes wanted under any fragmentation, or Closed when there are not that many |
| `Framing.Incoming.NetworkRecv` | `kinetic/python-client/kv_client/client.py:309-317` | Reading one frame from the socket is decoding the stream, with the same leftover bytes and errors |
| `Framing.Incoming.ReadAll` | `kinetic/python-client/kv_client/client.py:614-636` | The listener's loop yields exactly the frames of the stream up to its end, going on behind a header with a negative length as the listener does after a ValueError |
| `Framing.SkipOne` | `kinetic/python-client/kv_client/client.py:635-636` | Behind a header with a negative message length reading goes on with the next byte |
| `Framing.Outgoing.Send` | `kinetic/python-client/kv_client/client.py:390` | A send takes a prefix, times out, or fails |
| `Framing.Outgoing.SendValue` | `kinetic/python-client/kv_client/client.py:394-404` | Fails exactly if the first socket error comes before the whole value is taken, with exactly what was taken until then on the wire; short sends and timeouts leave the whole value |
| `Framing.Outgoing.SendPacket` | `kinetic/python-client/kv_client/client.py:386-392` | The packet loop puts on the wire what PacketLoop says, which starts again from the first byte after a short send |
| `Framing.Outgoing.SendFrame` | `kinetic/python-client/kv_client/client.py:373-404` | Raises exactly if the first socket error comes before as many bytes are taken as the packet has, leaving the wire alone if nothing was taken, and then sends no value; otherwise a prefix of the value follows, the whole of it unless a socket error came; the encoded frame if the first send takes the whole packet and none fails |
| `Framing.CutValueSwallowsNext` | `kinetic/python-client/kv_client/client.py:394-404` | After a value that was cut off without a report the receiver fills the gap from whatever is sent next, or waits for it |
| `Framing.WholeSendIsIntact` | `kinetic/python-client/kv_client/client.py:388-392` | A whole first send leaves exactly the packet on the wire |
| `Framing.LoopFailsIff` | `kinetic/python-client/kv_client/client.py:388-392` | Over the script alone: the packet loop raises if and only if the first socket error comes before as many bytes are taken as the packet has, and what is on the wire then |
| `Framing.ErrorFirstRaises` | `kinetic/python-client/kv_client/client.py:388-392` | A socket error before any byte is taken makes it raise, with nothing sent |
| `Framing.ShortSendCorrupts` | `kinetic/python-client/kv_client/client.py:388-392` | For every length and every script whose first send is short or fails there is a packet that does not arrive intact |
| `Framing.PacketLoopRightIff` | `kinetic/python-client/kv_client/client.py:388-392` | The packet loop is right for all packets of a length if and only if the first send that goes through takes the whole packet |
| `SearchQueue.ChainStopsEarly` | `s3dexp/search.py:113-122` | The first filter that does not accept decides: dropped if it rejects, failed if it raises |
| `SearchQueue.RunFilters` | `s3dexp/search.py:115-120` | The filter loop computes the outcome of the chain |
| `SearchQueue.TallyCounts` | `s3dexp/search.py:113-124` | The tallies are how many of the paths no filter raised on before another rejected, and how many all filters accepted, as sizes of sets of verdict sequences |
| `SearchQueue.JoinableQueue.Put` | `s3dexp/search.py:154-159` | Appends one unfinished element unless the queue is full |
| `SearchQueue.JoinableQueue.Get` | `s3dexp/search.py:111` | Takes the oldest element |
| `SearchQueue.JoinableQueue.TaskDone` | `s3dexp/search.py:132-133` | Marks one element done, if any is unfinished |
| `SearchQueue.SearchWork` | `s3dexp/search.py:93-143` | A worker alone deals with everything up to the first None, leaves the rest, and adds to the statistics the number of its paths that did not raise and of those that all filters accepted |
| `SearchProtocol.StepKeepsInv` | `s3dexp/search.py:109-143` | Every step of the producer and of any worker keeps the queue, counting, ownership and holding invariants |
| `SearchProtocol.SentinelAfterPaths` | `s3dexp/search.py:154-159` | No worker takes a sentinel while a path is queued |
| `SearchProtocol.QueueIsStretch` | `s3dexp/search.py:146-159` | The queue never exceeds its bound and is the stretch of the stream put and not taken: every path in order, then one None per worker |
| `SearchProtocol.EachPathOnce` | `s3dexp/search.py:111` | Everything taken is with exactly one worker, once, and a sentinel is the last thing a worker takes |
| `SearchProtocol.JoinMeansProcessed` | `s3dexp/search.py:161-162` | join returns only after every path was dealt with and marked done, and then every worker has taken exactly one None, its last element |
| `SearchProtocol.StatisticsComplete` | `s3dexp/search.py:138-143` | Once all workers have exited, num_items is the number of paths whose first non-accepting verdict, if any, is not an exception, and passed_items that of the paths all filters accepted |
| `SearchProtocol.StepCountsDown` | `s3dexp/search.py:109-143` | Every step uses up one of a fixed number of steps |
| `SearchProtocol.StuckIsOverIff` | `s3dexp/search.py:146-168` | A state without an enabled step is the end of the search if and only if there is a worker or no path: no deadlock otherwise |
| `SearchProtocol.EveryRunEnds` | `s3dexp/search.py:146-168` | With a worker every run has the same length, does not stop before, and ends with num_items and passed_items at these numbers and num_workers complete |
| `SlotResults.StepKeepsInv` | `kinetic/app.py:35-97` | Every step of request threads, key-value processes and their clients, including callbacks that raise and errors the client reports itself, keeps the slot, owner, ticket, command and request invariants |
| `SlotResults.SlotsArePartitioned` | `kinetic/app.py:28-31` | In any run every slot is available or owned by exactly one request, sixteen in all; an available slot has length -1 while every value asked for fits a slot |
| `SlotResults.AnswersAreRight` | `kinetic/app.py:78-130` | While every value asked for fits a slot, a get, or a getsmart without a size, returns the drive's value for its own key, nothing for an absent key; a getsmart with a size returns that many zeros, but nothing for an empty value |
| `SlotResults.StepKeepsRequests` | `kinetic/app.py:76-97` | Each step begins or answers at most one request, each request is answered once, as the key and kind it was begun with, and its slot never changes |
| `SlotResults.DepthRespected` | `kinetic/app.py:38` | No process ever has more than sixteen commands outstanding |
| `SlotResults.OversizeNeverRight` | `kinetic/app.py:59` | A value longer than a slot is never returned, whatever else happens |
| `SlotOversize.SoundIff` | `kinetic/app.py:35-70` | Answers are always the drive's, available slots always unset, and no request polls for ever: each of the three holds of all runs if and only if every value of the drive fits a slot |
| `SlotOversize.LoneOversize` | `kinetic/python-client/kv_client/client.py:635-636` | One request alone for a longer value: the error is reported on its own command 0 and it returns the empty string |
| `SlotOversize.OversizeStrands` | `kinetic/python-client/kv_client/client.py:909-911` | Two more: the error goes to the delegate, which is that of the second, and the first can never be answered |
| `SlotOversize.LateErrorSetsSlot` | `kinetic/python-client/kv_client/client.py:890-911` | Then the response to the second sets the length of a slot that is already available again |
| `SlotOversize.TimeoutHitsOthers` | `kinetic/python-client/kv_client/client.py:620-623` | While a command whose callback raised is in the table, its timeout can make any later request return the empty string, whatever the drive holds |
| `SlotResults.RefusedIff` | `kinetic/app.py:80` | A request fails to get a slot exactly when sixteen others are in progress |
| `SlotResults.NeverStuck` | `kinetic/app.py:84-97` | With a process, and while every value asked for fits a slot, some step towards an answer can be taken while a request is in progress |
| `SlotOversize.StrandedStays` | `kinetic/app.py:86-87` | A stranded request, whose slot is unset and which no callback to come will answer, stays so after every step: it polls for ever |
| `SlotOversize.FittingNeverStrands` | `kinetic/app.py:84-97` | While every value asked for fits, no request is stranded |
| `SlotProtocol.SharedSlot.constructor` | `kinetic/app.py:30` | A new slot is unset with a full-size buffer |
| `SlotProtocol.SharedSlot.Complete` | `kinetic/app.py:49-62` | The callback overwrites the start of the buffer and then sets the length; an error sets length 0; a value too long changes nothing |
| `SlotProtocol.SharedSlot.Collect` | `kinetic/app.py:88-97` | The request gets the first length bytes and resets the length |
| `Proxy.StepKeepsEntries` | `kinetic/proxy_server.py:60-116` | Tables, replies and what is in between only hold accepted requests, under their own keys, with their own key's value |
| `Proxy.StepConservesIff` | `kinetic/proxy_server.py:94-104` | A step keeps every request in exactly one place if and only if it does not overwrite a table entry |
| `Proxy.RunConserves` | `kinetic/proxy_server.py:55-58` | With distinct live keys, the assumption of the comment there, every run keeps each request in exactly one of pending, moving, ready, replying, answered |
| `Proxy.RepliesAreRight` | `kinetic/proxy_server.py:103-114` | In any run at all a reply goes to the address its message came from; a GET gets its own key with the drive's value, empty if absent, a GETSMART as many zeros as it asked for |
| `Proxy.AcceptedAreArrivals` | `kinetic/proxy_server.py:85-97` | The requests accepted are the messages that arrived, in order, each with its own address, operation and key |
| `Proxy.EachRequestAnsweredOnce` | `kinetic/proxy_server.py:79-116` | With distinct live keys the callback never dies, and a proxy with nothing left to do has, for each request, exactly one reply |
| `Proxy.StepCountsDown` | `kinetic/proxy_server.py:60-116` | A step that overwrites nothing uses up one of the five steps an accepted request brings |
| `Proxy.FiveStepsPerRequest` | `kinetic/proxy_server.py:79-116` | With distinct live keys exactly five steps are taken per accepted request, counting those left, and none is left if and only if only a new message can happen |
| `Proxy.ProxyServer.constructor` | `kinetic/proxy_server.py:57-58` | Both tables start empty |
| `Proxy.ProxyServer.Receive` | `kinetic/proxy_server.py:94-97` | The request enters the table under its key, and its get is issued |
| `Proxy.ProxyServer.DataCallback` | `kinetic/proxy_server.py:60-75` | The callback moves the entry of its key, with the value, from pending to ready; for an unknown key it dies |
| `Proxy.ProxyServer.SendResponse` | `kinetic/proxy_server.py:102-114` | Takes some ready entry, if there is one, and replies to its address with its key and value, or its number of zeros |
| `Quorum.StepKeepsInv` | `kinetic/shenzi/OVS/Simulation.py:55-70` | Every step of the group loop and of callbacks keeps: the count is the number of distinct drives that acknowledged the current group, and the event is set exactly when they are a quorum |
| `Quorum.QuorumBeforeNextGroup` | `kinetic/shenzi/OVS/Simulation.py:61-70` | Group g + 1 starts only after at least max(1, num_success) distinct drives acknowledged the commit of group g |
| `Quorum.LateNeverCounts` | `kinetic/shenzi/OVS/Simulation.py:132-136` | In any run an acknowledgement adds one drive to its own group and, when late, leaves the drives counted for the current group and the event as they were |
| `Quorum.CountIsDistinctDrives` | `kinetic/shenzi/OVS/Simulation.py:126-138` | In any run the count is the number of distinct drives that acknowledged the commit of the current group, and the event is set exactly when they are a quorum |
| `Quorum.CommitNeverBlocks` | `kinetic/shenzi/OVS/Simulation.py:55-56` | With queue depth num_ops no commit waits for a slot |
| `Quorum.WaitReturnsIff` | `kinetic/shenzi/OVS/Simulation.py:69-70` | Once every commit of the current group is acknowledged the wait returns, if and only if there are as many drives as the quorum asks for |
| `Quorum.KilledForGood` | `kinetic/shenzi/OVS/Simulation.py:57-60` | Once the kill switch is set no group is ever started again |
| `Quorum.FailureKills` | `kinetic/shenzi/OVS/Simulation.py:137-140` | A failed commit sets it, so no group is started after one |
| `Quorum.OverMeansAllGroups` | `kinetic/shenzi/OVS/Simulation.py:57-70` | A run that ends without it has had every group acknowledged by a quorum |
| `Quorum.StepCountsDown` | `kinetic/shenzi/OVS/Simulation.py:57-76` | Every step but setting the kill switch uses up one of a fixed number of steps |
| `Quorum.StuckIsOver` | `kinetic/shenzi/OVS/Simulation.py:69-76` | A state without a further step is the end, or waits in vain because a commit failed or there are fewer drives than the quorum |
| `Quorum.OVSClient.constructor` | `kinetic/shenzi/OVS/Simulation.py:29-40` | A new client is in the initial state |
| `Quorum.OVSClient.BeginGroup` | `kinetic/shenzi/OVS/Simulation.py:61-67` | Starting a group counts it up, zeroes the count and clears the event |
| `Quorum.OVSClient.Callback` | `kinetic/shenzi/OVS/Simulation.py:126-138` | A success of the current group counts and sets the event at the quorum, any other success changes nothing, a failure sets the kill switch and nothing else |
| `EmulatedDecoder.EmDecoder.constructor` | `s3dexp/smart/emdecoder.py:12-17` | Free from the initial time |
| `EmulatedDecoder.EmDecoder.Decode` | `s3dexp/smart/emdecoder.py:35-45` | The n-th call returns the completion of n jobs in order; a wrong extension or unknown path leaves the state alone |
| `EmulatedDecoder.ClosedForm` | `s3dexp/smart/emdecoder.py:37-44` | The completion is the greatest of initial time plus all work and, over k, arrival k plus the work from k on, and it is attained |
| `EmulatedDecoder.BusyIntervalsDisjoint` | `s3dexp/smart/emdecoder.py:37-44` | Busy intervals are ordered and disjoint, none starts before its arrival, and the device does not idle while a job waits |
| `EmulatedDecoder.DelayBound` | `s3dexp/smart/emdecoder.py:37-44` | Delaying arrivals by at most d makes no completion earlier and none later by more than d |
| `SimulatedDevice.StepKeepsInv` | `s3dexp/sim/decoder.py:45-52` | Every event of a device with any number of units keeps its state in agreement with the arithmetic of when units are free |
| `SimulatedDevice.DoneWhenComputed` | `s3dexp/sim/decoder.py:49-51` | Whatever the capacity, a finished request finished when the arithmetic says |
| `SimulatedDevice.StopsWhenAllDone` | `s3dexp/sim/decoder.py:49-52` | The events run out only when every request is done |
| `SimulatedDevice.Simulate` | `s3dexp/sim/decoder.py:45-52` | The event loop ends with every request done at its computed time |
| `SimulatedDevice.OneUnit` | `s3dexp/sim/bus.py:9-18` | With one unit the arithmetic is the recursion of the emulated decoder |
| `SimulatedDevice.BusMatchesEmulation` | `s3dexp/sim/bus.py:13-18` | The event-driven bus completes its jobs at the times of the max(next, arrival) + service recursion |
| `SimulatedDevice.StartsOrdered` | `s3dexp/sim/decoder.py:49-50` | Units are granted in the order of arrival |
| `SimulatedDevice.FirstComeFirst` | `s3dexp/sim/decoder.py:49-51` | Timeouts fire in the order of their times, and those of equal times in the order of granting |
| `SimulatedDevice.HoldingOnBusyUnits` | `s3dexp/sim/decoder.py:49-51` | Holds still running are on units that are not free |
| `SimulatedDevice.NeverMoreThanCapacity` | `s3dexp/sim/decoder.py:19` | At no time have more requests started and not ended than there are units |
| `SimulatedDevice.PipelineLowerBound` | `s3dexp/sim/storage.py:63-67` | Whatever the order on the bus, a transfer completes no earlier than arrival + decode time + transfer time of its request, nor than the transfer before it plus its own |
| `SimulatedDevice.TandemClosedForm` | `s3dexp/sim/storage.py:63-67` | Exactly when the last request leaves a one-unit decoder and the bus: the longest route, attained |
| `Pipeline.EventKeepsInv` | `s3dexp/sim/storage.py:63-67` | Every event of decoder and bus run together keeps both devices in agreement with their arithmetic, the bus jobs with the decode completions, and the clock between past and coming events |
| `Pipeline.PipelineMatchesRecursion` | `s3dexp/sim/storage.py:63-67` | For any number of decoder units, requests reach the bus once each, in the order of their computed decode completions, and leave it exactly when the recursion over those bus jobs says |
| `Pipeline.OverWhenAllSent` | `s3dexp/sim/storage.py:63-67` | When no event is due any more every request has been decoded and has left the bus |
| `Pipeline.OneDecoderIsTandem` | `s3dexp/sim/storage.py:63-67` | With one decoder unit the finished machine's bus jobs are the tandem's, so the last one leaves at the time of TandemClosedForm |
| `VideoDecoder.StepKeepsInv` | `s3dexp/sim/decoder.py:69-89` | One video at a time and frames in increasing order: no request fails, the decoder never stands behind a waiting request, and the time charged is that of the frames charged |
| `VideoDecoder.SwitchInFlightFails` | `s3dexp/sim/decoder.py:71-89` | A request for a new video while one of the old is waiting leaves the decoder at the old frame, and a later request for the new video fails exactly when it is for a frame before that one |
| `VideoDecoder.OverchargeIff` | `s3dexp/sim/decoder.py:84-89` | Frames charged beyond the last one asked for never become fewer, and stay the same if and only if every request comes when the decoder has caught up |
| `VideoDecoder.VideoTimeIff` | `s3dexp/sim/decoder.py:84-89` | In any stride a video takes exactly the time of decoding every frame up to the last, if and only if each request waits for the one before |
| `VideoDecoder.ElapsedIsFrames` | `s3dexp/sim/decoder.py:84` | The time charged, multiplied by the frame rate, is the number of frames charged |
| `VideoDecoder.VideoDecoderSim.constructor` | `s3dexp/sim/decoder.py:56-66` | At no video |
| `VideoDecoder.VideoDecoderSim.DecodeFrame` | `s3dexp/sim/decoder.py:69-88` | Opens a new video at frame 0, refuses exactly the frames before the current one, and returns a time that is, at the frame rate, the frames from the current one on |
| `VideoDecoder.VideoDecoderSim.FastForward` | `s3dexp/sim/decoder.py:86-89` | Serving the request at the head moves the decoder to its frame |
| `KeyGenerator.ValBound` | `kinetic/shenzi/Support/KeyGenerator.py:177-191` | A key of n-ary tokens stands for a number below n^size |
| `KeyGenerator.OrderIsNumeric` | `kinetic/shenzi/Support/KeyGenerator.py:177-191` | Keys of one size compare lexicographically as their numbers do, and have different numbers when different |
| `KeyGenerator.NextAdds` | `kinetic/shenzi/Support/KeyGenerator.py:181-191` | The next key has the next number, or 0 after the all-max key, which is the one numbered n^size - 1 |
| `KeyGenerator.NthIsCounter` | `kinetic/shenzi/Support/KeyGenerator.py:177-191` | After j steps the number is (start + j) mod n^size |
| `KeyGenerator.CycleOfAllKeys` | `kinetic/shenzi/Support/KeyGenerator.py:181-191` | Any n^size keys in a row are distinct, and then the cycle repeats |
| `KeyGenerator.EveryKeyComes` | `kinetic/shenzi/Support/KeyGenerator.py:181-191` | Every key of the size is produced within n^size steps |
| `KeyGenerator.NextIsSuccessor` | `kinetic/shenzi/Support/KeyGenerator.py:178-180` | Until the wrap the next key is greater, with no key of the size in between |
| `KeyGenerator.FixedKeyGenerator.constructor` | `kinetic/shenzi/Support/KeyGenerator.py:99-110` | Starts from the least tokens and an unused mask |
| `KeyGenerator.FixedKeyGenerator.GenerateSequentialKey` | `kinetic/shenzi/Support/KeyGenerator.py:177-191` | Strip, increment and pad computes the next key; the exception is raised exactly at the all-max key when out-of-keys is not ignored, and leaves the empty key |
| `KeyGenerator.FixedKeyGenerator.GenerateMaskKey` | `kinetic/shenzi/Support/KeyGenerator.py:134-141` | The tokens of the mask in force, a new one near its end, from the offset in force on, which moves on by one; full length whenever the size is at most max_key_size |
| `KeyGenerator.FixedKeyGenerator.GenerateRandomKey` | `kinetic/shenzi/Support/KeyGenerator.py:174-175` | The current key is that slice of the mask, of the fixed size |
| `KeySizes.GenerateLexKeySum` | `kinetic/shenzi/Support/KeyGenerator.py:213-224` | The k-th sum is 1 + n + ... + n^k |
| `KeySizes.GeometricSum` | `kinetic/shenzi/Support/KeyGenerator.py:213-224` | In closed form: (n - 1) times the k-th sum is n^(k + 1) - 1 |
| `KeySizes.PickSize` | `kinetic/shenzi/Support/KeyGenerator.py:231-235` | The search ends at the first sum not above the target, between min + 1 and max + 1 |
| `KeySizes.SizeOfIff` | `kinetic/shenzi/Support/KeyGenerator.py:231-235` | Exactly the targets from sum[s - 1] up to sum[s] stand for size s; only sum[max] itself stands for max + 1 |
| `KeySizes.TargetsPerSize` | `kinetic/shenzi/Support/KeyGenerator.py:226-235` | n^s targets stand for each size s above the least, none for the least, one for max + 1: the docstring's equal probability over min to max is off by one |
| `KeySizes.LexicographicKeyGenerator.constructor` | `kinetic/shenzi/Support/KeyGenerator.py:99-110` | Starts from the default start key |
| `KeySizes.LexicographicKeyGenerator.GenerateSequentialKey` | `kinetic/shenzi/Support/KeyGenerator.py:237-252` | The docstring's next key in lexicographic order is produced if and only if the key is shorter than the maximum, or full size and not ending in the greatest token; otherwise it restarts or raises, and a key one token too long is counted up or restarts |
| `KeySizes.LongerFollows` | `kinetic/shenzi/Support/KeyGenerator.py:242-243` | Appending the least token gives the key straight after |
| `KeySizes.CountedFollows` | `kinetic/shenzi/Support/KeyGenerator.py:252` | Counting up the last token of a full-size key gives the key straight after |
| `KeySizes.StartNeverFollows` | `kinetic/shenzi/Support/KeyGenerator.py:250-251` | The start key comes after no key that is restarted from |
| `Extents.Fibmap` | `s3dexp/fiemap.py:100-129` | The loop yields extents that map logical l + j to physical p + j, in order, with a gap between each two, at most max_extent + 1 long, holding exactly the mapped blocks not straight behind an extent |
| `Extents.Unique` | `s3dexp/fiemap.py:105-129` | No other sequence of extents meets that specification |
| `Extents.NothingLostIff` | `s3dexp/fiemap.py:113-118` | No mapped block is lost if and only if every stretch of mapped blocks is consecutive on the device and fits one extent |
| `Extents.Fibmap2` | `s3dexp/fiemap.py:85-129` | The same over the right block range, each record in bytes: it starts at block size times the extent's first block, and each of its blocks lies on the device at its place behind the record's start; nothing for non-regular files or extended attributes |
| `FrameWindow.Cv2Decoder` | `script/video_search.py:113-124` | The counting decoder yields exactly frames 0, e, 2e, ... |
| `FrameWindow.SmartDecoder` | `script/video_search.py:129-135` | The strided decoder yields exactly those of the frames it knows of |
| `FrameWindow.DecodersAgree` | `script/video_search.py:113-135` | With the same frame count both decoders yield the same frames and ids |
| `FrameWindow.PairFrames` | `script/video_search.py:199-211` | Each frame is paired with the one a fixed number of places before it, or with none; what the window holds after each turn, never more than that number |
| `FrameWindow.BackIsLeast` | `script/video_search.py:208` | That number of strides is the least that exceeds delta_frames |
| `FrameWindow.ReferenceDistance` | `script/video_search.py:206-211` | Every reference precedes its frame by the same distance, the least multiple of the stride greater than delta_frames |
| `FrameWindow.ErrorSplits` | `script/video_search.py:49-50` | The squared error adds up over consecutive chunks, and over one row is that of the row |
| `FrameWindow.ErrorOfOneElement` | `script/video_search.py:50` | Changing one element takes away the square of its old difference and adds that of the new |
| `FrameWindow.NoErrorIff` | `script/video_search.py:50` | The squared error is zero exactly for equal rows |
| `FrameWindow.SizeOfImage` | `script/video_search.py:51` | The size is rows times columns |
| `FrameWindow.Mse` | `script/video_search.py:41-51` | The chunked mean squared error is the whole squared error over the number of elements, for every chunk size; none for an image without elements |
| `PerformanceTracker.CountedDescribes` | `kinetic/shenzi/Support/PerformanceTracker.py:92-103` | Logging one operation keeps the counters an exact description of the interval: sum, count, maximum and minimum of its truthy latencies, and each client's cell |
| `PerformanceTracker.OneEntryMore` | `kinetic/shenzi/Support/PerformanceTracker.py:213-228` | What one operation adds: its bytes to the total and to its client's cell, its latency unless it is none or zero |
| `PerformanceTracker.CellIsLargest` | `kinetic/shenzi/Support/PerformanceTracker.py:215-217` | With largest latencies, a client's cell is the largest of its latencies in the interval, and none exactly if it has none |
| `PerformanceTracker.ReportsConserve` | `kinetic/shenzi/Support/PerformanceTracker.py:166-176` | Reported bytes telescope to the total of the last report, every truthy latency before it is counted in exactly one report, and the largest reported is the largest logged |
| `PerformanceTracker.OverallMax` | `kinetic/shenzi/Support/PerformanceTracker.py:145-157` | With the current interval the overall maximum and count miss nothing |
| `PerformanceTracker.ClientsShareBytes` | `kinetic/shenzi/Support/PerformanceTracker.py:213-228` | Counting bytes, the clients' bytes of an interval add up to its bytes |
| `PerformanceTracker.ReportSharesBytes` | `kinetic/shenzi/Support/PerformanceTracker.py:269-277` | The client columns of every report add up to its new bytes |
| `PerformanceTracker.RunningLosesNothing` | `kinetic/shenzi/Support/PerformanceTracker.py:140-177` | While the kill switch is not set, in any interleaving of logging and reporting, reported plus snapshot plus current is all that was logged |
| `PerformanceTracker.MultiClientPerformanceTracker.constructor` | `kinetic/shenzi/Support/PerformanceTracker.py:202-211` | Nothing logged, nothing reported |
| `PerformanceTracker.MultiClientPerformanceTracker.LogOp` | `kinetic/shenzi/Support/PerformanceTracker.py:213-228` | Logs the operation of a known client, ignores that of an unknown one altogether |
| `PerformanceTracker.MultiClientPerformanceTracker.Snapshot` | `kinetic/shenzi/Support/PerformanceTracker.py:242-258` | Captures and resets the interval under the lock |
| `PerformanceTracker.MultiClientPerformanceTracker.Finish` | `kinetic/shenzi/Support/PerformanceTracker.py:260-287` | Makes one report of the captured interval, with the bytes since the last report, or none after the kill switch |
| `PerformanceTracker.MultiClientPerformanceTracker.Stop` | `kinetic/shenzi/Support/PerformanceTracker.py:79-83` | Sets the kill switch |
| `TestSuite.RunCompletesDue` | `kinetic/shenzi/KineticQualification/TestSuite.py:52-61` | A run completes, in run order, exactly the subtests still to run among the turns it takes |
| `TestSuite.DueByTurns` | `kinetic/shenzi/KineticQualification/TestSuite.py:52-61` | Those are the subtests found by the turns taken, in the order of the turns |
| `TestSuite.UnhaltedCompletesAll` | `kinetic/shenzi/KineticQualification/TestSuite.py:52-62` | A run that is not halted ends with every subtest complete exactly once, as the class it was added as |
| `TestSuite.HaltedThenResumed` | `kinetic/shenzi/KineticQualification/TestSuite.py:53-57` | Halting after any turn and resuming gives what an uninterrupted run gives |
| `TestSuite.HaltsDoNotShow` | `kinetic/shenzi/KineticQualification/TestSuite.py:71-73` | However many halts came before, the completing run leaves the same results in the same order |
| `TestSuite.StartingOver` | `kinetic/shenzi/KineticQualification/TestSuite.py:87-90` | Starting over puts every subtest back as the class it was added as |
| `TestSuite.RunAgainCompletes` | `kinetic/shenzi/KineticQualification/TestSuite.py:80-91` | After any later run the subtests of the turns taken are complete, the others as they were, or as they were added when it starts over |
| `TestSuite.OpKeepsHolds` | `kinetic/shenzi/KineticQualification/TestSuite.py:136-155` | Adding, reordering, running and restarting keep: run_order is a permutation of the indices, and each subtest is to run or complete exactly once, never both |
| `TestSuite.OpsKeepHolds` | `kinetic/shenzi/KineticQualification/TestSuite.py:80-155` | The same after any sequence of these |
| `TestSuite.TestSuite.constructor` | `kinetic/shenzi/KineticQualification/TestSuite.py:14-24` | An empty, inactive suite |
| `TestSuite.TestSuite.AddSubtest` | `kinetic/shenzi/KineticQualification/TestSuite.py:136-139` | Adds the subtest at the end of the order, or is refused while a run is active |
| `TestSuite.TestSuite.SpecifyRunOrder` | `kinetic/shenzi/KineticQualification/TestSuite.py:141-155` | The order of adding, a shuffle of it, or a shuffle of the present order; refused while a run is active |
| `TestSuite.TestSuite.Restore` | `kinetic/shenzi/KineticQualification/TestSuite.py:87-90` | The restart loop restores the classes of all results |
| `TestSuite.TestSuite.Start` | `kinetic/shenzi/KineticQualification/TestSuite.py:80-91` | Refused while active; otherwise clears the halt and, unless resuming, wipes the results |
| `TestSuite.TestSuite.Stop` | `kinetic/shenzi/KineticQualification/TestSuite.py:107-112` | Sets the halt |
| `TestSuite.TestSuite.RunLoop` | `kinetic/shenzi/KineticQualification/TestSuite.py:52-61` | Takes the turns before the halt and no other |
| `TestSuite.TestSuite.Run` | `kinetic/shenzi/KineticQualification/TestSuite.py:43-62` | The run thread keeps the invariant and leaves the suite inactive, wherever a stop lands |
| `CsvTable.MergeOverrides` | `kinetic/shenzi/dlUnion.py:37-51` | Inserting records on top of a table overrides, key by key and field by field, what was there |
| `CsvTable.LastWriterWins` | `kinetic/shenzi/Support/CSVTable.py:97-101` | The last record that gives a field for a key decides it |
| `CsvTable.OnlyWhatIsGiven` | `kinetic/shenzi/Support/CSVTable.py:80-101` | A key has a row exactly if some record gives it, and a field in it exactly if some record gives that field for the key |
| `CsvTable.StoredDepicts` | `kinetic/shenzi/Support/CSVTable.py:80-101` | After storing a record in its row, the columns show the old contents with the record merged in, None where unset |
| `CsvTable.CSVTable.constructor` | `kinetic/shenzi/Support/CSVTable.py:15-20` | One empty column, the primary key |
| `CsvTable.CSVTable.AddCol` | `kinetic/shenzi/Support/CSVTable.py:25-30` | A column of None as long as the others |
| `CsvTable.CSVTable.AddRow` | `kinetic/shenzi/Support/CSVTable.py:32-38` | One None more in every column |
| `CsvTable.CSVTable.StoreFields` | `kinetic/shenzi/Support/CSVTable.py:97-101` | The field loop changes the cells of the record's row and nothing else |
| `CsvTable.CSVTable.InsertData` | `kinetic/shenzi/Support/CSVTable.py:80-101` | The store stays rectangular with unique keys and shows the merged contents; a new key gets a new last row, a record without key is ignored |
| `CsvTable.CSVTable.InsertAll` | `kinetic/shenzi/dlUnion.py:37-51` | Inserting a list of records shows the fold of their merges |
| `CsvTable.CSVTable.GetRow` | `kinetic/shenzi/Support/CSVTable.py:40-53` | Nothing for an unknown key, else every column, with the value given last or None |
| `CsvTable.Union` | `kinetic/shenzi/dlUnion.py:37-51` | Inserting all of B and then all of A shows the merge of both |
| `CsvTable.UnionContents` | `kinetic/shenzi/dlUnion.py:37-51` | One row per key of either list, with A's fields overriding B's |
| `RestartLimiter.Manager.constructor` | `kinetic/shenzi/DriveStateMonitor/DriveStateMonitor.py:37-46` | No start noted, kill switch not set |
| `RestartLimiter.Manager.Manage` | `kinetic/shenzi/DriveStateMonitor/DriveStateMonitor.py:118-144` | Gives up at the first start that makes five within the timeout, and only then, setting the kill switch; no window of the timeout's length holds more than five starts, four if it did not give up |
| `RestartLimiter.StartsInOrder` | `kinetic/shenzi/DriveStateMonitor/DriveStateMonitor.py:118-133` | The starts noted are those of the turns that start something, in order |
| `RestartLimiter.Drift` | `kinetic/shenzi/DriveStateMonitor/DriveStateMonitor.py:18-21` | Starts a multiple of four apart are more than the timeout apart |
| `RestartLimiter.FourWhileSpaced` | `kinetic/shenzi/DriveStateMonitor/DriveStateMonitor.py:134-141` | Without five starts in a row within the timeout no window of its length holds more than four, even if the clock is set back |
| `RestartLimiter.FiveAtMost` | `kinetic/shenzi/DriveStateMonitor/DriveStateMonitor.py:134-141` | With the start that made it give up, no window holds more than five |

## Left out

- Sockets, SSL, HMAC, protobuf, ZMQ, Flask, subprocesses and threads as such: they appear as steps, scripts of socket events, and opaque byte strings.
- Blocking calls (`acquire`, queue `get` and `put`, `join`, `wait`): in the classes an attempt that would block reports so; in the machines the step is not enabled. Their timeouts are not modelled.
- `FlowControl`: implicit flush, automatic reconnection, latency histograms, the delegate's calls for responses that match no pending command, more than one caller thread, callbacks that raise, and closing a client that was never connected.
- KineticClient.Client.constructor: a queue depth below one, which the source refuses with an exception, is a precondition here.
- KineticClient.Client.Operation: the call on a client that is not connected is tied to a run only while its table is empty, as it is after every close.
- KineticClient.Client.WaitQ: one look at the condition, without the loop that waits for it and its timeout.
- Framing.Outgoing.SendFrame: a chunk size of zero makes the value loop run forever and is left out, as are socket timeouts in the middle of a read.
- `SearchQueue`: CPU time and bytes from disk, the workers' start-up, and the final join of the processes with its five-second limit.
- SearchProtocol.StuckIsOverIff: with no worker and at least one path the join never returns; the lemma says so.
- `SlotProtocol`: socket errors and sends that fail, the wait of `getsmart`; the choice among available slots is left open. The drive answers every command before its timeout; only a command that a raising callback left in the table times out.
- `Proxy`: PING and unknown opcodes; the window of the client underneath; errors the client reports itself, which come with an empty key. An error response of the drive is taken to echo its key. The source states the assumption of distinct keys in a comment; StepConservesIff says what happens without it.
- `Quorum`: the kill and wait timeouts end the run without a claim; performance data and the contents of batches.
- `EmulatedDecoder`, `SimulatedDevice`, `FrameWindow`: floating point is modelled by real numbers; requests that arrive out of order (the simulator's clock is set back for them), the face detector; SimPy itself beyond first-come-first-served units and timeouts.
- `VideoDecoder`: more than one unit, and reading the size and frame count of the video.
- KeyGenerator.FixedKeyGenerator.constructor: only the default start key.
- KeySizes.LexicographicKeyGenerator.constructor: only the default start key.
- `KeyGenerator`: the retired random variant, which key type is drawn, and what the pseudo-random generator picks: masks and targets are parameters.
- KeyGenerator.FixedKeyGenerator.GenerateMaskKey: offsets above the mask can only occur for keys longer than the mask, for which no length is promised.
- `Extents`: the FIEMAP call itself and files whose block numbers do not fit 32 bits; block numbers are a function.
- `FrameWindow`: strides below one, which the source does not exclude; the search threads behind the queue.
- `PerformanceTracker`: the drive's log, rates and time stamps, the average as a quotient, printing; the plain tracker is the case without client columns. An interval captured after the kill switch is set is lost, as in the source.
- PerformanceTracker.MultiClientPerformanceTracker.Finish: without the second look at the kill switch, which only decides whether the report is printed.
- PerformanceTracker.MultiClientPerformanceTracker.Stop: sets the switch, without joining the thread and closing the drive's log.
- TestSuite.TestSuite.Stop: sets the halt, without waiting until the suite is inactive.
- `TestSuite`: the decorator and reporter, subtests that raise, subtests that are not classes, and two threads starting the suite at the same moment. A shuffle may be any rearrangement.
- `CsvTable`: deleting rows and columns (`del_row` leaves the row count behind), adding rows or columns directly, reading a column, and printing.
- `RestartLimiter`: the worker's task and its thread; the loop is followed through any finite number of turns.
- The FUSE file system, filters, neural networks, databases, command-line scripts, multicast and status histories of the repository.
