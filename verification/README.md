# A model of snapcast's timed, lossy audio delivery

The server of this multi-room audio player cuts its input into chunks, stamps each with the time at
which it is to be played, numbers them and sends them to its clients over UDP.  A client finds out which
numbers are missing, asks for them again until it gives up, sorts what it has into a buffer, and hands
the chunks to the sound device on time.  Timers drive both ends.  This project models that path and
proves what it guarantees:

* **The timer queue** (`PairingHeap.dfy`, `TaskQueue.dfy`).  The intrusive pairing heap on its own
  pointers: every node holds `next`, `children` and `pprev`, the slot that points at it.  A ghost shape
  says which heap the pointers spell.  Insertion, removal of any node, rescheduling (which changes the
  due time while the node is still linked) and merging over nodes with stale `pprev` keep the heap and its
  node set; the branches that abort the program are `assert false`.  The run loop is proved against an
  account of whole runs.  Its callbacks post, drop and reschedule live tasks as they like, at any clock
  readings; all that is asked of them is that nothing they post or reschedule is due by the time at
  which the loop started; `TaskQueue.LoopNeedNotEnd` and `TaskQueue.TaskqueueCtx.RunReposting` show
  why.  Every task ever posted is freed exactly once.
* **Loss recovery** (`Wire.dfy`, `Server.dfy`, `Client.dfy`, `ClientState.dfy`, `Recovery.dfy`,
  `System.dfy`, `Runs.dfy`, `Labels.dfy`, `Deliveries.dfy`, `Rescue.dfy`, `GivingUp.dfy`,
  `Deviations.dfy`).  Packets as bytes; the
  server's window; the client's list of missing packets, retry chains and receive buffer in the machine's
  integer widths; and one state machine of server, client and a network that loses, reorders and
  duplicates, with an arbitrary decoder.  Its theorems are about every reachable state and every run: what
  is buffered is what was sent, or that decoded; the ledger of sequence numbers is complete, and each of
  its six labels holds exactly if the last event that concerned the number was of that kind; which packets
  and orders are taken for duplicates, and which chunks enter the buffer, is stated exactly; requests are
  bounded; nothing stays missing; exactly when a number is given up only after so many requests; and one
  round of request and answer recovers a packet.
* **The jitter buffer** (`Chunk.dfy`, `PQueue.dfy`, `PQueueExact.dfy`).  The binary heap in its array,
  as it is: entries rise through `x / 2` and sink through `2x + 1`, `2x + 2`.  Proved: what any run
  conserves, which runs come out in play order, and exactly for which capacities all runs do.
* **The input** (`InputPipe.dfy`).  Chunks from arbitrary partial reads, their play times, and the
  conservation of bytes.
* **The register of clients** (`Registry.dfy`).  Clients over all streams and their purge tasks,
  including the purge task that drops itself.
* **Playback** (`Playback.dfy`).  Short writes to the device: sound is conserved, the time stamp lags by a
  bounded amount.
* **Time** (`Time.dfy`, with `Arith.dfy`) underlies the rest: time stamps denote integers.

Every operation that changes state in place is a method on the fields or the array that the program
changes, and its contract equates the new state with a function of the old one; the lemmas are about
these functions.

## Where the code differs from its intent

* The two halves of the priority queue maintain different trees, so that the earliest chunk need not come
  out first.  Every departure of every run takes the earliest entry if and only if the capacity is at
  most five (`PQueueExact.EarliestTakenExactly`); `PQueueExact.DeparturesOutOfOrder` gives the run that
  fails at any larger capacity, `PQueueExact.ArrivalsKeepTreeExactly` and `PQueueExact.DepartureExactly`
  say which arrivals and departures do harm, and `PQueue.PlayOrderIsKept` is the case that always works.
* The number of retries has eight bits: a buffer of 25600 ms gets none (`Recovery.RetriesExactly`).
* Only the newest packet header is compared when duplicates are sorted out: a packet is ignored if and
  only if the delivery before it was the same packet (`Deliveries.PacketIsIgnoredExactly`).  Older
  duplicates are handled again.  A chunk can be buffered twice (`Deviations.BufferedTwice`), exactly if it
  is delivered again, in time and while there is room, before the first copy has left the buffer
  (`Deliveries.BufferedOnceExactly`); and a duplicate that comes too late turns a received number into a
  late one (`Deviations.ReceivedThenLate`).
* Orders of the server carry no number of their own.  A stop is obeyed if and only if the delivery before
  it was not an order (`Deliveries.StopIsObeyedExactly`); behind a change of volume it is lost
  (`Deviations.SecondOrderIsLost`).  An order between two copies of a packet makes the second be handled
  again (`Deviations.OrderHidesDuplicate`).
* A huge gap throws away all that was buffered, however soon it was to be played
  (`Deliveries.HugeGapClearsBuffer`).
* Request tasks survive a stop order.  Each stop therefore allows one more chain of requests for a number,
  and this bound is attained whenever there are retries at all (`Deviations.StopsGrantChains`); and a task
  from before the stop can give up a number that has not been asked for since
  (`Deviations.GivenUpUnasked`).  A missing number will be given up only after m more requests if and only
  if every task pending for it has m retries left (`GivingUp.GivenUpAfterExactly`), so a number newly lost
  gets all its retries if and only if no task with fewer is left from before (`GivingUp.FreshLossExactly`).
* The client starts as if it had received number 0, so that the loss of the very first packet is never
  noticed (`Deviations.FirstPacketIsNeverMissed`); number 0 enters the ledger only if it arrives.
* The nearness test fails close to the epoch, as `timeSubMs` drops the sign (`Time.IsNearExactly`).
* One expiry of the window removes a packet beyond the overdue ones (`Server.ExpiryExactly`); closer to
  the epoch than the length of the buffer, the distance to it counts, as the sign is dropped.
* Reopening the input resets the seconds of the last play time, so the next chunk can be stamped earlier
  than the last (`InputPipe.ReopeningGoesBack`); `InputPipe.ReopenedInOrderExactly` says when.
* The first idle timeout of the input is posted with milliseconds in place of seconds
  (`InputPipe.FirstIdleTimeoutExactly`).

## Model

| member | source | states |
|---|---|---|
| Time.CmpIsIntegerOrder | src/timespec.c:85-96 | On normalised stamps the comparison is the order of nanoseconds, and equal means identical |
| Time.Add | src/timespec.c:8-16 | The sum is normalised and denotes the sum, for any non-negative nanosecond parts |
| Time.TimeAdd | src/timespec.c:8-16 | The carry loop computes that sum |
| Time.TimeSub | src/timespec.c:41-69 | Sign times magnitude is the difference; no unsigned subtraction wraps |
| Time.AddMs | src/timespec.c:78-83 | Adds exactly ms milliseconds, normalised |
| Time.SubMs | src/timespec.c:71-76 | Yields the distance: the sign of the difference is lost |
| Time.IsNearExactly | src/timespec.c:18-39 | Nearness implies the distance bound; the converse holds for every other stamp if and only if t1 is at least ms from the epoch or on it |
| Chunk.DecodedOnce | src/pcmchunk.c:36-44 | An Opus chunk becomes what the decoder makes of it, in PCM, and any other stays; play time and format stay, and decoding again changes nothing |
| Chunk.DurationExactly | src/pcmchunk.c:28-32 | The duration is the whole milliseconds that the bytes, or the whole frames, last at the sample rate |
| Chunk.KeyIsTimeOrder | src/pcmchunk.c:86-97 | On normalised play times that order is the order of nanoseconds |
| Chunk.CmpIsKeyOrder | src/intercom_client.c:18-23 | The priority of the receive buffer is the reverse order of play times |
| PairingHeap.RootIsMinimum | src/taskqueue.c:132 | No task of a well-formed heap is due before the one at the root |
| PairingHeap.PprevHoldsNode | src/taskqueue.c:165-171 | The slot that a node's pprev names holds that node, wherever it is in the heap |
| PairingHeap.LinkedSpells | src/taskqueue.c:152-162 | Linking a node in front of a list yields the list with that node, pprev set on both sides |
| PairingHeap.UnlinkedSpells | src/taskqueue.c:165-171 | Unlinking leaves the node's siblings as a list behind the slot that held it |
| PairingHeap.MergedTree | src/taskqueue.c:178-201 | The heap due later becomes the first child of the other; the result is an ordered tree of the nodes of both |
| PairingHeap.CutPair | src/taskqueue.c:204-221 | Cutting the first two siblings off leaves two trees and a forest, whatever their stale pprev say |
| PairingHeap.StaysRemovable | src/taskqueue.c:92-106 | Changing the due time of a linked node leaves a structure it can still be removed from |
| PairingHeap.UnlinkedIsOutside | src/taskqueue.c:234-238 | A node without pprev is not in the heap, and a node of the heap has one |
| PairingHeap.Removed | src/taskqueue.c:233-251 | After unlink, merge and relink the pointers spell the heap without the node, ordered, with no other node lost |
| TaskQueue.Settime | src/taskqueue.c:46-53 | A due time is the clock plus the seconds and milliseconds given |
| TaskQueue.TaskqueueCtx.Link | src/taskqueue.c:152-162 | Computes Linked; the assertion on a linked element is never reached |
| TaskQueue.TaskqueueCtx.Unlink | src/taskqueue.c:165-171 | Computes Unlinked through the slot that points at the element |
| TaskQueue.TaskqueueCtx.Merge | src/taskqueue.c:178-201 | Yields an ordered tree of exactly the nodes of both heaps, touching only their links; its three assertions are never reached |
| TaskQueue.TaskqueueCtx.MergePairs | src/taskqueue.c:204-221 | Yields one ordered tree of exactly the nodes of a list of heaps; its assertion is never reached |
| TaskQueue.TaskqueueCtx.Insert | src/taskqueue.c:224-230 | The heap gains exactly the element; its assertion is never reached |
| TaskQueue.TaskqueueCtx.Remove | src/taskqueue.c:233-251 | The heap loses exactly the element, even an interior one whose due time is out of order, and the element is fit to be inserted again; its assertion is never reached |
| TaskQueue.BalancedAfterFree | src/taskqueue.c:75-88 | Freeing a live task once keeps the books: heap, memory, fates and number of frees |
| TaskQueue.BalancedAfterBegin | src/taskqueue.c:135-141 | So does taking a task out of the heap to run it |
| TaskQueue.TaskqueueCtx.PostTask | src/taskqueue.c:57-73 | A fresh task waits with the due time asked for; nothing else changes, the timer is armed, and every invariant is kept |
| TaskQueue.TaskqueueCtx.DropTask | src/taskqueue.c:75-88 | A waiting task is removed, cleaned up and freed; one that is being executed is left to the run loop |
| TaskQueue.TaskqueueCtx.RescheduleTask | src/taskqueue.c:92-106 | Succeeds exactly for waiting tasks, which then have the new due time; no other task is affected |
| TaskQueue.TaskqueueCtx.Schedule | src/taskqueue.c:108-120 | The timer is armed for the first task |
| TaskQueue.TaskqueueCtx.RunFirst | src/taskqueue.c:133-145 | Executes the task that is due first and frees it once, while its callback posts, drops and reschedules live tasks, its own included, at any clock readings as long as nothing new is due by now |
| TaskQueue.TaskqueueCtx.Finish | src/taskqueue.c:141-144 | Cleans up and frees the task that was executed, once, and keeps every invariant |
| TaskQueue.TaskqueueCtx.TaskqueueRun | src/taskqueue.c:122-149 | Terminates with nothing due; the tasks it executed were waiting and due, each executed once, in order of due times |
| TaskQueue.OneMore | src/taskqueue.c:132-146 | One more execution extends the account of the run and leaves strictly fewer tasks due |
| TaskQueue.LoopNeedNotEnd | src/taskqueue.c:132-146 | With callbacks that post what is due at once there is an endless run of the loop: its every state keeps the whole invariant and holds one more task that is due |
| TaskQueue.TaskqueueCtx.RunReposting | src/taskqueue.c:132-146 | The loop's own operations, with such callbacks, still find a task due after any number of rounds |
| TaskQueue.EveryDueTaskServed | src/taskqueue.c:122-149 | Every task that was due has been executed, dropped by a callback, or moved beyond now by one |
| PQueue.PQueue.EnqueueEntry | src/pqueue.c:54-74 | In place, the array becomes Enqueue of its contents; a full queue is left alone |
| PQueue.PQueue.DequeueEntry | src/pqueue.c:86-97 | In place, the first entry is given out and the array becomes Dequeue of its contents |
| PQueue.PQueue.HeapifyAt | src/pqueue.c:102-132 | In place, the array becomes Heapify of its contents |
| PQueue.PQueue.Peek | src/pqueue.c:76-82 | Finds the first entry, exactly if there is one |
| PQueue.EnqueueConserves | src/pqueue.c:54-74 | The entries are the old ones and the new one, unless the queue is full |
| PQueue.DequeueConserves | src/pqueue.c:86-97 | The entries are the old ones without the first |
| PQueue.RunConserves | src/pqueue.c:54-97 | Over any run, entries held and given out are those there and let in; the capacity is never exceeded |
| PQueue.ArrivalsKeepEarliestFirst | src/pqueue.c:54-82 | While chunks only arrive, the first entry plays earliest and no entry plays before the one at half its index |
| PQueue.HeapifyTree | src/pqueue.c:102-132 | Sinking an entry restores the tree order below it |
| PQueue.DequeueKeepsTree | src/pqueue.c:86-97 | In tree order a departure takes the earliest entry and leaves tree order |
| PQueue.PlayOrderIsKept | src/pqueue.c:54-132 | If every arrival plays no earlier than what is buffered, any mix of arrivals and departures takes the earliest entry each time |
| PQueueExact.ArrivalsKeepTreeExactly | src/pqueue.c:8-10 | Arrivals into n entries keep the tree order for all contents if and only if n is 2 or one less than a power of two |
| PQueueExact.SafeArrival | src/pqueue.c:8-10 | At those sizes the two parents agree along the path of the new entry, and tree order is kept |
| PQueueExact.UnsafeArrival | src/pqueue.c:8-10 | At every other size there is a tree-ordered queue that an arrival puts out of order |
| PQueueExact.EarliestTakenExactly | src/pqueue.c:54-132 | Every departure of every run from empty takes the earliest entry if and only if the capacity is at most five |
| PQueueExact.StaysSmall | src/pqueue.c:54-132 | Up to that capacity the root is the earliest, and entry 1 no later than entry 3, at every point of every run |
| PQueueExact.DepartureExactly | src/pqueue.c:86-132 | After a departure the earliest entry is first if and only if it was a child of the root or the last of the array |
| PQueueExact.DeparturesOutOfOrder | src/pqueue.c:54-132 | For any capacity above five, one run from empty in which a departure does not take the earliest entry |
| Wire.HeaderRoundTrip | src/intercom.c:18-24 | A parsed header is the assembled one |
| Wire.ChunkRoundTrip | src/intercom_client.c:383-388 | The fields and payload read from a packet are those written |
| Wire.AudioLayout | src/intercom_srv.c:110-142 | Every byte of an audio packet: version, type, number, buffer time, play time, samples, frame size, channels, size and codec, most significant bytes first, then the payload |
| Wire.RequestLayout | src/intercom_client.c:309-325 | Every byte of a request |
| Wire.AudioRoundTrip | src/intercom_srv.c:110-142 | The client reads from an audio packet exactly the number, buffer time, metadata and payload the server wrote |
| Wire.SegmentsAreWalked | src/intercom_srv.c:151-203 | Among any requests, hellos and segments of unknown type the server finds exactly the requests, in order |
| Wire.RequestRoundTrip | src/intercom_client.c:309-315 | The server finds in a request exactly the one number the client asks for |
| Server.SendKeepsWindow | src/intercom_srv.c:110-148 | Sending extends the window, which stays the contiguous range of numbers ending just below the next, with the bytes first sent |
| Server.ExpireKeepsWindow | src/intercom_srv.c:43-71 | So it does when it expires |
| Server.ExpiryExactly | src/intercom_srv.c:43-71 | Without clients nothing expires; else all packets at the front go whose chunks were to be played longer ago than the buffer lasts, to the nanosecond, and one more |
| Runs.SendsExactly | src/intercom_srv.c:110-148 | In every run sending puts the packet with the next number on the network and a copy at the end of the window |
| Runs.ServesExactly | src/intercom_srv.c:151-203 | In every run a client operation puts on the network exactly the packets that any of its requests name and the window holds |
| Runs.ExpiresExactly | src/intercom_srv.c:43-71 | In every run an expiry does exactly this to the window, in terms of the chunks sent, and nothing else |
| Server.RequestsServedExactly | src/intercom_srv.c:174-188 | A request is answered exactly for numbers in the window, with the original bytes |
| Server.AudioStream.Send | src/intercom_srv.c:110-148 | Writing field by field at a moving offset yields the assembled packet and keeps a copy |
| Server.AudioStream.RemoveOldAudioData | src/intercom_srv.c:43-71 | The do-while loop computes Expire |
| Server.AudioStream.HandleRequest | src/intercom_srv.c:174-188 | The search yields the first kept packet with the number |
| ClientState.IntercomClient.LimitMissingPackets | src/intercom_client.c:46-56 | Keeps the newest entries that fit |
| ClientState.IntercomClient.PruneMissingPackets | src/intercom_client.c:58-67 | Deleting from the end backwards computes Prune |
| ClientState.IntercomClient.RemoveOneRequest | src/intercom_client.c:258-269 | Deletes the first entry with the number and tells whether there was one |
| ClientState.IntercomClient.RemoveOldData | src/intercom_client.c:333-352 | Drops from the front while the front is outdated |
| ClientState.IntercomClient.RequestMissing | src/intercom_client.c:428-437 | The loop over a gap computes RequestGap from the clamp on |
| ClientState.IntercomClient.Handle | src/intercom_client.c:376-476 | An arriving chunk changes the fields as HandleAudio says; the one that sets up the buffer is decoded |
| ClientState.IntercomClient.HandleNew | src/intercom_client.c:478-502 | A packet is ignored if just seen, else remembered and handled |
| ClientState.IntercomClient.RequestTask | src/intercom_client.c:280-307 | A firing asks once more and re-arms itself, or gives up, or ends |
| ClientState.IntercomClient.RecentlySeenAdd | src/intercom.c:48-53 | The loop and the append compute Remember |
| ClientState.IntercomClient.HandleServerOperation | src/intercom_client.c:478-492 | A stop or volume order is ignored if an order came last, else remembered and obeyed |
| ClientState.IntercomClient.DecodeFirstInput | src/alsaplayer.c:96-101 | The first buffered chunk is decoded where it lies |
| ClientState.IntercomClient.HandleStop | src/intercom_client.c:207-217 | A stop empties list and buffer and resets the newest number; pending request tasks stay |
| Recovery.GapStartsBehindNewest | src/intercom_client.c:428 | In wrapping and truncating arithmetic the clamp to the capacity never takes effect: the loop starts right behind the newest number |
| Recovery.GapClosedForm | src/intercom_client.c:429-437 | The loop never finds a number already requested and appends exactly the gap, each number with one task |
| Recovery.NoteGapExactly | src/intercom_client.c:412-440 | The numbers of a gap are all registered and stay, and only older entries are evicted |
| Recovery.RemoveRequestExactly | src/intercom_client.c:258-269 | On the ascending list exactly that number goes |
| Recovery.PruneExactly | src/intercom_client.c:58-67 | On the ascending list exactly the numbers up to the given one go |
| Recovery.AudioKeepsInv | src/intercom_client.c:376-476 | The list of missing packets stays strictly ascending, below the newest number, within the capacity, with a task pending for each |
| Recovery.FireKeepsInv | src/intercom_client.c:280-307 | So it does when a request task fires |
| Recovery.AudioKeepsBooks | src/intercom_client.c:376-476 | The ledger stays complete: it has an entry for every number up to the newest and for no other, and the missing ones are those in the list |
| Recovery.FireKeepsBooks | src/intercom_client.c:280-307 | So it does when a request task fires |
| Recovery.AudioSettles | src/intercom_client.c:390-474 | An arrival makes nothing missing but the numbers of its gap, and is itself no longer missing |
| Recovery.FireWeighs | src/intercom_client.c:280-307 | Each firing shortens the chains of its number, each request uses up a retry, and a firing that does not ask leaves the number not missing |
| Recovery.AudioWeighs | src/intercom_client.c:317-331 | An arrival gives every number of its gap one chain with the full number of retries and leaves all other chains alone |
| Recovery.RetriesExactly | src/intercom_client.c:317-331 | There is one retry per 100 ms of buffer if and only if the buffer is shorter than 25600 ms |
| System.StepKeepsInv | src/intercom_client.c:376-476 | Every step of server, client and network keeps the invariant of the whole system |
| System.InvHolds | src/intercom_srv.c:110-188 | It holds in every reachable state |
| System.DeliverKeepsInv | src/intercom_client.c:478-502 | Any packet ever sent can be delivered at any time, any number of times |
| System.DecodeKeepsAgreement | src/alsaplayer.c:96-101 | Decoding ahead of time keeps every buffered chunk the one that was sent, or that decoded |
| Runs.EndToEndAgreement | src/intercom_client.c:376-391 | In every reachable state a buffered chunk is the one that the server sent under its number, or what the decoder makes of that; play time and format are as sent in either case |
| Runs.BufferFits | src/intercom_client.c:354-361 | In every reachable state the buffer holds no more than its capacity |
| Runs.ResendsExactly | src/intercom_srv.c:174-188 | In every reachable state exactly the newest packets in the window can be resent, byte for byte |
| Runs.LedgerIsComplete | src/intercom_client.c:411-474 | In every reachable state the ledger covers exactly the numbers up to the newest, and the list of missing packets is in order |
| Labels.ArrivalEntered | src/intercom_client.c:411-474 | An arrival enters for each number exactly what it says about it: received, missing, skipped, evicted by a full list of newer numbers, or late; else the entry stays |
| Labels.LabelsMeanWhatTheySay | src/intercom_client.c:207-474 | In every run the ledger gives a number a label if and only if that is what the last event since the last stop that says anything about the number says |
| Labels.GivenUpAfterAllRetries | src/intercom_client.c:280-331 | A number that was ahead, with no task pending, at a point after which no stop was obeyed is given up only after exactly Retries requests |
| Labels.GivenUpFromTheStart | src/intercom_client.c:280-331 | Without a stop, a number given up has been asked for exactly Retries times |
| GivingUp.GivenUpAfterExactly | src/intercom_client.c:280-331 | In every reachable state with n missing: short of a stop n is given up only after m more requests if and only if every task pending for n has m retries left |
| GivingUp.FreshLossExactly | src/intercom_client.c:412-440 | A number newly lost is given up only after all its retries if and only if no task from before is pending for it with fewer |
| GivingUp.UsesUpRetries | src/intercom_client.c:280-307 | Any task pending for a missing number can use up its retries and give the number up, with no other event in between |
| Deliveries.LastDeliveryIsRemembered | src/intercom.c:38-53 | In every reachable state the newest header remembered is that of the last delivery, handled or not |
| Deliveries.StopIsObeyedExactly | src/intercom_client.c:478-492 | In every run a stop is obeyed if and only if the delivery before it was not an order |
| Deliveries.PacketIsIgnoredExactly | src/intercom_client.c:478-492 | In every run a packet is taken for a duplicate if and only if the delivery before it was the same packet |
| Deliveries.CapacityExactly | src/intercom_client.c:32-39 | In every run the buffer is set up exactly if a packet was handled since the last stop, with (capacity - 1) * ms <= bufferms < capacity * ms for the duration ms of the first of them, decoded |
| Deliveries.ArrivalThinsExactly | src/intercom_client.c:333-361 | In every run a packet in time throws away exactly the chunks at the front that were to be played before the clock, to the nanosecond, or all before a huge gap, and enters exactly if there is room |
| Deliveries.InTimeExactly | src/intercom_client.c:411 | A packet is in time exactly if its chunk is to be played after the clock, to the nanosecond |
| Deliveries.OrdersExactly | src/intercom_client.c:198-231 | A change of volume leaves all but the remembered headers alone; an obeyed stop leaves the tasks and nothing received |
| Deliveries.HeadIsDecoded | src/alsaplayer.c:96-101 | Decoding ahead of time replaces the first chunk, if it is encoded, and touches nothing else |
| Deliveries.PlaybackTakesFirst | src/intercom_client.c:151-173 | Playback takes exactly the first chunk out of the buffer |
| Deliveries.DeliveryBuffers | src/intercom_client.c:354-361 | A delivery adds its chunk to what remains of the buffer if it is admitted, and nothing otherwise |
| Deliveries.DeliveryCopiesExactly | src/intercom_client.c:354-361 | In every run a delivery of n adds a copy of n to what remains if and only if it is no duplicate, in time, and there is room |
| Deliveries.BufferedOnceExactly | src/intercom_client.c:354-361 | A number is buffered at most once throughout a run if and only if no delivery of it is admitted while a copy remains |
| Deliveries.HugeGapClearsBuffer | src/intercom_client.c:414-421 | After a huge gap the buffer holds the new chunk alone |
| Runs.SettledStaysSettled | src/intercom_client.c:411-474 | Between stops the newest number never falls and a settled number never becomes missing again |
| Runs.RunSpends | src/intercom_client.c:280-331 | Over any part of a run, firings or requests for a number are paid for by tasks pending before and one chain per gap |
| Runs.AtMostRetriesRequests | src/intercom_client.c:280-331 | A number is asked for at most Retries times, and its tasks fire at most once more; each stop allows the same again |
| Runs.NothingStaysMissing | src/intercom_client.c:280-307 | Once the tasks pending for a number have fired out, it is not missing |
| Runs.MissingForRetriesAtMost | src/intercom_client.c:280-307 | Without a stop, a number still missing has been asked for at most Retries times and its tasks fired at most as often |
| Rescue.ClientHolds | src/intercom.c:38-53 | In every reachable state the newest header seen is not that of a missing packet |
| Rescue.EveryTaskCanFire | src/intercom_client.c:309-315 | Every pending request task asks for a number that fits the packet |
| Rescue.EveryMissingIsPending | src/intercom_client.c:280-331 | In every reachable state each missing packet has a request task pending that can fire |
| Rescue.RequestIsSentExactly | src/intercom_client.c:280-315 | In every run a firing sends a request exactly if its number is missing and retries are left, and the one for this number |
| Rescue.OneRoundRecovers | src/intercom_client.c:280-307 | From every reachable state, request, answer and delivery of a missing packet the server still has make it received and buffered, unless the buffer is full, and change nothing else but outdated chunks |
| Deviations.StopsGrantChains | src/intercom_client.c:207-217 | For every buffer that allows a retry and every number of stops there is a run in which a packet is asked for as often as the bound allows |
| Deviations.GivenUpUnasked | src/intercom_client.c:280-307 | For every buffer that allows a retry, a run in which a task from before a stop gives up a number not asked for since |
| Deviations.BufferedTwice | src/intercom.c:38-46 | A run in which a duplicate that is not the newest packet is buffered again |
| Deviations.ReceivedThenLate | src/intercom.c:38-46 | A run in which a late duplicate turns a received number into a late one |
| Deviations.SecondOrderIsLost | src/intercom_srv.c:86-106 | In every state an order right behind another changes nothing |
| Deviations.OrderHidesDuplicate | src/intercom_client.c:482-490 | In every state a packet delivered twice is ignored the second time, but handled if an order came in between |
| Deviations.FirstPacketIsNeverMissed | src/intercom_client.c:363-368 | In no reachable state number 0 is missing |
| InputPipe.PlayTimeBounds | src/inputpipe.c:57-130 | A chunk is stamped later than the last, at least min(100, read_ms) ms and at most the lead limit ahead of the clock |
| InputPipe.LeadLimitIsReached | src/inputpipe.c:57-130 | The limit is attained, for every configuration and every clock reading after the epoch |
| InputPipe.BytesAreConserved | src/inputpipe.c:45-127 | For any partial reads, chunks of exactly the chunk size and partial chunks thrown away on idling concatenate, with what is pending, to the bytes read |
| InputPipe.AllInBounds | src/inputpipe.c:57-130 | Every chunk of every run is within those bounds |
| InputPipe.PlayTimesIncrease | src/inputpipe.c:57-130 | Unless the pipe is reopened, play times strictly increase, whatever the clock does |
| InputPipe.ChunkInOrderExactly | src/inputpipe.c:104-120 | In any state, the next chunk keeps the order of play times if and only if the cold start, or one chunk length after the time assigned last, comes after the last chunk |
| InputPipe.ReopenedInOrderExactly | src/inputpipe.c:155-160 | In every run in order that is reopened and whose next chunk comes in one read, the order is kept if and only if the cold start from that read comes after the last chunk |
| InputPipe.ReopeningGoesBack | src/inputpipe.c:155-160 | With the clock standing still, the chunk after a reopening is stamped earlier than the last |
| InputPipe.FirstIdleTimeoutExactly | src/inputpipe.c:93 | The first idle timeout comes after the length of the buffer if and only if that is zero |
| InputPipe.LaterIdleTimeouts | src/inputpipe.c:97 | The later ones do |
| InputPipe.RhythmIsKept | src/inputpipe.c:68-127 | Unless the first bytes come for an idle pipe, a chunk is completed after the time assigned last, or the pipe is reopened, the m-th further chunk is stamped exactly m chunk lengths later |
| InputPipe.IdleExactly | src/inputpipe.c:47-99 | In every run the pipe is idle if and only if no bytes, full buffer, or resumption with clients has set it going since its end was read, its timeout came, or it was reopened without clients, or since the start |
| InputPipe.ReadExactly | src/inputpipe.c:57-127 | A read is refused exactly if the last chunk lies more than 95 percent of the buffer ahead; else its bytes are taken in, and a chunk is given away exactly if they complete it |
| InputPipe.IdlingDiscards | src/inputpipe.c:47-55 | The idle timeout throws away exactly the pending bytes and keeps the last play time |
| InputPipe.FailedReadChangesNothing | src/inputpipe.c:68-74 | A failed read changes nothing, unless it is refused |
| InputPipe.InputPipeCtx.Handle | src/inputpipe.c:57-130 | The handler on its own buffer computes HandleInput and leaves the complete chunk in the buffer |
| InputPipe.InputPipeCtx.SetIdle | src/inputpipe.c:47-55 | Idling discards the partial chunk |
| Registry.Find | src/clientmgr.c:149-163 | The first stream with such a client |
| Registry.WithoutLookup | src/stream.c:136-142 | Taking a record out makes this client unknown and changes no other |
| Registry.WithLookup | src/stream.c:123-134 | Adding a record makes this client known in that stream and changes no other |
| Registry.DeleteKeeps | src/clientmgr.c:107-124 | Deleting removes record and, unless it is running, task of this client only, and keeps clients and tasks one to one |
| Registry.HelloKeeps | src/clientmgr.c:165-220 | A hello leaves the client registered once, on its port, with a task due in 5 s, and touches no other client |
| Registry.FireKeeps | src/clientmgr.c:52-55 | A purge task that fires removes its own client and itself only; dropping itself while running has no effect |
| Registry.MoveKeeps | src/socket.c:285-292 | Moving a client changes its stream and nothing else, task included |
| Registry.RegistryHolds | src/clientmgr.c:52-220 | In every run each client has at most one record over all streams, clients and tasks match one to one, and each task is due 5 s after the client's last hello |
| Registry.NobodyIsPurgedEarly | src/clientmgr.c:52-55 | A purge happens only to a registered client not heard for 5 s, and to no other |
| Registry.SilentClientsCanBePurged | src/clientmgr.c:205-208 | The purge task of a registered client can run if and only if the client has been silent for 5 s |
| Registry.ClientMgr.FindClient | src/clientmgr.c:149-163 | The search over all streams computes Find |
| Registry.ClientMgr.DeleteClient | src/clientmgr.c:107-124 | Computes Delete; the task it drops is pending or running |
| Registry.ClientMgr.RefreshClient | src/clientmgr.c:165-220 | Computes Hello and keeps the invariant |
| Registry.ClientMgr.ScheduleDeleteClient | src/clientmgr.c:52-55 | Computes Fire and keeps the invariant |
| Registry.ClientMgr.SetStream | src/socket.c:285-292 | Computes Move and keeps the invariant |
| Playback.ShavedSound | src/pcmchunk.c:62-77 | Playing some frames and then the shaved chunk is playing the chunk |
| Playback.PlayExactly | src/alsaplayer.c:192-241 | A call hands over the first frames of the current chunk: exactly as many as there is room for if anything is left over, otherwise all whole frames |
| Playback.OverflowIsRest | src/alsaplayer.c:223-232 | In every run the overflow is what is left of one chunk taken from the buffer after the writes since, each of exactly as many frames as there was room for |
| Playback.PlaybackConserves | src/alsaplayer.c:192-241 | However short the writes, the device gets every whole frame of every chunk taken exactly once and in order, but for what is still waiting |
| Playback.PlayTimeTrails | src/pcmchunk.c:72-76 | After k splits the time stamp trails the first unplayed frame by less than k ms and never leads it |
| Playback.AlsaPlayer.Handle | src/alsaplayer.c:192-241 | A call computes Play on the overflow chunk |

## Left out

- Vectors (src/vector.c) are sequences; their growth and shifting of memory are not modelled.
- Allocation does not fail and never reuses the address of a freed task; memory is a map from addresses to nodes, in which aliasing is as in the program.
- TaskQueue.TaskqueueCtx.TaskqueueRun: what callbacks post or reschedule is due after the time at which the loop started, without which it need not end; callbacks that use freed tasks are excluded.
- TaskQueue.TaskqueueCtx.MergePairs: the two calls in the argument list of the last merge are evaluated in one order.
- The function and data of a task are not represented in the queue; clean-up is counted together with the release of memory.
- Client.HandleAudio: the decoder is an arbitrary function of the chunk, without a state of its own, and its output is as long as the 16-bit size says; a first chunk without a duration, by which the program would divide, is not delivered.  Encoding, Opus and the resampling libraries are foreign code.
- System.Next: sequence numbers stay below 2^31 - 1, where the conversions to `int` are exact; the wrap-around of numbers, on which the two ends differ, is not modelled.
- System.Next: request tasks fire in any order and at any time, which includes the timed order; one stream and one client, all of whose audio packets stay in the network.
- System.Next: the shut-down of a client, hello messages and the volume itself are not part of the state machine; orders to stop or to change the volume are delivered at any time, whether or not the server sent one, each in a packet of its own.
- System.Next: the client's identifier and the numbers of its own packets are arbitrary.
- Wire.ParseAudio: a packet too short for its sizes is not parsed, where the program reads beyond its end.
- Wire.RequestsFrom: a segment of length zero, on which the program would not go on, ends the walk, and so does one that is cut off.
- InputPipe.HandleInput: time stamps are unbounded, where the chunk stores 32 bits of seconds.
- InputPipe.Next: idling, resuming and reopening happen at any time, in place of the timers and of the event loop that trigger them; of the timeouts only the due times are stated.
- Registry.Move: streams are identified by index; names and their comparison by prefix are left out, and so are the messages to clients.
- Registry.Next: clients' volume, latency and addresses are left out; handles of purge tasks are never reused.
- Playback.Play: the device takes at most what it is offered; errors of the device and the choice of the chunk (speed adjustment, silence, dropping) are left out.
- Sockets, polling, name resolution, signals, the command line, logging, JSON-RPC and the parsing of stream descriptions.
