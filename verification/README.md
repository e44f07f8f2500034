# GameTrace: verified model of its unbounded-run promises

GameTrace captures game traffic on probes and phones, decodes it with plugins, stores the
events and answers queries about them. This project models, in Dafny, the parts of it that
keep promises over unbounded runs, and proves those promises for every input, every failure
pattern and every interleaving the code allows:

- the live pipeline from capture through decoding to the write buffers (`Packets`,
  `PendingQueue`, `DecodePipeline`, `DecodeProgress`, `WriteBuffers`, `CaptureToStore`) and the offline re-decode
  (`DecodeRaw`);
- the proxy leases and their port ranges (`PortRange`, `ProxyLeases`, `LeaseSafety`,
  `LeaseAccounting`, `LeaseOverlap`, `LeaseLosses`, `LeaseSticky`, `LeaseLifecycle`,
  `LeaseRegistry`);
- the probe's uplink over its on-disk queue (`Spool`, `Ingest`, `IngestProgress`, `Uplink`);
- the query layer: filter pushdown, the two paging paths, the protocol catalog
  (`FilterPushdown`, `EventQuery`, `ProtocolCatalog`, `CatalogBuild`, `CatalogAggregator`);
- the frame codecs and stream loops (`ByteOrder`, `StreamParser`, `LengthPrefixed`,
  `WebSocketFrame`, `WebSocketFlow`, `WebSocketProgress`, `WebSocketSides`);
- the event-stream state machines: connection generations, request/response pairing, tunnel
  streams, relay epochs, check rules (`ConnTracker`, `ConnProgress`, `PairEngine`,
  `PairProgress`, `LogicalStream`, `TunnelMux`, `TunnelSkips`, `TunnelProgress`, `RelayEpochs`,
  `RelayProgress`, `CheckEngine`, `CheckFirings`);
- the packet-filter printer (`CaptureFilter`).

`dafny verify dfyconfig.toml` checks everything.

## How the model is built

Each component has a specification on values: a state datatype and one function per
operation or step, with the source's branches, constants and error paths. Properties of
single steps and of whole runs are lemmas about those functions. Where the source changes an
object in place, a class with the same fields implements the operation with the source's
loops, and its `ensures` equate the new state with the specification function applied to the
old one.

Where goroutines share state the model is a state machine whose steps are the pieces of code
between two synchronisation points (a channel operation, a section under a mutex, one call on
a port range), and any enabled step may come next. A method body cannot express other
goroutines moving in between, so the machines are functions on values; the sections
themselves are methods where they update an object (`LeaseRegistry`, `LogicalStream`,
`RelayEpochs`, `WriteBuffers`).

For most machines there are two kinds of theorems. What every step keeps says that nothing
wrong happens, in every run; the modules named `...Progress`, `LeaseSticky`, `LeaseLifecycle`
and `CheckFirings` say that the right thing does: exactly when a step has its effect, over
every run, and that a run achieving what the component is for exists from every state.

File systems, stores, plugins, networks and clocks appear as inputs: each write, send, read,
sync or timer carries the outcome it has in that run, and every outcome is allowed.
Assumptions made about code outside the model:

- a failed store write leaves the store unchanged, and so does a failed file write; removing a
  file works;
- waiting for a decode request yields a fixed result per request;
- projection rows computed from an event carry that event's id;
- new lease ids are fresh, and event ids are unique where a lemma says so;
- the rows a paged query reads do not change while it runs, and their order is fixed;
- integers have no width except where bytes, lengths and ports are limited by the code.

## What the code does not promise

Where a comment or document says more than the code does, the code is what is modelled, and
the exact condition or a concrete input is a lemma:

- `dropUnbacked` also discards projections whose event is already stored, and does not count
  them (`WriteBuffers.UncountedDiscardIff`, `WriteBuffers.StoredEventLosesItsProjection`);
- overlapping starts, or a start overlapping a release, of one lease lose a mobile port
  (`LeaseLosses.PortsAreLostIff` for whole runs, `LeaseAccounting.CommitLosesPortIff` for one
  commit; runs in `LeaseOverlap.OverlapLosesPort` and `LeaseLosses.ReleaseOverlapLosesPort`),
  and a lease can be created with agent port 0 when the agent range is full
  (`LeaseSafety.AgentPortMissingIff`);
- the port a device had is remembered under owner and device joined with a bar, so an owner
  whose name holds one can share a key with another (`LeaseSticky.KeysTellDevicesApart`);
- the spool removes segment files by the cursor in memory while a restart reads the cursor on
  disk. A comment takes a cursor into a removed segment for "everything was acknowledged"; the
  code returns an error there, because the test for a missing file does not see through the
  wrapped error (`Spool.OpensIff`, `Spool.OpensAfterUseIff`). Its clean-up then writes the write position as the cursor,
  so the opening after that skips records never sent (`Spool.CursorStaysBehindIff`,
  `Spool.SkippedRecordsAreGone`, `Spool.RestartCanLoseRecords`). The same happens when cursor
  or records cannot be read for a moment;
- opening a spool does not check the limit on unacknowledged bytes: records acknowledged since
  the cursor was saved count again (`Ingest.StaysWithinLimitIff`);
- `Append` returns an error for a record that is in the queue but whose sync failed, so the
  client counts a stored packet as dropped (`Ingest.ArrivalsAreAccounted`);
- `protocol == ""` is treated as fully pushed down although nothing is
  (`FilterPushdown.PureIsExactIff`, `EventQuery.TotalIsExactIff`), and the two paging paths
  treat a negative offset differently (`EventQuery.NegativeOffsetAgreesIff`);
- lp-decoder drops any buffer over 4 MiB although it accepts payloads up to 16 MiB, and never
  looks at the parameter byte's reserved bits; lp-decoder-v2's comment on its mask leaves out
  bit 5 (`LengthPrefixed.FramesSurviveSegmentationIff`, `LengthPrefixed.ParseIff`);
- the WebSocket fragment buffer is shared by both directions of a flow, so frames of one side
  can spoil a message of the other (`WebSocketSides.IntactIff`,
  `WebSocketFlow.DirectionsShareTheBuffer`), and frame versions repeat those of the handshake
  (`WebSocketFlow.HandshakeVersionsRepeat`);
- requests that follow a half-close, a reset or an overflow on a tunnel stream can be returned
  with one left out before them (`TunnelSkips.PrefixIff`);
- a forwarder that acts late on an old capture makes a relayed connection declare itself
  twice in one epoch (`RelayEpochs.OneOpenPerEpochIff`);
- an event keeps the plugin's correlation key only as long as its pairs all write one id
  (`PairEngine.KeySurvivesIff`), and an event can be paired with itself and become its own
  cause (`PairEngine.OwnCauseIff`, `PairEngine.NeighboursPair`).

## Model

| member | source | states |
|---|---|---|
| `PendingQueue.ShedIsLongestFit` | cmd/gt-pipeline/pending_decode.go:68-80 | shedding keeps the longest suffix within the byte limit, or the newest packet alone |
| `PendingQueue.PendingQueue.Append` | cmd/gt-pipeline/pending_decode.go:68-80 | a push sheds from the head exactly so, counts every shed packet, and keeps the byte counter equal to the sum of raw lengths |
| `PendingQueue.PendingQueue.Pop` | cmd/gt-pipeline/pending_decode.go:60-66 | takes the oldest packet and its bytes off |
| `PendingQueue.PendingQueue.HeadOr` | cmd/gt-pipeline/pending_decode.go:51-58 | the oldest waiting packet, or the fallback when none waits |
| `DecodePipeline.LiveCaptureKeepsOrder` | cmd/gt-pipeline/capture_task.go:441-469 | in every reachable state sent, then queued, then in hand is in capture order, and fed packets are sent, queued, in hand or counted as dropped |
| `DecodePipeline.ReplayDropsNothing` | cmd/gt-pipeline/capture_task.go:441-469 | pcap replay drops nothing: unless cancelled, everything fed is sent or in hand, in order |
| `DecodePipeline.DecodingKeepsSubmissionOrder` | cmd/gt-pipeline/capture_task.go:518-578 | events processed are a prefix of the per-packet results in submission order under all interleavings; window at most 16, channels within their sizes |
| `DecodePipeline.ShutdownIsBounded` | cmd/gt-pipeline/capture_task.go:518-578 | once decodeCh is closed every run of the two goroutines is finite |
| `DecodePipeline.ShutdownNeverStuck` | cmd/gt-pipeline/capture_task.go:518-578 | until the capture loop has finished, one of the two can go on |
| `DecodePipeline.ShutdownProcessesEverything` | cmd/gt-pipeline/capture_task.go:518-578 | when both have stopped, the events of every submitted packet are processed, in submission order |
| `Packets.PresentKeepsOrder` | cmd/gt-pipeline/capture_task.go:471-475 | the non-nil events of a batch, in the batch's order |
| `DecodePipeline.ReplayNeverStuck` | cmd/gt-pipeline/capture_task.go:498-517 | a replayed packet waiting for room never deadlocks against the worker |
| `DecodeProgress.DecoderAttachedIff` | cmd/gt-pipeline/capture_task.go:652-690 | in every run a decoder is attached if and only if some step attached one and no later step detached it |
| `DecodeProgress.DrainEndsWhen` | cmd/gt-pipeline/capture_task.go:443-453 | after any run, a drain that ends has emptied the overflow queue, or there is no decoder, or decodeCh is full |
| `DecodeProgress.DrainSends` | cmd/gt-pipeline/capture_task.go:443-453 | a drain sends the waiting packets, oldest first, until none waits or decodeCh is full, none without a decoder, and changes nothing else |
| `DecodeProgress.AttachDrains` | cmd/gt-pipeline/capture_task.go:677-690 | attaching a decoder, at any time, drains what waited for one |
| `DecodeProgress.StopDrains` | cmd/gt-pipeline/capture_task.go:500-517 | a session that stops drains once more and then closes decodeCh |
| `DecodeProgress.CaptureNeverBlocks` | cmd/gt-pipeline/capture_task.go:455-469 | whatever the worker does and with or without a decoder, the capture loop alone can take in the next live packet and be idle again |
| `DecodeProgress.FedPacketIsSentIff` | cmd/gt-pipeline/capture_task.go:455-469 | a packet fed live becomes the last one sent exactly when, as it is placed, a decoder is attached, nothing waits and decodeCh has room; otherwise it is pushed on the queue; what waited is sent or still waits, in order |
| `DecodeProgress.FedPacketIsSent` | cmd/gt-pipeline/capture_task.go:455-469 | with a decoder, an empty queue and room, a fed packet is the next one sent, whatever the worker does meanwhile |
| `DecodeProgress.EverythingFedIsSent` | cmd/gt-pipeline/capture_task.go:455-469 | in a live run with a decoder whenever a packet is fed and room whenever one is placed, nothing waits or is dropped and between feeds exactly the fed packets have been sent, in order |
| `DecodeProgress.SessionDecodesEverything` | cmd/gt-pipeline/capture_task.go:518-578 | for any packets and any decode results there is a live and a replayed session that attaches a decoder, sends, takes and submits all of them in order, processes all their events and ends |
| `WriteBuffers.RetainOnFailure` | cmd/gt-pipeline/capture_task.go:162-178 | in place: the newest entries up to the limit stay in order, and the number cut off is counted |
| `WriteBuffers.DropUnbacked` | cmd/gt-pipeline/capture_task.go:180-197 | in place: exactly the projections whose event is still buffered stay, in order |
| `WriteBuffers.NoOrphanProjections` | cmd/gt-pipeline/capture_task.go:280-341 | over any flushes with any write failures, a stored projection refers to a stored event |
| `WriteBuffers.NothingLostUncounted` | cmd/gt-pipeline/capture_task.go:280-341 | raw packets and events: produced is stored plus buffered plus overflow-counted, store followed by buffer in production order |
| `WriteBuffers.WorkingFlushStoresAll` | cmd/gt-pipeline/capture_task.go:280-341 | after any run, a flush whose three writes succeed leaves all three buffers empty and each table grown by exactly its buffer; with no overflow counted the tables hold all that was produced |
| `WriteBuffers.FailedRawsRetain` | cmd/gt-pipeline/capture_task.go:281-292 | a failed write of raw packets stores none and keeps the newest 32768, counting the others |
| `WriteBuffers.FailedEventsRetain` | cmd/gt-pipeline/capture_task.go:293-310 | the same for events up to 65536; while one waits no projection is written, nor dropped unless events overflowed |
| `WriteBuffers.FailedChangesRetain` | cmd/gt-pipeline/capture_task.go:311-327 | the same for projections up to 131072, once no event waits |
| `WriteBuffers.ProjectionsConservedWithoutEventOverflow` | cmd/gt-pipeline/capture_task.go:280-341 | projections keep order always, and are conserved as long as no event overflowed |
| `WriteBuffers.UncountedDiscardIff` | cmd/gt-pipeline/capture_task.go:162-197 | a flush discards projections uncounted if and only if events overflow and a buffered projection's event is not kept |
| `WriteBuffers.StoredEventLosesItsProjection` | cmd/gt-pipeline/capture_task.go:180-197 | a concrete run in which a stored event's projection is discarded |
| `WriteBuffers.SessionBuffers.ProcessDecoded` | cmd/gt-pipeline/capture_task.go:471-497 | decoded events and their projections enter the buffers in order |
| `WriteBuffers.SessionBuffers.FlushAll` | cmd/gt-pipeline/capture_task.go:280-341 | one flush: three writes in order, each retained with its limit on failure (WorkingFlushStoresAll and the Failed... lemmas say what that amounts to) |
| `CaptureToStore.StoredInCaptureOrder` | cmd/gt-pipeline/capture_task.go:762-820 | end to end, for every interleaving and write failure: stored events followed by buffered ones are per-packet results in capture order, and processed is stored plus buffered plus overflow-counted |
| `CaptureToStore.ProducedIsExact` | cmd/gt-pipeline/capture_task.go:471-498 | over any run what is produced for the store is exactly the packets captured, the events processed, and the projections of each of these events, in order |
| `CaptureToStore.EndedSessionIsStored` | cmd/gt-pipeline/capture_task.go:747-757 | an ended session without raw or event overflow whose last flush is written has stored exactly every captured packet and the events of all submitted packets, in order; with projections written and none overflowed, every event's projections, and nothing stays buffered |
| `PortRange.AllocateTakesNextFree` | cmd/gt-pipeline/proxy_lease.go:165-178 | allocation fails exactly on a full range, otherwise takes the first free port in rotation order and moves the cursor past it |
| `PortRange.PortRange.TakeNext` | cmd/gt-pipeline/proxy_lease.go:165-178 | the allocation loop computes that |
| `PortRange.PortRange.TakeThis` | cmd/gt-pipeline/proxy_lease.go:180-194 | reserves a given port if it is in range and free |
| `PortRange.PortRange.GiveBack` | cmd/gt-pipeline/proxy_lease.go:196-201 | releasing is idempotent |
| `LeaseSafety.LeasesNeverSharePorts` | cmd/gt-pipeline/proxy_lease.go:256-384 | in every interleaving leases in the table have distinct nonzero control and mobile ports, and agent ports unless the range was exhausted, all marked used |
| `LeaseSafety.OwnersStayWithinLimit` | cmd/gt-pipeline/proxy_lease.go:336-351 | in every interleaving no owner has more than five leases |
| `LeaseSafety.AgentPortMissingIff` | cmd/gt-pipeline/proxy_lease.go:371-384 | the agent port of a new lease is 0 if and only if the agent range is full |
| `LeaseSafety.HoldingStep` | cmd/gt-pipeline/proxy_lease.go:405-562 | every step keeps that no port is held twice and every held port is marked used |
| `LeaseAccounting.NoPortIsLost` | cmd/gt-pipeline/proxy_lease.go:405-562 | if starts and releases of one lease take turns, used ports are exactly those of table leases, leases being reclaimed and operations in flight, however sessions end and stops run |
| `LeaseAccounting.QuiescentPorts` | cmd/gt-pipeline/proxy_lease.go:663-751 | with nothing in flight, used ports are exactly those of the leases in the table |
| `LeaseAccounting.CommitLosesPortIff` | cmd/gt-pipeline/proxy_lease.go:496-502 | committing a start keeps mobile ports accounted for if and only if the lease has none yet and is still in the table or being reclaimed |
| `LeaseOverlap.OverlapLosesPort` | cmd/gt-pipeline/proxy_lease.go:430-502 | a concrete run of two overlapping starts that ends with a used port nobody holds |
| `LeaseLosses.PortsAreLostIff` | cmd/gt-pipeline/proxy_lease.go:405-562 | over a whole run with any overlaps, mobile ports stay accounted for if and only if every committed start finds its lease without a mobile port, in the table or being reclaimed |
| `LeaseLosses.OtherPortsAreKept` | cmd/gt-pipeline/proxy_lease.go:666-751 | agent and control ports stay accounted for over every run, whatever overlaps |
| `LeaseLosses.ReleaseOverlapLosesPort` | cmd/gt-pipeline/proxy_lease.go:430-562 | a concrete run of a start and a release that overlap, ending with a used port on a lease that is gone |
| `LeaseSticky.DeviceKeepsItsPort` | cmd/gt-pipeline/proxy_lease.go:346-384 | after any run, whatever others do between a create's allocation and its insertion: without NoSticky the new lease has the agent port of the last lease with the same key if nobody holds it; otherwise, and with NoSticky, the next free one in rotation |
| `LeaseSticky.StickyIsLastPort` | cmd/gt-pipeline/proxy_lease.go:346-350 | over any run the port remembered under a key is that of the last lease with this key that entered the table |
| `LeaseSticky.KeysTellDevicesApart` | cmd/gt-pipeline/proxy_lease.go:230-232 | owners without a bar in their names never share a key, nor do two devices of one owner |
| `LeaseLifecycle.CreateWorks` | cmd/gt-pipeline/proxy_lease.go:256-351 | from any state, an owner below the limit gets an idle lease whenever a control port is free: the next one, and the agent port of the device's last lease or the next free one |
| `LeaseLifecycle.CreateFailsIff` | cmd/gt-pipeline/proxy_lease.go:270-279 | a create fails to get its ports exactly when the control range is full, and then leaves everything as it was |
| `LeaseLifecycle.StartGoesOnIff` | cmd/gt-pipeline/proxy_lease.go:430-446 | a start takes a mobile port, the next free one, exactly on an idle lease with a running agent while one is free; otherwise nothing changes |
| `LeaseLifecycle.StartWorks` | cmd/gt-pipeline/proxy_lease.go:405-502 | from any state, an idle lease comes to capture on the next free mobile port, and nothing else changes |
| `LeaseLifecycle.SessionEndWorks` | cmd/gt-pipeline/proxy_lease.go:701-730 | a session that ends leaves its lease idle and gives the mobile port back |
| `LeaseLifecycle.StopWorks` | cmd/gt-pipeline/proxy_lease.go:520-562 | so does stopping the capture |
| `LeaseLifecycle.ReleaseWorks` | cmd/gt-pipeline/proxy_lease.go:666-751 | a lease, capturing or idle, is released: it leaves the table and gives all its ports back |
| `LeaseLifecycle.ReturningDevice` | cmd/gt-pipeline/proxy_lease.go:346-384 | from any state with free ports: create for a device, release and create again go through, and the second lease has the first one's agent port |
| `LeaseLifecycle.FailedCreateGivesBack` | cmd/gt-pipeline/proxy_lease.go:281-320 | a create whose agent cannot be started gives both ports back |
| `LeaseLifecycle.LateCreateGivesBack` | cmd/gt-pipeline/proxy_lease.go:336-344 | so does one that finds the owner at the limit when it inserts its lease |
| `LeaseLifecycle.FailedStartGivesBack` | cmd/gt-pipeline/proxy_lease.go:448-494 | a start that fails before or after its session is up gives the mobile port back and leaves the lease idle |
| `LeaseLifecycle.FailedStopChangesNothing` | cmd/gt-pipeline/proxy_lease.go:543-546 | a stop that cannot stop the session changes nothing: the lease goes on capturing |
| `LeaseLifecycle.FailedReleaseChangesNothing` | cmd/gt-pipeline/proxy_lease.go:684-689 | nor does a release that cannot: the lease stays in the table |
| `LeaseRegistry.Registry.CountLeases` | cmd/gt-pipeline/proxy_lease.go:564-573 | counts the owner's leases in the table |
| `LeaseRegistry.Registry.AllocateAgentPort` | cmd/gt-pipeline/proxy_lease.go:371-384 | the device's remembered port if it is free and wanted, else the next one, else 0 (over runs: LeaseSticky.DeviceKeepsItsPort) |
| `LeaseRegistry.Registry.AllocateForCreate` | cmd/gt-pipeline/proxy_lease.go:270-279 | agent and control port, with the agent port given back when there is no control port |
| `LeaseRegistry.Registry.Insert` | cmd/gt-pipeline/proxy_lease.go:336-351 | the limit is checked again under the lock; the lease and its remembered port are recorded |
| `LeaseRegistry.Registry.BeginCapture` | cmd/gt-pipeline/proxy_lease.go:430-446 | only an idle lease with a running agent takes a mobile port |
| `LeaseRegistry.Registry.CommitCapture` | cmd/gt-pipeline/proxy_lease.go:496-502 | session and port are written to the lease |
| `LeaseRegistry.Registry.ClearCapture` | cmd/gt-pipeline/proxy_lease.go:704-724 | the table's lease with this session gives up session and mobile port; also the session-end hook |
| `LeaseRegistry.Registry.Remove` | cmd/gt-pipeline/proxy_lease.go:732-747 | only the call that removes the lease gives its ports back |
| `LeaseSafety.ClearStep` | cmd/gt-pipeline/pipeline_service.go:424-449 | a session ending on its own keeps every invariant on held ports |
| `Spool.AppendKeeps` | pkg/spool/queue.go:294-322 | a record is stored at the end of the log or nothing is, also when its sync fails |
| `Spool.AppendOutcomeIff` | pkg/spool/queue.go:294-364 | an append is rejected if and only if the unacknowledged bytes plus 4 plus the size exceed the limit, or a needed segment roll fails, or the write fails; it is stored without an error if and only if none of these happens and the sync succeeds |
| `Ingest.StaysWithinLimitIff` | pkg/spool/queue.go:294-322 | over a whole run unacknowledged bytes stay within the limit if and only if no opening finds more than that behind the saved cursor |
| `Spool.AckKeeps` | pkg/spool/queue.go:433-458 | acknowledging moves the read cursor over in-flight records only, and never changes the log |
| `Spool.OpensIff` | pkg/spool/queue.go:176-259 | opening succeeds if and only if nothing fails and the saved cursor's segment was not removed, and then starts exactly there |
| `Spool.OpensAfterUseIff` | pkg/spool/queue.go:433-495 | when a process stops after any calls on a queue, the next opening finds the cursor's segment if and only if no acknowledgement left the read cursor in a later segment than the saved one |
| `Spool.CursorStaysBehindIff` | pkg/spool/queue.go:142-173 | an opening leaves a cursor past what was acknowledged if and only if it fails before the queue is filled, its clean-up writes the cursor, and something is unacknowledged |
| `Spool.SkippedRecordsAreGone` | pkg/spool/queue.go:522-549 | the opening after such a one succeeds and delivers none of the unacknowledged records |
| `Spool.CloseThenOpenResumes` | pkg/spool/queue.go:522-549 | closing and opening again goes on exactly where the queue was |
| `Spool.RestartCanLoseRecords` | pkg/spool/queue.go:483-495 | a concrete queue that loses an unsent record by a failed opening and the one after it |
| `Ingest.RestartRepeatsFew` | pkg/spool/queue.go:59-61 | after any run in which the cursor could be saved, a process that stops at any point makes the next one repeat fewer than 512 acknowledged records, and deliver all unacknowledged ones |
| `Spool.Queue.Append` | pkg/spool/queue.go:294-340 | quota, segment roll, write and sync outcomes, byte counter |
| `Spool.Queue.Next` | pkg/spool/queue.go:383-429 | delivers up to n records of one segment and marks them in flight; nothing changes on a read error |
| `Spool.Queue.AckN` | pkg/spool/queue.go:433-458 | clamps to what is in flight; a cursor that cannot be saved is an error after the records are gone |
| `Spool.Queue.Requeue` | pkg/spool/queue.go:462-466 | everything in flight is delivered again |
| `Spool.Queue.Scan` | pkg/spool/queue.go:267-290 | the records from the cursor on are indexed and their bytes counted |
| `Spool.Queue.Close` | pkg/spool/queue.go:522-549 | saves the read cursor; an error when it cannot |
| `Spool.Open` | pkg/spool/queue.go:142-259 | the steps of opening in the source's order, with the cursor each failure leaves behind |
| `Ingest.StreamsHaveNoGaps` | cmd/gt-agent/ingest.go:79-236 | over any run of disconnects, failures and restarts: pending is exactly the in-flight slice, and a stream's batches, nonempty and at most batchSize, are the log from where it was opened to the read cursor |
| `Ingest.CursorNeverAheadIff` | pkg/spool/queue.go:142-259 | over a whole run the saved cursor stays behind what was acknowledged if and only if no opening skips unacknowledged records |
| `Ingest.AcknowledgedWasSent` | cmd/gt-agent/ingest.go:240-254 | over any run of streams, closings, stops and failed or successful openings, every acknowledged record is in a batch that was sent, unless an opening skipped records |
| `Ingest.ArrivalsAreAccounted` | cmd/gt-agent/ingest.go:197-209 | arrivals are stored, in order, plus dropped, less those whose sync failed; equality exactly when no sync failed |
| `Ingest.WorkingIterationAcks` | cmd/gt-agent/ingest.go:158-236 | while something is unacknowledged, a working iteration acknowledges some of it |
| `Ingest.BacklogDrains` | cmd/gt-agent/ingest.go:158-236 | a stream that works for as many iterations as there are records empties the spool |
| `Ingest.IterateKeeps` | cmd/gt-agent/ingest.go:158-236 | one iteration of the select loop keeps the invariant for every outcome |
| `Ingest.IterationsKeep` | cmd/gt-agent/ingest.go:158-236 | one stream over any inputs keeps invariant and accounting |
| `IngestProgress.ArrivalIsReceivedIff` | cmd/gt-agent/ingest.go:158-226 | an iteration receives the packet that arrives exactly when it gets to its select: a batch is under way, or the spool is readable and does not hold a full batch in one segment |
| `IngestProgress.EverythingThatFitsIsKept` | cmd/gt-agent/ingest.go:197-209 | over any run the arrivals counted are those received; if each fits the limit as it arrives and its file operations succeed, none is dropped and the log holds exactly the arrivals, in order |
| `IngestProgress.ArrivalJoinsBatch` | cmd/gt-agent/ingest.go:209-226 | a packet stored while a batch is under way joins it, and the batch is sent as soon as it is full |
| `IngestProgress.CancelSendsBatch` | cmd/gt-agent/ingest.go:188-196 | cancelling sends and acknowledges the batch under way, if sending works, and ends the stream |
| `IngestProgress.NewStreamDrains` | cmd/gt-agent/ingest.go:79-236 | after any loss of a stream a new one can be opened, and when it works it sends everything in the spool |
| `IngestProgress.CloseAndReopenResumes` | pkg/spool/queue.go:522-549 | closing and opening the queue between two streams goes on with the same unacknowledged records |
| `Uplink.Client.PushOnce` | cmd/gt-agent/ingest.go:79-236 | the loop of one stream computes the specified iterations |
| `Uplink.Client.Turn` | cmd/gt-agent/ingest.go:158-235 | fetch, send when full, otherwise the select |
| `Uplink.Client.Receive` | cmd/gt-agent/ingest.go:197-226 | a packet goes to the spool first, and from there into the batch under way |
| `Uplink.Client.SendAndAck` | cmd/gt-agent/ingest.go:240-254 | acknowledges only after a successful send; a failed acknowledgement is not an error |
| `FilterPushdown.ParseFilterPushdown` | cmd/gt-mcp/filter_pushdown.go:31-59 | the loop over the conjuncts picks the first nonempty protocol comparison and decides purity |
| `FilterPushdown.ConjunctsMeanTheFilter` | cmd/gt-mcp/filter_pushdown.go:63-68 | a filter accepts an event exactly when all its conjuncts do, errors included |
| `FilterPushdown.PushdownLosesNothing` | cmd/gt-mcp/filter_pushdown.go:31-59 | every event the filter accepts satisfies the pushed-down condition |
| `FilterPushdown.PureIsOneComparison` | cmd/gt-mcp/filter_pushdown.go:57-57 | pure filters are exactly the single protocol comparisons |
| `FilterPushdown.PureIsExactIff` | cmd/gt-mcp/filter_pushdown.go:72-100 | a pure filter and the pushed-down condition accept the same events if and only if the literal is not empty |
| `FilterPushdown.FirstComparisonIsPushed` | cmd/gt-mcp/filter_pushdown.go:45-56 | the first conjunct that compares the protocol with a nonempty literal is pushed down; without one nothing is |
| `FilterPushdown.ComparisonsAreRecognised` | cmd/gt-mcp/filter_pushdown.go:61-100 | the protocol may stand on either side, and the comparison anywhere in a chain of && and and |
| `EventQuery.ListDecodedData` | cmd/gt-mcp/main.go:1063-1178 | the handler's two paths, batches of 500 included, compute the specified answer |
| `EventQuery.StreamFilter` | pkg/store/event_page.go:77-116 | batches cover every candidate once, in order |
| `EventQuery.SelectMore` | cmd/gt-mcp/main.go:1136-1168 | filtering keeps exactly the matching rows, in order |
| `EventQuery.PageMore` | cmd/gt-mcp/main.go:1162-1165 | one more match goes on the page exactly when its number is past the offset and within the limit |
| `EventQuery.HandlerIsExact` | cmd/gt-mcp/main.go:1103-1178 | whichever path is taken, total and page are those of the matching events |
| `EventQuery.TotalIsExactIff` | cmd/gt-mcp/main.go:1103-1127 | without label filters the total is right for all tables if and only if the filter is not a comparison with the empty string |
| `EventQuery.NegativeOffsetAgreesIff` | pkg/store/event_page.go:34-71 | when the two paths agree for a negative offset |
| `StreamParser.SegmentationDoesNotMatter` | examples/lp-decoder/decode.go:62-82 | for any way of cutting a stream that never overfills the buffer, frames and residue are those of one parse of the whole |
| `StreamParser.SegmentationMattersIff` | examples/lp-decoder/decode.go:62-82 | for a parser that throws nothing away, exactly then |
| `StreamParser.UncappedSegmentation` | examples/lp-decoder-v2/main.go:76-95 | without a cap, for every way of cutting |
| `StreamParser.ShortStreamsFit` | examples/lp-decoder/decode.go:66-70 | a stream no longer than the cap never overfills the buffer |
| `ByteOrder.FieldRoundTrip` | examples/lp-decoder/frame.go:86-102 | a length field of any width and byte order reads back what was written |
| `ByteOrder.FieldDetermines` | examples/lp-decoder/frame.go:86-102 | and is the only field that reads so |
| `LengthPrefixed.ParseInvertsEncode` | examples/lp-decoder/frame.go:62-114 | every width, byte order and payload up to 16 MiB parses to itself and its size, whatever follows |
| `LengthPrefixed.ParseIff` | examples/lp-decoder/frame.go:62-114 | lp-decoder accepts exactly the encoded frames, up to the reserved bits it ignores |
| `LengthPrefixed.ParseV2Iff` | examples/lp-decoder-v2/main.go:98-153 | lp-decoder-v2 accepts exactly the encoded frames |
| `LengthPrefixed.FramesSurviveSegmentationIff` | examples/lp-decoder/decode.go:62-82 | frames written are recovered if and only if no segment takes the buffer over 4 MiB |
| `LengthPrefixed.FramesSurviveSegmentationV2` | examples/lp-decoder-v2/main.go:76-95 | frames written are recovered however they were cut |
| `LengthPrefixed.Flow.Decode` | examples/lp-decoder/decode.go:62-82 | the per-flow loop with its cap computes the specified parse |
| `LengthPrefixed.FlowV2.Decode` | examples/lp-decoder-v2/main.go:76-95 | the resynchronising loop computes the specified parse |
| `WebSocketFrame.Parse` | examples/ws-decoder/frame.go:29-76 | the parser, step by step, computes the specified frame |
| `WebSocketFrame.UnmaskInto` | examples/ws-decoder/frame.go:67-74 | the unmasking loop |
| `WebSocketFrame.UnmaskTwice` | examples/ws-decoder/frame.go:67-74 | masking and unmasking are the same operation (section 5.3 of RFC 6455) |
| `WebSocketFrame.ParseInvertsEncode` | examples/ws-decoder/frame.go:29-76 | every frame up to 2^30 bytes, masked or not, in every length form, parses to itself and its exact size (section 5.2 of RFC 6455) |
| `WebSocketFrame.ParsedIsEncoded` | examples/ws-decoder/frame.go:29-76 | nothing but an encoding of the parsed frame is accepted |
| `WebSocketFrame.ParserIsStable` | examples/ws-decoder/frame.go:23-28 | bytes that follow never change what was recognised |
| `WebSocketFlow.FragmentsBecomeOneMessage` | examples/ws-decoder/emit.go:102-135 | a one-direction message in any fragments, other frames interleaved, gives one event with the first opcode and the concatenated payload (section 5.4 of RFC 6455) |
| `WebSocketFlow.ControlsPass` | examples/ws-decoder/emit.go:109-112 | every control frame gives its event, in order |
| `WebSocketFlow.VersionsHaveNoGaps` | examples/ws-decoder/emit.go:232-242 | state-change versions number a flow's frame events without gaps |
| `WebSocketFlow.HandshakeVersionsRepeat` | examples/ws-decoder/emit.go:244-261 | the first two frame events carry the versions of the handshake's request and response again |
| `WebSocketSides.IntactIff` | examples/ws-decoder/emit.go:118-134 | whatever the bytes, a message of one side comes out intact if and only if up to its first byte the other side's bytes are out of the buffer again and its last begun message is of the same kind, and from then on it sends no text or binary frame, no final continuation frame and none with a payload |
| `WebSocketSides.IntactAsSentIff` | examples/ws-decoder/emit.go:118-134 | with given bytes that tell the sides apart, the same for this one message |
| `WebSocketFlow.EventsDoNotDependOnSegments` | examples/ws-decoder/decode.go:78-114 | after the handshake, what a direction emits does not depend on how its bytes were cut, within the cap |
| `WebSocketProgress.SwitchStartsFrames` | examples/ws-decoder/decode.go:89-114 | the 101 response gives its event, and everything behind it, also in the same segment, is read as frames |
| `WebSocketProgress.RequestIsAnnounced` | examples/ws-decoder/decode.go:89-102 | a request to upgrade gives its event, any other request none, and the handshake goes on |
| `WebSocketProgress.OtherResponsesAreSkipped` | examples/ws-decoder/decode.go:89-102 | a response that does not switch gives no event and is skipped |
| `WebSocketProgress.CountsMatchEvents` | examples/ws-decoder/emit.go:139-200 | a flow's counters count exactly the text messages, other messages and control frames it emitted |
| `WebSocketFlow.Flow.EmitFrame` | examples/ws-decoder/emit.go:102-135 | the flow object computes the specified emission |
| `WebSocketFlow.Flow.Decode` | examples/ws-decoder/decode.go:78-114 | handshake phase, frame phase and cap of the per-flow loop |
| `ConnTracker.SameIdIff` | cmd/gt-pipeline/conn_tracker.go:60-111 | two packets share an identity if and only if they share the endpoints and no SYN, reset, second FIN or eviction lies between |
| `ConnTracker.IdsAreNotReused` | cmd/gt-pipeline/conn_tracker.go:113-122 | an identity never comes back after another one of its connection |
| `ConnTracker.TableIsBounded` | cmd/gt-pipeline/conn_tracker.go:107-139 | the table holds at most 8192 connections plus the packets since the last sweep |
| `ConnTracker.CanonicalIff` | cmd/gt-pipeline/conn_tracker.go:141-150 | both directions, and only they, share a key |
| `ConnProgress.TrackedIff` | cmd/gt-pipeline/conn_tracker.go:60-85 | a packet is given an identity exactly when it is TCP or UDP with both addresses and none given; two are of one connection exactly when protocol and the set of endpoints agree |
| `ConnProgress.SweptIff` | cmd/gt-pipeline/conn_tracker.go:124-139 | a connection is thrown out if and only if it is a 256th packet and its last packet is over 600 s (TCP) or 120 s (UDP) ago, or more than 8192 others are not idle |
| `ConnProgress.OpenConnectionKeepsId` | cmd/gt-pipeline/conn_tracker.go:60-111 | two packets share their identity if between them there is no SYN without ACK, no reset, FINs of at most one endpoint, no silence longer than the limit, and no full table |
| `ConnProgress.BoundariesSeparate` | cmd/gt-pipeline/conn_tracker.go:80-105 | they do not if the second opens the connection, or a reset or FINs of both endpoints lie between |
| `ConnTracker.Tracker.Assign` | cmd/gt-pipeline/conn_tracker.go:60-111 | one packet: which are left alone, which instance, when it retires, when the sweep runs |
| `ConnTracker.Tracker.Sweep` | cmd/gt-pipeline/conn_tracker.go:124-139 | idle instances go; over the limit all go |
| `PairEngine.PairedIff` | cmd/gt-pipeline/semantic_hook.go:350-393 | a hit is paired with another if and only if that one waits under the same pool key, same connection, rule and key, other side |
| `PairEngine.HitsAreUsedOnce` | cmd/gt-pipeline/semantic_hook.go:350-393 | every hit is used in at most one pair |
| `PairEngine.PartnerIsEarlier` | cmd/gt-pipeline/semantic_hook.go:350-393 | the partner arrived earlier, whichever side it is |
| `PairEngine.RolesFollowSides` | cmd/gt-pipeline/semantic_hook.go:361-370 | the sides of the hits decide which event is the request, whichever came first |
| `PairEngine.TracesNameTheLastPair` | cmd/gt-pipeline/semantic_hook.go:350-380 | at every moment of every run an event's correlation is the request's id of its last pair and its cause that of the last pair it answers; without one they are the plugin's |
| `PairEngine.KeySurvivesIff` | cmd/gt-pipeline/semantic_hook.go:395-410 | over a run the plugin's key is still on the event if, and unless it equals such an id only if, no two of its pairs write different ids |
| `PairEngine.OwnCauseIff` | cmd/gt-pipeline/semantic_hook.go:355-380 | an event is its own cause if and only if the last pair it answers joins it with itself |
| `PairEngine.NeighboursPair` | cmd/gt-pipeline/semantic_hook.go:350-380 | two matching hits in a row are a pair, also of one event |
| `PairEngine.PoolIsBounded` | cmd/gt-pipeline/semantic_hook.go:383-424 | no pool of any run holds more than 4096 hits |
| `PairProgress.TimelyCounterpartPairs` | cmd/gt-pipeline/semantic_hook.go:350-393 | a waiting hit is paired with the next hit under its key on the other side, if nothing in between came more than 30 s after it and the pool did not fill up |
| `PairProgress.PairsBelongTogether` | cmd/gt-pipeline/semantic_hook.go:355-372 | hits that are paired have the same connection, rule and key, and different sides |
| `PairProgress.OnlyExpiredLeave` | cmd/gt-pipeline/semantic_hook.go:383-424 | while the pool is not full a waiting hit is thrown out exactly on a 512th insertion that finds it older than 30 s, and the new hit waits |
| `PairProgress.FullPoolMakesRoom` | cmd/gt-pipeline/semantic_hook.go:383-424 | a full pool gives up its old hits to take a new one, and all of them when none is old |
| `PairProgress.PoolKeysTellHitsApart` | cmd/gt-pipeline/semantic_hook.go:352-358 | connections and rules without a NUL in their names never share a pool key |
| `PairEngine.Engine.ApplyPairs` | cmd/gt-pipeline/semantic_hook.go:350-393 | the hits of an event are handled in order, changing only waiting events and this one |
| `PairEngine.Engine.ApplyHit` | cmd/gt-pipeline/semantic_hook.go:355-391 | one hit pairs two event objects or waits |
| `PairEngine.Engine.Evict` | cmd/gt-pipeline/semantic_hook.go:412-424 | expired hits go; if the pool is still full all go |
| `LogicalStream.DeliveryKeeps` | sdk/tunnel.go:216-235 | queueing a request keeps order and bounds, and turns one away unclosed only by overflowing |
| `LogicalStream.TunnelStream.Close` | sdk/tunnel.go:53-63 | only the first close counts, and it cancels the context |
| `LogicalStream.TunnelStream.Enqueue` | sdk/tunnel.go:226-234 | the non-blocking select: queue, discard or overflow |
| `LogicalStream.TunnelStream.RecvBegins` | sdk/tunnel.go:72-79 | a failed stream is reported before anything is drained |
| `LogicalStream.TunnelStream.RecvEnds` | sdk/tunnel.go:81-101 | the second select, in each of its cases |
| `TunnelMux.RequestsArriveInOrder` | sdk/tunnel.go:193-259 | in every interleaving each stream returns its requests in order without repeats, a prefix if its frames keep to the rule below, at most one after a failure, queue at most 64 |
| `TunnelSkips.PrefixIff` | sdk/tunnel.go:71-102 | for every sequence of frames on a stream: the consumer gets a prefix of the requests in every run of the tunnel if and only if at most one request follows the first half-close, reset or malformed frame and, when more than 64 precede it, there are at most 65; otherwise some run leaves one out |
| `TunnelSkips.OneAfterOverflow` | sdk/tunnel.go:223-235 | for every such sequence with an overflow: a run in which the queue is drained before the overflow closes the stream, and the next request is returned |
| `TunnelSkips.TwoAfterCut` | sdk/tunnel.go:81-101 | for every sequence with two requests after a closing frame: a run that discards one and returns the next |
| `TunnelMux.OneEndPerStream` | sdk/tunnel.go:237-249 | every opened stream attempts exactly one End, when its consumer returns |
| `TunnelMux.StreamsAreIsolated` | sdk/tunnel.go:161-181 | frames and consumers of one stream never change another |
| `TunnelMux.ReceiverNeverWaits` | sdk/tunnel.go:223-235 | the receive loop never waits for a consumer |
| `TunnelMux.StepKeeps` | sdk/tunnel.go:142-259 | every step of receive loop, consumers and shutdown keeps the invariant |
| `TunnelProgress.ClosedStreamDrains` | sdk/tunnel.go:71-102 | after an orderly close Recv returns all that is queued, in order, and then the end each time |
| `TunnelProgress.FirstCloseDecides` | sdk/tunnel.go:53-79 | the first close decides; resets, malformed requests and overflows fail the stream and Recv reports that first, a half-close and the end of the tunnel do not; a waiting Recv can return |
| `TunnelProgress.NoConsumerIsStuck` | sdk/tunnel.go:142-182 | over every run: once the tunnel has stopped, each stream whose consumer has not returned is closed, so its Recv can return |
| `TunnelProgress.ReusedIdOpensNewStream` | sdk/tunnel.go:193-235 | requests of an id go to its stream while that is in the table; after its consumer has returned the next one opens a new stream |
| `DecodeRaw.DecodingIsExact` | cmd/gt-pipeline/decode_raw.go:187-276 | a decoding ends without an error exactly when its last flush could write what was buffered; the tables then gain exactly the selected rows' events and projections, in order, once; with an error, a prefix; never an orphan |
| `DecodeRaw.BuffersStaySmall` | cmd/gt-pipeline/decode_raw.go:252-258 | while writes succeed the events of all rows but fewer than 1000 that gave any are stored |
| `DecodeRaw.CountersAreExact` | cmd/gt-pipeline/decode_raw.go:227-253 | the counts reported are those of the rows read and the entries they gave |
| `DecodeRaw.FlushKeeps` | cmd/gt-pipeline/decode_raw.go:197-219 | whatever fails in a flush, tables plus buffers stay complete and no projection is stored without its event |
| `DecodeRaw.Decoder.ForEachRow` | cmd/gt-pipeline/decode_raw.go:51-101 | the paging loop visits the first Limit matching rows, each once and in order |
| `DecodeRaw.Decoder.Flush` | cmd/gt-pipeline/decode_raw.go:197-219 | events first, projections on their own retry |
| `DecodeRaw.Decoder.DecodeRawPackets` | cmd/gt-pipeline/decode_raw.go:222-276 | the whole operation has that effect on the tables, and fails only if a page cannot be read or something stays buffered |
| `RelayEpochs.EventsStayInTheirEpoch` | pkg/agent/agent.go:458-561 | in every interleaving an event goes to its own epoch's stream, data and close only after an open of the same id, close last |
| `RelayEpochs.OneOpenPerEpochIff` | pkg/agent/agent.go:517-542 | there is one open per epoch used if and only if no epoch comes back after another in the order of begin calls |
| `RelayProgress.DataIsExact` | pkg/agent/agent.go:458-511 | over every interleaving the data events of each direction are exactly the chunks forwarded in it that were read under a capture reporting the connection, in order, each on that capture's stream |
| `RelayProgress.ChunkIsReportedIff` | pkg/agent/agent.go:458-511 | between two chunks of a direction a data event is sent if and only if a capture letting the connection through was current when the first was read |
| `RelayProgress.ReportedChunkCanBeSent` | pkg/agent/agent.go:458-511 | and such a chunk can be sent at once |
| `RelayProgress.FilteredOutIsSilent` | pkg/agent/agent.go:176-201 | over every run a connection that no capture's filter lets through sends nothing |
| `RelayProgress.ClosesIff` | pkg/agent/agent.go:544-561 | at the end a close is sent exactly when the connection has reported and the current capture is the one it declared itself to last |
| `RelayProgress.EpochNamesOneCapture` | pkg/agent/control.go:109-165 | captures current at different times with the same epoch are the same capture; one that is started is current |
| `RelayProgress.WholeConnection` | pkg/agent/agent.go:330-390 | for every target a filter lets through: a run that opens, sends the chunk and closes on the capture's stream |
| `RelayEpochs.RelayConn.Begin` | pkg/agent/agent.go:517-542 | declares the connection when the epoch is new, and returns the sink to use |
| `RelayEpochs.RelayConn.End` | pkg/agent/agent.go:546-561 | closes only what was opened in the current epoch |
| `CheckEngine.AlertsCarryTheirContext` | cmd/gt-pipeline/check_hook.go:161-246 | an alert's trigger is an evaluated event, and its context is, per direction, exactly the last events before that one, as many as asked or there were |
| `CheckEngine.FiringsAreSpaced` | cmd/gt-pipeline/check_hook.go:182-189 | firings of one rule are at least its cooldown apart, whatever the clock does |
| `CheckEngine.AlertsAreAccounted` | cmd/gt-pipeline/check_hook.go:92-158 | fired alerts are delivered in firing order, queued or dropped |
| `CheckFirings.FiringsAreExact` | cmd/gt-pipeline/check_hook.go:161-209 | over every run the alerts raised are exactly, for each readable event inspected before the engine stops and each rule in order, those whose rule matches the event and has no alert, of this event or before, within its cooldown |
| `CheckFirings.RuleFiresIff` | cmd/gt-pipeline/check_hook.go:176-191 | with different rule ids: inspecting a readable event raises an alert of a rule if and only if it matches and no earlier alert of the rule is within its cooldown |
| `CheckFirings.AlertsMatchTheirRule` | cmd/gt-pipeline/check_hook.go:176-181 | every alert's rule is one of the engine's and matches its trigger, a readable event of the run |
| `CheckFirings.SeenIsExact` | cmd/gt-pipeline/check_hook.go:161-246 | the events that alerts take their context from are exactly those evaluated |
| `CheckFirings.WorkerKeepsUp` | cmd/gt-pipeline/check_hook.go:92-118 | while the worker takes an alert between any two raised, none is dropped and all but the last are delivered in order |
| `CheckFirings.FewAlertsAreNotDropped` | cmd/gt-pipeline/check_hook.go:199-205 | no alert is dropped before more have been raised than the queue of 64 holds |
| `CheckFirings.DeliversTheOldest` | cmd/gt-pipeline/check_hook.go:92-118 | taking alerts delivers the oldest ones, in order |
| `CheckEngine.Checker.InspectEvent` | cmd/gt-pipeline/check_hook.go:161-209 | all rules in order on one event, the worker taking alerts in between |
| `CheckEngine.Checker.PushEvent` | cmd/gt-pipeline/check_hook.go:237-246 | the sliding window of a direction |
| `ProtocolCatalog.OnePassIsExact` | cmd/gt-mcp/protocol_catalog.go:115-188 | one pass gives, for every protocol and in total, the counts, times, labels, fields and samples of exactly its events |
| `ProtocolCatalog.ObservedIff` | cmd/gt-mcp/protocol_catalog.go:115-125 | the events observed are those of the direction asked for, or all, in order |
| `ProtocolCatalog.CountsAddUp` | cmd/gt-mcp/protocol_catalog.go:115-188 | protocol counts plus unnamed events are the event count |
| `ProtocolCatalog.KeysTellProtocolsApart` | cmd/gt-mcp/protocol_catalog.go:152-162 | keys separate protocols as long as directions hold no bar |
| `CatalogBuild.PairsAreExact` | cmd/gt-mcp/protocol_catalog.go:255-279 | pairs hold count, requests and latencies of exactly the responses whose cause is a named observed event |
| `CatalogBuild.PairCountsAddUp` | cmd/gt-mcp/protocol_catalog.go:255-279 | pair counts add up to those responses |
| `CatalogBuild.ListingIsUnique` | cmd/gt-mcp/protocol_catalog.go:199-213 | the sort order determines the listing |
| `CatalogBuild.PagesListEveryProtocol` | cmd/gt-mcp/protocol_catalog.go:199-252 | for every session the protocols of one pass have exactly one order, and successive pages list each exactly once in it |
| `CatalogBuild.ListingIsInOrder` | cmd/gt-mcp/protocol_catalog.go:199-213 | protocols are listed by first time, then direction, then name |
| `CatalogBuild.LessIff` | cmd/gt-mcp/protocol_catalog.go:205-212 | names compare lexicographically |
| `CatalogBuild.PageIsFull` | cmd/gt-mcp/protocol_catalog.go:214-252 | a page is full unless the listing ends, and says whether anything follows |
| `CatalogBuild.PercentileIsNearestRank` | cmd/gt-mcp/protocol_catalog.go:376-389 | at least that share of the values is at most the percentile, less is below it |
| `CatalogAggregator.Aggregator.Add` | cmd/gt-mcp/protocol_catalog.go:115-188 | the aggregator object computes the specified pass |
| `CatalogAggregator.Aggregator.ResolvePairs` | cmd/gt-mcp/protocol_catalog.go:258-279 | the resolving loop |
| `CaptureFilter.DerivedTextIsRight` | cmd/gt-agent/capture_runner.go:76-136 | the printed filter, read with `and` and `or` at one level or `and` tighter, accepts exactly the packets the ports and hosts ask for |
| `CaptureFilter.TextMeansFilter` | cmd/gt-agent/capture_runner.go:118-135 | the same for any lists of port and host conditions, brackets included |
| `CaptureFilter.DeriveBpf` | cmd/gt-agent/capture_runner.go:89-136 | the loops and joins print that text; an explicit expression wins |
| `CaptureFilter.NamesAreRead` | cmd/gt-agent/capture_runner.go:93-98 | protocol names are read in any case and with any white space around them |

## Left out

- RelayEpochs.OneOpenPerEpochIff: does not promise one open per epoch in general, because a late forwarder can bring an old epoch back; it states exactly when there is one.
- TunnelMux.RequestsArriveInOrder: does not promise a prefix for frames that break the rule, because the code does not give one (TunnelSkips.PrefixIff).
- Ingest.AcknowledgedWasSent: leaves out runs in which a failed opening skips unacknowledged records, because they are lost; Ingest.CursorNeverAheadIff says which runs those are.
- CatalogBuild.PercentileIsNearestRank: computes the rank on exact reals, where the code multiplies and rounds up in float64.
- LeaseAccounting.NoPortIsLost: leaves out overlapping starts and releases of one lease, because they lose ports; LeaseLosses.PortsAreLostIff covers them.
- LeaseSafety.LeasesNeverSharePorts: does not promise a nonzero agent port once the agent range was found full, because the caller ignores the failure.
- EventQuery.HandlerIsExact: leaves out negative offsets, and on the streaming path a capture context that could not be built, where the two paths differ.
- Backing arrays of slices: sharing between slices is modelled only for `retainOnFailure` and `dropUnbacked`, which work in one array.
- The pipeline's metrics buffer: nothing in `run` appends to it.
- Opening capture sources: the early return when it fails, on which the worker is not shut down.
- `drainPendingBlocking`'s time limit and context: it may stop at any point in the model.
- `CleanupProxyLeases`, listing and viewing leases, process spawning, port probing and the control protocol of the agents.
- Connection identities are pairs here; the code prints key and number into one string.
- A failing Stat on the next segment while a spool is opened: the scan then ends without an error, and the records of the later segments stay out until the next opening.
- The spool's record bytes, torn tails of segment files, archive mode and its retention, and closing a spool under a stream that is still flushing.
- Starting a capture without a server address, or whose stream cannot be opened: an error that changes nothing, so it is no step.
- Archive listings, heartbeats, backoff and the logging of the uplink.
- The expression language beyond `&&`, `and`, `==`, `!=`, identifiers and strings: its meaning is a parameter.
- SQL, msgpack and the fields of the returned event maps.
- TCP segment ordering and loss inside `framing.Reassembler`: a direction's buffer is what it holds.
- The text of the WebSocket handshake and the JSON envelope of text messages.
- Interval statistics, message-name and label rules, rendering of alerts and catalogs.
- Host names with inner white space or parentheses in `deriveBPF`.
- gRPC, HTTP, OAuth, user and project administration, the web UI and the plugin tooling.
