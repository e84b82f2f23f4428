# Verification of the ESP-NOW link library's protocols

A Dafny 4.11 model of the parts of the library that are hardest to get right: the firmware push between a master and a
slave, the staging of a topology on a slave and the commits that wait for it, the descriptor and telemetry codecs and
their paging, the frame codec, the topology planner, and the management service's queue, router and caches.
`dafny verify dfyconfig.toml` checks everything.

Code that updates records, vectors or arrays in place is modelled by classes and loops (`OtaPushService`,
`OtaReceiveService`, `PullService`, `CoverageSet`, `BundleProgress`, `PageList`, `SeenMacs`, `Targets`,
`RequestService`, `ManagementQueueTransport`, `ManagementRuntime`, `ProfileRegistry`, `DescriptorCache`, and the
encoders and parsers). Each method is proved against a specification function of its inputs or its old state, and the
results about runs, round trips and agreement are proved about those functions.

## The six cores

1. **Firmware push** (`OtaSender` to `OtaTheorems`, `OtaAnswers`, `OtaTimeouts`, `OtaRecovery`, `OtaRefusals`,
   `OtaStalls`, `OtaProgress`, `OtaShortReads`, `OtaRetries`, `OtaFindings`). The sender is a go-back-N sender with a
   16-chunk window and a 1-chunk recovery window; the receiver, its chunk bitmap, its memory pool and its
   acknowledgement policy are modelled too, and the radio may lose, duplicate, delay and reorder every frame and
   report. The end frame goes out only when the slave holds the source image byte for byte, in every run none of whose
   steps throws received bytes away; which steps do is stated exactly, by what can be seen before the step. Two
   premises: the storage returns what it is asked for, and nobody forges reports. Whether a push can end at all is
   stated exactly too, as is what one lost acknowledgement does. The retry counter is cleared with every window sent,
   so the retry limit in the code is unreachable (`RetryLimitNeverReached`).
2. **Topology staging** (`TopologyTypes` to `TopologyWire`, `DeferredCommits`, `CommitAnswers`, `CoverageRanges`,
   `NodeBundle`, `PullAnswers`). The service is a state machine over commands, replies (stale, duplicate and foreign
   ones included), send failures, timeouts and clock ticks, with a log of everything it does; the results are about
   the log of every run from the empty service. An ideal slave that replays the frames ends up with the snapshot, and
   the snapshots that can be staged at all are exactly those with a version and with ids on every enabled record. When
   replies are duplicated or lost only the last begin frame counts: what the slave applies is the master's snapshot if
   and only if every record arrived after it.
3. **Descriptors** (`Tlv`, `DescriptorQuery`, `QueryArrival`, `Response...`, `DescriptorPaging`, `ManifestPaging`).
   The query parser inverts the encoder up to a normal form. The response encoder always stays within the 235-byte
   payload; the decoder gives back exactly the longest prefix of entries that fits. Two lists do not round-trip,
   because their id is sent before the field that closes the previous entry: exactly when they do is proved, for one
   page and for a walk over the pages of a manifest. Walking pages collects the whole clipped list.
4. **Codecs** (`CrcRegister`, `Crc16`, `FrameCodec`, `FrameDamage`, `Octets`, `TelemetryPush`, `CommandArrival`). The
   frame check is CRC-16/CCITT-FALSE, whose generator is the polynomial of section 2 of ITU-T V.41. Damage to any two
   adjacent bytes, header and trailer included, is caught, with one exception across the trailer's edge that is given
   exactly.
5. **Planner** (`PlannerChain`, `PlannerTargets`, `PlannerKeys`). The two ends of a link choose the same key group,
   and so derive the same key, if and only if a stated condition on the chain holds; a chain in which they do not is
   given.
6. **Queue, router, caches** (`RequestQueue`, `ServiceDesk`, `QueueTransport`, `RequestRounds`, `Dispatch`,
   `ManagementRuntime`, `ProfileRegistry`, `DescriptorCache`). The queue is always the stable sort of what was
   accepted; requests are taken in turn; every counter is accounted for; every cached answer is the one a scan would
   give.

## Where the code differs from its documentation or intent

- The slave receives a repeated begin frame as a fresh start: the image received so far is lost, although the frame
  carries the same size and checksum (`OtaSystem.LossExactly`, `OtaFindings.RepeatedBeginLosesTheImage`).
- A repeated end frame makes the master report a failure although the image is stored
  (`OtaTheorems.RepeatedEndFailsPush`); unless bytes were thrown away, every failure report is of this kind
  (`OtaTheorems.FailureIsFalseAlarm`).
- The push command accepts chunks of 32 to 63 bytes, whose window is shorter than the slave's acknowledgement step:
  such a push never ends, unless the image fits one window (`OtaStalls.SmallChunksNeverEnd`,
  `OtaProgress.EndsExactly`).
- The slave never repeats an acknowledgement, so a lost one stops the push for good (`OtaStalls.LostAckStopsPush`).
- A silent slave is retried without bound (`OtaRetries.RetryLimitNeverReached`).
- The tie rule of the planner's slot update is never used (`PlannerTargets.TieRuleDead`).
- Both ends of a link may choose different key groups (`PlannerKeys.KeysCanDisagree`).
- A snapshot that the master's own parser accepts may be impossible to stage (`TopologyWire.ScriptDelivered`).

## Model

| member | source | states |
|---|---|---|
| `OtaTheorems.EndSentOnlyWhenHeld` | src/management/management_service_ota_pump.cpp:103-221 | in every run over a radio that loses, duplicates, delays and reorders frames and reports, and none of whose steps throws received bytes away, once the end frame has been sent the slave holds all bytes of the source image |
| `OtaTheorems.AckedNeverAhead` | include/espnow_link/firmware.hpp:121-129 | in every such run the offset the sender takes as acknowledged never passes the contiguous prefix the slave really holds |
| `OtaSystem.LossExactly` | src/ota/ota_manager.cpp:128-215 | the steps that throw bytes away, by what can be seen before them: an open session with bytes and nothing stored, when it expires or a begin frame arrives that passes the gate (whether the file probe then works or not); or with all bytes, when the end frame arrives and the flash refuses. The prefix the slave holds falls at a step if and only if it is one of these |
| `OtaTheorems.BytesShrinkExactly` | src/ota/ota_manager.cpp:128-215 | the same in every state of every run |
| `OtaTheorems.ImageStaysExactly` | src/ota/ota_manager.cpp:128-356 | in every reachable state in which the slave holds the image, it holds it after the next step if and only if that step throws nothing away |
| `OtaTheorems.EndFindsImageExactly` | src/management/management_service_ota_pump.cpp:133-144 | with everything acknowledged and the image on the slave, and one slave step before the end frame goes out: the end frame goes out to a slave that holds the image if and only if that step throws nothing away |
| `OtaTheorems.AckedNeverFalls` | src/management/management_service_events.cpp:280-321 | no step of any run, whatever the slave throws away, moves the acknowledged offset of a push back |
| `OtaTheorems.OnlySourceIsStored` | src/core/manager/manager_firmware.cpp:184-242 | whatever the radio and the flash do, no image but the source is ever promoted by the slave |
| `OtaTheorems.SuccessMeansStored` | src/management/management_service_ota_pump.cpp:223-324 | a success event of a push, or of the update that owns it, is only ever raised after the slave promoted the source image |
| `OtaTheorems.EndAnsweredExactly` | src/ota/ota_manager.cpp:268-356 | in every reachable state the end frame is answered with success, and the source promoted, if and only if the session is open for the transfer with all bytes received and the flash takes the image; otherwise it is answered with a failure and nothing is promoted |
| `OtaTheorems.EndCompletes` | src/ota/ota_manager.cpp:268-356 | in a run that throws nothing away, the first end frame that arrives stores exactly the source and reports success, unless the flash refuses |
| `OtaTheorems.ReportEndsPushExactly` | src/management/management_service_events.cpp:222-332 | a delivered report ends a push if and only if it is a final report of its transfer and comes in the final phase, and ends it in failure if and only if it is a failure report |
| `OtaTheorems.FailureIsFalseAlarm` | src/core/manager/manager_firmware.cpp:184-242 | in a run that throws nothing away every failure report the slave ever sends is a false alarm: the source image is stored |
| `OtaTheorems.RepeatedEndFailsPush` | src/core/manager/manager_firmware.cpp:184-242 | in every reachable state with the image promoted and the session closed, one more delivery of the end frame and of its answer ends the waiting push in failure |
| `OtaSystem.SuccessNeedsReport` | src/management/management_service_events.cpp:213-332 | nothing but a positive final report, a ready event or a boot-complete event can end a push or update in success |
| `OtaSenderSafety.StepKeepsSession` | src/management/management_service_ota_pump.cpp:31-221 | the sender alone, for any order of ticks, acknowledgements inside the image, refusals at any offset, timeouts and send failures: the next offset stays inside the image; a waiting window is fully sent; otherwise the next offset is acknowledged or inside the open window; windows end on chunk boundaries or the end of the image |
| `OtaSenderSafety.StepIsSafe` | src/management/management_service_ota_pump.cpp:150-221 | one input whose acknowledged or refused offset is a chunk boundary or the end of the image, which every report of the slave meets, sends only true chunks of the source, the end frame only with everything acknowledged, and never lowers the acknowledged offset |
| `OtaSenderSafety.EndNeedsEveryAck` | src/management/management_service_ota_pump.cpp:133-144 | the step that sends the end frame is taken in the streaming phase with the whole image acknowledged |
| `OtaReceiverSafety.ImageChunkAcceptable` | src/ota/ota_manager.cpp:216-244 | every check of the slave passes for every chunk the sender cuts from the image, in whatever order it comes |
| `OtaReceiverSafety.WriteImageChunk` | src/ota/ota_manager.cpp:216-266 | receiving such a chunk keeps the session truthful: what is marked is in the pool, what is counted is marked, the prefix never shrinks |
| `OtaRefusals.ChunkRefusedExactly` | src/core/manager/manager_firmware.cpp:124-182 | a chunk of the transfer is refused by its offset if and only if the slave keeps books of a session that is gone, and did not send the same refusal in the last 60 milliseconds |
| `OtaRefusals.BooksPartExactly` | src/ota/ota_manager.cpp:165-197 | for a request id other than zero, books and session part at a step if and only if the session expires or a begin frame fails at the file probe |
| `OtaRefusals.LossNeverRefuses` | src/core/manager/manager_firmware.cpp:124-182 | for a request id other than zero, in every run without such a step the slave never refuses a chunk by its offset, however frames are lost, repeated and reordered |
| `OtaStalls.SmallChunksNeverEnd` | src/core/manager/manager_firmware.cpp:137-165 | with sixteen chunks shorter than 1024 bytes and than the image, and a request id other than zero, no run that keeps the session sends the end frame, stores anything, or has a byte acknowledged, over a perfect radio as over any other |
| `OtaProgress.EndsExactly` | src/core/manager/manager_firmware.cpp:137-165 | from every start with a pool for the image and a request id other than zero, some run that keeps the session sends the end frame if and only if sixteen chunks make 1024 bytes or the whole image |
| `OtaStalls.AckNeverRepeated` | src/core/manager/manager_firmware.cpp:141-160 | a chunk the slave already has, of a prefix it has acknowledged, is answered by nothing and changes nothing but the pool |
| `OtaStalls.LostAckStopsPush` | src/management/management_service_ota_pump.cpp:103-131 | once the slave has acknowledged all it was sent and that acknowledgement is lost, no run in which the session stays and no begin frame comes again brings another report: however often the window is repeated, neither the acknowledged offset moves nor does the end frame go out |
| `OtaProgress.FirstAckCanBeLost` | src/management/management_service_ota_pump.cpp:103-131 | every push of more than one window has a run into that state |
| `OtaShortReads.OvershootsExactly` | src/management/management_service_ota_pump.cpp:158-214 | with a storage that returns what it likes, the send loop passes the end of its window if and only if a read that goes out starts before that end and stops behind it |
| `OtaShortReads.ShortReadEndsEarly` | src/management/management_service_ota_pump.cpp:133-144 | for every push of an image that ends less than a chunk behind its first window, some run from the start with one short read sends the end frame before the slave has the image: why full reads are a premise |
| `OtaRecovery.RefusalRewinds` | src/management/management_service_events.cpp:302-320 | a refusal of its transfer at offset o takes a streaming sender to o, no further back than what is acknowledged and no further ahead than what it has sent: next and acknowledged offset both become that, no window is open or waited for, nothing is sent, and the next chunk waits 20 ms |
| `OtaRecovery.RecoveryTick` | src/management/management_service_ota_pump.cpp:150-221 | a tick at the refused offset sends exactly one chunk, the one there, if its time has come and storage and radio allow, and no other chunk otherwise |
| `OtaRecovery.RecoverySendsOneChunk` | src/management/management_service_ota_pump.cpp:103-221 | in every run after a refusal, for any ticks, timeouts and reports, every chunk sent is the one at the refused offset as long as nothing beyond that offset is named to the sender |
| `OtaRecovery.FullWindowsReturnExactly` | src/management/management_service_events.cpp:284-287 | sixteen-chunk windows return at an input if and only if it is an acknowledgement of that chunk or of more; until then windows have one chunk |
| `OtaRecovery.AckEndsRecovery` | src/management/management_service_events.cpp:296-301 | that acknowledgement ends the wait too, and leaves the sender behind the chunk with no window open |
| `OtaRecovery.FullWindowOpens` | src/management/management_service_ota_pump.cpp:150-156 | the next tick that sends opens a window of sixteen chunks, or up to the end of the image |
| `OtaRecovery.SilenceRewinds` | src/management/management_service_ota_pump.cpp:108-129 | a window not acknowledged is given up exactly after 1500 ms, or 450 for a single chunk: back to what is acknowledged, with a pause of 12 ms |
| `OtaTimeouts.EndLeavesBehind` | src/management/management_service_ota_pump.cpp:223-324 | whatever ends a push: its session is empty, its owner gets one event if it asked for one, a failed one clears the inbox, and the update that owns it goes on to wait for the boot or ends with one event |
| `OtaTimeouts.PushBegins` | src/management/management_service_commands.cpp:2479-2500 | how a push begins: nothing sent, nothing acknowledged, no failure counted, full windows |
| `OtaTimeouts.BeginTick` | src/management/management_service_ota_pump.cpp:56-79 | waiting for the begin frame to be answered: failure exactly after 12 s of silence, a status query every 250 ms, streaming on its own account exactly after 900 ms |
| `OtaTimeouts.BeginAnswered` | src/management/management_service_events.cpp:279-295 | an acknowledgement of nothing, and no other, starts the stream |
| `OtaTimeouts.AckCounts` | src/management/management_service_events.cpp:279-301 | an acknowledgement counts if it is the highest so far, ends the wait of a window exactly when it covers it, and changes nothing else |
| `OtaTimeouts.CoveredTick` | src/management/management_service_ota_pump.cpp:96-101 | a tick that finds the window acknowledged stops waiting for it and changes nothing else |
| `OtaTimeouts.BusyRadioPauses` | src/management/management_service_ota_pump.cpp:189-208 | a chunk the radio refuses costs a pause of 4 ms, growing by 2 up to 40, and the 24th refusal in a row ends the push |
| `OtaTimeouts.ChunksCounted` | src/management/management_service_ota_pump.cpp:148-215 | every chunk sent is counted, modulo 2^16, and nothing else is |
| `OtaTimeouts.UnreadableFails` | src/management/management_service_ota_pump.cpp:166-180 | an image that cannot be read ends the push |
| `OtaTimeouts.EndTick` | src/management/management_service_ota_pump.cpp:133-144 | with everything sent and nothing waited for the end frame goes out, or the push fails |
| `OtaTimeouts.FinalTick` | src/management/management_service_ota_pump.cpp:81-87 | the final report is waited for exactly 60 s |
| `OtaTimeouts.UpdateTickExactly` | src/management/management_service_ota_pump.cpp:275-298 | an update fails exactly when its peer is gone or the boot takes three minutes |
| `OtaTimeouts.BootEndsUpdate` | src/management/management_service_events.cpp:240-256 | the boot of its peer ends the update that waits for it and no other |
| `OtaAnswers.BeginAnsweredExactly` | src/core/manager/manager_firmware.cpp:16-122 | a begin frame opens a fresh session and fresh books and is acknowledged at zero exactly when its sizes are positive, the pool holds the image and nothing bars it; otherwise it is refused at zero, and only a failed file probe costs the open session |
| `OtaAnswers.ChunkAcknowledgedExactly` | src/core/manager/manager_firmware.cpp:137-160 | an accepted chunk is acknowledged with the prefix received exactly when that has reached the next step or the end, or is empty, and was not acknowledged last |
| `OtaAnswers.ChunkRefused` | src/core/manager/manager_firmware.cpp:161-178 | a refused chunk is answered with the prefix received, unless the same answer went out less than 60 ms ago |
| `OtaAnswers.AcceptedExactly` | src/ota/ota_manager.cpp:216-266 | a chunk is accepted exactly when the session is open for it and it is a whole chunk of the image in its place |
| `OtaAnswers.EndAnsweredWith` | src/ota/ota_manager.cpp:268-356 | the report, the code, the offset and the fate of session and stored image for every way an end frame can be judged |
| `OtaRetries.StepKeepsLow` | src/management/management_service_ota_pump.cpp:103-131 | whatever the inputs, the retry counter never passes one and is zero while a window is waited for |
| `OtaRetries.WaitNeverGivesUp` | src/management/management_service_ota_pump.cpp:108-129 | an expired wait only rewinds; it never ends the push |
| `OtaRetries.RetryLimitNeverReached` | src/management/management_service_ota_pump.cpp:116-129 | in every run of a push the next expired wait rewinds to the acknowledged offset: the retry limit is unreachable and a silent slave is retried without bound |
| `OtaFindings.RepeatedBeginLosesTheImage` | src/core/manager/manager_firmware.cpp:16-122 | an instance of ImageStaysExactly from the start of a push: the radio repeats the begin frame, a step that throws the image away, and the end frame goes out to an empty slave |
| `OtaFindings.RepeatedEndReportsFailure` | src/core/manager/manager_firmware.cpp:184-242 | an instance of RepeatedEndFailsPush from the start of a push: a repeated end frame makes the master report a failure although the image is stored |
| `OtaPushMachine.OtaPushService.StartOtaPushLocal` | src/management/management_service_commands.cpp:2407-2514 | starts the session of the specification and sends the begin frame, exactly when none is active, the chunk size is 32 to 220, the image is not empty and the frame could be sent |
| `OtaPushMachine.OtaPushService.PumpOtaPushLocal` | src/management/management_service_ota_pump.cpp:31-221 | the tick, updating the session in place, moves it as the step function the results about runs are stated over |
| `OtaPushMachine.OtaPushService.WaitForBegin` | src/management/management_service_ota_pump.cpp:56-79 | begin wait: timeout, status poll every 250 ms, optimistic start after 900 ms |
| `OtaPushMachine.OtaPushService.WaitForWindow` | src/management/management_service_ota_pump.cpp:103-131 | window wait: release, rewind, or the dead retry limit |
| `OtaPushMachine.OtaPushService.SendWindow` | src/management/management_service_ota_pump.cpp:150-221 | opens a window when none is pending, runs the loop, starts waiting once the window is out |
| `OtaPushMachine.OtaPushService.SendChunks` | src/management/management_service_ota_pump.cpp:158-214 | the budgeted loop sends the frames, moves the offset and leaves by the exit the recursive loop function says |
| `OtaPushMachine.OtaPushService.StopOtaPushLocal` | src/management/management_service_ota_pump.cpp:223-273 | ends a push: clears the inbox on failure, hands over to the owning update, raises one event, resets the session |
| `OtaPushMachine.OtaPushService.PumpOtaUpdateLocal` | src/management/management_service_ota_pump.cpp:275-298 | ends an update whose peer is gone or that waits too long for the reboot |
| `OtaPushMachine.OtaPushService.StopOtaUpdateLocal` | src/management/management_service_ota_pump.cpp:300-324 | ends an active update with one event |
| `OtaPushMachine.OtaPushService.OnOtaTransferStatus` | src/management/management_service_events.cpp:258-332 | updating the session in place, moves it as the step function that OtaRecovery and OtaTimeouts describe report by report |
| `OtaPushMachine.OtaPushService.OnOtaTransferReady` | src/management/management_service_events.cpp:222-239 | the ready event ends the push of its peer and correlation, in the final phase only |
| `OtaPushMachine.OtaPushService.OnOtaBootComplete` | src/management/management_service_events.cpp:240-256 | the boot-complete event ends the update waiting for it |
| `OtaReceiveMachine.OtaReceiveService.WriteReceiveChunk` | src/ota/ota_manager.cpp:216-266 | checks a chunk, writes it into the pool array and marks it, as specified, or leaves everything alone |
| `OtaReceiveMachine.OtaReceiveService.CopyIntoPool` | src/ota/ota_manager.cpp:252 | the copy into the pool overwrites exactly the chunk's place |
| `OtaReceiveMachine.OtaReceiveService.RefreshContiguousReceived` | src/ota/ota_manager.cpp:1042-1060 | the prefix counter ends at the end of the marked chunks that start at it |
| `TopologyTheorems.EveryFrameScripted` | src/management/management_service_pull_response.cpp:191-344 | in every run, every staging frame ever sent is the next of Clear, Begin, groups, slots, Finalize of the stage request opened last for its peer, and follows the acknowledgement of the one before |
| `TopologyTheorems.OkMeansInstalled` | src/management/management_service_pull_response.cpp:307-344 | in every run a stage request is answered Ok only after the whole script was sent and acknowledged 3 + groups + slots times; delivered in order to a slave in any state, these frames leave it with exactly the snapshot |
| `TopologyTheorems.FinalAckAnswersOk` | src/management/management_service_pull_response.cpp:312-344 | in every reachable state the acknowledgement in flight ends the request with Ok exactly when it is that of the finalize frame, and otherwise sends the next frame, provided the radio takes it |
| `TopologyTheorems.CommitsConserved` | src/management/management_service_descriptor_tracking.cpp:98-180 | in every run each deferred commit is waiting, or has left the list once with its one answer: the stage's failure, InternalError, Timeout, or the commit frame; a commit frame goes out only after its peer's stage ended Ok with none opened since |
| `TopologyTheorems.OtherCommitsKeepOrder` | src/management/management_service_descriptor_tracking.cpp:104-147 | a reply never drops, adds or reorders the waiting commits of other peers |
| `CommitAnswers.StageCommandAnswered` | src/management/management_service_commands.cpp:2200-2224 | a stage is refused with QueueFull exactly while its peer has one in flight; otherwise its clear frame goes out under the next internal correlation and it is tracked and deferred, or it fails if the radio does |
| `CommitAnswers.CommitCommandAnswered` | src/management/management_service_commands.cpp:2225-2263 | a commit waits, once per requester and id, exactly while its peer has a stage in flight; otherwise it goes out at once and is tracked, or fails |
| `CommitAnswers.ReleasedExactly` | src/management/management_service_descriptor_tracking.cpp:98-147 | when a stage has ended exactly its peer's commits leave, in order: with the stage's own failure, or after a success as commit frames, or with an internal error where the radio refuses |
| `CommitAnswers.DispatchedIsTracked` | src/management/management_service_descriptor_tracking.cpp:128-143 | a commit that went out is tracked for the time it had left, or for 1500 ms |
| `TopologyStaging.IdsRunInUpperHalf` | src/management/management_service_runtime_state.cpp:897-907 | the ids of frames sent on the own account run through the upper half of the 32-bit range and start over at its first number |
| `TopologyStaging.IdsDiffer` | src/management/management_service_runtime_state.cpp:897-907 | no two of 2^31 such ids in a row are the same |
| `CommitAnswers.StageGoesOn` | src/management/management_service_pull_response.cpp:203-310 | an acknowledgement before the last sends one more frame under the next id, to which alone the stage then answers, with the full time again; a frame that cannot be sent ends the stage and releases its commits |
| `CommitAnswers.PruneExactly` | src/management/management_service_descriptor_tracking.cpp:149-180 | time passing removes exactly the pulls and commits past their deadlines, each of the commits with a timeout |
| `CommitAnswers.StageFails` | src/management/management_service_pull_response.cpp:191-208 | any reply but an acknowledgement ends a stage, with the failure it tells or an internal error, and the commits that waited for it leave with the same answer |
| `CommitAnswers.TrackedInPlace` | src/management/management_service_descriptor_tracking.cpp:17-96 | tracking overwrites the first pull with the same requester, peer and correlations where it stands, or adds the pull at the end |
| `DeferredCommits.ReleaseLeaves` | src/management/management_service_descriptor_tracking.cpp:98-147 | releasing a peer's commits answers each once and loses none |
| `DeferredCommits.ReleaseKeepsOthers` | src/management/management_service_descriptor_tracking.cpp:104-110 | and keeps the others in order |
| `DeferredCommits.ExpireLeaves` | src/management/management_service_descriptor_tracking.cpp:163-179 | expired commits leave with a Timeout each, the others stay in order |
| `DeferredCommits.HandleKeeps` | src/management/management_service_pull_response.cpp:121-445 | every event keeps commits conserved and dispatches backed by an Ok stage |
| `TopologyStagingSafety.RunOk` | src/management/management_service_pull_response.cpp:191-344 | in every reachable state each stage request's step, cursors, counters and correlation agree with the frames sent and acknowledgements received for it |
| `TopologyStagingSafety.NextFrameIsScripted` | src/management/management_service_pull_response.cpp:298-326 | the frame chosen after an acknowledgement is the next of the script, whatever the step and cursors |
| `TopologyStagingSafety.FinalAckCompletes` | src/management/management_service_pull_response.cpp:326-343 | the acknowledgement of the finalize frame completes the script |
| `TopologySlave.ScriptInstallsSnapshot` | src/runtime/slave_runtime_defaults.cpp:355-482 | from whatever state, a slave acknowledges every frame of a valid snapshot's script and ends with exactly that snapshot applied |
| `TopologySlave.AppliedIffAllRecordsSinceBegin` | src/runtime/slave_runtime_defaults.cpp:394-482 | with record frames lost, repeated and reordered after the last begin, the slave applies the master's snapshot if and only if every record arrived since that begin |
| `TopologySlave.SlaveAnswersExactly` | src/runtime/slave_runtime_defaults.cpp:376-482 | records and the end are acknowledged exactly while a stage is open, records only inside the tables; a refused frame changes nothing, and only an acknowledged end applies |
| `TopologyWire.FrameDelivered` | src/descriptor/descriptor.cpp:637-659 | a staging frame comes out of the query codec as sent, a disabled group's seed cleared, exactly when version and the ids of an enabled record are not zero; otherwise the slave's parser drops it |
| `TopologyWire.ScriptDelivered` | src/descriptor/master_pull_client.cpp:270-326 | of the snapshots the master accepts, exactly those can be staged at all |
| `TopologyPayload.BuildThenParse` | include/espnow_link/management_utils.hpp:694-838 | parsing a built payload gives the snapshot with its lists cut to their limits and disabled groups' seeds cleared, exactly when the indices are distinct and in range |
| `TopologyPayload.ParsedIsValid` | include/espnow_link/management_utils.hpp:757-838 | every snapshot the parser accepts has distinct indices inside the limits |
| `TopologyPayload.SlotsRoundTrip` | include/espnow_link/management_utils.hpp:707-806 | the slot records come back as written, or are refused for a repeated or too large index |
| `TopologyPayload.GroupsRoundTrip` | include/espnow_link/management_utils.hpp:722-836 | the group records likewise |
| `TopologyPayloadMachine.BuildTopologyStagePayload` | include/espnow_link/management_utils.hpp:694-735 | appends the bytes of the specification |
| `TopologyPayloadMachine.ParseTopologyStagePayload` | include/espnow_link/management_utils.hpp:757-838 | accepts and reads exactly what the specification does |
| `TopologyPayloadMachine.ParseSlotRecords` | include/espnow_link/management_utils.hpp:776-806 | the offset-advancing loop with its seen array reads the records of the recursive parser |
| `TopologyPayloadMachine.ParseGroupRecords` | include/espnow_link/management_utils.hpp:808-836 | likewise for groups |
| `TopologyStagingMachine.PullService.AllocateInternalCorrelation` | src/management/management_service_runtime_state.cpp:897-907 | hands out the counter's correlation and moves on |
| `TopologyStagingMachine.PullService.TrackPendingDescriptorPull` | src/management/management_service_descriptor_tracking.cpp:17-96 | adds a pull, or overwrites the one with the same owner and correlation in place |
| `TopologyStagingMachine.PullService.DispatchDeferredTopologyCommitsForPeer` | src/management/management_service_descriptor_tracking.cpp:98-147 | the loop over the deferred list moves the service as the recursive release does |
| `TopologyStagingMachine.PullService.PrunePendingDescriptorPulls` | src/management/management_service_descriptor_tracking.cpp:149-180 | drops exactly the expired pulls and answers exactly the expired commits |
| `TopologyStagingMachine.PullService.PrunePulls` | src/management/management_service_descriptor_tracking.cpp:153-160 | erasing while walking leaves exactly the unexpired pulls, in order |
| `TopologyStagingMachine.PullService.FindPull` | src/management/management_service_pull_response.cpp:130-145 | finds the first pull a reply belongs to |
| `TopologyStagingMachine.PullService.OnPull` | src/management/management_service_pull_response.cpp:121-445 | a reply moves the service as specified; stale and foreign replies change nothing |
| `TopologyStagingMachine.PullService.OnStagePull` | src/management/management_service_pull_response.cpp:191-344 | advances step and cursors in place and sends the next frame, or ends the request |
| `TopologyStagingMachine.PullService.OnOtherPull` | src/management/management_service_pull_response.cpp:345-440 | in place, keeps or ends a pull and answers it as PullAnswers says of plain, loose and strict pulls |
| `TopologyStagingMachine.PullService.StageSet` | src/management/management_service_commands.cpp:2200-2224 | opens a stage request with its clear frame, unless one is pending for the peer |
| `TopologyStagingMachine.PullService.CommitSet` | src/management/management_service_commands.cpp:2225-2263 | defers a commit behind a pending stage, once per requester and id, else sends it |
| `CoverageRanges.CoverageSet.Merge` | src/management/management_service_pull_response.cpp:21-51 | the covered indices become the union of the old ones and the new page, and the ranges sorted, non-empty and separated by gaps, for any insertions before |
| `CoverageRanges.CoverageSet.SortRanges` | src/management/management_service_pull_response.cpp:27-34 | the vector is sorted and holds the same ranges |
| `CoverageRanges.CoverageSet.Compact` | src/management/management_service_pull_response.cpp:35-50 | compacting in place covers the same indices with ranges separated by gaps |
| `CoverageRanges.CoverageSet.ContiguousFromZero` | src/management/management_service_pull_response.cpp:53-64 | returns the largest n with all of [0, n) covered |
| `NodeBundle.BundleProgress.Receive` | src/management/management_service_pull_response.cpp:356-411 | a page is recorded as specified, and the request ends exactly when the record is complete |
| `NodeBundle.RecordOfArrivals` | src/management/management_service_pull_response.cpp:356-411 | after any arrivals of pages of one walk, in any order and repetition, exactly their indices are recorded |
| `NodeBundle.CompletesOnLastMissingPage` | src/management/management_service_pull_response.cpp:384-410 | the request completes if and only if every page of the walk has arrived: never earlier, whatever the order, and always on the last missing one |
| `NodeBundle.MissingPageLeavesGap` | src/management/management_service_pull_response.cpp:384-390 | a page that has not arrived leaves an index uncovered or the done marker unseen |
| `PullAnswers.StrictPullRun` | src/management/management_service_pull_response.cpp:356-440 | over the service: while the pages of one walk arrive for a strict pull, in any order and repetition and with anything in between that leaves the pull alone, each is answered OkDeferred and the pull stays; the one bringing the last missing page is answered Ok and removes it |
| `PullAnswers.PageAnswered` | src/management/management_service_pull_response.cpp:356-440 | one page of it, for any pages before: Ok and removal if and only if every page has then arrived |
| `PullAnswers.StrictPullStarts` | src/management/management_service_descriptor_tracking.cpp:17-96 | a strict pull starts with nothing recorded, answered as deferred |
| `PullAnswers.StrictRefuses` | src/management/management_service_pull_response.cpp:412-418 | a strict pull is ended by any reply that is not a sound bundle: Ok for a positive control result, its failure for an error, an internal error for anything else |
| `PullAnswers.LooseAnswered` | src/management/management_service_pull_response.cpp:345-363 | a loose bundle pull stays, deferred, exactly at a sound page that says more will follow |
| `PullAnswers.PlainAnswered` | src/management/management_service_pull_response.cpp:159-190 | a plain pull ends with its first reply: Ok exactly for a positive control result or a descriptor without error that can be written out again, the failure an error tells, an internal error otherwise |
| `PullAnswers.BelongsExactly` | src/management/management_service_pull_response.cpp:128-144 | which replies belong to a pull: those of its peer with its one correlation, or from its first to its last, zero standing for the id of the request; for a stage the last one sent alone |
| `DescriptorQuery.ParseEncoded` | src/descriptor/descriptor.cpp:336-684 | for every encodable query, parsing its encoding gives its normal form (fields of other types reset, epoch cut to 32 bits, bundle mask normalised, paging only where pageable) exactly when that is valid, and is refused otherwise |
| `DescriptorQuery.NormalTwice` | src/descriptor/descriptor.cpp:475-684 | the normal form is a fixed point, so a query the parser produced comes back unchanged |
| `DescriptorQuery.ValidWhenPaged` | src/descriptor/descriptor.cpp:608-681 | validity depends on neither paging nor the bundle mask |
| `DescriptorQuery.UnknownTagsDoNothing` | src/descriptor/descriptor.cpp:488-606 | a tag the parser does not know changes nothing, wherever it is inserted |
| `DescriptorQuery.ParseDescriptorQuery` | src/descriptor/descriptor.cpp:475-684 | the loop over the payload accepts and reads exactly what the specification does |
| `QueryArrival.AcceptedExactly` | src/descriptor/descriptor.cpp:608-681 | of the encodable queries of each type the parser accepts exactly: a set-setting with a value, a set-time with an epoch not zero modulo 2^32, a log chunk of some bytes, an erase and an apply with a name, a stage begin with a version, slots and groups inside the tables with the ids an enabled one needs, a trigger with a target within 13 of zero and not zero, direction 1 or 2, and source at most 15 or 255; of the other types all but Unknown |
| `QueryArrival.FieldsArrive` | src/descriptor/descriptor.cpp:488-606 | every field a type uses arrives as sent, an epoch modulo 2^32 and a bundle mask by its known bits |
| `QueryArrival.PagingArrives` | src/descriptor/descriptor.cpp:455-473 | paging arrives with the six types that can be paged and with no other |
| `QueryArrival.EncodableExactly` | src/descriptor/descriptor.cpp:336-473 | a query cannot be sent exactly when a setting lacks exactly one identity or a text exceeds 65535 bytes |
| `ResponseEncoding.EncodesWithinPayload` | src/descriptor/descriptor.cpp:1534-1934 | a response is refused exactly when its fixed fields and the reserve do not fit; otherwise it is at most 235 bytes, paging metadata and all, for every list and every message |
| `ResponseEncoding.WrittenFits` | src/descriptor/descriptor.cpp:1897-1923 | the 42 reserved bytes always pay for the paging metadata |
| `ResponseEncoding.SolidPrefix` | src/descriptor/descriptor.cpp:1590-1600 | exactly the longest prefix of entries that fits is written, whole, and truncation is flagged exactly when that is not all |
| `ResponseEncoding.CountIsExact` | src/descriptor/descriptor.cpp:1888-1893 | the repaired count is the number of entries in the payload |
| `ResponseEncoding.TruncatedExactly` | src/descriptor/descriptor.cpp:1882-1930 | a response says that it is truncated exactly when an entry or an option was left out or its page announced another number of entries, by a message at its end if that still fits |
| `ResponseEncoding.MetadataExactly` | src/descriptor/descriptor.cpp:1882-1893 | the paging metadata is what the page announces, unless the list carries another number of entries; then that number, the cursor behind them and whether it is the end |
| `ResponseEncoding.AppendBlocks` | src/descriptor/descriptor.cpp:1589-1867 | the entry loop appends the bytes of that prefix |
| `ResponseEncoding.AppendOne` | src/descriptor/descriptor.cpp:1601-1636 | one entry with the options that still fit |
| `ResponseEncoding.AppendFixed` | src/descriptor/descriptor.cpp:1567-1582 | fixed fields one at a time are written if and only if all fit |
| `ResponseEncoding.EncodeDescriptorResponse` | src/descriptor/descriptor.cpp:1534-1934 | the encoder writes the bytes of the specification or refuses with it |
| `ResponseDecoding.DecodeDescriptorResponse` | src/descriptor/descriptor.cpp:1936-2256 | the decoder with its current-entry records reads what the specification reads |
| `ResponseTheorems.DecodeWritten` | src/descriptor/descriptor.cpp:1936-2256 | decoding any written response succeeds and reads fixed fields, entries and repaired metadata each where they were written |
| `ResponseTheorems.CapabilitiesRoundTrip` | src/descriptor/descriptor.cpp:1589-1600 | decoding an encoded capability list gives exactly the longest prefix that fits, every field intact, and the repaired metadata |
| `ResponseTheorems.SamplesRoundTrip` | src/descriptor/descriptor.cpp:1637-1649 | the same for telemetry samples |
| `ResponseTheorems.SettingsRoundTrip` | src/descriptor/descriptor.cpp:1734-1750 | the same for settings |
| `ResponseTheorems.FilesRoundTrip` | src/descriptor/descriptor.cpp:1803-1818 | the same for a directory listing |
| `ResponseTheorems.BundleRoundTrip` | src/descriptor/descriptor.cpp:1660-1733 | the same for both lists of a node bundle |
| `ResponseTheorems.ManifestRoundTrip` | src/descriptor/descriptor.cpp:2201-2227 | a firmware manifest comes back with every field but its ids shifted by one |
| `ResponseTheorems.ManifestExact` | src/descriptor/descriptor.cpp:2202-2206 | it comes back whole if and only if at most one image was written or none of those has an id |
| `ResponseRoundTrip.ManifestSurvives` | src/descriptor/descriptor.cpp:2202-2206 | the same for the entries alone |
| `ResponseTheorems.SchemaRoundTrip` | src/descriptor/descriptor.cpp:2051-2068 | a telemetry schema comes back entry by entry, its ids where the decoder's flush leaves them |
| `ResponseRoundTrip.SchemaSurvives` | src/descriptor/descriptor.cpp:2051-2056 | its ids survive if and only if every entry but the last carries its description, or neither it nor the next has an id |
| `DescriptorPaging.PageFacts` | src/descriptor/descriptor.cpp:247-261 | a page carries a prefix of what was asked for, announces exactly that, and is non-empty exactly when its first entry fits alone |
| `DescriptorPaging.PagesTile` | src/descriptor/descriptor.cpp:1881-1893 | following the next cursor ends exactly when every entry ahead fits alone, and then the pages tile the list |
| `DescriptorPaging.PagesFormWalk` | src/descriptor/descriptor.cpp:1881-1893 | such pages are a walk the strict node-bundle completion accepts in any order |
| `DescriptorPaging.ClippedEntries` | src/descriptor/descriptor.cpp:225-230 | a clipped entry keeps its numbers and flags and of each text the beginning: 32 bytes of a key, 56 of a description, 40 of a value, 20 of a storage key, 8 of a unit |
| `DescriptorPaging.CapabilityWalk` | src/descriptor/descriptor.cpp:776-793 | following the cursor from 0 yields the whole clipped capability list, each entry once and in order, for every list of at most 65535 entries, every page size and every message of at most 24 bytes |
| `DescriptorPaging.SampleWalk` | src/descriptor/descriptor.cpp:873-886 | the same for telemetry samples |
| `DescriptorPaging.SettingWalk` | src/descriptor/descriptor.cpp:993-1013 | the same for settings exactly when no setting's clipped texts exceed the room beside the message; otherwise the walk never passes the first that does |
| `ManifestPaging.ManifestWalk` | src/descriptor/descriptor.cpp:1440-1481 | walking a paged firmware manifest, for every manifest of at most 65535 images, every page size asked for and every message: it arrives exactly when the pages can be written and the texts of every image fit the 127 bytes a page leaves, less the message; then each image comes once, in order, all but its id, and the ids are right if and only if every page carried one image at most or images without ids |
| `ManifestPaging.OneByOne` | src/descriptor/descriptor.cpp:2201-2227 | asked for one image a page, the walk brings such a manifest whole, ids and all |
| `DescriptorPaging.EffectivePageSize` | src/descriptor/descriptor.cpp:181-195 | a page asks for at most sixteen entries, and for some exactly when the query is paged and its type can be |
| `DescriptorPaging.PageList.SlicePageInPlace` | src/descriptor/descriptor.cpp:232-245 | slicing in place leaves exactly the page |
| `FrameCodec.WireRoundTrip` | src/core/protocol.cpp:34-262 | every encodable message type comes back from its wire numbers |
| `FrameCodec.WireNamesEncodable` | src/core/protocol.cpp:151-262 | and every wire number the decoder knows names an encodable type with those numbers |
| `FrameCodec.DecodeInvertsEncode` | src/core/protocol.cpp:281-392 | for every encodable type without overrides and every payload up to 235 bytes, decoding the encoding gives header and payload back |
| `FrameCodec.DecodeEncoded` | src/core/protocol.cpp:281-392 | with overrides too: the type is then the one the overriding numbers name, and the frame is refused exactly when they name none |
| `FrameCodec.EncodeInvertsDecode` | src/core/protocol.cpp:281-392 | every frame the decoder accepts is the encoding of what was read from it |
| `FrameCodec.EncodeFrame` | src/core/protocol.cpp:281-335 | the encoder appends the bytes of the specification or refuses with it |
| `FrameCodec.DecodeFrame` | src/core/protocol.cpp:337-392 | the decoder's checks and reads are the specification's |
| `FrameCodec.OverrideWire` | src/core/protocol.cpp:293-307 | a header's own wire numbers override the table's one by one |
| `FrameCodec.FrameLayout` | src/core/protocol.cpp:281-335 | every byte of an encoded frame: the header with its numbers low byte first, the payload, and a trailer that is what a bit-serial shift register preset to all ones holds after the bytes before it |
| `Crc16.Crc16CcittFalse` | src/core/protocol.cpp:264-277 | the bitwise loops compute the register of the specification: all ones for an empty message, and 0x29B1, the check value of CRC-16/CCITT-FALSE, for the digits 1 to 9 |
| `Crc16.CrcIsFeed` | src/core/protocol.cpp:264-277 | which is a bit-serial shift register over the message |
| `Crc16.BurstShows` | src/core/protocol.cpp:264-277 | whatever surrounds it, a burst of at most sixteen bits changes the register |
| `FrameDamage.BurstRejected` | src/core/protocol.cpp:337-392 | so a frame damaged within sixteen consecutive bits before the trailer is rejected |
| `FrameDamage.AdjacentDamageRejected` | src/core/protocol.cpp:337-392 | a frame whose bytes differ from an accepted one only at two adjacent places, header and trailer included, is accepted if and only if the last payload byte changed by 0x89 and the first trailer byte by 0xA1 |
| `TelemetryPush.ParseEncoded` | src/descriptor/telemetry_push.cpp:130-340 | for every encodable command parsing its encoding gives its normal form: zero interval and gap become the stream's, the threshold flag is whether the mode is not periodic, a delta survives if it was used; only a start or update without metrics is refused |
| `CommandArrival.CommandArrives` | src/descriptor/telemetry_push.cpp:206-340 | what the receiver ends up with, field by field: stream and metrics as sent, zero periods as the stream has them, a threshold for any mode but the periodic one; the other actions bring the default stream |
| `CommandArrival.CommandOnWire` | src/descriptor/telemetry_push.cpp:130-204 | a command is the magic word and the action, and for a start or an update the stream and its metrics |
| `CommandArrival.MetricOnWire` | src/descriptor/telemetry_push.cpp:155-203 | a metric is its name or number and exactly what it does not take from the stream |
| `TelemetryPush.NormalTwice` | src/descriptor/telemetry_push.cpp:206-340 | the normal form is a fixed point |
| `TelemetryPush.EncodesExactly` | src/descriptor/telemetry_push.cpp:130-204 | the encoder refuses exactly unknown actions and modes, and metrics without exactly one identity or with a huge key |
| `TelemetryPush.ChangesRebuild` | src/descriptor/telemetry_push.cpp:149-203 | leaving out what equals the stream's defaults loses nothing: the changes rebuild each metric |
| `TelemetryPush.IgnoredTagsDoNothing` | src/descriptor/telemetry_push.cpp:217-335 | a tag the parser does not know changes nothing, wherever it is inserted |
| `TelemetryPush.ParseTelemetryPushCommand` | src/descriptor/telemetry_push.cpp:206-345 | the loop reads exactly what the specification does |
| `TelemetryPush.EncodeTelemetryPushCommand` | src/descriptor/telemetry_push.cpp:130-204 | the encoder appends the bytes of the specification or refuses with it |
| `TelemetryPush.AppendMetric` | src/descriptor/telemetry_push.cpp:155-203 | one metric's identity and differences |
| `Tlv.ScanAfter` | src/descriptor/descriptor.cpp:483-606 | a list of tag-length-value fields is found again, in order, behind any prefix and before a remainder shorter than a field's head |
| `PlannerChain.ParseNodes` | tools/topology_plan_report.py:132-206 | accepts exactly the valid chains: compatible identities, at most the device limit, separators at both ends and never adjacent |
| `PlannerChain.SeenMacs.Accept` | tools/topology_plan_report.py:149-193 | the address sets refuse an entry exactly when it clashes with one before |
| `PlannerChain.DeviceCount` | tools/topology_plan_report.py:195-199 | the sizes of the four address sets add up to the number of different devices |
| `PlannerChain.IdentityUnique` | tools/topology_plan_report.py:155-191 | address and child index name one entry of a valid chain |
| `PlannerChain.BuildGroups` | tools/topology_plan_report.py:209-250 | for a chain of two entries or more it never fails with as many seeds as separators less one, and its groups partition the relays in order |
| `PlannerTargets.BuildLinks` | tools/topology_plan_report.py:254-259 | the nested loops over groups and relays give the chain's links relay by relay, each first to its left and then to its right separator, whatever groups describe the chain |
| `PlannerTargets.LinksExactly` | tools/topology_plan_report.py:254-259 | those links are exactly the pairs of a separator and a relay with only relays between them, each under the relay's group |
| `PlannerTargets.Targets.UpsertSlot` | tools/topology_plan_report.py:263-301 | one look appends a slot, or replaces the peer's slot when strictly nearer |
| `PlannerTargets.BuildTargets` | tools/topology_plan_report.py:253-306 | every device gets the slots of the specification |
| `PlannerTargets.SlotsAreBest` | tools/topology_plan_report.py:276-301 | after any looks a device has one slot per peer looked at, from its first nearest entry |
| `PlannerTargets.TieRuleDead` | tools/topology_plan_report.py:298-301 | the tie-update branch is never taken for an accepted chain |
| `PlannerTargets.LookSees` | tools/topology_plan_report.py:267-277 | what one end of a link sees of the other: its address, kind, place and distance, and both indices as octets, 255 for none |
| `PlannerTargets.UpsertByDistance` | tools/topology_plan_report.py:272-301 | what a look does to the slots, by the distances: nothing, a new slot, the nearer slot in place, or, on a tie, the own index and group filled in |
| `PlannerKeys.OneSlotPerLinkedPeer` | tools/topology_plan_report.py:253-306 | in an accepted chain each device has exactly one slot per linked entry, of the least distance, and no others |
| `PlannerKeys.SeparatorChoice` | tools/topology_plan_report.py:480-486 | a separator's device always chooses the lowest group the two addresses share |
| `PlannerKeys.RelayChoice` | tools/topology_plan_report.py:480-486 | a relay's device chooses it exactly when the nearest relay to some separator of the other address lies in it, and never a lower one |
| `PlannerKeys.KeysAgreeExactly` | tools/topology_plan_report.py:480-486 | hence both ends choose the same key group if and only if that condition holds |
| `PlannerKeys.OneGroupAgrees` | tools/topology_plan_report.py:480-486 | it holds when all relays of the address lie in one group |
| `PlannerKeys.KeysCanDisagree` | tools/topology_plan_report.py:480-486 | it can fail: in one valid chain, for any six addresses, the ends choose groups 1 and 2 |
| `PlannerKeys.SameKeyBothEnds` | tools/topology_plan_report.py:125-129 | with the same group both ends derive the same key, whatever the keyed hash |
| `PlannerKeys.SameInputExactly` | tools/topology_plan_report.py:125-129 | the keyed hash is fed the same for two links exactly when they join the same two addresses, whichever is local, under the same controller and the same group modulo 256 |
| `RequestQueue.RequestService.Submit` | src/management/management_service.cpp:88-123 | in every reachable state the queue is the stable sort by priority of the requests accepted and not yet removed, never longer than the depth; a full queue refuses with one answer |
| `RequestQueue.RequestService.TakeNext` | src/management/management_service.cpp:125-170 | takes the earliest of the most urgent, and times it out exactly when its deadline has passed |
| `RequestQueue.RequestService.CancelPendingMutatingRequestsForTransition` | src/management/management_service.cpp:624-649 | keeps exactly the unblocked requests in their order and answers each removed one once, in queue order |
| `RequestQueue.StableSortUnique` | src/management/management_service.cpp:107-114 | the stable sort is unique, so the queue is determined by the arrivals |
| `RequestQueue.InsertKeeps` | src/management/management_service.cpp:107-114 | inserting in front of the first less urgent request keeps it |
| `RequestQueue.FrontIsFirst` | src/management/management_service.cpp:144-145 | the front is the earliest of the most urgent arrivals |
| `RequestQueue.CancelKeeps` | src/management/management_service.cpp:624-649 | filtering the queue is stably sorting the filtered arrivals |
| `QueueTransport.AlwaysAccounted` | include/espnow_link/management_queue_transport.hpp:61-175 | in every run, with polls, clears and reconfigurations in between, admitted is gone plus pending in order, polled is a subsequence of gone, and the counters say where every offered request went |
| `QueueTransport.FixedSizeBalances` | include/espnow_link/management_queue_transport.hpp:61-175 | with a fixed configuration enqueued is polled plus dropped plus pending, and pending never exceeds the size |
| `QueueTransport.RefusingLosesNothing` | include/espnow_link/management_queue_transport.hpp:167-175 | under the refusing policy everything admitted is handed out, in order |
| `QueueTransport.LastConfigured` | include/espnow_link/management_queue_transport.hpp:18-23 | in every run the size and policy in force are those of the last reconfiguration |
| `QueueTransport.ConfigureKeepsBox` | include/espnow_link/management_queue_transport.hpp:18-23 | a reconfiguration takes nothing away |
| `QueueTransport.ManagementQueueTransport.MakeRoom` | include/espnow_link/management_queue_transport.hpp:166-175 | admits, refuses or drops the oldest exactly by size and policy, size zero refusing all |
| `QueueTransport.ManagementQueueTransport.EnqueueRequest` | include/espnow_link/management_queue_transport.hpp:61-74 | pushes into the request mailbox as in the runs |
| `QueueTransport.ManagementQueueTransport.PollRequest` | include/espnow_link/management_queue_transport.hpp:107-112 | takes the oldest |
| `QueueTransport.ManagementQueueTransport.SendResponse` | include/espnow_link/management_queue_transport.hpp:115-128 | pushes into the response mailbox |
| `QueueTransport.ManagementQueueTransport.SendEvent` | include/espnow_link/management_queue_transport.hpp:131-144 | pushes into the event mailbox |
| `RequestRounds.ScheduleMembers` | src/management/management_runtime.cpp:32-59 | a tick takes exactly the first min(limit, pending) requests of every transport |
| `RequestRounds.ScheduleInTurn` | src/management/management_runtime.cpp:32-59 | round by round and within a round in turn from the cursor: no transport gets ahead by more than one |
| `RequestRounds.FirstInFirstOut` | src/management/management_runtime.cpp:32-59 | each transport's requests are taken oldest first |
| `RequestRounds.TakenAt` | src/management/management_runtime.cpp:43-45 | each request is offered under its transport's own source and access level |
| `RequestRounds.IdleRounds` | src/management/management_runtime.cpp:54-57 | stopping at the first idle round loses nothing |
| `ManagementRuntime.ManagementRuntime.PumpRequests` | src/management/management_runtime.cpp:26-60 | the nested polling loops offer the scheduled requests to the service in that order, leave the rest in the queues, move the cursor on, and polled is submitted plus dropped |
| `ManagementRuntime.ManagementRuntime.DispatchResponse` | src/management/management_runtime.cpp:93-106 | a response is pushed into the mailbox of every transport of its source, every other mailbox stays as it was, and targeted is the number of those transports, delivered plus rejected |
| `ManagementRuntime.ManagementRuntime.DispatchEvent` | src/management/management_runtime.cpp:108-122 | the same for an event, which reaches every transport when its source is unknown |
| `ManagementRuntime.ManagementRuntime.DispatchResponses` | src/management/management_runtime.cpp:64-76 | responses leave the service in order, up to the limit, and the runtime's counters agree with the mailboxes' own |
| `ManagementRuntime.ManagementRuntime.DispatchEvents` | src/management/management_runtime.cpp:78-90 | the same for events |
| `ManagementRuntime.ManagementRuntime.Serve` | src/management/management_runtime.cpp:26-60 | intake and service phase: the scheduled requests are offered in order, taken in or refused as the desk says, and then one request leaves with its answer; polled is submitted plus dropped |
| `ManagementRuntime.ManagementRuntime.Tick` | src/management/management_runtime.cpp:26-91 | all phases of a tick: which requests the transports give up, which the service takes in or refuses, the one that leaves (the earliest of the most urgent, timed out exactly past its deadline), the counters, and that each mailbox is pushed exactly the responses and events of its own source, in order |
| `ServiceDesk.FirstGetIn` | src/management/management_service.cpp:88-123 | of the requests a tick offers, exactly the first that there is room for are taken in, in order, and each of the others gets one refusal |
| `ServiceDesk.EnqueuedFor` | src/management/management_service.cpp:102-106 | a request taken in gets the priority of its command, and its own time to live or its command's |
| `ServiceDesk.LateExactly` | src/management/management_service.cpp:150-151 | a request is timed out exactly from its deadline on, for half of the clock range |
| `ManagementRuntime.ManagementRuntime.AddTransport` | src/management/management_runtime.cpp:8-15 | a transport is registered once |
| `ManagementRuntime.ManagementRuntime.RemoveTransport` | src/management/management_runtime.cpp:17-22 | removal keeps the others in order |
| `Dispatch.EachGetsItsOwn` | src/management/management_runtime.cpp:93-122 | after any traffic a mailbox is as if only its own messages had been pushed into it |
| `Dispatch.PushedAllKeeps` | include/espnow_link/management_queue_transport.hpp:166-175 | a full mailbox ends with its oldest messages when it refuses, with its newest when it drops |
| `Dispatch.RoomMeansDelivered` | src/management/management_runtime.cpp:93-122 | with room for them all, a client gets exactly its messages, in order |
| `Dispatch.SendingCounts` | src/management/management_runtime.cpp:96-104 | the mailboxes' counters move by exactly the mailboxes reached |
| `ProfileRegistry.ValidateSpecSet` | src/descriptor/profile.cpp:337-358 | accepts exactly the lists whose items are numbered and named, without repetition |
| `ProfileRegistry.ProfileRegistry.RegisterProfile` | src/descriptor/profile.cpp:393-423 | registers an acceptable definition exactly when it clashes with none, and keeps every lookup right |
| `ProfileRegistry.NoClashExactly` | src/descriptor/profile.cpp:393-423 | a definition clashes exactly with another of its id or its name |
| `ProfileRegistry.ZeroIsNoProfile` | src/descriptor/profile.cpp:394-396 | id 0 is never registered and nothing is found under it |
| `ProfileRegistry.ProfileRegistry.Find` | src/descriptor/profile.cpp:425-431 | answers as a scan of the registered definitions |
| `ProfileRegistry.ProfileRegistry.FindByProfileName` | src/descriptor/profile.cpp:433-439 | likewise by name |
| `ProfileRegistry.ProfileRegistry.RebuildSnapshotCache` | src/descriptor/profile.cpp:445-507 | the rebuilt tables agree with a scan of every registered definition |
| `ProfileRegistry.ProfileRegistry.CurrentSnapshot` | src/descriptor/profile.cpp:509-514 | a stale cache is never handed out |
| `ProfileRegistry.ProfileRegistry.ResolveById` | src/descriptor/profile.cpp:516-530 | after any registrations and lookups answers as a scan of the profile's own list |
| `ProfileRegistry.ProfileRegistry.ResolveByKey` | src/descriptor/profile.cpp:532-546 | likewise by name |
| `ProfileRegistry.LookupsInverse` | src/descriptor/profile.cpp:516-610 | the two are inverse: an item is found by its number if and only if it is found by its name, namely when the profile lists it |
| `DescriptorCache.DescriptorCache.BuildAndCacheByProfileId` | src/descriptor/descriptor_cache.cpp:37-81 | the schema handed out, cached or not, is the one built from the registry as it is now |
| `DescriptorCache.DescriptorCache.TelemetrySchemaForProfile` | src/descriptor/descriptor_cache.cpp:83-94 | a definition's schema is that of what is registered under its id |
| `DescriptorCache.DescriptorCache.SettingsSchemaForProfile` | src/descriptor/descriptor_cache.cpp:83-98 | likewise for settings |
| `DescriptorCache.StaysValid` | src/descriptor/descriptor_cache.cpp:39-43 | registrations behind the cache's back never make it wrong |
| `DescriptorCache.UnregisteredHasNone` | src/descriptor/descriptor_cache.cpp:25-35 | a profile nobody registered has an empty schema |
| `DescriptorCache.SchemaIsWhole` | src/descriptor/descriptor_cache.cpp:51-77 | a registered definition's schema lists all its items in order, each under its own number and name |

## Left out

- Pairing, discovery, liveness, channel synchronisation, the command line, Arduino transport and storage, logging and
  locking.
- Which commands are critical, urgent or blocked, and their timeouts: finite tables, here parameters of the queue.
- The command dispatcher: its effects on the modelled state are the events of the staging machine and the parameters
  of `RequestService` and `ManagementRuntime.Tick`.
- Diagnostic counters and file sizes are unbounded, so their wrap-around is not modelled; offsets, correlations and
  clock readings are 32 bits wide and wrap.
- The image checksum, the keyed hash of the planner and the page snapshot hash are arbitrary functions.
- Floating-point fields are four opaque bytes.
- Persistence of the firmware, its manifest and the boot protocol after the image has been stored.
- Begin frames from another master, and a second push running at the same time.
- `OtaReceiveMachine.OtaReceiveService.WriteReceiveChunk` also refuses a chunk that would run past the pool, which the
  code's other checks already exclude for every session it can open.
- `TopologyStagingMachine.PullService.StageSet` and `CommitSet` start where the command dispatcher has parsed the
  payload and admitted the request: the answers BadPayload and NotPaired, the repeat of a request already in flight
  and the limit on pending pulls are decided before them. The results hold for every sequence of commands, admitted or
  not.
- Whether the slave's manager accepts the finished snapshot: the ideal slave applies it and acknowledges.
- Which text of an error reply stands for which status: the status is part of the reply.
- Response kinds with single values only (device, liveness, time, status records): their fields are carried as raw
  fields; the single-setting and log-chunk responses are not modelled, the latter because a long message makes it
  exceed the payload.
- How a provider and a profile merge their lists before paging.
- `ProfileRegistry.ProfileRegistry.RebuildSnapshotCache` fills a profile's row in one assignment, where the code
  emplaces item by item into the row in the map; the definitions are immutable values with an identity, and a missing
  name is an empty one.
- `ManagementRuntime.ManagementRuntime.Tick` takes what the service queues for its clients during the tick as
  parameters, and other kinds of transport than the queue transport are not modelled.
- The counters' reset and the access-level setter of the queue transport.
- The planner's reading of JSON and addresses, its numbering of slots for display, and its report.
- Null payloads.
