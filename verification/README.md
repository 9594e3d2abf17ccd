# Verified models of the NetA agent

The NetA agent watches the TCP connections and processes of a host, keeps what it saw in a SQLite
history, judges it against baselines, and reports findings to a coordinator through an outbox that
survives crashes. This project models the parts of the agent that carry state across steps, restarts
and hops, and proves in Dafny what the rest of the agent relies on:

* **Sequence numbers** (`NapRecord`, `NapSequence`, `StateDirectory`): two slot files and a legacy
  mirror hold the agent's message sequence. A call can die at any point, with a file write torn to any
  prefix. Over every run from an initialised directory the numbers strictly increase, none is handed
  out twice, and at least one slot always parses.
* **Outbox and dispatcher** (`OutboxModel`, `OutboxSafety`, `OutboundQueue`, `Dispatch`,
  `DispatchRuns`, `RetryTiming`, `OutboxBytes`, `OutboundDispatcher`): the durable queue with its byte
  budget, eviction, gap marker and counters, and the drain loop as a state machine whose actions include
  crashes, lost replies and refused writes. Envelopes are written before they are posted, sequence numbers
  identify envelopes, a row is acknowledged only by a reply that matches it, a failed event waits for its
  delay, and nothing that was ever posted is dropped. The budget is shown to be one of bytes. The
  state machine takes its numbers from sequence files in any condition, through the allocator above with all
  its faults.
* **Connection tracker** (`Samples`, `TrackerModel`, `TrackerRuns`, `TrackerTheorems`,
  `TrackerHistory`, `Correlation`, `Multimaps`, `ConnectionTracker`): lifecycle events and snapshots are
  matched to connections through three maps updated in place. The maps are proved equal, step by step, to
  one table searched by a plain scan, and observations of one connection are proved to meet. Over every run
  ids are admitted once and retired once, cookies and directions are written once, and a snapshot gives up
  exactly the connections the history says it may.
  The thinned samples in the store give the same retransmissions as all observed samples, and bounded
  errors on the round-trip time and its variance.
* **Process graph and bursts** (`ProcessModel`, `ProcessRuns`, `ParentLinks`, `ProcessGraph`, `Bursts`,
  `BurstNodes`): the bounded node table, the multimap of live processes and the insertion deque are proved
  equal to one list; parents, exits and details are what the events say; the trimmed deques of the burst
  detectors are proved equal to a filter of the whole history.
* **Storage pruning** (`PruningModel`, `HistoryMaintenance`): rows are sacrificed in one total order, no
  surviving reference dangles, no target loses its baseline, and no place still in use goes.
* **TLS evidence** (`Lists`, `TlsSessions`, `InboundTrust`): correlation and the inbound verdict do not
  depend on list order, and every answer and reason of the verdict comes exactly under its condition.
* **Sensor broker** (`Wire`, `BrokerCodec`, `BrokerRouter`, `BrokerQueues`): frames, canonical events,
  bounded queues and routing.
* **Upgrade codecs** (`UpgradeJson`, `UpgradeState`, `Chunked`): the state file and the chunked download.

Most parts have three layers: values and step functions; lemmas over all runs; and classes whose methods
update fields in place and are proved to do what the step functions say.

Choices that matter when reading the contracts:

* SHA-256 and the rendering of an envelope are function parameters. Where a proof needs to know that a
  digest is sixty-four hexadecimal characters, the predicate `HexDigest` says so; nothing needs collision
  resistance. Clocks, random identifiers, replies, file sizes and the process resolver are inputs.
* Identities and correlation keys of connections are datatypes instead of joined texts.
* SQLite tables are maps; a transaction either has its whole effect or none. Where a query leaves the
  order of ties open, every choice is allowed.
* Ratio tests on floating-point numbers are replaced by exact integer comparisons; the ratios in use are
  powers of two and the operands are 32-bit.
* Results that show a limit of the code, each with the exact condition:
  * a legacy sequence file can be lost by one torn write during migration (`MigrationStep`), and a new
    directory by one during initialisation (`NewDirectoryAllocatesIff`);
  * a caller that submits its own finding of the gap-marker type can make the reported-drop counter overtake
    the drop counter (`ForeignGapMarkerOverreports`, over all runs `ReportsExactly`) and two markers wait
    (`ForeignMarkersCanDouble`, over all runs `MarkersExactly`);
  * once the gap marker for a count of drops is given up, the next one for the same count is coalesced with
    it, so these drops stay unreported until another event is dropped (`DeadMarkerKeepsNextOut`,
    `GapMarkerEntersIff`, over all runs `GivenUpStaysUnreported`);
  * marking an acknowledged row for retry or as dead, or attaching to it an envelope that is no larger, brings
    it back without looking at the budget (`RetryKeepsSound`, `DeadLetterKeepsSound`, `StoreKeepsSound`); the
    dispatcher never does so;
  * thinning can lose the variance of the round-trip time (`ThinningCanLoseVariance`, exactly when in
    `VarianceSurvivesIff`);
  * event times that go back make a burst deque larger or smaller than its window (`OutOfOrderOvercounts`,
    `OutOfOrderUndercounts`, exactly when in `DequeIsWindowIff`);
  * a state file with other control characters than newline, return and tab cannot be read back
    (`StateRoundTrip`);
  * the pruner's batch of unreferenced processes never finds anything to delete, because the sweep before it
    has deleted the same rows (`PruneUnreferencedProcessBatch`, as used in `PruneRound`).

## Model

| member | source | states |
|---|---|---|
| NapRecord.RecordRoundTrip | src/core/nap_sequence.cpp:41-86 | the record written for a 64-bit number parses to that number |
| NapRecord.AcceptsExactlyRecords | src/core/nap_sequence.cpp:68-86 | a text is accepted if and only if it is the record of some 64-bit number |
| NapRecord.NoProperPrefixAccepted | src/core/nap_sequence.cpp:63-86 | no proper prefix of a record parses, whatever function the checksum is |
| NapRecord.ParseDecimalOfText | src/core/nap_sequence.cpp:41-61 | decimal text with an optional line end reads back as the number it writes |
| NapSequence.SafeWritesHold | src/core/nap_sequence.cpp:291-318 | a sequence of safe slot writes, cut after any write and inside any write at any byte, leaves the held number readable |
| NapSequence.AllocationIsSafe | src/core/nap_sequence.cpp:368-425 | the writes of an allocation are safe in their order, and all of them done leave both slots at the next number |
| NapSequence.AllocationStep | src/core/nap_sequence.cpp:368-425 | one call that may die anywhere keeps a readable slot, moves the number by at most one, and returns exactly the next number with both slots holding it |
| NapSequence.MigrationStep | src/core/nap_sequence.cpp:368-425 | a call that migrates the legacy file loses the number if and only if it dies inside its first slot write |
| NapSequence.UnreadableStaysUnreadable | src/core/nap_sequence.cpp:368-425 | without any readable file a call changes nothing and returns no number |
| NapSequence.OneCall | src/core/nap_sequence.cpp:350-425 | any call on any disk: the readable number never goes back, moves by at most one, and a returned number is the one now on disk, in a slot that parses |
| NapSequence.NumbersNeverRepeat | src/core/nap_sequence.cpp:350-425 | over every run of calls with faults from any disk, returned numbers strictly increase within the numbers on disk before and after |
| NapSequence.RunsFromInitialisation | src/core/nap_sequence.cpp:368-437 | from an initialised directory a slot always parses, numbers strictly increase, the n-th one is at least n above the start, and n calls advance by at most n |
| NapSequence.InitialisationCut | src/core/nap_sequence.cpp:427-437 | initialisation over any directory, cut at any byte: exactly which number it leaves, and the initialised directory when it completes |
| NapSequence.NewDirectoryAllocatesIff | src/core/nap_sequence.cpp:427-437 | a new directory can allocate after a cut initialisation if and only if the first record is whole, and then returns the number after the initial one |
| NapSequence.InspectionPredictsAllocation | src/core/nap_sequence.cpp:439-479 | the inspected status foretells whether the next allocation returns, refuses or is exhausted, and with which number |
| NapSequence.InspectionPredictsRepairs | src/core/nap_sequence.cpp:439-479 | the reported health is exactly the number of slots the next allocation repairs first, and the validity flags say which |
| StateDirectories.StateDirectory.DurableWrite | src/core/nap_sequence.cpp:291-318 | a write leaves the new text, or after a fault the old text or a prefix of the new one |
| StateDirectories.StateDirectory.WriteSlot | src/core/nap_sequence.cpp:350-356 | writes the record of the number to the slot, with the same faults |
| StateDirectories.StateDirectory.Next | src/core/nap_sequence.cpp:368-425 | the call on the files is the allocation of the model |
| StateDirectories.StateDirectory.Initialize | src/core/nap_sequence.cpp:427-437 | the three writes on any directory, cut anywhere, are those of the model |
| OutboxModel.EventIdsDiffer | src/core/outbound_queue.cpp:194-201 | event ids of different agents or counters differ |
| OutboxSafety.EvictionRemoves | src/core/outbound_queue.cpp:148-168 | eviction removes exactly its victims and changes no other row |
| OutboxSafety.EvictionInOrder | src/core/outbound_queue.cpp:148-168 | victims go in order of priority, then age, and before every eviction candidate that stays |
| OutboxSafety.RoomMade | src/core/outbound_queue.cpp:128-168 | after making room the new bytes fit, only evictable or acknowledged rows are gone, and rows plus drops plus deleted acknowledged rows are conserved |
| OutboxSafety.EnqueueKeepsSound | src/core/outbound_queue.cpp:170-228 | enqueueing any request, of whatever type, keeps budget, conservation, fresh counters and distinct producers; it adds at most one row, removes no attempted or important one and changes no other |
| OutboxSafety.EnqueueKeepsGaps | src/core/outbound_queue.cpp:170-228 | enqueueing a finding of another type, or the marker the queue writes itself, keeps reported drops within drops and at most one marker waiting |
| OutboxSafety.EndKeepsGaps | src/core/outbound_queue.cpp:312-353 | acknowledging, giving up and deleting rows keep the gap accounting |
| OutboxSafety.RetryKeepsGaps | src/core/outbound_queue.cpp:300-310 | a retry keeps it if and only if it brings no settled marker back while another one waits |
| OutboxSafety.StoreKeepsGaps | src/core/outbound_queue.cpp:260-298 | storing an attempt keeps it if and only if it brings no settled marker back while another one waits that is not evicted for it |
| OutboxSafety.StoreKeepsSound | src/core/outbound_queue.cpp:260-298 | storing an attempt never evicts the message itself, a refusal changes nothing, and the queue stays sound if and only if an acknowledged message that comes back with an envelope no larger fits the budget |
| OutboxSafety.RetryKeepsSound | src/core/outbound_queue.cpp:300-310 | scheduling a retry keeps the queue sound if and only if the row was not acknowledged or fits the budget again |
| OutboxSafety.DeadLetterKeepsSound | src/core/outbound_queue.cpp:312-320 | giving a message up keeps the queue sound if and only if the row was not acknowledged or fits the budget again |
| OutboxSafety.AckKeepsSound | src/core/outbound_queue.cpp:322-353 | acknowledging any row keeps the queue sound |
| OutboxSafety.PruneKeepsSound | src/core/outbound_queue.cpp:422-426 | deleting old acknowledged rows keeps the queue sound |
| OutboxSafety.GapMarkerAllowed | src/core/outbound_queue.cpp:388-420 | the gap marker the queue writes reports exactly the drops counted so far |
| OutboxSafety.GapMarkerEntersIff | src/core/outbound_queue.cpp:388-420 | when a marker is due, one waits afterwards if and only if the queue holds none for the same count and has room |
| OutboxSafety.DeadMarkerKeepsNextOut | src/core/outbound_queue.cpp:388-420 | a queue in which a given-up marker keeps the next one for the same count out |
| OutboxSafety.CastReads | src/core/outbound_queue.cpp:335-344 | for all blanks, an optional sign, digits and a rest that begins with no digit, the cast is the signed number held to 64 bits |
| OutboxSafety.AckOverreportsIff | src/core/outbound_queue.cpp:335-344 | acknowledging a row overtakes the drop counter if and only if it is a gap row whose key, read as SQLite casts a text, is a larger number |
| OutboxSafety.ForeignGapMarkerOverreports | src/core/outbound_queue.cpp:170-228 | a producer that uses the gap finding type can make that happen |
| OutboundQueues.OutboundQueue.EnforceBudget | src/core/outbound_queue.cpp:128-168 | the loop makes room as the model says, or leaves the queue as it was |
| OutboundQueues.OutboundQueue.Enqueue | src/core/outbound_queue.cpp:170-228 | enqueues or coalesces as the model says, or rolls back |
| OutboundQueues.OutboundQueue.NextReady | src/core/outbound_queue.cpp:230-258 | returns a due row that no other due row precedes, and none exactly when every row that is pending or in flight is due later |
| OutboundQueues.OutboundQueue.StoreAttempt | src/core/outbound_queue.cpp:260-298 | stores the attempt within the budget, or changes nothing |
| OutboundQueues.OutboundQueue.Retry | src/core/outbound_queue.cpp:300-310 | makes the model's retry transition |
| OutboundQueues.OutboundQueue.DeadLetter | src/core/outbound_queue.cpp:312-320 | makes the model's dead-letter transition |
| OutboundQueues.OutboundQueue.Acknowledge | src/core/outbound_queue.cpp:322-353 | makes the model's acknowledgement, counters included |
| OutboundQueues.OutboundQueue.EnqueueGapMarker | src/core/outbound_queue.cpp:388-420 | hands the queue a marker exactly when drops are unreported and none is waiting; one waits afterwards if and only if the queue holds none for the same count and has room |
| OutboundQueues.OutboundQueue.Prune | src/core/outbound_queue.cpp:422-426 | deletes exactly the acknowledged rows older than the limit |
| OutboxBytes.LengthCountsCharacters | src/core/outbound_queue.cpp:132-139 | the measured length of a UTF-8 text is the number of its characters, at least a quarter of its bytes |
| OutboxBytes.LengthOfPlain | src/core/outbound_queue.cpp:132-139 | the measured length of an ASCII text is its number of bytes |
| OutboxBytes.BytesAreWithinBudget | src/core/outbound_queue.cpp:128-168 | in every state of every run the payload and envelope bytes of ASCII rows, with 512 for each, are within the budget, and of UTF-8 rows within four times it |
| OutboxBytes.PlainQueueTakesExactly | src/core/outbound_queue.cpp:128-168 | a queue of ASCII rows none of which may be sacrificed takes an event if and only if all bytes together fit |
| OutboxBytes.PlainAttemptFitsExactly | src/core/outbound_queue.cpp:260-298 | and takes an envelope if and only if it is no longer than the one before or its additional bytes fit |
| DispatchRuns.StepKeepsInv | src/core/outbound_dispatcher.cpp:101-181 | every action, crashes and lost replies included, keeps the dispatcher invariant |
| DispatchRuns.RunKeepsInv | src/core/outbound_dispatcher.cpp:101-181 | from sequence files in any condition, legacy-only and unreadable ones included, the invariant holds after every step of every run |
| DispatchRuns.EnvelopesAreWrittenAhead | src/core/outbound_dispatcher.cpp:101-181 | an envelope that is posted is already stored in its row, with its text as the column keeps it, which is the whole text unless it holds a NUL |
| DispatchRuns.EventsKeepTheirContent | src/core/outbound_dispatcher.cpp:101-133 | two posts have the same idempotency key exactly when they are for the same event, and then carry the same content |
| DispatchRuns.SequencesIdentifyEnvelopes | src/core/outbound_dispatcher.cpp:101-133 | posts with the same sequence number are the same envelope of the same event |
| DispatchRuns.AcknowledgedOnlyByConfirmation | src/core/coordinator_ack.cpp:66-83 | a row becomes acknowledged only by a reply matching message id, sequence, event id and payload hash of an envelope posted for it |
| DispatchRuns.AttemptedIsNeverDropped | src/core/outbound_queue.cpp:128-168 | a row that was attempted or posted leaves the queue only once acknowledged |
| DispatchRuns.OutboxAccounts | src/core/outbound_queue.cpp:141-168 | in every state of every run, whatever producers submit: within budget, and the counter equals rows plus drops plus deleted acknowledged rows |
| DispatchRuns.CallKeepsDisk | src/core/nap_sequence.cpp:368-425 | an allocation on files in any condition that may die anywhere: a slot that parses stays, the number does not go back then, and a returned number is above the one before and in a slot that parses |
| DispatchRuns.GapMarkersTellTheTruth | src/core/outbound_queue.cpp:388-420 | while producers leave the marker type free, in every state of every run reported drops are within drops and at most one marker waits |
| DispatchRuns.ReportsExactly | src/core/outbound_queue.cpp:322-353 | over every run reported drops stay within drops if and only if no marker that gets acknowledged claims more than was dropped |
| DispatchRuns.MarkersExactly | src/core/outbound_queue.cpp:388-420 | over every run at most one marker waits if and only if no producer hands in one that the queue does not hold and has room for while another waits that is no victim |
| DispatchRuns.ForeignMarkersCanDouble | src/core/outbound_queue.cpp:170-228 | a run in which two producers make two markers wait |
| DispatchRuns.GivenUpStaysUnreported | src/core/outbound_queue.cpp:388-420 | over every run whose producers leave the marker type free, once the marker for a count of drops is given up, no marker waits and reported drops stay the same until another event is dropped |
| DispatchRuns.EventIdsAreNeverReused | src/core/outbound_queue.cpp:187-223 | rows that enter later have larger counters and other event ids, also after pruning |
| DispatchRuns.RetryDelayIsBounded | src/core/outbound_dispatcher.cpp:78-83 | delays never shrink with attempts, grow up to the sixth, and stay between 5 and 305 seconds |
| RetryTiming.RetryDelayIs | src/core/outbound_dispatcher.cpp:78-83 | five seconds doubled with each attempt up to five minutes, and up to four seconds of spread |
| RetryTiming.RetriedEventsWait | src/core/outbound_dispatcher.cpp:135-181 | over every run, an event whose try ended in a retry is not fetched again before its delay, counted from the fetch, is over |
| RetryTiming.RetriedIsReadyExactly | src/core/outbound_queue.cpp:300-310 | until it is fetched again it is ready at exactly the times from then on |
| RetryTiming.DeadOnlyByRejection | src/core/outbound_dispatcher.cpp:85-99 | a row is given up only on a reply of 413 or 422, 409 for different content, or 400 for another reason than its times |
| RetryTiming.RejectedIsDead | src/core/outbound_dispatcher.cpp:85-99 | and on such a reply it is |
| RetryTiming.PostsAreCurrent | src/core/outbound_dispatcher.cpp:101-133 | every envelope posted is valid for five minutes from its making and for more than five seconds from the fetch |
| RetryTiming.FetchedComesFirst | src/core/outbound_queue.cpp:230-258 | over every run the event fetched is due, and no other due event has a higher priority, or the same and is older |
| RetryTiming.ImportantIsNeverDropped | src/core/outbound_queue.cpp:148-168 | over every run only pending, never attempted events of priority one at most leave unacknowledged |
| RetryTiming.GapMarkersAreImportant | src/core/outbound_queue.cpp:388-420 | the gap marker is not among them |
| RetryTiming.PruneDeletesExactly | src/core/outbound_queue.cpp:422-426 | pruning deletes a row if and only if it was acknowledged before the limit |
| RetryTiming.AcknowledgementMatches | src/core/coordinator_ack.cpp:66-83 | over every run the reply that acknowledges a row repeats message id, sequence, event id and payload hash of an envelope posted for it, in the right protocol, with an accepting status |
| OutboundDispatchers.OutboundDispatcher.Prepare | src/core/outbound_dispatcher.cpp:101-133 | reuses a still valid stored attempt unchanged, or allocates and writes a new one ahead |
| OutboundDispatchers.OutboundDispatcher.AllocateNext | src/core/outbound_dispatcher.cpp:110-110 | the call on the sequence files is a step of the state machine, whether it returns, refuses or dies |
| OutboundDispatchers.OutboundDispatcher.Deliver | src/core/outbound_dispatcher.cpp:155-178 | posts, and acknowledges exactly when the reply confirms the envelope |
| OutboundDispatchers.OutboundDispatcher.Drain | src/core/outbound_dispatcher.cpp:135-181 | the loop's whole history is a run of the state machine and keeps its invariant, stops at the first failure, and its counters add up |
| OutboundDispatchers.OutboundDispatcher.Submit | src/core/reliable_fleet_client.cpp:132-145 | any request: reports success exactly when the row of the event is acknowledged, and a refused event changes nothing |
| Samples.AggregateMetrics | src/core/verdict.cpp:189-202 | the loop computes maxima and the retransmission difference |
| Samples.LeftOutIff | src/core/connection_tracker.cpp:14-29 | a sample is left out exactly when it follows within a second with the same counters and state and with close round-trip time and variance, upwards and downwards |
| Samples.LastStored | src/core/connection_tracker.cpp:14-29 | a sample left out agrees with the last stored one on retransmissions, losses and state, and is close in round-trip time and variance |
| Samples.ThinningKeepsRetransmissions | src/core/connection_tracker.cpp:14-29 | thinning does not change the retransmission count |
| Samples.ThinningKeepsRtt | src/core/connection_tracker.cpp:14-29 | the stored maximum is at most the full one, which is below it plus 2000 or below 1.25 times it |
| Samples.ThinningKeepsVariance | src/core/connection_tracker.cpp:14-29 | the same for the variance, with 1.5, when what may be left out after a stored sample without a round-trip time is near to the stored ones with one |
| Samples.VarianceSurvivesIff | src/core/connection_tracker.cpp:14-29 | stored samples keep the variance of every 32-bit history they may come from if and only if what may be left out after a stored sample without a round-trip time is near to the stored ones with one |
| Samples.ThinningCanLoseVariance | src/core/verdict.cpp:193-196 | two samples whose variance is lost |
| Samples.ReadBackInOrder | src/core/history_store.cpp:662-668 | rows read by time come back in the order they were stored, when times strictly increase |
| Samples.StoredEvidenceIsEnough | src/core/verdict.cpp:189-202 | metrics over the rows read back in any order agree with metrics over everything observed: the round-trip time, the variance when the stored variances are covered, and the retransmissions when times increase and rows come in order |
| TrackerModel.EventTarget | src/core/connection_tracker.cpp:164-189 | the connection a lifecycle event is about is tracked, and another connection never holds the event's identity |
| TrackerModel.Adopt | src/core/connection_tracker.cpp:193-199 | re-keying moves the entry unchanged to the identity it ends under |
| TrackerRuns.StepEffects | src/core/connection_tracker.cpp:157-417 | every observation keeps the invariant and has only the allowed effects on connections and rows |
| TrackerTheorems.TrackedIdsAreDistinct | src/core/connection_tracker.cpp:157-373 | tracked connections have distinct ids with stored rows, and the identity of a cookie has that cookie stored |
| TrackerTheorems.AdmittedOnce | src/core/connection_tracker.cpp:235-258 | an id is admitted at most once |
| TrackerTheorems.RetiredForGood | src/core/connection_tracker.cpp:191-211 | an id reported closed or inactive is never reported, admitted or written again |
| TrackerTheorems.RowsOnlyGrow | src/core/history_store.cpp:366-372 | cookies and directions are written once, samples and events are only appended |
| TrackerTheorems.PromotedOnce | src/core/history_reconciliation.cpp:10-31 | a direction is promoted at most once per connection |
| TrackerTheorems.StoredCookieMeansRekeyed | src/core/connection_tracker.cpp:133-142 | whenever a cookie is stored, the connection ends under the identity of that cookie or is closed in the same step |
| Correlation.KeysMeetIff | src/core/connection_tracker.cpp:36-94 | an event and a socket have the same key exactly when they agree on namespace, both ends in order and, where told, the process; exchanging the ends of both keeps that |
| Correlation.SocketKeysMeetIff | src/core/connection_tracker.cpp:45-49 | the same for two sockets |
| Correlation.IdentitiesMeetIff | src/core/connection_tracker.cpp:64-86 | an event and a socket have the same identity exactly when they carry the same usable cookie |
| Correlation.EventIdentitiesMeetIff | src/core/connection_tracker.cpp:64-81 | the same for two events without a cookie: platform id and process, or process, ends and time |
| Correlation.KeyIsFromAdmission | src/core/connection_tracker.cpp:96-131 | over every run a tracked connection has the key of the observation that admitted it, re-keyed or not |
| Correlation.SnapshotMeetsSole | src/core/connection_tracker.cpp:274-306 | over every run a snapshot whose key is that of one tracked connection only is reported as that connection, admits nothing, and stores the cookie it brings under a new name |
| Correlation.SnapshotMeetsItsConnection | src/core/connection_tracker.cpp:274-306 | in particular a snapshot with the ends and owner of the lifecycle event that admitted it |
| Correlation.CloseMeetsItsConnection | src/core/connection_tracker.cpp:164-211 | over every run a close event with its ends either way round ends it |
| Correlation.OpenMeetsItsConnection | src/core/connection_tracker.cpp:164-233 | over every run a connect or accept event with its ends is about it if only snapshots vouch for it, and admits a new connection otherwise |
| TrackerHistory.MemoryIsHistory | src/core/connection_tracker.cpp:261-417 | presence mark, miss count, origin and time last seen of a connection are what the inputs so far say |
| TrackerHistory.SnapshotGivesUpExactly | src/core/connection_tracker.cpp:382-417 | the end of a snapshot gives up a connection if and only if it was not seen and polling controls, or it has no lifecycle evidence or evidence is incomplete and this is the third miss |
| TrackerHistory.LifecycleConnectionsSurviveAbsence | src/core/connection_tracker.cpp:382-417 | with complete lifecycle evidence, absence never removes a connection something vouched for: a lifecycle event, or an admission under a lifecycle origin |
| TrackerHistory.ThreeMissesBeforeGivingUp | src/core/connection_tracker.cpp:382-417 | without polling a connection is given up only after three consecutive snapshots without it |
| TrackerHistory.AbsentRowsSayWhy | src/core/connection_tracker.cpp:401-411 | a connection given up is marked for good with the reason and the time it was last seen |
| TrackerHistory.ClosedRowsSayWhen | src/core/connection_tracker.cpp:191-211 | a connection that was closed is marked so for good, with the time of the close event, which is stored |
| TrackerHistory.StoredSamplesAreThinned | src/core/connection_tracker.cpp:261-272 | the samples stored for a connection are the thinning of those observed for it |
| TrackerHistory.VerdictEvidenceSurvivesThinning | src/core/connection_tracker.cpp:261-272 | over every run the verdict metrics of a connection survive storage, with the same conditions on variance and retransmissions |
| Multimaps.RemovedAgrees | src/core/connection_tracker.cpp:102-111 | erasing a value from its bucket and from the reverse map keeps them in agreement |
| Multimaps.AddedAgrees | src/core/connection_tracker.cpp:96-100 | so does adding one |
| Multimaps.RenamedAgrees | src/core/connection_tracker.cpp:113-131 | so does renaming one in place |
| ConnectionTrackers.ConnectionTracker.UniqueActiveMatch | src/core/connection_tracker.cpp:144-155 | the scan of one bucket finds what a scan of the whole table finds |
| ConnectionTrackers.ConnectionTracker.RemoveCorrelationIdentity | src/core/connection_tracker.cpp:102-111 | keeps the multimap and the reverse map in agreement |
| ConnectionTrackers.ConnectionTracker.RekeyIdentity | src/core/connection_tracker.cpp:113-131 | succeeds exactly when the target identity is free, and renames the entry |
| ConnectionTrackers.ConnectionTracker.PromoteSocketCookieIdentity | src/core/connection_tracker.cpp:133-142 | for any two identities: succeeds exactly when the stored cookie is missing and the target is free, and if only the target is taken the cookie is stored without the re-key |
| ConnectionTrackers.ConnectionTracker.FindTarget | src/core/connection_tracker.cpp:164-189 | finds the connection the model says the event is about |
| ConnectionTrackers.ConnectionTracker.ObserveLifecycle | src/core/connection_tracker.cpp:157-259 | the three maps and the store make the model's lifecycle step |
| ConnectionTrackers.ConnectionTracker.PersistSample | src/core/connection_tracker.cpp:261-272 | stores the sample when the model says so and marks the connection seen |
| ConnectionTrackers.ConnectionTracker.ObserveSocket | src/core/connection_tracker.cpp:274-373 | the three maps and the store make the model's snapshot step |
| ConnectionTrackers.ConnectionTracker.BeginSnapshot | src/core/connection_tracker.cpp:375-380 | clears every presence mark and nothing else |
| ConnectionTrackers.ConnectionTracker.EndSnapshot | src/core/connection_tracker.cpp:382-417 | the loop gives up exactly the model's connections, in any order, and returns their ids, none twice |
| ConnectionTrackers.ConnectionTracker.Perform | src/core/observation_session.cpp:379-452 | every observation keeps the maps in agreement and the invariant, and is a step of the model |
| ConnectionTrackers.HistoryStore.UpdateSocketCookie | src/core/history_store.cpp:366-372 | writes a cookie only over the missing one and reports whether it did |
| ConnectionTrackers.HistoryStore.PromoteConnectionDirection | src/core/history_reconciliation.cpp:10-31 | writes a direction only over the unknown one and reports whether it did |
| ProcessRuns.HoldsTheLatestInsertions | src/core/process_graph.cpp:56-143 | after every event sequence the nodes are the last `max` processes inserted, in order and without repeats, and insertions equal nodes plus evictions |
| ProcessRuns.DetailsAreTheLatest | src/core/process_graph.cpp:83-101 | every node has the details of the latest start event of its process |
| ProcessRuns.KeyIs | src/core/process_graph.cpp:27-35 | a process is identified by pid and platform key, or else by pid and start time |
| ProcessRuns.ExitsAreTheLatest | src/core/process_graph.cpp:66-81 | a node has exited if and only if an event ended it since its insertion, with time and code of the latest one; an event that identifies no process ends the only live one of its pid |
| ProcessRuns.TakenIff | src/core/process_graph.cpp:66-81 | an event is taken if and only if it starts a process it identifies or ends one that is held; the others are counted by their reason |
| ParentLinks.LinkedIff | src/core/process_graph.cpp:103-138 | the parent is p if and only if the event names p, or names none and p is the only live process of that pid, and p is not known to have started after the child |
| ParentLinks.RefusedIff | src/core/process_graph.cpp:103-138 | a refused link is counted as ambiguous if and only if several live processes share the pid, and as invalid if and only if the parent started after the child |
| ParentLinks.ParentsAreMeant | src/core/process_graph.cpp:83-143 | over every event sequence each node has the parent, parent pid and start of the event that inserted it |
| ParentLinks.ParentsStartFirst | src/core/process_graph.cpp:122-135 | over every event sequence a linked parent with a known start started no later than its child |
| ParentLinks.RefusalsAreCounted | src/core/process_graph.cpp:103-138 | over every event sequence the two counters are the numbers of insertions that met their conditions |
| ProcessGraphs.BucketIsLive | src/core/process_graph.cpp:37-45 | the multimap of a pid holds exactly the live nodes of that pid |
| ProcessGraphs.EraseFirst | src/core/process_graph.cpp:49-54 | erasing the first pair of a process leaves the bucket without it |
| ProcessGraphs.ProcessGraph.UniqueActiveKeyForPid | src/core/process_graph.cpp:37-45 | equals the scan for exactly one live node |
| ProcessGraphs.ProcessGraph.UnindexActive | src/core/process_graph.cpp:49-54 | the multimap loses exactly this process |
| ProcessGraphs.ProcessGraph.EvictIfNeeded | src/core/process_graph.cpp:56-64 | drops the oldest nodes until there is a place, and counts them |
| ProcessGraphs.ProcessGraph.ResolveParent | src/core/process_graph.cpp:103-138 | resolves the parent or counts why not, as a scan of the list would |
| ProcessGraphs.ProcessGraph.Observe | src/core/process_graph.cpp:66-143 | table, multimap and deque make the step of the list model and stay in agreement |
| ProcessGraphs.ProcessGraph.ActiveCount | src/core/process_graph.cpp:159-163 | counts the live nodes |
| Bursts.TrimBefore | src/core/process_graph.cpp:254-257 | pops the front while it is older than the window |
| Bursts.DequeIsSuffix | src/core/process_graph.cpp:254-257 | for any times the deque is a tail of the history |
| Bursts.DequeIsWindow | src/core/process_graph.cpp:254-257 | for non-decreasing times the deque is the filter of the whole history to the window ending now |
| Bursts.DequeIsWindowIff | src/core/process_graph.cpp:254-257 | the deque is the window at every moment and for every window if and only if the times never go back |
| Bursts.OutOfOrderOvercounts | src/core/process_graph.cpp:254-257 | three times, out of order, for which the deque holds more than the window |
| Bursts.OutOfOrderUndercounts | src/core/process_graph.cpp:254-257 | three times, out of order, for which the deque holds fewer than the window |
| Bursts.StartsAreRemembered | src/core/process_graph.cpp:345-380 | the start time kept for a process is that of its latest start without an exit since |
| Bursts.ChildDeque | src/core/process_graph.cpp:351-359 | the deque of a parent is the one its whole history of child starts leaves |
| Bursts.ShortDeque | src/core/process_graph.cpp:375-385 | the same for exits of short-lived children |
| Bursts.FanoutFires | src/core/process_graph.cpp:351-359 | for any event times a fan-out finding is reported if and only if the input starts a child of a known parent and the deque of that parent's whole history has the threshold as its length |
| Bursts.ShortBurstFires | src/core/process_graph.cpp:375-385 | the same for bursts of short-lived children |
| Bursts.FanoutFiresExactly | src/core/process_graph.cpp:351-359 | while the parent's child starts come in order, a fan-out finding is reported if and only if those in the window ending now number the threshold |
| Bursts.ShortBurstFiresExactly | src/core/process_graph.cpp:375-385 | the same for bursts of short-lived children |
| Bursts.FindingEngine.Observe | src/core/process_graph.cpp:345-400 | the engine makes the model's step on its three tables |
| BurstNodes.StartFindsItsNode | src/core/process_graph.cpp:258-268 | over every event sequence a start event that identifies a process finds its node in the graph after it, or one with its pid and start time when it gives a platform key too |
| BurstNodes.ChildIsCountedForItsParent | src/core/process_graph.cpp:345-359 | the child start is counted for the parent the graph links that node to |
| PruningModel.SweepKeepsBaselineFor | src/core/history_maintenance.cpp:130-143 | sweeping orphans changes the baseline looked up for no target |
| PruningModel.SweptReferences | src/core/history_maintenance.cpp:109-147 | sweeping deletes no baseline a verdict names and nothing another row refers to |
| PruningModel.KeptMeansNothingDangles | src/core/history_maintenance.cpp:109-147 | in the fields of the rows: no process, TLS observation, baseline, instance, environment, boot or host that a surviving row names is gone |
| PruningModel.SweepLeavesNoOrphans | src/core/history_maintenance.cpp:55-147 | after a sweep every such row is named by another, runs, or is the baseline of its target |
| PruningModel.SweptPlacesKept | src/core/history_maintenance.cpp:55-89 | the sweep of environments, boots and hosts removes none that is still referred to |
| PruningModel.LastResorts | src/core/history_maintenance.cpp:230-268 | connections with a bad verdict and findings not yet reported go only when nothing less valuable is left |
| HistoryMaintenance.OldestBatch | src/core/history_maintenance.cpp:231-239 | the first rows in order of time and id, as many as the limit allows |
| HistoryMaintenance.HistoryStore.PruneEnvironmentOrphans | src/core/history_maintenance.cpp:55-89 | deletes environments, then boots, then hosts that nothing refers to, and nothing else |
| HistoryMaintenance.HistoryStore.PruneOrphans | src/core/history_maintenance.cpp:109-147 | deletes exactly the orphans of every kind |
| HistoryMaintenance.HistoryStore.PruneUnreferencedProcessBatch | src/core/history_maintenance.cpp:171-185 | deletes exactly the oldest exited processes without findings, 128 or all of them, and nothing if there is none |
| HistoryMaintenance.HistoryStore.PruneRound | src/core/history_maintenance.cpp:230-267 | one round deletes the oldest batch of the first kind that has rows, in order of sacrifice, of exactly 64, 8, 8 or 1 rows or all there are, and nothing exactly when nothing is left |
| HistoryMaintenance.HistoryStore.PruneToBudget | src/core/history_maintenance.cpp:207-272 | terminates; all deleted rows precede all kept ones in order of sacrifice; references, baselines and places in use are kept; success means the last size is within the cap; failure means no connection and no finding is left; no round starts once the size is within nine tenths |
| TlsSessions.CorrelateSession | src/core/tls_session.cpp:217-259 | the counting loop decides as the numbers of candidates say |
| TlsSessions.CorrelationIgnoresOrder | src/core/tls_session.cpp:217-259 | the result does not depend on the order of the connections |
| TlsSessions.CorrelatesExactly | src/core/tls_session.cpp:217-259 | matched if and only if the session belongs to one connection, ambiguous or waiting by how many it belongs or may belong to |
| TlsSessions.MatchIs | src/core/tls_session.cpp:103-127 | the evidence names the connection the session belongs to; its fidelity and relation follow from cookie, role and certificate |
| TlsSessions.ExactMeansSameCookie | src/core/tls_session.cpp:72-127 | evidence correlated exactly has the cookie of its connection |
| Lists.SortedSame | src/core/tls_session.cpp:276-276 | sorting lists with the same elements gives the same list |
| InboundTrust.EvidenceSetHash | src/core/tls_session.cpp:271-283 | the loops hash the sorted digests joined by bars |
| InboundTrust.InboundTrustContext | src/core/verdict.cpp:204-245 | the loop picks the inbound and the exact evidence |
| InboundTrust.SetHashIgnoresOrder | src/core/tls_session.cpp:271-283 | the set hash does not depend on the order of the evidence |
| InboundTrust.VerdictIgnoresOrder | src/core/verdict.cpp:300-367 | neither does the verdict with its input hash |
| InboundTrust.StableIff | src/core/verdict.cpp:300-345 | under any rules a verdict is stable if and only if exactly one exact server-side session vouches for the accepted identity |
| InboundTrust.SuspiciousIff | src/core/verdict.cpp:325-328 | suspicious if and only if the rules say so of a failed verification and the one exact session failed it, with the certificate they ask for |
| InboundTrust.ChangedIff | src/core/verdict.cpp:338-343 | changed if and only if the one exact session would vouch but for a key or issuer that is compared and differs |
| InboundTrust.ReasonIs | src/core/verdict.cpp:309-345 | each reason about policy and evidence, and those of a suspicious, changed and stable verdict, exactly under its condition |
| InboundTrust.LackIs | src/core/verdict.cpp:322-337 | each reason about what the session lacks exactly under its condition |
| InboundTrust.CorrelatedEvidenceCounts | src/core/verdict.cpp:204-217 | of correlated evidence exactly the server-side sessions count, and as exact those observed exactly with a cookie |
| InboundTrust.OtherEvidenceIsIgnored | src/core/verdict.cpp:208-212 | a session of the other side or relation does not change the verdict |
| InboundTrust.StableNamesTheConnection | src/core/verdict.cpp:204-245 | when the exact evidence was correlated with the connection, among connections of its own, that session has the connection's cookie and process |
| Wire.CopyText | include/neta/sensor_broker.hpp:191-197 | fills the buffer with the text as far as it fits and zeros |
| Wire.TextRoundTrip | include/neta/sensor_broker.hpp:191-202 | what is read from a field is the text cut at the first NUL and at N-1 bytes |
| Wire.CutTwice | include/neta/sensor_broker.hpp:191-202 | cutting again changes nothing |
| Wire.FrameRoundTrip | include/neta/sensor_broker.hpp:204-237 | the payload of a made frame is read back |
| Wire.AcceptedFrames | include/neta/sensor_broker.hpp:217-237 | a frame is accepted if and only if magic, version, type, size field and length are right |
| BrokerCodec.LifecycleRoundTrip | include/neta/sensor_broker.hpp:274-385 | decoding an encoded lifecycle event gives its canonical form |
| BrokerCodec.LifecycleCanonicalIsStable | include/neta/sensor_broker.hpp:274-385 | the canonical form is its own, so a second hop loses nothing |
| BrokerCodec.ProcessRoundTrip | include/neta/sensor_broker.hpp:387-468 | the same for process events |
| BrokerCodec.ProcessCanonicalIsStable | include/neta/sensor_broker.hpp:387-468 | the same for process events |
| BrokerRouter.QueuesAccount | include/neta/sensor_broker.hpp:470-504 | over every run a queue stays within capacity, pushes equal pops plus drops plus held, held frames are the latest, and pops are an in-order subsequence of pushes |
| BrokerRouter.EventsAreCounted | include/neta/sensor_broker.hpp:531-545 | routed plus unroutable equals events seen |
| BrokerRouter.TakenFramesBelong | include/neta/sensor_broker.hpp:506-551 | a frame taken from a slot decodes to an earlier event whose namespace or cgroup was registered to that slot before |
| BrokerRouter.RoutedIff | include/neta/sensor_broker.hpp:531-545 | over every run an event goes to a slot if and only if its namespace, or cgroup for process events, was registered to that slot |
| BrokerRouter.RegisteredIff | include/neta/sensor_broker.hpp:510-524 | over every run an endpoint is registered if and only if its slot is named and free and its namespace and cgroup belong to no other |
| BrokerQueues.BoundedQueue.Push | include/neta/sensor_broker.hpp:475-483 | appends, and drops and counts the oldest when full |
| BrokerQueues.BoundedQueue.PopFor | include/neta/sensor_broker.hpp:485-491 | takes the oldest, or none from an empty queue |
| BrokerQueues.EventRouter.RegisterEndpoint | include/neta/sensor_broker.hpp:510-524 | refuses duplicates, otherwise adds the slot with both queues and its mappings |
| BrokerQueues.EventRouter.Route | include/neta/sensor_broker.hpp:531-545 | pushes the encoded event to its slot or counts it |
| BrokerQueues.EventRouter.TakeFrom | include/neta/sensor_broker.hpp:547-551 | takes the oldest frame of a known slot |
| UpgradeJson.JsonEscape | src/core/upgrade.cpp:70-89 | the loop escapes character by character |
| UpgradeJson.JsonUnescapeString | src/core/upgrade.cpp:91-118 | reads the string the recursive reader reads, with the same errors and the same rest |
| UpgradeJson.SkipValueFrom | src/core/upgrade.cpp:142-164 | passes over one value as the recursive scanner does |
| UpgradeJson.ObjectMemberString | src/core/upgrade.cpp:124-166 | finds the member the recursive reader finds, with the same errors |
| UpgradeStates.ReadEscaped | src/core/upgrade.cpp:70-118 | an escaped string reads back as itself if it holds no unknown control character, and fails otherwise |
| UpgradeStates.SkipEscaped | src/core/upgrade.cpp:142-164 | any escaped string is passed over as one value |
| UpgradeStates.FindsEach | src/core/upgrade.cpp:124-166 | every member of a written object is found under its own key |
| UpgradeStates.StateRoundTrip | src/core/upgrade.cpp:536-571 | a written state reads back as itself if the required texts are non-empty and no text holds an unknown control character, and as an error otherwise |
| Chunked.DecodeChunks | src/core/upgrade.cpp:289-314 | the loop terminates with the result of the recursive decoder, at most `max` bytes or an error |
| Chunked.DecodesEncoded | src/core/upgrade.cpp:289-314 | an encoded list of non-empty chunks decodes to their concatenation when it fits, and to an error otherwise |
| Chunked.DecodesExactly | src/core/upgrade.cpp:289-314 | a content is decoded if and only if the input encodes chunks with that content and it fits |
| Chunked.HexTextIsRead | src/core/upgrade.cpp:294-303 | every 64-bit number written in base sixteen, in either case, is read as itself, and larger ones are refused |
| Chunked.StandardLineIsRead | src/core/upgrade.cpp:294-303 | every size line of the standard is read: any case, leading zeros, blanks and an extension |

## Left out

- NapRecord.AcceptsExactlyRecords: assumes a checksum of sixty-four hexadecimal characters, which SHA-256 is.
- ConnectionTrackers.ConnectionTracker.EndSnapshot: assumes distinct connection ids, which every run from an empty tracker has; the order of the returned ids, that of a hash map, is not modelled.
- HistoryMaintenance.HistoryStore.PruneToBudget: assumes that verdicts and environment links belong to stored connections, which the foreign keys of the schema demand.
- ProcessGraphs.ProcessGraph.constructor: the exception for a capacity of zero is a precondition.
- The sequence path of other systems than Windows, the recovery marker and the event log.
- SQLite errors other than a refused budget, and arithmetic overflow of 64-bit times in the dispatcher.
- JSON parsing of coordinator replies; the check of a parsed reply is modelled.
- Concurrent drains of one outbox, and pruning of the history while the tracker runs.
- `finish_observation`, which marks the rows of all connections still tracked when a session ends.
- Static process findings (paths, shells, elevation) and custom burst rules, which repeat the built-in ones per rule.
- The sorted snapshot of the process graph; the finding engine takes the nodes in any order.
- Acyclicity of process parents, which the code does not promise.
- The wording of the text a verdict is hashed from, beyond that it does not depend on the order of the evidence.
- The outbound verdict and the performance part of a verdict; texts of a TLS session that only its hash reads are one field.
- Registration frames of the broker, its sockets and threads; numbers in frames are little-endian.
- Waiting with a timeout: an operation that waits is modelled at the moment it acts.
- Transport, certificates, enrolment, rule loading, the command line, service control and the updater.
