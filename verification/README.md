# Verified models of the protocols inside the HubLive server and capture agent

This project models the small protocols that the media server (Go, `SERVER/`) and the native capture agent (C++,
`CLIENT/`) are built from, and proves what they guarantee over whole runs. Every protocol is a state machine on
values: a `Step` function whose events are the locked regions of the source and the choices of the environment, and
`Exec`, which runs any list of events. An event that is not possible in a state leaves it unchanged, so every event
list is a run and the theorems about `Exec` quantify over every interleaving. Beside each state machine stands the
imperative code, one class or method per object or loop of the source. Its contracts give the new state by the same
functions, so the theorems about runs hold of that code, with two exceptions: the setters of `VersionStamping` are
specified by the fields they change, and the overlapping updates of `TrackPermissions` are a state machine beside the
method that runs one update alone. `dafny verify dfyconfig.toml` checks everything.

| file | what it covers |
|---|---|
| `SignalRelay.dfy` | sink, adversarial network, reader and bounded channel of the signal relay |
| `ReliableHandover.dfy` | cache, broadcast and replay of reliable data to a joining or migrating recipient |
| `PublisherGate.dfy` | the publisher's sequence gate and the cache that waits for the previous node's successor |
| `ParticipantUpdates.dfy` | order of sessions, batched updates of one identity, synthesized disconnects |
| `ProtoChunks.dfy` | chunking by encoded size and the broadcast that uses it |
| `VersionStamping.dfy` | dirty mark, version and snapshot, interleaved freely |
| `RecipientUpdates.dfy` | join response, queue, version filter and the writes outside the lock |
| `Subscriptions.dfy` | the subscription reconciler with counters, limits, index and status events |
| `SubscriptionStatuses.dfy` | the reconciler's status callbacks, which run outside its lock |
| `PublishQueue.dfy` | pending add-track requests per client id and the `queued` gate |
| `PacketDeduper.dfy` | the linked list threaded through a map |
| `TrackPermissions.dfy` | the permission table, its two readers, revocation, overlapping updates |
| `RoomTracks.dfy` | slices of tracks compacted in place over shared buffers |
| `CodecRegression.dfy` | down tracks moving to the backup receiver while others are added |
| `AudioMixer.dfy` | drop-oldest ring buffer and the mixed frame |
| `AudioResampler.dfy` | frame count, phase, down-mixing and interpolation over real arithmetic |

## Where the code does not keep a promise

Each promise below fails on some run or input, and holds exactly under the condition given with it.

- **Writes after the lock.** The version filter runs under a lock, the write to the signal connection does not
  (`participant_signal.go:126-128`). Once everything is written, the versions a recipient has read never decreased iff
  no write overtook a smaller version of the same participant (`WireVersionsNeverDecreaseIff`), and any ready
  recipient can be made to read one going back (`OvertakingWriteGoesBack`).
- **Overlapping permission updates.** Resolving a participant id releases the lock (`uptrackmanager.go:198-206`), and
  the code does not look at the version again before it installs. The tables in effect never go back to an older
  version iff each update that installs is newer than all installed before (`TablesNeverGoBackIff`). Installing the
  oldest in flight first suffices, failures or not (`OldestFirstSuffices`), and without failures is also necessary
  (`WithoutFailuresOldestFirst`); any update in flight but the oldest can install first and be overridden by an older
  one (`OvertakenInstallGoesBack`). A failed update keeps the table but overwrites the permission stored for migration
  (`StoredInEffectIffParsed`), although the comment at line 207 promises not to override it.
- **Subscribing in separate regions.** `SubscribeToTrack` looks up, inserts and marks in three locked regions. An
  insert keeps the counters right iff it does not overwrite a live track (`InsertKeepsCountsIff`), which two
  concurrent requests for one unknown track reach (`UnsafeInsertIsReached`). A request that
  inserted takes effect iff no reconcile since the last insert found the track neither desired nor live
  (`RequestTakesEffectIff`); for the only request for its track, iff none came in between
  (`LoneRequestTakesEffectIff`).
- **Status callbacks.** They run outside the lock, the unsubscribed ones in goroutines
  (`subscriptionmanager.go:1138-1159`). Once all have run, those about each publisher ran in order iff none overtook
  an earlier one (`DeliveredInOrderIff`), and then a listener ends on the truth (`ListenerSeesInTurn`); otherwise it
  can end on subscribed when nothing is (`OvertakingListenerIsWrong`).
- **A late close callback.** Removing a published track and waking its client id are separate. A callback keeps the
  gate iff it does not wake a client id that is open again (`CallbackKeepsGateIff`); one that does lets the next media
  open a second track (`LateCallbackLetsTwoOpen`), and there are runs that do (`LateCallbackOpensTwo`).
- **Parked by SDP id.** A request queued only because another track carries its client id in the SDP is never woken
  (`ParkedBySdpIsStuck`). The pending requests of a client id can still be published iff it has something of its own
  to wait for (`DrainsIffNotStuck`).
- **The handed-over start.** Direct writes do not look at the start sequence a migration hands over
  (`HandedOverStartIsNotEnforced`). Delivery of a sender's messages is exactly once from the start on iff the replay
  found all it asked for of that sender and no message from before the start is broadcast to the open recipient
  (`ExactlyOnceFromFirstObserved`); only a migrated sender can do the latter (`ObservedSendersNeverLag`).
- **Successor first.** After a migration cache ends as Done, the successor is forwarded first iff nothing past the
  previous node's last sequence had been forwarded before (`DoneForwardsSuccessorFirst`), which on the new node means
  nothing at all (`SuccessorFirstIffNothingBefore`). A packet from past the successor that arrives on a channel the
  client opened before the migration completed drops the successor for good (`AheadDropsSuccessor`).
- **Effect after the mark.** `SetPermission` stores the publisher flag after its dirty mark (`participant.go:781`,
  `816`). The next snapshot is newer than every one that misses a change iff a mark is pending or a stamp was made
  since the change took effect, as a mark that follows the effect ensures (`NextSnapshotIsNewerIff`); a snapshot
  between mark and store uses the mark up (`EffectAfterMarkIsMissed`).
- **Closing while moving.** The second region of `SetReceiver` adds a down track without a look at its closed flag
  (`downtrack.go:856-860`). Once no switch is pending, no closed down track is on a receiver iff none closed between
  the two regions (`ClosedAreGoneIff`, `ClosedWhileMoving`).
- **Older sessions.** The sessions sent for an identity never go backwards iff every push over an empty queue is
  refused by a newer participant of the room or meets nothing newer among what was sent (`SessionsNeverGoBackIff`).
  Once the newer participant has left, any older session can be sent after it (`OlderAfterNewerOnceRemoved`).
- **Two precisions of join time.** `CompareParticipant` is transitive among infos that all carry `JoinedAtMs`, or all
  do not, and two sessions of one second that differ in this always close a cycle with a third
  (`MixedPrecisionBreaksOrder`).
- **Phase continuity.** The comment at `audio_resampler.cc:102` promises phase continuity. It holds for a block iff
  the loop stops past the whole block (`PhaseContinuousIff`), and never when the rate is raised
  (`UpsamplingRestartsEveryBlock`).

## Model

| member | source | states |
|---|---|---|
| SignalRelay.DeliveredIsPrefixOfAccepted | SERVER/pkg/routing/signal.go:191-252 | over every run of writers, retries and a network that loses, repeats and reorders batches, the channel carries a prefix of the accepted messages: in order, each at most once, none skipped |
| SignalRelay.CloseMeansAllDelivered | SERVER/pkg/routing/signal.go:218-220 | a reader that honours a close flag has delivered everything ever accepted, even if a deadline made the writer drop its queue before, and no later event changes that |
| SignalRelay.WriterAccounting | SERVER/pkg/routing/signal.go:310-381 | at every lock release seq plus queue length is the number of accepted messages and the queue is exactly the rest of them; at most one write loop lives, exactly while `writing`; without one the queue is empty or the stream closed |
| SignalRelay.DropErrorOnlyAfterLoss | SERVER/pkg/routing/signal.go:239-241 | the dropped-message error appears only if a deadline dropped the queue or a batch was acknowledged that the reader never took |
| SignalRelay.StreamClosesOnlyWhen | SERVER/pkg/routing/signal.go:326-361 | in every run the stream has an error only if it failed by itself, the sink was closed, or sends failed and it is configured to close then; a queue dropped at the deadline always closes a stream so configured |
| SignalRelay.AcknowledgedCloseIsComplete | SERVER/pkg/routing/signal.go:346-357 | when the reader has taken the closing batch and its send is acknowledged, every accepted message was taken and the loop leaves an empty queue and a closed stream |
| SignalRelay.ShipsEverything | SERVER/pkg/routing/signal.go:315-353 | in every run, the write loop at its head leaves iff the stream has an error or there is neither something to send nor to drain (besides after an acknowledged close or a passed deadline); otherwise it sends everything accepted and not yet acknowledged or dropped, flagged as closing iff draining |
| SignalRelay.EverythingCanArrive | SERVER/pkg/routing/signal.go:191-353 | from every reachable state with an open stream, an idle reader and room in the channel, in which nothing was dropped or falsely acknowledged, a run of undisturbed work delivers everything accepted |
| SignalRelay.DrainingCanClose | SERVER/pkg/routing/signal.go:191-362 | and once the sink was closed, such work also brings the close flag to the reader, which ends on it with everything delivered |
| SignalRelay.NothingAcceptedAfter | SERVER/pkg/routing/signal.go:365-371 | once the sink was closed or its stream failed, no run adds a message |
| SignalRelay.ChannelIsBounded | SERVER/pkg/routing/messagechannel.go:56-71 | in every run the channel holds at most its size, and turns a message away iff it is full or closed |
| SignalRelay.AcceptedIff | SERVER/pkg/routing/signal.go:365-381 | a message is accepted iff the stream has no error and the sink does not drain |
| SignalRelay.StepKeepsWriter | SERVER/pkg/routing/signal.go:310-381 | every event keeps: one loop while writing, a batch on the wire is the front of the queue, every batch ever sent is a slice of the accepted messages, one with the close flag reaches to their end |
| SignalRelay.StepKeepsReader | SERVER/pkg/routing/signal.go:233-252 | every event keeps: what was delivered plus the backlog is the accepted messages up to the reader's seq, and a close flag in hand means that this is all of them |
| SignalRelay.TrimmedIsNext | SERVER/pkg/routing/signal.go:242-249 | trimming the overlap of any batch leaves exactly the messages that come next |
| SignalRelay.CopyBatchIsARun | SERVER/pkg/routing/signal.go:203-221 | the copy loop's work on one batch is a run of the protocol's reader events, so the run theorems cover it |
| SignalRelay.SignalMessageSink.WriteMessage | SERVER/pkg/routing/signal.go:365-381 | accepts iff the stream has no error and is not draining; an accepted message goes to the end of the queue and starts a loop if none runs; a refused one changes nothing |
| SignalRelay.SignalMessageSink.Close | SERVER/pkg/routing/signal.go:282-289 | draining begins and a loop runs to flush the queue |
| SignalRelay.SignalMessageSink.RunToSend | SERVER/pkg/routing/signal.go:315-322 | the locked region before a send: leave, or put the whole queue on the wire under the current seq |
| SignalRelay.SignalMessageSink.SendDone | SERVER/pkg/routing/signal.go:324-353 | the locked region after a send, in all three outcomes: acknowledged, to be retried, given up |
| SignalRelay.SignalMessageSink.End | SERVER/pkg/routing/signal.go:355-362 | the loop leaves, closing the stream if draining or if configured to on failure |
| SignalRelay.MessageChannel.WriteMessage | SERVER/pkg/routing/messagechannel.go:56-71 | accepts iff open and not full; a refusal keeps the contents |
| SignalRelay.SignalMessageReader.Read | SERVER/pkg/routing/signal.go:233-252 | a gap is an error that keeps seq; otherwise the trimmed batch is returned and seq advances by its length |
| SignalRelay.CopyOne | SERVER/pkg/routing/signal.go:203-221 | one turn of the copy loop ends in the status, seq and channel contents that the protocol's reader reaches on that batch |
| SignalRelay.CopySignalStreamToMessageChannel | SERVER/pkg/routing/signal.go:191-223 | over a whole stream the loop ends in the status and channel contents of the protocol's reader |
| ReliableHandover.NoDuplicatesNoReordering | SERVER/pkg/rtc/participant.go:2168-2232 | for every interleaving of cache, broadcast, join, migration, eviction and replay, no sender's message is repeated or overtaken on the recipient's channel, and only messages addressed to it appear |
| ReliableHandover.ExactlyOnceFromFirstObserved | SERVER/pkg/rtc/participant.go:2168-2232 | when no message of the sender is between cache and broadcast, the open channel carries exactly the sender's messages addressed to the recipient from its start on, each once, in order, iff the replay found all it asked for of that sender, cached or still to be broadcast, and none from before the start was ever broadcast to it; other senders do not matter |
| ReliableHandover.OnlyAddresseesHear | SERVER/pkg/rtc/participant.go:2219-2221 | in every run each message on the recipient's channel has an empty destination list or the recipient's identity somewhere in it |
| ReliableHandover.EveryAddresseeHears | SERVER/pkg/rtc/room.go:2102-2106 | in every run each such message from its sender's start on is on the open channel, unless it is still to be broadcast or the replay lost something of that sender |
| ReliableHandover.OutsideHearsNothing | SERVER/pkg/rtc/participant.go:2176-2183 | until it is in the participant list a recipient hears nothing, and knows a first sequence exactly of the senders handed over to it |
| ReliableHandover.EvictedBeforeReplayIsLost | SERVER/pkg/rtc/room.go:1882-1891 | any message broadcast before the replay and evicted from the cache before it never arrives: a run for each |
| ReliableHandover.StepKeepsNoneBelowIff | SERVER/pkg/rtc/participant.go:2176-2198 | an event keeps the channel free of messages from before the start iff it is not a broadcast of one to the open recipient |
| ReliableHandover.ObservedSendersNeverLag | SERVER/pkg/rtc/participant.go:2177-2182 | a sender whose start was observed rather than handed over never is broadcast from before it |
| ReliableHandover.NothingBeforeFirstObserved | SERVER/pkg/rtc/participant.go:2176-2183 | a sender of which nothing was observed has nothing on the channel |
| ReliableHandover.HandedOverStartIsNotEnforced | SERVER/pkg/rtc/participant.go:1073-1077 | any message from before a start handed over by a migration reaches the open recipient: a run for each |
| ReliableHandover.ReplayKeeps | SERVER/pkg/rtc/participant.go:2216-2232 | the switch from replay to direct writes keeps order, uniqueness, and that what the replay wrote is recognised when its broadcast comes later |
| ReliableHandover.BroadcastKeeps | SERVER/pkg/rtc/room.go:2060-2123 | delivering a cached message to the recipient, before or after the replay, keeps the same |
| ReliableHandover.ReliableData.SendDataMessage | SERVER/pkg/rtc/participant.go:2168-2199 | before the replay only the first sequence of a sender is recorded; after it, messages the replay wrote are suppressed and the first later one ends the suppression |
| ReliableHandover.ReliableData.ReplayJoiningReliableMessages | SERVER/pkg/rtc/participant.go:2216-2232 | writes exactly the cached messages asked for and addressed to the recipient, remembers the last per sender, and opens the channel |
| ReliableHandover.GetCachedReliableDataMessage | SERVER/pkg/rtc/room.go:1882-1891 | the cached messages at or past the first sequence asked for per sender, in cache order |
| PublisherGate.ForwardedIncreases | SERVER/pkg/rtc/participant.go:1849-1861 | over any arrivals, installations, timeouts and flushes, what is forwarded is strictly increasing and above everything before |
| PublisherGate.StoppedForwardsNothing | SERVER/pkg/rtc/participant.go:1806-1809 | once reliable data was stopped by a migration away, no run forwards anything |
| PublisherGate.GateForwardsIff | SERVER/pkg/rtc/participant.go:1849-1861 | without a cache a packet is forwarded iff it is past the last forwarded one |
| PublisherGate.CacheWaitsIff | SERVER/pkg/rtc/participant.go:1302-1304 | a cache is installed iff the handed-over sequence is positive, and over any packets it stays in place iff none was the successor and none from past it met the deadline |
| PublisherGate.FirstToEndDecides | SERVER/pkg/rtc/migrationdatacache.go:36-55 | over any packets the first one to end the wait decides for good: done on the successor, otherwise timed out with all packets from past the last sequence up to it |
| PublisherGate.WaitingForwardsNothing | SERVER/pkg/rtc/participant.go:1811-1815 | while an installed cache is in place nothing is forwarded |
| PublisherGate.DoneForwardsSuccessorFirst | SERVER/pkg/rtc/migrationdatacache.go:36-55 | the packet that ends a cache as Done is the previous node's last sequence plus one, without wrap-around, and it is forwarded first iff nothing past that sequence was forwarded before |
| PublisherGate.SuccessorFirstIffNothingBefore | SERVER/pkg/rtc/participant.go:1302-1304 | on a node that takes a publisher over, the successor is the first packet ever forwarded, whatever was received before, iff nothing had been forwarded when the cache was installed; otherwise it is dropped |
| PublisherGate.AheadDropsSuccessor | SERVER/pkg/rtc/participant.go:1849-1861 | any packet from past the successor received before the cache is installed drops the successor: a run for each |
| PublisherGate.TimeoutFlushesRecords | SERVER/pkg/rtc/participant.go:1817-1837 | a packet past the deadline that is not the successor flushes the cache through the gate: of all packets received past the last sequence, exactly those that exceed the last forwarded one and all such packets before them |
| PublisherGate.MigrationDataCache.AddPacket | SERVER/pkg/rtc/migrationdatacache.go:36-55 | a finished cache and old packets change nothing; the successor (in 32-bit arithmetic) ends the wait; anything else is kept, and ends the wait only past the deadline |
| PublisherGate.ReliablePublisher.OnReceivedDataMessage | SERVER/pkg/rtc/participant.go:1792-1846 | the publisher's reaction to a sequenced packet in every cache state |
| ParticipantUpdates.CompareAntisymmetric | SERVER/pkg/rtc/room.go:2154-2184 | swapping the infos negates the comparison, for all infos |
| ParticipantUpdates.CompareTransitive | SERVER/pkg/rtc/room.go:2154-2184 | transitive on infos of one join-time precision, and then only one session compares equal |
| ParticipantUpdates.LessIsLexicographic | SERVER/pkg/rtc/room.go:2154-2184 | sids are compared by the first character in which they differ, a proper prefix being smaller |
| ParticipantUpdates.MixedPrecisionBreaksOrder | SERVER/pkg/rtc/room.go:2154-2184 | the precondition is exact: two sessions of one second that differ in precision always form a cycle with some third session of its own sid and a positive join time |
| ParticipantUpdates.SessionsNeverGoBackIff | SERVER/pkg/rtc/room.go:2195-2248 | over any run of pushes and flushes of one identity, sessions sent and waiting never go backwards iff each push over an empty queue was refused by a newer participant of the room or met nothing newer among what was sent; infos carry join times of one precision, one per session |
| ParticipantUpdates.SentInJoinOrder | SERVER/pkg/rtc/room.go:2154-2184 | in such a run what was sent is in the order in which the sessions joined: by second, in one second by millisecond where both are known, else by sid |
| ParticipantUpdates.SameSessionByVersion | SERVER/pkg/rtc/room.go:2207-2213 | a push over a queued update of its own session changes nothing if its version is smaller; otherwise it is sent if immediate or a publisher's, and replaces the queued one if not |
| ParticipantUpdates.QueuedIsLargest | SERVER/pkg/rtc/room.go:2195-2248 | in every run the queued update has the largest version of its session pushed since the queue was last empty or held another session |
| ParticipantUpdates.FirstPush | SERVER/pkg/rtc/room.go:2228-2245 | a push over an empty queue is refused iff the room's participant is strictly newer; otherwise it is sent or queued as above |
| ParticipantUpdates.NewestParticipantKeepsSessions | SERVER/pkg/rtc/room.go:2228-2236 | a room participant at least as new as everything sent makes every push meet that condition |
| ParticipantUpdates.DisconnectPrecedesNewer | SERVER/pkg/rtc/room.go:2214-2227 | in every run a synthesized disconnect is followed at once by the strictly newer session it makes way for |
| ParticipantUpdates.EverySwitchIsSent | SERVER/pkg/rtc/room.go:2214-2227 | in every run, wherever a strictly newer session is pushed over a queued older one, the room is sent the older one as disconnected and right behind it the newer one, and nothing is left waiting |
| ParticipantUpdates.OneDisconnectPerSwitch | SERVER/pkg/rtc/room.go:2214-2227 | and a run sends no other synthesized disconnects |
| ParticipantUpdates.NewestAcceptedSurvives | SERVER/pkg/rtc/room.go:2195-2248 | in every run the last accepted info is queued or is the last one sent |
| ParticipantUpdates.OnlySubscribersWait | SERVER/pkg/rtc/room.go:2205-2245 | in every run a queued update is one of a subscriber that was pushed without asking for immediate sending |
| ParticipantUpdates.OlderAfterNewerOnceRemoved | SERVER/pkg/rtc/room.go:2228-2236 | without a room participant any older session can be sent after any newer one |
| ParticipantUpdates.Room.PushAndDequeueUpdates | SERVER/pkg/rtc/room.go:2195-2248 | returns and queues what the session rules say, and touches no other identity |
| ParticipantUpdates.Room.FlushBatch | SERVER/pkg/rtc/room.go:1594-1604 | sends every queued update exactly once and leaves the batch empty |
| ProtoChunks.GreedyIsChunking | SERVER/pkg/rtc/utils.go:176-194 | greedy chunks are non-empty, concatenate to the batch, and fit the target or hold one message |
| ProtoChunks.GreedyStaysAhead | SERVER/pkg/rtc/utils.go:176-194 | greedy on any suffix needs no more chunks than any chunking of the whole |
| ProtoChunks.ChunkProtoBatch | SERVER/pkg/rtc/utils.go:176-194 | for every batch and target the chunks are a chunking of the batch, and none has fewer |
| ProtoChunks.InfosOf | SERVER/pkg/rtc/room.go:2261-2272 | the filtered list leaves out exactly the synthesized disconnects and the updates closed because of a duplicate identity, the full one nothing, and both keep the order |
| ProtoChunks.SendParticipantUpdates | SERVER/pkg/rtc/room.go:2250-2289 | each recipient is sent its full or filtered list of infos in order, or after a failed send the chunks up to that one; every chunk fits or is a single info |
| VersionStamping.LaterSnapshotLargerVersion | SERVER/pkg/rtc/participant.go:832-916 | under every interleaving of changes and snapshots, a snapshot begun after a change was complete has a strictly larger version than any that misses the change |
| VersionStamping.MarkMakesAtMostOneVersion | SERVER/pkg/rtc/participant.go:832-849 | however many snapshots race for the lock, a run makes at most one version for each time the dirty mark was set |
| VersionStamping.NextSnapshotIsNewerIff | SERVER/pkg/rtc/participant.go:832-916 | in every reachable state, for every change in effect, marked or not, the next snapshot has a version above the one the change took effect at, and so above every snapshot missing it, iff a mark is pending or a stamp was made since; a mark after the effect ensures it |
| VersionStamping.EffectAfterMarkIsMissed | SERVER/pkg/rtc/participant.go:781-816 | a run in which two snapshots carry one version, and only the second the publisher flag |
| VersionStamping.ParticipantImpl.SetPermission | SERVER/pkg/rtc/participant.go:768-790 | marks dirty exactly on a change of permission |
| VersionStamping.ParticipantImpl.SetName | SERVER/pkg/rtc/participant.go:677-699 | marks the participant dirty exactly when the name changes |
| VersionStamping.ParticipantImpl.SetMetadata | SERVER/pkg/rtc/participant.go:701-723 | marks dirty exactly on a change, and requires broadcast once non-empty metadata was set |
| VersionStamping.ParticipantImpl.SetAttributes | SERVER/pkg/rtc/participant.go:725-758 | empty values delete, others are written, and any non-empty request marks dirty and requires broadcast |
| VersionStamping.ParticipantImpl.UpdateState | SERVER/pkg/rtc/participant.go:1765-1790 | states only move forward, and each move marks dirty |
| VersionStamping.ParticipantImpl.MaybeIncVersion | SERVER/pkg/rtc/participant.go:832-849 | turns any number of changes into one new version |
| RecipientUpdates.SentVersionsNeverDecrease | SERVER/pkg/rtc/participant_signal.go:81-129 | over every run the versions passing the filter never decrease per participant, from the join response on, and the cache is the last one sent |
| RecipientUpdates.NoUpdateBeforeJoinResponse | SERVER/pkg/rtc/participant_signal.go:42-79 | over every run the join response is the first signal and the only one |
| RecipientUpdates.WireVersionsNeverDecreaseIff | SERVER/pkg/rtc/participant_signal.go:126-128 | over every run the versions read from the connection never decrease per participant if no write overtakes a smaller version, and once everything is written only then |
| RecipientUpdates.WriteKeepsOrderIff | SERVER/pkg/rtc/participant_signal.go:126-128 | one write keeps what is and will be read in order iff no earlier batch in flight has a smaller version of a participant in it |
| RecipientUpdates.OvertakingWriteGoesBack | SERVER/pkg/rtc/participant_signal.go:126-128 | after every run that leaves a recipient ready with nothing in flight, two passing updates of a participant with increasing versions can be written so that what is read goes back |
| RecipientUpdates.NeverOlderThanOffered | SERVER/pkg/rtc/participant_signal.go:94-125 | once an info was run through the filter, the last one sent about its participant is never older, whatever follows |
| RecipientUpdates.PassesIff | SERVER/pkg/rtc/participant_signal.go:94-125 | an info passes the filter iff its version is not below the last one sent about its participant and it is not somebody else's hidden one |
| RecipientUpdates.NothingIsDropped | SERVER/pkg/rtc/participant_signal.go:66-92 | in every run of a recipient still connected, the infos passed in are, with multiplicity, those put through the filter and those still queued or handed on |
| RecipientUpdates.EveryUpdateIsAccountedFor | SERVER/pkg/rtc/participant_signal.go:66-92 | each info of each call is put through the filter by that call or by a later flush, unless it is still held or the recipient was disconnected |
| RecipientUpdates.DisconnectedIsOver | SERVER/pkg/rtc/participant_signal.go:83-86 | once a recipient disconnected no run adds a batch for it |
| RecipientUpdates.RecipientEndsOnNewest | SERVER/pkg/rtc/participant_signal.go:42-129 | stamping, queue and filter together: if a visible snapshot begun after all changes is ever passed to the recipient, ready or not, then the last info sent to a recipient still connected that finished its join and flushed what that handed on includes every change |
| RecipientUpdates.RecipientReadsNewest | SERVER/pkg/rtc/participant_signal.go:42-129 | and to the wire: if no write overtook a smaller version, the last info read includes every change once everything is written |
| RecipientUpdates.SignalRecipient.SendParticipantUpdate | SERVER/pkg/rtc/participant_signal.go:81-129 | ignores when disconnected, queues when not ready, else passes exactly the infos that are neither outdated nor hidden from this recipient |
| RecipientUpdates.SignalRecipient.RecordJoinResponse | SERVER/pkg/rtc/participant_signal.go:44-53 | the filter starts from the versions of the join response |
| RecipientUpdates.SignalRecipient.FinishJoin | SERVER/pkg/rtc/participant_signal.go:62-68 | only a joining participant becomes joined, and the whole queue is handed on once |
| Subscriptions.ReachableInv | SERVER/pkg/rtc/subscriptionmanager.go:702-870 | in every reachable state counters equal the live tracks per kind and respect a positive limit, the index holds exactly the live tracks by publisher with no empty group, and the statuses decided alternate per publisher and end on index membership |
| Subscriptions.InsertKeepsCountsIff | SERVER/pkg/rtc/subscriptionmanager.go:173-185 | an insert keeps the counters right iff what it overwrites holds no live track |
| Subscriptions.UnsafeInsertIsReached | SERVER/pkg/rtc/subscriptionmanager.go:173-185 | under any limits two concurrent requests for one unknown track reach an insert that breaks the counters |
| Subscriptions.RequestTakesEffectIff | SERVER/pkg/rtc/subscriptionmanager.go:173-185 | from every state and whatever happens between insert and setDesired, other requests for the track included, the request takes effect iff no reconcile since the last insert met the subscription neither desired nor live |
| Subscriptions.LoneRequestTakesEffectIff | SERVER/pkg/rtc/subscriptionmanager.go:173-185 | for the only request for its track, every reconcile of it in between is such a one |
| Subscriptions.GoesLiveIff | SERVER/pkg/rtc/subscriptionmanager.go:717-777 | from every state and for every event, a subscription without a live track gets one iff the event is its reconcile, it is desired, no wait for unsubscribes holds it back, the participant may subscribe, the track resolved and grants permission, it was added, and the kinds recorded and resolved both have room |
| Subscriptions.ResolveRecords | SERVER/pkg/rtc/subscriptionmanager.go:733-760 | a resolved track that does not go live leaves its kind if it is the first, and its publisher unless a limit is reached |
| Subscriptions.GivesUpIff | SERVER/pkg/rtc/subscriptionmanager.go:496-506 | a desired subscription stops being desired iff that is asked for, an insert replaces it, or a reconcile finds its track missing for too long |
| Subscriptions.LosesTrackIff | SERVER/pkg/rtc/subscriptionmanager.go:937-947 | a live track is lost iff it closes or an insert replaces its subscription, and becomes bound iff a bind is reported |
| Subscriptions.RemovalStartsIff | SERVER/pkg/rtc/subscriptionmanager.go:872-890 | a wait for an unsubscribe begins iff a reconcile finds a live track no longer desired, and ends when the removal does |
| SubscriptionStatuses.DeliveredInOrderIff | SERVER/pkg/rtc/subscriptionmanager.go:1138-1159 | over every run the callbacks about each publisher run in the order of decisions if none overtakes an earlier one, and once all have run only then |
| SubscriptionStatuses.ListenerSeesInTurn | SERVER/pkg/rtc/subscriptionmanager.go:1124-1160 | then a listener sees subscribed and unsubscribed in turn per publisher, and once all have run the last one is whether the publisher is in the index |
| SubscriptionStatuses.OvertakingListenerIsWrong | SERVER/pkg/rtc/subscriptionmanager.go:1157-1159 | from every state in which a publisher was just subscribed with one track, a close can leave the listener on subscribed |
| SubscriptionStatuses.SubscribingReachesIt | SERVER/pkg/rtc/subscriptionmanager.go:717-777 | one subscription reaches such a state under any limits |
| Subscriptions.ChangeShrinksWork | SERVER/pkg/rtc/subscriptionmanager.go:458-565 | without limits and with cooperative events, every change of a subscription makes a finite set of remaining work strictly smaller and keeps what is desired |
| Subscriptions.ChangesAreBounded | SERVER/pkg/rtc/subscriptionmanager.go:443-565 | so no cooperative run changes subscriptions more often than its start has work |
| Subscriptions.QuietIffSettled | SERVER/pkg/rtc/subscriptionmanager.go:1480-1502 | no cooperative event changes anything iff every subscription is desired, live and bound |
| Subscriptions.QuietMeansArrived | SERVER/pkg/rtc/subscriptionmanager.go:443-565 | a cooperative run that can change nothing more ends with exactly the subscriptions desired at its start, each bound |
| Subscriptions.CanAlwaysArrive | SERVER/pkg/rtc/subscriptionmanager.go:443-565 | and from every state some cooperative run gets there |
| Subscriptions.StepKeepsInv | SERVER/pkg/rtc/subscriptionmanager.go:702-1020 | every event keeps counters, limits, index and statuses |
| Subscriptions.SubscriptionManager.MarkSubscribedTo | SERVER/pkg/rtc/subscriptionmanager.go:1124-1141 | adds to the publisher's group and reports only the first |
| Subscriptions.SubscriptionManager.UnmarkSubscribedTo | SERVER/pkg/rtc/subscriptionmanager.go:1143-1160 | removes from the group, and with the last track drops the group and reports |
| Subscriptions.SubscriptionManager.SubscribeTrack | SERVER/pkg/rtc/subscriptionmanager.go:717-777 | the outcome of a subscribe attempt on every path: no permission, no capacity before or after the kind is known, track missing or missing too long, refused, added |
| Subscriptions.SubscriptionManager.ReconcileSubscription | SERVER/pkg/rtc/subscriptionmanager.go:458-565 | the reconciler's choice for every subscription state, including the wait for pending unsubscribes |
| Subscriptions.SubscriptionManager.HandleSubscribedTrackClose | SERVER/pkg/rtc/subscriptionmanager.go:937-1020 | a close takes the track out of subscription, counter and index together, and a second close changes nothing |
| PublishQueue.PublishedInRequestOrder | SERVER/pkg/rtc/participant_publisher.go:680-724 | in every run, per client id, requests published followed by those pending are the requests made, in order; no entry is empty; its infos share one track id, different entries never do |
| PublishQueue.MediaPublishesIff | SERVER/pkg/rtc/participant_publisher.go:826-841 | media publishes the head of a client id iff that is pending and not queued, no published track has the SDP id as its client or SDP id, and no other pending client id has its name |
| PublishQueue.MediaJoinsItsTrack | SERVER/pkg/rtc/participant_publisher.go:826-841 | in every run no published track came from media whose SDP id was the client or SDP id of an earlier one still published |
| PublishQueue.NeverTwoOpen | SERVER/pkg/rtc/participant_publisher.go:1037-1066 | with timely close callbacks a client id never has two open tracks |
| PublishQueue.CallbackKeepsGateIff | SERVER/pkg/rtc/participant_publisher.go:1058-1063 | a close callback keeps the gate iff it does not wake a client id that is open again |
| PublishQueue.LateCallbackLetsTwoOpen | SERVER/pkg/rtc/participant_publisher.go:1046-1075 | after any late callback the next media the client id takes opens a second track of it, and such media can come |
| PublishQueue.LateCallbackOpensTwo | SERVER/pkg/rtc/participant_publisher.go:1046-1075 | a run from the start with a late callback that opens two tracks of one client id |
| PublishQueue.QueuedWaitsForOwn | SERVER/pkg/rtc/participant_publisher.go:680-690 | in every run a queued entry waits for an open track or a callback of its own client id, or was parked because of an SDP id |
| PublishQueue.StuckForever | SERVER/pkg/rtc/participant_publisher.go:1153-1156 | a queued entry with nothing of its own to wait for is never published, whatever follows |
| PublishQueue.ParkedBySdpIsStuck | SERVER/pkg/rtc/participant_publisher.go:680-690 | and a request parked because of an SDP id gets there |
| PublishQueue.DrainsIffNotStuck | SERVER/pkg/rtc/participant_publisher.go:1037-1063 | all pending requests of a client id can still be published iff it is not such an entry, and none otherwise |
| PublishQueue.PublishingParticipant.AddPendingTrack | SERVER/pkg/rtc/participant_publisher.go:680-724 | queues iff the client id is published (by signal or SDP id) or pending, under the pending track id if there is one |
| PublishQueue.PublishingParticipant.MediaTrackReceived | SERVER/pkg/rtc/participant_publisher.go:826-881 | media joins the published track its SDP id belongs to; otherwise it publishes the pending client id of that name, or failing that the one the scan yields, unless queued |
| PublishQueue.PublishingParticipant.AddMediaTrack | SERVER/pkg/rtc/participant_publisher.go:1026-1043 | publishes the head; the rest of the entry is queued, an emptied entry deleted |
| PublishQueue.PublishingParticipant.OnTrackClosed | SERVER/pkg/rtc/participant_publisher.go:1058-1063 | wakes the entry of the track's own client id and announces its head |
| PacketDeduper.DuplicateIffInWindow | SERVER/pkg/rtc/user_packet_deduper.go:41-66 | after any packets, an id is called duplicate iff it is among the last 100 of the zero id followed by all accepted ids, and the map threads exactly that window as one chain without repetition |
| PacketDeduper.AppendThreads | SERVER/pkg/rtc/user_packet_deduper.go:57-58 | linking a new id behind the head extends the chain by it |
| PacketDeduper.DropTailThreads | SERVER/pkg/rtc/user_packet_deduper.go:60-64 | unlinking the tail leaves the chain without its oldest id |
| PacketDeduper.UserPacketDeduper.IsDuplicate | SERVER/pkg/rtc/user_packet_deduper.go:41-66 | answers true iff the id is in the window its map threads, and moves to the state of the run model |
| TrackPermissions.ParseMeansGrants | SERVER/pkg/rtc/uptrackmanager.go:289-359 | the permission check on a parsed update grants exactly what the last entry naming the identity says; parsing fails iff a restricted update has an entry naming nobody |
| TrackPermissions.OnlyAppliedChangesGrants | SERVER/pkg/rtc/uptrackmanager.go:152-217 | a skipped, cleared or failed update grants exactly what was granted; the version never decreases; skipped iff not newer |
| TrackPermissions.UpdateRecords | SERVER/pkg/rtc/uptrackmanager.go:157-211 | an update that is not skipped records its own version, or the next local one unless that is older, and its permission; it is cleared, failed or applied as that permission says |
| TrackPermissions.StaysIffGranted | SERVER/pkg/rtc/mediatrackreceiver.go:627-648 | under the table of an applied update a subscriber stays iff it is exempt or the update grants it the track |
| TrackPermissions.StoredInEffectIffParsed | SERVER/pkg/rtc/uptrackmanager.go:181-211 | after an update that is not skipped, the permission stored for migration is the one in effect iff the update named one that parses |
| TrackPermissions.TablesNeverGoBackIff | SERVER/pkg/rtc/uptrackmanager.go:198-212 | over every run of overlapping updates, any of which may fail, the tables installed never go back to an older version iff each update that installs is newer than all installed before; then, once none is in flight, the table in effect is that of an accepted update at least as new as every one that did not fail |
| TrackPermissions.OldestFirstSuffices | SERVER/pkg/rtc/uptrackmanager.go:198-212 | installing only the oldest update in flight, failures or not, ensures that |
| TrackPermissions.WithoutFailuresOldestFirst | SERVER/pkg/rtc/uptrackmanager.go:198-212 | and where every update installs nothing else does |
| TrackPermissions.InstallKeepsOrderIff | SERVER/pkg/rtc/uptrackmanager.go:198-206 | an install keeps the order of all updates iff it is that of the oldest in flight |
| TrackPermissions.OvertakenInstallGoesBack | SERVER/pkg/rtc/uptrackmanager.go:198-206 | in every reachable state with at least two updates in flight, any but the oldest can install first, after which the oldest brings an older table back into effect |
| TrackPermissions.MediaTrack.RevokeDisallowedSubscribers | SERVER/pkg/rtc/mediatrackreceiver.go:627-648 | exactly the exempt and the allowed subscribers stay; the identities of the others are returned |
| TrackPermissions.UpTrackManager.GetAllowedSubscribers | SERVER/pkg/rtc/uptrackmanager.go:363-384 | an identity is on the list iff the permission check grants it; no list iff there is no restriction |
| TrackPermissions.UpTrackManager.ParseSubscriptionPermissions | SERVER/pkg/rtc/uptrackmanager.go:289-336 | installs the new table only if every entry parses |
| TrackPermissions.UpTrackManager.UpdateSubscriptionPermission | SERVER/pkg/rtc/uptrackmanager.go:152-217 | after an applied update no non-exempt subscriber without permission is left on any published track; any other outcome touches no subscriber and no table |
| RoomTracks.ListsReflectHistory | SERVER/pkg/rtc/roomtrackmanager.go:61-126 | for every history of adds and removes, a track is in its list iff added and not removed since, with the publisher of that add, in the order of adds, once; no list is empty |
| RoomTracks.LookupIsEarliest | SERVER/pkg/rtc/roomtrackmanager.go:128-145 | lookup resolves the track in its list the longest, or nothing if there is none or it is closing |
| RoomTracks.Compact | SERVER/pkg/rtc/roomtrackmanager.go:94-107 | compacting a slice over its own buffer keeps exactly the other tracks in order, counts the removed ones and clears the tail |
| RoomTracks.RoomTrackManager.AddTrack | SERVER/pkg/rtc/roomtrackmanager.go:61-82 | appends unless the object is already in the list; lists stay in separate buffers |
| RoomTracks.RoomTrackManager.RemoveTrack | SERVER/pkg/rtc/roomtrackmanager.go:84-126 | the list loses exactly that object, an emptied list its key; other lists keep their contents |
| RoomTracks.RoomTrackManager.GetTrackInfo | SERVER/pkg/rtc/roomtrackmanager.go:128-145 | the head of the list unless it is closing |
| CodecRegression.NoneStranded | SERVER/pkg/rtc/mediatrackreceiver.go:87-109 | for every interleaving of additions, regressions and closes, once no switch is pending every open down track ever added is on the backup receiver and the old one has none |
| CodecRegression.ClosedAreGoneIff | SERVER/pkg/sfu/downtrack.go:837-860 | then no closed down track is on any receiver iff none closed between the two regions of SetReceiver |
| CodecRegression.ClosedWhileMoving | SERVER/pkg/sfu/downtrack.go:1416-1451 | a run in which one does, and stays on the backup |
| CodecRegression.SimulcastReceiver.Add | SERVER/pkg/rtc/mediatrackreceiver.go:87-98 | before a regression the down track is attached, after it a switch to the backup is started |
| CodecRegression.SimulcastReceiver.Regress | SERVER/pkg/rtc/mediatrackreceiver.go:100-109 | one switch is started for every down track attached at that moment |
| CodecRegression.FindBackup | SERVER/pkg/rtc/mediatrackreceiver.go:267-284 | finds the changed receiver (or the dummy standing in for it) and a different one with the target codec, each iff there is one |
| AudioMixer.EverySampleAccountedFor | CLIENT/src/audio_mixer.cc:14-35 | over any run, written samples are those read or overwritten, oldest first, followed by those available; never more than the capacity; a long write leaves exactly its newest samples |
| AudioMixer.ReadTakesOldest | CLIENT/src/audio_mixer.cc:27-35 | in every run a read consumes the oldest samples, as many as asked for or all there are |
| AudioMixer.LosslessIff | CLIENT/src/audio_mixer.cc:14-25 | a run overwrites no sample iff every write finds room for all of its samples |
| AudioMixer.MixedIs | CLIENT/src/audio_mixer.cc:95-101 | each source is scaled by its own gain, an absent one is silent, and the sum is cut at full scale |
| AudioMixer.WriteStep | CLIENT/src/audio_mixer.cc:15-24 | one ring write, with room or full, is append and keep the newest |
| AudioMixer.RingBuffer.WriteAll | CLIENT/src/audio_mixer.cc:14-25 | the ring refines the bounded sequence: append, keep the newest `capacity` |
| AudioMixer.RingBuffer.ReadAll | CLIENT/src/audio_mixer.cc:27-35 | returns and removes the oldest samples, as many as asked for or available |
| AudioMixer.Mixer.GetMixedFrame | CLIENT/src/audio_mixer.cc:71-104 | consumes one frame from each ready source and none from the other; the output is the clamped gain-weighted sum, and only the frame is written; without a ready source nothing changes |
| AudioResampler.CountIsExact | CLIENT/src/audio_resampler.cc:84-100 | the closed form of the frame count is exactly where the interpolation loop stops |
| AudioResampler.CountFitsBuffer | CLIENT/src/audio_resampler.cc:30-33 | for every rate pair, block and phase it is at least two frames below MaxOutputFrames |
| AudioResampler.PhaseAlwaysBounded | CLIENT/src/audio_resampler.cc:102-104 | over any sequence of blocks the carried phase stays between 0 and max(0, step - 1) |
| AudioResampler.PhaseContinuousIff | CLIENT/src/audio_resampler.cc:102-104 | the next block continues where this one stopped iff the loop stopped past the whole block |
| AudioResampler.UpsamplingRestartsEveryBlock | CLIENT/src/audio_resampler.cc:102-104 | when the rate is raised, every block restarts at phase zero and continuity never holds |
| AudioResampler.FrameInBlock | CLIENT/src/audio_resampler.cc:84-97 | every output frame interpolates between two frames of its own block |
| AudioResampler.LinearSignalIsExact | CLIENT/src/audio_resampler.cc:84-100 | a channel that is a straight line is resampled exactly: every output frame has the value of the line at its position, and channels the input lacks follow its first |
| AudioResampler.CopiedAt | CLIENT/src/audio_resampler.cc:66-76 | without a change of rate every frame is copied to its place, channel by channel |
| AudioResampler.ChannelsWeighAlike | CLIENT/src/audio_resampler.cc:48-62 | changing one sample by d moves its own frame of the down-mixed block by d over the number of channels, and no other frame |
| AudioResampler.OutputWithinInput | CLIENT/src/audio_resampler.cc:48-100 | whatever is written, interpolated, copied or down-mixed, stays in the range of the block |
| AudioResampler.Resampler.Process | CLIENT/src/audio_resampler.cc:35-107 | terminates, reads only the block, writes only whole frames at the front and at most MaxOutputFrames of them: the interpolated or copied frames of the (down-mixed) block; the phase is the one carried |

## Left out

Outside the models:

- Peer connections, ICE, SDP editing, data-channel writers, Redis and RPC routing, egress, telemetry, logging, the web
  front end, and the agent's capture, input and HTTP code: I/O and external services.
- Protobuf encoding: messages are opaque values, with a size only where chunking needs it.
- Locks: a locked region is one atomic step. Time: every deadline or expiry test is a free boolean.
- Counters: sequence numbers of the relay and of data messages, versions and subscription counters are unbounded;
  only the publisher gate has its 32-bit arithmetic.
- Floating point: audio samples, gains and phases are reals; the cast of a position to `int` does not overflow.

Within the models:

- Signal relay: retry intervals, the `BlockOnClose` wait and undecodable batches; a consumer of the channel may take
  messages or not.
- Reliable hand-over: each sender's messages are handled one at a time with increasing sequence numbers (the publisher
  gate proves the latter); destinations are identities only, since the replay filter does not look at destination
  SIDs; the recipient is not itself a sender (a broadcast skips its source); dropping a user packet whose nonce was
  seen before, which happens after it was cached; the lossy channel; the cache's own eviction rule (any message may
  go at any time).
- Participant updates: updates count as sent in the order in which they are dequeued, although the broadcast runs
  after the lock is released; requests to resend after a reconnect.
- Recipient filter: how the connection is negotiated; it becomes active only after the join response was written,
  since no negotiation starts before (`room.go:504-521`); eviction from the update cache; a failed write of the join
  response, which lists each participant once.
- Subscriptions: the synchronous path (it skips the limit check), data tracks, `AddSubscriber` answering "already
  subscribed", permission-change notifications, and a reconcile or close that still holds a replaced subscription
  object. One subscribe attempt is atomic against close events.
- Publish queue: the scan of `getPendingTrack` for a client id of the media's kind may yield any client id; tracks
  restored by migration, additional codecs of a published track, and mute. Every published track carries its request's
  client id.
- Version stamping: the other effects of `SetPermission`, and tracks and data tracks in a snapshot.
- Permissions: timed versions are natural numbers; a permission whose identity and SID disagree is only logged by the
  source and follows the identity.
- Room tracks: data tracks and change notifiers.
- Codec regression: the list of potential codecs, the callbacks, a backup receiver that is itself closed, and the
  locked regions of `SetReceiver` and `CloseWithFlush` as methods (they are events of the state machine).
- Audio mixer: pushing system audio and its gain, which mirror the microphone's; ring capacities are positive.
- Mixer.GetMixedFrame: asks for at most 480 frames, the size of the source's local buffers, which it does not check.
- Resampler.Process: the input and output buffers have the sizes the source expects of its caller.
- NeverTwoOpen: asks for timely close callbacks, because LateCallbackLetsTwoOpen shows what any other one
  allows.
- ReachableInv: asks that no insert overwrites a live track, because InsertKeepsCountsIff shows that any such insert
  breaks the counters.
