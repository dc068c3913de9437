# Verification of the agent's peer-to-peer, sync, debug and parsing cores

The agent downloads software from its peers, keeps itself in step with a server manifest, replicates
artifacts, streams its log to a remote session, reads winget's tables and shows chat answers. This project
models the parts of it that hold state and branch most, and proves what they promise over every input,
every run and every interleaving. Code that changes fields or runs loops is modelled by classes and methods,
each proved against a specification function or predicate; code that runs concurrently is a state machine
whose steps are the locked regions and the channel operations, and the methods of the class are those steps.

| file | what it is about |
|---|---|
| `Chunks.dfy` | the chunk manifest of a file, the range server that answers for it, the peer scheduler |
| `Swarm.dfy`, `SwarmLaws.dfy` | the download worker pool: up to four workers, a semaphore, one result for each chunk; what it reports and whom it asks |
| `Assembly.dfy` | joining the parts, the final check and the rename; sequences of failed and resumed downloads |
| `Sync.dfy`, `SyncLaws.dfy`, `SyncKeys.dfy`, `SyncCoordinator.dfy` | the coalescing sync queue: tokens, lost updates, convergence, which triggers coalesce, the coordinator's methods |
| `Replication.dfy`, `Replicator.dfy` | the replication queue: gauges, cooldown, duplicates, the coordinator's methods |
| `ReplicationOnce.dfy`, `DedupKeys.dfy` | how often one job is replicated; when two jobs share a dedup key |
| `TtlMap.dfy` | pruned maps of time stamps against the full log of their marks |
| `Seeds.dfy`, `PeerTable.dfy` | configuration clamps, the seed count, the peer table and the seed plan |
| `RemoteDebug.dfy`, `Fallback.dfy` | who owns a debug session; the one-way fallback between transports |
| `Winget.dfy`, `WingetTable.dfy`, `WingetHeaders.dfy`, `PackageActions.dfy` | the two winget parsers, a table printer they invert, headers that are not ASCII, the package actions |
| `Markdown.dfy`, `MarkdownLaws.dfy`, `MarkdownTexts.dfy` | the one-pass Markdown translator against the recursive grouping of lines; the texts it shows |
| `Text.dfy`, `Sequences.dfy`, `Counting.dfy`, `Clock.dfy`, `Wrappers.dfy` | strings, collecting loops, sums over sequences, units of time, optional values |

## What the proofs found

These are properties of the code as it is. Each has a theorem with the exact condition or a concrete run.

- The gauge of queued replications can stay too high for good: a worker may take a job and skip the decrement
  (the gauge is zero) before the enqueuer has counted it. It never reports too little
  (`Replication.QueueGaugeCanDrift`, `Replication.QueueGaugeExactIff`).
- A sync trigger without a resource but with a variant drops the revisions it has coalesced, because the
  consumer falls back to the first trigger of the burst (`SyncLaws.UpdateLostIff`). Pings must name a resource,
  but a manifest can list such entries (`SyncLaws.UpdateCanBeLost`).
- Triggers for different resources coalesce when a `|` in one resource lets the piece behind it pass for the start
  of the other's variant; without bars in the resources only the same resource and variant do
  (`SyncKeys.MergesIff`, `SyncKeys.WithoutBars`).
- A reconcile and a successful drain reach a fixed point exactly when entries of one key agree on one
  non-blank revision (`SyncLaws.ConvergesIffConsistent`).
- A verified part file is lost only when its check fails to read it and the new write fails as well; over a run
  it is kept exactly when no such event occurs (`Swarm.GoodPartsStay`, `Swarm.PartKeptIff`,
  `Swarm.UnreadPartCanBeLost`).
- The pruned maps answer like the full log exactly when no clock reading in between ran ahead of the query
  (`TtlMap.PruningAgreesIff`). Clocks are read before the lock is taken, so a job can be admitted within a day of
  its mark (`Replication.RecentJobCanBeAdmitted`).
- The timeout of a debug session that was restarted under its own id ends the new session early
  (`RemoteDebug.TimeoutStopsIff`, `RemoteDebug.StaleTimerEndsSuccessor`).
- The branch that reports an applied fallback (`src/app/remote_debug.go:295-298`) cannot be reached: the loop
  index equals the active index in every iteration (`Fallback.PublishLoop.PublishWithFallback`).
- Column starts are byte offsets while cells are cut by runes. Under a header whose titles stand over their
  columns a row comes back whole exactly when every cell whose title stands behind a letter that is not ASCII is
  blank (`WingetHeaders.RowWholeIff`). Under the Portuguese header, with a source column or without, every kept
  row comes back with the first character of its available version at the end of its current one and the first
  two of its source at the end of its available version (`WingetHeaders.PortugueseTable`).
- The installed parser does not skip summary lines: it returns a spurious id for every trailing line that is
  not blank between the id and the version columns (`WingetTable.InstalledExactIff`), which for a summary means:
  that is longer than the name column is wide (`WingetTable.InstalledExactForSentences`). Below a table with an
  id column at 5 and a version column at 13, "1 upgrades available." is listed as the package "rades av"
  (`WingetTable.SummaryLineIsListed`); `WingetHeaders.AtualizacoesLineIsListed` is the like in Portuguese.
- The first seed plan of a run is made for one agent, however many peers the tick found
  (`PeerTables.TickPlansForAllIff`, `PeerTables.FirstPlanForOne`); from the second tick on it is for all of them
  (`PeerTables.SecondTickPlansForAll`), and seeds and chosen peers add up after every tick
  (`PeerTables.TickConserves`).
- Two accepted jobs for different targets can share a replication key. For parts without blanks the key is
  unambiguous exactly when no piece beside a `|` could be read as an artifact or as part of it
  (`DedupKeys.KeyIsUnambiguousIff`): in the peer and the checksum, when every `|` is the first character of the
  peer or the last of the checksum, unless path separators or `..` rule the pieces out
  (`DedupKeys.LooseIffBar`). With blanks it depends on where the key can be cut (`DedupKeys.KeyIsSharedIff`).
- A job that is enqueued twice before its first mark is replicated twice: the worker does not look at the dedup
  map again (`ReplicationOnce.ReplicatedTwice`). Two marks of one key within 24 hours always come from two such
  admissions (`ReplicationOnce.CloseMarksWereBothAdmitted`).

## Model

| member | source | states |
|---|---|---|
| `Chunks.BuildChunkManifest` | src/app/p2p_chunks.go:88-143 | The manifest describes the file: chunks tile it, each carries the hash of its piece, and the file hash is the hash of all bytes; a chunk size that is not positive is the default |
| `Chunks.CutFile` | src/app/p2p_chunks.go:108-132 | The read loop cuts any file, of whatever length, into consecutive hashed pieces and feeds every byte once to the file hash |
| `Chunks.TilingIsUnique` | src/app/p2p_chunks.go:108-132 | The geometry of a manifest is determined by the file size and the chunk size |
| `Chunks.ChunkCount` | src/app/p2p_chunks.go:108-132 | The number of chunks is the least that covers the file |
| `Chunks.Serve` | src/app/p2p_libp2p_transport.go:234-275 | The range server answers with exactly the requested positions that the file has, and with an error exactly when it has none of them |
| `Chunks.HandleArtifactGet` | src/app/p2p_libp2p_transport.go:234-275 | The step-by-step clamping, seek and limited copy compute that answer |
| `Chunks.ChunkRequestServed` | src/app/p2p_libp2p_transport.go:366-379 | The request for any chunk of a manifest passes the clamping unchanged and is answered with the bytes of the chunk |
| `Chunks.ServedChunksAreTheFile` | src/app/p2p_libp2p_transport.go:234-275 | The answers for all chunks in index order concatenate to the file |
| `Chunks.WholeFileRequest` | src/app/p2p_libp2p_transport.go:237-246 | The request (0,-1) serves all of any non-empty file and fails for the empty one |
| `Chunks.ChunkScheduler.PickPeer` | src/app/p2p_chunks.go:43-58 | The picked peer has the fewest errors of all; it is the round-robin one when that is among the best, else the first of the best |
| `Chunks.PickedIsUnique` | src/app/p2p_chunks.go:43-58 | That description determines the peer |
| `Chunks.ChunkScheduler.RecordError` | src/app/p2p_chunks.go:61-65 | One more error for that peer, nothing else changes |
| `Swarm.StepInv` | src/app/p2p_chunks.go:170-204 | Every step keeps the accounting of the pool: at most four workers hold a slot, and every worker has sent no result or one |
| `Swarm.EveryRunEnds` | src/app/p2p_chunks.go:170-214 | A measure falls with every step of every interleaving, so every run ends |
| `Swarm.NeverStuck` | src/app/p2p_chunks.go:170-214 | As long as the collecting loop has not ended, some step can be taken: no deadlock |
| `Swarm.CollectedResults` | src/app/p2p_chunks.go:206-214 | When the loop ends it has received exactly one result for each chunk |
| `Swarm.FirstError` | src/app/p2p_chunks.go:206-214 | The error reported is that of the first failure received; none exactly when no chunk failed |
| `Swarm.PartKeptIff` | src/app/p2p_chunks.go:181-204 | Over every run from a state where a part matches: it matches at the end exactly when no event of the run lost it, that is, no fetch of that chunk had verified bytes whose write failed and left something that does not match |
| `Swarm.GoodPartsStay` | src/app/p2p_chunks.go:181-204 | In a run whose check can read it, a part that matches at the start matches at the end and no peer is asked for it |
| `Swarm.ContactsTheRemaining` | src/app/p2p_chunks.go:181-204 | With readable parts, a finished run asked peers for exactly the chunks whose parts did not match |
| `Swarm.AllPartsMatch` | src/app/p2p_chunks.go:170-214 | If no chunk failed, every part on disk hashes to its manifest entry, whatever the peers replied and whatever was left over |
| `Swarm.UnreadPartCanBeLost` | src/app/p2p_chunks.go:181-204 | A concrete run in which a matching part is lost |
| `SwarmLaws.ReportedGoodIff` | src/app/p2p_chunks.go:181-214 | When the loop ends, a chunk was reported as good exactly when some event of the run read a part of it with the digest of the manifest, or stored a reply with that digest |
| `SwarmLaws.NoFailureIff` | src/app/p2p_chunks.go:206-214 | So the loop sees no failure exactly when every chunk had such an event |
| `SwarmLaws.HonestRunHasNoFailure` | src/app/p2p_chunks.go:170-214 | With readable parts and replies of the right digest no chunk fails, in any interleaving and from any leftover parts |
| `SwarmLaws.CollectedErrors` | src/app/p2p_chunks.go:192-197 | At the end of a run the errors counted for a peer are exactly the requests to it that brought no bytes of the right digest to disk |
| `SwarmLaws.AsksLeastBlamed` | src/app/p2p_chunks.go:43-58 | A worker asks the round-robin peer of its chunk when no peer has fewer errors counted, else the first in the list that has the fewest |
| `Assembly.Workspace.CopyParts` | src/app/p2p_chunks.go:226-241 | The copy loop joins the parts up to the first that is missing or cannot be copied |
| `Assembly.Workspace.AssembleChunks` | src/app/p2p_chunks.go:216-260 | The target is replaced, by the joined parts, exactly when every file operation works, every part is there and the final check passes; otherwise the target and the parts are untouched |
| `Assembly.DownloadIsExact` | src/app/p2p_chunks.go:148-261 | Where the hash of the file has no second preimage, a successful download leaves exactly the file at the target and returns its length, for arbitrary replies, leftovers and interleavings |
| `Assembly.VerifiedPartsSucceed` | src/app/p2p_chunks.go:148-261 | The checks of the chunks suffice: whatever file digest the manifest carries, a download succeeds exactly when for every chunk a matching part was read or a reply with its digest was stored, no file operation fails and that digest, unless blank, is that of the file, letter case aside; the target is then exactly the file |
| `Assembly.ServedDownloadSucceeds` | src/app/p2p_chunks.go:148-261 | From any leftover disk and under any scheduling: with readable parts, every request answered with the bytes of its chunk and working file operations, the download returns the size of the file and leaves it at the target |
| `Assembly.ProgressIsKept` | src/app/p2p_chunks.go:181-214 | Over any sequence of failed attempts with readable parts, the set of matching parts only grows |
| `Assembly.TargetIsOldOrExact` | src/app/p2p_chunks.go:216-260 | Over any sequence of attempts the target is what it was or exactly the file |
| `TtlMap.PruningAgreesIff` | src/app/p2p_replication.go:295-323 | The pruned map answers a query as the unpruned log would, unless and only unless an operation since the last mark of the key saw a clock that expires the mark while the query does not |
| `TtlMap.PruningIsInvisible` | src/app/p2p_replication.go:317-323 | With a clock not behind the operations before it the two always agree |
| `TtlMap.PruningCanForget` | src/app/p2p_replication.go:317-323 | A concrete disagreement with clocks out of order |
| `Replication.RecentJobCanBeAdmitted` | src/app/p2p_replication.go:105-113 | A run of the machine in which a job is admitted within a day of its mark: another check with a later clock came first and forgot the mark |
| `TtlMap.MarksAreApart` | src/app/sync.go:124-143 | With a rising clock and marks made only for keys not recent, marks of one key are at least the time-to-live apart |
| `Sync.StepInv` | src/app/sync.go:145-176 | Every locked region and every channel operation keeps: a key is queued exactly when it has one token, and the queued trigger is what has been coalesced since the last take |
| `Sync.RunInv` | src/app/sync.go:94-176 | The same for all runs of pings, polls, blocked senders and the consumer |
| `Sync.OneTokenPerKey` | src/app/sync.go:145-176 | In every reachable state a queued key has exactly one outstanding token and any other key none, so the backlog is at most the number of queued keys |
| `Sync.CoalescedKeepsLastRevision` | src/app/sync.go:152-159 | A coalesced burst keeps its first resource and variant, its last non-blank revision and its last source |
| `SyncLaws.NoLostUpdate` | src/app/sync.go:151-183 | Every take for a key with a resource works with the last non-blank revision enqueued for it since the take before |
| `SyncLaws.UpdateLostIff` | src/app/sync.go:178-183 | A take works with another revision than the last one enqueued exactly when the resource is blank and the first trigger brought another revision |
| `SyncLaws.UpdateCanBeLost` | src/app/sync.go:151-183 | A manifest with two revisions for a variant without a resource, reconciled before the consumer comes and then drained: the first revision is recorded, though the last one of the burst was the second |
| `SyncLaws.TakenInBetween` | src/app/sync.go:145-183 | If a key is enqueued and later not pending, it has been taken in between |
| `SyncLaws.QueuedIsTaken` | src/app/sync.go:145-183 | A key queued now, even while its sync is running, and not queued later has had a take of its own since |
| `SyncLaws.StepCloser` | src/app/sync.go:94-98 | Every step but a new trigger brings the queue nearer to idle |
| `SyncLaws.NeverStuck` | src/app/sync.go:94-98 | A queue that is not idle can take a step other than a new trigger |
| `SyncLaws.DrainExists` | src/app/sync.go:94-98 | From every reachable state some run without new triggers ends idle, whichever syncs succeed |
| `SyncLaws.ReconcileThenDrain` | src/app/sync.go:262-334 | After a reconcile and a drain an entry is wanted again exactly when it was wanted and its sync failed; a failed key keeps its old revision |
| `SyncLaws.ConvergesIffConsistent` | src/app/sync.go:209-334 | After a reconcile and a drain in which every sync succeeds, the next reconcile enqueues nothing exactly when the manifest gives every key one non-blank revision |
| `SyncKeys.IgnoredIff` | src/app/sync.go:145-150 | A trigger is ignored exactly when its resource and its variant are both blank |
| `SyncKeys.MergesIff` | src/app/sync.go:145-162 | In every reachable state a trigger merges exactly when one is queued with the same resource and variant up to surrounding blanks and case, or with a bar moved from one to the other; and it is queued afterwards |
| `SyncKeys.WithoutBars` | src/app/sync.go:75-77 | Between triggers whose resources hold no bar, only the same resource and variant coalesce |
| `SyncKeys.WantedAtFirst` | src/app/sync.go:273-289 | With no stored revision, an entry is wanted exactly when it names a resource or a variant |
| `SyncKeys.WantedAfterSyncIff` | src/app/sync.go:209-334 | After a successful sync, an entry for the same resource and variant is wanted exactly when its revision is blank or another one, and every other entry as before |
| `SyncCoordinators.SyncCoordinator.constructor` | src/app/sync.go:61-73 | The coordinator starts with empty maps and channels, which is where the runs of the machine start |
| `SyncCoordinators.SyncCoordinator.EnqueueLocked` | src/app/sync.go:145-162 | The locked region of enqueue leads from a reachable state to a reachable one: it merges into the queued trigger or queues it and asks for a send |
| `SyncCoordinators.SyncCoordinator.SendToken` | src/app/sync.go:164-168 | A token goes to the channel when it has room, else to a blocked sender |
| `SyncCoordinators.SyncCoordinator.TakeTrigger` | src/app/sync.go:171-183 | In every reachable state the key is queued, so that the lookup never comes up empty; the consumer works with the burst queued under it, for a burst with a resource under its last non-blank revision |
| `SyncCoordinators.SyncCoordinator.FinishSync` | src/app/sync.go:209-216 | A revision is recorded exactly when the sync succeeded and the revision is not blank |
| `SyncCoordinators.SyncCoordinator.EnqueueTrigger` | src/app/sync.go:145-169 | A trigger without resource and variant changes nothing; any other is one locked step and, for a new key, one send, and is queued afterwards |
| `SyncCoordinators.SyncCoordinator.ForgetEvents` | src/app/sync.go:133-137 | The loop drops exactly the events older than the time-to-live |
| `SyncCoordinators.SyncCoordinator.IsProcessedEvent` | src/app/sync.go:124-143 | An event is refused exactly when it was seen within its time-to-live, and is otherwise marked; no id is marked while the map knows it |
| `SyncCoordinators.SyncCoordinator.HandlePing` | src/app/sync.go:100-122 | Which pings are dropped, and that any other is enqueued under its trimmed fields, so that its resource and variant are queued afterwards |
| `SyncCoordinators.SyncCoordinator.ReconcileEntry` | src/app/sync.go:273-289 | An entry is enqueued, and then queued, unless it has neither resource nor variant or its revision is the stored one |
| `SyncCoordinators.SyncCoordinator.ReconcileFromManifest` | src/app/sync.go:262-292 | The loop over the manifest equals the specification of a reconcile and keeps the state reachable |
| `SyncCoordinators.SyncCoordinator.GetPollEvery` | src/app/sync.go:294-301 | The poll interval is the stored one when positive, else the default |
| `SyncCoordinators.EventAcceptedOnce` | src/app/sync.go:124-143 | With a rising clock one event id is not accepted twice within its time-to-live |
| `Replication.GaugesAccount` | src/app/p2p_replication.go:117-183 | In every reachable state ActiveReplications is the number of workers in flight, at most two, and QueuedReplications with the pending increments is the length of the channel plus pending and skipped decrements |
| `Replication.QueueGaugeExactIff` | src/app/p2p_replication.go:136-140 | At rest the queue gauge is the length of the channel exactly when no decrement was ever skipped |
| `Replication.QueueGaugeCanDrift` | src/app/p2p_replication.go:117-141 | A concrete run of the two workers that leaves the gauge at one with nothing queued |
| `Replication.CooldownHolds` | src/app/p2p_replication.go:151-167 | Two jobs that passed the gate for the same peer, up to surrounding blanks and case, did so with clocks at least 20 s apart, for any number of workers and any order of clock readings |
| `Replication.GatePassesIff` | src/app/p2p_replication.go:151-167 | In every reachable state a job passes exactly when every earlier attempt for its peer is at least 20 s back, so that attempts for other peers never hold it up |
| `Replication.DedupAgreesIff` | src/app/p2p_replication.go:295-323 | In every reachable state the dedup map answers as the log of all marks, exactly under the condition on the clocks |
| `Replication.NoDuplicateAdmitted` | src/app/p2p_replication.go:107-115 | A job admitted with a clock not behind earlier ones has no mark of its key within 24 h |
| `DedupKeys.KeyIsSharedIff` | src/app/p2p_replication.go:291-293 | For every job: a job for another target that the queue accepts has its key exactly when the key can be cut at another pair of bars into three parts without surrounding blanks, none empty and the middle one a name that sanitizeArtifactName lets through |
| `DedupKeys.KeyIsUnambiguousIff` | src/app/p2p_replication.go:291-293 | For a job that the queue accepts and whose parts hold no blanks: the key stands for that target alone among the accepted jobs exactly when none of its parts has a piece beside a bar that could be read as an artifact or as part of it |
| `DedupKeys.LooseIffBar` | src/app/p2p_replication.go:291-293 | In peers and checksums without path separators and two dots in a row, there is such a piece exactly when a bar stands anywhere but at the start of the peer or the end of the checksum |
| `DedupKeys.DedupKeyIsInjective` | src/app/p2p_replication.go:291-293 | Equal keys mean equal normalized peer, artifact and checksum when neither peer nor checksum of either job contains a bar |
| `DedupKeys.DedupKeysCollide` | src/app/p2p_replication.go:291-293 | A family of pairs of jobs that share a key |
| `ReplicationOnce.CloseMarksWereBothAdmitted` | src/app/p2p_replication.go:107-181 | Over every run with a rising clock: any two marks of one key in the log that are less than 24 h apart come from two different admissions under that key, both of which had passed the duplicate check before the first mark |
| `ReplicationOnce.ReplicatedTwice` | src/app/p2p_replication.go:107-181 | A concrete run, for every gap: a job enqueued twice before its first mark is replicated and marked twice |
| `Replicators.Replicator.constructor` | src/app/p2p.go:88-99 | The coordinator starts as the machine does, with the gauges, the cooldown and the dedup map in order |
| `Replicators.Replicator.PruneDedupLocked` | src/app/p2p_replication.go:317-323 | The loop drops exactly the expired marks |
| `Replicators.Replicator.CheckDuplicate` | src/app/p2p_replication.go:107-115 | The locked check refuses exactly the recently replicated jobs, and answers as the full log of marks when its clock is not behind theirs |
| `Replicators.Replicator.OfferJob` | src/app/p2p_replication.go:117-127 | A job enters the channel exactly when there is room, and the channel never holds more than 64 |
| `Replicators.Replicator.CountActiveJob` | src/app/p2p_replication.go:136-141 | ActiveReplications grows by one and stays within the number of workers; QueuedReplications never turns negative |
| `Replicators.Replicator.PassGate` | src/app/p2p_replication.go:152-167 | A job passes exactly when it comes 20 s after every attempt for its peer, and is then recorded; for one that is dropped the gauge was positive and goes down by one |
| `Replicators.Replicator.MarkJob` | src/app/p2p_replication.go:306-315 | A replicated job with a checksum is a duplicate for the next 24 h |
| `Replicators.Replicator.FinishJob` | src/app/p2p_replication.go:177-181 | ActiveReplications goes down by exactly one: its guard never fails |
| `Replicators.Replicator.AppendAudit` | src/app/p2p_replication.go:185-201 | The newest event comes first and at most 100 are kept |
| `Replicators.AuditKeepsTheLast` | src/app/p2p_replication.go:195-199 | After any number of events the list holds exactly the last 100, newest first |
| `Replicators.Replicator.EnqueueNormalized` | src/app/p2p_replication.go:107-127 | A duplicate, a full queue and an accepted job are told apart, and only the last enters the channel and is counted |
| `Replicators.Replicator.EnqueueReplicationJob` | src/app/p2p_replication.go:85-128 | Every error condition in the order of the source, and every field of an accepted job in the channel |
| `Seeds.NormalizeKeepsIffUsable` | src/app/p2p_config.go:59-89 | Normalizing gives a usable configuration and changes nothing exactly when it already was one |
| `Seeds.NormalizeEach` | src/app/p2p_config.go:59-89 | Field by field: what lies in its range is kept, what is not set is the default, anything else is the nearest bound |
| `Seeds.PlanFollowsConfig` | src/app/p2p_config.go:112-120 | The plan carries the percentage and the minimum of the configuration where they are usable, and the least count that is enough for them |
| `Seeds.SeedCountIsLeast` | src/app/p2p_config.go:91-110 | The seed count is the least number that covers the percentage and the minimum, capped by the agents |
| `Seeds.RoundedSeedCountIsExact` | src/app/p2p_config.go:91-110 | With every floating-point operation rounded as double precision rounds, the seed count is the exact one while agents times percentage stays below 2^53 |
| `Seeds.SeedCountGrowsSlowly` | src/app/p2p_config.go:91-110 | One more agent never means fewer seeds nor more than one more |
| `PeerTables.RunInv` | src/app/p2p.go:181-223 | Over every run knownPeers is the size of the table, every entry is under its own key, and every plan and every pending estimate is for at least one agent |
| `PeerTables.KnownIffHeard` | src/app/p2p.go:202-214 | A peer is in the table exactly when it was announced and no tick since its last announcement came more than two minutes after it |
| `PeerTables.ConservedIff` | src/app/p2p_replication.go:325-335 | Seeds and chosen peers add up to all agents exactly when the plan has at least one seed and not more than there are agents |
| `PeerTables.SeedsConserved` | src/app/p2p_replication.go:325-335 | Over every run the stored plan has the least number of seeds that is enough for its agents, and seeds and chosen peers add up whenever it was made for no more agents than there are now |
| `PeerTables.TickPlansForAllIff` | src/app/p2p.go:202-223 | A tick plans for the agents it found exactly when there was a plan before or it found no peer |
| `PeerTables.FirstPlanForOne` | src/app/p2p.go:202-223 | A run of one announcement and one tick that leaves a plan for one agent beside a known peer |
| `PeerTables.TickConserves` | src/app/p2p.go:202-223 | After every tick seeds and chosen peers add up to the agents it found |
| `PeerTables.SecondTickPlansForAll` | src/app/p2p.go:202-223 | From the second tick on, every tick leaves the plan for exactly the agents it found |
| `PeerTables.PeerTable.UpsertPeer` | src/app/p2p.go:296-320 | A valid announcement replaces the entry under the folded id; new means that the set of keys grew |
| `PeerTables.PeerTable.DropSilent` | src/app/p2p.go:208-213 | Exactly the peers silent for over two minutes go, with their artifacts |
| `PeerTables.PeerTable.CountAfterDrop` | src/app/p2p.go:208-214 | The evicted table and its count |
| `PeerTables.PeerTable.DiscoveryTick` | src/app/p2p.go:202-223 | The whole tick: eviction, count, and the plan for the machine's number of agents; a disabled configuration changes nothing |
| `PeerTables.PeerTable.CurrentAgentsEstimate` | src/app/p2p.go:195-200 | The estimate is the known peers and this agent |
| `PeerTables.PeerTable.StoreSeedPlan` | src/app/p2p.go:181-188 | The plan is made from the estimate read earlier, whatever happened in between |
| `PeerTables.SelectAutoDistributionPeers` | src/app/p2p_replication.go:325-335 | A prefix of the peers, of the length left by the seeds |
| `RemoteDebug.ComputeDeadline` | src/app/remote_debug.go:389-407 | The deadline is the requested time when that lies within an hour from now, now when it is past, and the hour otherwise |
| `RemoteDebug.OneOwner` | src/app/remote_debug.go:234-258 | Over all interleavings every installed session is in exactly one place: active, with one caller that will stop it, or stopped; so it is stopped at most once |
| `RemoteDebug.AllOthersStopped` | src/app/remote_debug.go:234-241 | When no stop is pending, exactly the active session is not stopped |
| `RemoteDebug.TimerGuardsSession` | src/app/remote_debug.go:249-258 | The active session has its timer, set within an hour, and the timer hands it over |
| `RemoteDebug.TimeoutStopsIff` | src/app/remote_debug.go:335-349 | A timer ends the active session exactly when the ids agree up to case |
| `RemoteDebug.TimersWait` | src/app/remote_debug.go:249-258 | In every run a timer fires no earlier than the deadline of its own session |
| `RemoteDebug.StaleTimerEndsSuccessor` | src/app/remote_debug.go:249-258 | A concrete run in which the timer of the first session ends the second one before its deadline |
| `RemoteDebug.Manager.SwapIn` | src/app/remote_debug.go:234-237 | The new session becomes active and the previous one is handed to the caller |
| `RemoteDebug.Manager.TakeActive` | src/app/remote_debug.go:335-349 | The active session is handed to the caller exactly when the id matches or is blank |
| `RemoteDebug.Manager.StopGiven` | src/app/remote_debug.go:355-369 | The session is unsubscribed, cancelled and all its transports closed |
| `RemoteDebug.Manager.OthersAreTorn` | src/app/remote_debug.go:355-369 | Whenever no stop is pending, every session but the active one has been unsubscribed, cancelled and closed |
| `RemoteDebug.Manager.StartSession` | src/app/remote_debug.go:199-247 | A start fails exactly on a missing id, token, agent or transport; otherwise the new session is active, and the previous one is torn down and among the stopped |
| `RemoteDebug.Manager.StopSession` | src/app/remote_debug.go:335-353 | A found session is torn down, stopped and no longer active; otherwise nothing changes |
| `Fallback.PublishLoop.PublishWithFallback` | src/app/remote_debug.go:286-302 | A message is tried on the open transports in order up to the first that accepts; exactly the failed ones are closed |
| `Fallback.PublishLoop.PublishLine` | src/app/remote_debug.go:265-283 | One queued line: a blank one takes no number, any other the next one |
| `Fallback.PublishLoop.Loop` | src/app/remote_debug.go:260-284 | The loop over the queue equals the specification |
| `Fallback.FallbackIsOneWay` | src/app/remote_debug.go:260-302 | Over every run the active index stays within the transports, exactly those before it are closed, a failed one is never tried again and delivered sequence numbers strictly increase |
| `Fallback.NumbersCountLines` | src/app/remote_debug.go:260-302 | Sequence numbers are given to the lines that are not blank, one each, in order; a blank line changes nothing |
| `Fallback.DeliveredIff` | src/app/remote_debug.go:260-302 | A line is delivered exactly when it is not blank and some open transport accepts it |
| `Winget.CollapseCarriageReturns` | src/app/updates/service.go:139-151 | Every line becomes its last non-blank segment |
| `Winget.FindHeader` | src/app/updates/service.go:157-165 | The first line that looks like a header |
| `Winget.BuildItem` | src/app/updates/service.go:206-225 | A row cut at the column starts |
| `Winget.ScanUpgradeRows` | src/app/updates/service.go:195-230 | The row loop keeps the rows that are not blank, not a summary and have an id, in order |
| `Winget.UpgradeRowIff` | src/app/updates/service.go:195-230 | A line yields nothing when it is blank, spells "upgrade" or "atualiza" in any letter case, or has a blank id cell; every other line yields exactly one item |
| `Winget.HeaderIff` | src/app/updates/service.go:157-165 | A header is a line that spells "name" or "nome", "id" and "vers" in any letter case |
| `Winget.ParseUpgradeOutput` | src/app/updates/service.go:134-232 | The whole upgrade parser equals its specification |
| `Winget.ScanInstalledRows` | src/app/updates/service.go:303-314 | The ids of the rows that have one, in order |
| `Winget.ParseInstalledOutput` | src/app/updates/service.go:256-316 | The whole installed parser equals its specification |
| `Winget.ParsersAgree` | src/app/updates/service.go:134-316 | For every text the ids of the upgrade parser are those of the installed parser, in order, less the rows that spell "upgrade" or "atualiza" in any letter case |
| `WingetTable.DocumentShows` | src/app/updates/service.go:139-151 | Collapsing a printed document with any spinner noise gives the lines a terminal shows |
| `WingetTable.HeaderGivesLayout` | src/app/updates/service.go:176-193 | The column starts read from a printed header are those of the printer |
| `WingetTable.RowParses` | src/app/updates/service.go:206-225 | Parsing a printed row gives the row back |
| `WingetTable.RoundTripAnyTitles` | src/app/updates/service.go:134-254 | Under any header whose titles stand at their byte positions: parsing a printed table, with noise before and summary lines after, returns its rows in order, less those without id or that mention a summary word |
| `WingetTable.RoundTrip` | src/app/updates/service.go:134-254 | The same for the header that winget prints in English |
| `WingetTable.RoundTripExact` | src/app/updates/service.go:134-254 | Rows with ids and without summary words all come back |
| `WingetTable.InstalledRoundTrip` | src/app/updates/service.go:256-316 | The installed parser returns the ids of the printed rows, in order, and then whatever the trailing lines have between the id and version columns |
| `WingetTable.InstalledExactIff` | src/app/updates/service.go:303-314 | It returns exactly the ids of the rows if and only if every trailing line is blank between those columns |
| `WingetTable.InstalledExactForSentences` | src/app/updates/service.go:303-314 | For trailing lines that are sentences: exactly the ids of the rows if and only if the name column is at least as wide as each of them |
| `WingetTable.SummaryLineIsListed` | src/app/updates/service.go:256-316 | One printed row and a summary line below it: the upgrade parser returns the row alone, the installed parser also lists a piece of the summary as an id |
| `WingetTable.RowMentionsIffFieldDoes` | src/app/updates/service.go:200-204 | A printed row is dropped as a summary exactly when one of its fields mentions one |
| `WingetHeaders.ColumnIsRuneIndexIffAscii` | src/app/updates/service.go:234-254 | For either lookup: the column found is the rune position of the keyword exactly when the text is ASCII up to there |
| `WingetHeaders.ShiftedWholeIff` | src/app/updates/service.go:206-225 | For columns read any number of runes too late, each at least as much as the one before: a row comes back whole exactly when every cell that is cut too late is blank |
| `WingetHeaders.RowWholeIff` | src/app/updates/service.go:176-225 | Under any header whose titles stand over their columns, with a source title or without: a row comes back whole exactly when every cell whose title stands behind a letter that is not ASCII is blank |
| `WingetHeaders.TableWholeIff` | src/app/updates/service.go:134-254 | For every such table whose header is ASCII up to its version title: the rows come back as printed exactly when that holds of every kept row |
| `WingetHeaders.SourceCellWholeIff` | src/app/updates/service.go:190-225 | The source cell comes back whole exactly when the header is ASCII up to the source title or the cell is blank |
| `WingetHeaders.LastCellWholeIff` | src/app/updates/service.go:176-225 | In a table without a source column the last cell comes back whole exactly when the header is ASCII up to the available title or the cell is blank |
| `WingetHeaders.ShiftedColumnLosesAvailable` | src/app/updates/service.go:216-225 | Cut any number of runes too late, no filled last cell comes back whole |
| `WingetHeaders.PortugueseColumns` | src/app/updates/service.go:176-193 | The columns read from a Portuguese header: the available one byte and the source column, when there is one, two bytes too far right |
| `WingetHeaders.PortugueseTable` | src/app/updates/service.go:134-254 | For every table in Portuguese, with a source column or without: each kept row comes back with the first character of its available version at the end of its current one and the first two of its source at the end of its available one |
| `WingetHeaders.PortugueseTableWholeIff` | src/app/updates/service.go:134-254 | The rows of such a table come back whole exactly when no kept row has an available version or a source |
| `WingetHeaders.AtualizacoesLineIsListed` | src/app/updates/service.go:134-316 | One row and a summary line in Portuguese: the upgrade parser drops the summary, the installed parser lists a piece of it as an id |
| `PackageActions.UpgradesHaveIds` | src/app/updates/service.go:123-125 | No listed upgrade has a blank id |
| `PackageActions.OfferUninstall` | src/app/updates/service.go:114-116 | The first loop offers to uninstall exactly the listed ids, case-folded |
| `PackageActions.OfferUpgrades` | src/app/updates/service.go:122-127 | The second loop offers the upgrade for exactly the listed upgrades and keeps the other offers |
| `PackageActions.GetPackageActions` | src/app/updates/service.go:95-131 | Upgrade for the upgradable ids, uninstall for the other installed ones, nothing else; an error only from the installed list |
| `Markdown.CloseLists` | src/frontend/js/app-chat.js:500-509 | The open list is closed before a line that belongs to none |
| `Markdown.RenderTable` | src/frontend/js/app-chat.js:539-559 | The table takes the longest run of rows; missing cells are empty and surplus ones dropped |
| `Markdown.PushItem` | src/frontend/js/app-chat.js:609-633 | An item closes a list of the other kind and opens its own when needed |
| `Markdown.TextLine` | src/frontend/js/app-chat.js:573-636 | One iteration outside code emits what the remaining lines owe |
| `Markdown.CodeLine` | src/frontend/js/app-chat.js:564-571 | One iteration inside code |
| `Markdown.RenderLines` | src/frontend/js/app-chat.js:491-645 | The one pass with its flags emits exactly the blocks of the recursive grouping of lines |
| `Markdown.RenderAssistantMarkdown` | src/frontend/js/app-chat.js:491-645 | The same from the text, whatever the regular expressions answer about its lines |
| `Markdown.LineEndsDoNotMatter` | src/frontend/js/app-chat.js:492-492 | Lines come back from the text however each of them was ended |
| `MarkdownLaws.NothingLost` | src/frontend/js/app-chat.js:491-645 | Every line is in exactly one block, in order |
| `MarkdownLaws.BlocksAreCanonical` | src/frontend/js/app-chat.js:491-645 | Every block is of its own kind and extends as far as it can |
| `MarkdownLaws.CanonicalIsUnique` | src/frontend/js/app-chat.js:491-645 | There is no other such grouping |
| `MarkdownLaws.RenderedIsWellNested` | src/frontend/js/app-chat.js:491-645 | The tags are well nested, all closed at the end, and no list is opened inside another |
| `MarkdownLaws.RenderedListsHaveItems` | src/frontend/js/app-chat.js:491-645 | No list is empty |
| `MarkdownTexts.TableGives` | src/frontend/js/app-chat.js:538-559 | A rendered table shows the header cells in order and then, row by row, one cell for each header cell: that of the row, or an empty one, with the alignment of the rule or left |
| `MarkdownTexts.RenderedTexts` | src/frontend/js/app-chat.js:491-645 | For every answer the texts of the output are those of its lines, in order, each inside the tags of its block: cells, list items, headings with their level, quotes, paragraphs and code lines with the language |

## Left out

- Streams, HTTP, NATS, WebSocket, files, processes and clocks: their outcomes are parameters or events. The framing of the chunk stream is not a channel here; what a peer replies is an arbitrary byte sequence.
- SHA-256 and hex: the hash is a parameter. That digests are lower-case hex, and that one file's hash has no second preimage, is required only by the theorems that say so.
- Machine integers: sizes, offsets and sequence numbers are unbounded, so wrap-around at 2^63 or 2^64 is not modelled.
- Letter tables: lower-casing and folding are a per-character function given as a parameter; strings are sequences of characters, and invalid UTF-8 does not occur.
- `src/app/p2p_chunks.go`: read errors in the middle of building a manifest, two processes on one `.parts` directory, and progress counters.
- `src/app/sync.go`: what a sync does between the take and its result, the update-policy check, jitter and cancellation.
- `src/app/p2p_replication.go`: the started, succeeded and failed counters, the lookup of a missing checksum and the cleaning of artifact names (both parameters; which names the cleaning lets through is `DedupKeys.IsName`), and the distribution loop that feeds the queue.
- `src/app/p2p.go`: the order in which the peers are listed (any order is allowed) and the hourly cleanup.
- `src/app/remote_debug.go`: log levels, truncation, the bounded line queue and the message fields other than the sequence number.
- `src/frontend/js/app-chat.js`: inline formatting and the regular expressions themselves; a line carries their answers, so the theorems hold for any.
- Seeds.SeedCountIsLeast: states the exact integer ceiling. `Seeds.RoundedSeedCountIsExact` shows that the source's floating-point steps give the same count while agents times percentage stays below 2^53; larger products are not modelled.
- WingetTable.RoundTrip: states the English header; `WingetTable.RoundTripAnyTitles` holds for every header whose titles stand at their byte positions, and `WingetHeaders.RowWholeIff` says which rows come back whole under the others.
- WingetHeaders.TableWholeIff: requires a header that is ASCII up to its version title, as the ids of the rows decide which of them are kept; `WingetHeaders.RowWholeIff` has no such condition.
- The two parsers' segment loop and header search are written once here and twice in the source; long loop bodies are split into methods.
- Goroutines are steps of a state machine and not threads; two steps never overlap, as each is one locked region or one channel operation.
- Onboarding, the decommission outbox, notifications, inventory, tickets, tray and the other frontend files.
