# Control decisions under interleaving, retries and crashes

This project models the control logic of the MBFD display server and of its camera edge in Dafny
and proves what that logic is for. Four components are covered; their common theme is a decision
that must stay right while messages, crashes and other requests come in between.

- **Audio ownership** (`AudioPolicy`, `AudioElection`, `AudioFence`, `AudioRecovery`,
  `AudioProtocol`, `LateSessions`, `Handshake`, `GuardedWrites`): revisions and revision-guarded stamping,
  the election of an owner, the mute-before-grant fence, recovery after the loss of an owner, and the whole handshake as a
  step system with concurrent transactions, a lossy network and the player's own policy controller.
- **Recording safety on the camera edge** (`FilesystemLease`, `LeasedRuns`, `LeasedOperations`,
  `RecordingHistory`, `RecordingMetadata`, `SegmentNames`, `Finalization`, `PermanentDelete`, `RecordingIntent`, `RecordingRecovery`,
  `StopDiscipline`, `ProcessStop`, `DockerStop`): expiring leases and the serialisability of the
  operations that take them, crash-resumable finalization and deletion, the durable intent of a
  recording, and the two identity-checked stop routines.
- **Request signing** (`PercentCoding`, `QueryCanonical`, `ContentTypes`, `ServiceSignature`,
  `NonceStore`, `ReplayProtection`): percent-encoding down to UTF-8, canonical queries and headers, the
  canonical request, signing and verifying, the nonce store, and how often one signed request is accepted.
- **Targets and monitors** (`BroadcastTargets`, `SignalDebouncer`, `RateLimiter`): the typed target
  resolver and two small stateful objects against their whole history.

`Text`, `Sorting` and `Wrappers` hold what several components use.

Crashes are modelled by the list of durable states an operation passes through: a crash keeps a
prefix of the list and loses memory. Protocols are step machines; theorems speak of every run.
Objects the programs update in place are classes whose methods are proved against functions of the
old state or of a ghost history. Answers of the outside world (ffmpeg, ssh, Docker, sockets, clocks, the database as an
await leaves it) are parameters, hence arbitrary.

Where a property fails, it is stated with its exact condition: `LateSessions.GrantIsSafeIff` with the run
`LateSessions.LateSessionBreaksSafety` (a session joining after the fence), `AudioPolicy.ReadBackIff` (stamping
under a foreign content instance), `AudioRecovery.RevisionsIncrease` (revisions at 2^53),
`PermanentDelete.RemovedRowLeavesNoRemoteIff` (a sync between two deletion attempts),
`SegmentNames.SortedIsRecordedIff` (a thousand segments), `Finalization.SegmentCountIff` (the segment
count after a resumed run), `RecordingIntent.StopIsSafeIff` (a stop under another supervisor),
`RecordingIntent.FailedDockerStartIsSafeIff` (a Docker start that fails with its container running),
`RecordingIntent.WithdrawIsSafeIff` with `RecordingIntent.UnansweredStopIsForgotten` (a stop request after a
failed systemd start that is closed without a reply), `ReplayProtection.CanReturnIff` with `ReplayProtection.SampleIsLetThroughTwice`
(a signed request that arrives no later than its own time),
`RecordingHistory.RemovalKeepsCoherentIff` with `RecordingHistory.ReuploadClaimsPublished` (a published video
removed from the server), `RecordingIntent.FinishIsSafeIff` (a start during a background finalization),
`RecordingIntent.DecisionToFinalizeSurvivesIff` (the state file cleared before finalization is recorded),
`QueryCanonical.ReencodingIrrelevantIff` (the empty query), `BroadcastTargets.NamingAllGroupsIff` (groups
that share an id), `BroadcastTargets.TargetsHaveRoutesIff` (colliding route keys) and
`RateLimiter.PruningIsInvisibleIff` (a clock that goes back).

Verify with `dafny verify dfyconfig.toml` (Dafny 4.11).

## Model

| member | source | states |
|---|---|---|
| `AudioPolicy.Normalize` | server/lib/audio-ownership.js:100-120 | a built policy is in normal form, and normalizing again changes nothing |
| `Text.TrimDropsSpace` | server/lib/audio-ownership.js:9-12 | trimming removes white space at both ends and nothing else |
| `AudioPolicy.MaxStored` | server/lib/audio-ownership.js:195-225 | the greatest valid revision on any item: an upper bound that is attained, 0 exactly when no item has one |
| `AudioPolicy.StampingKeepsNewest` | server/lib/audio-ownership.js:263-292 | stamping any list of valid policies, in any order and with repetition, equals stamping the newest one once |
| `AudioPolicy.StampingIsConfluent` | server/lib/audio-ownership.js:195-225 | two deliveries of the same set of policies leave the same playlist |
| `AudioPolicy.NewestIsReadBack` | server/lib/audio-ownership.js:156-183 | when the newest policy beats what is stored, every item carries it and the playlist reads it back |
| `AudioPolicy.NewerIsReadBack` | server/lib/audio-ownership.js:263-292 | one newer policy is written to every item and read back as itself |
| `AudioPolicy.StoredRevisionNeverFalls` | server/lib/audio-ownership.js:263-292 | no stamp of any request lowers the greatest stored revision |
| `AudioPolicy.CanReplaceIff` | server/lib/audio-ownership.js:195-225 | a policy is accepted exactly when it is valid and newer than everything stored, or is the one the playlist reads already |
| `AudioPolicy.CommonPolicyIff` | server/lib/audio-ownership.js:156-183 | a playlist reads a policy exactly when every item carries it and all agree on the seven keys |
| `AudioPolicy.AcceptedIsValid` | server/lib/audio-ownership.js:195-225 | every accepted policy has output, content, transaction, a generation and a revision |
| `AudioPolicy.StampsIff` | server/lib/audio-ownership.js:263-292 | a well-formed request is stamped exactly when there are items and the policy is accepted |
| `AudioPolicy.StampDefaultsContent` | server/lib/audio-ownership.js:263-292 | a policy without content takes the content instance it is stamped under |
| `AudioPolicy.ReadBackIff` | server/lib/audio-ownership.js:263-292 | an accepted policy reads back as itself exactly when it is not stamped under a different content instance |
| `AudioPolicy.StampIsRevisionGuarded` | server/lib/audio-ownership.js:195-225 | on a playlist that reads one policy, stamping a different revision is a write guarded by the revision alone |
| `AudioPolicy.OneDevicePerPolicy` | server/lib/audio-ownership.js:122-142 | a policy makes at most one device audible: its owner, and nobody when it names none |
| `AudioPolicy.PolicyForDeviceMeans` | server/lib/audio-ownership.js:122-142 | a policy speaks to a device exactly when its six fields are valid; it then allows audio to the trimmed owner only and mutes all others |
| `AudioElection.UniqueIds` | server/lib/audio-ownership.js:14-16 | the distinct trimmed non-empty ids, no more and no fewer |
| `AudioElection.Candidates` | server/lib/audio-ownership.js:54-75 | the candidates are the electable devices: targets that are online, or all targets when no online list is given |
| `AudioElection.ElectionMeaning` | server/lib/audio-ownership.js:54-75 | null exactly when nobody is electable, else the preferred device, the first in the configured order, or the least id |
| `AudioElection.ElectedUnique` | server/lib/audio-ownership.js:54-75 | at most one device fits that declarative reading |
| `AudioElection.ElectionDependsOnSets` | server/lib/audio-ownership.js:14-16 | permuting or duplicating the target and online lists never changes the result |
| `AudioFence.FenceHoldsIff` | server/lib/audio-ownership-transaction.js:66-76 | counting answers, valid answers and sessions decides that each of the room's sessions answered once with a valid muted acknowledgement |
| `AudioFence.PlayerAckCountsIff` | server/player/index.html:3041-3085 | the answer a player sends counts for a policy exactly when the player is the one asked, names its session, accepted the fence, has media, embed and host muted, and was fenced for that transaction, revision and generation |
| `AudioFence.AckIsForOneFence` | server/lib/audio-ownership-transaction.js:23-42 | whoever answers, a counting answer says that it is muted and counts for no other device or epoch |
| `AudioFence.FenceAttempt.Finish` | server/lib/audio-ownership-transaction.js:53-60 | a fence is settled by its first event and by no later one, with the verdict that every session is muted |
| `AudioFence.AcknowledgesIff` | server/lib/audio-ownership-transaction.js:23-42 | a participant counts as acknowledged exactly when its room is not empty and all of it is proved muted |
| `AudioFence.FenceCommitsIff` | server/lib/audio-ownership-transaction.js:85-126 | the requested policy is committed exactly when there is a participant and every session of every participant's room is proved muted for this transaction |
| `AudioFence.FailedFenceGrantsNothing` | server/lib/audio-ownership-transaction.js:11-21 | any other outcome commits the same epoch without owner, audible to no device |
| `AudioFence.OutcomesPartition` | server/lib/audio-ownership-transaction.js:85-126 | the participants are split into acknowledged and failed ones; offline ones are the unreachable ones |
| `AudioRecovery.SameSessionIsEquivalence` | server/lib/audio-owner-recovery.js:16-23 | belonging to one ownership session is an equivalence on policies |
| `AudioRecovery.SameSessionIff` | server/lib/audio-owner-recovery.js:16-23 | two policies belong to one session exactly when they have the same source and content, or no source and the same transaction |
| `AudioRecovery.RevisionIssuer.Next` | server/lib/audio-ownership.js:144-154 | the issued revision is no less than the wall clock, above every valid persisted revision, above the previous one exactly while that was below 2^53, and the whole history of calls gives the same counter |
| `AudioRecovery.RevisionsIncrease` | server/lib/audio-ownership.js:146-154 | within a process a later revision exceeds an earlier one exactly while the earlier was below 2^53, and every one exceeds the persisted revision it was given |
| `AudioRecovery.IssuedIsUsableIff` | server/lib/audio-ownership.js:83-86 | an issued revision is one a policy can carry exactly when none of its sources had reached the last safe integer |
| `AudioRecovery.PolicyStore.MaxPersistedRevision` | server/lib/audio-ownership.js:240-261 | the greatest revision on any item of any playlist, attained when positive |
| `AudioRecovery.PolicyStore.StampPlaylist` | server/lib/audio-ownership.js:263-292 | one playlist is rewritten when it accepts the policy, and nothing else changes |
| `AudioRecovery.PolicyStore.StampParticipants` | server/lib/audio-owner-recovery.js:103-107 | the stamping loop rewrites each participant playlist once and reports exactly those that accepted |
| `AudioRecovery.Recover` | server/lib/audio-owner-recovery.js:25-121 | nothing happens unless the owner was lost; otherwise one revision is issued; the committed policy is the lost one field by field under that revision and the new transaction; it is owned, and the recovery successful, exactly when someone is eligible and every connected session is proved muted, and the owner is then the device elected; the stamps go onto whatever the await left |
| `AudioRecovery.EnsureAfterReconnect` | server/lib/audio-owner-recovery.js:123-145 | a reconnecting device starts a recovery exactly when it has a stored policy whose owner is missing or offline, decided as above |
| `AudioRecovery.ReplacementMeaning` | server/lib/audio-owner-recovery.js:73-82 | there is a replacement exactly when a connected id other than the lost one is not blank: the lost output when eligible, else the first configured, else the least |
| `AudioRecovery.RecoveryDecides` | server/lib/audio-owner-recovery.js:69-110 | the proposal and the fence give the committed policy field by field, its owner and the success of the recovery |
| `AudioRecovery.ProposalIsGrantedIff` | server/lib/audio-owner-recovery.js:91-100 | a proposal is committed with its owner exactly when someone is connected and all are proved muted |
| `AudioRecovery.ReplacementIsAnother` | server/lib/audio-owner-recovery.js:73-82 | for trimmed ids there is a replacement exactly when some connected device is neither blank nor the lost one, and it is one of those |
| `AudioRecovery.LostDeviceNeverRegranted` | server/lib/audio-owner-recovery.js:69-100 | whatever the network does, no recovery grants the lost device, and an owner it commits is a connected participant |
| `AudioRecovery.RecoveryMovesOneSession` | server/lib/audio-owner-recovery.js:69-107 | a recovery whose stamps all succeed moves exactly one session, and only it, to the committed policy |
| `AudioRecovery.RecoveredSessionMoves` | server/lib/audio-owner-recovery.js:25-121 | a recovery that returns a policy, over an await whose playlists keep the session, moves that session and no other to it |
| `AudioProtocol.StepKeepsInv` | server/lib/audio-owner-recovery.js:77-110 | every step (issue, fence, acknowledge, commit and stamp, deliver, connect, disconnect) keeps the protocol invariant |
| `AudioProtocol.StepKeepsGrants` | server/lib/audio-ownership-transaction.js:85-126 | a granted owner meets only pages that left every older revision behind |
| `AudioProtocol.StepKeepsMail` | server/lib/audio-ownership.js:122-142 | every policy under way is a committed one, and none is older than what its receiver's playlist stored when it joined |
| `AudioProtocol.StepKeepsAcks` | server/lib/audio-ownership-transaction.js:44-83 | a session that acknowledged a fence has left every older revision behind |
| `AudioProtocol.StepKeepsStore` | server/lib/audio-ownership.js:263-292 | stored policies are committed ones and are replaced only by newer revisions |
| `AudioProtocol.ReceivingRaisesFloor` | server/player/audio-policy.js:176-246 | an accepted fence or policy never lowers the newest revision the page has seen |
| `AudioProtocol.AcceptedByRevision` | server/player/audio-policy.js:176-246 | a page accepts every newer message, no older one, and of the same revision only what it has or the outcome of its fence |
| `AudioProtocol.ReceivingDecides` | server/player/audio-policy.js:176-246 | a fence or a rejected message silences the page and keeps its policy; an accepted policy is the one it goes by, however often it is delivered |
| `AudioProtocol.ReceivingKeepsPageInv` | server/player/audio-policy.js:196-246 | a page believes only committed policies, from the server or from its own cache |
| `AudioProtocol.AtMostOneAudibleAlways` | server/lib/audio-owner-recovery.js:77-110 | in every run with concurrent recoveries and any network, at most one device is audible, when no owner is granted over a session that escaped the fence |
| `AudioProtocol.NoJoinIsSafe` | server/lib/audio-owner-recovery.js:91-107 | the same when no session joins between a fence and its stamp |
| `AudioProtocol.NoJoinIsTimely` | server/lib/audio-owner-recovery.js:91-107 | keeping sessions from joining in between implies that no granted owner meets an unfenced session |
| `Handshake.AnyRendererCanBeGranted` | server/lib/audio-owner-recovery.js:77-110 | from every state the protocol can be in, any connected renderer with a playlist can be made audible by an orderly run, and is then the only one |
| `Handshake.LeavingIsSilent` | server/player/audio-policy.js:140-170 | a page that opens, joins, leaves or is blocked is silent until it accepts a policy |
| `Handshake.FailedCommitMutes` | server/lib/audio-owner-recovery.js:103-107 | a failed recovery stores its revision without owner in every older playlist, and whoever accepts that is silent |
| `Handshake.CachedPolicyApplies` | server/player/audio-policy.js:196-246 | an offline page goes by the cached policy it accepts |
| `LateSessions.GrantIsSafeIff` | server/lib/audio-owner-recovery.js:91-110 | granting an owner whose page sits at the fence can be continued to two audible devices exactly when some connected page of another device, neither fenced nor joined on a revision as new, is audible or would accept the policy stored or under way for it |
| `LateSessions.NoLateSessionIsSafe` | server/lib/audio-owner-recovery.js:91-110 | a commit that finds every connected session fenced, or joined on a revision as new, admits no such continuation, whatever those sessions hold |
| `LateSessions.SoundIsLate` | server/lib/audio-ownership-transaction.js:85-126 | at such a commit only a late page can sound or be made to sound |
| `LateSessions.SplitNeedsSound` | server/player/audio-policy.js:196-246 | deliveries around a commit make a second device audible only through a page that could sound before it |
| `LateSessions.LateSessionBreaksSafety` | server/lib/audio-owner-recovery.js:91-110 | a concrete run from scratch in which a session joins after the fence and two devices are audible |
| `FilesystemLease.FilesystemLock.Acquire` | kamrui-media-edge/camera-api/recording-safety.js:62-109 | acquired exactly when the lock is absent, unreadable or expired; a refusal changes nothing and names the lease in force |
| `FilesystemLease.FilesystemLock.Release` | kamrui-media-edge/camera-api/recording-safety.js:111-124 | only the owner named in the lease removes it |
| `FilesystemLease.SoleHolder` | kamrui-media-edge/camera-api/recording-safety.js:62-109 | in every run with crashes inside acquire and release, a holder within its time is the only one and the lock on disk names it |
| `FilesystemLease.LateReleaseIsHarmless` | kamrui-media-edge/camera-api/recording-safety.js:111-124 | a former holder's release, however late, never takes the lease from its successor |
| `FilesystemLease.TakenExactlyWhenFree` | kamrui-media-edge/camera-api/recording-safety.js:62-109 | a lease is refused exactly while a readable unexpired one is there, so an abandoned one can be taken from its expiry on |
| `NonceStore.Store.Accept` | kamrui-media-edge/camera-api/recording-safety.js:207-235 | a nonce is refused exactly when its file survives the pruning of the expired files listed first; otherwise its expiry is recorded |
| `NonceStore.PrunedIff` | kamrui-media-edge/camera-api/recording-safety.js:209-216 | a nonce file is pruned exactly when it has expired and is among the first 1024 listed |
| `NonceStore.AcceptedOnce` | kamrui-media-edge/camera-api/recording-safety.js:207-235 | no nonce is accepted twice within its time to live, crashes and failed writes included |
| `NonceStore.ForgottenAtExpiry` | kamrui-media-edge/camera-api/recording-safety.js:207-235 | an accepted nonce is accepted again from its expiry on, when its file is among those listed first |
| `RecordingMetadata.RevisionPrecondition` | kamrui-media-edge/camera-api/recording-safety.js:172-178 | the precondition holds exactly for the revision or the revision in double quotes |
| `LeasedRuns.AlwaysInAcquisitionOrder` | kamrui-media-edge/camera-api/server.js:1886-1907 | at every moment, crashes included, the document is what the operations left one after another in acquisition order |
| `LeasedRuns.Serialisable` | kamrui-media-edge/camera-api/server.js:1897-1907 | operations that finish within their lease are serialisable in acquisition order |
| `LeasedRuns.StepKeepsInv` | kamrui-media-edge/camera-api/server.js:1886-1907 | every step of the interleaved handlers keeps exclusion, order and the working copy of the active one |
| `LeasedRuns.FreeLeaseLetsThrough` | kamrui-media-edge/camera-api/server.js:1886-1907 | from every state, once the lease is free or expired, an operation can run to its end; it leaves what it makes of the document it found, and the lease free |
| `LeasedRuns.AbandonedLeaseExpires` | kamrui-media-edge/camera-api/recording-safety.js:62-109 | a lease under which nobody works can always be waited out |
| `LeasedRuns.OverlapLosesTheSecond` | kamrui-media-edge/camera-api/server.js:1886-1907 | without the exclusion the run in which one operation reads, another runs through and the first writes loses what the second wrote, for every two operations of one write |
| `LeasedOperations.MetadataOperationsAreSerialisable` | kamrui-media-edge/camera-api/server.js:1696-1751 | for every interleaving of upload, sync, publish, archive, restore, video removal and delete on one recording the document ends as if they had run in acquisition order |
| `LeasedOperations.UnleasedArchiveIsLost` | kamrui-media-edge/camera-api/server.js:1052-1089 | two operations admitted at once, archive and publish: a run of the step machine in which both finish and the archive is lost, which neither serial order allows |
| `LeasedOperations.OperationsKeepToTheirFields` | kamrui-media-edge/camera-api/server.js:879-1089 | each operation changes only its own fields, at every point of its run |
| `LeasedOperations.SyncedOnlyWhenVerified` | kamrui-media-edge/camera-api/server.js:879-983 | a recording is marked synchronized exactly when the checksum read back is the local one |
| `LeasedOperations.FirstTransferIsFirst` | kamrui-media-edge/camera-api/server.js:879-983 | the fallback host is used only when every host before it failed |
| `RecordingHistory.UploadLeaves` | kamrui-media-edge/camera-api/server.js:985-1050 | an upload is attempted exactly for a recording with a file that is not uploaded; success leaves a private video under its id, failure the error, and nothing else changes |
| `RecordingHistory.PublishLeaves` | kamrui-media-edge/camera-api/server.js:1052-1089 | an accepted publish sets exactly the privacy asked for, published unless private |
| `RecordingHistory.ArchiveLeaves` | kamrui-media-edge/camera-api/server.js:1976-2030 | archiving names the operator, restoring takes that back, and neither changes anything else |
| `RecordingHistory.SyncLeaves` | kamrui-media-edge/camera-api/server.js:879-983 | a sync that transferred records where the copy is and what was read back, and the time only when verified |
| `RecordingHistory.FailedSyncLeaves` | kamrui-media-edge/camera-api/server.js:928-940 | a sync that fails on every host withdraws the claim and keeps the last verified time |
| `RecordingHistory.SyncSkipsIff` | kamrui-media-edge/camera-api/server.js:888-912 | nothing is written exactly for a synchronized recording, or one without file, checksum or destination |
| `RecordingHistory.FreshIsConsistent` | kamrui-media-edge/camera-api/server.js:809-835 | the document that a finalization writes is consistent and not public |
| `RecordingHistory.AlwaysConsistent` | kamrui-media-edge/camera-api/server.js:879-1089 | at every moment of every interleaving, crashes included, the fields of the document tell one story: synchronized only with the matching checksum, a video id only when uploaded, an archivist only when archived |
| `RecordingHistory.PublicOnlyAsAsked` | kamrui-media-edge/camera-api/server.js:1052-1089 | over every interleaving that removes no published video, crashes included, a recording is public exactly as the last publish that was carried out asked, never without one, and an uploaded one is private otherwise |
| `RecordingHistory.RemoveVideoLeaves` | kamrui-media-edge/camera-api/server.js:2213-2262 | removing the video forgets its id and privacy, only when confirmed, configured and carried out, and leaves the rest |
| `RecordingHistory.RemovalKeepsCoherentIff` | kamrui-media-edge/camera-api/server.js:2236-2246 | removing a video keeps the document coherent exactly when it was not published: the mark is left behind |
| `RecordingHistory.ReuploadClaimsPublished` | kamrui-media-edge/camera-api/server.js:1021-1031 | for every published recording, removing the video and uploading again leaves a private video marked as published |
| `PermanentDelete.Catalog.DeletePermanently` | kamrui-media-edge/camera-api/server.js:2032-2210 | anything is written exactly for a confirmed request naming the current revision, bare or quoted, of a row with nothing else at work; each refusal answers which check failed; it is deleted exactly when both copies are settled; no state touches a copy that the document does not name or a guard refuses, or any copy before the tombstone |
| `PermanentDelete.Catalog.RemoveLocal` | kamrui-media-edge/camera-api/server.js:2108-2130 | no durable state it passes through says deleted before the file is gone; success means gone and flagged, failure leaves the row as it was |
| `PermanentDelete.Catalog.RemoveRemote` | kamrui-media-edge/camera-api/server.js:2132-2167 | no durable state it passes through says verified before the remote copy is gone; success means gone and flagged, failure leaves the row as it was |
| `PermanentDelete.DeletionIsSafe` | kamrui-media-edge/camera-api/server.js:2079-2204 | through any crashes, failures and retries no flag of the first row is lost and the row goes only when every copy it named is gone and the tombstone is complete |
| `PermanentDelete.FlagsNeverRevert` | kamrui-media-edge/camera-api/server.js:2079-2204 | between any two durable states of any such history no flag reverts and the recording stays the same |
| `PermanentDelete.RetryCompletes` | kamrui-media-edge/camera-api/server.js:2079-2204 | after any crashed and failed attempts one permitted attempt in a cooperative environment finishes |
| `PermanentDelete.OnlyEntitledRequestsCount` | kamrui-media-edge/camera-api/server.js:2044-2077 | in every history, dropping all requests that may not delete changes nothing |
| `PermanentDelete.AttemptIsCareful` | kamrui-media-edge/camera-api/server.js:2079-2204 | an attempt deletes exactly when both copies are settled, otherwise reports the partial failure under its request id, and removes only what is named and allowed |
| `PermanentDelete.RemovedRowLeavesNoRemoteIff` | kamrui-media-edge/camera-api/server.js:2132-2167 | a completed deletion leaves no remote copy exactly when there was none or the document still asked for its removal |
| `PermanentDelete.SyncBetweenAttemptsLeavesCopy` | kamrui-media-edge/camera-api/server.js:2157-2167 | a sync between two attempts can leave a remote copy behind: a concrete family of runs |
| `SegmentNames.SortedIsRecordedIff` | kamrui-media-edge/camera-api/server.js:460 | sorting the zero-padded names gives the recording order exactly up to a thousand segments |
| `SegmentNames.ListingOrderIrrelevant` | kamrui-media-edge/camera-api/server.js:752-754 | the sorted segment list does not depend on the order in which the directory is read |
| `SegmentNames.IsSegmentIff` | kamrui-media-edge/camera-api/server.js:752-754 | a segment is any name that ends in .mp4 |
| `SegmentNames.DirectoryInRecordingOrder` | kamrui-media-edge/camera-api/server.js:752-754 | a directory of up to a thousand segments lists in recording order |
| `Finalization.Workspace.Run` | kamrui-media-edge/camera-api/server.js:740-864 | segments are given up and metadata is written only with a final file that passed validation; otherwise the run ends failed with every segment kept, or the lone one as the final file; concluded exactly when all tools succeed |
| `Finalization.Workspace.MakeFinal` | kamrui-media-edge/camera-api/server.js:756-785 | for every original recording whose states were good: every state passed is good, and success leaves the final file as the in-order join of the original segments |
| `Finalization.Workspace.RemoveDirectory` | kamrui-media-edge/camera-api/server.js:839 | the removal loop passes through every partly emptied directory |
| `Finalization.FinalizeIsGood` | kamrui-media-edge/camera-api/server.js:740-848 | no durable state of a run loses a segment that the final file does not hold, or has a final file other than the in-order concatenation |
| `Finalization.FinalizationSurvivesCrashes` | kamrui-media-edge/camera-api/server.js:740-848 | the same over any sequence of crashes and re-runs |
| `Finalization.UnvalidatedMediaIsKept` | kamrui-media-edge/camera-api/server.js:802-806 | over any crashes and re-runs in which nothing passes validation, no segment is lost and no metadata is written |
| `Finalization.FinalizeIsCautious` | kamrui-media-edge/camera-api/server.js:740-864 | every durable state of a run keeps all media or has recorded a validated final file, and the run ends recorded, concluded or failed exactly as its tools decide |
| `Finalization.FinalFileInRecordingOrder` | kamrui-media-edge/camera-api/server.js:752-785 | up to a thousand segments end up in the final file in the order they were recorded, whatever crashed |
| `Finalization.EveryCrashIsResumed` | kamrui-media-edge/camera-api/recording-safety.js:200-205 | the state file asks for resumption at every durable state of a run but the last |
| `Finalization.SuccessfulRunCompletes` | kamrui-media-edge/camera-api/server.js:740-848 | a run whose tools succeed ends with the final file, metadata, an empty directory and a cleared state file |
| `Finalization.ResumedRunCompletes` | kamrui-media-edge/camera-api/server.js:576-594 | whatever crashed before, one such run finishes the job |
| `Finalization.SegmentCountIff` | kamrui-media-edge/camera-api/server.js:817 | the recorded segment count is the original one exactly when the directory still held every segment or the recording had only one |
| `RecordingIntent.StepKeepsInv` | kamrui-media-edge/camera-api/server.js:516-733 | every step of start, failed start, stop, emergency stop, monitor, finalization and re-adoption keeps the intent invariant |
| `RecordingIntent.RunningUnitIsNamed` | kamrui-media-edge/camera-api/server.js:1301-1379 | at every point of every run, crashes included, the durable file names session, supervisor and output path of whatever unit runs, and at most one does |
| `RecordingIntent.AnyRecordingCanRun` | kamrui-media-edge/camera-api/server.js:1301-1337 | from scratch any session can be brought to a running unit that is on file, in orderly steps |
| `RecordingIntent.RunningUnitBlocksStart` | kamrui-media-edge/camera-api/server.js:1253-1255 | while a unit runs the process is down or refuses a second start |
| `RecordingIntent.RestartFindsTheUnit` | kamrui-media-edge/camera-api/server.js:576-733 | a restart re-learns the running unit, whatever supervisor is configured by then |
| `RecordingIntent.WithdrawKeepsInv` | kamrui-media-edge/camera-api/server.js:1338-1379 | after a failed start the clean-up keeps the invariant, whatever the stop answers, unless a request goes unanswered while the unit runs on |
| `RecordingIntent.StopIsSafeIff` | kamrui-media-edge/camera-api/server.js:1400-1450 | a plain stop reported as successful keeps the property exactly when the session's supervisor is the configured one, a check that only emergency-stop makes |
| `RecordingIntent.FailedDockerStartIsSafeIff` | kamrui-media-edge/camera-api/docker-recording-runtime.js:240-320 | a failed Docker start, its record cleared, keeps the property whatever the container does exactly when it failed before docker run was issued or an inspection showed the container stopped |
| `RecordingIntent.WithdrawIsSafeIff` | kamrui-media-edge/camera-api/recording-supervisor.js:307-324 | after a failed systemd start whose unit runs, the clean-up keeps the property whatever the unit does exactly when the stop request got a reply, confirmation or error |
| `RecordingIntent.UnansweredStopIsForgotten` | kamrui-media-edge/camera-api/recording-supervisor.js:238-244 | from every orderly state that is starting, the unit starts, the stop request is closed without a reply, and the file no longer names the unit |
| `RecordingIntent.FinishIsSafeIff` | kamrui-media-edge/camera-api/server.js:840-853 | a finalization finishing in the background keeps the property exactly when nothing was started meanwhile, or it fails, or it cannot clear the file |
| `RecordingIntent.OverlappingStartIsForgotten` | kamrui-media-edge/camera-api/server.js:553-563 | from every orderly state with a finalization in the background the start check admits a recording that is forgotten when the finalization succeeds |
| `RecordingIntent.DecisionToFinalizeSurvivesIff` | kamrui-media-edge/camera-api/server.js:686-693 | a decision to finalize survives a crash exactly when it did not come from a re-adoption that already cleared the file |
| `RecordingRecovery.EveryRecordingCanBeFinalized` | kamrui-media-edge/camera-api/server.js:576-735 | from every orderly state, a recording or an interrupted finalization on file can be brought to its finalization and to an idle camera by orderly steps |
| `RecordingRecovery.RunningRecordingCanBeStopped` | kamrui-media-edge/camera-api/server.js:1400-1640 | a running recording can be stopped, plainly or by emergency, and is finalized |
| `RecordingRecovery.BootDecides` | kamrui-media-edge/camera-api/server.js:576-643 | a restart resumes an interrupted finalization, asks about its own recording, holds on to another supervisor's, and is free otherwise |
| `RecordingRecovery.TickDecides` | kamrui-media-edge/camera-api/server.js:539-570 | the monitor begins a finalization exactly when the unit is inactive |
| `RecordingRecovery.ReconciliationDecides` | kamrui-media-edge/camera-api/server.js:643-705 | active units are watched, inactive ones with media finalized, without media dropped, unclear ones left |
| `RecordingRecovery.RecoveryDecides` | kamrui-media-edge/camera-api/server.js:707-733 | without a classification the supervisor's answer decides likewise |
| `RecordingRecovery.FinalizationIsOnFile` | kamrui-media-edge/camera-api/server.js:740-750 | finalization is on file before it goes on in the background, or it does not go on |
| `RecordingRecovery.FinalizationEnds` | kamrui-media-edge/camera-api/server.js:840-858 | a finalization that ends well leaves nothing on file, one that fails says so |
| `RecordingRecovery.StartDecides` | kamrui-media-edge/camera-api/server.js:1301-1325 | nothing is asked of the supervisor before the intent is on file |
| `RecordingRecovery.LaunchDecides` | kamrui-media-edge/camera-api/recording-supervisor.js:287-324 | a start goes on to confirm, to withdraw, to save, or is given up with the file cleared |
| `RecordingRecovery.ConfirmationDecides` | kamrui-media-edge/camera-api/server.js:1326-1345 | a recording is confirmed once its unit is active and watched once that is on file |
| `RecordingRecovery.WithdrawalDecides` | kamrui-media-edge/camera-api/server.js:1338-1379 | a confirmed clean-up leaves nothing, a failed one stays on file and watched |
| `RecordingRecovery.UndoDecides` | kamrui-media-edge/camera-api/server.js:1338-1379 | likewise after a recording that could not be saved |
| `RecordingRecovery.StopDecides` | kamrui-media-edge/camera-api/server.js:1400-1470 | a stopped unit is finalized, one that is not goes on being recorded |
| `ProcessStop.StopValidatedProcess` | kamrui-media-edge/camera-api/recording-safety.js:241-280 | the trace against any process table is check, SIGINT, wait, check, SIGKILL, wait, each step taken whenever the ones before allow it and with exactly the result they give; in particular every confirmed identity is signalled, a signal failure is reported only for one that was not delivered, and success exactly when the process was last seen gone |
| `ProcessStop.WaitAndKill` | kamrui-media-edge/camera-api/recording-safety.js:252-279 | the same from the SIGINT on; no SIGKILL once the process was seen gone |
| `ProcessStop.WaitUntilGone` | kamrui-media-edge/camera-api/recording-safety.js:253-260 | the wait looks, pauses and looks again until the process is gone or once past the deadline |
| `ProcessStop.StopsSeesThrough` | kamrui-media-edge/camera-api/recording-safety.js:241-280 | every such trace signals each confirmed identity, stops at the first failed signal, and succeeds exactly when it ends with the process gone |
| `ProcessStop.MatchesIff` | kamrui-media-edge/camera-api/recording-safety.js:166-170 | the string comparison is equality of all seven fields, but for a missing nonce or path against the text null |
| `DockerStop.StopContainer` | kamrui-media-edge/camera-api/docker-recording-runtime.js:350-383 | the same for any Docker daemon: the trace is look, SIGINT, wait, look, SIGKILL, wait with exactly the result it gives, and nothing is asked for an identity of another backend, image or digest or without a full container id |
| `DockerStop.WaitAndKill` | kamrui-media-edge/camera-api/docker-recording-runtime.js:363-382 | from SIGINT on: the second check comes directly before SIGKILL |
| `DockerStop.WaitUntilStopped` | kamrui-media-edge/camera-api/docker-recording-runtime.js:332-348 | the wait ends stopped, expired with the container still identified, or refused |
| `DockerStop.SendSignal` | kamrui-media-edge/camera-api/docker-recording-runtime.js:322-330 | a signal that fails counts as delivered only when the container is seen stopped |
| `DockerStop.VerdictIff` | kamrui-media-edge/camera-api/docker-recording-runtime.js:140-171 | the ordered list of fifteen checks passes exactly for a full match |
| `DockerStop.StatusIsSound` | kamrui-media-edge/camera-api/docker-recording-runtime.js:204-238 | running is reported only for a full match, stopped only for a missing or matching container that does not run |
| `DockerStop.StopsMeans` | kamrui-media-edge/camera-api/docker-recording-runtime.js:350-383 | every such trace interrupts an identified container, and succeeds exactly when it ends with the container gone |
| `DockerStop.MountIsWritableIff` | kamrui-media-edge/camera-api/docker-recording-runtime.js:145-151 | the mount checked is the first that binds the recording root onto itself |
| `PercentCoding.Utf8RoundTrip` | kamrui-media-edge/camera-api/camera-service-signature.js:25-27 | every scalar value is read back from its UTF-8 form |
| `PercentCoding.Utf8Unique` | kamrui-media-edge/camera-api/camera-service-signature.js:25-27 | no other byte sequence decodes to it: no overlong form, no surrogate |
| `PercentCoding.EncodesAllButUnreserved` | kamrui-media-edge/camera-api/camera-service-signature.js:19-23 | encodeURIComponent with its correction encodes exactly what section 2.3 of RFC 3986 does not leave unreserved |
| `PercentCoding.EncodedChars` | kamrui-media-edge/camera-api/camera-service-signature.js:19-23 | nothing encoded holds a delimiter of the query, a plus sign or a character outside the unreserved set and the percent sign |
| `PercentCoding.DecodeIff` | kamrui-media-edge/camera-api/camera-service-signature.js:25-27 | decoding yields a text exactly for the inputs that spell it: literally, with + for space, or as escaped UTF-8 in either case |
| `PercentCoding.DecodeUndoesEncode` | kamrui-media-edge/camera-api/camera-service-signature.js:19-27 | decoding undoes encoding for every text |
| `PercentCoding.EncodeInjective` | kamrui-media-edge/camera-api/camera-service-signature.js:19-23 | different texts are encoded differently |
| `QueryCanonical.CanonicalizeIdempotent` | kamrui-media-edge/camera-api/camera-service-signature.js:33-59 | a canonical target is its own canonical form |
| `QueryCanonical.SameCanonicalIff` | kamrui-media-edge/camera-api/camera-service-signature.js:33-59 | accepted targets have one canonical form exactly when they have the same path and the same multiset of decoded pairs |
| `QueryCanonical.PermutationIrrelevant` | kamrui-media-edge/camera-api/camera-service-signature.js:43-58 | permuting the query parts changes nothing, rejections included |
| `QueryCanonical.ReencodingIrrelevantIff` | kamrui-media-edge/camera-api/camera-service-signature.js:43-58 | parts that spell the same pairs are interchangeable, exactly unless one query is empty and the other a lone equals sign |
| `QueryCanonical.CanonicalizeIff` | kamrui-media-edge/camera-api/camera-service-signature.js:33-59 | a target is accepted with a given result exactly when it is valid, every part decodes, and the result is the form of its path and pairs |
| `QueryCanonical.PairsOfIff` | kamrui-media-edge/camera-api/camera-service-signature.js:43-52 | the pairs of a query are exactly those its parts spell around the first equals sign, and there are none when a part spells nothing |
| `QueryCanonical.CanonicalQueryIsRead` | kamrui-media-edge/camera-api/camera-service-signature.js:43-58 | parsing a canonical query gives back its pairs in sorted order |
| `QueryCanonical.PairLeqIsTotalOrder` | kamrui-media-edge/camera-api/camera-service-signature.js:53-57 | the comparison by name and value is a total order, so the tie on the index shows nowhere |
| `ContentTypes.NormalizeContentTypeIdempotent` | kamrui-media-edge/camera-api/camera-service-signature.js:61-81 | a normalized Content-Type is its own normal form |
| `ContentTypes.SameContentTypeIff` | kamrui-media-edge/camera-api/camera-service-signature.js:61-81 | headers normalize alike exactly when they name the same media type and the same parameters in any order |
| `ContentTypes.ParseIff` | kamrui-media-edge/camera-api/camera-service-signature.js:61-77 | a header names a media type and parameters exactly when its non-blank parts spell them in order |
| `ContentTypes.MediaTypeIff` | kamrui-media-edge/camera-api/camera-service-signature.js:64-67 | a media type is two tokens around a slash |
| `ContentTypes.ContentTypeHasNoNewline` | kamrui-media-edge/camera-api/camera-service-signature.js:61-81 | a normalized Content-Type has no newline |
| `ServiceSignature.FieldsAreOneLine` | kamrui-media-edge/camera-api/camera-service-signature.js:110-137 | none of the canonical fields can hold a newline |
| `ServiceSignature.CanonicalTextIff` | kamrui-media-edge/camera-api/camera-service-signature.js:110-137 | two requests have one canonical text exactly when all their canonical fields agree |
| `ServiceSignature.NormalizeIsFixed` | kamrui-media-edge/camera-api/camera-service-signature.js:83-108 | normalizing the normalized header fields again changes none of them |
| `ServiceSignature.HeadersAreRead` | kamrui-media-edge/camera-api/camera-service-signature.js:9-17 | each header that signing writes is the one that verifying reads, in any case |
| `ServiceSignature.OptionalHeadersAreRead` | kamrui-media-edge/camera-api/camera-service-signature.js:160-161 | so are If-Match and Content-Type, absent when empty |
| `ServiceSignature.SignedRequestVerifiesIff` | kamrui-media-edge/camera-api/camera-service-signature.js:139-231 | a signed request that arrives is accepted exactly when the time is within the skew, its key is listed and its nonce is fresh; every other answer is named |
| `ServiceSignature.SampleIsAccepted` | kamrui-media-edge/camera-api/camera-service-signature.js:139-231 | signing and verifying meet: some signed request is accepted by its receiver |
| `ServiceSignature.AcceptedRequestIsTheSignedOne` | kamrui-media-edge/camera-api/camera-service-signature.js:176-231 | an accepted request carrying a signature made for another has its method, path, query pairs, body digest, time, nonce, If-Match, Content-Type, operator, key id and key version, up to case and white space, if the HMAC does not collide |
| `ServiceSignature.AcceptedMeans` | kamrui-media-edge/camera-api/camera-service-signature.js:176-231 | whoever sent it, an accepted request is in time, signed by the first listed key it names, with a long enough secret, and has a fresh nonce |
| `ServiceSignature.SignsIff` | kamrui-media-edge/camera-api/camera-service-signature.js:139-163 | exactly the requests with a method of letters, a valid target, thirteen digits of time, a UUID, headers without line breaks and safe identifiers are signed |
| `ServiceSignature.CanonicalTextReads` | kamrui-media-edge/camera-api/camera-service-signature.js:124-137 | the signed text splits into the protocol and the ten fields in their order |
| `ServiceSignature.NumberOfDecimal` | kamrui-media-edge/camera-api/camera-service-signature.js:101-107 | the digits of a timestamp are read as the number they write |
| `ReplayProtection.CopiesKeepApart` | kamrui-media-edge/camera-api/server.js:236-262 | of two copies of one signed request let through in any run, the first came no later than the request's own time and the second at least a skew after it |
| `ReplayProtection.AtMostThreeTimes` | kamrui-media-edge/camera-api/server.js:236-262 | no signed request is let through more than three times, and three times only at exactly a skew before, at, and a skew after its own time |
| `ReplayProtection.CanReturnIff` | kamrui-media-edge/camera-api/camera-service-signature.js:182-231 | once let through, a signed request can be let through again exactly when it came no later than its own time |
| `ReplayProtection.SampleIsLetThroughTwice` | kamrui-media-edge/camera-api/server.js:236-262 | a concrete signed request and two visits, both let through |
| `ReplayProtection.LetThroughIff` | kamrui-media-edge/camera-api/camera-service-signature.js:215-229 | a request is let through exactly when everything but the nonce is accepted and the store accepts the nonce |
| `BroadcastTargets.Resolve` | server/lib/broadcast-targets.js:50-346 | the accumulating loop returns the duplicate-free targets and routes of all references in order, or the first error |
| `BroadcastTargets.Accumulator.AddRoute` | server/lib/broadcast-targets.js:61-72 | adding a route keeps targets and routes in step with everything asked for so far |
| `BroadcastTargets.Targets` | server/lib/broadcast-targets.js:54-60 | the targets are the devices of the routes, none twice |
| `BroadcastTargets.ResolutionIsUnion` | server/lib/broadcast-targets.js:126-346 | a list resolves exactly when each reference alone does, and then to the union of the single results |
| `BroadcastTargets.FirstErrorIsReported` | server/lib/broadcast-targets.js:126-346 | a failing list reports the error of its first failing reference |
| `BroadcastTargets.TargetsStayInWorkspace` | server/lib/broadcast-targets.js:126-346 | every device that any request resolves to belongs to the workspace of the request |
| `BroadcastTargets.DisplayIsReached` | server/lib/broadcast-targets.js:131-141 | a display is reached exactly when it exists in the workspace; each refusal has its own condition |
| `BroadcastTargets.DeviceGroupIsReached` | server/lib/broadcast-targets.js:143-167 | a device group reaches its members in order exactly when it is of the workspace and all its members are |
| `BroadcastTargets.WallIsReached` | server/lib/broadcast-targets.js:174-218 | a wall is addressed exactly at its current revision with members of the workspace, and reaches its members or the enabled regions of its mosaic, all bound |
| `BroadcastTargets.WallMemberIsReached` | server/lib/broadcast-targets.js:220-244 | a wall member is reached exactly on a split wall of several players |
| `BroadcastTargets.WallRegionIsReached` | server/lib/broadcast-targets.js:246-308 | a wall region is reached exactly when the first of that id is enabled, current, on the one player and bound to its layout |
| `BroadcastTargets.WallGroupIsReached` | server/lib/broadcast-targets.js:310-341 | a wall group reaches the members of the first group of that id exactly when the layout is complete |
| `BroadcastTargets.OtherKindsAreRefused` | server/lib/broadcast-targets.js:127-130 | anything else is refused |
| `BroadcastTargets.TargetsHaveRoutesIff` | server/lib/broadcast-targets.js:61-72 | the routes reach targets only, and all of them exactly when no target is shadowed: has each of its routes preceded by another device's route with the same key |
| `BroadcastTargets.PlainIdsKeepRoutes` | server/lib/broadcast-targets.js:61-72 | device ids without a colon guarantee that |
| `BroadcastTargets.RegionKeyCollides` | server/lib/broadcast-targets.js:64-66 | a database and two references, a wall region and a display, for which the resolver answers with a target that has no route |
| `BroadcastTargets.CompleteLayoutPartitions` | server/lib/broadcast-targets.js:314-327 | comparing sizes and membership decides that the groups partition the wall's members |
| `BroadcastTargets.NamingAllGroupsIff` | server/lib/broadcast-targets.js:310-341 | naming every group reaches the devices of the wall exactly when the groups have ids and no two share one |
| `BroadcastTargets.WallDevices` | server/lib/broadcast-targets.js:174-218 | naming a wall reaches all its members, mosaic or not |
| `SignalDebouncer.Debouncer.Update` | kamrui-media-edge/camera-api/live-source-health.js:47-69 | after every update the object is what the whole history of observations says |
| `SignalDebouncer.Create` | kamrui-media-edge/camera-api/live-source-health.js:25-27 | negative thresholds are refused, and nothing else |
| `SignalDebouncer.ManyFlipsTakeTime` | kamrui-media-edge/camera-api/live-source-health.js:47-69 | N flips take at least ceil(N/2) on-thresholds and floor(N/2) off-thresholds |
| `SignalDebouncer.BoundIsAttained` | kamrui-media-edge/camera-api/live-source-health.js:47-69 | the bound is attained for every N |
| `SignalDebouncer.FlipsAlternate` | kamrui-media-edge/camera-api/live-source-health.js:30-35 | the signal is available exactly after an odd number of flips |
| `RateLimiter.Limiter.Request` | kamrui-media-edge/camera-api/server.js:262-276 | the pruned list decides as the full history does, as long as the clock does not go back |
| `RateLimiter.PruningIsInvisibleIff` | kamrui-media-edge/camera-api/server.js:266-268 | pruning at one time is invisible at another exactly when that revives no pruned entry |
| `RateLimiter.AcceptancesSpanTheWindow` | kamrui-media-edge/camera-api/server.js:262-276 | any maxRequests + 1 consecutive acceptances of one key span at least the window |
| `RateLimiter.ClockGoingBackAdmitsMore` | kamrui-media-edge/camera-api/server.js:262-276 | a clock that goes back admits a request the full history refuses |

## Left out

- Express routing, response bodies, CORS, authentication tokens, idempotency caches, dashboards, schema migrations and appliance telemetry: plumbing with only easy facts.
- Concurrency inside one lease call: acquire and release are one step each, as they run synchronously in the only process that takes leases; two processes interleaving system calls are not modelled.
- SHA-256 and HMAC are functions; collisions are excluded only where a statement says so. Command hashes are compared as texts.
- ffmpeg, ffprobe, rsync, ssh, Docker, systemd and PeerTube are outcomes. A concatenation that succeeds holds its inputs in order.
- Missing and null text fields are the empty string, missing or non-numeric numbers None; playlist ids are taken as already trimmed.
- Numbers: revisions are exact up to 2^53 and a wall clock beyond it (year 2255) is not modelled; the debouncer computes over real numbers.
- Text is a sequence of Unicode scalar values: lone surrogates are not modelled, and sorting by code unit is sorting by scalar value (they differ only above U+FFFF; sorted queries and segment names are ASCII). Case folding is ASCII only.
- orderedRendererDeviceIds and the renderer classification: the configured order is a parameter of the election.
- audioPolicyHeartbeatDecision, revision-keyed playlist updates and the room-state store: read-only comparisons that no property here needs.
- The player beyond fencing, applying and its allowed check: its rejections for another content or generation are the step that blocks a page. Its clear() (server/player/index.html:682-686) forgets the floor and lets an unmanaged player fall back to its own setting; it is not modelled, as it runs only for a playlist without any policy and a session's playlists always carry one. A fresh renderer session starts blocked (server/player/audio-policy.js:150), as a page does.
- parseStoredLayout: a wall's layout, or its being invalid, is data of the wall row. Fit modes and the wall_replace flag of routes are not modelled, nor is the untyped resolver (server/lib/broadcast-targets.js:348-389).
- Broker classification of activating or deactivating units: a unit is active/running or not, "inactive" is never reported for one that runs, a stop that the broker confirms means that the unit is gone, and a unit that is inactive does not come back on its own. A request that gets no reply proves nothing.
- Pre-hardening state files (server.js:600-607): a state file always carries the fields that this version writes.
- Start handlers overlapping each other between the check and the assignment (server.js:1253 and 1301): RecordingIntent runs one handler at a time; overlap with a background finalization is modelled.
- The failed-recording copies that finalizeRecording makes after it has given up, and the media validation itself: an outcome.
- The deletion audit log: a failing append is a crash at that point. The persisted sync destination is allowed or not, as an outcome.
- The handlers that sync, upload, publish, archive, restore and remove videos are modelled on values, as the list of documents each writes; updating the parsed object in place is not visible in it. RecordingIntent is a step machine on values for the same reason that its subject is the interleaving; the shared state object is the Process record.
- RecordingIntent.RunningUnitIsNamed: holds for runs in which no start overlaps a background finalization, no plain stop meets another supervisor's unit, no Docker start fails with its container running and no stop request after a failed systemd start goes unanswered while the unit runs on; each condition is a separate theorem above.
- AudioProtocol.AtMostOneAudibleAlways: holds for runs that grant no owner over a session that escaped the fence; LateSessions.GrantIsSafeIff gives the exact condition for one grant.
- ProcessStop.StopValidatedProcess: the poll interval is at least one millisecond, as a timer's is; reading /proc is one answer.
- RecordingHistory.PublicOnlyAsAsked: holds for runs that remove no published video; RecordingHistory.RemovalKeepsCoherentIff gives the condition for one removal.
- ReplayProtection.AtMostThreeTimes: the clock does not go back, as for NonceStore.AcceptedOnce, and all requests are checked with one skew (server.js:247).
- SignalDebouncer.ManyFlipsTakeTime: observation times do not decrease.
- RateLimiter.Limiter.Request: the clock does not go back; RateLimiter.ClockGoingBackAdmitsMore shows what happens otherwise.
