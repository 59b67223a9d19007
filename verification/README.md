# Verified model of H-OpenConnect's core protocols

A Dafny 4.11 model of the hard parts of `hopenconnect_core`, with proofs over every
input, every run and every reachable state. `dafny verify dfyconfig.toml` checks it.

## What is modelled

- **Two processes own one VPN connection** (`OwnerJournal`, `StopFence`,
  `OwnershipProtocol`, `OwnershipInvariant`, `OwnershipSteps`, `OwnershipSafety`,
  `OwnershipTheorems`, `OwnershipReasons`, `OwnershipProgress`, `Undisturbed`, `Takeover`,
  `StopDelivery`, `ColdClaim`, `StrandedLease`). The journal is changed only by
  exact compare-and-swap; two exclusive leases vanish with their holder; intent epochs
  and the OS-stop fence order starts and stops. The journal is a class; the system is a
  transition system in which every journal, lease or lane access of every engine
  operation is one step, any number of UI and Extension processes interleave, any
  operation may stop with an error after any step, and a process may crash between any
  two. The sync inside those operations is the real merge of `EngineState`. The
  invariant is proved by rely and guarantee: each process proves its own steps
  (`OwnershipSteps`), and is stable under what the others guarantee
  (`OwnershipInvariant.Stable`). Besides what never happens, `OwnershipReasons` says
  why a record changes, `OwnershipProgress` when each compare-and-swap wins,
  and `Undisturbed` what an operation reaches when nobody interferes.
- **The session record and its merge** (`EngineState`; what a merge shows, in
  `MergeOutcomes`), and the **generation-fenced two-phase operations** on it
  (`SessionGeneration`, as runs and as a class; what they leave, in `SessionOutcomes`).
- **The route compiler** (`Words`, `IpPrefixes`, `RouteFragments`, `RoutePolicy`,
  `FullTunnel`): 32-bit and 128-bit addresses as bit words, the loops of `VpnOptions` as
  methods over its fields, and an independent longest-prefix policy as specification
  (section 5.1 of RFC 4632; the excluded local networks are those of section 3 of RFC
  1918 and 169.254.0.0/16). `CidrText` and `TypedRoutes` (on `Strings`) are the IPv4 text layer under it:
  what it prints stands for one prefix, which is how `RoutePolicy.RouteText` names routes.
- **The double-buffered shared-memory lane** (`FrameCodec`, `SharedLane`, `LaneRuns`,
  `PlatformIpc`, `ScrubRuns`) over a byte array, with every `read_memory` and `write_memory` an
  atomic moment, and the **cancellable wait** on its sockets (`WaitCancel`).
- **Authentication forms** (`ReplyBinding`, `AuthForms`, `FormOutcomes`) against an arbitrary server and
  an arbitrary user.

## Where the code does less than it says

- *Stop claims.* A claim whose process is not on the attempt it finds in the journal
  (a restarted UI process, or one whose attempt was cleared by `prepare_connect`)
  publishes no stop request: `OwnershipTheorems.ClaimDecides` gives the exact condition,
  `ColdClaim.ColdClaimIsSilent` a run.
- *Issuer lease.* `prepare_connect` forgets the attempt but keeps the stored issuer
  lease, and cleanup gives leases up only for the attempt that is still known. The
  process then refuses its own lease to every later start. This happens exactly when the
  call finds a stored lease (`StrandedLease.StrandedIff`, `StrandedLease.PrepareSafeIff`;
  consequence in `StrandedLease.NobodyStarts`, a run in `StrandedLease.StrandedRun`).
- *Lane atomicity.* `publish` draws its generation before it can fail. After a frame
  that is too large the next publish overwrites the slot of the newest frame, and an
  overlapping read can return neither frame (`SharedLane.TornRead`,
  `SharedLane.BurnedGenerations`).
- *Scrubbing.* `publish_snapshot` remembers the new envelope before the first publish,
  so a scrub that failed is not repeated. `PlatformIpc.ScrubIff` says exactly when both
  slots are scrubbed, `PlatformIpc.AfterFailedScrub` what the next call does about it, and
  `PlatformIpc.SecretSurvives` gives calls after which a withdrawn handoff or browser
  request stays. When every withdrawing call gets through, nothing withdrawn stays
  (`ScrubRuns.WithdrawnIsGone`).
- *Generation fence.* It is exact until the counter saturates
  (`SessionGeneration.SaturationLimit`). The authentication announcement of
  `prepare_native` is outside it: `SessionGeneration.AnnouncementEscapes` says when it
  escapes, `SessionGeneration.UnfencedAnnouncement` gives a run, and
  `SessionGeneration.FencedAnnouncement` shows that comparing the generation there is
  enough. The second section of `tick` is outside it too
  (`SessionGeneration.SurfacingEscapes`). A prepare whose first publish fails also leaves the session waiting; these are
  the only two ways (`SessionGeneration.LeftWaitingIff`). A worker carries the current
  generation when it is installed; a later operation makes it an orphan until the next
  heartbeat (`SessionGeneration.HeartbeatDropsOrphans`).
- *Cleanup flag.* `prepare_connect` takes the session back to idle and leaves the flag of
  the last attempt standing, so that an idle session can claim a cleanup; this is the
  only section that does (`SessionOutcomes.StepSettled`).
- *Terminal frames.* They take effect only when newer than what was merged
  (`EngineState.TerminalFrameTakes`): revisions follow the clock of the publishing
  process and do not survive its restart.
- *Empty forms.* The guard counts the forms that reach it; a form answered with a group
  refresh does not (`AuthForms.ThirdEmpty`).

## Model

| member | source | states |
|---|---|---|
| OwnerJournal.FenceExcludesAttachment | crates/hopenconnect_core/src/platform_owner.rs:271-340 | whichever of the stop fence and the attachment succeeds first, the other one fails on the record it leaves, and neither delete for an unattached record touches an attached one |
| OwnerJournal.OneReplacementWins | crates/hopenconnect_core/src/platform_owner.rs:346-412 | of two replacements for the same former Extension only one wins, and a delete proved against the former one then refuses |
| OwnerJournal.RetryIsIdempotent | crates/hopenconnect_core/src/platform_owner.rs:249-387 | repeating a compare-and-swap that succeeded succeeds again and changes nothing |
| OwnerJournal.EveryOperationIsAnEdge | crates/hopenconnect_core/src/platform_owner.rs:249-434 | every operation keeps a stored record valid and moves it only along the allowed edges of its life |
| OwnerJournal.RebindSucceedsIff | crates/hopenconnect_core/src/platform_owner.rs:342-387 | a rebind succeeds exactly on an attached record of that attempt and issuer naming the expected Extension or already the replacement; the record then names the replacement, and otherwise stays |
| OwnerJournal.PendingAttaches | crates/hopenconnect_core/src/platform_owner.rs:271-307 | the pending record of the attempt and issuer is attached to the Extension |
| OwnerJournal.DeletesSucceed | crates/hopenconnect_core/src/platform_owner.rs:309-434 | a pending record can be fenced or deleted, a fenced one deleted without naming an Extension, an attached one by naming its own |
| OwnerJournal.JournalFile.CreatePendingExact | crates/hopenconnect_core/src/platform_owner.rs:249-269 | succeeds exactly for a valid pending record over a missing journal or over itself; otherwise the journal is unchanged |
| OwnerJournal.JournalFile.UpgradeAttachedExact | crates/hopenconnect_core/src/platform_owner.rs:271-307 | succeeds exactly on the pending record of that attempt and issuer, or when this Extension is already attached |
| OwnerJournal.JournalFile.FencePendingStopExact | crates/hopenconnect_core/src/platform_owner.rs:309-340 | answers yes exactly when the record of that attempt and issuer is pending or already fenced, and leaves it fenced; no for any other valid call |
| OwnerJournal.JournalFile.RebindAttachedExact | crates/hopenconnect_core/src/platform_owner.rs:342-387 | replaces the Extension exactly when the record names the expected one, or accepts its own earlier success |
| OwnerJournal.JournalFile.DeleteRecordExact | crates/hopenconnect_core/src/platform_owner.rs:389-412 | removes the record exactly when attempt and Extension are the expected ones; no Extension is an exact expectation |
| OwnerJournal.JournalFile.DeletePendingExact | crates/hopenconnect_core/src/platform_owner.rs:414-434 | removes the record exactly when it is still pending for that attempt |
| StopFence.Intents.AdvanceIntent | crates/hopenconnect_core/src/engine/platform.rs:314-321 | issues the next epoch, or fails exactly at the 64-bit maximum |
| StopFence.Intents.IsStopCurrent | crates/hopenconnect_core/src/engine/platform.rs:328-340 | true exactly for the current intent with its own raised fence not in flight |
| StopFence.Intents.BeginOsStop | crates/hopenconnect_core/src/engine/platform.rs:342-367 | succeeds exactly for the current intent, on its own raised fence or as a first stop without attempt, and never twice in flight |
| StopFence.Intents.CompleteOsStop | crates/hopenconnect_core/src/engine/platform.rs:369-385 | clears the fence exactly when this stop is in flight for this attempt and epoch |
| StopFence.Intents.FailOsStop | crates/hopenconnect_core/src/engine/platform.rs:387-401 | takes exactly this stop out of flight and leaves its fence raised |
| OwnershipSteps.ActSound | crates/hopenconnect_core/src/engine/platform.rs:403-1341 | every locked step of every operation keeps the invariant of its own process and gives all others the guarantee they rely on |
| OwnershipSafety.InvAlways | crates/hopenconnect_core/src/engine/platform.rs:403-1341 | the invariant of journal, leases, engines, lanes and recoveries holds in every reachable state, with crashes anywhere |
| OwnershipTheorems.RecordLife | crates/hopenconnect_core/src/engine/platform.rs:403-491 | every step moves the record along pending, then fenced or attached and rebound, then missing; a record is created only by the holder of the issuer lease for its current intent, with the journal missing, no OS-stop fence raised and an attempt never recorded before |
| OwnershipTheorems.NeverRevived | crates/hopenconnect_core/src/platform_owner.rs:389-434 | an attempt whose record is gone never has a record again |
| OwnershipTheorems.FencedNeverAttached | crates/hopenconnect_core/src/platform_owner.rs:271-340 | no attempt is fenced at one moment of a run and attached at another, in either order |
| OwnershipTheorems.StopBeatsBind | crates/hopenconnect_core/src/engine/platform.rs:494-690 | once an attempt is fenced, no bind of it succeeds, earlier, in flight or later |
| OwnershipTheorems.ClaimDecides | crates/hopenconnect_core/src/engine/platform.rs:1211-1341 | a stop claim that succeeds raises the fence for its intent and either no bind of the attempt ever succeeds or the attempt was attached; the claimant is on the attempt with the stop requested exactly when the claim was not cold |
| OwnershipTheorems.ExtensionExclusion | crates/hopenconnect_core/src/engine/platform.rs:95-148 | at most one process holds the Extension lease from a bind, and it holds it exactly while the record names it, for the attempt it serves; the journal check of the delivered Want is what keeps a second attempt out |
| OwnershipTheorems.RebindDisplacesNobody | crates/hopenconnect_core/src/engine/platform.rs:608-640 | a recorded Extension is replaced by another one only after its process died |
| OwnershipTheorems.RecoveryDeletesOnlyProven | crates/hopenconnect_core/src/engine/platform.rs:777-963 | between a recovery's last read and its successful delete the ownership did not change, the process whose released lease was the proof is dead, and without such a proof the record named no Extension |
| OwnershipTheorems.DeleteBeatsBind | crates/hopenconnect_core/src/platform_owner.rs:389-434 | after a delete, every compare-and-swap of a bind of that attempt fails, in flight or later |
| OwnershipTheorems.FenceIsConstant | crates/hopenconnect_core/src/engine/platform.rs:342-401 | the attempt of a raised OS-stop fence does not change, over claims, retries and anything else, until that exact stop is completed |
| OwnershipTheorems.CleanupIsProof | crates/hopenconnect_core/src/engine/platform.rs:744-772 | wherever an engine or a lane says an attempt was cleaned up, its record is gone and stays gone |
| OwnershipTheorems.NoBlindReacquire | crates/hopenconnect_core/src/engine/platform.rs:595-607 | the bind branch that reacquires a lease without a compare-and-swap is never entered by a process that does not hold it |
| StopDelivery.ClaimIsPublished | crates/hopenconnect_core/src/engine/platform.rs:1281-1295 | a claim that succeeds and was not cold has the stop request for the attempt in the claimant's lane when it returns |
| StopDelivery.LaneKeepsStop | crates/hopenconnect_core/src/engine/platform.rs:2009-2066 | as long as the claimant lives on the attempt, its lane carries the request at every later moment |
| StopDelivery.HotClaimStops | crates/hopenconnect_core/src/engine/platform.rs:1211-1341 | end to end: a claim succeeded with the claimant on the attempt, and it still is; then the Extension that owns the attempt's record, attached to the claimant's lane, answers stopping from its next sync on |
| StopDelivery.TerminalReachesExtension | crates/hopenconnect_core/src/engine/platform.rs:2009-2066 | whatever the history, a terminal verdict the UI publishes makes every Extension on the attempt and lane terminal with one sync |
| StopDelivery.NextSyncStops | crates/hopenconnect_core/src/engine/platform.rs:1465-1476 | an Extension on that attempt attached to that lane answers stopping after its next sync, whatever it merges later |
| ColdClaim.ColdClaimIsSilent | crates/hopenconnect_core/src/engine/platform.rs:1271-1280 | a run in which a restarted UI process claims the stop of an attached attempt, succeeds, and no lane carries the request: the excluded case of the previous rows |
| StrandedLease.StrandedIff | crates/hopenconnect_core/src/engine/connection.rs:22-30 | a living process has a stored issuer lease without an attempt exactly when at some earlier step of its life it took `prepare_connect` with a stored lease |
| StrandedLease.PrepareSafeIff | crates/hopenconnect_core/src/engine/connection.rs:22-30 | `prepare_connect` strands the process exactly when an issuer lease is stored; none is stored for an attempt that was cleaned up, nor without an attempt unless one was forgotten before |
| StrandedLease.NobodyStarts | crates/hopenconnect_core/src/engine/platform.rs:421-462 | once stranded, a process keeps the lease while it lives and no process creates a record, even after the old attempt was recovered |
| StrandedLease.StrandedRun | crates/hopenconnect_core/src/engine/connection.rs:22-30 | a run into that state: a failed start, then the next connect |
| OwnershipInvariant.Stable | crates/hopenconnect_core/src/engine/platform.rs:403-1341 | the invariant of a process survives every step of every other process |
| OwnershipProgress.SwapWinsIff | crates/hopenconnect_core/src/engine/platform.rs:560-654 | a bind that holds the Extension lease wins its compare-and-swap exactly when the record is still the one it read; it then stores the lease, and otherwise releases it and changes nothing |
| OwnershipProgress.BindWinsIffUnchanged | crates/hopenconnect_core/src/engine/platform.rs:528-654 | over a whole run the record a bind swaps is the one its own read returned, and it wins exactly when the journal is that record again at the swap |
| OwnershipProgress.CreateWinsIff | crates/hopenconnect_core/src/engine/platform.rs:451-491 | a start creates its record exactly on a missing journal, and its session is then pending on the new attempt with the issuer lease stored |
| OwnershipProgress.FenceWinsIff | crates/hopenconnect_core/src/engine/platform.rs:1294-1341 | a claim that read a pending record fences it exactly when that attempt and issuer is not attached, and otherwise looks again |
| OwnershipProgress.CompleteWinsIff | crates/hopenconnect_core/src/engine/platform.rs:744-772 | the Extension's cleanup removes the record exactly while it names that Extension, with lease and session in the same step |
| OwnershipProgress.FailWinsIff | crates/hopenconnect_core/src/engine/platform.rs:1126-1147 | a failed start removes the record exactly while it is pending, and the session is then failed with the message and cleaned up |
| OwnershipProgress.RecoveryWinsIff | crates/hopenconnect_core/src/engine/platform.rs:902-947 | a recovery's delete succeeds exactly while the record names what the recovery proved |
| Undisturbed.StartUndisturbed | crates/hopenconnect_core/src/engine/platform.rs:403-491 | a start on a free session, a missing journal and a free lease ends with the pending record, the lease held and stored for it, and the pending session in the lane |
| Undisturbed.BindUndisturbed | crates/hopenconnect_core/src/engine/platform.rs:494-654 | a bind that finds a live frame, and a pending record under its live issuer or an attached one whose lease is free, ends with the record naming it and the lease held |
| Undisturbed.BindRecordsOwner | crates/hopenconnect_core/src/engine/platform.rs:654-690 | the last section of a bind writes the process down as owner, and a first delivery as attached and observed |
| Undisturbed.ClaimUndisturbed | crates/hopenconnect_core/src/engine/platform.rs:1211-1341 | a stop claim of the claimant's own attempt raises the fence, publishes the request, cancels a pending session, fences an unattached record and leaves an attached one |
| Undisturbed.CleanupUndisturbed | crates/hopenconnect_core/src/engine/platform.rs:694-772 | the recorded Extension's cleanup ends without record and lease, and with the cleaned-up session in the lane |
| Undisturbed.FailureUndisturbed | crates/hopenconnect_core/src/engine/platform.rs:1099-1154 | failing a pending start ends without record and lease, and with the failed session and its message in the lane |
| Undisturbed.LivenessCheck | crates/hopenconnect_core/src/engine/platform.rs:1642-1690 | the liveness check fails and publishes a session whose recorded owner let the lease go, changes nothing when the record names another one, and leaves the lease free |
| Undisturbed.RecoveryUndisturbed | crates/hopenconnect_core/src/engine/platform.rs:777-963 | a fenced record, or a pending one stopped before any attachment, is deleted at once; otherwise exactly when the owner's lease is free, while the owner holding it sends the recovery back to its start and another holder ends it |
| Undisturbed.RecoveredSession | crates/hopenconnect_core/src/engine/platform.rs:913-944 | a recovered session is cleaned up, quiet and without leases, cancelled unless it had failed |
| Takeover.SecondExtensionTakesOver | crates/hopenconnect_core/src/engine/platform.rs:607-654 | a run in which an Extension attaches and dies, and a second one is delivered the attempt, rebinds the record and owns it |
| OwnershipReasons.CreationIsFree | crates/hopenconnect_core/src/engine/platform.rs:418-428 | over a whole run a record is created only by a session that neither runs nor is pending and whose last attempt was cleaned up, so that its record is gone for good |
| OwnershipReasons.BindSawReason | crates/hopenconnect_core/src/engine/platform.rs:560-628 | over a whole run a bind locks, writes and swaps only after it saw a pending record's issuer lease held for that attempt, or an attached record's Extension lease free |
| OwnershipReasons.FenceHasReason | crates/hopenconnect_core/src/engine/platform.rs:1211-1341 | over a whole run a record is fenced only by a stop claim of the claimant's current intent, with no other stop under way and the request already raised in a session of that attempt; the OS-stop fence goes up in the same step |
| OwnershipReasons.DeletionHasReason | crates/hopenconnect_core/src/engine/platform.rs:694-1154 | over a whole run a record is deleted only by the Extension it names once its session is over and quiet, while pending by a session pending on it and unattached, or by a recovery of that attempt with its proof |
| EngineState.MergeKeepsSettled | crates/hopenconnect_core/src/engine/platform.rs:1747-2007 | after any merge a terminal session is not running and only a terminal one is cleaned up |
| EngineState.MergeProgress | crates/hopenconnect_core/src/engine/platform.rs:1747-2007 | one merge never lowers the remote revision, never drops a terminal outcome, stop request or delivery of the same attempt, and changes the attempt only for an Extension that expects it |
| EngineState.MergeCleanupOrigin | crates/hopenconnect_core/src/engine/platform.rs:1872-1909 | a cleanup flag after a merge was there before or came with a terminal frame of that attempt |
| EngineState.MergeAllSound | crates/hopenconnect_core/src/engine/platform.rs:1747-2007 | the same over any sequence of frames in any order |
| EngineState.TerminalFrameTakes | crates/hopenconnect_core/src/engine/platform.rs:1806-1896 | a terminal frame of the same attempt makes the session terminal exactly when it is newer than what was merged, the session was terminal already, or the watchdog expires |
| EngineState.TerminalSpreads | crates/hopenconnect_core/src/engine/platform.rs:2009-2066 | whatever a terminal engine publishes next makes the other side terminal with one merge, unless that side already saw a later revision |
| EngineState.StopRequestAnswered | crates/hopenconnect_core/src/engine/platform.rs:1465-1495 | a newer UI frame with a stop request makes the Extension answer stopping from then on |
| MergeOutcomes.RunningPeer | crates/hopenconnect_core/src/engine/platform.rs:1863-1964 | news of a running peer: the session runs, a pending one is connected, a waiting view comes up, any other view stays |
| MergeOutcomes.StartingPeer | crates/hopenconnect_core/src/engine/platform.rs:1883-1969 | news of a starting peer: starting, and establishing unless up or broken; a failure report still fails a pending session |
| MergeOutcomes.QuietPeer | crates/hopenconnect_core/src/engine/platform.rs:1883-2004 | news of a peer that neither runs nor starts: a failure report breaks the view with the peer's error, a settled disconnected peer takes an up or establishing session down, anything else leaves the view |
| MergeOutcomes.OwnWorkerKeepsUp | crates/hopenconnect_core/src/engine/platform.rs:1911-1964 | while the own worker runs, news of a peer that is not over show the session up and never fail it |
| MergeOutcomes.FailedPeer | crates/hopenconnect_core/src/engine/platform.rs:1872-1990 | news that the attempt failed: failed, quiet, the frame's cleanup and attachment, and an active view broken with the frame's error |
| MergeOutcomes.CancelledPeer | crates/hopenconnect_core/src/engine/platform.rs:1872-1976 | news that the attempt was cancelled: cancelled, quiet, and disconnected unless broken |
| MergeOutcomes.LatePeer | crates/hopenconnect_core/src/engine/platform.rs:1864-2004 | news of a peer that is not over leave a session that is over as it is, but for the attachment and the error it shows |
| MergeOutcomes.NewsCarries | crates/hopenconnect_core/src/engine/platform.rs:1806-1909 | what news do to the rest: stop request and delivery are collected, the owner's identity reaches the UI only, leases go with the cleanup, the UI gives up its client |
| MergeOutcomes.ForeignFrame | crates/hopenconnect_core/src/engine/platform.rs:1756-1802 | a frame of another attempt changes nothing unless an Extension expects it |
| MergeOutcomes.ExpectedFrame | crates/hopenconnect_core/src/engine/platform.rs:1770-1802 | an expected attempt is taken over under a new generation, starting if the peer is, over if the peer's is |
| MergeOutcomes.OldFrame | crates/hopenconnect_core/src/engine/platform.rs:1806-1860 | a frame that is not newer moves only the UI's client and the watchdog's clock, until 15 and then 6 seconds of silence fail and break the session |
| MergeOutcomes.UpSpreads | crates/hopenconnect_core/src/engine/platform.rs:2009-2066 | one sync after an Extension came up, the UI's pending session is connected, runs, shows itself up and knows the owner |
| MergeOutcomes.FailureSpreads | crates/hopenconnect_core/src/engine/platform.rs:2009-2066 | one sync after an Extension failed, a UI that waited or was up shows the Extension's error |
| MergeOutcomes.TickAnswers | crates/hopenconnect_core/src/engine/platform.rs:1465-1495 | the answer of each tick, from the fields of the session |
| SessionGeneration.CountsAlways | crates/hopenconnect_core/src/engine/connection.rs:17-54 | while fewer than 2^64 operations have begun, the generation counts them and identifies the operation that drew it |
| SessionGeneration.FenceHolds | crates/hopenconnect_core/src/engine/connection.rs:51-439 | a commit phase or a worker callback changes the session only if no other operation began since its first phase |
| SessionGeneration.InstalledIsCurrent | crates/hopenconnect_core/src/engine/connection.rs:262-300 | a worker is installed only with the current generation and attempt |
| SessionGeneration.DisconnectWins | crates/hopenconnect_core/src/engine/connection.rs:351-427 | after a disconnect began, nothing that began before it commits |
| SessionGeneration.HeartbeatDropsOrphans | crates/hopenconnect_core/src/engine/connection.rs:504-550 | after its heartbeat the Extension runs no worker but its current one, and a current one is untouched |
| SessionGeneration.SaturationLimit | crates/hopenconnect_core/src/engine/connection.rs:217-230 | the fence separates two operations exactly while the generation is below the 64-bit maximum |
| SessionGeneration.AnnouncementEscapes | crates/hopenconnect_core/src/engine/connection.rs:685-695 | the announcement of authentication changes the session after another operation began exactly when its generation is not current and authentication is not announced yet |
| SessionGeneration.LeftWaitingIff | crates/hopenconnect_core/src/engine/connection.rs:7-54 | a UI session waits although no prepare will commit exactly when an announcement was stale, or the current prepare of a waiting session failed its first publish, and no later step ended the wait: no commit of its generation, disconnect, end of its worker, or frame that changes the view |
| SessionGeneration.FencedAnnouncement | crates/hopenconnect_core/src/engine/connection.rs:685-695 | in runs without stale announcements they respect the fence, and the session authenticates only while its prepare will commit |
| SessionGeneration.SurfacingEscapes | crates/hopenconnect_core/src/engine/connection.rs:571-615 | the second section of `tick` takes a finished worker out after another operation began exactly when that worker is not of the current generation |
| SessionGeneration.SurfacedErrorStops | crates/hopenconnect_core/src/engine/connection.rs:571-615 | surfacing an error makes every attach and Extension prepare in flight commit nothing |
| SessionGeneration.SessionEngine.SurfaceFinishedWorker | crates/hopenconnect_core/src/engine/connection.rs:571-615 | a finished worker ends the session by its error and by ownership, whatever its generation |
| SessionGeneration.UnfencedAnnouncement | crates/hopenconnect_core/src/engine/connection.rs:685-700 | a run in which a disconnect begins, the stale announcement follows it, and the session ends authenticating with no attempt, client, worker or operation in flight |
| SessionGeneration.SessionEngine.ApplyPlatformEnvelope | crates/hopenconnect_core/src/engine/platform.rs:1747-2007 | the branches of the merge, in their order, compute the merge of the record and the frame |
| SessionGeneration.SessionEngine.HeartbeatWatchdogExpired | crates/hopenconnect_core/src/engine/platform.rs:2183-2208 | the watchdog expires only after a second interval of observed staleness and touches nothing but the link |
| SessionGeneration.SessionEngine.DisconnectBegin | crates/hopenconnect_core/src/engine/connection.rs:358-392 | starts exactly for the expected attempt unless already disconnected, takes both native resources and draws the generation to come back with |
| SessionGeneration.SessionEngine.AttachBegin | crates/hopenconnect_core/src/engine/connection.rs:217-227 | takes the pending client and draws a generation |
| SessionGeneration.SessionEngine.AttachCommit | crates/hopenconnect_core/src/engine/connection.rs:262-312 | installs the worker exactly for the current generation and attempt, from a connecting lifecycle, and not after a terminal outcome |
| SessionGeneration.SessionEngine.OnNativeSessionEnded | crates/hopenconnect_core/src/engine/connection.rs:431-479 | a worker of an older generation changes nothing; a current one ends the session by outcome, error and ownership |
| SessionOutcomes.AttachInstalls | crates/hopenconnect_core/src/engine/connection.rs:262-312 | an attach commit installs exactly for its own generation and attempt, not over, from a waiting view; a pending session is then connected, running with this worker and up |
| SessionOutcomes.HeartbeatKeepsAttach | crates/hopenconnect_core/src/engine/connection.rs:504-550 | the next heartbeat leaves a successful attach alone |
| SessionOutcomes.HeartbeatDrops | crates/hopenconnect_core/src/engine/connection.rs:504-550 | a heartbeat drops exactly a worker of another attempt or generation or of an attempt that is over, with everything that ran |
| SessionOutcomes.AttachReachesUi | crates/hopenconnect_core/src/engine/connection.rs:300-316 | one sync after a pending session attached, the UI's pending session is connected, running and up |
| SessionOutcomes.ExtensionComesUp | crates/hopenconnect_core/src/engine/connection.rs:155-316 | an undisturbed Extension resumes the session, attaches the device and comes up connected with the worker of that client |
| SessionOutcomes.PrepareUndisturbed | crates/hopenconnect_core/src/engine/connection.rs:17-126 | an undisturbed prepare ends establishing with its client, or broken with its message and ready for the next one |
| SessionOutcomes.ExtensionPrepareUndisturbed | crates/hopenconnect_core/src/engine/connection.rs:155-205 | an undisturbed Extension prepare keeps its client exactly on its own attempt that is not over |
| SessionOutcomes.DisconnectUndisturbed | crates/hopenconnect_core/src/engine/connection.rs:351-427 | a disconnect leaves no client and no worker, asks for the stop, cancels unless failed, and undisturbed ends disconnected and ready for the next prepare |
| SessionOutcomes.WorkerEnds | crates/hopenconnect_core/src/engine/connection.rs:431-489 | the end of the current worker leaves nothing native; a session not over fails with the error, fails without one when connected and running, and is cancelled when pending |
| SessionOutcomes.FinishedIsSurfaced | crates/hopenconnect_core/src/engine/connection.rs:571-615 | a finished worker is taken out; an error or a connected running session fails, any other is disconnected with its outcome kept |
| SessionOutcomes.OverNeverRuns | crates/hopenconnect_core/src/engine/connection.rs:7-615 | over any run of operations, worker callbacks and frames a failed or cancelled session does not run |
| SessionOutcomes.StepSettled | crates/hopenconnect_core/src/engine/connection.rs:22-30 | every locked section keeps the session settled, except exactly a prepare on a session whose last attempt was cleaned up |
| SessionOutcomes.SettledAlways | crates/hopenconnect_core/src/engine/connection.rs:7-615 | the same over whole runs without such a prepare |
| IpPrefixes.IpPrefix.Subtract | crates/hopenconnect_core/src/model.rs:1182-1203 | terminates on the remaining prefix bits and yields prefixes with zero host bits |
| IpPrefixes.SubtractLoop | crates/hopenconnect_core/src/model.rs:1182-1203 | the loop over the two children computes that recursive subtraction |
| IpPrefixes.ContainsIsLeadingBits | crates/hopenconnect_core/src/model.rs:1170-1180 | masked comparison is comparison of the leading bits, in one family |
| IpPrefixes.ChildrenSplit | crates/hopenconnect_core/src/model.rs:1205-1236 | the two children partition the addresses of their parent |
| RouteFragments.CarveIsBlocks | crates/hopenconnect_core/src/model.rs:1066-1088 | subtracting excludes one after another yields the same list as one split along all of them, so their order cannot matter |
| RouteFragments.BlocksExact | crates/hopenconnect_core/src/model.rs:1066-1088 | an address is in a fragment exactly when it is in the include and in no exclude |
| RouteFragments.BlocksMaximal | crates/hopenconnect_core/src/model.rs:1182-1203 | every prefix inside the include that avoids the excludes lies in one fragment |
| RouteFragments.BlocksAscending | crates/hopenconnect_core/src/model.rs:1182-1203 | fragments are ascending and pairwise disjoint |
| RouteFragments.BlocksBound | crates/hopenconnect_core/src/model.rs:1066-1088 | n excludes leave at most 1+31n IPv4 or 1+127n IPv6 fragments |
| RoutePolicy.FragmentsCanonical | crates/hopenconnect_core/src/model.rs:1066-1088 | ascending, disjoint, maximal and bounded for the excludes applicable to one include |
| RoutePolicy.CompiledExact | crates/hopenconnect_core/tests/route_policy_regression.rs:28-42 | an address of either family is in a compiled route exactly when its longest matching include is longer than its longest matching exclude |
| RoutePolicy.CompiledEmpty | crates/hopenconnect_core/src/model.rs:1087-1098 | nothing is compiled exactly when no address of any family qualifies |
| RoutePolicy.CompiledOrderIndependent | crates/hopenconnect_core/src/model.rs:1066-1088 | excludes with the same elements, in any order and with repetitions, give the identical list |
| RoutePolicy.DnsRoutesIdempotent | crates/hopenconnect_core/src/model.rs:1008-1034 | adding the DNS host routes twice is adding them once |
| RoutePolicy.DnsRoutesInFront | crates/hopenconnect_core/src/model.rs:1008-1034 | different literal resolvers that are not listed yet come first, in server order, and the list follows unchanged |
| Lists.UniqueKeepsFirst | crates/hopenconnect_core/src/model.rs:1101-1118 | deduplication keeps the first occurrences, in their order |
| RoutePolicy.NormalizedFacts | crates/hopenconnect_core/src/model.rs:1101-1118 | normalizing drops what does not parse and duplicates, keeps order, and repeats to itself |
| RoutePolicy.VpnOptions.FromNetwork | crates/hopenconnect_core/src/model.rs:884-991 | default, custom or server routes by the profile's split mode, local networks excluded only with a default route, DNS host routes first |
| RoutePolicy.VpnOptions.ApplyForceGlobal | crates/hopenconnect_core/src/model.rs:993-1006 | nothing without force; otherwise exactly the default routes and the DNS host routes, without bypass |
| RoutePolicy.VpnOptions.PushDnsHostRoutes | crates/hopenconnect_core/src/model.rs:1008-1034 | the backward loop puts missing host routes in front, in server order |
| RoutePolicy.VpnOptions.NormalizeRoutes | crates/hopenconnect_core/src/model.rs:1101-1118 | both lists become the normal forms of their parsable routes, first occurrences in order |
| RoutePolicy.VpnOptions.MaterializeExcludedRoutes | crates/hopenconnect_core/src/model.rs:1036-1098 | fails exactly on the first unparsable include, then exclude, and leaves the options alone; otherwise the routes are the compiled policy and no exclude is left |
| RoutePolicy.VpnOptions.CompileLoop | crates/hopenconnect_core/src/model.rs:1066-1090 | the nested loops with their early exit compute the compiled policy |
| FullTunnel.WinsIsPolicy | crates/hopenconnect_core/tests/route_policy_regression.rs:28-42 | longest include against longest exclude is the same as an include that every matching exclude is shorter than |
| FullTunnel.FullTunnelCovers | crates/hopenconnect_core/src/model.rs:977-1027 | a full tunnel routes exactly the IPv4 addresses outside every exclude, plus each literal IPv4 DNS server not itself excluded as a host route |
| FullTunnel.ResumeRoutes | crates/hopenconnect_core/src/native_session.rs:1340-1355 | from the network snapshot to the compiled routes, mode by mode over the policy's fields and for both families: everything and the resolvers for a full tunnel; the custom list with the server's resolvers, or with none at all; else the server's list and its resolvers; failure only when no address qualifies |
| FullTunnel.LocalByOctets | crates/hopenconnect_core/src/model.rs:325-334 | the networks a full tunnel leaves out for the local network are 10.x, 172.16 to 172.31, 192.168 and 169.254, and no other address |
| CidrText.Ipv4NetmaskPrefix | crates/hopenconnect_core/src/model.rs:1325-1343 | the loop over the four octets accepts a dotted mask and returns its length as the mask test says |
| CidrText.NetmaskExact | crates/hopenconnect_core/src/model.rs:1325-1343 | a dotted mask is accepted exactly when its 32-bit value is the prefix mask of the length returned |
| CidrText.Ipv4NetworkCidr | crates/hopenconnect_core/src/model.rs:1346-1369 | up to four octets, missing ones zero, host bits cleared and printed |
| CidrText.NormalizedIsCanonical | crates/hopenconnect_core/src/model.rs:1264-1308 | every IPv4 result prints a prefix with zero host bits |
| CidrText.NormalizingIsIdempotent | crates/hopenconnect_core/src/model.rs:1264-1308 | a normalized IPv4 route normalizes to itself and parses as a prefix |
| CidrText.PrintedIsFixedPoint | crates/hopenconnect_core/src/model.rs:1126-1154 | the strict parser reads back the very prefix that was printed, so the second parse cannot fail |
| CidrText.MaskAndLengthAlike | crates/hopenconnect_core/src/model.rs:1293-1307 | a dotted mask and its prefix length normalize alike, whatever the host text |
| CidrText.PrintIsInjective | crates/hopenconnect_core/src/model.rs:1238-1244 | different prefixes print differently |
| TypedRoutes.BareAddress | crates/hopenconnect_core/src/model.rs:1264-1280 | a bare address becomes its own text with /32 and parses as that very address |
| TypedRoutes.HostWithLength | crates/hopenconnect_core/src/model.rs:1281-1308 | a host with a length becomes the prefix of that length holding the typed address; a length over 32 is refused |
| TypedRoutes.AbbreviatedHost | crates/hopenconnect_core/src/model.rs:1346-1369 | one, two or three octets stand for the address with zeros after them; a fifth octet is refused |
| FrameCodec.HeaderLayout | crates/hopenconnect_core/src/platform_ipc.rs:281-290 | the 32 header bytes: magic, version, generation, length and checksums from their low byte up, and zeros |
| FrameCodec.KnownChecksums | crates/hopenconnect_core/src/platform_ipc.rs:836-840 | the checksum of nothing and of the letter a |
| FrameCodec.StepInjectiveInState | crates/hopenconnect_core/src/platform_ipc.rs:836-840 | one checksum step is injective in the 32-bit state |
| FrameCodec.StepInjectiveInByte | crates/hopenconnect_core/src/platform_ipc.rs:836-840 | one checksum step is injective in the byte |
| FrameCodec.OneByteChangesChecksum | crates/hopenconnect_core/src/platform_ipc.rs:836-840 | changing one byte always changes the checksum |
| FrameCodec.HeaderRoundTrip | crates/hopenconnect_core/src/platform_ipc.rs:710-729 | an encoded header parses back to generation, length and payload checksum |
| FrameCodec.HeaderTamper | crates/hopenconnect_core/src/platform_ipc.rs:710-729 | changing any one of the first 28 header bytes makes the header unparsable |
| SharedLane.PayloadTamper | crates/hopenconnect_core/src/platform_ipc.rs:328-344 | a one-byte change in the payload of a stored frame makes the read of its slot return nothing |
| SharedLane.ReadFrameLoop | crates/hopenconnect_core/src/platform_ipc.rs:328-344 | the retry loop returns the frame of the first attempt whose checksum fits |
| SharedLane.ReadLaneLoop | crates/hopenconnect_core/src/platform_ipc.rs:294-312 | the loop over the slots returns the larger generation |
| SharedLane.ReadIsAtomic | crates/hopenconnect_core/src/platform_ipc.rs:294-344 | a read that overlaps at most one publish, even one cut off between two writes, returns the last completed frame or the new one, with no assumption about checksum collisions |
| SharedLane.PublishOutcome | crates/hopenconnect_core/src/platform_ipc.rs:259-292 | a completed publish is the newest frame; an abandoned one that spared the newest slot leaves the newest frame in place |
| SharedLane.SeedSparesNewest | crates/hopenconnect_core/src/platform_ipc.rs:252-257 | the generation seeded from the headers selects the slot that does not hold the newest frame |
| SharedLane.AtomicIffSparesNewest | crates/hopenconnect_core/src/platform_ipc.rs:222-292 | overlapping reads are atomic exactly when the publish targets the slot without the newest frame |
| SharedLane.BurnedGenerations | crates/hopenconnect_core/src/platform_ipc.rs:222-264 | while the lane carries its newest frame, after publishes refused before any memory write the next one is atomic exactly when their number is even |
| LaneRuns.CarriesSoFar | crates/hopenconnect_core/src/platform_ipc.rs:222-292 | over runs of completed, refused and cut-off publishes and re-attachments, as long as publishes spare the newest frame the lane carries it and the next generation is off by the burned ones |
| LaneRuns.SparesIffEvenlyBurned | crates/hopenconnect_core/src/platform_ipc.rs:222-292 | all publishes of a run spare the newest frame exactly when before each of them none was completed or an even number of generations was burned since the last completed one or re-attachment |
| LaneRuns.EveryPublishAtomic | crates/hopenconnect_core/src/platform_ipc.rs:252-344 | in such a run every publish is atomic for every read that overlaps it alone |
| LaneRuns.ReseedingSuffices | crates/hopenconnect_core/src/platform_ipc.rs:252-257 | attaching again after each burned generation makes a run such a run |
| PlatformIpc.LayoutDisjoint | crates/hopenconnect_core/src/platform_ipc.rs:731-739 | the four slots and the region header do not overlap and fill the region |
| PlatformIpc.WriteKeepsClean | crates/hopenconnect_core/src/platform_ipc.rs:259-292 | a completed frame leaves itself and zeros in a clean slot |
| PlatformIpc.PlatformIpc.SeedNextGeneration | crates/hopenconnect_core/src/platform_ipc.rs:252-257 | resumes one after the newest header of the own lane, saturating, or at one |
| PlatformIpc.PlatformIpc.WriteFrame | crates/hopenconnect_core/src/platform_ipc.rs:259-292 | the memory goes through exactly the moments payload, zeroing, header; too large a frame touches nothing |
| PlatformIpc.PlatformIpc.Publish | crates/hopenconnect_core/src/platform_ipc.rs:222-227 | consumes a generation whatever happens, and writes only into the slot of that generation |
| PlatformIpc.CallsKeepClean | crates/hopenconnect_core/src/platform_ipc.rs:150-190 | over any sequence of publishing calls, failed ones included, every byte past a slot's content stays zero |
| PlatformIpc.SnapshotFacts | crates/hopenconnect_core/src/platform_ipc.rs:150-178 | what one call leaves in each slot, in the remembered envelope and in the generation, for every failure |
| PlatformIpc.ScrubIff | crates/hopenconnect_core/src/platform_ipc.rs:150-178 | withdrawing a handoff or browser request leaves the new envelope and zeros in both slots exactly when it fits and the first notification gets through; otherwise the slot that keeps the old content is untouched |
| PlatformIpc.AfterFailedScrub | crates/hopenconnect_core/src/platform_ipc.rs:363-377 | the call after a failed scrub does not scrub; it overwrites the old content after a failed notification, and leaves it in one slot after an envelope that was too large |
| PlatformIpc.SecretSurvives | crates/hopenconnect_core/src/platform_ipc.rs:363-377 | four calls from a fresh lane after which everything is published and withdrawn, and one slot holds the handoff or the browser request |
| PlatformIpc.PlatformIpc.PublishSnapshot | crates/hopenconnect_core/src/platform_ipc.rs:150-178 | the lane, the remembered envelope and the generation become what the call is specified to leave; the rest of the memory does not change |
| PlatformIpc.PlatformIpc.PublishState | crates/hopenconnect_core/src/platform_ipc.rs:180-190 | the same for a publish of the state alone |
| ScrubRuns.WithdrawalClearsBothSlots | crates/hopenconnect_core/src/platform_ipc.rs:150-178 | a browser request, or a handoff, that was remembered and is missing from the new envelope: a call that fits and is notified once leaves the new envelope and zeros in both slots |
| ScrubRuns.OtherwiseOneSlot | crates/hopenconnect_core/src/platform_ipc.rs:150-178 | a call that withdraws nothing writes one slot and draws one generation |
| ScrubRuns.StateKeepsTheRest | crates/hopenconnect_core/src/platform_ipc.rs:180-190 | a state-only publish carries the remembered handoff and request along, in one slot |
| ScrubRuns.WithdrawnIsGone | crates/hopenconnect_core/src/platform_ipc.rs:150-190 | over any run in which every withdrawing call fits and is notified, no slot holds a handoff or browser request the remembered envelope does not carry, whatever else fails |
| WaitCancel.NoLostCancellation | crates/hopenconnect_core/src/platform_ipc.rs:577-678 | no reachable state has a cancellable waiter parked with the flag raised, no byte in the socket and no canceller about to send; cancelled returns never outnumber raised flags |
| WaitCancel.CancellationDelivered | crates/hopenconnect_core/src/platform_ipc.rs:577-678 | wherever a cancellable wait stands, with the flag raised and no send outstanding, the waiter's own steps end in one cancelled return and leave no flag behind |
| ReplyBinding.ApplyCredentialsToFields | crates/hopenconnect_core/src/auth_bridge.rs:267-309 | option by option: who owns it, its value and whether it is required |
| ReplyBinding.CredentialsStayPrimary | crates/hopenconnect_core/src/auth_bridge.rs:267-309 | credentials reach no follow-up form, second factor or hidden option, the password at most one option, and no option has two owners |
| ReplyBinding.FieldsForUserInput | crates/hopenconnect_core/src/auth_bridge.rs:311-328 | the user-owned options, in form order |
| ReplyBinding.BindReplyValuesByOption | crates/hopenconnect_core/src/auth_bridge.rs:346-372 | binds exactly when the reply keys are a subsequence of the field keys, and replaces exactly the values the scan matched |
| ReplyBinding.BindsIffSubsequence | crates/hopenconnect_core/src/auth_bridge.rs:346-372 | the greedy scan matches all keys exactly when some in-order matching exists |
| ReplyBinding.UiReplyBinds | crates/hopenconnect_ui/src/state.rs:570-587 | with distinct keys every reply the UI builds binds, and changes exactly the options that were asked for and answered |
| ReplyBinding.ProfileSurvivesReply | crates/hopenconnect_core/src/auth_bridge.rs:267-372 | from the server's form to the bound values a profile credential is never overwritten |
| AuthForms.AuthFormState.ConfiguredAuthGroupIndex | crates/hopenconnect_core/src/native_session.rs:775-790 | first choice by protocol value, by label only if no choice has the value |
| AuthForms.AuthFormState.ApplyConfiguredAuthGroup | crates/hopenconnect_core/src/native_session.rs:796-846 | applies the saved group and asks for one refreshed form when the selection changes |
| AuthForms.AuthFormState.AcceptOneForm | crates/hopenconnect_core/src/native_session.rs:865-874 | resets or advances the saturating counter and refuses from three on |
| AuthForms.AuthFormState.HandleAuthForm | crates/hopenconnect_core/src/native_session.rs:622-770 | group, empty-form guard, credentials, replay guard, user, binding and recording in that order |
| AuthForms.NeverReplayed | crates/hopenconnect_core/src/native_session.rs:650-680 | against any server no form identity is submitted automatically twice |
| AuthForms.FingerprintIgnoresValues | crates/hopenconnect_core/src/native_session.rs:905-929 | the identity of a form depends on no value in it |
| AuthForms.OneRefresh | crates/hopenconnect_core/src/native_session.rs:856-863 | a session asks for a refreshed group at most once |
| AuthForms.EmptyFormsEnd | crates/hopenconnect_core/src/native_session.rs:865-874 | a form that reaches the guard is refused exactly when it and the two that reached it before all had no input, and only accepted forms are submitted |
| FormOutcomes.FingerprintDistinguishes | crates/hopenconnect_core/src/native_session.rs:905-929 | two forms are the same to the replay guard exactly when their names and the positions and digests of their options agree |
| FormOutcomes.GroupSelected | crates/hopenconnect_core/src/native_session.rs:775-790 | the saved group selects a choice exactly when it is the first with that protocol value or, without one, the first with that label |
| FormOutcomes.GroupDecides | crates/hopenconnect_core/src/native_session.rs:796-863 | the group step fails exactly for an unknown or refused group, asks for the refreshed form exactly on the first differing selection, and changes only its own mark |
| FormOutcomes.FilledIn | crates/hopenconnect_core/src/auth_bridge.rs:267-309 | user name and password go to their own spots, everything else keeps the server's value, and which options stay required |
| FormOutcomes.AutomaticIff | crates/hopenconnect_core/src/auth_bridge.rs:324-335 | a form is answered without the user exactly when every option is hidden, or neither follow-up nor second factor and has a value once the profile is applied |
| FormOutcomes.ProfileAnswers | crates/hopenconnect_core/src/native_session.rs:649-692 | such a form is submitted and remembered the first time and refused when it comes back, whoever the user is |
| FormOutcomes.UserAnswers | crates/hopenconnect_core/src/native_session.rs:692-770 | any other form is cancelled without a user or by one, fails when there is nothing to ask, and is otherwise submitted exactly when the answers name options in form order and the library takes them |
| FormOutcomes.HiddenFollowUp | crates/hopenconnect_core/src/native_session.rs:767-768 | a submitted follow-up form is remembered as hidden exactly when it had no input of its own |
| AuthForms.SessionIsBounded | crates/hopenconnect_core/src/native_session.rs:622-770 | without a user a server gets at most one answer per different form, plus the group refresh |

## Left out

- Each engine operation of the ownership protocol is a sequence of steps and not a class method: other processes act between its journal, lease and lane accesses, which one method body cannot show. The class form is kept where one lock covers the whole operation (`OwnerJournal.JournalFile`, `StopFence.Intents`, `SessionGeneration.SessionEngine`).
- OwnershipProtocol.BindStarts: an Extension that still holds a lease binds another attempt only for a Want validated against the journal after that lease was attached. Every Want is validated before it is bound, one with descriptors in the same request. For a descriptor-free one another bind may come between; the Ability then destroys what that bind attached first, unless the bind failed after its compare-and-swap, which the model leaves out.
- OwnershipProtocol.Act: begin, claim, recover, `prepare_connect` and the liveness check run in UI processes, and bind and cleanup acknowledgement in Extensions, as VpnPlugin.ets, the UI crate and the Extension Ability call them; failing an unattached start runs in both. The engine checks the role only for binding and for the liveness check.
- Revisions are unbounded (128-bit nanoseconds in the code); intent epochs are bounded as in the code.
- Attempt ids are drawn unused, and a process identity (boot id, pid, start time) is never reused.
- Files: a journal or lease operation is atomic and durable; partial writes, fsync and lock-file errors, version fields and unparsable journals are not modelled.
- `set_platform_vpn_running`, `set_platform_vpn_starting` and the other unguarded setters: in the ownership protocol they are covered by the step that may change anything but attempt, leases, cleanup and a stop request; the runs of `SessionGeneration` do not contain them.
- `acknowledge_terminal_platform_vpn_start_delivery`, browser requests and their acknowledgements, and the age of handoffs: not part of this model.
- EngineState.HeartbeatLost: the code publishes the watchdog verdict inside the merge; in the model the lane gets it with a later publish, which any process may take at once.
- EngineState.Merge: leaves out statistics, network settings and diagnostics, which no modelled decision reads.
- SharedLane.ReadIsAtomic: at most one publish overlaps the read; with more the code relies on the checksum. One writer per lane.
- SharedLane.AtomicIffSparesNewest: stated for a newest frame with content, as every serialized envelope has.
- `initialize_region` and `validate_region`, the region header, and file-descriptor plumbing: not part of this model.
- JSON is a function of the envelope; IPv6 text is `CidrText.Six`, and `RoutePolicy` takes IPv6 routes as prefixes.
- Socket calls in `wait_internal` are reduced to wake bytes, a flag and a peer; timeouts are a nondeterministic end of a wait.
- The OpenConnect library, TLS, tunnels and TUN descriptors; a native session is a token with an attempt and a generation.
- `SecurId` and TOTP tokens, browser sign-in, the digest inside an option key, and waiting for a reply in `AuthInteraction`: a user answers, cancels or is absent.
- `vpn_handoff.rs`, `log_recording.rs`, profiles, preferences, UI views and scripts would only add easier members.
