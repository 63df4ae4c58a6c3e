# Waiting room: verified model of the control plane

This project models the control plane of the waiting room in Dafny and proves what it promises over every run of its
state machines. Each component has pure transition functions, which state what one transaction or call does, and,
where the original updates state in place or loops, an imperative form (a class or a method) proved equal to them.

- **Configuration trust** (`ConfigTrust`): the signed-snapshot gate of a data-plane node, its durable high-water mark
  and its clock quarantine, across failed saves, crashes and reopens.
- **Key rotation** (`Keyring`, `Rotation`, `RotationTiming`, `RotationStale`): stage, activate, retire and revoke, with a crash between
  any two writes; signer and verifiers stay compatible, old artifacts are dead when their key is retired, and retried
  claims are signed with the same key.
- **Publication** (`ControlConfig`, `ControlRuntime`, `Publication`, `PublicationHistory`, `PublicationEffects`,
  `PublicationService`): every writer of the signed delivery, when it succeeds and what it leaves, and the history that
  all of them together produce.
- **Scheduler** (`Scheduler`, `CatchUpRun`): stages by the clock, safe drain, event disjointness and catch-up of the periodic tick.
- **Clock-recovery handshake** (`Handshake`): Control and one gate composed; `RestartedHoldIsNeverAnswered` and
  `ReopenForgetsQuarantine` record what a restart under a lagging clock does.
- **Reopening** (`Reopening`, `ReopenGap`): rotation, publication and the gates composed; when dropping a key leaves
  every node able to restart.
- **Commands** (`Commands`): idempotency keys, retained replies, pruning and reauthentication proofs.
- **Second factor** (`Challenges`, `ChallengeStore`): TOTP completion, recovery codes and their shared budgets.
- **Login limiter** (`LoginLimiter`): three anchored one-minute buckets with pruning.
- **Windows** (`Windows`): ring-buffer counters refining a plain log.
- **Budget and money** (`Decimal`, `Budget`, `Money`): the 64 KiB delivery reservation and exact decimal costs.

Conventions. Database timestamps are microseconds and the rotation journal uses milliseconds, as in the original.
Integers are unbounded; the ceilings the code enforces (9007199254740990 and others) are explicit. A commit can take
effect and be acknowledged, take effect unacknowledged, or not take effect; the environment chooses. Clocks, random
tokens, signature checks and password or HMAC verification are parameters. An envelope is identified with its content,
so a signature or digest match means equality of what was signed.

Properties that are false as first stated, with the exact condition under which they hold:

- Retiring a key a day and a bit after activation is not enough by itself: `MarginIsExact` says the bound holds if and
  only if the old key was last used 30 s before the recorded boundary, `RetirementBound` proves it for the managed
  procedure, and `StaleStartDefeatsBound` carries the one start that procedure rules out to an accepted retirement.
- A claim is not stable across a revocation: `RevocationMovesClaims` says for exactly which tickets.
- Ticking at two times is not always the same as ticking at the later one: `CatchUpTheorem` gives the condition and
  `MissedTickMatters` a reachable state.
- A gate's recovery request is not always answerable: `AnswersExactlyWhen` gives the condition, `HeldProcessIsAnswered`
  the case where it always holds, and `RestartedHoldIsNeverAnswered` a run where it never does.
- Acknowledgements of the current delivery do not by themselves let every gate reopen after a retirement:
  `ReopensExactlyWhen` gives the condition, `DropLeavesGatesOpen` says that one more minute is enough, and
  `EarlyRetirementClosesGates` that it is needed when Control renewed nothing since activation.
- A login limit of n per minute is per anchored minute: any minute admits at most 2n - 1 (`LimiterTheorem`), and that
  number is reached (`AccountBoundIsReached`).

## Model

| member | source | states |
|---|---|---|
| ConfigTrust.OpenIsCoherent | internal/configtrust/snapshot.go:118-147 | whatever is on disk, opening yields a gate that is closed or whose accepted envelope is the one on disk |
| ConfigTrust.StepAdvances | internal/configtrust/snapshot.go:196-230 | no call, save fault or reopen moves a readable store back in generation or revision, or repairs a corrupt one |
| ConfigTrust.RunAdvances | internal/configtrust/snapshot.go:196-230 | the same over every run |
| ConfigTrust.HighWaterMark | internal/configtrust/snapshot.go:118-147 | after any run of applies, failed saves, crashes and reopens, a gate is closed or at or above everything served before |
| ConfigTrust.OneEnvelopePerGeneration | internal/configtrust/snapshot.go:205-230 | one generation is never accepted as two different envelopes, across processes |
| ConfigTrust.HoldUntilReleased | internal/configtrust/snapshot.go:165-230 | a clock hold ends inside a process only by a durable acceptance newer than the held generation and issued at or after the boundary |
| ConfigTrust.FailedStaysFailed | internal/configtrust/snapshot.go:165-230 | a latched gate stays closed for the life of the process |
| ConfigTrust.ClockQuarantine | internal/configtrust/snapshot.go:165-182 | after a clock sample below the high-water mark nothing is served, whatever replays and catch-ups follow, until such a release |
| ConfigTrust.ReopenForgetsQuarantine | internal/configtrust/snapshot.go:118-147 | the quarantine is process-local: a reopened gate serves the held snapshot exactly within its own validity |
| ConfigTrust.BoundaryIsNotEarly | internal/configtrust/snapshot.go:165-230 | over every run of one process that saw the issue time of what it holds pass, the boundary of a clock hold is never before that issue time |
| ConfigTrust.AcceptanceIsSeen | internal/configtrust/snapshot.go:196-230 | every acceptance of its own puts a gate in that state |
| ConfigTrust.InOrderNeverRollsBack | internal/configtrust/snapshot.go:196-230 | a gate that accepted one publication of an in-order issuer never answers rollback to that or a later one |
| ConfigTrust.AppliesExactlyWhen | internal/configtrust/snapshot.go:196-230 | an open gate answers Ok if and only if its clock did not go back and the publication is newer, valid and past any hold, or is the one it holds; the newer one is then on disk and served |
| ConfigTrust.UndisturbedServes | internal/configtrust/snapshot.go:269-287 | with a forward clock and saves that succeed no delivery closes a gate: it serves what it holds at every time of its validity |
| ConfigTrust.SnapshotStore.Load | internal/configtrust/file.go:54-70 | returns what is on disk, distinguishing empty from corrupt |
| ConfigTrust.SnapshotStore.Save | internal/configtrust/file.go:71-109 | replaces the envelope atomically, or fails leaving the old, the new or an unreadable disk |
| ConfigTrust.Gate.constructor | internal/configtrust/snapshot.go:118-147 | the imperative gate opens to the state of the transition function |
| ConfigTrust.Gate.Sample | internal/configtrust/snapshot.go:165-182 | sampling the clock latches the hold and its boundary as specified |
| ConfigTrust.Gate.ApplyAt | internal/configtrust/snapshot.go:191-230 | refines Apply, whose acceptance AppliesExactlyWhen settles: same verdict, same new gate and disk, including a failed save |
| ConfigTrust.Gate.CurrentAt | internal/configtrust/snapshot.go:269-287 | serves exactly what the transition function serves |
| ConfigTrust.Gate.RequestRecovery | internal/configtrust/snapshot.go:248-260 | asks for recovery exactly while holding an accepted envelope under quarantine |
| ConfigTrust.OpenGate | internal/configtrust/snapshot.go:118-147 | argument checks and the resulting gate |
| Keyring.TrustExact | internal/keyring/keyring.go:130-139 | the trust map holds exactly the listed keys, each under its own kid |
| Keyring.ForRole | internal/keyring/keyring.go:96-121 | scoping keeps the number and order of keys and strips each to what the role may hold |
| Keyring.ScopedSetsAgree | internal/keyring/keyring.go:96-129 | every role's scoped copy of an owner-valid set is valid for the role and has the owner's digest and trust map |
| Keyring.KidInjective | internal/keyring/keyring.go:39-39 | equal configuration kids mean equal key ids |
| Rotation.AcksPinEverything | internal/localcontrol/rotation.go:87-96 | two counted ACKs prove that every file and process holds exactly the journaled set |
| Rotation.RotateKeepsInv | internal/localcontrol/rotation.go:97-262 | every operation, crashed after any number of its writes, keeps the invariant relating journal, files, processes and ACKs |
| Rotation.StepKeepsInv | internal/localcontrol/rotation.go:97-262 | restarts, ACKs, lost and restored journals keep it as well |
| Rotation.RunKeepsInv | internal/localcontrol/rotation.go:97-262 | the same over every run |
| Rotation.InvIsCompatible | internal/keyring/keyring.go:130-139 | the invariant implies that every verifier trusts whatever Control may sign with |
| Rotation.RotationCrashSafety | internal/localcontrol/rotation.go:97-262 | in every run from a fresh deployment, Control's signing key is trusted by Gateway and Coordinator, on disk and in memory |
| Rotation.AcceptedExactlyWhen | internal/localcontrol/rotation.go:97-211 | a journaled deployment accepts stage, activate, retire or revoke if and only if its guard holds; a repetition is always accepted |
| Rotation.FirstStageExactlyWhen | internal/localcontrol/rotation.go:97-169 | without a journal exactly a first staging with a fresh valid key is accepted |
| Rotation.NextIsValid | internal/keyring/keyring.go:52-95 | the key set an operation moves to is valid if and only if its new parts are |
| Rotation.WhatOperationsDo | internal/localcontrol/rotation.go:160-211 | staging adds the drawn key beside the current one, activation makes it current and keeps the old one, retirement and revocation keep only it |
| Rotation.RetryRepairs | internal/localcontrol/rotation.go:160-245 | a retry journals nothing new and writes every role file of the journaled set |
| Rotation.OneRetrySettles | internal/localcontrol/rotation.go:97-262 | in every run, after a crash past the journal write and any restarts and acknowledgements, one retry settles the deployment on the set the crashed call journaled |
| Rotation.Deployment.constructor | internal/localcontrol/rotation.go:37-41 | a fresh deployment holds the legacy key everywhere |
| Rotation.Deployment.CountKeyAcks | internal/localcontrol/rotation.go:87-96 | counts the fresh ACKs of exactly this generation and digest |
| Rotation.Deployment.Edit | internal/localcontrol/rotation.go:135-211 | the phase change and its guards, as the decision function that AcceptedExactlyWhen and WhatOperationsDo settle |
| Rotation.Deployment.Distribute | internal/localcontrol/rotation.go:219-245 | the loop over roles writes the scoped sets in order, stopping at a crash |
| Rotation.Deployment.RotateKeys | internal/localcontrol/rotation.go:97-262 | refines Rotate: same outcome and same journal, files and processes for every crash point |
| RotationTiming.OldArtifactsExpired | internal/localcontrol/rotation.go:197-199 | nothing made before the boundary is acceptable, on any clock within the skew, when the time guard of retirement is met |
| RotationTiming.RetirementBound | internal/localcontrol/rotation.go:189-204 | in every permitted run, revocations included, an accepted normal retirement finds no acceptable snapshot, return envelope or admission token of the retired key |
| RotationTiming.MarginIsExact | internal/lab/browser.go:133-133 | for return envelopes the bound holds if and only if the old key was last used at least 30 s before the boundary |
| RotationTiming.ChosenIsTop | internal/keyring/keyring.go:140-145 | the key a running Coordinator picks for a promotion time is the one the journaled set gives |
| RotationTiming.ReachKeepsChoice | internal/keyring/keyring.go:140-145 | no stage, activate or retire step changes the key of a ticket already promoted and still claimable |
| RotationTiming.RevocationMovesClaims | internal/localcontrol/rotation.go:189-204 | a revocation moves the claims of exactly the tickets promoted before the boundary of the key it keeps |
| RotationTiming.ClaimRetryStability | internal/lab/coordinator.go:292-303 | after any permitted history, revocations included, every claim of one ticket before its expiry is signed by the same key over identical claims, across permitted stage, activate and retire steps |
| RotationStale.CrashAfterJournal | internal/localcontrol/rotation.go:170-218 | from every fresh deployment there is a permitted run to an activation that crashed after its journal write, with Control's file still on the old key |
| RotationStale.StaleStartDefeatsBound | internal/installer/rotation.go:28-83 | one start of Control on that file, in an otherwise permitted run, ends with a normal retirement accepted and completed while a snapshot of the retired key is still acceptable |
| ControlConfig.CommonPathConflicts | internal/control/config.go:125-128 | two prefixes that cover one path cover each other |
| ControlConfig.PrefixIsBySegments | internal/control/config.go:125-128 | a prefix covers a path if and only if the path begins with its segments, whole segment by segment |
| ControlConfig.PrefixConflict | internal/control/config.go:186-214 | the inner loops decide exactly whether two rooms' protected prefixes overlap |
| ControlConfig.Validate | internal/control/config.go:186-223 | accepts if and only if header, rooms, distinctness and non-overlap hold; each error names a real violation |
| ControlConfig.AtMostOneProtects | internal/control/config.go:224-252 | in an accepted configuration at most one active room on a host protects a path |
| ControlConfig.MatchIgnoresOrder | internal/control/config.go:224-252 | permuting the rooms changes neither the decision nor the protecting room |
| ControlConfig.MatchMeans | internal/control/config.go:224-252 | every decision in both directions: unclean URLs are invalid, internal namespaces reserved, an exclusion of any active room on the host beats every protection, and otherwise a room is chosen if and only if it protects the path |
| ControlConfig.SelectTicketRoom | internal/runtimeplane/node.go:602-607 | iterating the Go map in any order selects the one matching room, or none exactly when none matches |
| ControlConfig.SharedOrigin | internal/runtimeplane/node.go:633-649 | unprotected traffic goes to the host's shared origin, exactly when there is one |
| ControlRuntime.FindUnique | internal/control/runtime.go:94-101 | Find returns the position of any room of a configuration with distinct ids |
| ControlRuntime.Find | internal/control/runtime.go:94-101 | the first room with an id, or the number of rooms when there is none |
| ControlRuntime.CatchUp | internal/control/runtime.go:151-162 | a recorded intermediate stage does not change the mode an event calls for later |
| PublicationHistory.SignKeepsInv | internal/adminauth/pgstore/publication.go:60-73 | signing any extension of the published document keeps the history invariant |
| PublicationHistory.DraftKeepsInv | internal/adminauth/pgstore/control.go:228-284 | replacing a draft or applying setup keeps the history invariant |
| PublicationHistory.PublishKeepsInv | internal/adminauth/pgstore/publication.go:81-151 | publishing a draft keeps the history invariant |
| PublicationHistory.OperateKeepsInv | internal/adminauth/pgstore/publication.go:173-305 | so does every operator command, including the installation-wide new epoch |
| PublicationHistory.ChangeEventKeepsInv | internal/adminauth/pgstore/events.go:59-197 | so does every event change |
| PublicationHistory.TickKeepsInv | internal/adminauth/pgstore/events.go:198-280 | so does a tick |
| PublicationHistory.RenewalKeepsInv | internal/adminauth/pgstore/publication.go:308-352 | so do renewals and recovery answers |
| PublicationHistory.AcknowledgeKeepsInv | internal/adminauth/pgstore/delivery.go:108-171 | an accepted ACK of the current generation matches the current document room by room |
| PublicationHistory.StepKeepsInv | internal/adminauth/pgstore/publication.go:45-352 | every transaction, with free clocks and signers, keeps the invariant |
| PublicationHistory.ReachKeepsInv | internal/adminauth/pgstore/publication.go:45-352 | so does every run |
| PublicationHistory.PublicationHistoryTheorem | internal/adminauth/pgstore/publication.go:60-73 | every publication of a run has one epoch; between any two: larger generation, no smaller configuration revision, no room lost or renamed, runtime revisions and epochs monotone, equal revisions mean equal runtimes |
| PublicationHistory.HistoryNeverRollsBack | internal/configtrust/snapshot.go:205-230 | a gate fed from that history never reports rollback |
| PublicationHistory.HistoryIsAccepted | internal/configtrust/snapshot.go:196-230 | every later publication of a run, delivered within its validity to an open gate holding an earlier one, is saved and served at once |
| PublicationEffects.PublishOutcome | internal/adminauth/pgstore/publication.go:81-151 | a publication is accepted if and only if the draft is the one seen, keeps every published room, moves nothing that is live and can be signed; the exact configuration, mode, limits and revision every room then has; otherwise nothing changes |
| PublicationEffects.SavedDraftIsPublished | internal/adminauth/pgstore/control.go:163-284 | a draft is saved if and only if it is valid, fits and carries the revision its editor saw; a second editor with that revision is refused; publishing signs exactly what was saved |
| PublicationEffects.SetupIsOnce | internal/adminauth/pgstore/setup.go:296-315 | setup succeeds exactly on an installation nobody edited, withdraws the signed row, and after it no run lets a setup succeed or changes the profile |
| PublicationEffects.OperateOutcome | internal/adminauth/pgstore/publication.go:252-305 | an operator command is accepted if and only if it is well formed and names the current revision of an active room; the mode, limits, mark and revision that room then has, the events it pauses, and that all else stays |
| PublicationEffects.NewEpochOutcome | internal/adminauth/pgstore/publication.go:206-251 | a new epoch is accepted if and only if it names the published generation and has room to count; every room is then in HOLD or OFF in the next epoch with the recovery boundary, every due or future event paused |
| PublicationEffects.UnknownRoom | internal/adminauth/pgstore/publication.go:193-201 | a command on an unpublished room is NotFound and changes nothing |
| PublicationEffects.ChangeEventOutcome | internal/adminauth/pgstore/events.go:59-197 | a schedule change is accepted if and only if it names the current revision, its times are in order and clear of every other live event, and it can be signed; exactly one event is written and the mark follows from those left |
| PublicationEffects.MarkMeans | internal/adminauth/pgstore/events.go:161-178 | the mark is that of the first paused or running event in listing order, else scheduled if one is |
| PublicationEffects.NoLostUpdate | internal/adminauth/pgstore/publication.go:197-205 | after an accepted command every other command or new event that carries the revision both writers read is refused |
| PublicationEffects.StaleWriterIsRefused | internal/adminauth/pgstore/events.go:81-89 | a command, a new event or a change of an event with a revision that has moved is refused and changes nothing |
| PublicationEffects.RefreshOutcome | internal/adminauth/pgstore/publication.go:308-352 | renewal succeeds if and only if the signature is fresh or a new one can be made; it leaves one by the current key, at most five minutes old, over the same document |
| PublicationEffects.AcknowledgeOutcome | internal/adminauth/pgstore/delivery.go:108-171 | an acknowledgement is accepted if and only if it matches the signed row in force, and is then the row of that node |
| PublicationEffects.AppliedExactlyWhen | internal/adminauth/pgstore/delivery.go:77-107 | after both acknowledgements the publication shows as applied exactly while both are younger than fifteen seconds |
| PublicationService.Service.CommitSigned | internal/adminauth/pgstore/publication.go:60-73 | writes document, generation, envelope and times together, or nothing |
| PublicationService.Service.RemovalCheck | internal/adminauth/pgstore/publication.go:98-114 | the nested loops find exactly a vanished room or a changed public id |
| PublicationService.Service.NextRuntime | internal/adminauth/pgstore/publication.go:115-137 | one room's runtime at publication, or the demand for a drain |
| PublicationService.Service.Publish | internal/adminauth/pgstore/publication.go:81-151 | refines Publish (whose effects PublishOutcome states): same reply and same new state |
| PublicationService.Service.PauseSchedule | internal/adminauth/pgstore/publication.go:284-290 | pauses exactly the scheduled and running events in scope and reports whether any was |
| PublicationService.Service.ResetEpoch | internal/adminauth/pgstore/publication.go:206-251 | refines the new-epoch branch over its two loops |
| PublicationService.Service.Operate | internal/adminauth/pgstore/publication.go:173-305 | refines Operate for every action (effects: OperateOutcome, NewEpochOutcome) |
| PublicationService.Service.DecideEvent | internal/adminauth/pgstore/events.go:90-157 | which event a verb writes, or why it is refused, including overlap |
| PublicationService.Service.Mark | internal/adminauth/pgstore/events.go:161-178 | the mark a room's runtime carries after an event change |
| PublicationService.Service.ChangeEvent | internal/adminauth/pgstore/events.go:59-197 | refines ChangeEvent (effects: ChangeEventOutcome) |
| PublicationService.Service.Refresh | internal/adminauth/pgstore/publication.go:308-352 | refines the renewal of an ageing envelope (effects: RefreshOutcome) |
| PublicationService.Service.RecoverClock | internal/adminauth/pgstore/clock_recovery.go:18-74 | refines the answer to a recovery request |
| PublicationService.Service.Acknowledge | internal/adminauth/pgstore/delivery.go:108-171 | refines the ACK checks and the node row written (effects: AcknowledgeOutcome) |
| PublicationService.Service.ViewApplied | internal/adminauth/pgstore/delivery.go:77-107 | both nodes acknowledged this generation freshly |
| PublicationService.Service.NodeVerdict | internal/adminauth/pgstore/events.go:281-300 | the loop over one node's metrics decides its evidence for a room |
| PublicationService.Service.SafeDrain | internal/adminauth/pgstore/events.go:281-300 | the loop over nodes decides exactly whether a room may go OFF |
| PublicationService.Service.TickOne | internal/adminauth/pgstore/events.go:226-264 | one room of a tick, as the function StageByTheClock reads off the event times |
| PublicationService.Service.TickRooms | internal/adminauth/pgstore/events.go:221-264 | the loop over rooms equals the simultaneous update of all rooms |
| PublicationService.Service.Tick | internal/adminauth/pgstore/events.go:198-280 | refines Tick (effects: StagesOverRuns) |
| Scheduler.SafeMeansEvidence | internal/adminauth/pgstore/events.go:281-300 | safe to drain if and only if fresh ACKs and metrics of exactly this publication show an empty, quiet room |
| Scheduler.SafeDrainTheorem | internal/adminauth/pgstore/events.go:240-262 | a tick turns a room OFF if and only if the published mode was DRAINING, the evidence is complete and no due event calls for another mode |
| Scheduler.SafeDrainOverRuns | internal/adminauth/pgstore/events.go:240-262 | the same if and only if in every reachable state for the document an accepted tick commits; a failed tick changes nothing |
| Scheduler.StageByTheClock | internal/control/runtime.go:151-162 | the stage a tick gives an active room from the times of its first live event: HOLD from the prequeue, AUTO from the admission, DRAINING or OFF from the drain; the mark and the revision that go with it |
| Scheduler.EventByTheClock | internal/adminauth/pgstore/events.go:226-262 | the state that tick gives the event: running once due, completed by a drain unless paused |
| Scheduler.StagesOverRuns | internal/adminauth/pgstore/events.go:198-280 | both, for what an accepted tick signs and stores in every reachable state; inactive rooms stay |
| Scheduler.UpsertKeepsSchedule | internal/adminauth/pgstore/events.go:138-160 | writing an event that clashes with no other row keeps rows sorted, distinct and disjoint |
| Scheduler.ChangeEventKeepsSchedule | internal/adminauth/pgstore/events.go:59-197 | every accepted event change keeps live events of a room disjoint |
| Scheduler.TickRevivesNothing | internal/adminauth/pgstore/events.go:222-262 | a tick moves events only forward to running or completed and leaves paused ones untouched |
| Scheduler.StepKeepsSchedule | internal/adminauth/pgstore/events.go:59-280 | every transaction keeps the schedule invariant |
| Scheduler.EventScheduleTheorem | internal/adminauth/pgstore/events.go:59-280 | in every run, live events of a room are pairwise disjoint and no tick changes a paused event |
| Scheduler.ViewAfterDrain | internal/adminauth/pgstore/events.go:249-262 | after a drain the room is OFF, an unpaused event is finished and the next takes its place |
| Scheduler.SigningVoidsEvidence | internal/adminauth/pgstore/events.go:273-300 | a tick that signs voids the acknowledgements, so no room drains at the next tick |
| Scheduler.CatchUpTheorem | internal/adminauth/pgstore/events.go:198-280 | the mode reached by ticking at t1 and t2 is the mode reached by ticking at t2 if and only if the first tick signed nothing, or the stated condition on the two drains and the next event holds |
| CatchUpRun.MissedTickMatters | internal/adminauth/pgstore/events.go:198-280 | a run from the empty installation after which ticking now and a minute later turns a room OFF while ticking only then leaves it DRAINING |
| Handshake.AnswerIsFresh | internal/adminauth/pgstore/clock_recovery.go:18-74 | an answer has a larger generation, is issued at or after the boundary and changes neither document, draft nor events |
| Handshake.HandshakeProgress | internal/adminauth/pgstore/clock_recovery.go:18-74 | in every reachable state of Control and a node, Control's answer, applied within its validity by a clock that caught up, is accepted, ends the hold and is served at once |
| Handshake.RenewalSucceeds | internal/adminauth/pgstore/publication.go:60-73 | re-signing the published document succeeds if and only if the names are well formed, a generation is left and the clock is in range; the document never stands in the way |
| Handshake.HeldIsPublished | internal/adminauth/pgstore/clock_recovery.go:18-74 | in every reachable system a held envelope of the published generation is the published envelope |
| Handshake.AnswersExactlyWhen | internal/adminauth/pgstore/clock_recovery.go:18-74 | for a node's own request in every reachable system: answered if and only if Control's clock is past the boundary inside the validity, and the node lags behind an eligible publication or the boundary is not before the published issue time and names, generation and clock allow a signature |
| Handshake.HeldProcessIsAnswered | internal/adminauth/pgstore/clock_recovery.go:18-74 | a process that accepted a publication itself and now holds is answered at every time past its boundary and inside the published validity |
| Handshake.RestartedHoldIsNeverAnswered | internal/adminauth/pgstore/clock_recovery.go:18-74 | a run in which a restarted node's clock reads 5 and then 3: its request is refused at every time and by every signer |
| Reopening.SignerIsCurrent | internal/adminauth/pgstore/key_rotation.go:13-25 | a running Control signs with the current key of the journaled set |
| Reopening.RowShape | internal/adminauth/pgstore/publication.go:60-73 | every transaction of Control leaves the delivery row, signs it now with the running key, or is setup's withdrawal |
| Reopening.NothingNewer | internal/configtrust/snapshot.go:196-230 | a node counted as delivered finds nothing newer to save, so its disk stays the published envelope |
| Reopening.StepKeepsInv | internal/localcontrol/rotation.go:87-262 | rotations, restarts, publications, deliveries and acknowledgements together keep the invariant relating keys, row, disks and acknowledgement times |
| Reopening.ReopensExactlyWhen | internal/configtrust/snapshot.go:118-147 | after an accepted and finished retirement or revocation, in every run, each data role has the published envelope on disk and its gate reopens if and only if that envelope is signed with the kept key |
| Reopening.DropLeavesGatesOpen | internal/localcontrol/rotation.go:189-204 | every revocation, and every retirement at least one minute after it is first allowed, leaves both gates able to reopen |
| ReopenGap.RetirementIsAccepted | internal/localcontrol/rotation.go:87-91 | acknowledgements of the old envelope just before its expiry are young enough to count |
| ReopenGap.EarlyRetirementClosesGates | internal/localcontrol/rotation.go:189-204 | for every retirement time inside that minute there is a run of the managed procedure at whose end it is accepted and neither data role can reopen its gate |
| Commands.FramedInjective | internal/adminauth/pgstore/commands.go:53-54 | separator framing of separator-free fields and a free tail is injective |
| Commands.FingerprintInjective | internal/adminauth/pgstore/commands.go:53-54 | different requests have different fingerprint inputs, across both command domains |
| Commands.ActionDigestInjective | internal/adminauth/pgstore/reauth.go:66-70 | a reauthentication digest determines method, precondition and body for its target |
| Commands.StepKeepsInv | internal/adminauth/pgstore/commands.go:25-129 | every call, sweep and proof event keeps the invariant of rows, proofs and effects |
| Commands.ExactlyOnce | internal/adminauth/pgstore/commands.go:25-129 | in every run, two effects under one account and key are at least 24 hours apart and no two consumed the same proof |
| Commands.ProofsMatchEffects | internal/adminauth/pgstore/reauth.go:199-216 | in every run, every effect that consumed a proof consumed one issued for exactly its request, and the proof stays consumed |
| Commands.TableKeepsCap | internal/adminauth/pgstore/commands.go:83-86 | in every run the table of retained replies keeps its cap |
| Commands.RetriesReplay | internal/adminauth/pgstore/commands.go:53-79 | for 24 hours a retry changes nothing and replays the recorded reply; another request under the key gets a conflict |
| Commands.EffectsComeFromBodies | internal/adminauth/pgstore/commands.go:80-129 | nothing but an unmatched call whose body reported a recordable reply takes effect |
| Commands.AnswersTellTheTruth | internal/adminauth/pgstore/commands.go:25-129 | on every reachable table a fresh answer means exactly one new effect, of this call, and every executing call whose commit is known is so answered; a rolled-back call changes nothing and is Unavailable |
| Commands.RefusalsAreSpecific | internal/adminauth/pgstore/commands.go:25-113 | which condition each refusal of a call that does not execute stands for |
| Commands.CommandStore.Oldest | internal/adminauth/pgstore/commands.go:80-82 | a row with the earliest creation time |
| Commands.CommandStore.Prune | internal/adminauth/pgstore/commands.go:80-82 | deletes expired rows only, oldest first, up to the batch size |
| Commands.CommandStore.Replay | internal/adminauth/pgstore/commands.go:58-79 | the retained reply, a conflict, or nothing retained |
| Commands.CommandStore.First | internal/adminauth/pgstore/commands.go:80-129 | refines the executing branch: capacity, proof, body and commit, leaving rows untouched on rollback, with the reply AnswersTellTheTruth is about |
| Commands.CommandStore.Record | internal/adminauth/pgstore/commands.go:114-129 | reply row, spent proof and effect are written together |
| Commands.CommandStore.Run | internal/adminauth/pgstore/commands.go:25-129 | refines Execute for every commit outcome |
| Challenges.StepKeepsInv | internal/adminauth/pgstore/store.go:88-228 | every transaction keeps live rows within their token and account history |
| Challenges.GuessIsCharged | internal/adminauth/pgstore/recovery.go:101-150 | every answered guess, TOTP or recovery, is paid for by the challenge's shared budget, and nothing refunds it |
| Challenges.SessionIsCharged | internal/adminauth/pgstore/store.go:200-228 | a session of a challenge uses up the challenge |
| Challenges.CodeIsCharged | internal/adminauth/pgstore/recovery.go:234-260 | a session by recovery uses up its code, also across resets and new enrollments |
| Challenges.CounterRises | internal/adminauth/pgstore/store.go:200-207 | a counter accepted by a login, a reauthentication or an enrollment exceeds the last one accepted for its credential, or starts a new credential |
| Challenges.RunsAreCharged | internal/adminauth/pgstore/recovery.go:101-260 | over any run, answered guesses, minted sessions and code uses stay within what was left at its start |
| Challenges.CountersRise | internal/adminauth/pgstore/reauth.go:192-198 | over any run the counters accepted for one credential, by login, reauthentication or enrollment, strictly increase |
| Challenges.ChallengeTheorem | internal/adminauth/pgstore/store.go:84-228 | over any interleaving and any loss of commits: at most five answered guesses and one session per challenge, one session per recovery code ever, strictly rising counters |
| Challenges.EveryGuessIsAnswered | internal/adminauth/pgstore/store.go:171-190 | the budget is exact: an open challenge answers every guess it has left |
| Challenges.RecoverySucceeds | internal/adminauth/pgstore/recovery.go:178-260 | an uncontended recovery with an unused code is granted, even as the fifth guess, spends only that code and closes the challenge for good |
| Challenges.SessionsAreCurrent | internal/adminauth/pgstore/recovery.go:234-260 | a minted session belongs to the enabled owner of the challenge and carries the versions in force at the write |
| Challenges.RevokedStaysRevoked | internal/adminauth/pgstore/users.go:136-143 | a replaced, revoked or consumed challenge never answers or mints again |
| Challenges.TotpOutcome | internal/adminauth/pgstore/store.go:88-228 | a TOTP completion mints a session if and only if the counter is unused, on an open challenge with budget left that is still valid at the write; a miss costs one attempt, the fifth closes; otherwise nothing changes |
| Challenges.RecoveryOutcome | internal/adminauth/pgstore/recovery.go:195-260 | a recovery mints a session if and only if an unspent slot of the attempt still matches, in the reserved context, on an open challenge valid at the write |
| Challenges.ReservationOutcome | internal/adminauth/pgstore/recovery.go:101-150 | a reservation is charged before anything is handed out, and hands out the stored records |
| Challenges.EnrollmentOutcome | internal/adminauth/pgstore/enrollment.go:341-385 | enrollment gives ten fresh codes and a credential that has seen its first counter |
| Challenges.PendingTheorem | internal/adminauth/pgstore/login.go:268-281 | over every run at most one challenge is live per user, and it expires five minutes after its issue |
| Challenges.RevocationCloses | internal/adminauth/pgstore/users.go:136-143 | changing an account or enrolling closes all challenges of that user, changing the policy all of them |
| Challenges.MatchCounter | internal/adminauth/totp.go:120-144 | finds a counter if and only if one within a step of the clock matches well-formed digits, and then the newest |
| Challenges.MatchRecovery | internal/adminauth/pgstore/recovery.go:152-176 | the one unused matching slot; none; or failure exactly on a hasher error or two matches |
| ChallengeStore.Tables.constructor | internal/adminauth/pgstore/store.go:88-160 | empty tables satisfy the invariant |
| ChallengeStore.Tables.Load | internal/adminauth/pgstore/recovery.go:57-99 | the locked reads decide exactly whether the challenge is open |
| ChallengeStore.Tables.ConsumeCounter | internal/adminauth/pgstore/store.go:200-217 | accepted, refused, or abort because the challenge expired meanwhile; accepted only above the stored counter (TotpOutcome, CountersRise) |
| ChallengeStore.Tables.CompleteTotp | internal/adminauth/pgstore/store.go:88-228 | refines CompleteTotp for every commit outcome |
| ChallengeStore.Tables.ReadRecords | internal/adminauth/pgstore/recovery.go:117-136 | the row loop returns the ten records in slot order, exactly when slots one to ten are what is stored |
| ChallengeStore.Tables.Reserve | internal/adminauth/pgstore/recovery.go:101-150 | refines the reservation |
| ChallengeStore.Tables.Finish | internal/adminauth/pgstore/recovery.go:195-260 | refines the second transaction |
| ChallengeStore.Tables.IssueChallenge | internal/adminauth/pgstore/login.go:268-281 | closes the user's pending challenges and inserts the new one |
| LoginLimiter.ReservationIsAnchored | internal/adminauth/pgstore/login.go:104-154 | what one reservation does to a key extends an anchored log of that key |
| LoginLimiter.PruneForgetsNothing | internal/adminauth/pgstore/login.go:155-159 | deleting an expired row does not weaken the promise for what follows |
| LoginLimiter.RunIsAnchored | internal/adminauth/pgstore/login.go:93-167 | over every run on a forward clock each minute is anchored at a pass: its first meetings up to the limit pass, the next is refused and audited once, the rest are refused |
| LoginLimiter.CountBound | internal/adminauth/pgstore/login.go:23-27 | a log of anchored minutes has at most twice the limit less one passes and two lockouts in any minute |
| LoginLimiter.AdmittedAreLogged | internal/adminauth/pgstore/login.go:155-167 | every admitted attempt is a logged pass of each of its buckets |
| LoginLimiter.LimiterTheorem | internal/adminauth/pgstore/login.go:93-167 | over every run, with rows pruned and recreated and commits lost, any minute admits at most 2 * limit - 1 attempts per key and audits at most two lockouts, and every unaudited refusal follows an audited one within a minute |
| LoginLimiter.RefusalIsAudited | internal/adminauth/pgstore/login.go:131-149 | in an anchored log every unaudited refusal follows an audited one of its minute |
| LoginLimiter.AdmittedExactlyWhen | internal/adminauth/pgstore/login.go:104-154 | an attempt is admitted if and only if it commits and each of its three buckets is absent, expired or below its limit |
| LoginLimiter.AccountBoundIsReached | internal/adminauth/pgstore/login.go:131-149 | a concrete run admits exactly that many for one account |
| LoginLimiter.Limiter.ReserveAttempt | internal/adminauth/pgstore/login.go:93-167 | the loop over three buckets refines the reservation, with its audit and commit |
| Windows.TotalCounts | internal/runtimeplane/http_metrics.go:53-64 | the uncapped reference total is the number of logged observations in the interval |
| Windows.CapLowers | internal/runtimeplane/node.go:60-62 | the cap only lowers the total, and does so exactly when some second overflows |
| Windows.TotalBounded | internal/runtimeplane/node.go:60-62 | a capped total is at most the cap times the seconds |
| Windows.RingObserve | internal/runtimeplane/http_metrics.go:41-51 | one bucket write keeps the ring equal to the log |
| Windows.BucketIsSecond | internal/runtimeplane/http_metrics.go:58-62 | a bucket in range holds exactly the window's second of its residue; stale buckets contribute nothing |
| Windows.ErrorWindow.constructor | internal/runtimeplane/http_metrics.go:27-27 | a new window has an empty log |
| Windows.ErrorWindow.Clear | internal/runtimeplane/http_metrics.go:33-35 | zeroed arrays represent the empty log |
| Windows.ErrorWindow.Move | internal/runtimeplane/http_metrics.go:30-39 | refines the clock advance, resetting on rollback |
| Windows.ErrorWindow.Observe | internal/runtimeplane/http_metrics.go:41-51 | refines appending the second to the log |
| Windows.ErrorWindow.Sum | internal/runtimeplane/http_metrics.go:57-62 | the bucket loop computes the log's total over the last sixty seconds |
| Windows.ErrorWindow.Snapshot | internal/runtimeplane/http_metrics.go:53-64 | that total, and whether the window is complete |
| Windows.ArrivalWindow.constructor | internal/runtimeplane/node.go:240-240 | a new window has an empty log |
| Windows.ArrivalWindow.Clear | internal/runtimeplane/node.go:46-50 | zeroed arrays represent the empty log |
| Windows.ArrivalWindow.Observe | internal/runtimeplane/node.go:42-63 | refines appending the second to the log |
| Windows.ArrivalWindow.Snapshot | internal/runtimeplane/node.go:64-78 | the capped total of the last 300 seconds, zero and not ready on rollback, never above what Control accepts |
| Windows.ErrorsSinceRollback | internal/runtimeplane/http_metrics.go:30-51 | on positive clocks the log is exactly what was observed since the last rollback |
| Windows.ErrorCountTheorem | internal/runtimeplane/http_metrics.go:53-64 | a snapshot after any uses counts exactly the errors of the last sixty seconds since the last rollback |
| Windows.ArrivalsSinceRollback | internal/runtimeplane/node.go:42-63 | the arrival log is exactly what was observed since the last rollback |
| Decimal.ValueOfText | internal/installplan/cost.go:137-138 | decimal text reads back as the number |
| Decimal.LengthMonotone | internal/control/runtime.go:34-49 | a larger number never has a shorter text |
| Budget.RuntimeNoLonger | internal/control/runtime.go:58-73 | no valid runtime is longer than the reserved one, optional fields included |
| Budget.BudgetTheorem | internal/control/runtime.go:34-49 | a draft inside the budget fits 64 KiB, as payload and as signed envelope, for every later revision, valid runtime, generation, time, kid and installation |
| Budget.BudgetIsExact | internal/control/runtime.go:34-49 | for a high-scale draft with all rooms active, the budget holds if and only if every such publication fits |
| Budget.CheckBudget | internal/control/runtime.go:37-49 | the loop computes the budget, and acceptance means every later publication fits |
| Money.MicroIsValue | internal/installplan/cost.go:127-135 | micro-units are the decimal value times a million for every accepted spelling |
| Money.FixedShape | internal/installplan/cost.go:137-146 | exactly the requested places, no spare leading zero, and the same value |
| Money.MicroFixed | internal/installplan/cost.go:125-146 | printing a total and reading it back is the identity |
| Money.RoundsHalfUp | internal/installplan/cost.go:148-155 | the quotient is the only integer within half a unit, ties up |
| Money.ProfileIsExact | internal/installplan/cost.go:106-123 | printed lines add up exactly to the printed subtotal, and the rounded one is the only display amount within half a unit of it |
| Money.LinesArePrices | internal/installplan/cost.go:106-123 | each printed line is its unit price times hours and hosts, or GiB and hosts, exact to the sixth place |
| Money.RatioTheorem | internal/installplan/cost.go:69-104 | every accepted input is estimated; the ratio is missing exactly when both standard prices are zero, and is otherwise the half-up quotient of the exact subtotals |

## Left out

- The queue engine and its Valkey scripts, admission-token parsing, browser pages and the traffic lab.
- Signatures, digests, HMAC, Argon2 and AES: modelled as injective or as free verdicts, never computed.
- HTTP routing of the admin API, cookies, CSRF, sessions after they are minted, and audit rows other than lockouts.
- SQL isolation: each transaction is one atomic step, in the order its row locks give.
- JSON decoding and canonical re-encoding; only text lengths are modelled, in `Budget`.
- Text fields of a room that only have their own format check (name, theme, health URL) are one opaque text with a verdict; logo images, region-id pattern, hostname and public-id formats are part of that verdict.
- Event ids are ordered numbers instead of random text; only their order and equality matter to the code.
- Setup beyond the change it makes to the draft and the delivery; bootstrap, calibration, installer I/O and the container procedure beyond the rule that roles are stopped during an operation.
- An emergency revocation itself promises nothing about the artifacts of the key it drops: it is allowed before they expire. Runs that contain revocations are covered everywhere.
- LoginLimiter.LimiterTheorem: assumes the database clock does not run backward between serialised reservations, and treats one source on two days as two keys, as the code does.
- Windows.ErrorsSinceRollback: positive Unix seconds only; at second zero the original resets on every use, which the refinement proofs keep.
- The HTTP request limiter that shares the bucket table uses the same bucket shape and would only repeat the limiter.
- Enrollment challenges and their own attempt budget; enrollment enters as the step that creates a credential and its codes.
- HOTP truncation; counters are matched against an arbitrary digit function.
