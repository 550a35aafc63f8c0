# Verification of the Batocera Drone's durable state

A Dafny model of the parts of Batocera Drone whose state must survive crashes,
partial failures and copied disks, with proofs about whole runs of them.
`dafny verify dfyconfig.toml` checks everything.

Files, kernel tables, mounts, `openssl`, the tailnet service and the database
are maps, sets and sequences; every call into them is free to fail. What such
calls do is an argument of the operation, so a statement for all arguments
covers every failure. Random keys and ids are fresh numbers, digests are
injective, and clocks are numbers. Code that changes things step by step is a
class with methods and loops; each method is proved to compute a function of the
old state, and what the Drone promises is proved about those functions.

| file | what it models |
|---|---|
| `hardware_identity.dfy` | hardware evidence and the verdict on it |
| `identity_model.dfy` | the identity lifecycle: the durable files, and every boot as the list of disk states it passes through |
| `identity_store.dfy` | the same lifecycle step by step on a store, proved equal to the model |
| `identity_clone_safety.dfy` | a copied disk never joins the swarm as its source |
| `identity_resume.dfy` | an interrupted provisioning run resumes and converges |
| `identity_decisions.dfy` | what single boots and decisions do: an authorized change, first evidence, migration, what is held and why |
| `identity_runs.dfy` | what a provisioning run does on its way: success, overwriting, journal, what is remembered |
| `identity_same_machine.dfy` | a machine is never cloned by its own sensors |
| `identity_ready.dfy` | what READY means, and how the two boot gates agree |
| `nfs_exports.dfy`, `nfs_mounts.dfy` | authorizations that own all live kernel grants, and the mount table behind them |
| `rom_references.dfy` | ROM folders renamed aside and linked, and undone from rows |
| `folders.dfy`, `bios_references.dfy`, `orphan_recovery.dfy`, `bios_detach.dfy` | a directory tree, BIOS links in it, links that no row speaks of, and the detach that undoes both |
| `share_lifecycle.dfy` | requests, workers, watchdog, boot replay and BIOS workers in any interleaving |
| `input_activity.dfy` | analog noise against deliberate input |
| `multipart.dfy`, `texts.dfy` | the multipart parsers against a printer |
| `game_history.dfy` | the game monitor, its event log and the drain |
| `generator_patch.dfy` | the marked block in the Switch generator |
| `rotating_log.dfy`, `http_cache.dfy`, `auth_limits.dfy` | the log, the cache and the limits |

A crash is a prefix of the disk states of a boot, so a statement about every
state of the list is a statement about every crash point.

## Where a plausible law does not hold

Each of these has a lemma that exhibits the failure, and a condition under which
the law holds.

- A failed export can lose sight of an old live address, because the record is
  overwritten first (`app/device/nfs_export_manager.py:484-517`).
- ROM passes are not always undone: after a rollback failed, a link that fails
  in a later pass writes a row that no longer remembers the moved folder
  (`app/device/network_share_manager.py:657-662`). And once a row's folder is
  back, reverting the row again is an error
  (`app/device/network_share_manager.py:734-735`).
- A BIOS inventory that shrinks drops the row of a link, which the revert then
  leaves behind (`app/device/network_share_manager.py:796-828`). The walk of a
  detach removes it, but puts a local `.old` companion into its place
  (`app/device/network_share_manager.py:883-903`).
- Orphan recovery leaves links inside a folder that it moves back, and in
  directories that cannot be listed, without an error
  (`app/device/network_share_manager.py:924-938`).
- A detach is not final against an enable that is still queued
  (`app/device/network_share_manager.py:1199-1228`).
- A clone on which the tailnet client is not installed keeps the source's node
  key, and nothing marks it as still to be cleared
  (`app/device/tailnet_service.py:493-494`).
- A multipart field or file name that ends in ` filename=` is misread
  (`app/common/multipart.py:36-38`).
- Unpatching adds a line break when the recognized line ends the file
  (`app/device/admin_fixes.py:317-326`).

## Model

| member | source | states |
|---|---|---|
| `HardwareIdentity.SameExactly` | app/common/hardware_identity.py:308-342 | a comparison says SAME exactly when something can be compared, nothing is ambiguous, and every comparable identifier agrees |
| `HardwareIdentity.DifferentExactly` | app/common/hardware_identity.py:308-342 | it says DIFFERENT exactly when the strongest comparable rank disagrees throughout |
| `HardwareIdentity.BaselineExactly` | app/common/hardware_identity.py:308-318 | it says BASELINE exactly when nothing was recorded yet and the reading is unambiguous and not empty |
| `HardwareIdentity.InsufficientExactly` | app/common/hardware_identity.py:308-342 | it says INSUFFICIENT exactly when the reading is unambiguous and there is nothing to hold against each other |
| `HardwareIdentity.ContradictoryExactly` | app/common/hardware_identity.py:308-342 | it says CONTRADICTORY exactly when the reading contradicts itself, or agrees with some identifier of the deciding rank and with some other not |
| `HardwareIdentity.FlakySensorsAreNeverDifferent` | app/common/hardware_identity.py:308-342 | two readings of one machine, each missing anything, never compare as DIFFERENT |
| `HardwareIdentity.ForeignMachineIsNeverSame` | app/common/hardware_identity.py:308-342 | evidence recorded on a machine that differs everywhere is never matched, whatever is read |
| `HardwareIdentity.RecognisesItselfIffUsable` | app/common/hardware_identity.py:144-147 | a reading matches itself exactly when it is non-empty and not ambiguous |
| `HardwareIdentity.Collect` | app/common/hardware_identity.py:257-305 | what a collection contains: fillers and unreadable sources are left out, two platform serials that disagree make it ambiguous and decide nothing, one that stands alone is reported, and no identifier the machine does not have |
| `HardwareIdentity.PlatformCandidatesAre` | app/common/hardware_identity.py:241-294 | which platform serials count: that of the device tree, and that of /proc/cpuinfo where it shows one value only |
| `IdentityModel.LoadInvertsSave` | app/common/identity_provisioning.py:412-461 | a saved binding loads back as itself, so a saved binding never reads as damaged |
| `BootDecisions.LoadingExactly` | app/common/identity_provisioning.py:412-445 | a binding can be read exactly when it has what an identity needs and the evidence it says it once had, and which problem is reported otherwise |
| `BootDecisions.PairStatusExactly` | app/common/identity_provisioning.py:329-346 | a pair is valid exactly when both halves belong together and have not expired, and which fingerprint it shows |
| `BootDecisions.AJournalIsRejectedExactly` | app/common/identity_provisioning.py:578-604 | the faults for which a journal is not trusted |
| `BootDecisions.AHardwareChangeIsKeptExactly` | app/common/identity_provisioning.py:1136-1149 | on hardware that differs, an identity in order ends READY with every file of it untouched, bound to the new evidence and with the authorization used up, exactly when an authorization is pending; otherwise the boot is a clone run that retires the pair |
| `BootDecisions.AnAuthorizedChangeNeedsThePair` | app/common/identity_provisioning.py:1180-1192 | an authorized change without the valid and bound pair is held, for a reason that says which |
| `BootDecisions.TheFirstEvidenceIsBound` | app/common/identity_provisioning.py:1173-1177 | an installation without evidence that ends READY on a clear reading is bound to it, and recognized by it from then on |
| `BootDecisions.AdoptingKeepsTheIdentity` | app/common/identity_provisioning.py:1173-1177 | and nothing else of an identity in order is touched then |
| `BootDecisions.WithoutAReadingNothingIsBound` | app/common/identity_provisioning.py:1128-1135 | without a clear reading it goes on without evidence, and writes nothing |
| `BootDecisions.MigratingBindsTheReading` | app/common/identity_provisioning.py:1152-1170 | an installation from before the binding ends READY exactly when its pair is valid or can be made, under its own id and bound to the reading, without a journal |
| `BootDecisions.ANewInstallationIsProvisioned` | app/common/identity_provisioning.py:1112-1127 | without a binding and without a pair, a new installation is provisioned under a journal |
| `BootDecisions.ReconcilingEndsExactly` | app/common/identity_provisioning.py:1195-1243 | how a confirmed binding ends for every pair, id and pending reset, with the pair and the id file it leaves |
| `BootDecisions.WhatIsHeldWithoutAJournal` | app/common/identity_provisioning.py:1112-1149 | what cannot be told is held for its reason, with nothing changed but the marker |
| `BootDecisions.AnUnreadableJournalIsDecided` | app/common/identity_provisioning.py:1085-1111 | a journal nobody can read is decided by the binding and the hardware, and only a full match goes on |
| `BootDecisions.ARunIsTakenUpExactly` | app/common/identity_provisioning.py:607-633 | a trusted run is resumed on its own hardware, started over on any other, and held when neither can be told |
| `BootDecisions.ANewIdentityIsDecided` | app/common/identity_provisioning.py:933-991 | an administrator's decision for a new identity resumes a trusted run or starts one over |
| `BootDecisions.KeepingIsDecidedExactly` | app/common/identity_provisioning.py:933-991 | a decision to keep is taken exactly when networking is held for a reason it can settle, no trusted run is pending and the pair is usable |
| `BootDecisions.KeepingBindsTheReading` | app/common/identity_provisioning.py:933-991 | what it binds, and that no file of the identity changes |
| `BootDecisions.NoBootRefuses` | app/common/identity_provisioning.py:1002-1050 | a boot ends READY, held or by an exception |
| `BootDecisions.AnExceptionLeavesAMarker` | app/common/identity_provisioning.py:1002-1050 | what a boot leaves that ends by an exception, wherever it strikes |
| `ProvisioningRuns.AFreshReplacementSucceedsExactly` | app/common/identity_provisioning.py:714-854 | a replacement that starts afresh ends READY exactly when the swarm is cleared, the node is cleared or on hold, and a certificate can be made that is neither expired nor the inherited one; it raises otherwise |
| `ProvisioningRuns.AnInstallationSucceedsExactly` | app/common/identity_provisioning.py:714-854 | a new installation keeps a valid pair, needs a certificate otherwise, and destroys nothing |
| `ProvisioningRuns.KeysAreOverwrittenBeforeTheyGo` | app/common/identity_provisioning.py:371-392 | between any two disk states of any run, a key or certificate file goes only after it was overwritten |
| `ProvisioningRuns.TheFirstJournalSays` | app/common/identity_provisioning.py:735-757 | the first write of a run says what it replaces and on what evidence, before anything else has changed |
| `ProvisioningRuns.AResumedRunGoesOn` | app/common/identity_provisioning.py:714-757 | a resumed run writes the journal it found, marked as provisioning, before anything else |
| `ProvisioningRuns.WhatTheJournalListsIsDone` | app/common/identity_provisioning.py:759-812 | every step that the journal lists has been taken, in every disk state of a replacement |
| `ProvisioningRuns.AllStepsAreListed` | app/common/identity_provisioning.py:759-848 | and all of them are listed before the binding is saved and the journal removed |
| `ProvisioningRuns.TheIdFileIsReplaced` | app/common/identity_provisioning.py:636-695 | the old id file goes, and the new id is stored as far as it can be |
| `ProvisioningRuns.TheOldIdIsRetired` | app/common/identity_provisioning.py:820-837 | which ids are remembered as retired, always with the one just replaced |
| `ProvisioningRuns.ARestartRemembersTheHalfMadeRun` | app/common/identity_provisioning.py:618-633 | a run started over on other hardware remembers the half-made certificate and both its ids |
| `CloneSafety.ACloneNeverJoinsAsItsSource` | app/common/identity_provisioning.py:714-854 | the clone theorem: after any boots of a copied disk on foreign hardware, cut short anywhere, a boot that enables networking leaves a valid pair, a device id and a swarm that are not the source's |
| `CloneSafety.BootIsSafe` | app/common/identity_provisioning.py:1080-1149 | every disk state that one boot passes through keeps the clone invariant, and a boot that ends READY has an identity of its own |
| `CloneSafety.EveryHistoryIsSafe` | app/common/identity_provisioning.py:1002-1050 | the clone invariant holds after every sequence of boots, power losses, failing helpers and pairings |
| `CloneSafety.TheTailnetGateIsClosedToTheSourceNode` | app/common/identity_provisioning.py:1053-1077 | over the same histories the tailnet gate opens only for a certificate and id that are not the source's, and for a node key that is not, if no boot found the source's node key on the disk and no client to clear it |
| `CloneSafety.AReadyBootExposesTheNodeExactly` | app/device/tailnet_service.py:477-534 | for every safe disk, a READY boot leaves the source's node key unmarked exactly when the key was there and either no client was installed or it was so before |
| `CloneSafety.AnUninstalledClientLeavesTheSourceNode` | app/device/tailnet_service.py:493-494 | the first READY boot of a copy that carries the node key opens the gate over that key exactly when no client was installed |
| `CloneSafety.SuchABootExists` | app/device/tailnet_service.py:493-494 | a concrete copied disk and boot for which that happens |
| `CloneSafety.ReplacingIsSafe` | app/common/identity_provisioning.py:714-854 | the destructive steps of a replacement keep the clone invariant between any two durable writes |
| `ReadyBoots.ReadyIsCoherent` | app/common/identity_provisioning.py:1080-1149 | from any disk at all, READY means a valid pair that the binding names, a device id that the binding holds, and no journal |
| `ReadyBoots.AnOpenGateMeansAReadyAndQuietBoot` | app/common/identity_provisioning.py:1053-1077 | where the tailnet gate is open, the identity check on the same state returns READY and writes nothing |
| `BootDecisions.TheGatesAgreeExactly` | app/common/identity_provisioning.py:1053-1149 | the tailnet gate is open exactly where the identity check on the same state is READY without a write, on recorded evidence |
| `ReadyBoots.ProvisioningOpensTheGate` | app/common/identity_provisioning.py:714-854 | a successful provisioning opens the gate for its own reading exactly when the hardware was usable and no node is on hold |
| `ReadyBoots.AFreshReplacementTakesNothingOver` | app/common/identity_provisioning.py:714-854 | a replacement that starts afresh and succeeds has the new random id, the new pair and an empty swarm; it is rid of the node key, or has it on hold, exactly unless a key was there and no client was installed |
| `Resumption.EveryWrittenJournalIsValid` | app/common/identity_provisioning.py:554-604 | whatever the disk and whatever fails, no boot leaves a journal that a later boot would not trust |
| `Resumption.EveryJournalOfADecisionIsValid` | app/common/identity_provisioning.py:933-991 | nor does an administrator's decision for a new identity, whether it resumes, restarts or starts a run |
| `Resumption.InterruptedProvisioningConverges` | app/common/identity_provisioning.py:607-633 | after any number of attempts, each cut short anywhere and some perhaps after the commit, one boot in which the helpers work ends READY without journal or marker, under the first journaled id and the first own certificate |
| `Resumption.EveryCrashPointConverges` | app/common/identity_provisioning.py:714-854 | from every crash point of a fresh run that was started on a usable reading, also those after the journal is gone, and after any attempts with that reading, one such boot ends READY and keeps the id and certificate made by then |
| `Resumption.ALandedRunStaysLanded` | app/common/identity_provisioning.py:1195-1243 | once the binding is saved, every disk state of every later boot keeps what was committed, and the boot ends READY exactly unless a node still on hold can then not be cleared |
| `Resumption.ABenignBootEndsTheRun` | app/common/identity_provisioning.py:607-633 | one boot in which the helpers work ends a run wherever it stands |
| `Resumption.TriesContinue` | app/common/identity_provisioning.py:607-633 | after any number of attempts, each cut short anywhere, it is still the same run with the same id and certificate, or it has committed them |
| `Resumption.AStartedRunIsInFlight` | app/common/identity_provisioning.py:714-760 | from every crash point of a fresh run, the journal is trusted and matches its own reading exactly when that reading is usable |
| `Resumption.AStartedRunIsTakenUpAgain` | app/common/identity_provisioning.py:607-633 | a later boot with the run's own reading resumes it when that reading was usable, holds it when it was ambiguous, and starts over as a clone when there was no evidence at all |
| `SameMachine.FlakySensorsNeverCloneTheMachine` | app/common/identity_provisioning.py:1080-1149 | over every history of boots and keep decisions on its own hardware nothing is retired, no authorization is consumed, the swarm stays, and the pair changes only while it is itself invalid |
| `SameMachine.ABootKeepsTheIdentity` | app/common/identity_provisioning.py:1080-1149 | every disk state that one such boot passes through has kept the identity |
| `SameMachine.KeepingKeepsTheIdentity` | app/common/identity_provisioning.py:933-991 | so has every disk state of a keep decision |
| `IdentityStore.Store.Provision` | app/common/identity_provisioning.py:714-854 | the step-by-step run leaves exactly the trace and outcome of the specified provisioning |
| `IdentityStore.Store.ReplaceIdentity` | app/common/identity_provisioning.py:759-777 | so do its destructive steps |
| `IdentityStore.Store.NameAndDetach` | app/common/identity_provisioning.py:777-795 | so does naming the device and detaching the tailnet node |
| `IdentityStore.Store.IssueAndBind` | app/common/identity_provisioning.py:796-854 | so does issuing the certificate and committing the binding |
| `IdentityStore.Store.CommitBinding` | app/common/identity_provisioning.py:814-848 | the binding is saved, then the journal goes, then the marker |
| `IdentityStore.Store.RetireOldIdentity` | app/common/identity_provisioning.py:698-711 | the inherited pair is overwritten and removed, and a resumed run removes the inherited one only |
| `IdentityStore.Store.ChooseDevice` | app/common/identity_provisioning.py:644-695 | a resumed run keeps its journaled id; otherwise the old id file goes and a random id is stored |
| `IdentityStore.Store.Verified` | app/common/identity_provisioning.py:1195-1243 | the reconciliation of binding, certificate and device id, with its writes |
| `IdentityStore.Store.RebindAuthorized` | app/common/identity_provisioning.py:1180-1192 | an authorized hardware change, which consumes the authorization |
| `IdentityStore.Store.MigrateExisting` | app/common/identity_provisioning.py:1152-1170 | an installation from before the binding keeps its pair and id |
| `IdentityStore.Store.EnterRecovery` | app/common/identity_provisioning.py:897-911 | the recovery marker is written and networking is held |
| `IdentityStore.Store.ResumeJournal` | app/common/identity_provisioning.py:607-633 | resume, restart as a clone, or hold, by the hardware that the journal names |
| `IdentityStore.Store.EnsureIdentity` | app/common/identity_provisioning.py:1080-1149 | the whole boot decision, equal to the specified one in trace and outcome |
| `IdentityStore.Store.ReplaceByAdministrator` | app/common/identity_provisioning.py:933-991 | the administrator's decision for a new identity |
| `IdentityStore.Store.KeepByAdministrator` | app/common/identity_provisioning.py:933-991 | the administrator's decision to keep the identity, refused while a trusted journal is pending or the pair is unusable |
| `IdentityStore.BootACopy` | app/common/identity_provisioning.py:1080-1149 | the clone theorem read off the running store: each written state is safe, also as to the node key if a client can clear it, and networking means an identity of its own |
| `IdentityStore.RetryProvisioning` | app/common/identity_provisioning.py:607-633 | resumption read off the running store: each written state belongs to the run, and with working helpers the boot ends it |
| `IdentityStore.BootAtHome` | app/common/identity_provisioning.py:1080-1149 | a boot on the machine's own hardware read off the running store: each written state has kept the identity |
| `IdentityStore.KeepAtHome` | app/common/identity_provisioning.py:933-991 | so has each state that a keep decision writes |
| `IdentityStore.ReplaceOnRequest` | app/common/identity_provisioning.py:933-991 | each state that a decision for a new identity writes has a journal that a later boot trusts, or none |
| `NfsExports.ExportManager.AuthorizePeer` | app/device/nfs_export_manager.py:458-526 | the specified step in table and outcome; what is listed, granted and withdrawn in every outcome; ownership of all live grants is kept exactly unless a failed export leaves an old live address unlisted |
| `NfsExports.ExportManager.RevokePeer` | app/device/nfs_export_manager.py:529-557 | addresses shared with other records stay granted, the rest are withdrawn or the record stays and is marked failed; ownership is kept |
| `NfsExports.ExportManager.RestoreExports` | app/device/nfs_export_manager.py:560-620 | a replay keeps ownership, keeps the record of every paired Drone, ends it active exactly when its exports succeed and then with its grants, and loses a listed grant only where a record is marked failed |
| `NfsExports.ExportManager.RevokeForIdentityChange` | app/device/nfs_export_manager.py:433-455 | success means that no grant of a Drone is live |
| `NfsExports.ExportManager.CleanupAllExports` | app/device/nfs_export_manager.py:623-638 | the table is emptied only when all its addresses are withdrawn |
| `NfsExports.ExportManager.ExportClient` | app/device/nfs_export_manager.py:372-384 | every path is granted or the ones granted are rolled back; no other client is touched |
| `NfsExports.ExportManager.UnexportClient` | app/device/nfs_export_manager.py:387-396 | success means that the client has nothing left |
| `NfsExports.ExportManager.Serve` | app/device/nfs_export_manager.py:433-638 | any sequence of operations, each call of which may fail, computes the specified run, and owns every live grant if no step endangers one |
| `NfsExports.NoLiveExportIsOrphaned` | app/device/nfs_export_manager.py:433-638 | over every sequence of operations with every call free to fail, each live grant stays listed all the way exactly when no step is an authorization that fails while exporting and has an old live address neither asked for again nor listed elsewhere |
| `NfsExports.EveryOtherStepKeepsOwnership` | app/device/nfs_export_manager.py:433-638 | one step keeps ownership exactly when it is not that one |
| `NfsExports.AuthorizingKeepsOwnershipWhateverFails` | app/device/nfs_export_manager.py:458-526 | an authorization keeps ownership whatever fails exactly when, beforehand, every old live address is asked for again or listed by another Drone |
| `NfsExports.AnIdentityChangeLeavesNothingLive` | app/device/nfs_export_manager.py:433-455 | after any such operations a successful identity change leaves no grant live and no bind mount |
| `NfsExports.AuthorizeOutcome` | app/device/nfs_export_manager.py:458-526 | the record after an authorization, in every outcome |
| `NfsExports.AuthorizeSucceedsExactly` | app/device/nfs_export_manager.py:458-526 | which outcome an authorization has, by the calls that fail |
| `NfsExports.RestoreIsRight` | app/device/nfs_export_manager.py:560-620 | what a replay keeps, drops and marks, for any order of the table |
| `NfsExports.RestoreBringsBack` | app/device/nfs_export_manager.py:560-620 | whatever was there before, a paired record ends active exactly when the export root can be built and all its exports succeed, and failed otherwise; and an active record has all its grants unless a paired one sharing the address failed |
| `NfsExports.AWorkingRestartServesEveryPairedDrone` | app/device/nfs_export_manager.py:560-620 | a restart whose calls succeed leaves every paired Drone active and served on every path |
| `NfsExports.ARestartForgetsTheUnpaired` | app/device/nfs_export_manager.py:572-596 | when every withdrawal works, a restart forgets exactly the Drones that are not paired any more |
| `NfsExports.RestoreMounts` | app/device/nfs_export_manager.py:592-612 | the bind mounts are there after a restart when some paired Drone needs them, and go, if they can, when none does |
| `NfsExports.AFailedExportIsUndone` | app/device/nfs_export_manager.py:372-384 | a refused export is undone as far as undoing works; one that timed out leaves what was granted before it |
| `NfsExports.RevokeIsRight` | app/device/nfs_export_manager.py:529-557 | a revocation fails exactly when a call for an unshared address fails; with the last record the bind mounts go, if they can |
| `NfsExports.ChangeIdentitySucceedsExactly` | app/device/nfs_export_manager.py:433-455 | an identity change succeeds exactly when each listed address is withdrawn or shown by the kernel to be gone and the mounts go, and tries every listed address in any case |
| `NfsExports.DropIsRight` | app/device/nfs_export_manager.py:529-557 | what only one record lists is withdrawn, and the record goes only when nothing of it is left |
| `NfsExports.OrphanedOrOwned` | app/device/nfs_export_manager.py:484-517 | after a failed export ownership survives exactly when each live old address is wanted again or listed elsewhere |
| `NfsExports.AFailedExportCanOrphanAnAddress` | app/device/nfs_export_manager.py:484-517 | two authorizations from an empty table, the second of which fails to build the export root, after which a live address is listed nowhere |
| `NfsExports.RetiredStaysOwned` | app/device/nfs_export_manager.py:499-517 | an address that could not be retired stays listed with the record |
| `NfsMounts.RomExport.EnsureResolvedRomExport` | app/device/nfs_export_manager.py:304-340 | from any mount table, a pass that returns leaves exactly one mount per resolved source; from an exact table it issues no mount or unmount |
| `NfsMounts.RomExport.DropLegacyMount` | app/device/nfs_export_manager.py:304-340 | a whole-root mount goes with everything below it, children first |
| `NfsMounts.RomExport.DropStaleMounts` | app/device/nfs_export_manager.py:304-340 | exactly the stale, retargeted and nested mounts go, and none from an exact table |
| `NfsMounts.RomExport.EnsureBindMount` | app/device/nfs_export_manager.py:242-258 | the path ends bound to the source, with no command when it already was |
| `RomReferences.OneRevertRestoresTheTree` | app/device/network_share_manager.py:608-736 | after any passes with any failures a revert that reports no error restores the original tree exactly when no row has forgotten a moved folder; it reports none if its own operations succeed |
| `RomReferences.WithoutThatOrderNothingIsForgotten` | app/device/network_share_manager.py:657-689 | forgetting takes a failed rollback and a failed link in a later pass; without that order, and so after one pass, the tree is restored |
| `RomReferences.AFolderCanBeForgotten` | app/device/network_share_manager.py:657-689 | a concrete directory and two passes after which the revert leaves a folder under its .old name |
| `RomReferences.ARepeatedRevertReportsAnError` | app/device/network_share_manager.py:712-736 | a row whose folder was put back makes each later revert report an error |
| `RomReferences.ARepeatedRevertIsQuietExactly` | app/device/network_share_manager.py:712-736 | a second revert whose operations succeed reports no error exactly when the first put no folder back |
| `RomReferences.APassIsPointwise` | app/device/network_share_manager.py:608-689 | a pass treats every system as if it were alone in the original directory |
| `RomReferences.ARevertIsPointwise` | app/device/network_share_manager.py:712-736 | so does a revert, and it reports an error just when some row has one |
| `RomReferences.ApplyOneTracks` | app/device/network_share_manager.py:634-689 | every outcome for one system, and what its row then says of the original |
| `RomReferences.ARowTellsTheTruth` | app/device/network_share_manager.py:634-689 | in any directory, a new row says created exactly when its link stands, and collision exactly when the name was occupied or a copy lies aside of the link |
| `RomReferences.ALinkIsReplacedOrStays` | app/device/network_share_manager.py:643-657 | another peer's link stays; a stale one of this peer is replaced, gone, or cannot be removed |
| `RomReferences.SomethingLocalStays` | app/device/network_share_manager.py:660-689 | something local stays or goes aside as it is, and makes way only where nothing lies aside |
| `RomReferences.ARevertFailsExactly` | app/device/network_share_manager.py:712-736 | a row's revert fails exactly when its link, or the copy to be put back, cannot be moved |
| `RomReferences.ErrorsAreCounted` | app/device/network_share_manager.py:712-736 | as many errors are reported as rows fail |
| `RomReferences.RomDirectory.ApplySystemReferences` | app/device/network_share_manager.py:608-689 | the loop computes the specified pass |
| `RomReferences.RomDirectory.ApplyToSystem` | app/device/network_share_manager.py:634-689 | its body computes the specified step, with every early exit |
| `RomReferences.RomDirectory.RevertSystemReferences` | app/device/network_share_manager.py:712-736 | the loop computes the specified revert |
| `BiosReferences.LocalAlwaysWins` | app/device/network_share_manager.py:782-828 | whatever fails, a pass changes no file or link but the Drone's own into this mount, adds only links at inventory paths, and records or keeps every inventory path |
| `BiosReferences.RevertRemovesExactlyItsLinks` | app/device/network_share_manager.py:845-877 | a revert without errors removes exactly the recorded links into this mount; with nothing failing it has no errors |
| `BiosReferences.ARowTellsTheTruth` | app/device/network_share_manager.py:796-828 | a path is on record as linked exactly when the link stands, and kept exactly when something else stands there or the link cannot be removed |
| `BiosReferences.ARevertFailsExactly` | app/device/network_share_manager.py:845-877 | a revert fails exactly when the link it should take cannot be removed |
| `BiosReferences.AnEmptyDirectoryGoes` | app/device/network_share_manager.py:872-876 | a directory that is left empty goes unless that fails, and never the BIOS directory itself |
| `BiosReferences.RevertRestoresEveryPath` | app/device/network_share_manager.py:782-877 | after any passes over any inventories a revert without errors restores every file path exactly when every link still has its row |
| `BiosReferences.OverOneInventoryTheRevertRestores` | app/device/network_share_manager.py:782-877 | over one inventory that is always so |
| `BiosReferences.AShrunkInventoryForgetsItsLink` | app/device/network_share_manager.py:796-828 | an inventory that shrinks between two passes leaves a link that the revert from rows does not know |
| `BiosDetach.DetachRestoresEveryPath` | app/device/network_share_manager.py:1055-1066 | after any passes over any inventories a detach, the revert and then the walk, that reports no error restores every file path exactly when no forgotten link is hidden from the walk and none has a local .old companion holding a file |
| `BiosDetach.OverOneInventoryTheDetachRestores` | app/device/network_share_manager.py:1055-1066 | over one inventory that is always so |
| `BiosDetach.TheDetachRemovesAForgottenLink` | app/device/network_share_manager.py:1055-1066 | the link that the shrunk inventory forgot does not survive the walk |
| `BiosDetach.AForgottenLinkCanMoveALocalFile` | app/device/network_share_manager.py:883-903 | a forgotten link beside a local .old file, after which an error-free detach leaves that file under another name |
| `BiosDetach.RestoreLocalFallback` | app/device/network_share_manager.py:1055-1066 | the BIOS half of a detach computes the specified one |
| `BiosReferences.BiosDirectory.ApplyBiosReferences` | app/device/network_share_manager.py:782-828 | the loop computes the specified pass |
| `BiosReferences.BiosDirectory.RevertBiosReferences` | app/device/network_share_manager.py:845-877 | the loop computes the specified revert |
| `OrphanRecovery.AWalkLeavesOnlyHiddenLinks` | app/device/network_share_manager.py:906-941 | a walk that reports no error leaves an owned link exactly when one was hidden beforehand: in an unlistable directory, or in a folder that goes back under its own name |
| `OrphanRecovery.AWalkTakesExactlyTheLinks` | app/device/network_share_manager.py:906-941 | a walk that reports no error takes the owned links and leaves every other path as it was, exactly when no link is hidden and no file or link goes back into a link's place |
| `OrphanRecovery.AFolderThatGoesBackKeepsItsLinks` | app/device/network_share_manager.py:883-941 | a concrete tree with no owned .old entry on which an error-free walk leaves a link |
| `OrphanRecovery.NoTopLevelLinkIsLeft` | app/device/network_share_manager.py:906-921 | in the flat ROM directory no owned link is left, and everything else is where it was or back under its own name |
| `OrphanRecovery.NothingLocalIsLost` | app/device/network_share_manager.py:883-941 | whatever fails, every file and foreign link stays, up to names that were moved aside |
| `OrphanRecovery.AWalkReportsNothing` | app/device/network_share_manager.py:906-941 | only failures are reported |
| `OrphanRecovery.RestoreOrRemoveOwnedLink` | app/device/network_share_manager.py:883-903 | one link with its companion, every failure included |
| `OrphanRecovery.AnOwnedLinkEnds` | app/device/network_share_manager.py:883-903 | what becomes of an owned link and its companion, for every failure and for companions that cannot be seen |
| `OrphanRecovery.RestoreOwnedLinks` | app/device/network_share_manager.py:924-938 | the links of one directory, in listing order |
| `OrphanRecovery.RecoverOwnedOrphans` | app/device/network_share_manager.py:906-941 | the walk computes the specified one |
| `ShareLifecycle.DetachIntentIsADurableBoundary` | app/device/network_share_manager.py:1477-1578 | over every interleaving and across reboots, while a record says disabled it stays so and the peer gets no mount, link or overlay |
| `ShareLifecycle.NoStepRevivesADetachedPeer` | app/device/network_share_manager.py:1231-1265 | the same for each single step; the record is deleted only after a clean cleanup, without the overlay, and without a link exactly when none was hidden from the walk |
| `ShareLifecycle.OnlyARequestBringsAPeerBack` | app/device/network_share_manager.py:1157-1228 | once the record is gone and no enable is queued, only a new request brings the peer back |
| `ShareLifecycle.AQueuedEnableOutlivesTheDetach` | app/device/network_share_manager.py:1199-1228 | an enable that is still queued when the detach completes mounts the peer again |
| `ShareLifecycle.OnlyAQueuedEnableBringsItBack` | app/device/network_share_manager.py:1199-1228 | from every state, a deleted and unmounted peer can be mounted again without a new request for it exactly when an enable of it is still queued |
| `ShareLifecycle.BootReplayCompletesTheDetach` | app/device/network_share_manager.py:1620-1640 | an interrupted detach is completed by a boot replay whose cleanup is clean; the peer is unmounted and its overlay gone, and no link is left exactly when none was hidden |
| `ShareLifecycle.ATaskSparesOtherPeers` | app/device/network_share_manager.py:1231-1578 | a thread of one peer leaves the records of the others alone and adds nothing to them |
| `ShareLifecycle.AReferenceIsRefusedWhileDetaching` | app/device/network_share_manager.py:1157-1181 | until then a new reference is refused and changes nothing |
| `ShareLifecycle.AnEnableEnds` | app/device/network_share_manager.py:1231-1474 | how an enable ends that is not refused and whose writes succeed: status, mount, overlay, links and BIOS worker, for every failure of the other calls |
| `ShareLifecycle.AnEnableRaisesExactly` | app/device/network_share_manager.py:1231-1474 | an enable raises exactly when it is refused, a write it needs fails or its BIOS worker cannot start; refused, it changes nothing |
| `ShareLifecycle.ADisableEnds` | app/device/network_share_manager.py:1477-1524 | a disable raises exactly when a write fails; else the record is gone after a clean cleanup and failed after any other |
| `ShareLifecycle.AnotherIsActiveExactly` | app/device/network_share_manager.py:1157-1165 | another reference stands in the way exactly when another peer is wanted and this one is not wanted before it |
| `ShareLifecycle.ARequestToEnableIsAnswered` | app/device/network_share_manager.py:1157-1228 | a refused request changes nothing; an accepted one is on record and succeeds exactly when one thread works on it |
| `ShareLifecycle.ARequestToDisableIsAnswered` | app/device/network_share_manager.py:1527-1578 | so does a request to disable |
| `ShareLifecycle.ALiveProbeChangesNothingElse` | app/device/network_share_manager.py:1664-1671 | a live probe leaves mounts, links, overlay and other records alone and sets the status right |
| `ShareLifecycle.ADeadProbeRemounts` | app/device/network_share_manager.py:1672-1674 | a dead probe unmounts and enables again: mounted with its overlay if the calls succeed, otherwise without a mount and unreachable or failed |
| `ShareLifecycle.AStaleProbeDoesNothing` | app/device/network_share_manager.py:1656-1663 | a probe that a detach has overtaken does nothing |
| `ShareLifecycle.TheWatchdogProbesEveryShare` | app/device/network_share_manager.py:1643-1656 | each turn of the watchdog probes every share that is enabled and not being detached, once, and nothing else |
| `ShareLifecycle.BootReplaysEveryShare` | app/device/network_share_manager.py:1620-1636 | boot replay takes up every share once, to finish a detach or to enable it |
| `ShareLifecycle.AReplayIsOne` | app/device/network_share_manager.py:1620-1640 | a replay is that disable or enable, and a reboot leaves what is durable |
| `ShareLifecycle.AStatusIsEarned` | app/device/network_share_manager.py:1068-1681 | no step lets a record say mounted without a mount or a live probe |
| `ShareLifecycle.OneThreadOfAKind` | app/device/network_share_manager.py:1199-1578 | over every interleaving at most one thread enables, one disables and one links the BIOS of a peer |
| `ShareLifecycle.AThreadReportsItsFailure` | app/device/network_share_manager.py:1199-1578 | a thread leaves its failure to be recorded exactly when its call raised |
| `ShareLifecycle.AFailureIsRecorded` | app/device/network_share_manager.py:1199-1681 | what each failure handler writes, and when it does not |
| `ShareLifecycle.TheBiosWorkerStarts` | app/device/network_share_manager.py:1068-1100 | the BIOS worker goes on only while the peer is wanted |
| `ShareLifecycle.TheBiosWorkerLinks` | app/device/network_share_manager.py:1100-1122 | and links just what it was given, only while the reference stands mounted |
| `ShareLifecycle.ShareManager.EnableLocked` | app/device/network_share_manager.py:1231-1474 | enabling under the lock, with every early return |
| `ShareLifecycle.ShareManager.MountAndInstall` | app/device/network_share_manager.py:1277-1411 | mounting, the readability checks and the overlay |
| `ShareLifecycle.ShareManager.InstallOverlay` | app/device/network_share_manager.py:1372-1474 | overlay, record and the BIOS worker |
| `ShareLifecycle.ShareManager.GiveUp` | app/device/network_share_manager.py:1297-1319 | the retreat: local paths first, then unmount, then the record |
| `ShareLifecycle.ShareManager.DisableLocked` | app/device/network_share_manager.py:1477-1524 | disabling under the lock; the first write is the intent |
| `ShareLifecycle.ShareManager.AcceptEnable` | app/device/network_share_manager.py:1157-1228 | a request to enable |
| `ShareLifecycle.ShareManager.AcceptDisable` | app/device/network_share_manager.py:1527-1578 | a request to disable |
| `ShareLifecycle.ShareManager.HandleProbe` | app/device/network_share_manager.py:1643-1681 | the watchdog, which re-checks the record under the lock |
| `ShareLifecycle.ShareManager.ReconcileBios` | app/device/network_share_manager.py:1068-1122 | the BIOS worker, which re-checks the record before it links |
| `ShareLifecycle.ShareManager.HandleFailure` | app/device/network_share_manager.py:1199-1228 | what a thread writes after its call raised |
| `ShareLifecycle.ShareManager.ReplayShare` | app/device/network_share_manager.py:1620-1640 | boot replay of one share |
| `ShareLifecycle.ShareManager.Continue` | app/device/network_share_manager.py:1068-1681 | a thread's next locked step is the specified step |
| `ShareLifecycle.ShareManager.Handle` | app/device/network_share_manager.py:1068-1681 | any event computes the specified step |
| `ShareLifecycle.HandleWhileDetaching` | app/device/network_share_manager.py:1477-1578 | the detach boundary read off the running manager |
| `ShareLifecycle.HandleAllWhileDetaching` | app/device/network_share_manager.py:1477-1578 | the same over any events as long as the record is there |
| `InputActivity.PeriodicNoiseIsNeverInput` | app/input_activity_monitor.py:104-182 | while every axis only follows a two-value wave, with jitter, nothing counts as input, however events are batched and whichever axes are dropped when |
| `InputActivity.OnlyAShortRhythmIsConfirmed` | app/input_activity_monitor.py:167-182 | when a wave stops, an axis with four noted edges is never confirmed, and one with fewer exactly after ten seconds |
| `InputActivity.AHeldChangeIsReportedExactlyOnce` | app/input_activity_monitor.py:132-182 | a lone change is not reported at once, and held it is reported by exactly one confirmation, the first at least ten seconds later |
| `InputActivity.AThirdPoleIsReportedAtOnce` | app/input_activity_monitor.py:104-165 | a third distinct pole is reported at once, whatever the history says |
| `InputActivity.LeavingTheRhythmIsReported` | app/input_activity_monitor.py:113-165 | a pause well beyond a wave's longest interval is reported when it ends |
| `InputActivity.TwoLevelsAreTwoPoles` | app/input_activity_monitor.py:104-110 | values near two levels collapse to at most two poles |
| `InputActivity.PolesCoverTheValues` | app/input_activity_monitor.py:104-110 | poles are more than a deadzone apart, and every value lies within a deadzone of one |
| `InputActivity.NotingAnEdgeIsSilent` | app/input_activity_monitor.py:132-165 | one more edge of the wave is silent, and the axis is periodic from the fourth edge on |
| `InputActivity.ARhythmIsJudgedExactly` | app/input_activity_monitor.py:113-165 | with fewer than three poles a change counts exactly when it breaks a recognized rhythm, and a rhythm is recognized exactly when the last four changes keep one: mean and slop in terms of their four times |
| `InputActivity.KeysAndMovesCount` | app/input_activity_monitor.py:263-272 | keys count, and relative movements unless they are none |
| `InputActivity.ASmallMoveIsNoInput` | app/input_activity_monitor.py:273-281 | an axis that is new or moves within its deadzone only has its level noted |
| `InputActivity.AConfirmedAxisStartsAfresh` | app/input_activity_monitor.py:167-182 | confirming starts an axis afresh from its last level and leaves all others |
| `InputActivity.ABatchCountsExactly` | app/input_activity_monitor.py:230-290 | a batch counts exactly when some event of it does |
| `InputActivity.ARunCountsExactly` | app/input_activity_monitor.py:313-361 | a run of the monitor counts exactly when some turn of it does |
| `InputActivity.InputMonitor.CollapsePoles` | app/input_activity_monitor.py:104-110 | the loop computes the specified poles |
| `InputActivity.InputMonitor.AreRegular` | app/input_activity_monitor.py:113-120 | the loops decide the specified regularity |
| `InputActivity.InputMonitor.NoteAbsTransition` | app/input_activity_monitor.py:132-165 | a noted change, with its early returns |
| `InputActivity.InputMonitor.ConfirmPendingAxes` | app/input_activity_monitor.py:167-182 | the loop over all axes |
| `InputActivity.InputMonitor.ReadDeliberateInput` | app/input_activity_monitor.py:230-290 | the event loop over a batch |
| `InputActivity.InputMonitor.HandleEvent` | app/input_activity_monitor.py:263-288 | one event |
| `InputActivity.InputMonitor.Watch` | app/input_activity_monitor.py:313-361 | any turns of the monitor's loop, with batches, confirmations, lost devices and rescans, compute the specified state and answer |
| `InputActivity.InputMonitor.DropAxes` | app/input_activity_monitor.py:185-188 | a device that goes away takes just its own axes along |
| `Multipart.ParsingInvertsPrinting` | app/common/multipart.py:44-70 | for every message printed after section 5.1.1 of RFC 2046 and section 4 of RFC 7578, parsing returns the same names, content types and exact bodies exactly when no name is ambiguous |
| `Multipart.PrintedMessagesAreRead` | app/common/multipart.py:12-70 | what is read in general: every part's exact bytes, and which name |
| `Multipart.TheParsersAgree` | app/common/multipart.py:12-70 | the two parsers agree on every body, well formed or not, apart from the content type |
| `Multipart.NameIsRead` | app/common/multipart.py:36-38 | the file name that is read off a disposition, for all field and file names without quotation marks |
| `Multipart.AnAmbiguousNameIsMisread` | app/common/multipart.py:36-38 | a concrete part whose file name is read wrongly |
| `Multipart.HeadersEnd` | app/common/multipart.py:24-29 | the headers end at the first empty line |
| `Multipart.StripTakesTheEndsOff` | app/common/multipart.py:60-61 | stripping takes off the white space at both ends, all of it and nothing else |
| `Multipart.MessageSplits` | app/common/multipart.py:19-23 | splitting at the delimiter separates exactly the printed parts |
| `Multipart.ParseMultipartFiles` | app/common/multipart.py:12-41 | the first parser computes its specification |
| `Multipart.ParseMultipartFileParts` | app/common/multipart.py:44-70 | so does the second |
| `GameHistory.TheLogIsPaired` | app/device/game_activity.py:275-294 | for any observations and any failing writes the log is whole plays, start before end, and perhaps one open start |
| `GameHistory.APollCatchesUp` | app/device/game_activity.py:275-294 | after a poll whose writes succeed a game is active exactly when one runs, and it is that one, whatever failed before |
| `GameHistory.PlaysAreTheRuns` | app/device/game_activity.py:275-294 | while all writes succeed the plays are exactly the longest runs of looks that saw one game, each from its first look to the first that saw something else, and the open game is the last run |
| `GameHistory.AFailedWriteDelaysWhatIsSeen` | app/device/game_activity.py:275-294 | with failing writes the log is that of some fully written observations at the same times |
| `GameHistory.HistoryDoesNotDependOnDraining` | app/device/game_activity.py:482-556 | any batches of a complete log, drained again any number of times, end with the state of one pass |
| `GameHistory.DrainingAgainChangesNothing` | app/device/game_activity.py:482-556 | draining again what was drained leaves all rows but that of a play still on as they were |
| `GameHistory.EveryPlayIsStored` | app/device/game_activity.py:482-556 | each play of a known system has its row with its duration, unless a later play has the same identity |
| `GameHistory.WhatIsSeenIsStored` | app/device/game_activity.py:240-294 | from the process table to the stored rows, for any observations, failing writes and drains |
| `GameHistory.EachRunIsStored` | app/device/game_activity.py:240-294 | while all writes succeed, a row for each such run, for any draining |
| `GameHistory.ClosingStores` | app/device/game_activity.py:343-373 | closing a session stores its row, whatever the row held before, and touches no other |
| `GameHistory.GameProcessMonitor.PollOnce` | app/device/game_activity.py:275-294 | one poll, with its early returns |
| `GameHistory.GameHistoryStore.CollectGameEventSessions` | app/device/game_activity.py:482-556 | the drain loop computes the specified state |
| `GameHistory.GameHistoryStore.StoreGameplayHistory` | app/device/game_activity.py:464-472 | the store loop |
| `GeneratorPatch.UnpatchUndoesPatch` | app/device/admin_fixes.py:363-418 | unpatching gives a source without markers back exactly when the recognized line is terminated |
| `GeneratorPatch.PatchingAgain` | app/device/admin_fixes.py:363-407 | then patching again changes nothing; on an unterminated line every further patch adds a line break |
| `GeneratorPatch.ALegacyBlockIsGoneAfterBoth` | app/device/admin_fixes.py:329-418 | a legacy block present at the first patch is gone and does not come back |
| `GeneratorPatch.UnpatchingTakesTheBlockOut` | app/device/admin_fixes.py:317-326 | what unpatching gives back in every case |
| `GeneratorPatch.TheWordingIsSound` | app/device/admin_fixes.py:28-30 | the actual markers and lines meet what the proofs ask of them |
| `GeneratorPatch.Generator.RemoveMarkedBlock` | app/device/admin_fixes.py:317-326 | whole lines from the first start marker to the end marker after it go, and a missing end marker is refused |
| `GeneratorPatch.Generator.PatchSwitchGenerator` | app/device/admin_fixes.py:363-407 | nothing changes unless the layout is recognized, and the file changes only after its pristine copy is kept |
| `GeneratorPatch.Generator.UnpatchSwitchGenerator` | app/device/admin_fixes.py:410-418 | the blocks are taken out, or the file stays |
| `RotatingLog.OnlyTheOldestLinesAreLost` | app/common/logging_setup.py:77-97 | the backups from oldest to newest and the current file are always a suffix of all complete lines ever written |
| `RotatingLog.LinesDoNotDependOnTheSplit` | app/common/logging_setup.py:77-91 | the complete lines depend on the whole text only, not on where it was cut |
| `RotatingLog.ARolloverLosesWholeFiles` | app/common/logging_setup.py:45-71 | a rollover loses nothing or the oldest backup as a whole, and the current file ends below a positive limit |
| `RotatingLog.ARolloverHappensExactly` | app/common/logging_setup.py:45-71 | the file is rolled exactly when it has reached a positive limit, and then becomes the first backup |
| `RotatingLog.NoMoreBackupsThanAllowed` | app/common/logging_setup.py:45-71 | no more backups exist than allowed |
| `RotatingLog.TeeRotatingStream.RolloverIfNeeded` | app/common/logging_setup.py:45-71 | the descending renames compute the specified rollover |
| `RotatingLog.TeeRotatingStream.WriteData` | app/common/logging_setup.py:77-97 | one write, after which the current file is below a positive limit unless nothing was written |
| `RotatingLog.TeeRotatingStream.TakeLines` | app/common/logging_setup.py:82-86 | the buffer is cut at its line breaks |
| `HttpCache.TheCacheRefinesAMap` | app/common/http_cache.py:19-67 | over every history each cached item is the latest accepted put of its key, keys are distinct, and number and bytes are within the limits |
| `HttpCache.AGetReturnsOnlyTheLatestPut` | app/common/http_cache.py:35-42 | a get returns the latest accepted and unexpired put of its key or nothing |
| `HttpCache.AFreshPutIsFound` | app/common/http_cache.py:35-67 | an accepted put is found as long as it has not expired |
| `HttpCache.PutIsRight` | app/common/http_cache.py:44-67 | the survivors of an accepted put are the longest suffix of recent use that fits both limits |
| `HttpCache.GetIsRight` | app/common/http_cache.py:28-42 | exactly the unexpired items stay, and the one returned becomes the most recent |
| `HttpCache.ExpiringLRUCache.PutItem` | app/common/http_cache.py:44-67 | the put with its eviction loop, and the byte count stays the sum of the sizes |
| `HttpCache.ExpiringLRUCache.GetItem` | app/common/http_cache.py:35-42 | the get with its pruning loop |
| `HttpCache.ExpiringLRUCache.PruneExpired` | app/common/http_cache.py:28-33 | what has expired is dropped and no longer counted |
| `AuthLimits.AllowedIffFewerInTheWindow` | app/common/auth.py:448-462 | after any history a request is allowed exactly when fewer than the limit were allowed from its address in the window that ends with it |
| `AuthLimits.NoWindowHoldsMore` | app/common/auth.py:448-462 | no window of that length ever holds more allowed requests than the limit |
| `AuthLimits.OthersAreAlwaysAllowed` | app/common/auth.py:440-452 | addresses outside the rule, or all while it is off, are always allowed and leave no trace |
| `AuthLimits.BlockedExactlyOnTheThreshold` | app/common/auth.py:380-411 | after any history a refusal blocks exactly when it is the threshold-th in the window since the address was last unblocked |
| `AuthLimits.ABlockStartsAfresh` | app/common/auth.py:380-411 | a block forgets the refusals that led to it, and exempt or blocked addresses are never counted |
| `AuthLimits.BlockedExactlyForTheDuration` | app/common/auth.py:414-431 | from that refusal on the address is blocked exactly for the duration, as far as anyone asks |
| `AuthLimits.AskedAtAnyTime` | app/common/auth.py:414-431 | an answer always is what the rule says of the address |
| `AuthLimits.UnauthenticatedLimiter.RequestAllowed` | app/common/auth.py:448-462 | the limiter with its loop |
| `AuthLimits.AuthBlocker.RecordUnauthorizedResponse` | app/common/auth.py:380-411 | the recording of a refusal with its loop |
| `AuthLimits.AuthBlocker.IsIpBlocked` | app/common/auth.py:414-431 | the question, which expires a block lazily |

## Left out

Identity:

- The history and diagnostic fields of the binding, the status payload and log messages: they decide nothing.
- The separate HTTPS leaf certificate and the revocation of browser and agent sessions, which are best effort.
- The provisioning lock, time limits, externally managed and fake-data identities, and a relative userdata root.
- Symlink checks on the device-id file, and reading the identity through the device-identity module, which is not part of this model.
- The up or down state of the tailnet node: only its key is modelled, and a reset that reports success has cleared it, although the source also reports that when the state directory cannot be listed (`app/device/tailnet_service.py:502-523`).
- A file that is intact but cannot be read in one boot: the source takes it for corrupt then (`app/common/identity_provisioning.py:248-262`), the model reads what is on the disk.
- CloneSafety.TheTailnetGateIsClosedToTheSourceNode: speaks of the node key only where a client could always clear it, see above.
- CloneSafety.ACloneNeverJoinsAsItsSource: asks for at most twenty retired ids on the copied disk where it speaks of the device id, because older ones are forgotten (`app/common/identity_provisioning.py:836-837`); for a disk copied in the middle of another machine's run it speaks of certificates, swarm and node key, because the half-made id is kept in memory only until the restart has committed.
- Resumption.InterruptedProvisioningConverges: asks that the helpers work in the last boot, that the run's own certificate does not expire meanwhile and that the environment does not pin another id that was never retired, because the source cannot keep them otherwise.
- Collect: the rules that recognise a filler value are a parameter, and so is the digest.
- Equal virtual hardware and machines without any unique identifier, which the repository's documentation excludes.

NFS exports and network references:

- ExportManager.AuthorizePeer: ownership after a failed export is stated as an if-and-only-if instead of always, see above.
- NFS exports: the checks that refuse a Drone that is not paired, or any while NFS is unavailable, before anything is read.
- Failures of stat inside the directory comparison, and a mount list that cannot be read.
- A crash of the state database between two records; one save is one step.
- RomReferences: the list of systems is fixed per pass and fetched elsewhere; a mount that cannot be listed leaves rows and tree as they are.
- BiosReferences: rows of old versions that renamed a BIOS file aside; paths behind somebody's symlink lead outside the tree and are an unconstrained outcome.
- OrphanRecovery.AWalkLeavesOnlyHiddenLinks: assumes that no entry moved aside is itself an owned link; what happens then depends on the listing order.
- ShareLifecycle: steps are atomic across peers as well, although the locks are per peer, so "one referenced peer at a time" is not stated; the state has its current schema; which links a cleanup leaves behind, and which are hidden from its walk, is an outcome, its rows and walk being the subject of the other files; resolving peers, transports and selection filters are outcomes too.
- Legacy migration, which leaves a detach open when it reports errors.

Smaller parts:

- InputActivity: floating-point rounding of times and means; reading device files, deadzones from the kernel, and the throttled activity file.
- InputActivity.LeavingTheRhythmIsReported: gives a sufficient pause, not the exact bound, which depends on the two intervals before.
- Multipart: decoding of header bytes as UTF-8 and case folding beyond ASCII; the boundary is given, its extraction from the header is not modelled.
- GameHistory: a crash inside one drain call, between saving the active sessions and storing the rows; resolving ROM paths, which is a fixed function; rows are identified by exact names, not by their lower-case forms.
- GameHistory.HistoryDoesNotDependOnDraining: files of a batch are deleted from its front, so what is drained again is a suffix.
- GeneratorPatch: the pattern of the recognized line is a parameter with the guarantees that its anchors give; compiling the result is an outcome; file modes.
- RotatingLog: sizes count characters; the console echo.
- RotatingLog.OnlyTheOldestLinesAreLost: asks that no backup beyond the allowed number exists at the start, because such a file is never touched.
- HttpCache: a negative item limit, with which the source raises on an empty cache; the key-only cache.
- AuthLimits: parsing of addresses; which ones are exempt or external is a parameter.

Outside the scope: HTTP handlers, TLS listeners and routing, the Ports client, screen mode, volume and collection scripts, metrics, speed tests, settings, casting, self-update, config backup paths, range parsing, sampled fingerprints and idle automations.
