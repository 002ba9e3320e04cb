# External storage provisioners, modelled in Dafny

The repository holds provisioners that create, clean, delete and snapshot Kubernetes volumes,
and the libraries they share. This project models the small stateful engines inside them and
proves what they promise. API servers, goroutines, files, storage plugins and cloud services
appear as state that steps read and write, and every call's success or failure is a parameter.

| files | engine |
|---|---|
| `CleanupProtocol`, `CleanupTracking`, `CleanupSafety`, `CleanupLimits`, `LocalVolumes`, `ProcTable`, `VolumeCache` | local volumes: deletion pass, discovery pass, cleaner goroutines, informer events |
| `BlockFile`, `Projects`, `Quota`, `Exports`, `NfsVolumes` | NFS: ids in a map and in a text file, rollback, restart |
| `WorkQueue`, `QueueRetries`, `QueueProgress` | the provision controller's queues, retry budget and workers |
| `Provisioning`, `ProvisioningSafety`, `ProvisioningLimits`, `ProvisionOperations` | provision and delete operations of many workers |
| `MinMaxAllocator`, `Gids`, `GidAllocator`, `GidSafety`, `GidLife` | GID allocation |
| `Snapshotter`, `SnapshotSafety`, `SnapshotLimits`, `SnapshotOutcomes` | volume snapshots |
| `LoadBalancer`, `IpPermissions`, `DeviceAllocator` | AWS |
| `CephCaps`, `GlusterAnnotations`, `TargetdLun` | capability strings, annotations, LUNs |
| `Text`, `Common` | replace-all, split, join, decimal numbers; results and options |

Concurrency is modelled as a state machine: `Enabled` says which steps are possible, `Apply`
what a step does, `Run` what a sequence of steps does. Main results are about every run. What the
cluster must guarantee for them is a named predicate on single steps, and the `Limits` files show
for each of these what happens without it: an exact condition for one step, or a run that fails.

Safety alone would also hold of a machine that does too little. So other results say what the
steps achieve: what each answer and condition leads to, that work which is due is not lost and ends
(`QueueProgress`, `SnapshotOutcomes`), and that making a thing and removing it leaves nothing behind
(`GidLife`, `ProvisionOperations`, `NfsVolumes`).

Where the code of such steps has loops (`LocalVolumes`, `ProvisionOperations`), the code is a class
with methods, and each method is proved to be a run of the machine when nothing interrupts it, and
to have the effect on every name that the code has.

Objects whose methods change their fields are classes; each method states its whole new state, or
ties it to a function about which the properties are proved.

## Where the code does less than it seems to promise

These are proved, with the exact condition under which the code does meet the promise.

- `createProvisionedPVRetryCount` 0: the create loop leaves the error nil, and a provisioned asset
  is lost while the operation reports success (`ProvisioningLimits.NothingLeaksIffRetries`).
- `forgetWork` calls `Done` on a key that may be in process: two workers can then hold the key and
  the failure count can pass the threshold (`QueueRetries.DoneHarmlessIff`).
- The GID allocator ignores the error of its StorageClass read: the GID is then released in the
  table of the class "" instead of the volume's own (`GidSafety.ReleaseFreesOwnIff`), and is lost to
  that class for as long as the process runs (`GidSafety.OrphanStays`), so that a class can be full
  without a volume (`GidSafety.FailedReadLosesGid`).
- The cached free count wraps: a range with 2^63 or more free numbers is reported full
  (`MinMaxAllocators.MinMaxAllocator.AllocateNext`).
- Snapshot recovery: `findVolumeSnapshotMetadata` returns the address of its map, so its nil test
  never holds; recovery reads a label "pvName" that is never set ("SnapshotMetadata-PVName" is),
  so it ends in an error (`SnapshotSafety.RecoveryAlwaysFails`), and if a user sets that label it can
  make several data objects, under a name that is not the unique one
  (`SnapshotLimits.OneDataEachIffUnlabelled`).
- `Ungroup` starts its second loop over from the whole input at every copy: grants are kept, but
  permissions with several pairs stay unsplit (`IpPermissions.IPPermissionSet.Ungroup`).
- A quota failure in the NFS provisioner's `createVolume` leaves the export behind
  (`NfsVolumes.NfsProvisioner.CreateVolume`); an export subnet with "fsid=<number>" in it, which is
  free text on the command line, reserves that id after a restart (`Exports.RestartExactIff`,
  `Exports.SubnetReservesId`).
- A failed append that has written a part of the block, and a rollback that does not write all of
  the old text back, leave NFS map and file in a state that no list of projects or exports explains
  (`Quota.XfsQuotaer.AddProject`, `NfsVolumes.KernelExporter.CreateExport`); a restart ignores such
  failures and goes on (`Quota.XfsQuotaer.RestoreQuotas`).
- An NFS deletion that is repeated removes its two ids once more. If they have been given out in
  between, a live volume loses them, and the next volume gets them, too
  (`Quota.RemoveAgreesIff`, `NfsVolumes.RemoveAgreesIff`; the run is
  `NfsVolumes.RepeatedDeletion`).
- Ceph shares in one pool without namespaces take each other's data capability away
  (`CephCaps.OthersUntouchedIff`); the test for "allow r" before deleting an entity has no effect.
- The first available LUN is not the least unused one when a LUN is negative
  (`TargetdLun.GapLeastIff`).

## Model

| member | source | states |
|---|---|---|
| `CleanupSafety.DeletedOnlyAfterItsOwnCleaning` | local-volume/provisioner/pkg/deleter/deleter.go:114-193 | in every run that keeps the three rules, the deleter deletes a PV object only after a cleaning of that same object, started while it was Released, succeeded, with no phase change or replacement since; a table entry means that its PV exists and is Released |
| `CleanupSafety.StepKeepsGuarded` | local-volume/provisioner/pkg/deleter/deleter.go:70-103 | every step of main loop, cleaners, informer and cluster keeps the invariant behind that result |
| `CleanupLimits.DeletionByOthersHarmlessIff` | local-volume/provisioner/pkg/deleter/deleter.go:136-152 | a deletion by somebody else keeps the table meaningful iff the table has no entry for the name |
| `CleanupLimits.PhaseChangeHarmlessIff` | local-volume/provisioner/pkg/deleter/deleter.go:70-83 | so does a phase change, also one that takes a Released PV back |
| `CleanupLimits.StartSoundIff` | local-volume/provisioner/pkg/deleter/deleter.go:195-223 | starting a cleaner is sound iff the cached PV is still the Released object in the API server |
| `CleanupLimits.OthersMustSpareReleased` | local-volume/provisioner/pkg/deleter/deleter.go:142-152 | a run from a fresh start that breaks only the rule on deletions by others and deletes an uncleaned successor |
| `CleanupLimits.CacheMustSeeDeletions` | local-volume/provisioner/pkg/deleter/deleter.go:71-78 | a run that breaks only the rule on the cache and deletes an uncleaned successor |
| `CleanupLimits.ReleasedMustStayReleased` | local-volume/provisioner/pkg/deleter/deleter.go:71-85 | a run that breaks only the rule on Released PVs and deletes a PV used after its cleaning |
| `CleanupLimits.ClusterMayAct` | local-volume/provisioner/pkg/populator/populator.go:65-81 | the machine itself excludes nothing: objects come, change and go at any time, the informer shows any version and any deletion, cleanings end either way |
| `CleanupTracking.TableAgreesWithCleaners` | local-volume/provisioner/pkg/deleter/deleter.go:195-223 | in every run, whatever the cluster does: a CSRunning entry exists iff exactly one cleaner is live for the name, no PV is created while its cleaner is live, and no entry is missing or in the way between two accesses |
| `CleanupTracking.StatsAddUp` | local-volume/provisioner/pkg/deleter/proctable.go:146-160 | in every run, cleanings started = running + succeeded + failed |
| `CleanupTracking.StepKeepsTracked` | local-volume/provisioner/pkg/discovery/discovery.go:204-259 | every step, the discoverer's check and creation included, keeps the table and the live cleaners in agreement |
| `CleanupTracking.OnlyReclaimableCleaned` | local-volume/provisioner/pkg/deleter/deleter.go:70-92 | in every run, whatever the cluster does: the deleter decides only on PVs that it has seen Released and with policy Delete, and every object whose cleaning starts was stored so once |
| `CleanupTracking.LogTellsTruth` | local-volume/provisioner/pkg/deleter/deleter.go:136-223 | each creation, phase change, start and end of a cleaning, and deletion is of the object that the API server has under that name, with exactly that effect; a step that is none of these changes no object but its policy and annotation |
| `CleanupTracking.LogReplays` | local-volume/provisioner/pkg/deleter/deleter.go:136-223 | in every run the events replay to exactly the objects that the API server has |
| `CleanupTracking.EditReachesCache` | local-volume/provisioner/pkg/populator/populator.go:65-81 | an edited PV is seen by the informer, and taken if the cache has the PV or the annotation is this provisioner's |
| `CleanupTracking.ForeignStaysOut` | local-volume/provisioner/pkg/populator/populator.go:65-81 | an update of a PV of another provisioner that is not cached changes nothing |
| `LocalVolumes.LocalProvisioner.DeletePVs` | local-volume/provisioner/pkg/deleter/deleter.go:70-103 | a pass without interruption is a run of that machine; every name whose cached PV is not Released, has another policy than Delete, or is being cleaned keeps object and entry; a cleaned PV is deleted, any other gets a cleaner, and the entry is gone also when that call fails |
| `LocalVolumes.LocalProvisioner.DeletePV` | local-volume/provisioner/pkg/deleter/deleter.go:114-193 | nothing while a cleaning runs, deletion after a successful one, a new cleaning otherwise; the entry is gone also when the call fails; other names untouched |
| `LocalVolumes.LocalProvisioner.RunProcess` | local-volume/provisioner/pkg/deleter/deleter.go:195-205 | a cleaner starts iff the table takes the name |
| `LocalVolumes.LocalProvisioner.DiscoverVolumes` | local-volume/provisioner/pkg/discovery/discovery.go:204-260 | a pass without interruption is a run of that machine; exactly the usable files that are neither cached nor being cleaned get a PV, existing objects stay |
| `LocalVolumes.LocalProvisioner.CreatePV` | local-volume/provisioner/pkg/discovery/discovery.go:294-330 | a new Available object with this provisioner's annotation, unless the name is taken |
| `ProcTables.ProcTableImpl.IsRunning` | local-volume/provisioner/pkg/deleter/proctable.go:66-75 | true iff the name is among the running cleanings |
| `ProcTables.ProcTableImpl.IsEmpty` | local-volume/provisioner/pkg/deleter/proctable.go:78-82 | true iff there is no entry |
| `ProcTables.ProcTableImpl.MarkRunning` | local-volume/provisioner/pkg/deleter/proctable.go:85-94 | adds exactly this name, running since now; refused, with the table kept, iff there is an entry; no counter moves |
| `ProcTables.ProcTableImpl.MarkStatus` | local-volume/provisioner/pkg/deleter/proctable.go:106-124 | sets the status of an existing entry, whose start time stays; the counter of the status moves even if the entry is missing |
| `ProcTables.ProcTableImpl.RemoveEntry` | local-volume/provisioner/pkg/deleter/proctable.go:128-143 | fails, with the table kept, iff the entry is running or unknown; reports status and start time of any other and removes it alone |
| `ProcTables.ProcTableImpl.Stats` | local-volume/provisioner/pkg/deleter/proctable.go:146-160 | the number of running entries, by a loop in any order, and both counters |
| `VolumeCaches.VolumeCache.GetPV` | local-volume/provisioner/pkg/cache/cache.go:41-47 | finds exactly the cached PV |
| `VolumeCaches.VolumeCache.ListPVs` | local-volume/provisioner/pkg/cache/cache.go:77-86 | every cached PV once, in some order |
| `VolumeCaches.VolumeCache.AddPV` | local-volume/provisioner/pkg/cache/cache.go:50-56 | files the PV under its own name, nothing else changes |
| `VolumeCaches.VolumeCache.UpdatePV` | local-volume/provisioner/pkg/cache/cache.go:59-65 | replaces the PV of that name, nothing else changes |
| `VolumeCaches.VolumeCache.DeletePV` | local-volume/provisioner/pkg/cache/cache.go:68-74 | removes that name only |
| `VolumeCaches.Populator.HandleUpdate` | local-volume/provisioner/pkg/populator/populator.go:65-81 | the PV is stored iff its name is cached or its annotation is this provisioner's; nothing else changes |
| `VolumeCaches.Populator.HandleDelete` | local-volume/provisioner/pkg/populator/populator.go:83-89 | the deleted PV's name leaves the cache, nothing else changes |
| `BlockFile.RemoveWholeBlock` | nfs/pkg/volume/util.go:96-114 | on any file of one-line blocks, replace-all of one block removes exactly the lines equal to its line: no occurrence straddles two blocks |
| `BlockFile.RemoveBlock` | nfs/pkg/volume/util.go:96-114 | the same on a file that ends in an unfinished block, which stays |
| `BlockFile.AppendThenRemove` | nfs/pkg/volume/util.go:76-114 | appending a new block and removing it gives the file back |
| `BlockFile.CutFile` | nfs/pkg/volume/util.go:105-110 | a file cut off by a failed rewrite holds some of its first blocks whole, and at most the start of the next |
| `Projects.IdsOfFile` | nfs/pkg/volume/quota.go:83-98 | the pattern of the id scan reads exactly the ids of the projects in the file |
| `Projects.IdOnLineIff` | nfs/pkg/volume/quota.go:83-98 | the pattern of the id scan on any line: digits, ":/" and at least one more character, for a number of 16 bits |
| `Projects.IdsInIff` | nfs/pkg/volume/util.go:52-74 | the scan of any text finds an id iff some line matches with it |
| `Projects.MatchesOfFile` | nfs/pkg/volume/quota.go:147-153 | the pattern of the restore parses back exactly the list of ids, directories (which may contain a colon) and limits |
| `Projects.MatchLineIff` | nfs/pkg/volume/quota.go:147-153 | the pattern of the restore on any line: digits, directory and limit, where the limit holds no colon unless at its end |
| `Projects.FileDeterminesProjects` | nfs/pkg/volume/quota.go:170-193 | printing is injective: one file, one list of projects |
| `Projects.ProjectText` | nfs/pkg/volume/quota.go:170-176 | the exact text that is appended for a project |
| `Projects.RemoveProjectFromFile` | nfs/pkg/volume/quota.go:195-198 | removing a project's block removes that project and its id only, and nothing if the project is not there |
| `Projects.AddProjectToFile` | nfs/pkg/volume/quota.go:170-193 | an appended block is the file of the longer list; taking it out again gives the file back |
| `Quota.ScanEndsIff` | nfs/pkg/volume/util.go:31-42 | the loop of generateID, guard, break and wrapping increment included, ends iff some 16-bit id is unused, and then with an unused id |
| `Quota.NextId` | nfs/pkg/volume/util.go:31-42 | the id with which that loop ends: the least unused id of 1..65535 if there is one, else 0 |
| `Quota.AgreementIsUnique` | nfs/pkg/volume/util.go:52-74 | map and file agree for at most one list, and a restart would load exactly the ids in the map |
| `Quota.XfsQuotaer.constructor` | nfs/pkg/volume/quota.go:83-113 | a restart on any file that a list of projects made agrees with exactly that list |
| `Quota.XfsQuotaer.LoadIds` | nfs/pkg/volume/util.go:52-74 | the loop over lines finds exactly the ids of the pattern |
| `Quota.XfsQuotaer.AddProject` | nfs/pkg/volume/quota.go:170-193 | success adds one project with the next id; failure leaves the map as it was, and map and file still agree iff a failed append wrote nothing or the rollback wrote all of the old text back; otherwise no list explains the state |
| `Quota.XfsQuotaer.RemoveProject` | nfs/pkg/volume/quota.go:195-198 | for any project, live or not, and any answer to the rewrite: map and file still agree iff the id was its own or nobody's and the file ends with the new text |
| `Quota.RemoveAgreesIff` | nfs/pkg/volume/quota.go:195-198 | the same for every map and file that agree, and when no list at all explains the result |
| `Quota.FailedAppendIff` | nfs/pkg/volume/util.go:76-94 | a failed append leaves an agreeing state iff none of the block was written |
| `Quota.SecondRemovalIff` | nfs/pkg/volume/quota.go:195-198 | a repeated removal leaves the file alone, and some list still explains map and file iff the id has not been given out again |
| `Quota.XfsQuotaer.SetQuota` | nfs/pkg/volume/quota.go:200-213 | refused iff the id has not been added |
| `Quota.XfsQuotaer.CreateQuota` | nfs/pkg/volume/provision.go:506-523 | all or nothing, with the same exact condition for the file |
| `Quota.XfsQuotaer.RestoreQuotas` | nfs/pkg/volume/quota.go:141-168 | for all answers of commands and rewrites, partial ones included: never ends because an id "has not been added"; fails iff a command for a present directory fails; the map is left with exactly the projects whose directory is there, and the file agrees with it iff the rewrites end in the file of these projects; else no list explains the two |
| `Quota.XfsQuotaer.RestoreOne` | nfs/pkg/volume/quota.go:150-165 | one match: the project is kept with its quota set, or its id leaves the map and its block the file as far as the rewrite goes |
| `Quota.ExactIffNoneLost` | nfs/pkg/volume/quota.go:155-160 | as long as no failed rewrite truncates the file, the restored file is exact iff no rewrite for a missing directory fails |
| `Quota.TruncationCanHeal` | nfs/pkg/volume/quota.go:155-160 | two projects for which a truncating failure is made good by the next rewrite |
| `Exports.RestartExactIff` | nfs/pkg/volume/export.go:186-190 | the restart of the kernel exporter reads back exactly the ids iff every "fsid=<number>" in a path or subnet names a taken id |
| `Exports.SubnetReservesId` | nfs/pkg/volume/export.go:220-226 | an input that violates it: a subnet "fsid=n" makes a restart take n for a used id |
| `Exports.FsidsOfFile` | nfs/pkg/volume/export.go:220-226 | for all exports: what the pattern reads is the exports' ids plus the matches inside paths and subnets |
| `Exports.FsidsInIff` | nfs/pkg/volume/export.go:186-190 | in any text the pattern finds an id iff "fsid=" and exactly its digits stand somewhere; matches never overlap |
| `Exports.RemoveExportFromFile` | nfs/pkg/volume/export.go:104-107 | replace-all of an export's block removes that export and its id only, and nothing if no export has its line |
| `Exports.AddExportToFile` | nfs/pkg/volume/export.go:90-102 | an appended block is the file of the longer list |
| `Exports.FileDeterminesIds` | nfs/pkg/volume/export.go:220-226 | one exports file, one set of ids, although a line can divide into path and subnet in several ways |
| `Exports.BlockText` | nfs/pkg/volume/export.go:220-226 | the exact text that is appended for an export, with and without root squash |
| `Exports.LineDeterminesExport` | nfs/pkg/volume/export.go:220-226 | with blank-free paths and subnets without "(", equal lines are of equal exports |
| `NfsVolumes.KernelExporter.constructor` | nfs/pkg/volume/export.go:70-88 | on the file another process left, map and file agree iff no path or subnet adds an id |
| `NfsVolumes.KernelExporter.LoadIds` | nfs/pkg/volume/util.go:52-74 | the scan finds exactly the matches of the pattern |
| `NfsVolumes.KernelExporter.CanExport` | nfs/pkg/volume/export.go:51-58 | true iff the limit is negative or larger than the number of live exports |
| `NfsVolumes.KernelExporter.AddExportBlock` | nfs/pkg/volume/export.go:90-102 | success adds one export with the next id; a failed append leaves the map as it was, and an agreeing state iff nothing was written |
| `NfsVolumes.KernelExporter.RemoveExportBlock` | nfs/pkg/volume/export.go:104-107 | for any export, live or not, and any answer to the rewrite: map and file still agree iff the id was its own or nobody's and the file ends with the new text |
| `NfsVolumes.RemoveAgreesIff` | nfs/pkg/volume/export.go:104-107 | the same for every map and file that agree, and when no list at all explains the result |
| `NfsVolumes.SecondRemovalIff` | nfs/pkg/volume/export.go:104-107 | a repeated removal leaves the file alone, and some list still explains map and file iff the id has not been given out again |
| `NfsVolumes.KernelExporter.CreateExport` | nfs/pkg/volume/provision.go:487-502 | all or nothing: an accepted export, or the map as before; map and file then agree iff a failed append wrote nothing or the rollback wrote all of the old text back; otherwise no list of exports explains the state |
| `NfsVolumes.NfsProvisioner.CreateVolume` | nfs/pkg/volume/provision.go:259-303 | which answers give which outcome, failures to make or remove the directory and partial writes included; a failed export step leaves nothing behind iff the exports file is as before; a failed quota step leaves exactly the new export behind |
| `NfsVolumes.NfsProvisioner.DeleteVolume` | nfs/pkg/volume/delete.go:52-110 | directory, export and project go in this order, each only after the one before; when maps and files still agree, also for a call that is repeated |
| `NfsVolumes.RepeatedDeletion` | nfs/pkg/volume/delete.go:76-110 | a run: a deletion is repeated after another volume was made; both ids are taken from the live volume, no lists explain maps and files, and the ids are the next to be given out |
| `WorkQueues.KindOfMetaKey` | lib/controller/controller.go:601-613 | keys of claims and of volumes never coincide: the slash tells them apart |
| `QueueRetries.StepOnView` | lib/controller/controller.go:732-811 | a step changes what is known about a key only if it acts on that key: the limiter that both queues share is harmless |
| `QueueRetries.StepKeepsDiscipline` | lib/controller/controller.go:732-771 | a key is queued at most once and in process iff exactly one worker has it, unless forgetWork's Done hits it |
| `QueueRetries.DoneHarmlessIff` | lib/controller/controller.go:617-626 | forgetWork's Done keeps that discipline iff the key is neither queued nor in process |
| `QueueRetries.StepKeepsCount` | lib/controller/controller.go:750-763 | failures counted and about to be counted stay within the threshold of the key's queue |
| `QueueRetries.OneWorkerAndBoundedCount` | lib/controller/controller.go:732-771 | every run in which forgetWork's Done does not hit the key keeps that discipline and the bound on NumRequeues |
| `QueueRetries.OneWorkerInEveryRun` | lib/controller/controller.go:732-771 | from a fresh controller, with any two thresholds, in every such run: at most one worker at the key, at most one queue entry for it, and NumRequeues at most its queue's threshold |
| `QueueRetries.StepLowersBudget` | lib/controller/controller.go:601-613 | with a positive count and no Forget no step raises (threshold - NumRequeues) + pending chances, and a failed attempt lowers it |
| `QueueRetries.RetriesEnd` | lib/controller/controller.go:732-811 | between two Forgets the number of failed attempts is bounded by that budget, whatever informer events arrive |
| `QueueRetries.RetriesEndInEveryRun` | lib/controller/controller.go:732-811 | so it is in every run from a fresh controller, after any counted failure |
| `QueueProgress.WorkersStay` | lib/controller/controller.go:680-729 | in every run from a fresh controller with n workers for each queue, its idle workers and its keys being worked on are n together, and its next key can be taken iff there is one and fewer than n are worked on |
| `QueueProgress.WorkerGoesOn` | lib/controller/controller.go:732-771 | a worker with a key always has a next step, at most three of them |
| `QueueProgress.NoKeyIsLost` | lib/controller/controller.go:601-613 | in every run a key that is dirty, delayed or about to be added stays so until a worker takes it |
| `QueueProgress.OwedCanGoOn` | lib/controller/controller.go:601-771 | in every undisturbed run from a fresh controller such a key has a way on: its handler, the end of its delay, its place in the queue, or the worker that has it |
| `QueueProgress.FirstInFirstOut` | lib/controller/controller.go:721-736 | in every run keys leave a queue in the order in which they came |
| `QueueProgress.SuccessForgets` | lib/controller/controller.go:732-771 | a sync that succeeds sets the failures of the key, and of no other, to none; the worker is idle and the key queued again iff it is dirty |
| `QueueProgress.FailureIsRetried` | lib/controller/controller.go:750-763 | a sync that fails below the threshold of its queue adds one failure and one delayed addition |
| `QueueProgress.FailureIsGivenUp` | lib/controller/controller.go:750-763 | one that fails at the threshold adds neither |
| `QueueProgress.EventAddsUnlessRetried` | lib/controller/controller.go:601-613 | an event makes a key without failures dirty, and queues it unless it is queued or being processed; with failures it changes nothing |
| `QueueProgress.DeletionForgets` | lib/controller/controller.go:617-626 | forgetWork forgets the failures of the key and of no other, and takes it out of processing |
| `QueueProgress.AnythingMayHappen` | lib/controller/controller.go:601-627 | events and deletions come at any time, syncs end either way, delays end and merge |
| `QueueRetries.DoneOfProcessingKeyBreaksBound` | lib/controller/controller.go:617-626 | a run with thresholds 1 in which a claim deleted in process reaches a count of 2 |
| `ProvisioningSafety.EveryRunIsSafe` | lib/controller/controller.go:987-1155 | from any settled cluster, in every run that keeps the assumptions, with a retry count of at least 1: a stored volume has its asset until Released, no asset has two volumes, and every existing asset is behind a volume, held by a worker or reported; no loop exceeds the retry count |
| `ProvisioningSafety.StepKeeps` | lib/controller/controller.go:987-1204 | every step of both operations keeps the invariant and loses no asset |
| `ProvisioningSafety.CreateLeaksNothing` | lib/controller/controller.go:1103-1119 | a create attempt loses no asset, and never meets an existing volume |
| `ProvisioningSafety.CleanLeaksNothing` | lib/controller/controller.go:1130-1147 | a cleanup attempt, failed or not, loses no asset that is not reported |
| `ProvisioningSafety.DeletePvLeaksNothing` | lib/controller/controller.go:1192-1198 | a volume object goes only after its asset |
| `ProvisionOperations.ProvisionController.ProvisionClaimOperation` | lib/controller/controller.go:987-1155 | with its loops, without interruption, a run of that machine; volumes, assets and reports afterwards for all answers: a failed or refused Provision changes nothing; a new asset is lost iff there are no attempts at all, or an attempt finds the volume that the Get has failed to find |
| `ProvisionOperations.ProvisionController.CreateLoop` | lib/controller/controller.go:1103-1119 | fails iff every attempt fails; the volume is new iff there was none and the loop succeeds or a failed attempt stores it |
| `ProvisionOperations.ProvisionController.CleanupLoop` | lib/controller/controller.go:1130-1147 | succeeds iff some attempt does, else reports the asset; the asset is gone iff an attempt succeeds or fails after removing it |
| `ProvisionOperations.ProvisionController.DeleteVolumeOperation` | lib/controller/controller.go:1160-1204 | a run of that machine; the volume goes only after its asset, and only if it is to be deleted and not being deleted already |
| `ProvisionOperations.ClaimGetsVolume` | lib/controller/controller.go:987-1155 | a claim whose calls go through gets one volume with one new asset, nothing else changes |
| `ProvisionOperations.DeletionUndoesClaim` | lib/controller/controller.go:1157-1204 | released and deleted, that volume and its asset are gone and everything else is as before the claim |
| `ProvisionOperations.KeptVolumeStays` | lib/controller/controller.go:1168-1186 | a volume that is taken back is left alone, and cannot be found due |
| `ProvisioningLimits.NothingLeaksIffRetries` | lib/controller/controller.go:1103-1155 | nothing leaks in all such runs iff the retry count is positive: with 0 the operation reports success for a lost asset |
| `ProvisioningLimits.UnreliableGetLeaks` | lib/controller/controller.go:997-1002 | a failed Get of an existing volume, from any good state, can lose an asset |
| `ProvisioningLimits.TwoWorkersLeak` | lib/controller/controller.go:1104-1114 | so can two workers on one claim |
| `ProvisioningLimits.StoringCreateErrorUnbacks` | lib/controller/controller.go:1104-1134 | a Create that stores and still fails can delete the asset of a stored volume |
| `ProvisioningLimits.StaleCacheLeaks` | lib/controller/controller.go:1168-1198 | so can a deletion with a cached volume of an earlier life of the name lose an asset |
| `ProvisioningLimits.CrashHarmlessIff` | lib/controller/controller.go:1079-1139 | a crash loses nothing iff the worker holds no existing, unreported asset |
| `ProvisioningLimits.DeletionByOthersHarmlessIff` | lib/controller/controller.go:1192-1198 | a deletion by others keeps the invariant and loses nothing iff the volume's asset is gone or reported and no worker is deleting it |
| `ProvisioningLimits.TakeBackHarmlessIff` | lib/controller/controller.go:1168-1198 | a volume that was to be deleted can be taken back, with the invariant kept, iff its asset exists and no worker has seen it as one to be deleted |
| `ProvisioningLimits.LateTakeBackUnbacks` | lib/controller/controller.go:1168-1186 | taken back between the Get and the deletion of its asset, a volume loses its asset |
| `ProvisioningLimits.ClusterMayAct` | lib/controller/controller.go:1157-1204 | the machine itself excludes nothing that the cluster can do: releases, take-backs, deletions, starts and crashes at any time |
| `ProvisioningLimits.CallsCanFail` | lib/controller/controller.go:987-1204 | and every call can fail, with or without its effect |
| `MinMaxAllocators.FreeCountsUnused` | lib/allocator/minmax.go:97-104 | 1 + max - min - |used in range| is the number of unused numbers of the range |
| `MinMaxAllocators.FirstFromIff` | lib/allocator/minmax.go:138-148 | a least unused number exists iff that count is positive (pigeonhole): ErrInternal cannot happen |
| `MinMaxAllocators.MinMaxAllocator.New` | lib/allocator/minmax.go:68-78 | an empty allocator, refused iff min > max |
| `MinMaxAllocators.MinMaxAllocator.SetRange` | lib/allocator/minmax.go:81-107 | recounts the free numbers by a loop in any order; forgets no used number |
| `MinMaxAllocators.MinMaxAllocator.Allocate` | lib/allocator/minmax.go:110-126 | marks the number; out of range and conflict exactly when they are |
| `MinMaxAllocators.MinMaxAllocator.AllocateNext` | lib/allocator/minmax.go:129-149 | the least unused number iff 0 < free < 2^63, else ErrRangeFull; never ErrInternal; the cached count stays exact modulo 2^64 |
| `MinMaxAllocators.MinMaxAllocator.Release` | lib/allocator/minmax.go:152-167 | unmarks the number; the count moves only if it is in range |
| `MinMaxAllocators.MinMaxAllocator.Has` | lib/allocator/minmax.go:175-180 | true iff the number is used |
| `MinMaxAllocators.MinMaxAllocator.Free` | lib/allocator/minmax.go:183-187 | the number of unused numbers, exact below 2^63 |
| `MinMaxAllocators.HugeRangeReportsFull` | lib/allocator/minmax.go:133-136 | an empty range of 2^63 or more numbers is reported full |
| `Gids.ConvertFormatted` | lib/gidallocator/allocator.go:268-282 | a GID's annotation reads back as that GID |
| `Gids.ParseIff` | lib/gidallocator/allocator.go:268-282 | exactly these texts are read as n: its digits, with zeros before them, with "+", and for negative numbers and zero with "-", within 32 bits |
| `Gids.ConvertIff` | lib/gidallocator/allocator.go:268-282 | so a GID is read from its digits, with zeros or "+" before them, and 0 also from "-0" |
| `Gids.ParseClassParameters` | lib/gidallocator/allocator.go:216-254 | for any lowering of characters: accepted iff all bounds are valid and in order; then a range inside 2000..2^31-1 |
| `Gids.ValidBoundIff` | lib/gidallocator/allocator.go:222-246 | a bound is accepted iff it reads as a number from 2000 to 2^31-1; other keys are not looked at |
| `Gids.DefaultBounds` | lib/gidallocator/allocator.go:216-220 | without a parameter for it, a bound is 2000 or 2^31-1 |
| `Gids.LastOfLast` | lib/gidallocator/allocator.go:220-247 | of several parameters with one lower-case key the last one visited gives the value |
| `Gids.OrderIrrelevant` | lib/gidallocator/allocator.go:220-247 | the order in which parameters are visited does not matter if no two keys differ in case only |
| `Gids.OrderMattersForDuplicates` | lib/gidallocator/allocator.go:220-247 | with "gidMin" and "GIDMIN" it does |
| `Gids.CollectGids` | lib/gidallocator/allocator.go:177-214 | never fails; marks exactly the readable GIDs of the class, duplicates included |
| `Gids.GidsOfExact` | lib/gidallocator/allocator.go:184-211 | a GID is collected iff the annotation of some volume of the class reads as it |
| `GidSafety.EveryRunKeepsGidsApart` | lib/gidallocator/allocator.go:68-214 | in every interleaving from distinct GIDs, with one release for each volume and its class found: no two live volumes of a class share a GID |
| `GidSafety.StepKeeps` | lib/gidallocator/allocator.go:121-172 | every step, racing first-time builds and range changes included, keeps the invariant |
| `GidSafety.IssuedInRange` | lib/gidallocator/allocator.go:69-85 | in every run, without an interleaved range change: an issued GID is the least unused one of the worker's range, and none is issued only if every GID of that range is used |
| `GidSafety.EveryRunUsesExactly` | lib/gidallocator/allocator.go:121-211 | from live volumes with distinct GIDs, while no issued GID is abandoned: in every run a table's used GIDs are exactly those of live volumes and of volumes about to be stored |
| `GidSafety.AbandonExactIff` | lib/gidallocator/allocator.go:68-85 | a worker that gives up keeps the tables exact iff it has not been issued a GID |
| `GidSafety.ReleaseFreesOwnIff` | lib/gidallocator/allocator.go:87-119 | a release makes the GID free in the table of the volume's own class iff the StorageClass was read, or the class is "" |
| `GidSafety.FailedReadOrphans` | lib/gidallocator/allocator.go:87-119 | after a release whose StorageClass read failed, the GID is used in its class while no volume or worker has it |
| `GidSafety.OrphanStays` | lib/gidallocator/allocator.go:121-172 | in every run that releases each volume once, such a GID of a named class stays used and is never issued again |
| `GidSafety.FailedReadLosesGid` | lib/gidallocator/allocator.go:87-119 | a run from a fresh start, with one failed StorageClass read, that ends with a class full although there is no volume |
| `GidSafety.ReleaseHarmlessIff` | lib/gidallocator/allocator.go:90-113 | a release, also one in the class "" after an ignored error or a repeated one, leaves all tables knowing the GIDs in use iff nobody else has that GID in that class |
| `GidSafety.ForgottenGidIsShared` | lib/gidallocator/allocator.go:80-85 | a table that has forgotten a live volume's GID hands it out again |
| `GidLives.ClaimGetsLeast` | lib/gidallocator/allocator.go:68-85 | a claim of a class with a table sets the range of the class and gets the least GID of it that the table does not use |
| `GidLives.FirstClaimGetsLeast` | lib/gidallocator/allocator.go:121-172 | a claim of a class without one builds it of exactly the GIDs of the volumes of the class and gets the least unused one of its range |
| `GidLives.ReleaseReturnsGid` | lib/gidallocator/allocator.go:87-119 | the removal of a volume takes exactly its GID out of the table of its class |
| `GidLives.ReleaseUndoesClaim` | lib/gidallocator/allocator.go:68-119 | a claim and the removal of its volume leave nothing behind but the range |
| `GidLives.FullClassRefuses` | lib/gidallocator/allocator.go:68-85 | a claim of a class whose range is used up changes nothing but the range |
| `GidLives.ClusterMayAct` | lib/gidallocator/allocator.go:87-119 | a worker can give up anywhere, and a release can miss its class |
| `SnapshotSafety.NamesInjective` | snapshot/pkg/controller/cache/util.go:30-32 | unique names are injective for slash-free namespaces and uids of one length |
| `SnapshotSafety.NamesCollide` | snapshot/pkg/controller/cache/util.go:30-32 | and not for uids of different lengths |
| `SnapshotSafety.ShortReferenceIff` | snapshot/pkg/controller/snapshotter/snapshotter.go:147-179 | a reference without a namespace is found iff the snapshot has none either |
| `SnapshotSafety.EveryRunIsSafe` | snapshot/pkg/controller/snapshotter/snapshotter.go:365-593 | in every run that keeps the assumptions, without the label "pvName": at most one data object exists for each snapshot, a snapshot is bound to its own, only bound snapshots have conditions, nothing is recovered, and success and the actual state mean that the plugin said Ready |
| `SnapshotSafety.RecoveryAlwaysFails` | snapshot/pkg/controller/snapshotter/snapshotter.go:388-412 | in such a run, an operation whose snapshot the plugin finds ends in an error without a data object |
| `SnapshotSafety.StepKeeps` | snapshot/pkg/controller/snapshotter/snapshotter.go:413-528 | every step of the create operation, restarts and deletions keep the invariant, whichever stored copy an informer shows |
| `SnapshotSafety.LookKeeps` | snapshot/pkg/controller/snapshotter/snapshotter.go:147-179 | looking for the data object finds the snapshot's own one, or there is none |
| `SnapshotSafety.PostKeeps` | snapshot/pkg/controller/snapshotter/snapshotter.go:530-593 | making the data object, also by a call that fails after storing it, keeps them unique |
| `SnapshotSafety.BindKeeps` | snapshot/pkg/controller/snapshotter/snapshotter.go:857-891 | binding keeps every snapshot bound to its own data object |
| `SnapshotSafety.UpdateKeeps` | snapshot/pkg/controller/snapshotter/snapshotter.go:803-854 | a status update keeps conditions on bound snapshots only |
| `SnapshotSafety.SuccessIsActual` | snapshot/pkg/controller/snapshotter/snapshotter.go:201-253 | an operation that ends successfully leaves its name in the actual state after the plugin said Ready |
| `SnapshotSafety.SuccessInEveryRun` | snapshot/pkg/controller/snapshotter/snapshotter.go:201-253 | so it is in every run from a fresh start that keeps the assumptions |
| `SnapshotOutcomes.StartByLastCondition` | snapshot/pkg/controller/snapshotter/snapshotter.go:413-445 | what a sync does, by kind and status of the last condition: Failed is an error and begins nothing, Ready/True is a success, Pending waits for the bound data object, any other or none begins an operation |
| `SnapshotOutcomes.UpdateByCondition` | snapshot/pkg/controller/snapshotter/snapshotter.go:235-252 | what the wait does, by kind and status of the last condition told: Failed ends with an error, Ready/True with success iff the update went through, any other goes on up to the last step |
| `SnapshotOutcomes.UpdateStores` | snapshot/pkg/controller/snapshotter/snapshotter.go:803-854 | a stored update changes the conditions of that snapshot alone: the new one follows the last, or takes its place if it is of its kind |
| `SnapshotOutcomes.DescribeByAnswer` | snapshot/pkg/controller/snapshotter/snapshotter.go:229-240 | no answer is waited over, an empty one ends the operation, and of any other the last condition counts |
| `SnapshotOutcomes.FailedCallEnds` | snapshot/pkg/controller/snapshotter/snapshotter.go:424-528 | a failed call of the create operation ends it with an error, and changes nothing else but what the call itself did |
| `SnapshotOutcomes.MissingDataEnds` | snapshot/pkg/controller/snapshotter/snapshotter.go:424-432 | an operation whose data object is missing cannot wait and ends with an error |
| `SnapshotOutcomes.RestartForgets` | snapshot/pkg/controller/snapshotter/snapshotter.go:413-445 | a restart loses operations and the actual state only, and any version can be synced after it |
| `SnapshotOutcomes.DeletedIsGone` | snapshot/pkg/controller/snapshotter/snapshotter.go:595-632 | a deleted snapshot or data object is gone and nothing else is; the name can be used again, and only then |
| `SnapshotOutcomes.NewSnapshotSucceeds` | snapshot/pkg/controller/snapshotter/snapshotter.go:413-528 | a new snapshot whose calls go through, with any undecided answers and Ready within twenty steps: one new data object under its unique name, bound to it, the Ready condition, the actual state and a success |
| `SnapshotOutcomes.NewSnapshotGivesUp` | snapshot/pkg/controller/snapshotter/snapshotter.go:219-255 | after twenty undecided answers, and not before, the operation ends with an error; data object and binding stay |
| `SnapshotOutcomes.FoundDataWaits` | snapshot/pkg/controller/snapshotter/snapshotter.go:388-397 | a snapshot whose data object is listed is bound to it, and nothing is made anew |
| `SnapshotOutcomes.PendingWaits` | snapshot/pkg/controller/snapshotter/snapshotter.go:424-432 | a Pending snapshot waits for the data object that it is bound to |
| `SnapshotOutcomes.OperationEnds` | snapshot/pkg/controller/snapshotter/snapshotter.go:413-445 | an operation takes at most 47 steps, whatever else happens |
| `SnapshotOutcomes.OperationGoesOn` | snapshot/pkg/controller/snapshotter/snapshotter.go:413-445 | and in every run each operation that has not ended can take a step |
| `SnapshotOutcomes.CallsCanFail` | snapshot/pkg/controller/snapshotter/snapshotter.go:447-593 | every call of the create operation can fail, with or without its effect, and the plugin can answer anything |
| `SnapshotLimits.MissHarmlessIff` | snapshot/pkg/controller/snapshotter/snapshotter.go:147-179 | a list that shows no data object is harmless iff there is none |
| `SnapshotLimits.UpdateKeepsConditionsIff` | snapshot/pkg/controller/snapshotter/snapshotter.go:803-854 | a stored status update keeps conditions on bound snapshots iff the object of that namespace and name is bound |
| `SnapshotLimits.LabelledRecoveryMakesTwo` | snapshot/pkg/controller/snapshotter/snapshotter.go:388-408 | with the label "pvName" allowed, a run from a fresh start that keeps every other assumption and makes a second data object |
| `SnapshotLimits.OneDataEachIffUnlabelled` | snapshot/pkg/controller/snapshotter/snapshotter.go:388-408 | every run whose snapshots have at most the labels L has one data object for each snapshot iff "pvName" is not in L |
| `LoadBalancers.Cloud.SyncSubnets` | snapshot/pkg/cloudprovider/providers/aws/aws_loadbalancer.go:94-125 | detaching and attaching leaves exactly the desired subnets; no call if they are the desired ones |
| `LoadBalancers.FindLast` | snapshot/pkg/cloudprovider/providers/aws/aws_loadbalancer.go:159-177 | the last desired listener that differs from the actual one in none of the five fields, where absent is empty or zero |
| `LoadBalancers.ReadExact` | snapshot/pkg/cloudprovider/providers/aws/aws_loadbalancer.go:159-177 | reading a listener keeps each field, certificate included: two read alike iff all five fields are the same, absent being empty or zero |
| `LoadBalancers.ExactlyDesiredIff` | snapshot/pkg/cloudprovider/providers/aws/aws_loadbalancer.go:146-216 | exactly the desired listeners, field by field: each is at its port with its fields, and no other is there |
| `LoadBalancers.ConsistentIff` | snapshot/pkg/cloudprovider/providers/aws/aws_loadbalancer.go:185-215 | the condition for success, field by field: listeners on one port differ in no field |
| `LoadBalancers.Compare` | snapshot/pkg/cloudprovider/providers/aws/aws_loadbalancer.go:150-183 | removals are exactly the ports of actual listeners that are not desired |
| `LoadBalancers.CollisionFreeIff` | snapshot/pkg/cloudprovider/providers/aws/aws_loadbalancer.go:185-215 | creating the missing listeners collides with nothing iff no two desired listeners differ on a port |
| `LoadBalancers.Cloud.SyncListeners` | snapshot/pkg/cloudprovider/providers/aws/aws_loadbalancer.go:146-216 | succeeds iff that holds, and then leaves exactly the desired listeners; if not, exactly the old ones that are desired; makes no call iff they are the desired ones and none is desired twice |
| `LoadBalancers.Cloud.SyncProxyPolicies` | snapshot/pkg/cloudprovider/providers/aws/aws_loadbalancer.go:218-283 | each desired instance port has the proxy policy iff requested, and keeps its policies if it was so before; every other described backend has none, nothing else changes |
| `LoadBalancers.Cloud.EnsureExisting` | snapshot/pkg/cloudprovider/providers/aws/aws_loadbalancer.go:91-284 | the three together converge |
| `LoadBalancers.Cloud.EnsureInstances` | snapshot/pkg/cloudprovider/providers/aws/aws_loadbalancer.go:382-433 | exactly the given instances are registered; no call if they are |
| `IpPermissions.IPPermissionSet.Insert` | snapshot/pkg/cloudprovider/providers/aws/sets_ippermissions.go:86-91 | adds exactly the items |
| `IpPermissions.IPPermissionSet.List` | snapshot/pkg/cloudprovider/providers/aws/sets_ippermissions.go:94-100 | every member, in any order |
| `IpPermissions.GrantsExact` | snapshot/pkg/cloudprovider/providers/aws/sets_ippermissions.go:40-75 | what a permission grants: each of its ranges, pairs, prefix lists and IPv6 ranges for its protocol and ports, and nothing else |
| `IpPermissions.SplitPairs` | snapshot/pkg/cloudprovider/providers/aws/sets_ippermissions.go:54-66 | the loop that starts over at every copy still keeps the grants, and splits nothing |
| `IpPermissions.IPPermissionSet.Ungroup` | snapshot/pkg/cloudprovider/providers/aws/sets_ippermissions.go:39-83 | keeps exactly the grants; all members are single iff no member had more than one pair |
| `IpPermissions.IPPermissionSet.IsSuperset` | snapshot/pkg/cloudprovider/providers/aws/sets_ippermissions.go:103-111 | true iff every member of the other is a member |
| `IpPermissions.IPPermissionSet.Equal` | snapshot/pkg/cloudprovider/providers/aws/sets_ippermissions.go:116-118 | true iff the members are the same |
| `IpPermissions.IPPermissionSet.Difference` | snapshot/pkg/cloudprovider/providers/aws/sets_ippermissions.go:126-135 | exactly the members that the other has not |
| `DeviceAllocators.DeviceAllocator.GetNext` | snapshot/pkg/cloudprovider/providers/aws/device_allocator.go:67-80 | ends, with the first free device after the last one around the ring; fails, with the last index kept, iff all are taken |
| `DeviceAllocators.DeviceAllocator.NextDevice` | snapshot/pkg/cloudprovider/providers/aws/device_allocator.go:82-87 | the given place of the ring, or its first |
| `DeviceAllocators.SuccessiveCallsDistinct` | snapshot/pkg/cloudprovider/providers/aws/device_allocator.go:67-80 | with k free devices any k successive calls return k different free devices |
| `DeviceAllocators.GetNextTimes` | snapshot/pkg/cloudprovider/providers/aws/device_allocator.go:67-80 | so do that many calls of GetNext, by name |
| `DeviceAllocators.NamesDistinct` | snapshot/pkg/cloudprovider/providers/aws/device_allocator.go:53-65 | different places of the ring have different names |
| `DeviceAllocators.NamesInOrder` | snapshot/pkg/cloudprovider/providers/aws/device_allocator.go:53-65 | the ring is "ba" to "bz", then "ca" to "cz" |
| `CephCaps.TokensOfJoin` | ceph/cephfs/cephfs_provisioner/cephfs_provisioner.py:176-186 | joining tokens in any order and splitting again gives the tokens of all parts |
| `CephCaps.CapUpdate` | ceph/cephfs/cephfs_provisioner/cephfs_provisioner.py:176-186 | removes the unwanted token and adds the wanted ones, nothing else, for any visiting order |
| `CephCaps.CapRemove` | ceph/cephfs/cephfs_provisioner/cephfs_provisioner.py:290-292 | removes exactly the wanted tokens; empty iff none is left |
| `CephCaps.CapTexts` | ceph/cephfs/cephfs_provisioner/cephfs_provisioner.py:135-143 | the exact texts of the four capabilities of a share, read-only and not, with and without a namespace |
| `CephCaps.OthersUntouchedIff` | ceph/cephfs/cephfs_provisioner/cephfs_provisioner.py:267-279 | deauthorizing a share leaves another's data capability iff their data is in different places |
| `CephCaps.AuthorizeThenDeauthorize` | ceph/cephfs/cephfs_provisioner/cephfs_provisioner.py:135-199 | osd tokens come back iff the share was not authorized before; mds keeps at most "allow r" |
| `CephCaps.CephClient.Authorize` | ceph/cephfs/cephfs_provisioner/cephfs_provisioner.py:119-220 | replaces the share's tokens; in any sequence of calls the stored tokens are exactly those of the granted shares |
| `CephCaps.CephClient.Deauthorize` | ceph/cephfs/cephfs_provisioner/cephfs_provisioner.py:248-315 | removes exactly the share's tokens, in any sequence of calls; deletes the entity iff no osd token is left |
| `GlusterAnnotations.ParseBlockModeArgs` | gluster/block/cmd/glusterblock-provisioner/glusterblock-provisioner.go:811-836 | accepted iff every parameter is; then known keys with separator-free values |
| `GlusterAnnotations.ParseParam` | gluster/block/cmd/glusterblock-provisioner/glusterblock-provisioner.go:814-833 | the error of one parameter; a panic iff a known key has no "=" |
| `GlusterAnnotations.GoodParamIff` | gluster/block/cmd/glusterblock-provisioner/glusterblock-provisioner.go:814-833 | a parameter is accepted iff it is "glustervol=" or "hosts=" and a value that does not start with "=" |
| `GlusterAnnotations.LastParamWins` | gluster/block/cmd/glusterblock-provisioner/glusterblock-provisioner.go:814-840 | of several parameters with one key the last gives the value |
| `GlusterAnnotations.KeysOfParams` | gluster/block/cmd/glusterblock-provisioner/glusterblock-provisioner.go:814-840 | the keys are exactly those of the parameters |
| `GlusterAnnotations.PrintedText` | gluster/block/cmd/glusterblock-provisioner/glusterblock-provisioner.go:250-256 | the text of an annotation with both arguments |
| `GlusterAnnotations.BlockAnnotation` | gluster/block/cmd/glusterblock-provisioner/glusterblock-provisioner.go:250-256 | prints the arguments in any order |
| `GlusterAnnotations.BlockRoundTripIff` | gluster/block/cmd/glusterblock-provisioner/glusterblock-provisioner.go:546-564 | reads back as the arguments, for any order, iff no value contains a colon |
| `GlusterAnnotations.HeketiRoundTripIff` | gluster/file/cmd/glusterfile-provisioner/glusterfile-provisioner.go:594-613 | reads back as url, user, secret and namespace iff only the url contains a colon |
| `GlusterAnnotations.ParseAnnotation` | gluster/block/cmd/glusterblock-provisioner/glusterblock-provisioner.go:549-564 | the reading loop; a part without a colon panics |
| `GlusterAnnotations.PanicIff` | gluster/block/cmd/glusterblock-provisioner/glusterblock-provisioner.go:549-564 | reading panics iff some part is neither empty nor has a colon; a heketi "url" may have none |
| `GlusterAnnotations.LastPartWins` | gluster/file/cmd/glusterfile-provisioner/glusterfile-provisioner.go:594-613 | of several parts with one key the last gives the value: up to the next colon, or for a heketi url all of it |
| `TargetdLun.GetFirstAvailableLun` | iscsi/targetd/provisioner/iscsi-provisioner.go:312-348 | an error iff at least 255 different LUNs are used; else an unused LUN of 0..254, the least one iff no LUN is negative |
| `TargetdLun.GapLeastIff` | iscsi/targetd/provisioner/iscsi-provisioner.go:340-346 | the first gap of the sorted list is the least unused number iff no number is negative |

## Left out

- Job-based cleaning of local volumes, and the checks of volume type, class and path before a deletion: they are one answer (`supported`) of the step that visits a PV.
- The directory reads and capacity checks of the discoverer: one answer (`usable`) for each file; PV names are taken as given, so that the hash is not modelled.
- Loops of the queue's workers are steps of a state machine, because other goroutines' steps fall between their iterations.
- The claim and volume checks `shouldProvision` and `shouldDelete`, and the checks before a Provision call: a volume is `released` once `shouldDelete` has held of it, and until it is taken back or gone, an operation that gives up early is a step that ends it.
- Fairness and delays of the work queue: a delayed key is added at any later time, or merged with another delay of the same key.
- The link from the queue to the operations: that no two provision workers are at one claim is an assumption of `ProvisioningSafety`, since keys are names and claims have UIDs; `QueueRetries` says when it holds of keys.
- Storage that a failed Provision call leaves behind: an asset is what a successful call returned.
- The ganesha export block and the D-Bus calls; `getServer` and `validateOptions` in the NFS provisioner, and which permissions a directory gets (one answer); the quotaer that does nothing.
- NFS path cleaning: a volume's path is the export directory, a slash and the name.
- Interleavings of NFS operations: each is one call; the lock of the map and the lock of the file are not modelled.
- Retried deletions after a GID was released: outside the assumption of one release for each volume; `GidSafety.ReleaseHarmlessIff` says when they do harm.
- Conditions of VolumeSnapshotData objects, reasons, messages and times of conditions, and the deletion and promotion operations beyond the removal of their objects.
- The class of the actual state of world: it is a map with one-line methods, and appears as a set of names in the snapshotter's state.
- VolumeSnapshot names that are used again after a deletion: `SnapshotLimits.UpdateKeepsConditionsIff` is the exact condition for the step that goes wrong.
- JSON encoding of permissions: a key function that is injective; sharing of slice memory in `Ungroup` has no effect on its result and is not modelled.
- Creation of a load balancer that does not exist, security groups, attributes, health checks, and refusals of the service other than two different listeners on one port.
- Go's 32-bit int: numbers of the range allocator are 64 bits wide.
- The order of equal elements in the library's sort, and the first of the two sorts in `getFirstAvailableLun`: neither changes the result.
- Ceph layout reads and key handling; Python's set order is any order.
- Gluster values with commas: the annotations cannot hold them.
- Matches of the fsid pattern inside one path or subnet: taken as the pattern finds them, not characterised further.
- PVs that appear in the cluster with a GID annotation of somebody else's making: the tables see them only when they are built.
- VolumeSnapshots that a user creates with conditions or a data name, or edits: an object starts empty, and only the controller writes to it.
- The identity check at the start of the NFS `Delete`, and annotations that cannot be read: block and id are as `Provision` wrote them.
- Writes that fail after some bytes in any other way than a prefix: a part of the text, or of the new file, is its beginning.
