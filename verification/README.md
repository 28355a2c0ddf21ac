# Verified model of the CSI hostpath driver

This project models the stateful core of the hostpath CSI driver and proves what its RPCs keep over
whole runs: crashes, failed writes and restarts included.

The driver serialises every RPC with one mutex (`pkg/hostpath/hostpath.go:55-60`), so a run is a sequence
of atomic steps. Each step is described twice and the two are proved equal:

- **Objects.** `State.Store` (three lists mirrored to a file), `Quota.Quotaer` (directory to project ID, mirrored
  to the projects file, or the empty table that does nothing) and `HostPathDriver.HostPath` (one method per RPC)
  change their fields step by step as the Go code does. A stored group's ID lists are arrays, because comparing
  them sorts them where they are. `Strings` models the slice headers whose arrays copied volume records share.
- **Functions.** `Driver` gives each RPC as a function from a `World` (memory, state file, mount points, the existing
  volume directories, block files and snapshot archives, quota table and the text of the projects file), the request
  and the outcomes of the environment (`Env`) to the next world and the reply. Every RPC method ensures
  `(View(), r) == ` that function applied to the old view, and the start-up ensures that its view is `Driver.Start` of
  what is on disk. `Driver.Run` folds the functions over a sequence of events, where a restart of the process is an
  event too: it reads the state file and parses the projects file.

The theorems are about these functions, for all runs. `Env` holds what the driver does not control: fresh UUIDs,
the visiting order of the capacity map and of the quota table, which files got lost before a restart, and whether each
file write, command, mount, unmount or removal succeeds and leaves something behind; every dump of the quota table has
an outcome of its own. `Driver.Possible` asks only that UUIDs are new, that the capacity map is visited completely and
that a project ID is left, and only results that depend on this ask for it. Properties proved of memory are proved of
the files as well (`SoundWorld`, `NestedWorld`, `WithinWorld`, `ExclusiveWorld`, `AtMostOnce`, `SoundQuotas`), so they
hold after any restart, also one that falls back to an older state because a write failed.

Modules, bottom up: `Base`, `Lists`, `Sorting` (vocabulary); `State`, `Strings`, `ProjectIDs`, `ProjectsFile`,
`Quota`, `Sizes`, `Paging` (components); `Driver`, `HostPathDriver` (RPCs); `Effects` (what each RPC comes down to);
`Answers`, `VolumeAnswers`, `NodeAnswers`, `SnapshotAnswers`, `GroupAnswers` (for each RPC, in record fields: when it
succeeds, the code of every refusal, the entries of the reply and the whole effect); `Soundness`, `Reachable`,
`Durable`, `Lifecycle`, `Mounts`, `MountRecords`, `Capacity`, `Idempotence`, `Groups`, `NodeFiles`, `Backing`,
`QuotaFile`, `QuotaTable`, `QuotaCaps`, `Stranded` (theorems over runs); `Limits` (runs on which a promise fails).

Where the code and its comments or documentation disagree, the model follows the code:

- A comment says that deleting a snapshot of a group is refused (`pkg/hostpath/controllerserver.go:636`). The guard
  tests for a lookup *error* and never applies; `Limits.DeletedMemberBreaksGroup` shows what follows, and
  `Groups.GroupAnswersIff` and `Groups.GetAnswersIff` say exactly when a group still answers.
- Parent IDs are set on a local copy after the volume was stored (`pkg/hostpath/controllerserver.go:164`, `169`), so
  repeating a creation from a source volume is rejected although it is the same request
  (`Idempotence.RepeatedCreateVolume`).
- Expansion does not look at the capacity of the kind; `Capacity.ExpandWithinIff` is the missing check.
- The printed projects file starts with 1000 NUL bytes, so a restart loses the ID of the record printed first. One
  restart does no harm (`QuotaFile.ReachableIDs`), a second one can give two quotas the same project ID although
  nothing fails (`Limits.ProjectIDCanBeShared`), and `QuotaFile.RestartIDsIff` says exactly when.
- A projects file that cannot be read is reported and then overwritten with an empty table
  (`Quota.UnreadFileIsWiped`).
- The lifecycle holds exactly unless an ephemeral publish finds its generated name taken
  (`Lifecycle.StepNestedIff`); target paths stay exclusive exactly unless a publish has no access type, an
  unpublish fails after unmounting or a restart recalls such a path (`Mounts.StepExclusiveIff`); and a mount is
  forgotten exactly when a volume with a target that stays mounted is deleted unforced, overwritten, or ephemeral
  and unpublished elsewhere (`MountRecords.StepRecordedIff`).
- An expansion in the controller does not change the quota (`QuotaCaps.ExpandLeavesCapIff`).
- Where mounting an ephemeral volume fails its directory is removed, although the volume stays stored and keeps its
  quota (`pkg/hostpath/nodeserver.go:191-199`); a snapshot's archive is removed before the state is written, and its
  path is also that of a volume whose ID ends in ".snap". `Backing.StepBackedIff`, `Backing.StepArchivedIff` and
  `Backing.StepHousedIff` say exactly which steps lose or leave a file, and `Limits` has a run for each. The volume of a
  failed mount then stays as it is: its name is taken, so no publish makes the directory again, and it is not published,
  so no unpublish deletes it (`Stranded.StepStrandedIff`).
- A creation whose state write fails is reported as failed, and repeating it succeeds by name, but the volume never gets
  a quota (`QuotaTable.StepQuotaedIff`, `Limits.QuotaCanBeMissing`).

Each exact step condition has a branch for restarts, which looks at what the state file recalls. Where the last state
write before the restart was good (`Durable.Settled`) that branch never applies: `Mounts.QuietIsOrderly`,
`MountRecords.QuietIsTidy`, `Idempotence.QuietIsUndisturbed`, `Idempotence.QuietKeepsSnapshot` and
`Groups.QuietIsUnbroken` say so over runs, and the run theorems of `Backing` and `QuotaTable` ask for just that.

## Model

| member | source | states |
|---|---|---|
| State.EqualIDs | pkg/state/state.go:348-364 | true exactly for permutations, also when both arguments are one array; both arrays end up sorted, or untouched when lengths differ |
| State.Store.constructor | pkg/state/state.go:166-201 | opening a store gives back the file's contents, in arrays no two lists share; a missing file gives the empty state |
| State.Store.Dump | pkg/state/state.go:174-183 | a write that succeeds makes the file the value of memory, one that fails leaves the file alone |
| State.Store.GetVolumeByID | pkg/state/state.go:203-210 | the first volume with the ID, or none |
| State.Store.GetVolumeByName | pkg/state/state.go:212-219 | the first volume with the name, or none |
| State.Store.UpdateVolume | pkg/state/state.go:227-236 | the volume with that ID is replaced where it is, otherwise appended; memory changes even when the write fails |
| State.Store.DeleteVolume | pkg/state/state.go:238-246 | the first match is shifted out and the state written; an unknown ID changes and writes nothing |
| State.Store.GetSnapshotByID | pkg/state/state.go:248-255 | the first snapshot with the ID, or none |
| State.Store.GetSnapshotByName | pkg/state/state.go:257-264 | the first snapshot with the name, or none |
| State.Store.UpdateSnapshot | pkg/state/state.go:272-281 | replace in place or append, then write |
| State.Store.DeleteSnapshot | pkg/state/state.go:283-291 | the first match is shifted out; an unknown ID changes and writes nothing |
| State.Store.GetGroupSnapshotByID | pkg/state/state.go:293-300 | the first group record with the ID, sharing the stored arrays |
| State.Store.GetGroupSnapshotByName | pkg/state/state.go:302-309 | the first group record with the name, sharing the stored arrays |
| State.Store.UpdateGroupSnapshot | pkg/state/state.go:319-328 | replace in place or append, keeping every ID list in an array of its own |
| State.Store.DeleteGroupSnapshot | pkg/state/state.go:330-338 | the first match is shifted out; an unknown ID changes and writes nothing |
| State.Store.MatchesSourceVolumeIDs | pkg/state/state.go:340-342 | true exactly for a permutation of the stored sources; sorts that one stored list and the request's, touches nothing else and writes nothing |
| State.Store.MatchesSnapshotIDs | pkg/state/state.go:344-346 | the same for the stored list of members |
| Sorting.SortedIsUnique | pkg/state/state.go:353-355 | two sorted lists of the same records are equal when keys tell them apart, so the outcome is independent of the sorting algorithm |
| Sorting.SortedEqualIffPermutation | pkg/state/state.go:348-364 | sorting both lists and comparing decides permutation, both directions |
| Strings.Add | pkg/state/strings.go:24-26 | the changed header reads the list with the string appended, headers copied before read the same as before, and which array cell is written |
| Strings.Has | pkg/state/strings.go:29-36 | true exactly when the string is in the list |
| Strings.Remove | pkg/state/strings.go:44-51 | the changed header reads the list without the first occurrence; a header copied before reads the shifted items with the last one twice |
| ProjectsFile.ParseKeys | pkg/xfs/utils.go:90-94 | reading gives exactly the listed directories whose path exists |
| ProjectsFile.PrintedLists | pkg/xfs/quotaer.go:34-46 | a printout lists exactly the table's directories |
| ProjectsFile.ParsedPlain | pkg/xfs/utils.go:74-101 | whatever a text reads as can be printed and read back again |
| ProjectIDs.GenerateID | pkg/xfs/utils.go:38-58 | with some ID free, the loop ends after the first pass whose counter is free, with the least unused ID in 1..65535 other than 152, or 0 after all those |
| ProjectIDs.TerminatesIff | pkg/xfs/utils.go:46-54 | some pass of the wrapping loop has a free counter exactly when an ID other than 152 is unused; the counter of a pass is the loop's by the contract of `GenerateID` |
| ProjectIDs.RoomBelowLimit | pkg/xfs/utils.go:38-58 | with fewer than 65534 directories an ID is free and the chosen one is not 0 |
| ProjectIDs.ZeroIsLast | pkg/xfs/utils.go:46-54 | 0 is chosen only when every ID from 1 up other than 152 is taken |
| ProjectsFile.ToString | pkg/xfs/quotaer.go:34-46 | the text is 1000 NUL bytes and one record per directory in the order in which the map is visited |
| ProjectsFile.GetExistingIDs | pkg/xfs/utils.go:68-104 | the map read from a text: later lines win, malformed lines and missing directories are skipped, a bad ID reads as 0 and a too large one as 65535 |
| ProjectsFile.RecordsRoundTrip | pkg/xfs/utils.go:76-101 | reading the printed records gives back the existing part of the table, for any visiting order |
| ProjectsFile.PrintedRoundTrip | pkg/xfs/quotaer.go:34-46 | the whole text gives back all directories and caps and every ID but that of the record printed first, which reads as 0 |
| ProjectsFile.ReloadDistinctIff | pkg/xfs/quotaer.go:34-46 | IDs stay distinct across a reload exactly unless the directory printed first still exists and so does another one with ID 0 |
| ProjectsFile.EveryReloadDistinctIff | pkg/xfs/quotaer.go:37 | whatever the visiting order, exactly when no ID is 0 or there are fewer than two directories |
| ProjectsFile.SecondReloadCollides | pkg/xfs/quotaer.go:34-46 | a second reload that visits another directory first gives two directories the same ID |
| Base.ParsePrinted | pkg/xfs/utils.go:86 | parsing the decimal text of a number that fits gives the number and no error |
| Quota.Quotaer.AddProject | pkg/xfs/quotaer.go:156-177 | the directory gets the next free ID and the cap, or ends up unregistered when the command fails; the file holds what the last of the two dumps that succeeded wrote |
| Quota.Quotaer.RemoveProject | pkg/xfs/quotaer.go:179-182 | the directory leaves the table even when the file cannot be written; without quotas nothing happens |
| Quota.Quotaer.UpdateQuota | pkg/xfs/quotaer.go:184-204 | the cap changes and the ID stays, even when the command fails; an unknown directory is refused |
| Quota.Quotaer.RestoreQuotas | pkg/xfs/quotaer.go:137-154 | the loop does what `Quota.RestoreFrom` says, dumping after each directory and stopping at the first failure |
| Quota.Quotaer.Dump | pkg/xfs/quotaer.go:206-210 | a write that succeeds makes the file a printout of the table, one that fails leaves it alone |
| Quota.RestoreOutcome | pkg/xfs/quotaer.go:137-154 | success leaves exactly the existing directories and their printout; failure leaves the old file or a printout of part of the table |
| Quota.RestoreSucceedsIff | pkg/xfs/quotaer.go:137-154 | a restoration succeeds exactly when the final dump and the limit and dump of every existing directory do |
| Quota.NewQuotaer | pkg/xfs/quotaer.go:54-109 | start-up reads the file where XFS quotas are available and restores it; otherwise, or when that fails, there is no quota table |
| Quota.StartedReads | pkg/xfs/quotaer.go:84-109 | a table in use after a start is what the file read as, and the file is its printout again |
| Quota.UnreadFileIsWiped | pkg/xfs/quotaer.go:91-95 | a file that cannot be read is replaced by an empty table |
| Quota.ReloadKeepsTable | pkg/xfs/quotaer.go:84-109 | reading a text that mirrors a table gives the directories that still exist, their caps and their IDs, but for at most one ID, which is 0 |
| Quota.RunKeepsIDsSound | pkg/xfs/quotaer.go:156-204 | over every run of additions, removals and updates, failures included, IDs stay distinct and never 152 |
| Quota.RunAcrossReload | pkg/xfs/quotaer.go:84-109 | the same with one reload in between when no ID is 0 before it |
| Sizes.ConvertBytesToString | pkg/xfs/utils.go:106-115 | the loop computes the amount truncated in the first unit below 1024, or in E |
| Sizes.TextTellsQuota | pkg/xfs/utils.go:106-115 | amount and unit can be read back from the text |
| Sizes.RoundsDown | pkg/xfs/utils.go:106-115 | v units of 1024^u with v * 1024^u <= n < (v + 1) * 1024^u, and v < 1024 unless the unit is E |
| Sizes.MoreThanHalf | pkg/hostpath/hostpath.go:188 | the quota never exceeds the requested size and is more than half of it |
| Sizes.Monotone | pkg/hostpath/hostpath.go:279-282 | a larger request never gets a smaller quota, across units too |
| HostPathDriver.NewHostPathDriver | pkg/hostpath/hostpath.go:96-130 | an unreadable state file ends the start; otherwise the driver's view is `Driver.Start` of the state file, the projects file, mounts and directories, with a quota table or without |
| Driver.FirstStart | pkg/hostpath/hostpath.go:96-130 | the first start on an empty node gives a world from which the theorems about fresh starts begin |
| HostPathDriver.HostPath.SumVolumeSizes | pkg/hostpath/hostpath.go:284-291 | the accumulator loop gives the int64 sum of the kind's sizes, wrapping once or at every addition being the same |
| HostPathDriver.HostPath.GetAttachCount | pkg/hostpath/hostpath.go:396-404 | the loop counts the attached volumes |
| HostPathDriver.HostPath.ChooseStorageKind | pkg/hostpath/hostpath.go:157-183 | size limit, choice of a kind in map order and capacity check, with the error of each |
| HostPathDriver.HostPath.AllocateVolume | pkg/hostpath/hostpath.go:155-246 | the volume is backed, stored and given a quota; which failures leave what behind, an unfinished block file included |
| HostPathDriver.HostPath.ReleaseVolume | pkg/hostpath/hostpath.go:249-278 | the directory, the volume and then its quota are removed; which failures leave what behind |
| HostPathDriver.HostPath.Load | pkg/hostpath/hostpath.go:310-364 | existence, readiness, size and mode checks before content is copied; `VolumeAnswers.CreationAnswers` has the outcome of each in record fields |
| HostPathDriver.HostPath.CreateVolume | pkg/hostpath/controllerserver.go:46-193 | the new state and reply are exactly those of `Driver.CreateVolume`; `VolumeAnswers` has answers and effects in record fields |
| HostPathDriver.HostPath.CreateFresh | pkg/hostpath/controllerserver.go:149-192 | a volume is created and filled, or deleted again when filling fails |
| HostPathDriver.HostPath.DeleteVolume | pkg/hostpath/controllerserver.go:195-233 | refines `Driver.DeleteVolume`; in fields by `VolumeAnswers.DeleteAnswers` |
| HostPathDriver.HostPath.ControllerPublishVolume | pkg/hostpath/controllerserver.go:278-331 | refines `Driver.ControllerPublish`; in fields by `Answers.AttachAnswers` |
| HostPathDriver.HostPath.ControllerUnpublishVolume | pkg/hostpath/controllerserver.go:333-373 | refines `Driver.ControllerUnpublish`; in fields by `Answers.DetachAnswers` |
| HostPathDriver.HostPath.GetCapacity | pkg/hostpath/controllerserver.go:375-407 | available and maximum size as `Driver.ReportedCapacity` gives them; in fields by `VolumeAnswers.CapacityAnswers` |
| HostPathDriver.HostPath.ControllerExpandVolume | pkg/hostpath/controllerserver.go:761-802 | refines `Driver.ControllerExpand` |
| HostPathDriver.HostPath.CreateSnapshot | pkg/hostpath/controllerserver.go:542-617 | refines `Driver.CreateSnapshot` |
| HostPathDriver.HostPath.DeleteSnapshot | pkg/hostpath/controllerserver.go:619-648 | refines `Driver.DeleteSnapshot`, with its guard that never applies; the archive goes first, stored snapshot or not |
| HostPathDriver.HostPath.ListSnapshots | pkg/hostpath/controllerserver.go:650-759 | by ID, by source volume (first match), or a page of all; in fields by `SnapshotAnswers.ListByID`, `ListByVolume` and `ListPage` |
| Paging.ReadPage | pkg/hostpath/controllerserver.go:701-758 | the loop cuts the page that `Paging.PageAt` describes and names the next token |
| HostPathDriver.HostPath.NodeStageVolume | pkg/hostpath/nodeserver.go:274-318 | refines `Driver.NodeStage` |
| HostPathDriver.HostPath.NodeUnstageVolume | pkg/hostpath/nodeserver.go:320-355 | refines `Driver.NodeUnstage` |
| HostPathDriver.HostPath.IsMountedElsewhere | pkg/hostpath/nodeserver.go:548-555 | true exactly when some published path differs from the target |
| HostPathDriver.HostPath.NodePublishVolume | pkg/hostpath/nodeserver.go:43-210 | refines `Driver.NodePublish`, creating an ephemeral volume first where asked; in fields by `NodeAnswers.PublishAnswers` and `InlinePublish` |
| HostPathDriver.HostPath.CheckPublish | pkg/hostpath/nodeserver.go:95-106 | access mode and staging checks; in fields by `NodeAnswers.PublishAnswers` |
| HostPathDriver.HostPath.MountTarget | pkg/hostpath/nodeserver.go:108-202 | when the target gets mounted, which answers end the call before (a directory or block file that is gone among them), and when the directory of an ephemeral volume is removed |
| HostPathDriver.HostPath.PublishAt | pkg/hostpath/nodeserver.go:90-210 | the volume found by ID is checked, mounted and recorded, or which of these failed |
| HostPathDriver.HostPath.NodeUnpublishVolume | pkg/hostpath/nodeserver.go:212-270 | refines `Driver.NodeUnpublish`, destroying ephemeral volumes |
| HostPathDriver.HostPath.NodeExpandVolume | pkg/hostpath/nodeserver.go:472-524 | refines `Driver.NodeExpand` |
| HostPathDriver.HostPath.CreateVolumeGroupSnapshot | pkg/hostpath/groupcontrollerserver.go:47-171 | refines `Driver.CreateGroup`; in fields by `GroupAnswers.GroupCreation`, `GroupCreationReply` and `RepeatedGroup` |
| HostPathDriver.HostPath.RepeatGroup | pkg/hostpath/groupcontrollerserver.go:68-104 | an existing name: the stored source list and the request are sorted, then the members are listed |
| HostPathDriver.HostPath.AddGroupMembers | pkg/hostpath/groupcontrollerserver.go:121-157 | one snapshot per source volume; a failure leaves those already made, write errors are ignored |
| HostPathDriver.HostPath.CreateNewGroup | pkg/hostpath/groupcontrollerserver.go:106-170 | refines `Driver.NewGroup`; the stored lists get arrays apart from the request's; each entry shows its stored snapshot by `GroupAnswers.GroupCreationReply` |
| HostPathDriver.HostPath.DeleteMembers | pkg/hostpath/groupcontrollerserver.go:201-209 | members and their archives are deleted in order until a write fails |
| HostPathDriver.HostPath.DeleteVolumeGroupSnapshot | pkg/hostpath/groupcontrollerserver.go:173-217 | refines `Driver.DeleteGroup` |
| HostPathDriver.HostPath.GetVolumeGroupSnapshot | pkg/hostpath/groupcontrollerserver.go:219-271 | refines `Driver.GetGroup`, sorting the stored member list |
| Answers.AttachAnswers | pkg/hostpath/controllerserver.go:278-331 | when attaching a stored volume takes effect, is answered at once or is refused, with each code, also for the other readonly flag and a full node; afterwards exactly that volume is attached with the flag asked for, and written if that succeeds |
| Answers.AttachCountIs | pkg/hostpath/hostpath.go:396-404 | what the attach limit is compared with is the number of attached volumes |
| Answers.DetachAnswers | pkg/hostpath/controllerserver.go:333-373 | a detach that is accepted leaves the volume detached and all else as it was; when it is refused, and by which code |
| Answers.DetachFrees | pkg/hostpath/controllerserver.go:367-370 | detaching an attached volume lowers the number of attached volumes by one |
| Answers.StageAnswers | pkg/hostpath/nodeserver.go:274-318 | the staging path becomes the only one exactly when the volume is attached, if that matters, and not staged; success exactly when it is recorded then or was already; each refusal's code |
| Answers.UnstageAnswers | pkg/hostpath/nodeserver.go:320-355 | the first occurrence of the path leaves the list exactly when the volume is not published; a path that is not there is answered with success; each refusal's code |
| Answers.ControllerExpandAnswers | pkg/hostpath/controllerserver.go:761-802 | a larger size within the limit is stored and answered, a smaller one is answered with the size that is stored; each refusal's code |
| Answers.NodeExpandAnswers | pkg/hostpath/nodeserver.go:472-524 | only the cap of the volume's directory changes, exactly for a path that suits the access type and a size within the limit; each refusal's code |
| Answers.MissingVolumeController | pkg/hostpath/controllerserver.go:278-373 | for a volume that is not there a detach succeeds, attach and expansion do not find it, and nothing changes |
| Answers.MissingVolumeNode | pkg/hostpath/nodeserver.go:212-355 | staging, unstaging, unpublishing and expanding a volume that is not there changes nothing and says so |
| Answers.RestartAnswers | pkg/hostpath/hostpath.go:96-130 | memory is what the state file holds, mounts stay, and the projects file is read with the files that are left |
| VolumeAnswers.KindSumCounts | pkg/hostpath/hostpath.go:284-291 | the sum compared with a capacity takes each volume of the kind once and no other |
| VolumeAnswers.ChoiceAnswers | pkg/hostpath/hostpath.go:157-183 | a kind is chosen exactly when it has room and is the one asked for or the first in visiting order with room; the code of each refusal |
| VolumeAnswers.InvalidCreation | pkg/hostpath/controllerserver.go:46-100 | a creation without name or capability, with both access types, or in ephemeral mode changes nothing |
| VolumeAnswers.RepeatedCreation | pkg/hostpath/controllerserver.go:112-147 | under a taken name nothing changes; the answer is the stored volume exactly when it is large enough and comes from the same source, otherwise which code |
| VolumeAnswers.FailedCreation | pkg/hostpath/hostpath.go:155-246 | a creation without room changes nothing; one whose files fail leaves at most a block file; one that cannot be written leaves the volume in memory and its files |
| VolumeAnswers.CreationAnswers | pkg/hostpath/controllerserver.go:149-192 | once stored, a new volume is answered exactly when it needs no content, or its source is a ready snapshot or a volume of the same access type, not larger, that can be copied; the code of every other case; and what stays or is taken back |
| VolumeAnswers.DeleteAnswers | pkg/hostpath/controllerserver.go:195-233 | which code refuses a volume in use, and that otherwise exactly the volume, its files and, once written, its quota go |
| VolumeAnswers.DeleteMissing | pkg/hostpath/controllerserver.go:195-233 | deleting a volume that is not there succeeds and changes nothing |
| VolumeAnswers.CapacityAnswers | pkg/hostpath/controllerserver.go:375-407 | available is capacity minus sizes of the kind in int64 arithmetic, and the maximum size the smaller of that and the limit |
| NodeAnswers.InvalidPublish | pkg/hostpath/nodeserver.go:43-55 | a publish without capability, volume or target changes nothing |
| NodeAnswers.MissingPublish | pkg/hostpath/nodeserver.go:90-93 | a volume that is neither stored nor to be made is not found |
| NodeAnswers.PublishAnswers | pkg/hostpath/nodeserver.go:90-210 | a publish mounts exactly when the staging path is one of the volume's, a single-writer volume has no other target, the access type fits, directory or block file are there, the target is not mounted and the commands succeed; what is recorded, the code of every refusal, and when the directory of an ephemeral volume goes |
| NodeAnswers.InlinePublish | pkg/hostpath/nodeserver.go:73-88 | an ephemeral publish under a new name stores a 100 MiB volume, in the place of one with its ID, and then answers and does what it would with the volume stored already; or which code |
| NodeAnswers.UnpublishAnswers | pkg/hostpath/nodeserver.go:212-270 | the target is unmounted exactly when it is recorded and the check and unmount succeed, then leaves the record or takes an ephemeral volume with it; the code of every failure |
| SnapshotAnswers.RepeatedSnapshot | pkg/hostpath/controllerserver.go:563-583 | under a taken name the first snapshot of that name is shown if it is of the volume asked for, and otherwise the request is rejected |
| SnapshotAnswers.SnapshotAnswers | pkg/hostpath/controllerserver.go:585-617 | a new snapshot has the size of the volume, its archive is made, and the reply shows what is stored; which failures leave what behind |
| SnapshotAnswers.RefusedSnapshot | pkg/hostpath/controllerserver.go:542-590 | invalid requests and missing volumes change nothing, with each code |
| SnapshotAnswers.DeleteSnapshotAnswers | pkg/hostpath/controllerserver.go:619-648 | archive and record go, of a group member too, an unknown ID is a success, and the code when the write fails |
| SnapshotAnswers.ListRefused | pkg/hostpath/controllerserver.go:650-654 | a listing is refused as invalid exactly in ephemeral mode |
| SnapshotAnswers.ListByID | pkg/hostpath/controllerserver.go:660-668 | empty exactly when no snapshot has the ID, otherwise one entry that shows it |
| SnapshotAnswers.ListByVolume | pkg/hostpath/controllerserver.go:670-680 | empty exactly when no snapshot is of the volume, otherwise one entry that shows the first that is |
| SnapshotAnswers.ListPage | pkg/hostpath/controllerserver.go:682-758 | the page shows the snapshots in ID order from the token's position, as many as asked for or left, names the next token exactly when some are left, and is refused exactly for a token that cannot be read or lies behind the end |
| GroupAnswers.MembersMade | pkg/hostpath/groupcontrollerserver.go:121-157 | members are made up to the first source that is missing or fails; each is a snapshot of its volume in the new group; memory, disk and which of the writes the state file has |
| GroupAnswers.GroupCreation | pkg/hostpath/groupcontrollerserver.go:106-170 | a new group is stored with its members and sources exactly when all members could be made, and answered exactly when it could be written; the code of each failure and what it leaves |
| GroupAnswers.GroupCreationReply | pkg/hostpath/groupcontrollerserver.go:149-170 | the reply has an entry for each source in order, whose ID finds a stored snapshot of that volume and whose other fields are that snapshot's |
| GroupAnswers.RepeatedGroup | pkg/hostpath/groupcontrollerserver.go:68-104 | for a permutation of the sources with all members stored the reply has their sizes, times, readiness and group in the stored order, without IDs, and is ready when all are; each refusal's code; only the stored source list gets sorted |
| GroupAnswers.GroupRead | pkg/hostpath/groupcontrollerserver.go:219-271 | for a permutation of the members with all stored the reply names and describes each in the order of the sorted list; each refusal's code; only the stored member list gets sorted |
| GroupAnswers.MembersDropped | pkg/hostpath/groupcontrollerserver.go:201-209 | members go until the removal of a stored one cannot be written, that one included; memory, disk and state file then |
| GroupAnswers.GroupDeletion | pkg/hostpath/groupcontrollerserver.go:173-217 | a deletion succeeds exactly when the removal of every stored member and of the group can be written; otherwise the group stays and the members reached are gone |
| GroupAnswers.InvalidGroupCalls | pkg/hostpath/groupcontrollerserver.go:53-59 | calls without name, sources or ID change nothing |
| GroupAnswers.MissingGroup | pkg/hostpath/groupcontrollerserver.go:191-196 | deleting a group that is not there succeeds, reading it does not |
| Base.ParseUintIff | pkg/xfs/utils.go:86 | a text reads as a number exactly when it is one of decimal digits within the limit; otherwise the value is the limit when the number got too large and 0 when not |
| Base.PrintedDecimal | pkg/xfs/quotaer.go:38-43 | a printed number has that decimal value and no leading zero |
| Base.WrapCongruent | pkg/hostpath/hostpath.go:284-291 | an int64 sum that is off is so by a multiple of 2^64 |
| Sorting.LeqIff | pkg/state/state.go:353-355 | the order compares strings where they first differ, a prefix coming first |
| ProjectIDs.NextIs | pkg/xfs/utils.go:38-58 | the next ID is unused and not 152, and all IDs below it, or all from 1 up when it is 0, are |
| ProjectsFile.TrimSpaceIs | pkg/xfs/utils.go:78 | what is cut off on both sides is space, and what is left neither starts nor ends with it |
| ProjectsFile.ParseLineIff | pkg/xfs/utils.go:78-88 | a line is a record exactly when, trimmed, it is a number, a directory and a cap separated by two colons |
| ProjectsFile.LastRecordCounts | pkg/xfs/utils.go:76-101 | of several records of a directory the last one counts |
| ProjectsFile.CollectIff | pkg/xfs/utils.go:76-101 | a directory is in the table exactly when it exists and some line is a record of it |
| Sizes.UnitLetter | pkg/xfs/utils.go:106-115 | the letter says between which powers of 1024 the size lies |
| Quota.AddingIs | pkg/xfs/quotaer.go:156-177 | table, file and whether they agree after an addition, for each outcome of the command and the two dumps |
| Quota.RemovingIs | pkg/xfs/quotaer.go:179-182 | the same for a removal |
| Quota.ResizingIs | pkg/xfs/quotaer.go:184-204 | the same for a change of a cap, and when it succeeds |
| Quota.StartedIff | pkg/xfs/quotaer.go:54-109 | there is a quota table after a start exactly when quotas are available, the last dump succeeds and so do command and dump of every directory read |
| Quota.RestoreStops | pkg/xfs/quotaer.go:137-154 | a restoration ends at the first existing directory whose command or dump fails, and the file then is a printout of the table as it was at the last dump that succeeded |
| Sizes.NegativeInBytes | pkg/xfs/utils.go:106-115 | a negative size stays in bytes, truncated toward zero |
| Effects.EditStep | pkg/hostpath/controllerserver.go:278-373 | attach, detach, expand, stage and unstage change at most one stored volume, in those fields and under those checks only |
| Effects.CreateStep | pkg/hostpath/controllerserver.go:149-192 | a creation is an allocation, taken back when the content cannot be loaded |
| Effects.PublishStep | pkg/hostpath/nodeserver.go:43-210 | a publish is an allocation if one is needed, a mount if the access type asks for one, and one recorded target; or it records nothing and may remove the directory of an ephemeral volume that could not be mounted |
| Effects.UnpublishStep | pkg/hostpath/nodeserver.go:212-270 | an unpublish is an unmount followed by the removal of the target, or of the whole ephemeral volume, from the record |
| Effects.QuotaStep | pkg/hostpath/hostpath.go:186-194 | a call makes at most one addition, removal or change of a cap, or an addition that it takes back |
| Soundness.VolumesUpToOrder | pkg/state/state.go:353-355 | reordering an ID list does not change the multiset of the snapshots' source volumes |
| Soundness.GroupSoundUpToOrder | pkg/state/state.go:340-364 | what is promised of a group survives any in-place reordering of its lists |
| Soundness.AddSnapshotSound | pkg/state/state.go:272-281 | a snapshot with a new ID keeps every group's members matched with its sources |
| Soundness.DropSnapshotSound | pkg/state/state.go:283-291 | so does removing any snapshot |
| Reachable.AddMembersAppends | pkg/hostpath/groupcontrollerserver.go:121-157 | exactly the snapshots of the first k sources are appended, all of them exactly on success |
| Reachable.CreateGroupOutcome | pkg/hostpath/groupcontrollerserver.go:119-161 | a failed creation leaves k orphan snapshots and no group; a successful one appends all members and the group |
| Reachable.NewGroupMatches | pkg/hostpath/groupcontrollerserver.go:106-147 | a new group's members are snapshots of exactly its source volumes |
| Reachable.StepSound | pkg/hostpath/hostpath.go:55-60 | every RPC and every restart keeps memory and state file sound |
| Reachable.RunSound | pkg/hostpath/hostpath.go:55-60 | so does every run |
| Reachable.ReachableVolumes | pkg/hostpath/controllerserver.go:115-182 | on all runs volume IDs and names are unique, no parent ID is ever stored, sizes stay within the maximum and attachments within the attach limit |
| Reachable.EditSound | pkg/hostpath/controllerserver.go:305-326 | attaching keeps the number of attached volumes within the limit, expanding the size within the maximum, staging one path |
| Reachable.ReachableGroups | pkg/hostpath/groupcontrollerserver.go:106-159 | on all runs a stored group has lists of equal length and, while all members are stored, member volumes equal to its sources as multisets |
| Durable.StepMirrored | pkg/state/state.go:174-201 | every step keeps: with no failed write since the last good one, the file holds memory up to the order inside ID lists; and a step whose writes succeed stays there |
| Durable.RestartRestores | pkg/state/state.go:166-201 | at every such point of every run a restart restores volumes and snapshots exactly and groups up to order |
| Durable.RestartLosesNothing | pkg/state/state.go:162-172 | in a run whose writes all succeed a restart loses nothing at any point |
| Lifecycle.StepNestedIff | pkg/hostpath/nodeserver.go:73-106 | a step keeps published volumes staged and staged volumes attached exactly unless it is an ephemeral publish of an unstaged volume whose generated name is taken |
| Lifecycle.NoNameStolen | pkg/hostpath/nodeserver.go:74-76 | that cannot happen where no other name starts with the generated prefix |
| Lifecycle.ReachableLifecycle | pkg/hostpath/nodeserver.go:99-106 | on all runs with such names: at most one staging path, published implies staged, and with attach and lifecycle checks staged implies attached |
| Effects.SnapshotStepKeepsVolumes | pkg/hostpath/controllerserver.go:542-648 | snapshot and group calls leave the volume list, mounts and quotas alone, in memory and in what they write |
| Mounts.RecordExclusiveIff | pkg/hostpath/nodeserver.go:204-206 | recording a target keeps paths exclusive exactly when it is mounted and recorded nowhere |
| Mounts.UnrecordExclusive | pkg/hostpath/nodeserver.go:264-268 | unmounting a path and taking it off the record keeps them exclusive |
| Mounts.StepExclusiveIff | pkg/hostpath/nodeserver.go:43-270 | a step, restarts included, keeps target paths exclusive and mounted exactly unless it records a target blindly, unmounts one without taking it off the record, or restarts from a file that records an unmounted one |
| Mounts.CleanRecallsMounted | pkg/state/state.go:174-201 | a restart from an up-to-date state file never recalls an unmounted target |
| Mounts.QuietIsOrderly | pkg/state/state.go:174-201 | a run of orderly calls is orderly when no restart follows a failed state write |
| Mounts.ReachableExclusive | pkg/hostpath/nodeserver.go:133-169 | on all orderly runs published paths are without repetition, disjoint between volumes and mounted |
| Mounts.ReachableSingleWriter | pkg/hostpath/nodeserver.go:95-97 | a volume whose every publish asks for SINGLE_NODE_SINGLE_WRITER is never published at two paths |
| MountRecords.StepRecordedIff | pkg/hostpath/nodeserver.go:258-262 | every mounted target stays on record exactly unless the step forgets a volume, or an older version of one, with a target that stays mounted: unforced deletion, ephemeral overwrite, an ephemeral volume with another target, a restart from a file without it |
| MountRecords.CleanLeavesNothing | pkg/state/state.go:174-201 | an up-to-date state file has every volume with a mounted target |
| MountRecords.QuietIsTidy | pkg/state/state.go:174-201 | no mount is forgotten in a run whose calls forget none and whose restarts follow a good state write |
| MountRecords.ReachableMounts | pkg/hostpath/nodeserver.go:133-206 | where no step does, the mount points are exactly the recorded targets |
| Capacity.PutChosen | pkg/hostpath/hostpath.go:175-183 | a creation that passes the check ends within capacity in its kind and adds nothing to others, also from overdrawn states |
| Capacity.StepWithin | pkg/hostpath/hostpath.go:155-246 | every step but expansion keeps each kind's sizes within its capacity |
| Capacity.ReachableWithin | pkg/hostpath/hostpath.go:284-291 | without expansions no reachable state overdraws a kind and the int64 sum is the true one |
| Capacity.ExpandGrowsSum | pkg/hostpath/controllerserver.go:791-796 | an expansion moves the kind's sum by exactly the growth |
| Capacity.ExpandWithinIff | pkg/hostpath/controllerserver.go:776-796 | an expansion keeps capacity exactly when the growth still fits |
| Capacity.ReportedMaximumAgrees | pkg/hostpath/controllerserver.go:384-397 | for a configured kind, creation passes the checks exactly up to the reported maximum size |
| Capacity.AnyKindAgrees | pkg/hostpath/hostpath.go:162-174 | with no kind given it passes exactly when some kind reports room, whatever the map order |
| Idempotence.CreationTracked | pkg/hostpath/controllerserver.go:184-192 | after a successful creation the name finds the volume of the reply |
| Idempotence.StepTrackedIff | pkg/hostpath/controllerserver.go:115-147 | a step keeps the name finding the volume, at least as large, exactly unless it deletes it, replaces it by an ephemeral one or restarts from a file without it |
| Idempotence.CleanRestartTracks | pkg/state/state.go:174-201 | a restart from an up-to-date state file disturbs no volume |
| Idempotence.QuietIsUndisturbed | pkg/state/state.go:174-201 | a run whose calls leave the volume alone disturbs it only by a restart after a failed state write |
| Idempotence.RepeatedCreateVolume | pkg/hostpath/controllerserver.go:115-147 | across any undisturbed run, repeating the creation answers with the same ID and changes nothing; with a volume source it is rejected |
| Idempotence.StepSnapshotTrackedIff | pkg/hostpath/controllerserver.go:563-579 | a step keeps a name finding its snapshot first exactly unless it deletes it, alone or as a member of a group that the deletion gets to, or restarts from a file without it |
| Idempotence.QuietKeepsSnapshot | pkg/state/state.go:174-201 | the same for a snapshot |
| Idempotence.RepeatedCreateSnapshot | pkg/hostpath/controllerserver.go:563-607 | across any run that keeps the snapshot, name and source are answered with the same ID and another source is rejected |
| Groups.DropIsWithout | pkg/state/state.go:283-291 | with unique IDs, shifting out the first match is filtering the ID out |
| Groups.DeleteGroupExact | pkg/hostpath/groupcontrollerserver.go:191-216 | deletion leaves exactly the snapshots that are not members, in order, and all other groups |
| Groups.CreateThenDelete | pkg/hostpath/groupcontrollerserver.go:106-216 | deleting a group right after its creation restores the state exactly |
| Groups.StepCompleteIff | pkg/hostpath/groupcontrollerserver.go:47-271 | a step keeps a group stored with all members, up to order, exactly unless it deletes the group or a member or restarts from a file without it complete |
| Groups.CleanRestartComplete | pkg/state/state.go:174-201 | a restart from an up-to-date state file breaks no group |
| Groups.QuietIsUnbroken | pkg/state/state.go:174-201 | the same for a group and its members |
| Groups.GroupAnswersIff | pkg/hostpath/groupcontrollerserver.go:68-104 | a repeated creation succeeds exactly for a permutation of the sources while all members are stored |
| Groups.GetAnswersIff | pkg/hostpath/groupcontrollerserver.go:237-261 | reading succeeds exactly for a permutation of the members while all are stored |
| Groups.RepeatedCreateGroup | pkg/hostpath/groupcontrollerserver.go:47-171 | across any run that breaks nothing, the members are snapshots of exactly the requested volumes and every ordering of the sources is answered with the same ID |
| NodeFiles.AddMembersDisk | pkg/hostpath/groupcontrollerserver.go:122-147 | making the members of a group adds their archives up to the first that fails, and what that one leaves unfinished |
| NodeFiles.DropMembersDisk | pkg/hostpath/groupcontrollerserver.go:201-209 | deleting them removes the archives it gets to, but for those that cannot be removed |
| Backing.StepBackedIff | pkg/hostpath/nodeserver.go:191-199 | a step keeps every stored volume backed exactly unless it is an ephemeral publish whose mount fails, a deletion of a snapshot or group member whose archive path is a volume's, or a restart without some recalled volume's directory |
| Backing.StepArchivedIff | pkg/hostpath/hostpath.go:268-274 | a step keeps every stored snapshot archived exactly unless it removes the directory of a volume at the archive's path or restarts without some recalled snapshot's archive |
| Backing.StepHousedIff | pkg/hostpath/hostpath.go:203-223 | a step leaves no file without an owner exactly unless a block file or an archive stays unfinished, an archive cannot be removed, or a restart recalls a state without the owner |
| Backing.CleanRestartFiles | pkg/state/state.go:174-201 | a restart from an up-to-date state file loses and leaves nothing while no file gets lost |
| Backing.ReachableFiles | pkg/hostpath/hostpath.go:186-276 | on all runs, where no step does so: every volume is backed, every snapshot archived, and nothing else exists |
| QuotaTable.StepCoveredIff | pkg/hostpath/hostpath.go:268-276 | every quota directory stays with a stored volume exactly unless a deletion of a volume with a quota cannot be written, or a restart reads the quota of a directory whose volume the state file does not have |
| QuotaTable.StepQuotaedIff | pkg/hostpath/hostpath.go:186-194 | every stored volume keeps a quota exactly unless the step stores one that stays and whose state write or project command fails, or there are no quotas; or a restart does not read the quota of a recalled volume |
| QuotaTable.RunAgrees | pkg/hostpath/hostpath.go:186-194 | between restarts, with successful state writes and project commands, quota directories are exactly the paths of stored volumes, whatever else fails |
| QuotaTable.CleanRestart | pkg/xfs/utils.go:90-94 | a restart from an up-to-date state file reads only quotas of stored volumes, when the projects file lists no existing path of anything else |
| QuotaTable.StartedLists | pkg/xfs/quotaer.go:84-109 | a start, also one that fails half way, adds nothing to what the file lists |
| QuotaTable.ReachableCovered | pkg/hostpath/hostpath.go:186-194 | where deletions get written and restarts follow a good state write, every quota belongs to a stored volume on all runs, whatever becomes of quota commands, the projects file and the files of the node |
| QuotaTable.ReachableQuotas | pkg/hostpath/hostpath.go:186-194 | on all runs whose calls leave no quota and miss none and whose restarts find both files up to date and every volume's path, quota directories are exactly the paths of stored volumes, whatever else fails; where files are spared too, these and the archives are all that exists |
| QuotaTable.FailedLoadRestores | pkg/hostpath/controllerserver.go:157-180 | a creation whose content cannot be loaded leaves volumes, files and quotas as they were when cleanup succeeds |
| QuotaFile.CapsArePlain | pkg/hostpath/hostpath.go:188 | the caps the driver sets can always be printed and read back |
| QuotaFile.StepFileMirrors | pkg/xfs/quotaer.go:156-210 | every step, restarts included, keeps: the file is a printout of the table unless a change has not been written or the last write failed |
| QuotaFile.ReachableFile | pkg/xfs/quotaer.go:156-210 | so at every point of every run |
| QuotaFile.RestartReadsTable | pkg/xfs/quotaer.go:84-109 | a restart of the driver with such a file has the directories that still exist, their caps and all but one of their IDs |
| QuotaFile.RestartIDsIff | pkg/xfs/quotaer.go:34-46 | a restart keeps project IDs distinct exactly unless the directory printed first and another one with ID 0 both still exist |
| QuotaFile.RunIDsSound | pkg/hostpath/hostpath.go:186-194 | over driver runs, whatever fails, no two directories share a project ID and none gets 152, as long as no restart reads 0 twice |
| QuotaFile.ReachableIDs | pkg/hostpath/hostpath.go:186-194 | from a fresh start with fewer than 65534 quotas at a time, IDs are distinct through every run with one restart |
| QuotaCaps.CallCaps | pkg/hostpath/hostpath.go:188 | a call leaves every cap as it was, except that of the directory it asks a quota for |
| QuotaCaps.ReachableCaps | pkg/hostpath/hostpath.go:279-282 | on all runs whose restarts find an up-to-date projects file, a directory's cap is the text of the size at creation or at the last expansion on the node |
| QuotaCaps.SameCapIff | pkg/xfs/utils.go:106-115 | two sizes have the same cap exactly when they round to the same amount of the same unit |
| QuotaCaps.ExpandLeavesCapIff | pkg/hostpath/controllerserver.go:791-796 | an expansion in the controller leaves the cap behind the stored size exactly unless both sizes round to the same cap |
| QuotaCaps.NodeExpandCatchesUp | pkg/hostpath/nodeserver.go:472-524 | the expansion on the node to the stored size brings them together again |
| Stranded.FailedMountStrands | pkg/hostpath/nodeserver.go:191-199 | a failed mount leaves an ephemeral volume, if not published elsewhere, stored and without its directory |
| Stranded.StepStrandedIff | pkg/hostpath/nodeserver.go:73-88 | such a volume stays so exactly unless it is deleted, published without an access type or not recalled by a restart; and it keeps its quota but for restarts |
| Stranded.RunStranded | pkg/hostpath/nodeserver.go:73-88 | so over runs |
| Stranded.StrandedPublish | pkg/hostpath/nodeserver.go:73-202 | meanwhile a publish with an access type neither mounts nor records anything |
| Stranded.StrandedUnpublish | pkg/hostpath/nodeserver.go:234-237 | an unpublish answers success and does nothing |
| Stranded.StrandedCounts | pkg/hostpath/hostpath.go:284-291 | the volume counts in full towards the capacity of its kind |
| Paging.SortIsDetermined | pkg/hostpath/controllerserver.go:684-687 | with unique IDs every way of sorting gives the same list, holding each snapshot once |
| Paging.PageProgress | pkg/hostpath/controllerserver.go:726-753 | a page that names a next token is not empty and the token stands for where it ends |
| Paging.PagesAreTheList | pkg/hostpath/controllerserver.go:682-758 | following tokens ends and the pages together are the sorted snapshots, for any page sizes |
| Limits.NestingCanFail | pkg/hostpath/nodeserver.go:73-90 | a run from a fresh node that publishes an unstaged volume |
| Limits.ExclusiveCanFail | pkg/hostpath/nodeserver.go:150-205 | a run from a fresh node that records a path nobody mounted |
| Limits.RestartRecallsUnmounted | pkg/hostpath/nodeserver.go:258-262 | a run whose unpublish cannot be written and whose restart then recalls a path that is not mounted |
| Limits.MountCanBeForgotten | pkg/hostpath/nodeserver.go:258-262 | a run after which a target is mounted that no volume knows of |
| Limits.BackingCanBeLost | pkg/hostpath/nodeserver.go:191-199 | a publish whose mount fails leaves a stored volume without a directory, and a restart then also without a quota |
| Limits.FileCanBeLeft | pkg/hostpath/hostpath.go:203-212 | a creation that fails leaves a block file without a volume |
| Limits.ArchiveCanBeLost | pkg/hostpath/controllerserver.go:641-646 | a snapshot whose deletion could not be written comes back ready and without its archive |
| Limits.QuotaCanBeLeft | pkg/hostpath/hostpath.go:268-276 | a deletion that cannot be written leaves a quota without a volume |
| Limits.QuotaCanBeMissing | pkg/hostpath/hostpath.go:241-245 | a creation that cannot be written is repeated with success, and the volume has no quota |
| Limits.CapCanBeBehind | pkg/hostpath/controllerserver.go:791-796 | an expansion in the controller leaves the cap at the old size |
| Limits.CapacityCanBeOverdrawn | pkg/hostpath/controllerserver.go:776-796 | a run from a fresh node whose expansion overdraws its kind |
| Limits.DeletedMemberBreaksGroup | pkg/hostpath/controllerserver.go:636-646 | deleting a group member is not refused, and the group, still stored, no longer answers |
| Limits.GroupCanStopAnswering | pkg/hostpath/controllerserver.go:636-646 | such a run from a fresh node |
| Limits.ProjectIDCanBeShared | pkg/xfs/quotaer.go:34-46 | a run of two creations and two restarts, without any failure, after which two quotas share a project ID |

## Left out

- HostPathDriver.HostPath.CreateVolume: needs a free project ID, because with all 65535 in use `generateID` loops forever (`ProjectIDs.TerminatesIff`); the same holds for NodePublishVolume. Mutable parameters are not modelled.
- HostPathDriver.HostPath.ListSnapshots: negative MaxEntries and tokens above 2^31-1, on which the code panics, are excluded.
- HostPathDriver.HostPath.MountTarget: checking a mount point is accurate and only the driver mounts; creating the target path counts as part of the check.
- State.Store.constructor: takes a decoded file; one that cannot be read or decoded ends the start in `HostPathDriver.NewHostPathDriver`, and the file is as before.
- State.Store.Dump: a write that fails leaves the old file, while `os.WriteFile` truncates first and may leave a cut-off one, on which the next start fails.
- Quota.Quotaer.Dump: the same for the projects file, of which a start then reads the lines that are left.
- Quota.NewQuotaer: whether the path, its file system, its mount options and the command allow quotas is one outcome.
- Sizes.ConvertBytesToString: works on real numbers, so the rounding of sizes above 2^53 by float64 is not modelled.
- ProjectsFile.PrintedRoundTrip: asks for directories and caps without colon or newline and caps without trailing space, which the text format cannot represent.
- QuotaFile.RunIDsSound: asks for a state directory and volume IDs without colon or newline, as do `QuotaFile.ReachableIDs`, `QuotaTable.ReachableQuotas` and `QuotaCaps.ReachableCaps`; UUIDs have none, but the ID of an ephemeral volume is the caller's.
- Backing.StepBackedIff: takes volume IDs to be plain file names, so that no directory lies in another, and target and staging paths to lie outside the state directory, as the orchestrator's do, so that making and removing them touches no file of a volume or snapshot; the same holds for everything that speaks of these files.
- Backing.StepArchivedIff: does not tell a directory from an archive, so an ephemeral volume with the ID of an archive can be allocated over it, where `os.MkdirAll` fails in the code; the results hold for those extra states too.
- QuotaTable.ReachableCovered: asks that the projects file lists no path made from a new UUID, besides what `QuotaFile.RunIDsSound` asks of names.
- Mounts.ReachableExclusive: assumes that each publish has an access type, that what follows an unmount succeeds and that no restart recalls an unmounted path; all three are exact by `Mounts.StepExclusiveIff`.
- Volume paths are the state directory, a slash and the ID; path cleaning by `filepath.Join` is not modelled.
- Copied volume records share slice arrays; `Strings` proves what sharers read, while volumes in the store hold value lists because every change is stored back at once.
- Contents of volumes and archives, tar, cp, dd, fallocate, loop devices and xfs_quota: only success or failure.
- JSON encoding is a trusted inverse pair, timestamps are opaque numbers, error texts are reduced to status codes.
- `ListVolumes` never sets a next token, so it is no pager; it is left out with volume stats, health checks, identity and capability lists, `ValidateVolumeCapabilities`, `ControllerGetVolume` and `ControllerModifyVolume`, which read state or check one field.
- The gRPC server, logging, proxy, endpoint and flag parsing.
