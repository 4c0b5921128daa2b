# easySFTP, verified

A Dafny model of easySFTP's uploader and of its tuning policy, with proofs of
what they promise. `dafny verify dfyconfig.toml` checks all of it.

## What is modelled

**The remote side** (`RemoteTree.dfy`) is a finite map from path segments to
files and directories with the SFTP version 3 rules of sections 6.5 and 6.6 of
draft-ietf-secsh-filexfer-02: a rename onto an existing name is an error, and so
is removing a directory that is not empty; `posix-rename@openssh.com` (section
4.3 of OpenSSH's PROTOCOL file) is optional. `Server.Execute` picks any reply and
any effect the fault model allows: a reported success took effect, a reported
failure or a lost reply may or may not have, and a failed write may leave
anything in the file it opened. The server records the tree after every request,
so a claim about its trace is a claim about every step, a killed run included.

Three constants say how good a server is, and every claim that needs one names it.
A `candid` server answers Lstat with a generic failure for absent paths only
(`remoteAbsent` reads that answer as absence). A `legible` one also shows and reads
out whatever is there, unless the connection is lost. A `reliable` one carries out
and answers every request it can. Each implies the one before; without any of them
a generic failure means nothing at all.

**Publishing and the worker pool** (`Publish.dfy`, `Rollback.dfy`, `WorkerPool.dfy`): each request
is one stage, so the requests of parallel workers interleave in every order.

**Sync** (`Names`, `Collide`, `Deletes`, `SyncJob`, `SyncPhases`, `SyncManifest`,
`SyncRoom`, `SyncFrame`, `SyncSteps`, `SyncDeliver`, `Sync`, `SyncRuns`,
`SyncLimits`, `SyncExample`, `Twins`): one run from reading the manifest to writing
it, all failure paths and the recovery manifests included. `id` is what the server takes a name for: the name itself on
a case-sensitive server, any coarser identification elsewhere; `fold` is the
client's own comparison key and at least as coarse.

**Clean, overlay and the whole run** (`Clean.dfy`, `Overlaps.dfy`), **confinement** (`Paths.dfy`,
`Confine.dfy`, on strings, with Go's `path.Clean`, `path.Join` and `path.Dir`
written out), **the connection pool** (`Session*.dfy`, `Spreading.dfy`, a transition system whose
steps are the critical sections of the session's mutex), **exclude patterns and
the walk** (`Glob`, `GlobLaws`, `PathGlob`, `Gitignore`, `Lines`, `Brackets`, `Planner`,
`PlannedFiles`), **the tuning policy, its controller and its cache** (`Autotune`, `Estimates`,
`Summary`, `Controller`, `ControllerLaws`, `Autocache`, `CacheLaws`).

## Hypotheses

`SyncJob.Sound`: the plan comes from one directory tree, no two planned paths meet
on the server, every component is the name of an entry and none is temp-shaped,
nothing is planned at or below the manifest's name. `SyncJob.SoundManifest`: the
same for manifest keys, which is what easySFTP writes (`Twins.dfy` is about keys
spelled in other ways). `SyncRoom.Roomy`, used only for the pre-pass and for success
on a reliable server, asks about names at, above or below planned files: above and
below them only listed files stand, a directory at or below one has a listed entry
below it, no listed entry is a directory or lies below a planned file that is there,
the temporary names of the run and of the manifest are no directories, and names are
compared exactly. `SyncExample.HypothesesCanBeMet` gives a deployment that meets all of
them, with a directory the plan turns into a file. "Truthful" means: whatever the
manifest on the server says is current (its digest equals the local one) really is
there. "Room in the budget" is `DeleteBudget.Affords(n)`: no limit, or `n` removals
more still fit under it.

## Where the promises stop

Each of these is proved with its exact condition.

* The no-loss promise of a publish is per call: a backup publish is safe for every
  run exactly when the live file is present at its start
  (`Publish.SafeExactlyWhenLivePresent`). One that gives up after parking the live file
  leaves the target missing exactly when neither the move onto it nor the move back took
  effect (`Rollback.MissingExactly`); if only the first can fail it never does
  (`Rollback.GivingUpPutsBack`).
* A file that cannot be removed and whose Lstat fails with a generic status counts
  as deleted: the flag of a deletion is true in every run exactly when the server
  gives that answer for absent paths only (`DropFlags.FlagIsTrueExactly`,
  `DropFlags.ClaimedButThere`). The comment at internal/uploader/remote.go:150-151
  calls this reading safe for both callers. A listing then deletes less (and a clean
  that succeeds may leave what it did not see); a deletion forgets the file.
* A manifest that is there but cannot be read counts as a first sync. Without
  `posix-rename` every planned file is then parked and replaced, and while one is
  parked the manifest is wrong about it: such a run is truthful at every step
  exactly when the manifest calls no planned file current
  (`SyncLimits.BackupPublishIsTruthfulExactly` for one file,
  `SyncLimits.MisreadRunIsTruthfulExactly` for the run). 
  On any server, one that succeeds lists no stale file any more. Those with no planned
  file at or above them stay where they are, and nothing is forgotten exactly when
  there was none of them; with `posix-rename` that is exactly when there was no stale
  file at all (`SyncRuns.MisreadForgetsExactly`). Without it those below a planned file
  went with the directory that was in its place, to the same place below the parked
  name, where no manifest lists them (`SyncRuns.MisreadParks`;
  `SyncExample.StaleFileIsParked` is such an end of a run).
* A manifest write can leave no manifest at all exactly when the server has no
  `posix-rename` (`SyncLimits.ManifestCanBeLostExactly`). Stale files are then listed
  nowhere; that they stay remembered over failing runs is claimed, without it, for
  series in which every run found a manifest (`SyncRuns.SyncUntilDone`).
* Without `posix-rename` parking renames whatever is at the target, a directory
  included; other files stay put exactly when no file lies below the target
  (`SyncLimits.ParkSparesOthersExactly`).
* The manifest written after a failed *file* deletion of the pre-pass drops what
  was deleted, which can leave a directory no entry covers. Whatever part of the
  deletions fails, a retry finds the pre-pass hypothesis again exactly when, before
  the run, every remote directory at or below a planned file has a listed entry below
  it that does not collide, or has all colliding entries below it
  (`SyncLimits.RetryKeepsRoomExactly`, `SyncLimits.StrandedDirectory`).
* Confinement needs the root check: `safeJoin` confines every path strictly below
  the base exactly when the base is not "." (`Confinement.SafeJoinConfinesExactly`).
* A sync trusts the manifest: one that read it and succeeds has converged exactly when
  the manifest was true at its start (`SharedTargets.ConvergesExactlyWhenTrue`). An
  overlay earlier in the run may share its target without a warning (only a clean gets
  one); when both succeed the sync has converged exactly when the overlay plans no file
  above one the manifest calls current, and the same contents where it plans that one
  itself (`SharedTargets.OverlayKeepsTruthExactly`, `SharedTargets.OverlayThenSync`).
* A manifest key that is not in clean form can be the twin of a planned file: an
  entry of its own that leads to the same place (`Confinement.TwinKeysExactly`). It is
  deleted before the upload exactly when it ends in nothing, "." or "..", or folds to
  a planned path, otherwise after it (`KeyStrings.TwinIsEarlyExactly`; "x/" and "./x"
  are one of each kind, `KeyStrings.TwinsOfBothKinds`). A run that succeeds lacks a
  planned file exactly when it has a twin of the late kind, or one of the early kind
  while the manifest calls the file current (`KeyRuns.LostExactly`,
  `KeyRuns.SyncByKeys`). Keys in clean form have no twin.
* Whether a single file goes into the target or takes its place is decided by a slash
  at the end of the target as it was written; a backslash there, which is read as a
  slash otherwise, does not count (`Planner.PlanLands`, `Planner.BackslashIsNoSlash`).
* Pruning excluded directories is safe for every tree exactly when no file below an
  excluded directory is re-included (`Planner.PruningIsSafeExactly`).
* The check for unterminated classes looks for the end of a class in the whole
  line, before it is cut at its slashes, and takes a bracket behind any backslash
  for escaped. A line it accepts has no open class exactly when every bracket
  behind an even run of backslashes opens a class that closes before the next slash
  (`Brackets.AcceptedIsClosedExactly`; `Brackets.TwoWaysPastTheCheck` shows that
  there are no other faults). "[a/b]", and two backslashes before "[x", pass and then
  exclude nothing (`Brackets.ClassAcrossSlashMatchesNothing`,
  `Brackets.MistakenBracketMatchesNothing`).
* A handshake for a new connection can still end after the step that sets the
  refusal exactly when some worker is in one at that step, and then only that one
  (`SessionClaims.HandshakeSlipsExactly`, `SessionClaims.AHandshakeSlips`,
  `SessionClaims.RefusalLatches`).

## Model

| member | source | states |
|---|---|---|
| RemoteTree.Server.Execute | internal/uploader/transfer.go:341-415 | one request under the fault model: success took effect, failure may have, a status "not there" is true and a generic failure of Lstat means nothing unless the server is candid; the tree stays a tree and is recorded |
| RemoteTree.StepWellFormed | internal/uploader/transfer.go:341-415 | every request, answered or not, leaves a tree in which each entry's parent is a directory |
| RemoteTree.StepFrame | internal/uploader/transfer.go:372-415 | a request changes nothing outside the names it touches |
| Publish.StageStep | internal/uploader/transfer.go:372-415 | whatever the reply, one request leads from what a stage of the publish needs to what the next one needs |
| Publish.PublishNeverLoses | internal/uploader/transfer.go:341-415 | in every run that starts with the live file present, after every request the old content is at the target or the backup or the new content is at the target; a nil result means the target holds the new content |
| Publish.SafeExactlyWhenLivePresent | internal/uploader/transfer.go:372-415 | every backup publish is safe if and only if it starts with the live file present |
| Rollback.GivingUpPutsBack | internal/uploader/transfer.go:372-415 | in every run in which only the move of the upload onto the target can fail, however it fails, the target is missing at no time but between the park and that move or the move back, and a run that gives up leaves the old content there, or the new one when the upload got there after all |
| Rollback.MissingExactly | internal/uploader/transfer.go:401-408 | whatever fails, a run that gave up after a park leaves the target missing if and only if neither the move onto it nor the move back took effect; it holds the new content if and only if the first did, the old one if and only if only the second did |
| WorkerPool.OwnStep | internal/uploader/retry.go:25-75 | one request of one worker keeps what the worker relies on and reports only what it achieved |
| WorkerPool.PoolTurn | internal/uploader/transfer.go:166-211 | a step of one worker keeps the invariant of all of them: independent workers do not notice each other |
| WorkerPool.RunPool | internal/uploader/delete.go:23-70 | in every interleaving, with cancellations and retries: an upload reported as done is in place and, on a candid server, a deletion took effect; everything no worker owns is unchanged after every request, a deletion only removes, and a file below an upload's target is there or at the same place below the parked name; ready workers on a reliable server all succeed and leave no temporary file |
| DropFlags.FlagIsTrueExactly | internal/uploader/remote.go:127-166 | the flag of a deletion is true in every run if and only if the server answers Lstat with a generic failure for absent paths only |
| DropFlags.ClaimedButThere | internal/uploader/remote.go:152-166 | otherwise a run of three requests claims a file as deleted that is still there |
| TempNames.TempNamesAreRecognised | internal/uploader/transfer.go:480-510 | the sweep's name test recognises every temporary name a run uses |
| TempNames.TempNamesExactly | internal/uploader/transfer.go:473-500 | the name test accepts a name if and only if it is a non-empty name followed by one of the suffixes of a run, the number of a transfer in any spelling |
| TempNames.UploadTempsDiffer | internal/uploader/transfer.go:28-30 | two transfers never share a temporary name, whatever their targets are called |
| TempNames.ExactNamesKeepTempsApart | internal/uploader/transfer.go:23-37 | on a server that compares names exactly, temporary, backup and manifest temporary names never coincide |
| DeleteBudgets.DeleteBudget.Reserve | internal/uploader/remote.go:250-261 | charges a batch whole or not at all, never past the limit |
| DeleteBudgets.DeleteBudget.Take | internal/uploader/remote.go:268-276 | charges one removal if there is room; spent stays the sum of reservations and outstanding charges |
| DeleteBudgets.DeleteBudget.Refund | internal/uploader/remote.go:282-288 | gives exactly one outstanding charge back: the clamp at zero never acts |
| DirRemoval.RemoveLevel | internal/uploader/delete.go:118-135 | in every interleaving of charges, removals and refunds the charges that stay are exactly the removals reported; on a reliable server with room for the level every directory that is empty goes |
| DirRemoval.RemoveRemoteDirs | internal/uploader/delete.go:94-137 | only listed directories go, the charge equals the number reported, and each removal reported took one entry away, on a reliable server every one that went; on a reliable server with room in the budget for the list no listed directory is left empty, and a closed list is removed completely |
| Collide.CollidingDeletes | internal/uploader/sync.go:294-366 | splits the stale entries, in order, into those at or above a planned file, below one, or folding to one, and the rest |
| Collide.CollectCollideDirs | internal/uploader/sync.go:387-422 | collects exactly the directories between a planned file and a colliding entry below it, each once, in spite of the early exit |
| ByteOrder.BelowComesFirst | internal/uploader/sync.go:429-431 | in descending byte order every directory comes after everything below it |
| SyncJob.FrameKeepsTruth | internal/uploader/sync.go:106-135 | a run that works from the manifest that is there (or from none, with posix-rename) keeps it truthful, however its steps fail |
| SyncJob.CurrentIsKept | internal/uploader/sync.go:106-113 | a planned file the manifest calls current is among no names the run may change |
| SyncJob.UploadsIndependent | internal/uploader/transfer.go:241-265 | the transfers of one plan never use each other's names |
| SyncPhases.DropFiles | internal/uploader/delete.go:23-70 | deletes stale files: nothing else changes at any step, and on a candid server a flag that is set means the file is gone |
| SyncPhases.UploadAll | internal/uploader/transfer.go:166-234 | uploads the changed files: nothing but them and temporary names changes, and a completed file holds the local content |
| SyncPhases.CreateRemoteDirs | internal/uploader/remote.go:29-110 | one worker for each leaf, in every interleaving and with retries: only directories of the set appear, success means that all of them are there, and on a reliable server only a file in the way makes it fail |
| SyncPhases.LeafDirs | internal/uploader/remote.go:95-108 | collects exactly the members that are no parent of another one |
| SyncPhases.LeavesCover | internal/uploader/remote.go:95-113 | every directory of the set lies at or above a leaf of it |
| SyncPhases.DirsForFiles | internal/uploader/planner.go:228-243 | collects exactly the directories above the given files |
| SyncPhases.SweepStaleTemps | internal/uploader/transfer.go:542-620 | the sweep removes nothing but temp-shaped names, and no planned target |
| SyncManifest.MergedManifest | internal/uploader/sync.go:499-513 | uploaded files get their new entry, deleted ones drop out, the rest keep theirs |
| SyncManifest.MergedPromised | internal/uploader/sync.go:499-513 | the merged manifest promises only what the server holds |
| SyncManifest.WriteManifest | internal/uploader/sync.go:656-675 | every step of the write leaves the manifest old, missing (never with posix-rename) or new, and touches nothing else; success means new |
| SyncManifest.WriteKeepsTruth | internal/uploader/sync.go:531-551 | a manifest whose promises hold may be written at any moment without the server ever being untruthful |
| SyncRoom.CollisionsClosed | internal/uploader/sync.go:387-429 | once the colliding files are gone, everything at or below a collected directory is a collected directory |
| SyncRoom.RoomMade | internal/uploader/sync.go:155-213 | after the pre-pass no planned path is a directory and no ancestor of one is a file |
| SyncRoom.ClearCollideParents | internal/uploader/sync.go:387-492 | removes the collected directories and nothing else, charges each removal at most once, refunds one that was already gone, so that a success was charged exactly what it removed; on a reliable server with room for the directories in the way it succeeds |
| SyncRoom.CoveredKeepsRoom | internal/uploader/sync.go:182-201 | when every directory at or below a planned file was covered, the manifest and the tree left by file deletions that failed in part meet the pre-pass hypothesis again |
| SyncFrame.ReadManifest | internal/uploader/sync.go:561-629 | fails exactly when the connection is lost, so that is never taken for a first sync; otherwise returns the manifest that is there or the empty one, on a legible server the one that is there |
| SyncFrame.RoomyAfterWrite | internal/uploader/sync.go:182-212 | writing the recovery manifest keeps the pre-pass hypothesis for the retry |
| SyncFrame.PruneCandidates | internal/uploader/sync.go:681-695 | collects exactly the directories above the deleted files, each once, in spite of the early exit |
| SyncSteps.MakeRoom | internal/uploader/sync.go:155-213 | the pre-pass makes room, on a reliable server whenever the budget has room for the directories in the way; a failed directory removal keeps the hypothesis for a retry with the same manifest, failed file deletions leave exactly a part of the colliding files |
| SyncSteps.Recover | internal/uploader/sync.go:531-551 | the recovery write keeps every claim at every step and leaves the merged manifest, the old one or (without posix-rename) none, on a reliable server the merged one; on a candid server, when the run read what was there, every stale file that is left is listed at every step that has a manifest, which with posix-rename is every step |
| SyncDeliver.Deliver | internal/uploader/transfer.go:107-235 | creates directories, sweeps and uploads within the frame; after a pre-pass on a reliable server it succeeds |
| Sync.RestSparesThePlan | internal/uploader/sync.go:337-365 | no delete after the upload can hit a planned file, also on a server that folds names |
| Sync.CollidingSparesTheCurrent | internal/uploader/sync.go:337-365 | no delete before the upload can hit a planned file that stays as it is |
| Sync.Prune | internal/uploader/sync.go:681-695 | pruning removes no file, is charged exactly, and on a reliable server with room for the directories above the deleted files leaves none of them empty |
| Sync.Finish | internal/uploader/sync.go:236-279 | deleting the rest, pruning and the final manifest: success converges, failure records what was done and forgets no stale file |
| Sync.ExecuteSync | internal/uploader/sync.go:67-279 | every step of every run, however it fails, keeps the manifest truthful, leaves all other files alone and (candid server, manifest read and still there) has every stale file listed that is left; a run that read the manifest is refused for its target if and only if it has something to delete below a target that is too broad, and for the budget if and only if it has more to delete than fits, either way before anything is changed or charged; success means every planned file and the manifest equal local, (candid server) no stale file is left, and exactly the stale entries are reported and charged, with the directories removed; a failure records what was uploaded and deleted, and keeps the pre-pass hypothesis for a retry after a directory in the way, and after a colliding file if every directory was covered; under that hypothesis a reliable server makes the run succeed whenever the target is accepted and the stale files and the directories in the way fit the budget |
| SyncRuns.OneMoreRun | internal/uploader/sync.go:67-279 | what a run leaves at any of its steps, killed there or not, is a start from which the next run keeps every claim of the series, stale files included; without posix-rename as long as no run misread the manifest or found none |
| SyncRuns.StaleOfTheSeries | internal/uploader/sync.go:499-513 | with or without posix-rename, what a run does to the stale files it finds listed, it does to those of the first manifest of the series, provided it still had them listed |
| SyncRuns.MisreadForgetsExactly | internal/uploader/sync.go:561-629 | a run that takes the manifest for missing and succeeds still remembers all stale files if and only if there was none but those with a planned file at or above them; with posix-rename if and only if there was none |
| SyncRuns.MisreadParks | internal/uploader/sync.go:561-629 | a stale file that was below a planned one is afterwards at the same place below the parked name, which no manifest lists (only without posix-rename) |
| SyncRuns.SyncUntilDone | internal/uploader/sync.go:67-279 | retrying until a run succeeds: every step of every run keeps the manifest truthful and all foreign files as they were (without posix-rename as long as no run misread the manifest); the run that succeeds leaves the planned files and the manifest equal to local; on a candid server whose manifest no run misread, and (without posix-rename) each run found, every stale file of the first manifest is listed at every step that has a manifest until it is gone, and gone after the success |
| SyncLimits.BackupPublishIsTruthfulExactly | internal/uploader/sync.go:553-585 | replacing a file without posix-rename keeps the server's manifest truthful at every step if and only if the manifest does not call it current |
| SyncLimits.MisreadRunIsTruthfulExactly | internal/uploader/sync.go:553-585 | without posix-rename the transfers of a run that misread the manifest keep it truthful at every step if and only if it calls no planned file current |
| SyncLimits.ManifestCanBeLostExactly | internal/uploader/sync.go:656-675 | a failing write of the manifest can leave none if and only if the server has no posix-rename |
| SyncLimits.ParkSparesOthersExactly | internal/uploader/transfer.go:379-386 | parking leaves every other file where it is if and only if no file lies below the target |
| SyncLimits.RetryKeepsRoomExactly | internal/uploader/sync.go:172-201 | before the run: whatever part of the pre-pass's file deletions fails, the retry finds its hypothesis again if and only if every remote directory at or below a planned file has a listed entry below it that does not collide, or all that collide |
| SyncLimits.StrandedDirectory | internal/uploader/sync.go:192-201 | for every choice of names, a deletion after which it does not |
| SyncExample.HypothesesCanBeMet | internal/uploader/sync.go:155-213 | the hypotheses of the sync claims hold together for a deployment with a collision |
| SyncExample.StaleFileIsParked | internal/uploader/transfer.go:372-415 | a tree that meets all claims on the end of a misread run without posix-rename, in which the stale file is not under its name but parked |
| KeyStrings.CollidingKeys | internal/uploader/sync.go:294-366 | on keys as strings, spelled in any way, with path.Dir walks: splits them, in order, into those deleted before the upload and the rest |
| KeyStrings.CleanKeysCollideAsPaths | internal/uploader/sync.go:294-366 | for keys in clean form the tests on strings are the tests on lists of names, unless folding brings a slash into a name |
| KeyStrings.TwinIsEarlyExactly | internal/uploader/sync.go:308-358 | a key that leads to a planned file under another spelling is deleted before the upload if and only if it ends in nothing, "." or "..", or folds to a planned path |
| KeyStrings.TwinsOfBothKinds | internal/uploader/sync.go:308-358 | for every name x, "./x" and "x/" lead to the file "x"; the first goes after its upload, the second before it |
| KeyRuns.SyncByKeys | internal/uploader/sync.go:106-279 | a successful run on a manifest with keys of any spelling leaves each planned file as it is locally, or missing, the latter if and only if a key that leads to it was deleted after the upload, or before it while the file was current; with a key to delete below a target that is too broad nothing is changed or charged |
| KeyRuns.LostExactly | internal/uploader/sync.go:106-279 | that is if and only if the file has a twin of the late kind, or one of the early kind and is current |
| RemoteScan.ListRemoteContents | internal/uploader/remote.go:300-365 | a listing that succeeds names nothing twice and nothing that is not there, directories parents first; on a candid server it names every descendant |
| Clean.Wipe | internal/uploader/uploader.go:265-304 | a wipe that succeeds leaves no file on a candid server and nothing at all on a reliable one, where it succeeds whenever the budget has room for everything that is there and reports and charges exactly that; everything is charged beforehand |
| Clean.ExecuteOverlayOrClean | internal/uploader/uploader.go:261-310 | a clean is refused if and only if its target is too broad, before anything is changed or charged; one that succeeds leaves the plan's files and, on a candid server, at most temporary ones beside them, on a reliable server exactly the plan's files, on any server names folded or not; an overlay leaves other files alone |
| Deployments.Run | internal/uploader/uploader.go:180-215 | over all deployments, of which any may share a target but two syncs, files plus directories removed never exceed what was spent, nor what was spent the limit, and a run that succeeds with reliable servers behind its cleans reports exactly what was spent; it stops at the first failure: every deployment before it that has its target to itself has landed (planned files as they are locally, and for a sync from a truthful manifest the manifest too), its cleans had accepted targets, and a target of which no deployment was started is as it was |
| SharedTargets.ConvergesExactlyWhenTrue | internal/uploader/sync.go:106-147 | a successful sync that read the manifest has converged if and only if the manifest was true at its start |
| SharedTargets.OverlayKeepsTruthExactly | internal/config/config.go:663-700 | an overlay that succeeded leaves the manifest of a sync on its target true if and only if it spares every file that manifest calls current |
| SharedTargets.OverlayThenSync | internal/uploader/uploader.go:180-215 | an overlay and a sync into one target that both succeed: the sync has converged if and only if the overlay spared every current file |
| SlashPaths.ResolveRender | internal/uploader/remote.go:409-428 | a cleaned path names what it was cleaned from |
| SlashPaths.DirOfRendered | internal/uploader/sync.go:681-695 | path.Dir of a clean path is the clean path one level up |
| Confinement.SafeJoinExactly | internal/uploader/remote.go:409-428 | accepts exactly the relative paths that do not climb above their start and name something, and returns where they lead |
| Confinement.SafeJoinConfinesExactly | internal/uploader/remote.go:409-449 | every accepted path is strictly below the base if and only if the base is not the starting directory |
| Confinement.SafeChildExactly | internal/uploader/remote.go:430-435 | accepts exactly the names of entries and appends them |
| Confinement.ScanStaysBelow | internal/uploader/remote.go:341-360 | whatever names a server lists, at any depth, the scan goes down by exactly those names |
| Confinement.RootCheckExactly | internal/uploader/remote.go:189-233 | accepts exactly the targets that lead to a place below a starting point which is neither "~" nor one letter and a colon right below it |
| Confinement.KeysStayBelow | internal/uploader/sync.go:637-653 | behind the root check no manifest key leads out of the target |
| Confinement.TwinKeysExactly | internal/uploader/sync.go:121-138 | a key leads to a planned file's target if and only if it cleans to it |
| Confinement.WalkUp | internal/uploader/sync.go:681-690 | the walk up from a deleted path visits exactly the directories strictly between it and the target |
| Confinement.AncestorsAreBetween | internal/uploader/sync.go:681-690 | those are the places below the target and above the path |
| SessionPool.Session.OpenSlots | internal/uploader/session.go:391-405 | counts the distinct connections of the leading filled slots |
| SessionPool.Session.MoveSpread | internal/uploader/session.go:180-192 | the spread becomes what was asked for, cut to the slots and the ceiling, and never goes up after a refusal |
| SessionPool.Session.Acquire | internal/uploader/session.go:278-300 | finds a slot's client, waits for its dial, or claims it |
| Spreading.WindowIsSpread | internal/uploader/session.go:286 | any `spread` consecutive files go to different slots |
| Spreading.WindowReachesAll | internal/uploader/session.go:278-300 | so among them there is one for every slot below the spread, and the answer it gets is about that slot |
| Spreading.LoadsAreEven | internal/uploader/session.go:286 | of any first n files no slot below the spread gets two more than another one, and the slots above it get none |
| Spreading.ConnectionsServeTheirShare | internal/uploader/session.go:278-291 | once the slots below the spread are filled, each connection serves, of every full round of files, one for each slot that holds it |
| SessionPool.Session.FinishDial | internal/uploader/session.go:301-320 | fills the slot; a refusal latches, pulls an automatic spread back and shares the first connection |
| SessionPool.Session.StartRedial | internal/uploader/session.go:465-495 | one worker redials a dead connection, within the shared budget |
| SessionClaims.PoolHolds | internal/uploader/session.go:278-373 | at every moment of every run: spread within the slots, first slot open, filled slots keep their connection, no slot dialed twice, one handshake and one redial per connection in flight, generations paid from the budget |
| SessionClaims.FilesAreSpread | internal/uploader/session.go:278-291 | both hold in every state of every run |
| SessionClaims.RefusalLatches | internal/uploader/session.go:339-373 | after a refusal no handshake for a new connection starts and at most one still ends; with an automatic count no later acquire dials |
| SessionClaims.HandshakeSlipsExactly | internal/uploader/session.go:339-373 | after the step that sets the refusal a handshake for a new connection can still end if and only if some worker is in one at that step |
| SessionClaims.AHandshakeSlips | internal/uploader/session.go:301-351 | a concrete run of two workers in which one does |
| SessionClaims.DialsAreAnswered | internal/uploader/session.go:301-320 | a finished dial fills its slot, with the first connection when there is no new one; a failed one sets the refusal and pulls an automatic spread back to what is open |
| SessionClaims.RetriesAreBounded | internal/uploader/session.go:614-637 | an operation runs at most Retries+1 times, on strictly newer generations of the first connection, and a reconnect loop goes round at most Retries+1 times |
| SessionClaims.GivesUpExactlyWhenSpent | internal/uploader/session.go:465-512 | a worker whose connection was lost goes on with a newer client when there is one, waits for a redial in flight, and otherwise takes the next retry; it gives up if and only if all retries are spent |
| SessionClaims.NoDeadlock | internal/uploader/session.go:278-325 | while a worker is busy, some worker can go on without a cancellation |
| SegmentGlob.MatchesIsMatch | internal/uploader/gitignore.go:343-405 | reading a pattern one token at a time agrees with cutting the name into one piece for each token |
| SegmentGlob.MatchSegment | internal/uploader/gitignore.go:335-405 | the scan loop and its literal fast path decide that declarative meaning |
| SegmentGlob.SplitClass | internal/uploader/gitignore.go:410-427 | finds the bracket that closes a class, or that none does |
| SegmentGlob.ClassContains | internal/uploader/gitignore.go:432-454 | a character is in the class if and only if one of its members holds it |
| GlobLaws.LiteralLaw | internal/uploader/gitignore.go:398-402 | a character without a meaning of its own stands for itself |
| GlobLaws.EscapeLaw | internal/uploader/gitignore.go:346-354 | a backslash makes any character stand for itself |
| GlobLaws.AnyOneLaw | internal/uploader/gitignore.go:355-359 | "?" is any one character |
| GlobLaws.StarLaw | internal/uploader/gitignore.go:360-369 | "*" is any number of characters |
| GlobLaws.ClassLaw | internal/uploader/gitignore.go:370-397 | a class is one of the characters in it, one that starts with "!" or "^" one of the others |
| GlobLaws.RangeLaw | internal/uploader/gitignore.go:432-454 | a range is one of the characters between its ends, which count as well |
| GlobLaws.PlainTextMatchesItself | internal/uploader/gitignore.go:335-341 | a text without special characters matches itself alone |
| PathGlob.MatchSegmentsExactAt | internal/uploader/gitignore.go:264-305 | the memoized recursion is right and its memo never lies |
| PathGlob.MatchSegmentsExact | internal/uploader/gitignore.go:253-305 | fast path and recursion decide one relation: the path divides into groups, an inner "**" taking any number of segments, a trailing one at least one |
| PathGlob.CollapseKeepsMeaning | internal/uploader/gitignore.go:497-508 | collapsing runs of "**" changes no verdict |
| Gitignore.CompileGitignore | internal/uploader/gitignore.go:57-108 | compiles the lines in order or names the first malformed one |
| Gitignore.LineShape | internal/uploader/gitignore.go:57-108 | a pattern has no adjacent "**", an unanchored one is one segment, and only a line starting with "!" re-includes |
| ExcludeLines.SkippedExactly | internal/uploader/gitignore.go:60-83 | a line says nothing if and only if it starts with "#" or is empty or "!" once trimmed |
| ExcludeLines.LineMeans | internal/uploader/gitignore.go:70-104 | a compiled line re-includes if and only if it starts with "!", is for directories only if and only if a slash ends it, is read from the root if and only if a slash stands anywhere else, and its segments are the pieces between the slashes with runs of "**" collapsed |
| ExcludeLines.LineNamesExactly | internal/uploader/gitignore.go:57-247 | a compiled line names a path if and only if its text does: the pieces of one that is read from the root match the whole path, those of any other one its last segment |
| Gitignore.TrailingSpaceExactly | internal/uploader/gitignore.go:111-130 | one more trailing space changes a line if and only if an odd run of backslashes escapes it |
| Brackets.AcceptedIsClosedExactly | internal/uploader/gitignore.go:463-497 | an accepted line has no class that stays open for the matcher if and only if every bracket behind an even run of backslashes opens a class that closes before the next slash |
| Brackets.TwoWaysPastTheCheck | internal/uploader/gitignore.go:463-497 | an accepted line in which no skipped class holds a slash and no bracket is mistaken for an escaped one has no open class; without a mistaken bracket this is an equivalence |
| Brackets.ClassAcrossSlashMatchesNothing | internal/uploader/gitignore.go:469-497 | "[a/b]" passes the check, is cut into two segments without a class, and matches no path |
| Brackets.MistakenBracketMatchesNothing | internal/uploader/gitignore.go:471-476 | so does a bracket behind two backslashes |
| Gitignore.MatchesHow | internal/uploader/gitignore.go:154-198 | a path is excluded if and only if its last line excludes it, or a directory above it is excluded and no later line re-includes the path |
| ExcludeLines.LastLineDecides | internal/uploader/gitignore.go:57-198 | one more line, said on texts: a path it names is excluded if and only if the line does not start with "!", whatever came before; without a "!" it excludes what lies below a directory it names, with one it excludes nothing new, and every other path is decided as before |
| ExcludeLines.ReIncludesWhatItNames | internal/uploader/gitignore.go:75-77 | a path that a text names is not excluded by any lines followed by "!" and that text |
| Gitignore.ExcludedBelow | internal/uploader/gitignore.go:154-198 | without re-includes everything below an excluded directory is excluded |
| Planner.PruningPreservesMeaning | internal/uploader/planner.go:168-217 | when no line starts with "!", the pruned walk finds the same files and the same number of non-regular ones, for every tree and every list of lines |
| Planner.PruningIsSafeExactly | internal/uploader/planner.go:38-48 | pruning is safe for every tree if and only if no file below an excluded directory is re-included |
| Planner.BuildPlan | internal/uploader/planner.go:79-224 | a directory is planned as the full walk finds it, whatever the lines are and however the walk was pruned; a single file is planned as itself, for overlay only, unless a line excludes it |
| PlannedFiles.PlannedExactly | internal/uploader/planner.go:168-217 | the plan of a directory holds exactly its regular files that are not excluded, but for one with the manifest's name at the root; others are counted if and only if there are any that would be in it |
| PlannedFiles.PlannedOnce | internal/uploader/planner.go:168-217 | no file is planned twice |
| Planner.PlanLands | internal/uploader/planner.go:91-115 | every planned file is not excluded and goes to its own path below the target; a single one below or at the target |
| Planner.BackslashIsNoSlash | internal/uploader/planner.go:91-97 | a target spelled with a slash at its end takes a single file in; spelled with a backslash it is the same target, and the file takes its place |
| AutotunePlan.ChosenIsNearlyBest | internal/autotune/autotune.go:607-623 | no allowed number of connections costs less than the chosen one by more than an eighth of a handshake |
| Estimates.EstimateAddsUp | internal/autotune/autotune.go:633-650 | the estimate of two amounts of work together is the sum of their estimates |
| Estimates.EstimateOfOne | internal/autotune/autotune.go:633-650 | a file costs four round trips over as many chains as there are workers, four at most; a probe one over sixteen at most; bytes what they take at the throughput of one stream |
| AutotunePlan.PlanRequestConcurrency | internal/autotune/autotune.go:524-544 | an automatic value is 16, 32 or 64, the largest of them that one file can use and that fits the budget; at most 64 workers hold at most 1024 packets by the estimate |
| AutotunePlan.TargetMeans | internal/autotune/autotune.go:524-556 | what one file can use: as many packets as hold the largest file, or, once the throughput was measured and if that is less, four bandwidth-delay products, between 16 and 64 |
| AutotunePlan.Quantize | internal/autotune/autotune.go:562-571 | the largest power of two that is not above n |
| AutotunePlan.Plan | internal/autotune/autotune.go:452-493 | pinned values stay; an automatic number of workers is one for each file or probe, up to 64, the number of connections the nearly best one, the pipeline the largest that fits |
| UploadSummary.SummarizeUploads | internal/autotune/autotune.go:269-288 | totals, largest file, percentiles and small files of the sizes |
| UploadSummary.PercentileIsNearestRank | internal/autotune/autotune.go:296-302 | the smallest size with the given share of the files at or below it |
| UploadSummary.FewAboveP90 | internal/autotune/autotune.go:573-601 | at most a tenth of the files are above the ninetieth percentile |
| UploadSummary.EstimateBoundsPackets | internal/autotune/autotune.go:588-601 | with all files in flight the estimate bounds the packets they hold |
| TuningController.Controller.Observe | internal/autotune/controller.go:218-285 | one report, as one step of the controller |
| TuningController.StaysInBounds | internal/autotune/controller.go:157-285 | connections stay between the start value and 8, the other settings never move |
| TuningController.GrowthIsModest | internal/autotune/controller.go:264-328 | a growth step has a long, full window behind it, at most doubles the connections, and asks for no more than the workers and the files still waiting |
| TuningController.ShrinkTakesBackTheLastGrowth | internal/autotune/controller.go:335-343 | a shrink returns to the value before the last growth, nothing changed in between and nothing changes after |
| TuningController.GrowthIsJudged | internal/autotune/controller.go:245-262 | between two growth steps the first was judged and paid off by a twentieth |
| ControllerLaws.RateIsBytesOverTime | internal/autotune/controller.go:314-360 | a rate is the bytes since the last report that closed a window over the time since then |
| ControllerLaws.StreamsShareTheRate | internal/autotune/controller.go:368-377 | the throughput of one connection is the measured rate over the streams that served files, if the files fill a stream; else the link stays as it was |
| ControllerLaws.RemainingIsShared | internal/autotune/controller.go:447-478 | the work left is what the report says, or while files are skipped the share uploaded so far of it, rounded down, with a probe for each file |
| ControllerLaws.GrowsExactly | internal/autotune/controller.go:218-285 | the pool grows if and only if a window that moved bytes ends, no earlier step is still to be judged or it paid off, and the plan for the work that is left, the workers and the files waiting leave room; it then doubles or takes the room |
| ControllerLaws.JudgedByTheNextWindow | internal/autotune/controller.go:245-262 | each growth step is judged by the first later window that moves bytes: it is taken back, for good, if and only if that one is not a twentieth faster |
| Autocache.Store.UpdateWith | internal/autocache/autocache.go:468-511 | folds one run into the store |
| Autocache.Store.PutRecord | internal/autocache/autocache.go:545-558 | puts the record first, drops older ones of its target and what no longer fits |
| CacheLaws.HitExactly | internal/autocache/autocache.go:339-399 | in every sequence of runs, a run hits if and only if the last run that anchored its target's record (one that measured, or found none still trusted) lies within the bands of it, both measured a round-trip time, that was at most 30 days ago, fewer than 32 hits stood on it, and the target is kept |
| CacheLaws.NextRunHitsExactly | internal/autocache/autocache.go:339-399 | after a run that measured, at once or with runs for fewer than eight other targets between, the target's next run hits if and only if it lies within the bands |
| CacheLaws.SimilarExactly | internal/autocache/autocache.go:567-626 | the bands: counts and totals differ at most twofold, percentiles at most fourfold, shares of small files by at most a quarter, and both fill a stream or neither does |
| CacheLaws.TrustedExactly | internal/autocache/autocache.go:519-523 | a run finds a record it may not replace if and only if the target is kept and the anchor is neither too old nor used 32 times |
| CacheLaws.KeptExactly | internal/autocache/autocache.go:545-558 | a target is in the store if and only if it was written and fewer than eight others were written since |
| CacheLaws.CeilingExactly | internal/autocache/autocache.go:494-504 | a target's record remembers a ceiling if and only if some run found one and every later run of the target, of which there are at most 16, hit and found none; and then it is that run's |
| Autocache.HitsOnOneAnchorAgree | internal/autocache/autocache.go:567-594 | two hits on one anchor differ at most fourfold in files and bytes |

## Left out

- RemoteTree.Server.Execute: permissions, quotas and links are not modelled; a status that says "not there" is taken to be true.
- Sync.ExecuteSync: contents are digests (SHA-256 is taken as injective) and the manifest's JSON form is taken as faithful; the size+mtime fast path, dry runs, chmod and modification times have no effect on the states modelled.
- Sync.ExecuteSync: convergence assumes the local tree does not change during the run; success on a reliable server is proved for servers that compare names exactly.
- SyncRuns.SyncUntilDone: without posix-rename nothing is claimed about stale files once a run started without a manifest, because then they are listed nowhere (SyncLimits.ManifestCanBeLostExactly).
- KeyRuns.SyncByKeys: two keys for one place are deleted once; which directories the run creates, clears and prunes is left open, since no file depends on it.
- SyncPhases.SweepStaleTemps: which entries a listing shows and how old they are is left open; any temp-shaped name may go.
- Clean.ExecuteOverlayOrClean: skip_unchanged, which looks at remote sizes file by file, is not modelled; the transfer of a single file is a plan of one file below the directory it goes into.
- Deployments.Run: targets that lie inside one another, and plans that are not Sound, are not modelled; two deployments have one target or unrelated ones.
- Confinement.RootCheckExactly: a string is a sequence of characters; the length tests of drive roots count characters, not bytes.
- SessionClaims.NoDeadlock: fairness and time are not modelled; a backoff, a handshake and the stall watchdog's firing are steps that may happen at any moment and end either way.
- AutotunePlan.ChosenIsNearlyBest: times and throughputs are exact rationals; rounding of floating point and integer nanoseconds is not modelled.
- CacheLaws.HitExactly: runs are sequential and every write-back succeeds; the file lock is not part of this model.
- SSH dialing, host keys, authentication, keepalives: a dial succeeds or fails.
- Unicode folding and normalization inside foldPath: an arbitrary function on segments, at least as coarse as the server's.
- Resolving symlinks and junctions at the root of the walk: the walk starts from a tree.
- Config parsing, log texts, outputs, metrics, the link probe, the benchmark harness, the plots and the documentation site.
