# FastCFS CSI driver: verified model

This project models the parts of the FastCFS Container Storage Interface driver in which a mistake would cost data or
leave a cluster stuck, and proves what they guarantee:

- **Locks.** `VolumeLocks` (a set of IDs with an operation in flight) and `OperationLock` (counters for five kinds of
  operation on an ID, with rules for which kinds exclude which), with and without its mutex.
- **The controller service.** `CreateVolume`, `DeleteVolume` and `ControllerExpandVolume` as check-then-act protocols over
  locks, key files and a backend of pools. Any number of requests run at once; every lock operation, key file, backend
  command and deferred call is a step of its own, any step may be faulty, and a panic ends the process once it has
  unwound, because no interceptor recovers (`pkg/csi-common/server.go:92-95`).
- **The node service.** Stage, unstage, publish and unpublish over a table of mounts that the environment may break.
- **The volume ID codec**, with its 16-bit cursor and Go's slice panics.
- **The size arithmetic**, with the rounding of an int64 to a float64 and the wrap-around of an int64 product.
- **Topology labels and the flag that feeds them**, for every order in which Go may range over a map.

## How it is laid out

| file | models |
|---|---|
| `Wrappers.dfy`, `Bytes.dfy` | options and results; Go strings as bytes, joining, splitting, hexadecimal, big-endian |
| `VolumeId.dfy` | `pkg/common/volid.go` |
| `VolumeSize.dfy` | the sizes of `pkg/common/utils.go` and of `pkg/fcfs/fcfs.go` |
| `VolumeOptions.dfy`, `Credentials.dfy` | `pkg/fcfs-driver/volumeoptions.go`, `pkg/common/credentials.go` |
| `VolumeLocks.dfy`, `OperationLock*.dfy` | `pkg/common/idlocker.go`: the objects, their runs, their holders, their mutex |
| `Controller*.dfy` | `pkg/fcfs-driver/controllerserver.go`: steps, invariants, theorems, answers, history of the pools, one request alone, whole calls, what a reply is worth, which requests overlap on a pool, handlers |
| `Node*.dfy` | `pkg/fcfs-driver/nodeserver.go`: steps, invariants, theorems, answers, health of mounts, what callers see to and what mounts show, one request alone, stacking, sets of requests, whole calls, handlers |
| `Topology.dfy`, `StringSlice.dfy` | `pkg/common/topology.go`, `pkg/common/string_slice_flag.go` |

Both services are described twice. The classes `ControllerServer` and `NodeServer` hold the driver's mutable objects and
their methods follow the Go handlers; each is proved to end in exactly the state and reply of `Own`, the steps that its
request takes when nothing interrupts it. `OwnIsARun` makes those steps one of the interleavings that the invariants and
theorems quantify over. `outside` supplies, for each step, what the world outside decides: the random file name, whether
a command fails, and whether a failing command took effect nevertheless.

## What the proofs found

- A volume ID that `ComposeCSIID` accepts can be 130 bytes long, not 128: `Len` counts 15 framing bytes where 17 are
  written. (`VolumeId.ComposeIsFrame`, `VolumeId.SomeIdIsAsLong`)
- The wrapping cursor makes no difference below 65535 bytes and does from 65535 on. (`VolumeId.WrappingMattersFrom65535`)
- The parser panics, instead of reporting an ID as invalid, exactly when a length is cut off or says more than there is.
  Such an ID never gets as far as the fallback for static volumes: among names that do not start with four hexadecimal
  digits, those of fewer than four bytes. (`VolumeId.PanicIff`, `VolumeOptions.StagedAsStaticIff`,
  `VolumeOptions.StaticNames`)
- A fresh create reports the quota it sends for every int64. A resize does so exactly for sizes from 1 to 2^63 − 2^30
  that do not lie just above a multiple of GiB; the first on which it does not is 2^53 + 1.
  (`VolumeSize.CreateQuotaIsReported`, `VolumeSize.ResizeQuotaIsReportedIff`, `VolumeSize.FirstResizeMismatch`)
- Above 2^63 − 2^30 the rounded size wraps to −2^63 unless it rounds down. (`VolumeSize.RoundOffBytesIs`)
- `OperationLock` grants create while expand is held, though not the reverse. Two deletes share one counter, so that
  releasing one lets a clone in beside the other; the counters are right in all states of a run exactly when no ID ever
  has two deletes or two expands outstanding. (`OperationLockHolders`)
- A create locks the request name and a delete the volume ID, so a pool can be deleted while the create that found it is
  still about to answer. The replies of Created can be relied on exactly when no delete for the pool is among the
  requests. (`ControllerPromise.CreateMayAnswerForMissingPool`, `ControllerPromise.PromiseKeptIff`)
- After `ensureMountPoint` has unmounted a broken mount it still returns the error of the directory read, so a stage or
  publish fails once for each broken layer and then repairs the path. (`NodeCalls.RepetitionRepairs`)
- Unstage never gets rid of a mount that cannot be reached; a failing stage does. Unpublish is not idempotent, and after
  an unstage, which removes the directory, a second one answers NotFound. (`NodeCalls.StageFreesUnstage`,
  `NodeCalls.UnpublishTwice`, `NodeCalls.UnstageAfterStage`)
- That mounts never stack needs each path to belong to one volume: for any two volumes that can be staged some run stacks
  two mounts on a path they share. (`NodeStacking.OneOwnerIsNeeded`)
- It also needs every publish to find its staging path mounted when it takes its lock, or not there at all.
  `IsLikelyNotMountPoint` compares devices, so a directory bound onto a path of its own file system does not show, and
  each repetition of such a publish mounts once more. The driver does not see to it: for any ordinary stage of a path and
  publish from it some run stacks two mounts, in which a stage unmounts the path and fails and the publish binds what is
  left. (`NodeVolumes.PublishFromMounted`, `NodeRequests.NeverStacksIff`, `NodeRequests.StageAndPublishMayStack`,
  `NodeCalls.BareBindsPileUp`)
- Where callers see to it, every success shows the request's own volume, alone. After a stage that volume answers; a
  publish can succeed with a volume that cannot be read. (`NodeVolumes.SuccessShowsItsVolume`,
  `NodeVolumes.SuccessServesItsVolumeIff`, `NodeCalls.UnreadableIsPublished`)
- Deletes and expands exclude each other by volume ID, of which a pool has many, because the parser ignores trailing bytes
  and the user in an ID is not used: two of them can be at their commands for one pool exactly when their IDs differ.
  (`ControllerExclusion.OverlapIff`, `ControllerExclusion.TwoDeletesMeet`)
- Which value a topology segment gets depends on the order of map iteration exactly when two requested labels end in the
  same name and have different values. (`Topology.OrderMattersIff`)

Where comments in the source and its code differ, the model follows the code: the comment on `GetDeleteLock` names clone,
restore and expand, but create blocks delete too (`pkg/common/idlocker.go:150`); the comment on `ensureMountPoint`
promises `<false, nil>` for a path that is not mounted (`pkg/fcfs-driver/nodeserver.go:311`), but after an unmount it
returns an error.

## Model

| member | source | states |
|---|---|---|
| Bytes.JoinOfSplit | pkg/common/topology.go:70-72 | splitting at a separator loses nothing: joining the pieces gives the text back |
| Bytes.SplitOfJoin | pkg/common/string_slice_flag.go:51 | joining values and splitting once gives the pieces of each value in turn |
| Bytes.DecodeOfEncodeHex | pkg/common/volid.go:64-70 | the hexadecimal that is printed is read back as the same bytes |
| Bytes.EncodeOfDecodeHex | pkg/common/volid.go:98 | of the hexadecimal that is accepted, exactly the lower-case text is what printing gives back |
| VolumeId.ComposeIsFrame | pkg/common/volid.go:45-73 | an ID is accepted up to Len() = 128, is the three length-prefixed texts, and is Len() + 2 bytes long: at most 130, and within 128 exactly when Len() is at most 126 |
| VolumeId.SomeIdIsAsLong | pkg/common/volid.go:45-73 | every length from 17 to 130 bytes is that of some accepted ID |
| VolumeId.DecodeOfCompose | pkg/common/volid.go:56-95 | every accepted ID is read back as the same three texts, without error or panic, whatever bytes they hold |
| VolumeId.DecodeOfFrame | pkg/common/volid.go:75-108 | the parser ignores whatever follows a composed ID |
| VolumeId.ReadsPrefixed | pkg/common/volid.go:97-108 | a length-prefixed text is read back wherever it stands below 65536, and the cursor ends past its separator, wrapping if it has to |
| VolumeId.ComposeIsPrefixFree | pkg/common/volid.go:56-73 | no composed ID is a prefix of another; two that are equal come from the same three texts |
| VolumeId.RecomposeIffCanonical | pkg/common/volid.go:56-108 | of the strings that decode to an identifier, the one it composes to is the one with five dashes, lower-case lengths and nothing after the third text |
| VolumeId.NextPrintsBack | pkg/common/volid.go:97-108 | where the text of any field lies that is read at any cursor, and that its length prints back as it was read exactly when it was lower-case |
| VolumeId.NextAgrees | pkg/common/volid.go:97-108 | below 65535 bytes one field is read, refused or panicked on as it is without wrap-around |
| VolumeId.WrappingDecodeIsIdeal | pkg/common/volid.go:75-108 | below 65535 bytes the parser with the wrapping cursor comes to what a parser over unbounded integers does, panics included |
| VolumeId.WrapAroundDiffers | pkg/common/volid.go:103-106 | for each length from 65535 on, a string that the wrapping parser accepts and the unbounded one does not |
| VolumeId.WrappingMattersFrom65535 | pkg/common/volid.go:97-108 | the two parsers agree on all strings of a length exactly when it is below 65535 |
| VolumeId.PanicIff | pkg/common/volid.go:97-108 | of all strings exactly those panic in which, at the first field or after one or two that fit, fewer than four bytes are left or the four are a length that says more than there is, counting no byte past the 65535th |
| VolumeId.MalformedIff | pkg/common/volid.go:97-108 | of all strings exactly those are reported as invalid in which, at such a place, four bytes are left and not all are hexadecimal digits |
| VolumeId.ReadIff | pkg/common/volid.go:75-108 | of all strings exactly those are read in which three fields fit, whatever stands between and after them |
| VolumeId.CSIIdentifierDecompose.Next | pkg/common/volid.go:97-108 | the next text, the cursor it leaves, and when it panics or fails with the cursor where it was |
| VolumeId.CSIIdentifier.ComposeCSIID | pkg/common/volid.go:56-73 | overwriting one buffer three times composes the ID of the object's fields |
| VolumeId.CSIIdentifier.DecomposeCSIID | pkg/common/volid.go:75-95 | the fields become the texts read; after a failure at any field the earlier ones hold what was read, the later ones what they held, and the field itself is emptied by an error and kept by a panic |
| VolumeSize.NearestIsNearest | pkg/common/utils.go:80 | the float64 conversion picks no multiple of the spacing farther away than any other |
| VolumeSize.FloatStaysBetweenGiBs | pkg/common/utils.go:80-86 | the conversion never carries a size past a multiple of GiB |
| VolumeSize.FloatReachesGiBBelow | pkg/common/utils.go:80-86 | it carries a non-multiple down to the multiple of GiB below exactly when the excess is at most half the spacing |
| VolumeSize.RoundOffBytesIs | pkg/common/utils.go:78-90 | the rounded size of every int64 without floats: at least GiB, one GiB less where the float rounds down, wrapped above 2^63 − 2^30 |
| VolumeSize.RoundOffBytesExact | pkg/common/utils.go:78-90 | up to 2^53 it is the least positive multiple of GiB that holds the size |
| VolumeSize.RoundOffBytesMonotone | pkg/common/utils.go:78-90 | a larger request is never rounded to a smaller size, up to 2^63 − 2^30 |
| VolumeSize.RoundOffBytesIdempotent | pkg/common/utils.go:78-90 | a rounded size is a positive multiple of GiB and rounding leaves it alone |
| VolumeSize.RoundOffBytesShortfall | pkg/common/utils.go:78-90 | exactly the sizes that round down get less than they asked for, and by at most 512 bytes |
| VolumeSize.RoundUpGiBIsLeast | pkg/common/utils.go:97-112 | the quota is the least number of GiB that holds the size, for negative sizes too |
| VolumeSize.CreateQuotaIsReported | pkg/fcfs/fcfs.go:84 | the quota that a fresh create sends is the capacity it reports, for every int64 |
| VolumeSize.ResizeQuotaIsReportedIff | pkg/fcfs/fcfs.go:143-163 | the quota that a resize sends is the size it reports exactly from 1 to 2^63 − 2^30 where the size does not round down |
| VolumeSize.ResizeDifference | pkg/fcfs/fcfs.go:143-163 | otherwise the quota is one GiB more than the report, and it always holds the request |
| VolumeSize.FirstResizeMismatch | pkg/fcfs/fcfs.go:143-163 | 2^53 + 1 is the least size on which the two differ |
| VolumeLocks.VolumeLocks.TryAcquire | pkg/common/idlocker.go:48-56 | acquires exactly when the ID is free, and the ID is locked afterwards either way |
| VolumeLocks.VolumeLocks.Release | pkg/common/idlocker.go:59-63 | frees the ID and no other |
| OperationLock.Refuses | pkg/common/idlocker.go:110-186 | the first held operation in testing order is the one reported, and nothing changes |
| OperationLock.RefusalNames | pkg/common/idlocker.go:110-186 | which operation a refusal names when several are held, for each of the five kinds and any other |
| OperationLock.OperationLock.TryAcquire | pkg/common/idlocker.go:107-188 | the map tests and counter updates come to one step of the lock's specification, error included |
| OperationLock.OperationLock.Release | pkg/common/idlocker.go:244-259 | decrementing and deleting at zero come to one step of the specification |
| OperationLockRuns.ReachableIffCompatible | pkg/common/idlocker.go:92-188 | the states that some run reaches are exactly those with positive counters, single deletes and expands, delete alone on its ID, and clone apart from expand |
| OperationLockRuns.RunKeepsCompatible | pkg/common/idlocker.go:107-259 | those conditions survive every run, released or not |
| OperationLockRuns.Construct | pkg/common/idlocker.go:107-188 | a run for each such state, expand taken before create |
| OperationLockRuns.AcquireRepeatedly | pkg/common/idlocker.go:107-188 | n acquisitions of an operation that nothing blocks build its counter up to n |
| OperationLockRuns.RunOnId | pkg/common/idlocker.go:107-259 | the counters and replies for an ID are decided by the calls on that ID alone |
| OperationLockRuns.DifferentIdsCommute | pkg/common/idlocker.go:107-259 | calls on different IDs commute, in counters and in replies |
| OperationLockHolders.CountersAgreeIffSingle | pkg/common/idlocker.go:157-183 | throughout a run every counter is its number of holders exactly when no ID has two deletes or two expands outstanding |
| OperationLockHolders.HoldersExclude | pkg/common/idlocker.go:107-188 | then a delete holder is the only holder of its ID, and no clone holder meets an expand holder |
| OperationLockHolders.GrantedIffNoHolderBlocks | pkg/common/idlocker.go:107-188 | under that discipline a lock is granted exactly when no holder of its ID stands in its way, and a refusal names an operation that is really held |
| OperationLockHolders.ExclusionIsLostIff | pkg/common/idlocker.go:107-259 | after any run, two holders that should exclude each other can still come together without another delete or expand exactly when some counter differs from its number of holders |
| OperationLockHolders.TwoDeletesLetACloneIn | pkg/common/idlocker.go:157 | without that discipline: two deletes, one release, and a clone is granted beside the other delete |
| OperationLockHolders.ExpandThenCreate | pkg/common/idlocker.go:111-121 | expand then create are held together; create then expand are not |
| OperationLockMutex.FineRefinesAtomic | pkg/common/idlocker.go:107-259 | every interleaving of threads that lock, test one map at a time, read, write and unlock has the replies, and when unlocked the maps, of atomic calls in unlocking order |
| OperationLockMutex.MutualExclusion | pkg/common/idlocker.go:108-109 | no two threads are ever between locking and unlocking |
| OperationLockMutex.ExecSimulates | pkg/common/idlocker.go:107-259 | one machine step of any thread keeps the relation to the atomic run |
| OperationLockMutex.StepProgresses | pkg/common/idlocker.go:107-259 | inside the mutex a thread is always as far from its entry state as its place in the code says |
| Credentials.KeyFiles.StoreKey | pkg/common/credentials.go:46-73 | a key file is there exactly when its name is returned; whichever call fails, none is left |
| Credentials.ReadSecretIs | pkg/common/credentials.go:81-91 | a secret gives a user and a key exactly when it names both and the key is not empty; which of three errors it gives otherwise |
| Credentials.KeyFiles.NewCredentialsFromSecret | pkg/common/credentials.go:75-99 | which of the four errors a secret gives, and otherwise its user and a file with its key |
| Credentials.KeyFiles.NewAdminCredentials | pkg/common/credentials.go:108-110 | the same for the admin fields, with at most one file more than before |
| Credentials.KeyFiles.DeleteCredentials | pkg/common/credentials.go:102-105 | removes that key file and no other |
| VolumeOptions.AcceptedIff | pkg/fcfs-driver/volumeoptions.go:41-66 | a create is accepted exactly when it has a base path and base path, user and request name come to at most 105 bytes, the size never mattering; and it is told of a missing base path exactly when there is none |
| VolumeOptions.CreatedIdLeadsBack | pkg/fcfs-driver/volumeoptions.go:41-84 | the ID of an accepted create leads back to its pool name and configuration, with the capacity of the later request |
| VolumeOptions.CreatedIdsAreDistinct | pkg/fcfs-driver/volumeoptions.go:48-57 | two accepted creates have the same ID exactly when base path, user and name are the same |
| VolumeOptions.PrefixIsInjective | pkg/fcfs-driver/volumeoptions.go:51 | different request names have different pool names |
| VolumeOptions.CreatedIsNeverStatic | pkg/fcfs-driver/nodeserver.go:66-72 | no created volume is staged as a static one, whatever its context says |
| VolumeOptions.StagedAsStaticIff | pkg/fcfs-driver/nodeserver.go:66-72 | a volume is staged as static, under its ID as pool name, exactly when its context marks it and somewhere in the ID four bytes stand where a length should and are none; staging panics exactly when a length is cut off or says more than there is |
| VolumeOptions.StaticErrors | pkg/fcfs-driver/volumeoptions.go:92-108 | a context gives the options of a static volume exactly when it marks one and names a base path, and which error otherwise |
| VolumeOptions.StageOptionsIff | pkg/fcfs-driver/nodeserver.go:66-75 | options for a stage can be made exactly from an ID that is read, or from one that is invalid with a context that marks a static volume; making them panics exactly when the parser does |
| VolumeOptions.StaticNames | pkg/fcfs-driver/volumeoptions.go:86-118 | a name that does not start with four hexadecimal digits works for a static volume exactly when it has four bytes or more, and panics otherwise |
| ControllerInvariants.SamePoolSameThread | pkg/fcfs-driver/controllerserver.go:84-110 | two requests about to create one pool would hold one name lock, so they are one request |
| ControllerInvariants.ExecKeepsInv | pkg/fcfs-driver/controllerserver.go:53-248 | one step of any request keeps the invariant of all |
| ControllerInvariants.RunKeepsInv | pkg/fcfs-driver/controllerserver.go:53-248 | so does every interleaving of any number of requests |
| ControllerTheorems.CreateOnlyWhenAbsent | pkg/fcfs-driver/controllerserver.go:84-110 | in every interleaving the create command is only issued for a pool that is absent at that moment |
| ControllerTheorems.CreatedLeadsToItsPool | pkg/fcfs-driver/controllerserver.go:114-131 | in every interleaving the volume ID answered leads to the pool of that request, and the capacity answered is its rounded size |
| ControllerTheorems.CreatedPoolIsThere | pkg/fcfs-driver/controllerserver.go:96-131 | at the step that settles on answering Created the pool is there, and if that step made it the quota is the capacity answered |
| ControllerTheorems.ExpandedQuota | pkg/fcfs-driver/controllerserver.go:232-247 | an expand that succeeds found its pool, and stored the quota it reports exactly on the sizes that do not round down |
| ControllerTheorems.PoolGoesOnlyByDelete | pkg/fcfs/fcfs.go:127-141 | a step takes a pool away exactly when it is a delete command for that pool that takes effect |
| ControllerTheorems.LocksAreTheRequestsInFlight | pkg/common/idlocker.go:48-63 | in every interleaving the locks are those of the requests between TryAcquire and their return, no two of which share one |
| ControllerTheorems.LockedPhasesExclude | pkg/fcfs-driver/controllerserver.go:147-151 | no two requests are past TryAcquire on one ID at the same time; `ControllerExclusion.OverlapIff` says what that means for a pool |
| ControllerTheorems.OthersKeepTheirLocks | pkg/fcfs-driver/controllerserver.go:84-88 | no request, a rejected one in particular, ever frees the lock of another |
| ControllerTheorems.KeysAreTheRequestsInFlight | pkg/common/credentials.go:46-105 | in every interleaving the key files are those of the requests between making and deleting their credentials, each its own |
| ControllerTheorems.NothingLeftBehind | pkg/fcfs-driver/controllerserver.go:66-88 | when no request is in flight no lock is held and no key file is left |
| ControllerTheorems.StepsTowardsReply | pkg/fcfs-driver/controllerserver.go:53-248 | no request waits for another: each of its steps brings it nearer to its reply |
| ControllerTheorems.TurnsUseUpRank | pkg/fcfs-driver/controllerserver.go:53-248 | in every interleaving a request's own turns use up the steps it has left |
| ControllerTheorems.TenTurnsFinish | pkg/fcfs-driver/controllerserver.go:53-248 | ten turns finish any request in every interleaving, unless the process panics |
| ControllerAnswers.AnswersSay | pkg/fcfs-driver/controllerserver.go:53-248 | in every interleaving, Created says that the create was capable, named, without block capabilities, had a usable secret and fits; Deleted and Expanded, that the request had a usable secret and an ID that is read; a panic, that its ID overruns |
| ControllerAnswers.OnlyAcceptableCreates | pkg/fcfs-driver/controllerserver.go:68-94 | in every interleaving only such a create ever looks for its pool or makes it |
| ControllerAnswers.CrashOnlyByBadId | pkg/csi-common/server.go:92-95 | the process only ever ends by a delete or expand with an ID that overruns |
| ControllerAnswers.KeyAndLock | pkg/fcfs-driver/controllerserver.go:66-165 | a create holds its lock only while it has its key file; a delete or expand has its key file only while it holds its lock |
| ControllerAnswers.DeletedIff | pkg/fcfs-driver/controllerserver.go:166-171 | a delete settles on Deleted exactly when its command does not fail, for the pool its ID and secret lead to, which is then absent; if the command fails the answer is Internal |
| ControllerAnswers.ExpandedIff | pkg/fcfs-driver/controllerserver.go:232-247 | an expand settles on Expanded exactly when its command finds the pool of its ID and secret and does not fail; otherwise the answer is Internal |
| ControllerAnswers.CreatedIff | pkg/fcfs-driver/controllerserver.go:96-131 | a create settles on Created exactly by finding its pool or by making it; a failing check or command is answered with Internal |
| ControllerAnswers.AbortedIff | pkg/fcfs-driver/controllerserver.go:84-221 | Aborted is answered exactly to a request that comes to its lock while another request in flight holds it |
| ControllerAnswers.DeleteAnswers | pkg/fcfs-driver/controllerserver.go:134-172 | every answer of a delete by itself and the pools it leaves, told by its fields, the bytes of its ID, the lock and what fails |
| ControllerAnswers.ExpandAnswers | pkg/fcfs-driver/controllerserver.go:210-248 | every answer of an expand by itself, whatever fails, and the quotas it leaves |
| ControllerAnswers.CreateAnswers | pkg/fcfs-driver/controllerserver.go:53-132 | every answer of a create by itself, whatever fails, and the pools it leaves |
| ControllerAnswers.AcceptanceIff | pkg/fcfs-driver/controllerserver.go:54-94 | a create on a free lock that meets no fault is answered with Created exactly if nothing is wrong with it, otherwise with InvalidArgument and nothing changed |
| ControllerHistory.StepTellsHistory | pkg/fcfs-driver/controllerserver.go:53-248 | a step changes a quota only to what its request asks for, and takes away only the pool its request is for |
| ControllerHistory.EveryQuotaWasAskedFor | pkg/fcfs/fcfs.go:78-164 | after every run, each pool has the quota it started with or one that a create or expand request of the run asked for, for that pool |
| ControllerHistory.SurvivesUnlessDeleted | pkg/fcfs/fcfs.go:127-141 | from any invariant state, a pool that a run loses is one that a delete request of the run leads to |
| ControllerHistory.PoolSurvives | pkg/fcfs-driver/controllerserver.go:134-172 | in every interleaving a pool outlives everything but a delete request whose ID and user lead to it |
| ControllerAlone.OwnIsARun | pkg/fcfs-driver/controllerserver.go:53-248 | a handler that is not interrupted is one of the interleavings |
| ControllerAlone.HandlerGivesBack | pkg/fcfs-driver/controllerserver.go:66-88 | on every return path, a panic included, a handler leaves the locks and key files as it found them |
| ControllerCalls.CreateCall | pkg/fcfs-driver/controllerserver.go:53-132 | a create that meets no fault adds its pool with the rounded quota unless it is there, changes nothing else, and gives the same answer either way |
| ControllerCalls.DeleteCall | pkg/fcfs-driver/controllerserver.go:134-172 | a delete that meets no fault leaves its pool absent, present before or not, and changes nothing else |
| ControllerCalls.ExpandCall | pkg/fcfs-driver/controllerserver.go:210-248 | an expand that meets no fault changes the quota of its pool and nothing else, and fails on a pool that is not there |
| ControllerCalls.CreateTwice | pkg/fcfs-driver/controllerserver.go:96-120 | create is idempotent: repeated, with any size, it changes nothing and answers with the same ID |
| ControllerCalls.DeleteTwice | pkg/fcfs/fcfs.go:127-141 | delete is idempotent |
| ControllerCalls.DeleteUndoesCreate | pkg/fcfs-driver/controllerserver.go:53-172 | deleting by the answered ID undoes a create of a pool that was absent |
| ControllerCalls.ExpandAfterCreate | pkg/fcfs-driver/controllerserver.go:53-248 | expanding by the answered ID gives the created pool its new quota |
| ControllerPromise.CreatedIsThereOrDeleted | pkg/fcfs-driver/controllerserver.go:96-131 | in every interleaving, a create that is about to answer Created or has answered it has its pool there, unless a delete that leads to the pool has arrived |
| ControllerPromise.AnsweredIdAsksToDelete | pkg/fcfs-driver/controllerserver.go:114-150 | a delete by the ID that a create answers, with its secret, is one that leads to its pool |
| ControllerPromise.DeleteGoesThrough | pkg/fcfs-driver/controllerserver.go:134-172 | whenever the ID it locks is free, a delete that leads to a pool can run from end to end beside any other requests and take the pool away, changing nothing else |
| ControllerPromise.CreateMayAnswerForMissingPool | pkg/fcfs-driver/controllerserver.go:84-172 | a create that can be accepted and any delete that leads to its pool have a run that ends with the reply Created for a pool that is gone |
| ControllerPromise.PromiseKeptIff | pkg/fcfs-driver/controllerserver.go:84-172 | in all runs of some requests every reply of Created to a create finds its pool there exactly when none of the requests is a delete that is not rejected and leads to that pool |
| ControllerExclusion.OverlapIff | pkg/fcfs-driver/controllerserver.go:147-233 | two deletes or expands that lead to one pool can be at their backend commands together exactly when their volume IDs differ |
| ControllerExclusion.AnotherIdOfThePool | pkg/common/volid.go:75-108 | whatever is put behind the ID of a created volume, a delete by it leads to the same pool |
| ControllerExclusion.TwoDeletesMeet | pkg/fcfs-driver/controllerserver.go:147-167 | for every create that can be accepted there are two deletes that some run has at their commands for its pool together |
| ControllerServer.ControllerServer.RunDeferred | pkg/fcfs-driver/controllerserver.go:66-88 | the deferred calls run last first and leave the reply alone |
| ControllerServer.ControllerServer.CreateVolume | pkg/fcfs-driver/controllerserver.go:53-132 | the handler ends in the reply, locks, key files and pools of its request's own steps, whatever fails |
| ControllerServer.ControllerServer.DeleteVolume | pkg/fcfs-driver/controllerserver.go:134-172 | the same for the delete handler |
| ControllerServer.ControllerServer.ControllerExpandVolume | pkg/fcfs-driver/controllerserver.go:210-248 | the same for the expand handler |
| NodeInvariants.ExecKeepsLocks | pkg/common/idlocker.go:48-63 | one step of any request keeps each lock with the one request that took it, whatever the paths |
| NodeInvariants.ExecKeepsInv | pkg/fcfs-driver/nodeserver.go:42-218 | when each path belongs to one volume, one step of any request, or a mount breaking, keeps what every locked request knows about its path, on any mount table |
| NodeInvariants.RunKeepsInv | pkg/fcfs-driver/nodeserver.go:42-218 | so does every such interleaving |
| NodeTheorems.MountsNeverStack | pkg/fcfs-driver/nodeserver.go:312-344 | then no path ever has more than one mount, whatever breaks meanwhile; `NodeVolumes.PublishFromMounted` is the condition for callers |
| NodeTheorems.SuccessReachesItsGoal | pkg/fcfs-driver/nodeserver.go:42-218 | from any table a success is answered with a mount that shows for stage, a mount for publish, none that shows for unstage, and no path for unpublish; on a table where mounts show and stand alone, with exactly one or none |
| NodeHealth.SuccessIsHealthyIff | pkg/fcfs-driver/nodeserver.go:312-344 | from any table, unless the mount breaks under the request itself, what a stage or publish answers for shows a volume that answers exactly when the settling step mounted it, or bound a staging path with such a mount on top, or could read its path and found no directory of another file system bound there |
| NodeHealth.StageIsHealthyIff | pkg/fcfs-driver/nodeserver.go:42-90 | so a successful stage leaves such a mount on top unless a directory of another file system is bound there |
| NodeHealth.SettlesHealthyIff | pkg/fcfs-driver/nodeserver.go:323-343 | success comes from a directory that could be read, a mount of its own or a bind, and is healthy at once in exactly those cases |
| NodeVolumes.PublishFromMounted | pkg/fcfs-driver/nodeserver.go:132-188 | if each staging and target path belongs to one volume, and whenever a publish takes its lock its staging path shows a mount or is not there, then in every interleaving no path ever has more than one mount, whatever breaks meanwhile |
| NodeVolumes.ExecKeepsStaging | pkg/fcfs-driver/nodeserver.go:159-163 | the lock of a volume carries what a publish found at its staging path from there to the bind, against every other request and every break |
| NodeVolumes.MountsShowTheirOwners | pkg/fcfs-driver/nodeserver.go:83-187 | with the same owners, and whatever is published from where, every volume that is mounted anywhere is the owner of its path |
| NodeVolumes.SuccessShowsItsVolume | pkg/fcfs-driver/nodeserver.go:42-188 | under that condition, on a node where only owners are mounted, a successful stage or publish is answered with its own volume alone on its path, whatever breaks meanwhile |
| NodeVolumes.SuccessServesItsVolumeIff | pkg/fcfs-driver/nodeserver.go:42-188 | unless it breaks under the request itself, that volume answers: always after a stage, and after a publish exactly when it did not settle by binding a staging path on which the volume does not answer |
| NodeTheorems.LocksAreTheRequestsInFlight | pkg/common/idlocker.go:48-63 | in every interleaving, whatever the table and the paths, the locks are those of the requests between TryAcquire and their return, no two of which share one |
| NodeTheorems.OthersKeepTheirLocks | pkg/fcfs-driver/nodeserver.go:50-54 | nothing but the steps of a request frees its lock |
| NodeTheorems.NothingLeftBehind | pkg/fcfs-driver/nodeserver.go:50-54 | when no request is in flight no lock is held |
| NodeAnswers.AnswersSay | pkg/fcfs-driver/nodeserver.go:42-218 | in every interleaving a success says that the request was valid, a panic that it was a stage with an ID that overruns, NotFound that it was an unstage, and InvalidArgument that it was not valid or a stage |
| NodeAnswers.OnlyUsableMounts | pkg/fcfs-driver/nodeserver.go:66-83 | in every interleaving only a stage whose options can be made gives the mount command |
| NodeAnswers.CrashOnlyByBadId | pkg/csi-common/server.go:92-95 | the process only ever ends by a stage with an ID that overruns |
| NodeAnswers.AbortedIff | pkg/fcfs-driver/nodeserver.go:50-53 | Aborted is answered exactly to a request that comes to its lock while another request in flight holds it |
| NodeAnswers.SettlesIff | pkg/fcfs-driver/nodeserver.go:42-218 | which step of a request settles on success, InvalidArgument, NotFound or a panic, and on what it finds |
| NodeAnswers.FaultIsAnswered | pkg/fcfs-driver/nodeserver.go:42-218 | in every interleaving, a request that has met a failing change, or a failing look that it cannot do without, answers Internal if it answers |
| NodeAnswers.StageAnswers | pkg/fcfs-driver/nodeserver.go:42-90 | every answer of a stage that meets no fault, for every request on every table, and the table it leaves |
| NodeAnswers.StageOfBare | pkg/fcfs-driver/nodeserver.go:66-89 | on a path where no mount shows, a stage succeeds exactly if its ID and context are usable, panics exactly if the ID overruns, and else answers Internal; in those two cases nothing is changed |
| NodeAnswers.PublishAnswers | pkg/fcfs-driver/nodeserver.go:132-188 | every answer of a publish that meets no fault, for every request on every table, and the table it leaves |
| NodeAnswers.UnboundLeavesNothing | pkg/fcfs-driver/nodeserver.go:180-185 | a publish whose staging path is missing or unreachable answers Internal and leaves no directory of its own behind |
| NodeAnswers.FailedBind | pkg/fcfs-driver/nodeserver.go:180-185 | when a bind fails its path is removed if it can be; when only its second command fails the mount is in place and stays with its path; the answer is Internal |
| NodeAnswers.BoundDirectory | pkg/fcfs-driver/nodeserver.go:180 | the bind of a directory never shows a volume, and lasts exactly if the directory lies on another file system |
| NodeAnswers.UnstageAnswers | pkg/fcfs-driver/nodeserver.go:92-130 | every answer of an unstage that meets no fault, for every request on every table, and the table it leaves |
| NodeAnswers.CleanupAnswers | vendor/k8s.io/mount-utils/mount_helper_common.go:30-110 | what the clean-up makes of any table, whatever has happened since the unstage saw a mount |
| NodeAnswers.DiesBetweenLooks | vendor/k8s.io/mount-utils/mount_helper_common.go:65-110 | a mount that dies between the two looks of the clean-up defeats it |
| NodeAnswers.UnpublishAnswers | pkg/fcfs-driver/nodeserver.go:190-218 | every answer of an unpublish that meets no fault, for every request on every table, and the table it leaves |
| NodeTheorems.FlatIffNoLocalMade | pkg/fcfs-driver/nodeserver.go:312-344 | when each path belongs to one volume, every mount shows and stands alone throughout a run exactly when no step of it binds a directory that is not mounted onto a path of its own file system |
| NodeTheorems.TwoOwnersStackMounts | pkg/fcfs-driver/nodeserver.go:83 | two requests for different volumes, both past the look at one path, stack their mounts |
| NodeStacking.OneOwnerIsNeeded | pkg/fcfs-driver/nodeserver.go:50-83 | for any two volumes that can be staged at one path some run stacks two mounts there |
| NodeRequests.NeverStacksIff | pkg/fcfs-driver/nodeserver.go:132-188 | when each path belongs to one volume, some run of some requests stacks mounts exactly when some valid publish names a staging path that is a bare directory in the table, or is in the table and is the path of a valid request, or is the path of a valid publish |
| NodeRequests.StageAndPublishMayStack | pkg/fcfs-driver/nodeserver.go:42-188 | so an ordinary stage of a path and publish from it, left to themselves, have a run that stacks two mounts |
| NodeRequests.CannotBindBare | pkg/fcfs-driver/nodeserver.go:312-344 | without such a publish no run gets to bind a directory that is not mounted |
| NodeRequests.SomeRunBindsBare | pkg/fcfs-driver/nodeserver.go:312-344 | with one, some run does: a failing look makes the request unmount the path, or a failing bind leaves the directory it made |
| NodeStacking.NeverStacksIffNeverBindsBare | pkg/fcfs-driver/nodeserver.go:132-188 | no run of some requests stacks mounts exactly when in none of them a publish gets to bind a staging path that is not mounted |
| NodeStacking.OneRequestStacks | pkg/fcfs-driver/nodeserver.go:132-188 | one publish request, repeated, on a path of its own: if its staging path is a directory, some run stacks two mounts |
| NodeStacking.BareBindRepeats | pkg/fcfs-driver/nodeserver.go:132-188 | once a publish is about to bind such a path, letting it and then the same request again go through stacks two mounts |
| NodeAlone.OwnIsARun | pkg/fcfs-driver/nodeserver.go:42-218 | a handler that is not interrupted is one of the interleavings |
| NodeCalls.CallOnBroken | pkg/fcfs-driver/nodeserver.go:323-338 | a stage or publish of a broken mount unmounts it and fails |
| NodeCalls.CallOnHealthy | pkg/fcfs-driver/nodeserver.go:323-329 | on a path whose top mount shows and can be read it succeeds and changes nothing |
| NodeCalls.CallOnBare | pkg/fcfs-driver/nodeserver.go:339-343 | on a path where no mount shows it succeeds and adds its mount: its volume for a stage, for a publish what its staging path shows |
| NodeCalls.RepetitionRepairs | pkg/fcfs-driver/nodeserver.go:312-344 | a stage, or a publish from a mount that shows and can be read, fails once for each broken layer on top when repeated, then succeeds, and from then on succeeds without another mount |
| NodeCalls.RepeatableIff | pkg/fcfs-driver/nodeserver.go:132-188 | after a mount was made, the same request succeeds without another change exactly when that mount shows and can be read |
| NodeCalls.BareBindsPileUp | pkg/fcfs-driver/nodeserver.go:312-344 | a publish from a directory that is not mounted, on its file system, succeeds every time it is repeated and leaves one more mount each time |
| NodeCalls.UnreadableIsPublished | pkg/fcfs-driver/nodeserver.go:180-187 | a publish from a staging mount that cannot be read succeeds with such a mount, and its repetition takes it away and fails |
| NodeCalls.UnstageLeaves | pkg/fcfs-driver/nodeserver.go:104-115 | unstage answers NotFound, success or Internal for a path that is missing, shows no mount or is unreachable, and leaves it so |
| NodeCalls.UnstageUnmounts | pkg/fcfs-driver/nodeserver.go:123-128 | unstage of one readable or unreadable mount removes it with its directory; of several it removes one and fails |
| NodeCalls.UnpublishIff | pkg/fcfs-driver/nodeserver.go:207-217 | unpublish succeeds exactly on a path with one mount, broken, hidden or not |
| NodeCalls.UnpublishTwice | pkg/fcfs-driver/nodeserver.go:207-217 | unpublish is not idempotent: after a success the same request fails |
| NodeCalls.StageFreesUnstage | pkg/fcfs-driver/nodeserver.go:104-111 | an unreachable mount defeats unstage until a stage has failed on it |
| NodeCalls.UnpublishUndoesPublish | pkg/fcfs-driver/nodeserver.go:132-218 | unpublish undoes a publish to a path that was not there, whatever mount it made |
| NodeCalls.UnstageAfterStage | pkg/fcfs-driver/nodeserver.go:42-129 | unstage undoes a stage but takes the directory too, so that neither can be repeated |
| NodeServer.NodeServer.EnsureMountPoint | pkg/fcfs-driver/nodeserver.go:312-344 | comes to its steps: mounted, to be mounted, or an error, and the table it leaves |
| NodeServer.NodeServer.NodeStageVolume | pkg/fcfs-driver/nodeserver.go:42-90 | the handler ends in the reply, locks and mount table of its request's own steps, whatever fails |
| NodeServer.NodeServer.NodePublishVolume | pkg/fcfs-driver/nodeserver.go:132-188 | the same for the publish handler |
| NodeServer.NodeServer.NodeUnstageVolume | pkg/fcfs-driver/nodeserver.go:92-130 | the same for the unstage handler |
| NodeServer.NodeServer.NodeUnpublishVolume | pkg/fcfs-driver/nodeserver.go:190-218 | the same for the unpublish handler |
| Topology.Domain | pkg/common/topology.go:113-114 | the name of a label is what follows its first slash, or all of it |
| Topology.MarkLabels | pkg/common/topology.go:92-103 | every label is to be found, unless one repeats, and the first to repeat is reported |
| Topology.CollectDomains | pkg/common/topology.go:105-118 | for every order of the node labels: what is collected, what is still missing and how many are found |
| Topology.PutPrefix | pkg/common/topology.go:133-138 | for every order: each name with the prefix in front, each once |
| Topology.SegmentText | pkg/common/topology.go:83-135 | a segment is "topology.", the driver name in lower case, a slash and the name of the label |
| Topology.PrefixIgnoresCase | pkg/common/topology.go:83 | two driver names have the same prefix exactly when they differ in nothing but case |
| Topology.GetTopologyFromDomainLabels | pkg/common/topology.go:77-141 | for every order: fails exactly on a prefix over 63 bytes, a repeated label or a missing one, and otherwise gives the prefixed segments |
| Topology.CollectSound | pkg/common/topology.go:108-118 | every name collected is that of a requested label, with the value of one |
| Topology.OrderMattersIff | pkg/common/topology.go:108-118 | all orders collect the same exactly when requested labels with one name have one value |
| Topology.DistinctDomainsGiveEachLabel | pkg/common/topology.go:105-140 | with distinct names the result has exactly one segment for each label, with its value, whatever the order |
| Topology.GetTopology | pkg/common/topology.go:54-68 | exactly the requested labels that some topology has, each with its value in the last topology that has it; nothing when there is none |
| Topology.GetTopologyFromParams | pkg/common/topology.go:36-52 | the preferred topologies decide if one of them has a requested label, otherwise the requisite ones: each label with its value in the last of them that has it |
| StringSlice.RepeatedSetIsJoinedSet | pkg/common/string_slice_flag.go:47-54 | giving a flag several times comes to giving it once with the values joined by commas |
| StringSlice.StringSlice.Set | pkg/common/string_slice_flag.go:47-54 | the first call leaves exactly the comma-separated values, whatever the default was; later ones append theirs |

## Left out

- The gRPC servers, endpoints, process start-up, logging, generated protocol code, capability lists, version information, `ListVolumes`, `NodeGetVolumeStats`, Kubernetes metadata lookup, Helm charts, manifests and end-to-end tests: no property of their own.
- Request validators: `capable` and `valid` stand for the fields they check. The existence of a staging directory is modelled.
- The backend commands: create, delete and quota either take effect and succeed, or fail, and a failing one may have taken effect. The existence check answers truthfully or fails. Pools are told apart by configuration, owner and name. That create and quota fail on a pool that exists, or does not, is an assumption about the backend.
- The texts that `unmountVolume` looks for in an error (`pkg/fcfs-driver/mount.go:78-79`): a failed umount is an error.
- `IsLikelyNotMountPoint`, `CleanupMountPoint` and `IsCorruptedMnt` (`vendor/k8s.io/mount-utils`) are modelled as the vendored code has them, with these limits: the outside decides for each bind of a directory whether it lies on the file system of its target; a mount that was bound from another file system shows wherever it is bound again; a look that fails without a dead mount there is not taken for a corrupted mount; symbolic links are left out.
- A failing unmount or removal of a directory leaves things as they were; a failing mount may leave its mount behind.
- What a bind mount shows after its source breaks: each path breaks by itself.
- Key files of node requests, which `FcfsMount` makes and deletes inside one mount step, the `fcfs_fused` proxy, `GetCredentialsForVolume`, `NewUserCredentials`, mount options.
- Removal of a key file that fails: `DeleteCredentials` ignores it and the file stays.
- A file name that is already taken counts as a failure to create a key file; `ioutil.TempFile` would try another name.
- Several controller processes on one backend: the locks belong to a process.
- The capacity of a pool that a repeated create finds is not compared, as the source notes (`pkg/fcfs-driver/controllerserver.go:100-103`), so capacity and quota are only shown to agree for a fresh create.
- OperationLock.OperationLock.TryAcquire: error texts are the operation that blocks; the `GetSnapshotCreateLock` family and the `Release...Lock` family only fix the operation.
- OperationLock.OperationLock.Release: counters are unbounded integers, not 64-bit ones.
- VolumeLocks.VolumeLocks.TryAcquire: one critical section is one step; the mutex is modelled for `OperationLock` only.
- ControllerTheorems.TenTurnsFinish: says nothing of a command that never returns or of a scheduler that never runs a request.
- NodeTheorems.MountsNeverStack: starts from a table on which mounts show and do not stack; what calls do on others is in `NodeCalls`.
- Topology.ToLower: `strings.ToLower` on ASCII only, of which driver names are made.
- Topology.GetTopologyFromDomainLabels: nil and empty maps are one; the order of the labels in an error text is left out.
- StringSlice.StringSlice.Set: a flag without a slice to point to is not modelled; setting it would panic.
