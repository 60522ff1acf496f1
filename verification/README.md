# Machine resources, caches and queues of the runner

This project models the stateful cores of the StudioML runner and of its two companion tools, and proves
what they keep over every run.

- `Cuda.dfy`, `Machine.dfy`, `Resources.dfy`: the GPU, CPU and disk trackers as classes, and the composite
  allocation that undoes itself when a resource is short.
- `Jobs.dfy`: any number of jobs on one host, as a state machine over the specification functions of those
  classes.
- `ObjStore.dfy`, `Delivery.dfy`: the artifact cache, with fetchers, groomer and clearer as interleaved file
  system steps, what its calls return, and that they always still can.
- `MergeDoc.dfy`: the merge of experiment metadata, its dependence on order, and MergePatch of RFC 7396.
- `Projects.dfy`, `Queuer.dfy`: one runner per project, one poller per subscription.
- `LocalQueue.dfy`: the directory backed queue with many publishers and workers.
- `TfxServing.dfy`, `QueueScaler.dfy`: the serving configuration loop and the choice of node groups.
- `DynamicStore.dfy`, `Defense.dfy`: the directory backed key store, sealed messages and SSH signatures.
- `Penalty.dfy`: moving averages, penalties and back off timers.
- `Common.dfy`: options, maps by key, 64 bit arithmetic, and `Runs`, which says what a run of a machine is.

A run is a sequence of events, each enabled where it happens (`Runs.IsRun`); a state is reachable when a run
from a state as the program starts in leads to it.  Locks of the source appear as
atomic events.  Clocks, random numbers, statfs answers, the library ciphers, `Resource.Fit` and the results
of file operations are parameters or arbitrary choices.

Several statements one would expect of the code are false.  Each has a lemma with an input on which it
fails and a lemma with the exact condition under which it holds:

- Cards come back when a job ends or an allocation is rolled back.  Cards without slots do not:
  `Jobs.SlotlessCardIsKept`; exactly those: `Cuda.GrantReturn`, `Resources.AllOrNothing`,
  `Resources.JobAllOrNothing`, `Jobs.StartFinish`, `Jobs.RunsDrain`.
- Granted cores and memory stay within their limits.  A sum that carries past 64 bits does not:
  `Jobs.CarriedGrant`; exactly then: `Jobs.GrantWithinLimits`.
- Granted disk space stays within what the file system offers above the headroom.  The condition is in
  `DiskResource.GrantWithinHeadroom` and, for all jobs together, in `Jobs.GrantWithinHeadroom`;
  `DiskResource.BorrowedGrant` gives an input outside it.
- A fetch without error has delivered its object.  A fetch cancelled while waiting has not:
  `ObjStore.SilentWaiter`; exactly those: `ObjStore.SilentStep`, `ObjStore.SilentIffCancelled`.
- Every message published is queued, in hand or acknowledged.  When publishing a refused message again fails
  it is gone, since that error is not looked at: `LocalQueue.LostMessage`; and when the one call of Read gets
  a part of an item, what is handed on has zeros for the rest: `LocalQueue.GarbledMessage`.  It holds over
  exactly the runs with neither: `LocalQueue.RunsAccount`.
- Merge directives follow RFC 7396 and commute.  `MergeDoc.DirectiveFollowsStandard`,
  `MergeDoc.MergeIsMergePatch` and `MergeDoc.CommuteIffAgree` give the exact conditions,
  `MergeDoc.NullIsIgnored` and `MergeDoc.DisagreeWitness` inputs outside them.  The source names RFC 7386,
  which RFC 7396 replaced.
- Cards with the smallest number of slots are picked first.  A sort by the comparison used may put a larger
  card first: `Cuda.LargerFirst`; smaller cards come first in every such order exactly when the uuids are in
  the order of the sizes: `Cuda.SmallestFirstIff`.  Jobs ask for one size, for which the order is by uuid.
- The groomer removes only files the cache no longer holds.  A file downloaded again since the groomer
  looked goes too: `ObjStore.KnownIsDoomed`; exactly those: `ObjStore.RemovedIsKnownIff`.
- A back off is never shortened.  Durations that are not positive can be replaced by shorter ones:
  `Penalty.ShortenedBlocker`; exactly when not: `Penalty.KeepsIff`.  With positive durations, the only ones
  the runner uses, it holds over every sequence of calls: `Penalty.NeverShortened`.
- The key store agrees with its directory.  A change within one second of modification time is missed:
  `DynamicStore.HiddenChange`; exactly then: `DynamicStore.PassAgrees`.
- Length prefixed strings are read back.  The length is compared in 32 bits: `Ssh.WrappedLength`;
  exactly then: `Ssh.StringRoundTrip`, `Ssh.SignatureRoundTrip`.

## Model

| member | source | states |
|---|---|---|
| Cuda.Candidates | internal/cuda/cuda.go:461-485 | the scan lists every usable card and no other, each once, with its own slots and memory |
| Cuda.Arrange | internal/cuda/cuda.go:493-499 | sorting keeps the cards, and orders them by uuid when the uuids are in the order of the sizes |
| Cuda.JobsAskForOneSize | cmd/runner/resource.go:42-44 | with the one unit a job asks for, all usable cards have one size, so that their order is by uuid |
| Cuda.LessDecides | internal/cuda/cuda.go:493-499 | the comparison tells two cards apart exactly when their uuids are in the order of their sizes, and is then the order of the uuids |
| Cuda.SmallestFirstIff | internal/cuda/cuda.go:491-499 | for cards of different uuids, every order that no comparison speaks against has smaller cards first exactly when the uuids are in the order of the sizes |
| Cuda.LargerFirst | internal/cuda/cuda.go:491-499 | two cards in an order that no comparison speaks against, the larger first |
| Cuda.BeforeIff | internal/cuda/cuda.go:498 | a uuid comes before another exactly when the other continues it or is larger where they first differ |
| Cuda.GpuTracker.Take | internal/cuda/cuda.go:510-527 | the cards chosen are granted in order, each under its id |
| Cuda.GpuTracker.AllocGPU | internal/cuda/cuda.go:427-530 | succeeds exactly when enough usable cards are free; a live success hands out different usable cards under different ids and marks exactly those, and when the uuids of the usable cards are in the order of their sizes they are the first by uuid and the smallest; otherwise nothing changes |
| Cuda.GpuTracker.ReturnGPU | internal/cuda/cuda.go:539-563 | the new table and the error are those of ReturnOne: zero slots are ignored, unknown cards and ids are refused without a change |
| Cuda.ReturnTakesOne | internal/cuda/cuda.go:557-562 | a handle that is accepted takes its own id off its card, frees the card, and changes nothing else |
| Cuda.GpuTracker.MarkFailure | internal/cuda/cuda.go:282-295 | the first failure of a known card is recorded, nothing else changes |
| Cuda.Marked | internal/cuda/cuda.go:282-295 | a card that is there is marked with the first error reported for it, all others are left alone |
| Cuda.GrantExclusive | internal/cuda/cuda.go:510-527 | a grant keeps the correspondence of cards and handles: busy exactly when held, one id on a held card, one handle to a card |
| Cuda.ReturnExclusive | internal/cuda/cuda.go:539-563 | returning live handles gives no error and keeps the correspondence, for all handles with slots |
| Cuda.OneHandlePerCard | internal/cuda/cuda.go:396-401 | two live handles to one card are the same handle |
| Cuda.StaleHandleRejected | internal/cuda/cuda.go:545-556 | a handle whose id no live handle carries changes nothing, and is refused with the error for its case if it has slots |
| Cuda.MarkExclusive | internal/cuda/cuda.go:282-295 | an ECC mark keeps the correspondence |
| Cuda.ExclusiveDetermines | internal/cuda/cuda.go:42-57 | tables of the same cards held by the same handles are equal |
| Cuda.GrantReturn | internal/cuda/cuda.go:510-563 | granting and returning gives the old table back exactly when no granted card was without slots |
| CpuResource.CpuTracker.AllocCPU | internal/cpu_resource/cpu.go:116-144 | succeeds exactly when the 64 bit sums are within the limits; only a live success changes the counters |
| CpuResource.CpuTracker.ReleaseCPU | internal/cpu_resource/cpu.go:148-159 | the counters go down by the allocation modulo 2^64, unless start up failed |
| CpuResource.GrantRelease | internal/cpu_resource/cpu.go:140-159 | releasing what was granted restores the tracker, also across a carry |
| CpuResource.FailedIsInert | internal/cpu_resource/cpu.go:116-159 | a tracker that failed to start grants nothing and does not change |
| DiskResource.DiskTracker.GetDiskFree | internal/disk_resource/disk.go:45-68 | the free space for given statfs values, with 64 bit arithmetic, and zero when statfs fails |
| DiskResource.DiskTracker.AllocDisk | internal/disk_resource/disk.go:114-142 | succeeds exactly when the free space suffices; only a live success changes the tracker |
| DiskResource.DiskTracker.ReleaseDisk | internal/disk_resource/disk.go:148-169 | the space is given back, or one of two errors with no change |
| DiskResource.FreeIsTheRest | internal/disk_resource/disk.go:45-68 | unless the headroom is left to root alone, the free space is the space on offer above the headroom less what is allocated, and none on a full disk or without an answer |
| DiskResource.FullDiskRefused | internal/disk_resource/disk.go:58-60 | on a disk without the headroom only empty requests are granted |
| DiskResource.ReleaseRefusedIff | internal/disk_resource/disk.go:148-169 | a release is refused exactly before the first grant or for another device, and then changes nothing |
| DiskResource.GrantIsExact | internal/disk_resource/disk.go:121-141 | the disk counter never carries on a grant |
| DiskResource.GrantWithinHeadroom | internal/disk_resource/disk.go:45-68 | a non empty grant keeps the total within the space on offer exactly when the space left to unprivileged users is at least the headroom |
| DiskResource.BorrowedGrant | internal/disk_resource/disk.go:58-62 | an input with more space for root than for users on which a grant exceeds what is on offer |
| Resources.HostResources.constructor | internal/resources/resources.go:96-101 | trackers of their own that hold the given state |
| Resources.HostResources.Alloc | internal/resources/resources.go:116-145 | a dry run changes nothing; dry and live calls succeed in exactly the same states; a live call leaves the state AllocLive gives, with distinct usable cards under the ids drawn |
| Resources.HostResources.Release | internal/resources/resources.go:149-176 | all parts are given back whatever errors occur, and the errors are collected in order |
| Resources.CleanReleaseIff | internal/resources/resources.go:149-176 | a release reports nothing exactly when no card is refused and the disk part is there and accepted |
| Resources.AllOrNothing | internal/resources/resources.go:116-145 | a refused live allocation leaves all trackers as before exactly when the GPU stage had failed or handed out only cards with slots |
| Resources.JobAllOrNothing | cmd/runner/resource.go:25-74 | for a job, refused for CPU or disk, that is so exactly when it asks for slots, for no GPU memory, or for no cards |
| Resources.JobStartsIff | cmd/runner/resource.go:25-74 | a job is granted exactly when enough cards of its slots and memory are free and healthy, the sums of cores and memory modulo 2^64 are within the limits, and the disk has room |
| Resources.NoJobOnPlaceholder | internal/cuda/cuda.go:121-141 | an entry without slots and memory, as start up leaves for devices that are not found, is usable for no job that asks for cards |
| Jobs.StepConserves | cmd/runner/resource.go:54-93 | every start, dry run, finish, ECC mark and stray return keeps: cards are held exactly by the allocations in force and lost handles, cores and memory are the sums modulo 2^64, disk the plain sum |
| Jobs.RunsConserve | cmd/runner/processor.go:657-676 | conservation holds after every run of any number of jobs on a host that starts idle |
| Jobs.FinishIsClean | cmd/runner/resource.go:76-93 | in every reachable state releasing a running job gives no error in any part |
| Jobs.NoCardTwice | internal/cuda/cuda.go:427-530 | in every reachable state no card is in two outstanding allocations, nor twice in one |
| Jobs.BusyMeansHeld | internal/cuda/cuda.go:510-527 | a card is flagged allocated exactly when a held handle for it carries the one id recorded on it |
| Jobs.GrantWithinLimits | internal/cpu_resource/cpu.go:125-143 | a grant keeps cores and memory within the limits exactly when neither checked sum carries |
| Jobs.RunsWithinLimits | internal/cpu_resource/cpu.go:116-159 | over every run without a carry the counters are the plain sums over the jobs and never exceed the limits |
| Jobs.GrantWithinHeadroom | internal/disk_resource/disk.go:114-142 | a grant of disk space keeps the sum over all jobs within the space on offer exactly when the space left to unprivileged users is at least the headroom |
| Jobs.RunsWithinHeadroom | internal/disk_resource/disk.go:45-169 | over every run in which the file system, however its answers change, never leaves the headroom to root alone, the sum over all jobs never exceeds the most space any answer offered |
| Jobs.StepCard | internal/cuda/cuda.go:282-295 | no event removes a card, changes its slots or memory, or clears its ECC mark |
| Jobs.RunHeldFor | internal/cuda/cuda.go:539-543 | over every run a card without slots is held at the end exactly when it was held at the start or picked since |
| Jobs.RunsDrain | cmd/runner/processor.go:657-676 | when every job has released, CPU and disk are back at the start, and a card is back up to ECC marks exactly when it has slots or no start of the run picked it |
| Jobs.FailedNeverGranted | internal/cuda/cuda.go:461-471 | over every run a card marked failed stays so and gains no new holder |
| Jobs.MarkedNeverGranted | internal/cuda/cuda.go:282-295 | over every run that starts with a mark the card has the first error it was marked with and gains no new holder |
| Jobs.SpentStaysSpent | internal/cuda/cuda.go:539-563 | over every run an id no longer held is never held again, and each handle that carries it is refused without a change |
| Jobs.StartFinish | cmd/runner/processor.go:657-676 | a job that starts and finishes leaves the cards as they were exactly when each card it got has slots |
| Jobs.SlotlessCardIsKept | internal/cuda/cuda.go:541-543 | an idle host and a job whose card is not given back when it finishes |
| Jobs.CarriedGrant | internal/cpu_resource/cpu.go:125-128 | an idle host and two jobs of which the second is granted beyond the limit |
| ObjStore.StepInv | internal/runner/objectstore.go:362-498 | every step of every fetcher, groomer and clearer keeps ownership, contents and registration |
| ObjStore.RunsKeepInv | internal/runner/objectstore.go:263-288 | the same after every run from a directory as InitObjStore leaves it |
| ObjStore.OneDownload | internal/runner/objectstore.go:414-498 | in every reachable state two downloads of one object never overlap, and a partial file exists exactly while one fetcher in its copy section owns it |
| ObjStore.NoOrphans | internal/runner/objectstore.go:435-498 | in every reachable state in which all fetchers have returned no partial file is left |
| ObjStore.GroomedHasAged | internal/runner/objectstore.go:84-127 | in every reachable state a name the groomer lists and then finds missing or expired was registered and has aged out since |
| ObjStore.RemovedIsKnownIff | internal/runner/objectstore.go:104-118 | a file found missing from the cache, and there when looked at, goes whatever happens in between, and the cache holds its name by then exactly when a download has registered it since |
| ObjStore.KnownIsDoomed | internal/runner/objectstore.go:104-118 | for every object a state is reachable in which the groomer is about to remove its file although it is whole and held by the cache |
| ObjStore.FilesAreWhole | internal/runner/objectstore.go:451-477 | in every reachable state a file under its final name is the object its hash names and was registered |
| ObjStore.ReturnedIsWhole | internal/runner/objectstore.go:323-500 | in every reachable state a call that returned with its context alive has handed over the whole object, or reports an error and nothing |
| Delivery.FailsExactly | internal/runner/objectstore.go:362-498 | a step of a call returns an error exactly without storage, on a cancelled context, or when cancelled after a failed download |
| Delivery.DeliversExactly | internal/runner/objectstore.go:362-498 | in every reachable state a step of a call returns the object exactly by reading the cached file or by the rename after its download |
| Delivery.WaitsExactly | internal/runner/objectstore.go:402-434 | a call waits exactly when a partial file is there or cannot be created |
| Delivery.PartialGrows | internal/runner/objectstore.go:435-445 | a partial file starts empty, holds the bytes written so far and the whole object at the end |
| Delivery.CacheHit | internal/runner/objectstore.go:363-381 | in every reachable state a cached object is handed over without a download |
| Delivery.EveryFetchCanSucceed | internal/runner/objectstore.go:323-500 | from every reachable state a call that is neither cancelled nor done can still be handed its object, also when another call is downloading it |
| Delivery.FetchDelivers | internal/runner/objectstore.go:323-500 | every object can be fetched from every cache as InitObjStore leaves it |
| Delivery.FilesChange | internal/runner/objectstore.go:104-179 | in every reachable state files come only by the rename of a whole download and go only by the groomer or the clearer |
| Delivery.GroomProgress | internal/runner/objectstore.go:104-126 | in every reachable state each step of the groomer brings its pass nearer to the end |
| ObjStore.SilentWaiter | internal/runner/objectstore.go:403-434 | for every object a state is reachable in which a cancelled fetch of it has returned no error and no data |
| ObjStore.SilentStep | internal/runner/objectstore.go:403-434 | the one step that returns without error and without the object is giving up while waiting |
| ObjStore.SilentIffCancelled | internal/runner/objectstore.go:323-500 | for every object, a state in which a fetch of it has returned so is reachable exactly for fetches whose context was cancelled |
| MergeDoc.MergeMaps | internal/runner/experiment_json.go:47-69 | the member by member loop computes the recursive merge |
| MergeDoc.JSONEditor | internal/runner/experiment_json.go:96-138 | the directives are applied in order: those that decode as patches are applied as such, all others are merged, and the first that is no JSON or fails is an error |
| MergeDoc.EditedIsFold | internal/runner/experiment_json.go:104-134 | on directives that are not patches the result of the editor is the fold of the merge |
| MergeDoc.EditedInTurn | internal/runner/experiment_json.go:104-134 | a list of directives is one part after the other, and stops at the first that fails |
| MergeDoc.PatchesFirst | internal/runner/experiment_json.go:105-124 | what is no JSON is an error; what decodes as a patch is applied as one, an empty one to all but scalars |
| MergeDoc.MergeAbsorbs | internal/runner/experiment_json.go:47-69 | merging the same edit again changes nothing |
| MergeDoc.MergeSurvival | internal/runner/experiment_json.go:47-69 | a member path of the document survives exactly when the edit holds no scalar or array strictly above it, and then holds its old value with the edit's value merged in |
| MergeDoc.CommuteIffAgree | internal/runner/experiment_json.go:47-69 | two edits commute on every document exactly when at each shared path both hold objects or null, or the same value |
| MergeDoc.DisagreeWitness | internal/runner/experiment_json.go:47-69 | a document that tells the two orders apart, for every pair of edits that do not agree |
| MergeDoc.OrderIndependence | internal/runner/experiment_json.go:104-134 | the document built from pairwise agreeing directives is the same for every permutation of them |
| MergeDoc.TagsOnceOrderIndependence | README.md:315-317 | the same for directives that follow the documented rule that a tag appears once |
| MergeDoc.PatchOfNothing | internal/runner/experiment_json.go:62-66 | patching a target that is no object gives the edit back exactly when it holds no null member |
| MergeDoc.MergeIsMergePatch | internal/runner/experiment_json.go:47-69 | the merge equals MergePatch of section 2 of RFC 7396 exactly when the edit has no null member at any depth and is not a null put over an object |
| MergeDoc.DirectiveFollowsStandard | internal/runner/experiment_json.go:105-134 | a directive without patch operations does what RFC 7396 says exactly when it has no null member; null and the empty list, taken for empty patches, only where the document equals them |
| MergeDoc.NullIsIgnored | internal/runner/experiment_json.go:105-118 | the directive null leaves every object as it is, where RFC 7396 replaces it by null |
| MergeDoc.FoldFollowsStandard | internal/runner/experiment_json.go:47-69 | edits without nulls, merged one after the other, build the document RFC 7396 builds |
| MergeDoc.EditorFollowsStandard | internal/runner/experiment_json.go:92-138 | so does the editor for every list of directives that are not patches and hold no null member |
| Projects.ProjectTable.constructor | cmd/runner/project.go:101-107 | a table without projects or runners |
| Projects.ProjectTable.Cycle | cmd/runner/project.go:145-211 | a pass that finds something on a node that is open and ready adds, keeps and cancels exactly as Cycled says and keeps the invariant; any other pass changes nothing, and is an error unless the node is closed |
| Projects.ProjectTable.Add | cmd/runner/project.go:177-194 | projects found and not known get an entry and a runner, all others are left alone |
| Projects.ProjectTable.Cancel | cmd/runner/project.go:198-208 | exactly the runners with a cancel function whose projects were not found are cancelled, and their entries set to nil |
| Projects.ProjectTable.Stop | cmd/runner/project.go:225-248 | the cleanup removes the entry of the runner's project and keeps the invariant |
| Projects.StepInv | cmd/runner/project.go:174-248 | passes and stopping runners keep: entries and runners correspond one to one, nil entries are those of cancelled runners |
| Projects.RunsKeepInv | cmd/runner/project.go:174-248 | the same after every interleaving of passes and exits |
| Projects.OneRunner | cmd/runner/project.go:180-193 | in every reachable state a project has an entry exactly when a runner of it has not cleaned up, and there are never two |
| Projects.CleanupIsOwn | cmd/runner/project.go:229-232 | in every reachable state a cleanup removes its own runner's entry and never that of another |
| Projects.CycleCancels | cmd/runner/project.go:196-208 | after a pass from any reachable state the cancelled runners are exactly those of projects not found and those cancelled before, and every project found has an entry |
| Projects.StartedAgain | cmd/runner/project.go:177-194 | once a runner has stopped, the next pass that finds its project starts a new one |
| Queuer.RunsOnePoller | cmd/runner/queues.go:384-401 | over every interleaving a subscription is busy exactly while one call is in doWork for it |
| Queuer.LeaveFrees | cmd/runner/queues.go:395-399 | a call that leaves takes only itself away, and the next request for its subscription gets in |
| Queuer.Admitted | cmd/runner/queues.go:371-401 | a request gets in exactly when there is no back off and no call in doWork for its subscription |
| LocalQueue.StepSound | internal/runner/localfilequeue.go:78-104 | every step keeps: items in the directory are whole, unclaimed, and written under names of their own |
| LocalQueue.StepConserves | internal/runner/localfilequeue.go:248-308 | every step keeps: each body is published, or made by a short read, as often as it is stored, in hand, acknowledged, dropped and cut by a short read together |
| LocalQueue.RunsConserve | internal/runner/localfilequeue.go:276-308 | both hold after every run of any number of publishers and workers |
| LocalQueue.ClaimIsFinal | internal/runner/localfilequeue.go:266-269 | from any reachable state on and over every run an item once claimed is not in the directory again and reaches no other worker |
| LocalQueue.ClaimedOnce | internal/runner/localfilequeue.go:266-269 | in every reachable state two workers never hold the same item, and an item held is not in the directory |
| LocalQueue.NeverHalfWritten | internal/runner/localfilequeue.go:205-224 | in every reachable state what a worker reads begins a whole body, never one still being written, and is all of it exactly when only zeros follow what its one call of Read got |
| LocalQueue.CanServe | internal/runner/localfilequeue.go:248-308 | in every reachable state an idle worker can take any item and have it acknowledged, and nothing else changes |
| LocalQueue.CanReturn | internal/runner/localfilequeue.go:297-300 | a message a worker refuses can go back to the directory as it was handed over, under a new name |
| LocalQueue.TooLate | internal/runner/localfilequeue.go:260-269 | a worker whose item is gone leaves with nothing changed |
| LocalQueue.FailLeaves | internal/runner/localfilequeue.go:260-269 | a worker that cannot open, read or remove an item leaves it where it is |
| LocalQueue.RunsHandWhole | internal/runner/localfilequeue.go:248-308 | over every run without short reads a worker has what was published under the name it claimed |
| LocalQueue.DroppedGrows | internal/runner/localfilequeue.go:297-300 | over every run what is lost only grows, and is the same at both ends exactly when no refused message fails to be published again |
| LocalQueue.GarbledGrows | internal/runner/localfilequeue.go:205-224 | over every run claims of items read short only add up, and there are none exactly when no event is one |
| LocalQueue.RunsAccount | internal/runner/localfilequeue.go:248-308 | a run leaves every published body stored, in hand or acknowledged as often as published exactly when no refused message fails to be published again and no claimed one was read short |
| LocalQueue.LostMessage | internal/runner/localfilequeue.go:297-300 | for every body a state is reachable in which it was published once and is neither stored nor in hand nor acknowledged |
| LocalQueue.GarbledMessage | internal/runner/localfilequeue.go:205-224 | for every body and count that leave bytes out, a state is reachable in which a worker holds what was never published and the item is gone |
| LocalQueue.GetOldest | internal/runner/localfilequeue.go:190-203 | the first of the oldest files dated less than an hour ahead, or -1 exactly when there is none |
| TfxServing.Index | tools/serving-bridge/tfx_serving.go:195-211 | the locations of all models in the index, each with a name that leads back to it |
| TfxServing.Delete | tools/serving-bridge/tfx_serving.go:226-235 | one entry goes for each unwanted path; wanted entries stay, in order |
| TfxServing.Make | tools/serving-bridge/tfx_serving.go:241-265 | one new entry for each missing location, with the model's name and the tensorflow platform |
| TfxServing.NewEntryIs | tools/serving-bridge/tfx_serving.go:207-256 | an entry made for a model has its location, its name and the tensorflow platform |
| TfxServing.ScanConfig | tools/serving-bridge/tfx_serving.go:154-278 | nothing is written exactly when the paths served are the locations wanted; otherwise wanted entries are kept in order and missing ones added once |
| TfxServing.ScanProgress | tools/serving-bridge/tfx_serving.go:127-151 | unwanted entries plus missing locations fall with every scan that writes, duplicates included |
| TfxServing.Scan | tools/serving-bridge/tfx_serving.go:113-152 | the loop ends, serving exactly the locations wanted: the wanted entries unchanged and in order, then each missing model once |
| QueueScaler.Invert | tools/queue-scaler/job.go:235-241 | a group is listed under an instance type exactly when the type is listed under the group |
| QueueScaler.FindMatches | tools/queue-scaler/job.go:136-165 | every group that offers a fitting type is matched by the first such type, unless some fit cannot be told |
| QueueScaler.Choose | tools/queue-scaler/job.go:177-187 | the group chosen offers a fitting type that none undercuts; none is chosen exactly when none is on offer |
| QueueScaler.LoadNodeGroups | tools/queue-scaler/job.go:132-191 | every queue gets a cheapest group or is left as it was when nothing is on offer |
| QueueScaler.GroomQueues | tools/queue-scaler/job.go:111-122 | exactly the queues with a group and fewer runners than messages remain, unchanged |
| QueueScaler.AssignAndGroom | tools/queue-scaler/job.go:226-254 | what remains are exactly the queues short of runners that the cluster can serve or that had a group before; those it can serve have a group offering the cheapest fitting type of the cluster, the others are unchanged |
| DynamicStore.DynStore.Update | internal/defense/dynamic_store.go:237-259 | one name is set, kept or forgotten according to its file; all others are left alone |
| DynamicStore.RoundSecond | internal/defense/dynamic_store.go:189-190 | the nearest whole second, halves upwards |
| DynamicStore.DynStore.Pass | internal/defense/dynamic_store.go:157-211 | a pass leaves the store Refresh gives for the directory |
| DynamicStore.PassAgrees | internal/defense/dynamic_store.go:189-199 | a pass keeps the store in agreement with the directory exactly when no file was changed behind an unchanged whole second time |
| DynamicStore.StoreAgrees | internal/defense/dynamic_store.go:157-211 | when times tell, the store agrees after every number of passes |
| DynamicStore.StoreIsCurrent | internal/defense/dynamic_store.go:157-211 | only present files are named, and each file that decodes is held as it is now |
| DynamicStore.HiddenChange | internal/defense/dynamic_store.go:189-190 | an input on which a rewritten file is not noticed |
| DynamicStore.Selection | internal/defense/dynamic_store.go:293-334 | the item of the one longest stored name that prefixes the query, or none exactly when no name does |
| Seal.Base64RoundTrip | internal/defense/secret_store.go:180-243 | base64 decoding undoes encoding for data of every length |
| Seal.DecodedQuads | internal/defense/secret_store.go:224-231 | only whole groups of symbols are decoded, and what is decoded encodes to the text again up to its last group |
| Seal.LineBreaksIgnored | internal/defense/secret_store.go:224-231 | line breaks may stand anywhere in encoded text |
| Seal.EncodedPlain | internal/defense/secret_store.go:187-197 | base64 text holds no comma and no line break |
| Seal.Vectors | internal/defense/secret_store.go:187-194 | the examples of section 10 of RFC 4648, and the symbols + and / |
| Seal.SplitPair | internal/defense/secret_store.go:214-222 | two texts without commas are found again after joining |
| Seal.SealedLayout | internal/defense/secret_store.go:180-199 | the sealed form is the encrypted key, then the nonce with the encrypted data behind it |
| Seal.UnsealRejects | internal/defense/secret_store.go:214-231 | text without exactly one comma, or with a part that is not base64, is an error |
| Seal.UnsealOpens | internal/defense/secret_store.go:233-243 | the first 32 bytes of the key and 24 of the body are used, and fewer stop the program |
| Seal.SealRoundTrip | internal/defense/secret_store.go:180-243 | Unseal of HybridSeal returns every message, for every key, nonce and seed |
| Ssh.StringRoundTrip | internal/defense/ssh.go:18-31 | an encoded string is read back exactly when its length fits the 32 bit count of the bytes after it |
| Ssh.ParseIsLossless | internal/defense/ssh.go:18-31 | what is read, encoded again and put before the rest, is the input |
| Ssh.SignatureIsLossless | internal/defense/ssh.go:38-50 | what is read as a signature is the beginning of the input, encoded |
| Ssh.SignatureRoundTrip | internal/defense/ssh.go:38-50 | a signature followed by any bytes is read back exactly when both lengths fit |
| Ssh.SignatureReadBack | internal/defense/ssh.go:38-50 | every signature with less than 2^32 bytes in all is read back |
| Ssh.WrappedLength | internal/defense/ssh.go:18-31 | for every non empty string there are bytes to follow it after which it is not read back |
| Penalty.TimeEMA.constructor | internal/runner/executionEMA.go:18-28 | every window starts with the initial value, the average of nothing seen |
| Penalty.TimeEMA.Update | internal/runner/executionEMA.go:33-45 | every window has the weighted mean of the value and its old average, cut to whole seconds, and holds the average of all it has seen so far |
| Penalty.TimeEMA.Get | internal/runner/executionEMA.go:61-67 | the average of all a window has seen; when all run times were within bounds it is too, and so is the penalty that follows from it |
| Penalty.UpdateAll | internal/runner/executionEMA.go:40-44 | the loop updates every window once from its old average |
| Penalty.BlendIsMean | internal/runner/executionEMA.go:41-43 | the average is the weighted mean of the value and the old average, cut to whole seconds |
| Penalty.UpdatedEnds | internal/runner/executionEMA.go:40-44 | without decay the old average stays, with full decay the new value replaces it, in whole seconds |
| Penalty.UpdateWithin | internal/runner/executionEMA.go:33-45 | an update with a value within bounds keeps all averages within them, the lower in whole seconds |
| Penalty.AverageBounds | internal/runner/executionEMA.go:33-45 | over every sequence of run times the average stays between the shortest, in whole seconds, and the longest |
| Penalty.BackoffCases | cmd/runner/queues.go:682-733 | the penalty is 15 s without an average and below two hours, and otherwise 10 s for every two full hours of the average |
| Penalty.PenaltyBounds | cmd/runner/queues.go:716-733 | every penalty that follows is at least 10 s and at most the larger of 15 s and 10 s times the floor of half the longest duration in hours |
| Penalty.Backoffs.Set | internal/runner/backoffs.go:40-58 | the blocker in effect becomes the later of old and new; with positive durations it is in effect exactly until that time; other keys are left alone |
| Penalty.BlockedUntil | internal/runner/backoffs.go:40-58 | with positive durations a blocker is in effect exactly until the later of the old and the new time |
| Penalty.NeverShortened | internal/runner/backoffs.go:38-48 | no sequence of calls with positive durations takes away a blocker in effect at a time not before them |
| Penalty.KeepsIff | internal/runner/backoffs.go:40-48 | for any duration a blocker in effect keeps its time exactly when it carries a later one than the new, or the cache is to keep the new one at least as long |
| Penalty.ShortenedBlocker | internal/runner/backoffs.go:40-48 | a call without a duration and one for a second after which the blocker is gone early |
| Penalty.OtherDurations | internal/runner/backoffs.go:40-58 | without a duration a blocker stays for ten seconds, with a negative one for ever |
| Penalty.Backoffs.Penalise | cmd/runner/queues.go:726-738 | a penalty of at least 10 s is set exactly when none is in effect, and is then in effect exactly until its time |

## Left out

- Cuda.GpuTracker.AllocGPU: which cards are picked when the uuids of the usable cards are not in the order of their sizes; the comparison then allows several orders and the library sort settles for one.
- Cuda.GpuTracker.constructor: every entry is keyed by its uuid (`Keyed`); the start up in internal/cuda/cuda.go:110-141 leaves entries with an empty uuid, no slots and no memory for visible devices that are not found, which Resources.NoJobOnPlaceholder shows no job is given.
- Resources.HostResources.Alloc: environment variables of the handles, log details and the wording of errors.
- Jobs.RunsConserve: limits are set before the first job; SetCPULimits and SetDiskLimits during a run are not modelled, nor the free slot and memory queries.
- ObjStore.StepInv: a step machine rather than a class, since many calls interleave; operations on an owned partial file succeed, hashes identify contents, objects do not change, and a process that dies in the middle is not modelled.
- ObjStore.ReturnedIsWhole: speaks of bytes; unpacking, output names and sizes are not modelled.
- ObjStore.GroomedHasAged: eviction by the library cache is an arbitrary event on any known name.
- MergeDoc.MergeMaps: works on values; that the source writes into the decoded edit in place, which nothing else refers to, does not show.
- MergeDoc.JSONEditor: directives are decoded values, JSON text is not modelled; lists of objects, and null, are decoded as RFC 6902 patches before anything is merged (vendor/github.com/evanphx/json-patch/patch.go:703), and applying their operations is a parameter.
- MergeDoc.EditorFollowsStandard: one direction only, since later directives can hide an earlier difference; each single directive has both directions in MergeDoc.DirectiveFollowsStandard.
- Projects.ProjectTable.Cycle: the checks between the open flag and the lock are one flag.
- Queuer.RunsOnePoller: counts calls in doWork; the fetches such a call starts beside each other (cmd/runner/queues.go:419-440) are not modelled.
- LocalQueue.RunsConserve: a step machine rather than a class, since many processes share the directory; the choice of the oldest item is LocalQueue.GetOldest, and the machine allows any item to be picked.
- TfxServing.Scan: reads and writes succeed and the index stands still; the retry timers are not modelled.
- TfxServing.Make: configuration entries carry their other settings as one text.
- QueueScaler.AssignAndGroom: no node group has the empty name, and instances are sorted by price as tools/queue-scaler/aws.go:296 leaves them; prices are exact numbers.
- DynamicStore.DynStore.Pass: a flat directory that stands still during the pass, without hidden files, symbolic links and read errors.
- Seal.SealRoundTrip: secretbox and RSA-OAEP are functions that undo each other; the local arrays of EncryptBlock and DecryptBlock are values.
- Penalty.AverageBounds: exact numbers instead of floats, and any weight from 0 to 1 instead of the exponential.
- Penalty.Backoffs.Set: one step; the periodic clean up of the cache library, which only removes what has expired, is not modelled.
- Subscription lists, the in flight counter, price parsing, cloud clients, Kubernetes, metrics and logging are not part of this model.
