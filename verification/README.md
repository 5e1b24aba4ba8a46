# teploy-sandbox: a verified model

teploy-sandbox runs isolated, short-lived environments for agents on one box. This project
models its daemon in Dafny and proves what its protocols and its text formats promise.

## What is modelled

**Warm cache** (`WarmTree`, `LockHash`, `WarmCache`, `WarmSafety`, `WarmTheorems`,
`WarmRetry`, `WarmPartial`, `WarmPublication`, `WarmRaces`, `WarmAlone`, `CacheStore`,
`GenNames`). Boots copy the
current generation of a repository's directory tree into a run's volume, commits build a new
generation and swap the manifest, cleaners rename superseded generations away and delete
them. `WarmCache` is a machine in which any number of boots, commits and cleaners interleave;
each path operation and each section under the store's lock is one event, opening a directory
and reading it are two, and a removal deletes entries one by one. `WarmSafety` proves one
invariant over every event; `WarmTheorems` draws the promises from it, `WarmPartial` and
`WarmPublication` say exactly when two of them fail, and `WarmRaces` shows a failing run.
`WarmRetry` says how often a boot tries and what makes it give up; `WarmAlone` runs commits
and cleaners that nobody interrupts. `CacheStore` is the same store as a class, one thread
running alone.

**Writable leases** (`Lease`, `LeaseTrace`, `LeaseTheorems`, `LeaseAnswers`, `RunManager`).
`Lease` says what
each section under the manager's lock does to the registry, `LeaseTrace` runs these sections
in any order under a clock that never goes back, with sessions that outlive their calls and
destroys that take a run out of the registry and may put it back. `LeaseTheorems` says what
no trace allows, `LeaseAnswers` what every caller is answered and for how long a lease lasts,
told from the trace and the stored lease alone. `RunManager` is the
registry of mutable run objects; each of its methods is proved equal to the function of the
same name in `Lease`.

**Run lifecycle** (`Lifecycle`, `LifecycleSafety`, `LifecycleTheorems`, `LifecycleLosses`,
`RunLifecycle`, `EgressPool`, `CacheLedger`). A ledger of containers, volumes, marks and
private listeners under any interleaving of Create, Destroy, Reap and CommitWarm, with a failure branch after every
acquisition. `RunLifecycle` is the operations as methods, each also stepped through the
machine of all interleavings. `LifecycleLosses` says when a run that stays loses its volume;
`CacheLedger` shows every run of the cache to be one of the lifecycle, with the same commits,
marks and volumes.

**The daemon** (`Daemon`, `DaemonTheorems`). Leases and lifecycle in one machine over one
registry: every run of it is a run of both, so the theorems of both hold of it.

**Formats and matchers.** `Ulid` (over `Radix`), `Sse`, `ExecEnv`, `Allowlist` with
`AllowlistTheorems`, `AllowlistText`, `AllowlistGrammar` and `AllowlistRemedy`, `Sweep` (over
`Sorting`).
`Text` and `Prelude` hold strings and small datatypes.

## Where comments and code disagree

The code is what is modelled. In seven places it does not keep a promise made beside it; each
has a run or a family of inputs that shows it, and the exact condition.

- `internal/run/cache.go:199-203` and `296-300` promise a boot the complete generation or a
  cold start. A boot that opens a directory of its generation keeps it open across the
  cleaner's rename, can find it emptied, and then reports booted=true over a part of the
  tree. Among boots, commits and cleaners that happens if and only if, at the moment the boot
  has marked its generation, some cleaner had already decided to rename it and there is
  anything in it to lose: `WarmPartial.BootInPartIff`; a run of it, for any tree but the empty
  one, is `WarmRaces.AnyTreeCanBootInPart`. What is there is always right
  (`WarmTheorems.BootIsExact`).
- `internal/run/cache.go:292-296` says a newly published generation survives a cleanup. It
  can be lost, exactly when at its publication some cleaner works from an older manifest and
  has it still before it: `WarmPublication.PublicationLostIff`; for any tree a run of it is
  `WarmRaces.AnyTreeCanBeLost`.
- `internal/run/manager.go:437-441` says a commit that misses its run is the only one left to
  release the volume. It is wrong exactly when a Destroy awaits the removal of the run's
  container, and the release then does harm: the run can be tracked again without its volume.
  `LifecycleLosses.LookUpWrongIff`, `LifecycleLosses.LateReleaseHarmsIff`,
  `LifecycleLosses.VolumeLostIff`; a run of it is `LifecycleLosses.TrackedRunCanLoseVolume`.
- `internal/run/lease.go:209-210` says a run destroyed during an exec takes its counter with
  it. A run whose Destroy fails brings the counter back, and can never be leased again:
  `LeaseTheorems.StrandedBlocksForever`, `LeaseTheorems.CounterDriftsIff`,
  `DaemonTheorems.StrandedIff`.
- `internal/run/lease.go:69-71` says an old credential never passes the fence again. It passes
  where everyone does, while no lease is active: `LeaseTheorems.StaleStaysDead`, with a trace
  in `LeaseTheorems.StaleIsAdmitted`.
- `internal/egress/proxy.go:337-341` says an entry is checked against the grammar the matcher
  implements. Accepted entries with a suffix and a port, or with a port not in plain decimal,
  do not admit what they name: `AllowlistRemedy.OwnHostIff`.
- `internal/server/server.go:430-432` says the client rejoins the data losslessly. It does so
  exactly for data without CR: `Sse.RoundTripIff`.

## Model

| member | source | states |
|---|---|---|
| WarmTheorems.BootIsExact | internal/run/cache.go:177-214 | in every interleaving a boot with booted=true holds the tree its manifest was written for, under the manifest's hash: all of it while that generation is there, at least a well-formed part of it otherwise; a cold boot holds an empty directory |
| WarmRetry.TriesAgain | internal/run/cache.go:182-207 | a boot that lost fewer than three copies and stands before its next reading, on a sound manifest whose generation is there, ends booted with all of that generation by its own steps alone |
| WarmRetry.TriesNothingElse | internal/run/cache.go:182-207 | and by its own steps, in whatever order it copies, it ends neither cold nor failed nor with anything else |
| WarmRetry.StopsTrying | internal/run/cache.go:207-213 | a boot that lost three copies ends cold with an empty volume, whatever the manifest |
| WarmRetry.ThreeTries | internal/run/cache.go:182-182 | in every interleaving a boot loses three copies at most, and then ends neither booted nor failed |
| WarmRetry.ColdIff | internal/run/cache.go:183-213 | a boot gives up and goes cold exactly when one of its readings found no manifest or came after three lost copies |
| WarmRetry.ReadingDecides | internal/run/cache.go:182-189 | one reading: give up without a manifest or after three lost copies, fail on a corrupt one, otherwise try the generation it names |
| WarmPartial.BootInPartIff | internal/run/cache.go:190-204 | a boot that has just marked its generation can end booted=true over a part of it exactly when the generation is there, is not empty, and a cleaner has already decided to rename it |
| WarmRaces.AnyTreeCanBootInPart | internal/run/cache.go:296-300 | for every tree with readable lockfiles but the empty one, a run from an empty daemon in which a boot of its generation reports booted=true over a part of it |
| WarmRaces.BootInPartHappens | internal/run/cache.go:199-203 | such a run exists under every digest |
| WarmTheorems.BootFailsIff | internal/run/cache.go:183-189 | a boot fails exactly by reading a corrupt manifest |
| WarmTheorems.NoBootFails | internal/run/cache.go:199-203 | on a sound manifest no boot ever fails, whatever commits and cleaners do |
| WarmTheorems.RestartIsAStart | internal/run/cache.go:315-320 | whatever state the daemon is stopped in, what is on disk is a start all theorems hold from |
| WarmTheorems.CommitIsExact | internal/run/cache.go:236-272 | a commit that succeeded published, under its own name, exactly the volume whose lockfiles it read, with their hash |
| WarmTheorems.ManifestIsTrue | internal/run/cache.go:262-290 | a sound manifest's hash is the hash of the tree it was written for, and its generation's path holds that tree or nothing |
| WarmTheorems.MarksCountHolders | internal/run/cache.go:382-402 | each in-use count is the number of boots and commits holding that mark |
| WarmTheorems.BuildIsUndisturbed | internal/run/cache.go:249-268 | no cleaner, boot or other commit touches a generation still being built, although busy check and rename are separate steps |
| WarmTheorems.CurrentGenerationLostIff | internal/run/cache.go:301-336 | the current generation leaves its path exactly when a cleaner that read an earlier manifest renames it |
| WarmPublication.PublicationLostIff | internal/run/cache.go:292-326 | at publication: the new generation can be lost while the manifest names it exactly when some cleaner works from an older manifest and has it still before it |
| WarmRaces.AnyTreeCanBeLost | internal/run/cache.go:292-296 | for every tree with readable lockfiles, a run from an empty daemon after which the manifest names its generation and that is gone |
| WarmRaces.ReachPublish | internal/run/cache.go:236-262 | a commit of a run with a volume and readable lockfiles gets to the manifest swap when it is left alone, whatever the tree |
| WarmAlone.CommitAlone | internal/run/cache.go:236-272 | a commit of a run with a volume and readable lockfiles, left alone, succeeds: the manifest is replaced by one with the volume's hash and the new generation is the volume |
| WarmAlone.FailedCommitLeavesNothing | internal/run/cache.go:254-266 | in every interleaving a commit that failed has left no directory of its generation |
| WarmAlone.CleanAlone | internal/run/cache.go:301-336 | a cleaner left alone goes through its whole pass, and leaves exactly what CleanGenerations leaves |
| WarmAlone.GenNameIff | internal/run/cache.go:61-61 | a generation's name is `g-` and at least one small letter or digit |
| WarmRaces.CurrentGenerationCanBeLost | internal/run/cache.go:292-296 | a run, from a sound start, after which the manifest names a generation that is gone |
| WarmSafety.ApplyKeeps | internal/run/cache.go:118-137 | every event of boots, commits, cleaners, releases and workloads keeps the cache's invariant: published trees immutable, copies faithful to their source, marks counted, only doomed names cleaned |
| WarmCache.TrashIsApart | internal/run/cache.go:315-320 | a renamed generation leaves the g-* names and only ever takes a t-g-* name |
| WarmTree.CopyTree | internal/run/cache.go:557-602 | copying a resting tree into a fresh path gives the same tree, whatever order the walk takes |
| WarmTree.CopyAdvances | internal/run/cache.go:557-602 | one path operation of the walk keeps: all written is right, all missing lies under a pending task |
| CacheStore.Store.MarkInUse | internal/run/cache.go:382-386 | one path's count goes up by one, every other stays |
| CacheStore.Store.Unmark | internal/run/cache.go:388-396 | one path's count goes down by one if it can, every other stays, and no entry is left at zero |
| CacheStore.Store.Busy | internal/run/cache.go:398-402 | busy exactly when the count is positive |
| CacheStore.Store.Release | internal/run/cache.go:372-380 | the volume goes unless a commit has it marked; nothing else changes |
| CacheStore.Store.Boot | internal/run/cache.go:177-214 | whatever the repository is at each of the three tries: the first try that does not lose its generation decides (the whole generation, an empty volume without a manifest, an error on a corrupt one), and after three lost ones the volume is empty; all marks come off again |
| CacheStore.Store.CleanGenerations | internal/run/cache.go:301-336 | afterwards exactly the spared directories are left, and old generations only where rubbish blocked their rename |
| CacheStore.Store.Commit | internal/run/cache.go:236-272 | alone: on success the manifest names a full copy of the volume under the volume's hash and the rest is cleaned; on failure, as of a run without a volume, nothing changed |
| LockHash.ComputeHash | internal/run/cache.go:504-521 | the loop writes the directory line and one line for each lockfile present, in order, and digests that text; an unreadable lockfile is an error |
| LockHash.HashInjective | internal/run/cache.go:498-543 | two volumes hash equal if and only if they agree on the clone's directory, on which lockfiles exist and on their contents, for a digest that does not collide on the texts digested |
| LockHash.HashEqualIff | internal/run/cache.go:47-51 | the same with the twelve lockfiles named: equal hashes exactly when the directory is the same and each of the twelve is absent from both or in both with the same content |
| LockHash.PreimageReads | internal/run/cache.go:504-521 | the digested text written out: `dir` and the directory, then for each of the twelve in their order its name and the digest of its content, if it is there |
| LockHash.HashFailsIff | internal/run/cache.go:513-515 | hashing fails exactly when one of the twelve is a directory |
| LockHash.HasLockfileIff | internal/run/cache.go:545-552 | a directory counts as the clone's when one of the twelve exists in it |
| LockHash.RepoDirIff | internal/run/cache.go:523-553 | the clone is taken to lie one level down exactly when the root holds no lockfile and one directory, and only one, looks like it |
| LockHash.PlainNameIff | internal/run/cache.go:63-63 | the directory's name is made of small letters, digits, dots, underscores and dashes |
| LockHash.PreimageInjective | internal/run/cache.go:504-521 | the digested text determines directory, presence and contents |
| GenNames.IsGenName | internal/run/cache.go:246-246 | a commit's fresh name has the shape cleaners look for and is no rubbish name |
| GenNames.GenNamesDiffer | internal/run/cache.go:246-246 | different ULID bytes give different generation names, lowercased |
| Sweep.Sweep | internal/run/cache.go:435-496 | what an eviction pass removes, from the scan on, and in which order: least recently used first, by the stamp and only without one by the creation time; nothing when there is no cap, the cache fits it, or the scan is cancelled |
| Sweep.OutcomeIsLeastRecent | internal/run/cache.go:459-479 | on the directories found: what went was last used no later than what went after it and than what could have gone and stayed |
| Sweep.OlderStampGoes | internal/run/cache.go:462-468 | of two directories with a stamp the one that went has the older one, whenever they were created |
| Sweep.BusyUnderIff | internal/run/cache.go:404-416 | a template is busy exactly when a path below it is in use |
| Sweep.Evict | internal/run/cache.go:479-495 | every eviction happens over the cap, oldest first, sparing busy and stuck templates, and the pass ends over the cap only when nothing else is left |
| Sweep.SortedOutcome | internal/run/cache.go:479-479 | sorting changes neither the sizes' sum nor what the outcome says |
| LeaseTheorems.MutualExclusion | internal/run/lease.go:81-137 | in every trace, while a tracked run has an active lease, every open exec or write on it was admitted with exactly that owner and generation |
| LeaseTheorems.CounterIsExact | internal/run/lease.go:190-215 | the in-flight counter is the number of open sessions plus the stranded ones |
| LeaseTheorems.BusyIff | internal/run/lease.go:95-104 | a sound request is refused as busy exactly when a session is open or stranded; a grant finds none open |
| LeaseTheorems.CounterDriftsIff | internal/run/lease.go:209-215 | a run's counter drifts from its open sessions exactly when one of them ends while the run is out of the registry, and never drifts back |
| LeaseTheorems.StrandedBlocksForever | internal/run/lease.go:99-102 | after a stranding no lease is ever granted on that run |
| LeaseTheorems.StrandingHappens | internal/run/manager.go:346-371 | a trace with a failing Destroy after which an idle run refuses every lease as busy |
| LeaseTheorems.GrantsIncrease | internal/run/lease.go:103-104 | generations strictly increase over a run's whole life, failed destroys included |
| LeaseTheorems.StaleStaysDead | internal/run/lease.go:111-161 | a credential older than the counter never renews or releases again, and is admitted exactly when no lease is active |
| LeaseTheorems.StaleIsAdmitted | internal/run/lease.go:55-61 | a trace in which the first of two credentials, both given back, is admitted again |
| LeaseAnswers.AdmittedIff | internal/run/lease.go:46-61 | in every trace: with no lease, or one that has lapsed, everyone is admitted, under an active one exactly its owner with its generation, and the answer is the container the run was tracked with |
| LeaseAnswers.AcquireAnswers | internal/run/lease.go:81-109 | every answer to a request: refused as unsound, unknown, held or busy, in this order, and otherwise granted with the number of grants so far plus one, until the reading of the clock plus the time asked for |
| LeaseAnswers.GrantLasts | internal/run/lease.go:46-61 | after a grant, whatever happens but a release, a renewal, a new grant or a Destroy of that run: up to the expiry other owners are refused as held and other credentials turned away, from then on neither; the grant's credential is admitted all along, renews up to the expiry and releases |
| LeaseAnswers.RenewalLasts | internal/run/lease.go:117-137 | the same after a renewal, with the expiry counted from the second reading of the clock |
| LeaseAnswers.RenewAnswers | internal/run/lease.go:117-137 | every answer to a renewal: granted exactly to the active lease's owner and generation, which stay |
| LeaseAnswers.ReleaseAnswers | internal/run/lease.go:145-161 | a release succeeds exactly with the stored lease's owner and generation, lapsed or not, and leaves the run to anyone |
| LeaseTrace.ApplyKeeps | internal/run/lease.go:81-238 | every event keeps the protocol's invariant: leases carry the counter's value, counters are exact, open sessions match the active lease |
| RunManager.Manager.AcquireLease | internal/run/lease.go:81-109 | the registry after and the answer are those of the protocol's acquire: refusals in order, a grant with the next generation |
| RunManager.Manager.RenewLease | internal/run/lease.go:117-137 | only the active lease's own credential renews; the expiry counts from a second clock reading |
| RunManager.Manager.ReleaseLease | internal/run/lease.go:145-161 | only the stored lease's credential releases, even after it lapsed; the counter stays |
| RunManager.Manager.BeginExec | internal/run/lease.go:179-194 | fence and in-flight mark in one section; the answer is the run's container |
| RunManager.Manager.FinishExec | internal/run/lease.go:209-215 | one slot comes off a tracked run with slots taken; anything else is unchanged |
| RunManager.Manager.Insert | internal/run/manager.go:314-316 | the run is tracked, every other run unchanged |
| RunManager.Manager.TakeOut | internal/run/manager.go:347-355 | the run leaves the registry and the caller alone holds it, unchanged |
| RunManager.Manager.TakeExpired | internal/run/manager.go:503-513 | exactly the expired runs leave, each once, in any order of the map |
| LifecycleTheorems.OneOwner | internal/run/manager.go:263-371 | a run belongs to the registry or to one thread, never to two |
| LifecycleTheorems.ListenersAndContainers | internal/run/manager.go:263-318 | private listeners are exactly those of runs with extra entries whose owner has opened and not closed one; containers likewise but for the leaked ones |
| LifecycleTheorems.RemovedAtMostOnce | internal/run/manager.go:356-366 | no container is successfully removed twice, none that exists was removed |
| LifecycleTheorems.AbandonedIff | internal/run/manager.go:515-521 | a container that exists loses its last owner exactly by a failing removal in a reap or in the cleanup of a failed seed |
| LifecycleTheorems.Quiescent | internal/run/manager.go:419-534 | when all operations are done: volumes belong to tracked runs, listeners and containers match the tracked runs, no marks are left |
| LifecycleTheorems.OrphanVolumeHasCommit | internal/run/manager.go:436-441 | a volume that outlives its run's cleanup has a commit under way that will come back for it |
| LifecycleLosses.VolumeLostIff | internal/run/manager.go:436-441 | a warm run that is or may again be tracked loses its volume exactly when a commit that missed it lets go, no other commit holds the volume, and the run is tracked or in a Destroy that awaits the removal |
| LifecycleLosses.LateReleaseHarmsIff | internal/run/manager.go:437-441 | after such a release the run can be tracked without its volume exactly when it is tracked or a Destroy awaits its removal |
| LifecycleLosses.LookUpWrongIff | internal/run/manager.go:437-437 | a commit's look-up takes a run for gone that comes back exactly when a Destroy awaits its removal |
| LifecycleLosses.TrackedRunCanLoseVolume | internal/run/manager.go:346-365 | an interleaving after which a tracked run has lost its volume |
| LifecycleSafety.ApplyKeeps | internal/run/manager.go:163-534 | every step of every operation keeps the ledger's invariant: each run's resources are exactly what its one owner still has to give back |
| RunLifecycle.Daemon.Create | internal/run/manager.go:222-318 | all or nothing: success owns everything asked for, failure leaves nothing but, after a failed seed, the removal or the leaked container |
| RunLifecycle.Daemon.Destroy | internal/run/manager.go:346-371 | a failing removal changes nothing; success gives back all but a volume a commit is reading |
| RunLifecycle.Daemon.Reap | internal/run/manager.go:503-528 | every expired run leaves the registry whatever its removal answers; a failed removal leaks the container |
| RunLifecycle.Daemon.CommitWarm | internal/run/manager.go:419-447 | every mark comes off again; when the run is destroyed during the copy, the volume that Destroy spared is released here |
| RunLifecycle.CreateAlone | internal/run/manager.go:222-318 | the machine of interleavings, run by one Create alone, does what the method does |
| RunLifecycle.DestroyAlone | internal/run/manager.go:346-371 | the same for Destroy |
| RunLifecycle.ReapAlone | internal/run/manager.go:503-528 | the same for Reap |
| RunLifecycle.FreshIsUnused | internal/run/manager.go:218-219 | in every reachable state an identifier no Create has had names nothing |
| CacheLedger.CacheRunIsLifecycleRun | internal/run/cache.go:372-396 | every run of the cache is, in its runs, commits, marks on volumes and volumes, a run of the lifecycle |
| CacheLedger.CommitIsSeen | internal/run/cache.go:252-257 | each step of the cache's commit is nothing to the lifecycle or the lifecycle's own step, and both keep the same marks on volumes |
| EgressPool.Pool.Start | internal/egress/pool.go:44-63 | the shared listener carries the base list |
| EgressPool.Pool.OpenFor | internal/egress/pool.go:76-116 | no entries: the shared proxy and nothing opened; otherwise a listener with base plus entries, replacing and closing an earlier one |
| EgressPool.Pool.Close | internal/egress/pool.go:122-135 | the run's listener is closed if there was one; idempotent; no other is touched |
| EgressPool.Pool.Shutdown | internal/egress/pool.go:139-157 | no listener is left bound |
| EgressPool.PrivateProxyPermits | internal/egress/pool.go:72-112 | in every state of the pool a run's listener is its own, and permits exactly what the base list does or one entry the run asked for, alone, does |
| DaemonTheorems.LeaseHalf | internal/run/manager.go:314-365 | every run of the daemon is a trace of the lease protocol |
| DaemonTheorems.LifeHalf | internal/run/manager.go:163-534 | and a run of the lifecycle |
| DaemonTheorems.OneRegistry | internal/run/manager.go:147-148 | a run can be leased or entered exactly while the lifecycle tracks it |
| DaemonTheorems.AdmittedIsLive | internal/run/lease.go:176-194 | whoever is admitted or granted a lease has a run whose container exists and was never removed |
| DaemonTheorems.StrandedIff | internal/run/manager.go:356-365 | a session is stranded exactly when it ends while a Destroy waits for the removal of its run's container |
| DaemonTheorems.DaemonMutualExclusion | internal/run/lease.go:81-238 | while a run has an active lease the lifecycle tracks it, its container exists, and every open session on it holds exactly that lease |
| Ulid.NewULID | internal/run/ulid.go:14-48 | the packing loop writes the 26 base-32 digits of the 128-bit value of clock and random bytes |
| Ulid.TakeByte | internal/run/ulid.go:32-34 | a byte goes in above the waiting bits: the OR is a sum, and the accumulator stays below 2^12 |
| Ulid.DecodeEncode | internal/run/ulid.go:27-47 | reading an identifier gives back its sixteen bytes |
| Ulid.EncodeDecode | internal/run/ulid.go:27-47 | every string a reader accepts is the identifier of what it reads |
| Ulid.FirstLetter | internal/run/ulid.go:27-27 | two padding bits: no identifier starts above '7' |
| Ulid.SortsAsNumbers | internal/run/ulid.go:8-9 | identifiers sort as their numbers, in either case |
| Ulid.SortsByTime | internal/run/ulid.go:11-22 | an earlier millisecond below 2^48 sorts first, whatever the random bytes, in either case |
| Ulid.IdTells | internal/run/ulid.go:14-25 | reading an identifier tells the milliseconds modulo 2^48 and the ten random bytes |
| Ulid.Distinct | internal/run/ulid.go:11-13 | different bytes give different identifiers, in either case |
| Allowlist.Permits | internal/egress/proxy.go:176-208 | the loop answers yes exactly when some entry admits the normalised host and port |
| Allowlist.ParseAllowlist | internal/egress/proxy.go:31-40 | the loop keeps the trimmed, lowercased, non-empty fields in order; AllowlistText.ParsesFieldByField says which they are |
| AllowlistText.ParsesFieldByField | internal/egress/proxy.go:31-40 | a field up to a comma, a blank or a newline gives one entry, trimmed and lowercased, unless nothing is left of it; then comes the parse of the rest; leading separators change nothing |
| AllowlistText.ParsedEntries | internal/egress/proxy.go:31-40 | no entry of a parsed list is empty, holds a comma, a blank, a newline or a capital, or has white space at an end |
| AllowlistText.TrimSpaceIff | internal/egress/proxy.go:34-34 | trimming takes all the white space off both ends and nothing else |
| AllowlistText.SpaceIff | internal/egress/proxy.go:34-34 | which characters are white space |
| AllowlistText.CapitalsFold | internal/egress/proxy.go:34-34 | folding turns A to Z into a to z and leaves every other character |
| AllowlistText.SpellingIgnored | internal/egress/proxy.go:176-181 | capitals and a final dot in the host of a target make no difference, and a target without a port is on 443 |
| AllowlistText.LabelIff | internal/egress/proxy.go:382-391 | a label is 1 to 63 small letters, digits, dashes and underscores, without a dash at an end |
| AllowlistText.PortIff | internal/egress/proxy.go:361-366 | a port is a number from 1 to 65535 in decimal, with any zeros and perhaps a plus before it |
| Allowlist.ValidateAllowlist | internal/egress/proxy.go:397-407 | all entries normalised in order, or the first refused entry's complaint |
| AllowlistGrammar.AcceptsExactly | internal/egress/proxy.go:342-393 | validation accepts exactly the entries a generative grammar makes: a host, `host:port` or `[host]:port`, with the host an address, a name, or a dot and two labels or more |
| AllowlistTheorems.ValidateTwice | internal/egress/proxy.go:342-393 | validating a validated entry changes nothing |
| AllowlistTheorems.ParseJoin | internal/egress/pool.go:82-82 | joining a validated list with commas and parsing it is the identity |
| AllowlistTheorems.EndToEnd | internal/run/manager.go:174-182 | a private proxy permits a target exactly when the base list does or one requested entry alone does |
| AllowlistTheorems.LabelMatching | internal/egress/proxy.go:193-205 | a port-free entry admits exactly hosts with its labels, or for a leading dot with labels ending in its own, on 80 and 443 |
| AllowlistTheorems.SuffixIsLabels | internal/egress/proxy.go:196-199 | the string test for a suffix is the label test |
| AllowlistTheorems.SplitJoined | internal/egress/proxy.go:411-421 | splitting a joined host and port gives both back |
| AllowlistRemedy.RemedyIsExact | internal/egress/proxy.go:409-421 | the suggested entry is accepted, admits the denied target, and another exactly with the same host and equal or both default ports |
| AllowlistRemedy.OwnHostIff | internal/egress/proxy.go:337-393 | an accepted entry admits the host and port it names exactly when it names no port, or a plain decimal one and no suffix |
| AllowlistRemedy.DottedPortFails | internal/egress/proxy.go:187-191 | every suffix entry with a port is accepted and does not admit its bare name on that port |
| AllowlistRemedy.ZeroPortFails | internal/egress/proxy.go:361-366 | every entry with a zero before its port is accepted and does not admit its name on that port |
| Sse.RoundTripIff | internal/server/server.go:443-464 | a client reads back the frames written exactly when every frame has a one-line named event and CR-free data |
| Sse.ParsePrefix | internal/server/server.go:433-441 | a stream cut anywhere shows the client only a first part of the messages |
| Sse.ClientSees | internal/server/server.go:437-440 | whatever got through before a failure parses to the first of the frames asked for |
| Sse.Writer.Frame | internal/server/server.go:443-464 | bytes sent are a prefix of all frames asked for, all of them and flushed while no write has failed; after a failure nothing more is sent |
| Sse.Writer.Channel | internal/server/server.go:466-477 | the chunk is taken whole, or the stream's failure is reported, for ever, even one that the other channel met in between |
| ExecEnv.ValidateExecEnv | internal/run/manager.go:592-612 | accepted exactly when count, names, values and total size are within bounds, whatever order the map is walked |
| ExecEnv.AcceptedIff | internal/run/manager.go:583-612 | accepted: 64 variables and 65536 bytes at most, shell names, and values without NUL, LF or CR |
| ExecEnv.ShellNameIff | internal/run/manager.go:614-627 | a name is letters, digits and underscores, not empty and no digit first |
| ExecEnv.TotalAdds | internal/run/manager.go:608-608 | each variable adds the bytes of its name and its value to the total |
| ExecEnv.TotalWithout | internal/run/manager.go:608-610 | the running total does not depend on the order |
| ExecEnv.ExecEnvFile | internal/run/runtime.go:340-351 | one line per variable, in the names' order |
| ExecEnv.EnvFileUnique | internal/run/runtime.go:337-351 | the text depends on the map alone |
| ExecEnv.EnvFileIff | internal/run/manager.go:603-607 | under valid names the file carries the environment exactly when no value breaks its line or ends in CR |
| ExecEnv.AcceptedArrives | internal/run/runtime.go:337-351 | what validation accepts is read back unchanged |
| ExecEnv.QuoteRoundTrip | internal/run/runtime.go:638-641 | the shell reads a quoted string as that one word, and what follows it as what follows |

## Left out

- WarmTheorems.BootIsExact: one repository's directory, without Drop and Sweep, which remove generations in place and can cut a boot short too; file-system failures other than an absent path, a copy onto something in its way and a failing manifest write are not modelled; a directory's entries are read in one step, however many system calls that takes.
- WarmTree.CopyTree: modes and special files are not part of a tree.
- WarmTheorems.CommitIsExact: the workload is taken to leave its volume alone while a commit reads it, as the source assumes.
- CacheStore.Store.Boot: others change the repository between its tries, not during a copy; all interleavings are those of the WarmCache machine.
- LockHash.HashInjective: the digest is any function with 64-character values that does not collide on the texts it is given; SHA-256 itself is not modelled.
- LockHash.ComputeHash: a lockfile that is a symbolic link counts as absent; read errors other than "is a directory" are not modelled.
- Sweep.Sweep: sizes, clocks, marks and failing removals are one snapshot; boots or commits during a sweep are not modelled.
- RunLifecycle.Daemon.CommitWarm: one Destroy during the copy stands for what other callers may do; all interleavings are those of the Lifecycle machine.
- RunManager.Manager.AcquireLease: the generation is unbounded; the wrap-around of a 64-bit counter is not modelled.
- RunManager.Manager.BeginExec: the command itself, its output and its exit are the runtime's; WriteFile is the same admission and the same end.
- RunLifecycle.Daemon.Create: checks of image, network, limits, TTL, slug and mount path come before the first acquisition and are not part of this model; Boot and BootEmpty are one volume acquisition.
- RunLifecycle.CreateAlone: the answers of the runtime (create, remove, seed) and of binding a port are parameters.
- Allowlist.Permits: case folding covers the ASCII letters; a letter outside ASCII whose lower case is ASCII is not folded.
- Allowlist.ValidateAllowlist: whether a string is an IP address is a parameter, any predicate; AllowlistRemedy.OwnHostIff and AllowlistGrammar.AcceptsExactly take for granted that addresses have no brackets and no final dot.
- AllowlistRemedy.RemedyIsExact: DNS names and dotted addresses; for an IPv6 target on a default port the suggested bare literal is refused by validation.
- EgressPool.Pool.OpenFor: sockets, requests and tunnels are not modelled; a server is its port and its list.
- Sse.RoundTripIff: characters stand for bytes; a code point split across chunks is not modelled.
- ExecEnv.ValidateExecEnv: characters stand for bytes.
- Ulid.NewULID: the clock and the random bytes are parameters; a failing random source is not modelled.
- CacheStore.Drop: it lists entries before it takes the lock, and like Sweep removes in place, so exactness does not extend to it.
- Docker calls, snapshots, exec timeouts, the HTTP API, tokens, logging, CONNECT tunnels and shutdown deadlines: foreign processes and plumbing.
- ParseNetwork, NormalizeSlug, ValidateWarmPath, ValidateWorkPath, Get, List, DestroyAll and output limits: would only add easy members.
