# flowz in Dafny

flowz is a small CI system: a server with a run table, an agent that claims
runs and executes their steps in ZFS clones, caches that survive runs, secrets
that are masked in logs. This project models its hard parts and proves what
they promise.

`dafny verify dfyconfig.toml` checks everything.

| files | what they are about |
|---|---|
| `Outcomes`, `Zfs`, `Families` | a ZFS store: datasets with files, snapshots, origins and mountpoints; the commands the agent uses; well-formedness; the frame rule |
| `CacheNames`, `CachePath`, `PathWalks` | dataset names, cache paths, mount targets, and why they do not collide (or when they do); where paths lead |
| `CacheProtocol` | prepare, attach, commit, discard, clean up: as functions on a world where any command may be refused and the agent may die before any command, and as classes proved to do just that |
| `CacheShape`, `CacheFrames`, `CacheHistory`, `CacheLatest`, `StoreHistory` | what every reachable pool looks like, under any failures, over any number of runs; commits as all or nothing |
| `CacheCommit`, `CacheCrash`, `CacheRuns`, `CacheRefinement`, `CacheConservation`, `CacheBlocking`, `CacheMounts` | what one undisturbed commit does exactly, what each crash point leaves, what whole runs do to the whole pool, when exactly a run blocks a cache, and what attaching gives a run |
| `StepGraph`, `Pipeline` | the cycle search and the validator |
| `Masking`, `MaskTails`, `MaskOverlaps`, `Secrets` | the masker, when exactly it leaves the tail of a secret, and the resolver |
| `LogChannel`, `Executor`, `Model`, `Agent`, `AgentSecrets`, `AgentPosts`, `AgentQuotes`, `AgentDeath`, `AgentRun` | a run on the agent: output channel, mounts, step loop, verdict, which secrets are asked for and handed to which step, what single posts say, what is posted unmasked, deaths among posts, and the run composed with the cache protocol |
| `Server`, `LogStream`, `Artifacts` | run table with one agent, live log stream, artifact eviction |

Inductions are written out: lemmas on which Dafny would start an induction of
its own carry `{:induction false}`.

Commands are modelled as succeeding with an effect or failing without one. A
world carries the fates of the commands to come (`Obeyed`, `Refused`,
`Killed`), so "for every list of fates" is "for every pattern of failures and
every crash point". A function `f` from dataset names to families says which
cache a dataset belongs to; `CacheHistory.FamilyIn` is the one the names of
flowz give. Parameters stand for what the code gets from outside: files that
git checks out, what steps write, answers of the secrets provider, the
iteration order of the hash map in the cycle search, the order in which the
database breaks ties.

## Findings

Places where code and its own documentation differ; the model follows the code.

- A commit stopped half way, by a death or by a refused command, can block its
  cache. `src/agent/workspace.rs:338-341` speaks of the gap between the two
  renames and is right: that point costs one cold run. So does every point from
  `promote` up to it, and every point after the old base is destroyed if no
  other clone was left over. At all other points a dataset is left that depends
  on `base@latest` (`CacheCrash.CrashPoints`, `CacheCrash.UnhealedIsLeftover`).
  Then line 368 fails in every undisturbed commit, and undisturbed runs, however
  many, never change what `@latest` holds (`CacheRefinement.MishapFreezesCache`,
  `CacheBlocking.BlockedStaysBlocked`). For whole runs and anything their
  commands meet, clones left by failed discards and mishaps that unblock a
  cache included, `CacheBlocking.BlockedAfterRun` says exactly when a cache is
  blocked afterwards. Commits of caches that started empty never block
  (`CacheCrash.EmptyCrashPoints`).
- If the first use of a repository stops between the creation of its dataset
  and the end of `git clone`, the dataset stays without a clone, and undisturbed
  runs fail at `git fetch` (`CacheConservation.FirstUseExactly`). They do until a
  run is refused its look at the dataset, takes it for missing, and clones
  (`CacheConservation.UnusableUntilRecloned`).
- A workspace whose mountpoint cannot be read or chowned keeps its clone and
  snapshot, because `execute_run` never finishes a run that was not prepared
  (`CacheConservation.RefusedWorkspace`).
- The check that keeps absolute caches out of the workspace compares text.
  `/.` passes it and is mounted over the root of the jail, workspace and all;
  `//workspace` and the relative `././.` are mounted over the workspace itself
  (`CachePath.RootCovered`, `CachePath.WorkspaceCovered`,
  `CachePath.WorkspaceCoveredByDots`). `//workspace/x` is inside, and `././x`
  normalizes to a different path than `x` but leads to the same directory
  (`CachePath.DoubledSlashShadowsWorkspace`, `CachePath.UntidyPathsCollide`).
  The caches of a file lead to different directories, none of them the
  workspace or above it and absolute ones outside of it, exactly if the
  validator's comparisons, the one with `/` included, hold of the targets
  without empty and `.` pieces (`Pipeline.SeparateExactly`).
- Mounts are made in the order in which caches are declared, and nothing checks
  that order: an inner cache declared before the outer one is out of reach
  (`Executor.InnerIsCovered`). All mounts can be reached exactly if no target
  leads to an earlier one or above it (`Executor.BuildMounts`).
- The check of run and artifact paths takes `../` for a parent directory. It
  lets `a/..` pass and refuses `a../b`; `Pipeline.PathCheckAgrees` says exactly
  when it is right.
- Repositories such as `a/b_c` and `a_b/c` share one repository dataset and one
  set of caches; owners without `_` never do (`CacheNames.SlugsCollideExactly`,
  `CacheNames.SlugsUnique`).
- The mask can bring a value back exactly if the value begins or ends with `*`
  or contains `***` (`Masking.RobustExactly`).
- `src/secrets/mod.rs:129` says longest-first order prevents a tail. It does
  exactly for values with which every line made of two overlapping values is
  hidden as a whole, whatever the number of values
  (`MaskOverlaps.NoTailsExactly`), so in particular if none ends the way one
  begins (`MaskTails.NoTails`). What is left otherwise:
  `Masking.OverlapLeavesTail`.
- The masker sees step output only. What the agent posts besides repeats one
  text from elsewhere, unmasked: the error the run ended with
  (`AgentQuotes.QuotesComplaint`). A command's error contains its arguments
  (`src/agent/workspace.rs:456-470`), for `git clone` the authenticated URL.
- No step ever has a row in the store: step statuses are updates, and nothing
  inserts (`Server.RunsGoForward`).
- A live log stream can end before the last lines: exactly if lines of the run
  arrived after the last query (`LogStream.StreamSendsPrefix`), as in the
  behaviour of `LogStream.StreamCanEndEarly`.
- An upload that fails after its directory was made leaves a directory without
  a row if the run has no other artifacts (`Artifacts.ArtifactStore.Upload`).
  No sequence of failed uploads, uploads of other runs and evictions ever
  removes it (`Artifacts.OrphansStay`).

## Model

| member | source | states |
|---|---|---|
| Zfs.ApplyKeepsWellFormed | src/agent/workspace.rs:92-372 | every command the agent issues keeps snapshot names unique, origins existing and the origin relation free of cycles, promote and rename with their re-pointed dependents included |
| Zfs.NoOriginCycle | src/agent/workspace.rs:353-370 | in a well-formed store no chain of origins leads back to where it began |
| Zfs.PromoteUndone | src/agent/workspace.rs:353-355 | promoting the dataset that was the parent undoes a promotion: snapshots, origins and all datasets that followed are back |
| Zfs.RenameUndone | src/agent/workspace.rs:358-362 | renaming back undoes a rename, for the datasets that follow it too |
| Families.ApplyIsLocal | src/agent/workspace.rs:171-180 | frame rule: a command naming datasets of one family succeeds exactly when it would with that family alone in the pool, does the same to it, and leaves every other family as it was |
| CacheNames.SlugsCollideExactly | src/agent/workspace.rs:377-387 | two repositories share a slug if and only if they have the same length and differ only where both have characters that fold into `_` |
| CacheNames.SlugsCanCollide | src/agent/workspace.rs:377-387 | a family of different repositories with one slug |
| CacheNames.SlugsUnique | src/agent/workspace.rs:377-387 | slugs of `owner/name` determine both parts if the owner has no underscore |
| CacheNames.FamiliesOfRun | src/agent/workspace.rs:112-116 | base, per-run clone and set-aside base of a cache all belong to that cache |
| CacheNames.DatasetNamesDistinct | src/agent/workspace.rs:112-115 | repository, cache, role (base, clone, set aside) and run id can all be read back from a dataset name, so no two of them share one |
| CacheNames.CacheDatasetsDoNotNest | src/agent/workspace.rs:112-116 | no cache dataset lies below another, so recursive destroy and rename of one take no other along |
| CacheNames.CachesAreNotCheckedOut | src/agent/workspace.rs:258-264 | no cache dataset lies below a run's dataset, nor below a repository's unless its slug is `cache` |
| CacheNames.WorkspaceNamesDistinct | src/agent/workspace.rs:258-264 | repositories and runs have datasets of their own unless a slug looks like a run |
| CacheNames.ValidNamesExactly | src/pipeline/mod.rs:122-127 | cache names are accepted exactly if they match `[A-Za-z0-9_-]+` |
| CachePath.MountTargetsDistinct | src/executor/mod.rs:263-271 | accepted normalized paths have equal mount targets only if they are equal, never the workspace mount, and relative and absolute ones never meet |
| CachePath.TidyTargetsAreDistinctDirectories | src/pipeline/mod.rs:130-151 | accepted paths without empty or `.` pieces name different directories, and lie inside the workspace exactly when they are relative |
| PathWalks.TrimExactly | src/pipeline/mod.rs:108-117 | trimming takes all white space off both ends and nothing else |
| PathWalks.NormalizeExactly | src/pipeline/mod.rs:108-117 | normalizing takes at most one `./` off the front and all slashes off the end, unless there is nothing else |
| PathWalks.SpaceExactly | src/pipeline/mod.rs:108-109 | the characters trimmed are those with the Unicode property White_Space, by code point |
| Pipeline.ProjectExactly | src/pipeline/mod.rs:49-58 | secrets are accepted exactly if their provider is `cfgy` and the project has a character that is not white space |
| PathWalks.BlanksMakeNoDifference | src/pipeline/mod.rs:108-117 | white space around a path, every code point that Unicode counts as such, makes no difference |
| PathWalks.BadPathExactly | src/pipeline/mod.rs:130-148 | for texts without detours the check of cache paths is exact: it refuses those with a colon, those with a parent in them, those that lead to the workspace or above, and absolute ones that lead inside |
| CachePath.TidiedTells | src/executor/mod.rs:263-271 | two targets lead to the same directory if and only if their tidied texts are equal |
| CachePath.TidiedInside | src/pipeline/mod.rs:134-142 | a target is the workspace or inside it if and only if the validator's own test holds of its tidied text |
| CachePath.OnTopExactly | src/executor/mod.rs:262-271 | one target is another or above it, so that its mount lies on top, if and only if its tidied text is `/`, the other's, or the other's up to a slash |
| CachePath.RootCovered | src/pipeline/mod.rs:134-142 | `/.` is accepted as it stands, and its target is the root, above the workspace |
| CachePath.WorkspaceCovered | src/pipeline/mod.rs:134-142 | `//workspace` is accepted as it stands, and its target is the workspace mount itself |
| CachePath.WorkspaceCoveredByDots | src/pipeline/mod.rs:108-117 | so is a relative path that normalizes to `./.` |
| CachePath.UntidyPathsCollide | src/pipeline/mod.rs:108-117 | for every accepted relative path `x`, `././x/` is accepted as a different path to the same directory |
| CachePath.DoubledSlashShadowsWorkspace | src/pipeline/mod.rs:134-142 | for every accepted relative path, an accepted absolute one is mounted over the same directory in the workspace |
| CacheProtocol.Host.Do | src/agent/workspace.rs:432-454 | a command has its effect, fails unchanged, or is never reached, as its fate says |
| CacheProtocol.Workspace.AttachCache | src/agent/workspace.rs:111-155 | one round of the attach loop, command by command, is `AttachOne`, and what it provisioned is recorded even if it fails later |
| CacheMounts.AttachedProvided | src/agent/workspace.rs:117-141 | the clone of a relative cache is mounted at the pieces of its path in the workspace, that of an absolute one is not told where; it holds the files of `@latest` if it was restored and none otherwise |
| CacheMounts.MountedApart | src/agent/workspace.rs:120-125 | relative caches that lead to separate directories are mounted at different directories on the host, none the workspace itself, each at the place that its target in the jail names |
| CacheMounts.AttachExactly | src/agent/workspace.rs:127-150 | which commands attaching a cache takes: it is recorded exactly if the clone is obeyed, and succeeds exactly if all but the look are, the owner of a relative one included |
| CacheProtocol.Workspace.AttachCaches | src/agent/workspace.rs:92-157 | the attach loop is `AttachAll` on every world, stopping at the first cache that fails |
| CacheProtocol.CommitCache | src/agent/workspace.rs:342-372 | the up to eight commands of a commit are `Commit` on every world, and the result says whether all succeeded |
| CacheProtocol.Workspace.Finish | src/agent/workspace.rs:162-183 | finishing is `FinishRun` on every world: each cache committed or discarded, failures notwithstanding, then the clone and then its snapshot |
| CacheProtocol.PrepareWorkspace | src/agent/workspace.rs:258-324 | preparing is `Prepare` on every world, first use with its clone and later fetches, including the removal of the snapshot when the workspace clone fails |
| CacheShape.CommitKeepsGood | src/agent/workspace.rs:342-372 | a commit, failing anywhere or killed anywhere, takes nothing into any snapshot of its cache but the files its clone held |
| CacheFrames.CommitFrame | src/agent/workspace.rs:342-372 | a commit touches no other cache and does to its own what it would with that cache alone |
| CacheFrames.AttachEachAt | src/agent/workspace.rs:111-155 | seen from one cache, attaching many is attaching that one alone |
| CacheFrames.FinishEachAt | src/agent/workspace.rs:171-179 | seen from one cache, the finish loop is one commit or discard of that cache, started from the cache as it was before the loop |
| CacheLatest.CommitAllOrNothing | src/agent/workspace.rs:336-372 | whatever fails and wherever the agent dies, after a commit the base has the snapshots it had, or none, or just `@latest` with the clone's files |
| CacheLatest.FinishAllOrNothing | src/agent/workspace.rs:162-184 | the same for each cache of the whole finish loop; if the run failed, the base's snapshots stay as they were |
| CacheLatest.RunAllOrNothing | src/agent/workspace.rs:92-184 | the same for whole runs from any reachable pool, under any fates; anything but the old snapshots comes from a run that was finished as a success |
| CacheHistory.ExecuteKeepsInv | src/agent/workspace.rs:162-184 | any run, with any fates, keeps every snapshot of every cache down to contents delivered for that very cache |
| CacheHistory.DeliveredMeansSomeRun | src/agent/mod.rs:137 | a content counts as delivered only if some successful run's clone held it when the run finished |
| CacheHistory.NoPoisoning | README.md:113-114 | over all histories with any failures and deaths, each snapshot of a cache dataset is `@latest` and holds what a clone of that cache held at the finish of some successful run |
| StoreHistory.HistoryKeepsWellFormed | src/agent/workspace.rs:92-372 | the same histories keep the store well formed |
| CacheCommit.DestroyLatestStep | src/agent/workspace.rs:366-369 | after promote, renames and destroy, the previous `@latest` can be destroyed exactly when this run's clone was its only dependent |
| CacheCommit.RestoredCommitExact | src/agent/workspace.rs:353-370 | undisturbed, committing a restored cache completes if and only if its clone is the only dependent of `base@latest`; both resulting stores are given whole |
| CacheCommit.EmptyCommit | src/agent/workspace.rs:356-370 | committing a cache that started empty always completes, replacing a base that has no `@latest` |
| CacheCommit.LoneRunExact | src/agent/workspace.rs:92-184 | attach, work, finish of one cache: what the run is handed, that failure restores the pool, and when and how success changes it |
| CacheCrash.CrashPoints | src/agent/workspace.rs:336-371 | for a death or a refusal after any number of commands of a restored commit, whatever earlier mishaps left: whether the next run starts cold, what it gets otherwise, whether the cache is blocked |
| CacheCrash.NextRunAfterCrash | src/agent/workspace.rs:338-341 | the next successful run after such a mishap completes its commit and settles the base exactly at the healing points; at the others `@latest` keeps its old content |
| CacheCrash.UnhealedIsLeftover | src/agent/workspace.rs:353-369 | at every point that does not heal some dataset is left that depends on `base@latest`, which still has its old files |
| CacheCrash.EmptyCrashPoints | src/agent/workspace.rs:353-371 | the same for a cache that started empty: it never blocks, and the next run starts cold unless the last command was reached |
| CacheCrash.NextRunAfterEmptyCrash | src/agent/workspace.rs:353-371 | the next successful run of such a cache completes its commit, from the new content if the last command was reached and from nothing otherwise |
| CacheRuns.RunSnapsDistinct | src/agent/workspace.rs:265 | runs of one repository have snapshots of their own, never called `latest` |
| CacheRuns.PrepareCalm | src/agent/workspace.rs:258-293 | an undisturbed prepare adds the commit, one snapshot and one clone, nothing else |
| CacheRuns.CleanupCalm | src/agent/workspace.rs:326-334 | cleanup takes exactly that snapshot and clone away again |
| CacheRuns.CalmRun | src/agent/mod.rs:70-140 | an undisturbed run takes each of its caches through the run as if alone, leaves all others alone, and of the workspace only the repository and the cache root remain |
| CacheRefinement.RunRefines | src/agent/workspace.rs:92-184 | an undisturbed run on settled caches is one step of a plain map from cache to content |
| CacheRefinement.RunsRefineMap | README.md:108-114 | any sequence of undisturbed runs from an empty pool leaves exactly the map's caches: files, matching `@latest`, no origin, no leftovers |
| CacheRefinement.LeftoverFreezesCache | src/agent/workspace.rs:366-369 | while one leftover depends on `base@latest`, no number of undisturbed runs ever changes what `@latest` holds |
| CacheRefinement.MishapFreezesCache | src/agent/workspace.rs:353-369 | after a mishap at a point that does not heal, no number of undisturbed runs of any repositories changes what `@latest` of that cache holds |
| CacheBlocking.RestoredOutcome | src/agent/workspace.rs:342-372 | whatever its commands meet, a commit of a restored cache ends as at the crash point of its first mishap |
| CacheBlocking.UnrestoredOutcome | src/agent/workspace.rs:342-372 | whatever its commands meet, a commit of a cache that was not restored leaves it ready for the next one if and only if it was ready before or the base was set aside |
| CacheBlocking.BlockedAfterRun | src/agent/workspace.rs:92-184 | for whole runs from any reachable pool, under any fates: exactly when a cache is ready for the next commit afterwards, by what was attached, whether the run passed, and how far it came with the cache before the next mishap |
| CacheBlocking.BlockedStaysBlocked | src/agent/workspace.rs:366-369 | undisturbed runs leave a blocked cache blocked and leave what `@latest` holds |
| CacheConservation.FailedRunLeavesNothing | src/agent/workspace.rs:134-183 | however attaching failed, a run finished as failed with an undisturbed teardown leaves the pool as it was but for the checked-out commit and perhaps the empty cache root |
| CacheConservation.RefusedWorkspace | src/agent/workspace.rs:258-293 | on first and on later use: if the workspace clone is refused its snapshot goes too; if a later command is refused, clone and snapshot both stay |
| CacheConservation.FirstUseExactly | src/agent/workspace.rs:296-309 | a first use stopped at its k-th command leaves the repository usable if and only if the dataset was not created or the clone was complete |
| CacheConservation.UnusableNext | src/agent/workspace.rs:296-313 | after the next use of such a repository it is usable if and only if that happened, and otherwise nothing has changed |
| CacheConservation.UnusableUntilRecloned | src/agent/workspace.rs:296-313 | runs of a repository whose dataset has no clone, whatever their commands meet, change nothing at all until one has its look at the empty dataset refused and the commands up to the clone obeyed |
| StepGraph.Search.Dfs | src/pipeline/mod.rs:167-186 | terminates over the steps off the stack; on success the visited order stays topological and now contains the step, on error the step named is on a cycle |
| StepGraph.TopologicalMeansAcyclic | src/pipeline/mod.rs:188-192 | an order of all steps, each after its needs, leaves no step that reaches itself |
| StepGraph.DetectCycle | src/pipeline/mod.rs:156-193 | succeeds if and only if no step reaches itself through needs, whatever order the hash map yields; success comes with a topological order, an error with a step on a cycle |
| Pipeline.ValidateCache | src/pipeline/mod.rs:119-154 | accepts exactly caches with valid names, accepted paths and distinct normalized paths; an error is true of the first cache that is at fault |
| Pipeline.CheckCache | src/pipeline/mod.rs:122-148 | name before path, for one cache |
| Pipeline.ValidateStep | src/pipeline/mod.rs:64-99 | accepts exactly the valid steps; an error is true of the step |
| Pipeline.Validate | src/pipeline/mod.rs:44-105 | accepts exactly the valid files; acceptance comes with an order of all steps after their needs, refusal with an error that explains the file and that everything checked before was in order |
| Pipeline.AcceptedTargetsDistinct | src/pipeline/mod.rs:134-151 | caches of an accepted file have pairwise distinct mount targets, none the workspace mount |
| Pipeline.SeparateExactly | src/pipeline/mod.rs:130-151 | any caches lead to pairwise different directories, none the workspace or above it and only relative ones inside it, if and only if their tidied targets pass the validator's comparisons of text, that with `/` included |
| Pipeline.RefusedExactly | src/pipeline/mod.rs:71-91 | the check of run and artifact paths refuses a path if and only if it is absolute or a piece other than the last ends in two dots |
| Pipeline.PathCheckAgrees | src/pipeline/mod.rs:71-91 | exactly when that agrees with the path being absolute or there being a parent directory among its pieces |
| Pipeline.AcceptedStays | src/pipeline/mod.rs:71-91 | an accepted path is relative, and following it from any directory, parents going up, never leaves that directory unless the path is nothing but a parent |
| Pipeline.ValidPathsStay | src/pipeline/mod.rs:71-91 | so for every script and artifact of a valid file |
| Pipeline.CyclesAsWritten | src/pipeline/mod.rs:156-193 | a file is free of cycles exactly if no chain of needs written in it comes back to where it began |
| Pipeline.OrderAsWritten | src/pipeline/mod.rs:156-193 | in the order that comes with acceptance every step stands behind all that it needs |
| Masking.NoStarIsRobust | src/secrets/mod.rs:137 | a value without `*` cannot be brought back by the mask |
| Masking.NothingLeft | src/secrets/mod.rs:133-141 | no robust registered value occurs in the masked line |
| Masking.MaskIdempotent | src/secrets/mod.rs:133-141 | masking twice is masking once |
| Masking.RobustExactly | src/secrets/mod.rs:133-141 | a single value never shows after masking, on any line, if and only if it is robust |
| Masking.MaskExact | src/secrets/mod.rs:133-141 | the masked line is the original with disjoint occurrences of registered values, found in the original, replaced by `***`, and every other byte kept in order |
| Masking.OverlapLeavesTail | src/secrets/mod.rs:129-130 | a value that overlaps a longer one leaves its tail in the line, and which |
| MaskTails.NoTails | src/secrets/mod.rs:129-141 | if no registered value ends the way one begins, every byte of every occurrence of a registered value in any line is hidden |
| MaskTails.OneValueExactly | src/secrets/mod.rs:133-141 | for one value that holds on all lines if and only if the value does not overlap itself |
| MaskTails.TwoValuesExactly | src/secrets/mod.rs:129-141 | for two values it holds on all lines if and only if they are apart from each other, the shorter one from itself, and the longer one from itself unless it is the shorter one repeated |
| MaskOverlaps.NoTailsExactly | src/secrets/mod.rs:129-141 | for any number of values it holds on all lines if and only if it holds on the finitely many lines made of two overlapping values |
| Masking.AddedIsRegistered | src/secrets/mod.rs:121-131 | adding keeps values unique, at least four bytes and longest first, and adds exactly the value, if it is long enough |
| Masking.AddedInPlace | src/secrets/mod.rs:121-131 | the sort is stable: a new value goes behind all that are at least as long and before all that are shorter |
| Masking.Masker.Add | src/secrets/mod.rs:121-131 | push and stable sort are that addition |
| Masking.Masker.Mask | src/secrets/mod.rs:133-141 | the loop over the values, with its containment test, is the iterated replacement |
| Secrets.LoadKeepsSound | src/agent/mod.rs:457-471 | the masker knows exactly the values of four or more bytes of the loaded configurations, and no configuration is fetched successfully twice |
| Secrets.LoadGives | src/agent/mod.rs:457-471 | a load that succeeds gives the pairs cached for the configuration, which are the provider's answer to the one call for it that succeeded; one that fails gives the provider's error and caches nothing |
| Secrets.SecretsResolver.Load | src/agent/mod.rs:457-471 | a load asks the provider only for what is not cached, registers all values before it caches them, and returns what is cached |
| LogChannel.StepConserves | src/agent/mod.rs:309-330 | every move of sender or consumer conserves posted, in hand, queued and still to be sent |
| LogChannel.SomeMoveEnabled | src/agent/mod.rs:315-330 | until the consumer is through, somebody can move |
| LogChannel.ChannelDelivers | src/agent/mod.rs:309-355 | for every interleaving, posted, in hand and queued are the masked lines sent so far, in order, with at most 256 queued; moves are bounded, and when none is left everything is posted in non-empty batches |
| LogChannel.CutIsBatches | src/agent/mod.rs:316-329 | the posted batches are the masks of a partition of the lines as sent |
| Executor.BuildMounts | src/executor/mod.rs:252-271 | the workspace mount first, then one mount per cache at its target, for accepted caches at different ones; every mount can be reached in the jail if and only if no target is seen on top of an earlier one |
| Executor.ArgumentsTell | src/executor/mod.rs:268-270 | host path and target can be read back from the mount argument of an accepted cache |
| Executor.CoveredExactly | src/executor/mod.rs:262-271 | nothing of a mount can be reached if and only if a later one is made at its target or above |
| Executor.InnerIsCovered | src/pipeline/mod.rs:119-154 | for all accepted paths: a cache declared before one that contains it is accepted and out of reach |
| Executor.RunStep | src/executor/mod.rs:320-348 | all of stdout, then all of stderr, then the exit; an unreadable line of stdout ends the step there, unreadable stderr is dropped; failures to start and to wait end it with nothing, or with all of stdout, posted |
| Agent.PreflightLoads | src/agent/mod.rs:188-232 | a successful preflight has loaded every configuration the steps will want, and the masker holds their values |
| Agent.LoopLoadsNothing | src/agent/mod.rs:262-278 | after it the step loop never asks the provider, cannot fail over secrets, and masks with the preflight's values throughout |
| AgentSecrets.WantedExactly | src/agent/mod.rs:426-445 | a step is skipped exactly if its filter names another branch; the run wants for it what it names itself, or, if it names nothing, what its branch is mapped to |
| AgentSecrets.AcceptedIsWanted | src/pipeline/mod.rs:91-93 | in an accepted file a configuration that a step names is never passed over when the step runs |
| AgentSecrets.PreflightAsks | src/agent/mod.rs:186-232 | the provider is asked for nothing but what a step that runs asks for, and after a successful preflight all of that is loaded; if no step asks, no call is made and nothing is masked |
| AgentSecrets.RunAsks | src/agent/mod.rs:436-445 | the same over the whole run: a branch without a mapping, whose steps name nothing, gets no secrets |
| AgentSecrets.EnvRanks | src/agent/mod.rs:257-271 | in a step's environment its own values win over secrets, secrets over the file's, and of one list the last entry |
| AgentSecrets.RunIsHanded | src/agent/mod.rs:234-271 | every step that is started is handed its own script, on the host exactly if it is an `exec` one, and the provider's answer for the configuration it asks for |
| Agent.NoSecretInOutput | src/agent/mod.rs:275-329 | no robust secret of four or more bytes occurs in any posted line of step output |
| AgentQuotes.QuotesComplaint | src/agent/mod.rs:76-139 | outside step output a run's posts repeat exactly one text from elsewhere, the error the run ended with, or none if it passed or a step's exit ended it |
| AgentQuotes.SecretQuoted | src/agent/mod.rs:76-139 | so a secret is repeated there if and only if it occurs in that error |
| Agent.ChannelOutput | src/agent/mod.rs:309-370 | for every interleaving of the channel, the finished step has posted what `StepPosts` says for these very lines, before its exit marker |
| Agent.StatusesInOrder | src/agent/mod.rs:236-409 | step statuses in declared order: skipped, or in progress and then the outcome; nothing after the first failure; preflight failure and lost steps as their own cases |
| AgentPosts.StartedAreHanded | src/agent/mod.rs:234-271 | the steps said to be in progress are those that were handed something, in that order |
| AgentPosts.AdvanceSaysFirst | src/agent/mod.rs:234-271 | a round of the loop posts first that its step is in progress, even if its secrets then cannot be had, or that it is skipped and nothing else |
| AgentPosts.StepPostsSay | src/agent/mod.rs:356-403 | what is posted for a step is true of how it ended: exit marker, executor error, outcome; artifacts are uploaded, each once and in order, exactly if it passed |
| Agent.RunStepsVerdict | src/agent/mod.rs:188-424 | preflight and loop post one verdict, that of their result, or none if they end in an error |
| AgentPosts.CommitFollowsRun | src/agent/mod.rs:411-424 | the commit's status is posted exactly if the job came with a token and the run has an outcome, and it is that of the run |
| AgentPosts.CachesAreTold | src/agent/mod.rs:158-178 | the caches' states are posted once all are attached, right after the first remark and before all that steps post, and at no other time |
| Agent.ExactlyOneVerdict | src/agent/mod.rs:91-139 | on every path exactly one terminal run status is posted, last of all that goes to the server, and it is success exactly when the run's outcome is |
| AgentRun.CheckSecrets | src/agent/mod.rs:186-232 | the preflight loop is `Preflight`, stopping at the first step without secrets |
| AgentRun.PostOutput | src/agent/mod.rs:315-330 | every batch is posted masked, in order |
| AgentRun.TakeSteps | src/agent/mod.rs:234-409 | the step loop posts what `Loop` says, starts steps with what `Loop` hands them, and stops where it stops |
| AgentRun.DoSteps | src/agent/mod.rs:186-424 | preflight, loop and verdict together post `RunSteps` |
| AgentRun.DoExecute | src/agent/mod.rs:144-424 | file, caches, preflight and steps in a workspace: report, pool and attached caches |
| AgentRun.RunPrepared | src/agent/mod.rs:107-139 | a prepared run posts its report and finishes its workspace as a success exactly if its outcome is one |
| AgentRun.ExecuteRun | src/agent/mod.rs:70-140 | wherever the agent dies, over a command or a post, a run posts its report as far as it lives to, with the caches reported that were attached, and does to the pool what its record does in the histories, committing caches exactly when its outcome is a success and its report was posted |
| AgentDeath.DeathBeforeFinishing | src/agent/mod.rs:107-139 | a death among the posts between attaching and finishing does to the pool what a death before the next command does, for the fates of the run up to there |
| AgentDeath.DeathBeforeAttaching | src/agent/mod.rs:91-107 | the same for a death before the caches are attached |
| AgentRun.HeardIsPrefix | src/agent/mod.rs:70-140 | what the server hears of a prepared run is a beginning of its report, and any beginning can be all of it |
| AgentRun.RecordedRun | src/agent/mod.rs:123-139 | attaching, writing and finishing as the agent does it is one `Execute` of the histories |
| AgentRun.ReportTells | src/agent/mod.rs:160-172 | on an undisturbed pool a cache is reported as restored exactly if it had an `@latest` |
| Server.RunTable.ClaimNextJob | src/store/mod.rs:365-384 | claims an oldest queued run and marks it running, or finds that none is queued |
| Server.RunTable.UpdateRunStatus | src/server/mod.rs:723-770 | the unguarded handler writes whatever it is told into the run's rows and no others; a step status updates its row, if there is one, and brings `running` with it; a terminal status evicts artifacts, whose deletions may fail |
| Server.RunTable.UpdateStepStatus | src/store/mod.rs:159-205 | updates the row of the step if it exists and inserts none |
| Server.ReportsAreClaimable | src/agent/mod.rs:91-139 | whatever becomes of a run, the agent's report is one the composed system admits for a claimed run |
| Server.NextKeepsInv | src/server/mod.rs:723-769 | submission, claim, arrival of a post and death of the agent all keep the system invariant |
| Server.RunsGoForward | src/store/mod.rs:148-205 | over every behaviour with one agent and in-order posts, each run goes queued, running, one terminal status; none is claimed twice; claims are oldest first; no step has a row |
| Server.TerminalIsFinal | src/store/mod.rs:148-157 | a terminal status never changes again |
| LogStream.Stream.Fetch | src/server/mod.rs:981-991 | one query sends exactly the lines above the cursor and moves the cursor to the last of them |
| LogStream.Stream.Turn | src/server/mod.rs:979-1004 | one turn of the loop is a query and a look in the interleavings |
| LogStream.StreamSendsPrefix | src/server/mod.rs:979-1004 | for every interleaving with appends, what was sent is a gap-free, duplicate-free prefix of the run's log in id order: the whole log as of the last query, and the whole log if and only if no line of the run came after it |
| LogStream.StreamEndsWithRun | src/server/mod.rs:993-1003 | a stream ends at the first look that finds the run gone, succeeded, failed or cancelled, and at no other |
| LogStream.StreamCanEndEarly | src/server/mod.rs:979-1004 | a behaviour that ends with nothing sent of a log of one line |
| Artifacts.UpsertKeepsKeys | src/store/mod.rs:285-308 | one row per run, step and path; an upsert replaces that row only, by the new one |
| Artifacts.EvictOldArtifactRuns | src/store/mod.rs:331-353 | lists exactly the runs beyond the ten latest or older than the cutoff |
| Artifacts.ArtifactStore.Upload | src/server/mod.rs:640-672 | refused for its path exactly if that is absolute or has a parent in it; then directory, file, row: what an upload leaves at each point of failure, and exactly when it leaves a directory without a row |
| Artifacts.SafeExactly | src/server/mod.rs:640-642 | the path check refuses absolute paths and those along which a walk meets a parent |
| Artifacts.SafeStays | src/server/mod.rs:644-652 | the file of an accepted upload lies where its path says, below the directory of its run and step |
| Artifacts.ArtifactStore.Evict | src/server/mod.rs:773-791 | rows and directories of exactly the listed runs go, but for those that cannot be deleted; directories without rows stay, and exactly which are added |
| Artifacts.OrphansStay | src/server/mod.rs:644-791 | a directory without a row outlives every sequence of uploads, other than a successful one of its run, and evictions |
| Artifacts.SurvivorsAreRecent | src/store/mod.rs:331-353 | a row survives only for a run among the ten latest and not older than the cutoff, and no run evicted by rank is newer |
| Artifacts.LastSurvives | src/store/mod.rs:331-353 | a run that is kept keeps its latest artifact time |
| Artifacts.EvictionIsStable | src/server/mod.rs:773-791 | evicting again at the same clock removes nothing, however the database breaks ties |

## Left out

- Zfs.ApplyKeepsWellFormed: dataset names are flat. Parents are not checked on `create` and `clone`, and recursion finds no children; `CacheNames.CacheDatasetsDoNotNest` says why that fits caches. Busy mounts, permissions and space are a refused command.
- CacheProtocol.PrepareWorkspace: `git clone`, `git fetch` and `git checkout` each succeed or change nothing; the choice of the commit to check out is a parameter.
- CacheHistory.NoPoisoning: one agent per pool; what steps write is a function of dataset and files, applied when attaching succeeded.
- CacheRefinement.RunsRefineMap: run ids are new and no repository dataset is called like a run workspace; both come with uuid run ids.
- Masking.NothingLeft: claimed for robust values, which `Masking.RobustExactly` shows is exact for a single value; an exact condition for interacting non-robust values is not given.
- LogStream.StreamSendsPrefix: the one-second pause and the transport to the browser.
- Server.RunTable.ClaimNextJob: the SELECT and the UPDATE are one step, as there is one poller; two concurrent pollers are not modelled.
- Server.RunTable.UpdateRunStatus: the database answers; handlers that return early because it does not are not modelled.
- Artifacts.ArtifactStore.Evict: a deletion happens or fails as a whole; times are numbers, and texts that are not times are not modelled.
- HTTP delivery failures, panics other than a lost task, and restarts of the server.
- The text of log lines the agent writes itself; caches are not mounted for steps on the host, which see those in the workspace.
- The directory workspace backend, which has no caches.
- YAML and JSON parsing, SQLite, process spawning, jails, uids, and the host paths of mounts.
- Webhooks, OIDC, sessions, HTML, log grouping and paging of the pages, CLI and configuration.
