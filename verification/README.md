# A verified model of minecraft-operator

minecraft-operator is a Kubernetes operator that runs Paper Minecraft servers and their plugins. This
project models the protocols of its controllers and the algorithms they call, and proves what they keep.
`dafny verify dfyconfig.toml` checks everything.

How the parts are modelled:

- A controller object, a store in the API server or a buffer that the source changes in place is a class
  whose methods are proved against functions on the old state. What those functions promise is proved as
  lemmas. Pure code is functions and lemmas.
- Every call to the API server, the network, RCON or a disk may fail at any time: a class holds a fault
  oracle that its methods consult. Clocks, registries, caches and parsers are parameters, and the proofs
  hold for all of them.
- Controllers that work on the same objects are interleaved step by step as a state machine. Reads may be
  stale, and a write fails when the object changed since it was read.
- A loop over a Go map may take any order, and so may the ordering of equal elements by the sort library.

The modules:

| file | about |
|---|---|
| `DeletionProgress.dfy`, `DeletionProtocol.dfy`, `DeletionEnds.dfy`, `DeletionLeftover.dfy` | the deletion of a plugin, as a pass of one controller and as a protocol of all, why it ends, and what an earlier deletion can leave behind |
| `VersionGate.dfy`, `ImageTags.dfy` | resolution of the Paper version, the downgrade gate, the status fed back through the image tag |
| `Semver.dfy`, `Versions.dfy` | section 11 of Semantic Versioning 2.0.0 and the comparisons built on it |
| `Solver.dfy`, `SearchExactness.dfy`, `CandidateUpdate.dfy` | the constraint solver, when its searches find the maximum, and how the server controller combines them |
| `Operations.dfy`, `BackupSession.dfy`, `UpdateSteps.dfy`, `UpdateOutcome.dfy` | RCON, the backup sequence and the update sequence as traces of attempts, and what is stored in the end |
| `BackupTriggers.dfy`, `Retention.dfy`, `MaintenanceWindow.dfy`, `StatusMerge.dfy` | cron triggers, snapshot retention, the window, the status write with retry |
| `ConfigEntries.dfy`, `ConfigPaths.dfy`, `ConfigScript.dfy`, `ConfigOrder.dfy`, `ConfigMeaning.dfy`, `ServerProperties.dfy` | config injection as a compiler to shell commands over a file tree |
| `HttpRoutes.dfy`, `PluginCache.dfy`, `KeyedLists.dfy` | route convergence, the TTL cache, the comparison of keyed lists |
| `Api.dfy`, `Text.dfy`, `Filters.dfy`, `Wrappers.dfy` | shared objects, facts and result types |

## Results that differ from what one may expect

These follow the code where its documentation or a natural reading says more. The lemmas named give the
condition under which the stronger statement holds, and most of them an input on which it fails.

- The solver's comments promise the maximum compatible version. With versions that do not parse it may
  return another one: `SearchExactness.PluginSearchIsMaximalIff` and `PaperSearchIsMaximalIff` say exactly
  when, `Solver.UnparseableVersionPreempts` gives a list. Versions of equal precedence may end up in any
  order there.
- The controller's compatibility check agrees with the solver's Paper choice exactly when every enabled
  override with versions lists the choice (`CandidateUpdate.ControllerAcceptsSolverChoiceIff`,
  `OverrideBlocksSolverChoice`).
- A version that is not over digits and dots is not read back from its own image, so after deploying a
  pre-release the gate no longer refuses a lower version (`VersionGate.LowerCandidateRefusedIff`,
  `PreReleaseHidesDowngrade`).
- The deployed version falls when an image is written from a stale copy of the status, even if every such
  pass stores its status. It never falls while each written copy's current version is at least the deployed
  one (`VersionGate.DeployedNeverDecreases`), that guard is exact (`WriteIsSafeIff`), and the code does not
  check it (`StaleCopyLowersDeployed`).
- Snapshots of one second may be deleted in any order, so the one created last can go
  (`Retention.SparedIff`, `TieLosesNewest`), and with a stale listing even the last one
  (`StaleTieLosesAll`; `LimitIsKept` says when this cannot be).
- A missing JAR may justify the removal of a finalizer although it was seen before the deletion, if an
  earlier deletion left its request on the server (`DeletionProtocol.FinalizerSafety`,
  `FirstDeletionSafety`); `DeletionLeftover.LeftoverRequestCounts` builds the run.
- The backup before an update hands the update a re-read copy of the server. An update that began as
  plugin-only then records a version that it never rolled out, exactly when that copy desires another
  version than its current one (`UpdateOutcome.RunUpdate`, `VersionGate.RefreshedCopyRecordsUndeployed`).
- Paths are compared as text, but the shell copies to files. Overrides of one plugin such as `config.yml`
  and `./config.yml`, or `a` and `a/b`, make the result depend on the order of a Go map
  (`ConfigMeaning.OverridesAgreeIff`, `SpellingsDependOnOrder`).
- A file that is only copied if it does not exist is overwritten when the target is a directory
  (`ConfigScript.IfNotExistsIntoDirectoryOverwrites`).
- The compatibility keys of the cache are ambiguous exactly when one project name starts with another one
  and a colon (`PluginCache.ProjectsCollideIff`).
- The list comparison is right for every first list exactly when the second list has unique keys
  (`KeyedLists.ComparisonIsRightIff`).
- The `server.properties` patch uses its keys as patterns, so it can remove a property whose name differs
  from `rcon.port` only where that has a dot (`ServerProperties.OtherPropertyKeptIff`,
  `WildcardLosesProperty`).
- After a conflict the stored current Paper version is the concurrent writer's, although the update
  succeeded (`StatusMerge.MergeMeaning`, `UpdateOutcome.UpdateAndStore`).

## Model

| member | source | states |
|---|---|---|
| DeletionProtocol.FinalizerSafety | internal/controller/plugin_controller.go:726-1017 | in every interleaving of plugin passes, update workers and other writers, with a lagging cache and conflicts: once the finalizer is gone, each listed server was, in a state of the store not older than the one its listing read, gone or without a recorded JAR, or a worker of that server removed its recorded JAR from both folders, or the request of that listing waited over ten minutes; only where an earlier deletion had left its request on the server may the missing JAR be older |
| DeletionProtocol.FirstDeletionSafety | internal/controller/plugin_controller.go:726-1017 | where no state before the listing carried the request, every reason, the removed JAR included, is as new as the listing |
| DeletionLeftover.LeftoverRequestCounts | internal/controller/update_controller.go:1119-1207 | that condition is needed: from every initial world whose cache shows the request of an earlier deletion on a server there is a run that lists the server and removes the finalizer while no reason as new as the listing exists |
| DeletionProtocol.EntriesWereListed | internal/controller/plugin_controller.go:781-816 | every entry ever on the list goes back to a listing of its server with the same request time, so the safety theorems cover all of them |
| DeletionProtocol.StepKeepsInv | internal/controller/plugin_controller.go:726-778 | every step of every participant keeps the protocol's invariant for each listing: stored list, stale copies and workers' findings are justified |
| DeletionProtocol.StepOfWorker | internal/controller/update_controller.go:1069-1207 | the Update worker's removal, re-read and conditional write keep the invariant |
| DeletionProtocol.RunKeepsInv | internal/controller/plugin_controller.go:726-1017 | for each listing the invariant holds in every reachable state |
| DeletionProtocol.ProgressOnlyAdvances | internal/controller/plugin_controller.go:781-849 | every entry carries its request time, and while the list is not empty no step adds or reopens an entry, so the number of open entries never grows |
| DeletionEnds.DeletionEndsFromReachableStates | internal/controller/plugin_controller.go:726-778 | from every reachable state in which the pass has read the stored, non-empty list, the cache is up to date and all open requests are older than the limit, the pass with working calls removes the finalizer within 7 + 3n steps for n entries |
| DeletionEnds.ExpiredDeletionEnds | internal/controller/plugin_controller.go:726-778 | the same from any point inside such a pass: its run exists and its length is bounded |
| DeletionEnds.StepComesCloser | internal/controller/plugin_controller.go:726-778 | each next step of such a pass is possible, keeps it on track and lowers the bound |
| DeletionProgress.PassCompletesIff | internal/controller/plugin_controller.go:823-990 | cleanup, marking and forced completion finish every entry exactly when no open one has a JAR on a living server and a request within the limit |
| DeletionProgress.AdvancesMeaning | internal/controller/plugin_controller.go:781-849 | along an advance no entry is new, done entries stay done, and open ones do not increase |
| DeletionProgress.AdvancesTransitive | internal/controller/plugin_controller.go:781-849 | advances compose over many writes |
| DeletionProgress.MarkedDoneEntries | internal/controller/plugin_controller.go:993-1017 | marking a JAR deleted changes at most entries of that server and is an advance |
| DeletionProgress.PluginReconciler.InitDeletionProgressIfNeeded | internal/controller/plugin_controller.go:781-816 | an existing list stays as it is, an empty one becomes one dated request per matched server |
| DeletionProgress.PluginReconciler.CleanupDeletedServers | internal/controller/plugin_controller.go:853-907 | drops only open entries of servers that no longer exist, and all of them when every lookup works; a failed lookup keeps the entry |
| DeletionProgress.PluginReconciler.MarkPluginForDeletionOnServers | internal/controller/plugin_controller.go:926-990 | on success an entry without a JAR to wait for is done and every other open entry's server has the plugin pending; on failure each entry is unchanged or rightly done, and a server is unchanged or has just the flag set |
| DeletionProgress.PluginReconciler.MarkJARAsDeleted | internal/controller/plugin_controller.go:993-1017 | the first entry of the server is done with the time, and stored if the write succeeds |
| DeletionProgress.PluginReconciler.ForceCompleteStaleDeletions | internal/controller/plugin_controller.go:823-839 | exactly the open entries older than the limit become done |
| DeletionProgress.PluginReconciler.AllJARsDeleted | internal/controller/plugin_controller.go:842-849 | true exactly when every entry is done |
| DeletionProgress.PluginReconciler.ReconcileDelete | internal/controller/plugin_controller.go:726-778 | a pass removes the finalizer only with every stored entry done; undisturbed and with working calls, exactly when no open entry has anything left to wait for |
| VersionGate.DowngradeCheckMeaning | internal/controller/papermcserver_controller.go:1028-1054 | the gate passes exactly: no or latest current version, a latest candidate, or a candidate of at least equal precedence |
| VersionGate.Resolution.UpdateDesiredVersion | internal/controller/papermcserver_controller.go:224-248 | the new status is that of the resolution function for each of the four strategies; a failure keeps the old desired version, and is an error only if there is none |
| VersionGate.Resolution.ResolveVersionOnlyMode | internal/controller/papermcserver_controller.go:1226-1271 | the search from the newest build down finds the newest published one behind the gate |
| VersionGate.Resolution.ResolvePinnedVersionBuild | internal/controller/papermcserver_controller.go:1274-1317 | the pinned build passes the gate and is published, and is blocked when it is known to be missing |
| VersionGate.Resolution.PassGate | internal/controller/papermcserver_controller.go:1028-1089 | the update is blocked on a downgrade and on an incompatible plugin, not on a failed comparison |
| VersionGate.StepKeepsNoDowngrade | internal/controller/papermcserver_controller.go:416-437 | every step of both controllers, of editors and of failures, stale reads and the copy that a backup hands back included, keeps: no status, stored or held, has a desired version below its current one |
| VersionGate.DesiredNeverBelowCurrent | internal/controller/papermcserver_controller.go:224-248 | in every reachable state, if both versions parse, desired is not below current |
| VersionGate.GroundedStep | internal/controller/papermcserver_controller.go:492-551 | an image written from a readable copy whose current version is not below the deployed one does not lower the deployed version |
| VersionGate.DeployedNeverDecreases | internal/controller/papermcserver_controller.go:492-551 | in every interleaving of both controllers, with stale reads, failures and conflicts: while each image is written from such an up-to-date copy, the deployed Paper version never decreases |
| VersionGate.WriteIsSafeIff | internal/controller/update_controller.go:768-809 | over a deployed version, an image written from a copy with a given current version is never lower, whatever the copy desires, exactly when the deployed version is not above that current version |
| VersionGate.StaleCopyLowersDeployed | internal/controller/update_controller.go:812-872 | for any two versions there is a run in which every pass that writes the image also stores its status, all images but one are written from up-to-date copies, and the stale copy of an update pass takes the deployed version back from the higher to the lower |
| VersionGate.RefreshedCopyRecordsUndeployed | internal/controller/backup_controller.go:504-545 | for any two versions there is a run without failures or image writes from stale copies, in which an update that began as plugin-only stores the higher version as current while the lower one stays deployed |
| VersionGate.OrderlyStep | internal/controller/papermcserver_controller.go:492-551 | a step of a run without overlapping passes is up to date, and keeps status, passes and image consistent |
| VersionGate.OrderlyRunsAreGrounded | internal/controller/papermcserver_controller.go:416-437 | runs without overlapping passes, in which a pass that changes the image stores what it detected, write every image from an up-to-date copy |
| VersionGate.LowerCandidateRefusedIff | internal/controller/papermcserver_controller.go:933-987 | once a version is deployed and read back, a lower candidate is refused exactly when the deployed version is over digits and dots |
| VersionGate.PreReleaseHidesDowngrade | internal/controller/papermcserver_controller.go:933-987 | after 1.21.9-pre3 is deployed and read back, 1.21.8 passes the gate |
| ImageTags.ImageRoundTrip | internal/controller/papermcserver_controller.go:933-987 | reading a rendered image gives back exactly the version and build when the version is over digits and dots and the build is not negative; of any other version without a slash it gives nothing, and a version with a slash is never read back |
| ImageTags.SplitRenderedTag | internal/controller/papermcserver_controller.go:608-617 | a rendered tag splits back into its version and build when the version is over digits and dots and the build is not negative, and into nothing otherwise |
| ImageTags.DecimalRoundTrip | internal/controller/update_controller.go:850-852 | the decimal text of a number reads back as that number |
| ImageTags.ReleasesMembers | internal/controller/papermcserver_controller.go:1129-1175 | the candidates for the latest version are exactly the tags in release form |
| ImageTags.FindLatestVersionFromTags | internal/controller/papermcserver_controller.go:1129-1175 | nothing exactly when no tag is a release; the first release if it does not parse; otherwise the latest of the releases that parse, none of them with a higher version or, at the same version, a higher build |
| ImageTags.LaterIsChoice | internal/controller/papermcserver_controller.go:1150-1169 | one more release keeps that characterization, whether it parses or not |
| ImageTags.LatestIsRelease | internal/controller/papermcserver_controller.go:1129-1175 | when equal precedence means equal spelling, the answer is one of the releases, version and build together |
| Semver.PrecedenceIsTotalOrder | pkg/version/comparator.go:35-47 | precedence by section 11 of Semantic Versioning 2.0.0 is a total order on versions |
| Versions.CompareIsOrderWithTop | pkg/version/compare.go:25-50 | the comparison decides exactly the comparable pairs, is antisymmetric and transitive on them, and has "latest" on top |
| Versions.FindMaxVersion | pkg/version/comparator.go:74-100 | the first of the greatest parseable versions; an error exactly when a non-empty list has none |
| Versions.FilterByUpdateDelay | pkg/version/comparator.go:52-70 | keeps, in order, exactly the versions released at least the delay ago, and everything for a zero delay |
| Versions.ContainsVersionMeaning | pkg/version/match.go:11-34 | a list accepts a version exactly when it names it or has a pattern over a stem of it |
| Solver.ExchangeSort | pkg/solver/simple_solver.go:240-277 | in place: a permutation, unparseable elements where they were, parseable ones in descending order |
| Solver.SortVersionsDesc | pkg/solver/simple_solver.go:240-257 | the sorted plugin versions are such an arrangement of the input |
| Solver.SortPaperVersionsDesc | pkg/solver/simple_solver.go:260-277 | the same for Paper versions |
| Solver.FirstOfArrangedIsMaximal | pkg/solver/simple_solver.go:106-128 | when the first compatible element of an arrangement parses, no compatible parseable element is greater |
| Solver.SearchIsMaximalIff | pkg/solver/simple_solver.go:171-188 | for an arranged list, the search finds the maximum for every possible set of compatible versions exactly when no unparseable version stands before a parseable one |
| SearchExactness.PluginSearchIsMaximalIff | pkg/solver/simple_solver.go:34-128 | for given plugin, servers and list with some serving parseable version: every answer, over all orders that versions of equal precedence may take, is the maximum exactly when each serving unparseable version has more parseable places before it than there are parseable versions that do not serve and that no serving one is above |
| SearchExactness.PaperSearchIsMaximalIff | pkg/solver/simple_solver.go:130-188 | the same condition for the Paper search under auto and latest, for given plugins and list, again over all orders of versions of equal precedence |
| SearchExactness.ShieldedIsMaximal | pkg/solver/simple_solver.go:106-128 | under that condition the search over any arrangement finds the maximum |
| SearchExactness.UnshieldedIsFound | pkg/solver/simple_solver.go:106-128 | without it some arrangement puts an unparseable version first |
| Solver.UnparseableVersionPreempts | pkg/solver/simple_solver.go:34-64 | a list on which the answer is an unparseable version although a parseable one is compatible |
| Solver.FindCompatiblePluginVersion | pkg/solver/simple_solver.go:106-128 | returns the first version that serves all servers, an error exactly when none does |
| Solver.FindBestPluginVersion | pkg/solver/simple_solver.go:37-103 | pinned versions first, else the first serving one of an arrangement of those released in time |
| Solver.PluginAnswerIsBest | pkg/solver/simple_solver.go:37-128 | unpinned: an error exactly when no released version serves all; otherwise the answer serves all, and no serving parseable version is above a parseable answer |
| Solver.IsPaperVersionCompatibleWithAllPlugins | pkg/solver/simple_solver.go:191-219 | true exactly when every plugin with cached versions has one that lists the Paper version |
| Solver.FindBestPaperVersion | pkg/solver/simple_solver.go:137-181 | the answer for each strategy: pinned, the first suitable of the arrangement, or the right error |
| Solver.PaperAnswerIsBest | pkg/solver/simple_solver.go:137-188 | auto and latest: an error exactly when no version suits all plugins; otherwise the answer suits all and no suitable parseable version is above it |
| CandidateUpdate.CheckAcceptsWhenNoneBlocks | internal/controller/papermcserver_controller.go:1723-1804 | the controller's check accepts exactly when no plugin blocks the candidate |
| CandidateUpdate.ControllerAcceptsSolverChoiceIff | internal/controller/papermcserver_controller.go:1723-1804 | the controller's check accepts the solver's Paper version exactly when each enabled, non-empty override lists it |
| CandidateUpdate.OverrideBlocksSolverChoice | internal/controller/papermcserver_controller.go:1760-1804 | a plugin whose override omits the version its cached list has: the solver's only answer is blocked by the check |
| CandidateUpdate.PaperChoiceServesPlugin | internal/controller/papermcserver_controller.go:1654-1716 | at the Paper version the first search chose, the second search succeeds for every unpinned plugin with versions, no delay and no override, with a version that fits |
| CandidateUpdate.BuildPluginVersionPairs | internal/controller/papermcserver_controller.go:1654-1716 | one pair per plugin with versions, in order: the solver's answer, or the first cached version when the solver fails |
| CandidateUpdate.FindVersionUpdate | internal/controller/papermcserver_controller.go:1551-1609 | a found update differs from the current version, suits every plugin, has its build, and its pairs never use the fallback for plainly searched plugins |
| StatusMerge.MergeMeaning | internal/controller/update_controller.go:977-991 | refs and their order are the concurrent writer's; only last update, conditions and three fields of shared refs are replaced |
| StatusMerge.MergeIdempotent | internal/controller/update_controller.go:977-991 | merging twice is merging once, and merging onto one's own status changes nothing |
| StatusMerge.ServerStore.MergeInto | internal/controller/update_controller.go:977-991 | the nested loops compute the merge |
| StatusMerge.ServerStore.PersistBackupStatus | internal/controller/backup_controller.go:504-545 | at most one write; the caller goes on with the re-read status and its resource version, or with its own copy when the re-read fails |
| StatusMerge.ServerStore.UpdateStatusWithRetry | internal/controller/update_controller.go:950-996 | at most three writes, also when re-reads are stale; success stored exactly once, either the whole status over the object that was read or the merge onto what the concurrent writer had stored |
| MaintenanceWindow.FindLastCronTrigger | internal/controller/update_controller.go:288-306 | terminates with the greatest trigger of the last seven days, or none |
| MaintenanceWindow.IsInMaintenanceWindow | internal/controller/update_controller.go:257-285 | true exactly when no window is configured or some trigger t has t <= now < t + 1h |
| MaintenanceWindow.GateUpdate | internal/controller/update_controller.go:130-240 | waits exactly while the release is younger than the delay, for exactly the rest of it, and applies only inside the window |
| Operations.Cluster.GracefulShutdown | pkg/rcon/client.go:93-147 | the server sees a prefix of warnings, save-all, stop, each only after the one before succeeded; success means all of it |
| Operations.Cluster.SendCommand | pkg/rcon/client.go:74-89 | nothing is sent without a connection or on a cancelled context |
| Operations.Cluster.Close | pkg/rcon/client.go:150-162 | closes at most once and leaves no connection even when closing fails |
| BackupSession.PreSnapshotHook | pkg/backup/hooks.go:23-46 | success means a completed save-all and then save-off |
| BackupSession.PostSnapshotHook | pkg/backup/hooks.go:54-63 | attempts save-on, that and nothing else, whatever was cancelled |
| BackupSession.OnMeansRestored | pkg/backup/hooks.go:54-63 | in a trace that ends with auto-save on, every save-all or save-off attempt is followed by a save-on attempt before RCON is closed |
| BackupSession.QuietMeansSaved | pkg/backup/hooks.go:23-46 | a quiet server has completed save-all and then save-off, with no save-on since |
| BackupSession.DisciplineMeaning | internal/controller/backup_controller.go:334-502 | the trace discipline means restored auto-save, quiet snapshots and honest records |
| BackupSession.PerformBackup | internal/controller/backup_controller.go:334-502 | on every path auto-save is restored before closing, snapshots are requested in a quiet server, and a success is recorded exactly when the backup succeeds, with a created snapshot |
| UpdateSteps.BackupBeforeUpdate | internal/controller/update_controller.go:675-703 | success means that a required backup created its snapshot; the update goes on with the copy the backup re-read, or with its own if there was no backup |
| UpdateSteps.DeleteMarkedPlugins | internal/controller/update_controller.go:1119-1207 | only marked plugins' recorded JARs are removed; success means all were removed and reported |
| UpdateSteps.ApplyPluginUpdates | internal/controller/update_controller.go:472-568 | success means every needed download completed and its JAR was recorded; an error has a named cause, and other entries are unchanged |
| UpdateSteps.PerformCombinedUpdate | internal/controller/update_controller.go:812-872 | the trace on every path consists of the ordered parts, each entered only after the ones before succeeded; plugins, versions and image are those of the re-read copy |
| UpdateSteps.PerformPluginOnlyUpdate | internal/controller/update_controller.go:706-765 | the same, except that a failed shutdown does not stop the restart |
| UpdateSteps.CombinedUpdateOrder | internal/controller/update_controller.go:812-872 | whenever the image is written or the pod deleted, backup, removals and downloads had succeeded, the world was saved and the server stopped, and the image was written before the pod goes |
| UpdateSteps.PluginUpdateOrder | internal/controller/update_controller.go:706-765 | the pod is deleted only after backup, removals and downloads succeeded |
| UpdateSteps.ShutDownSavesAndStops | internal/controller/update_controller.go:876-915 | a completed shutdown contains a successful save-all before a successful stop |
| UpdateOutcome.UpdateServerStatus | internal/controller/update_controller.go:918-946 | only success moves the current Paper and plugin versions to the desired and resolved ones |
| UpdateOutcome.RunUpdate | internal/controller/update_controller.go:165-213 | the current Paper version becomes the desired one of the copy that the backup handed back, exactly on success; a success changes it without having written the image exactly when the update began as plugin-only and that copy desired another version |
| UpdateOutcome.UpdateAndStore | internal/controller/update_controller.go:165-213 | stored without a conflict, the current version is the re-read copy's desired one on success, with the same exact case of a change that was not rolled out, and its current one on failure; after a conflict it is the concurrent writer's, also on success; a failed write stores nothing beyond the backup's record |
| BackupTriggers.NoTriggerIsLost | internal/controller/backup_controller.go:92-239 | in every run a recorded trigger stays or is replaced by a later one unless a backup started at or after it succeeded or server, backups or schedule were gone meanwhile |
| BackupTriggers.BackupReconciler.Reconcile | internal/controller/backup_controller.go:92-239 | a pass drops a trigger only if unwanted or served by a backup of that pass, keeps jobs and entries one to one, and when it finishes leaves no unserved trigger |
| BackupTriggers.BackupReconciler.ManageBackupCronSchedule | internal/controller/backup_controller.go:644-694 | afterwards the server has a job for exactly this schedule, or none and the schedule is invalid; other servers' jobs are untouched |
| BackupTriggers.BackupReconciler.ShouldRunScheduledBackup | internal/controller/backup_controller.go:724-746 | true exactly when a trigger is recorded that no recorded successful backup serves |
| BackupTriggers.BackupReconciler.ShouldBackupNow | internal/controller/backup_controller.go:756-785 | true exactly for a readable annotation within the age limit on both sides |
| BackupTriggers.BackupReconciler.Fire | internal/controller/backup_controller.go:668-674 | a firing records the clock under the key of its own job and changes nothing else |
| Retention.SnapshotStore.DeleteOldSnapshots | pkg/backup/snapshotter.go:124-156 | deletes a prefix of an oldest-first order of what was listed, also when the listing is stale: all surplus ones on success and fewer on failure |
| Retention.RetentionConserves | pkg/backup/snapshotter.go:124-156 | with an up-to-date listing: deleted plus remaining is the original set, nothing left is older than anything deleted, and on success min(n, max) remain |
| Retention.SparedIff | pkg/backup/snapshotter.go:124-156 | every possible pass with an up-to-date listing spares a snapshot exactly when at most maxCount snapshots are not older than it, ties included |
| Retention.TieLosesNewest | pkg/backup/snapshotter.go:124-156 | with two snapshots of one second and a limit of one, the one created last can be deleted |
| Retention.HistoryKeepsNewest | internal/controller/backup_controller.go:461-483 | over any run of backups and passes, with changing limits, stale listings, failures and equal creation times, nothing stored is older than anything deleted |
| Retention.RecentSurvives | internal/controller/backup_controller.go:461-483 | over any such run with limits of at least maxCount, a snapshot is kept while at most maxCount of those ever created are not older than it |
| Retention.NewestSurvives | internal/controller/backup_controller.go:461-483 | with a positive limit a snapshot strictly newer than all others survives every run, whatever ties the others have |
| Retention.LimitIsKept | internal/controller/backup_controller.go:461-483 | no such run leaves fewer than min(created, maxCount) snapshots if creation times differ or the listings are up to date |
| Retention.StaleTieLosesAll | pkg/backup/snapshotter.go:124-156 | without both: two snapshots of one second, a limit of one and a second pass with a stale listing leave nothing |
| ConfigScript.RunIsIdempotent | internal/controller/config_injector.go:357-380 | running the script twice is running it once, for every list of entries and every file tree, also when it fails and when targets are directories |
| ConfigScript.IfNotExistsNeverOverwrites | internal/controller/config_injector.go:357-380 | an existing file that only ifNotExists entries aim at never changes, unless an entry can copy it into a directory |
| ConfigScript.IfNotExistsIntoDirectoryOverwrites | internal/controller/config_injector.go:357-380 | where the target of such an entry is a directory, the file in it is overwritten |
| ConfigOrder.RunSucceedsIff | internal/controller/config_injector.go:357-380 | entries whose files are apart succeed exactly when each can be carried out on its own |
| ConfigOrder.OtherFilesUntouched | internal/controller/config_injector.go:357-380 | a file that no entry aims at or can copy into a directory is as before, also when the script fails |
| ConfigOrder.OrdersAgreeIff | internal/controller/config_injector.go:109-136 | for entries with given targets, all orders have the same outcome on every file tree, whatever is copied under which policy, exactly when no target is in the way of the directory of another and no two can name the same file |
| ConfigOrder.PermutedEquivalent | internal/controller/config_injector.go:109-136 | entries of which any two can be swapped have the same outcome in every order |
| ConfigOrder.AppendEquivalent | internal/controller/config_injector.go:116-126 | lists made of parts with the same outcome have the same outcome, also where the parts clash |
| ConfigOrder.SoleEntryDecides | internal/controller/config_injector.go:357-380 | an entry that all others are apart from decides its file, whatever the others do |
| ConfigScript.RenderConfigScript | internal/controller/config_injector.go:357-380 | the loop renders the commands of every entry in order |
| ConfigScript.RenderKeepsMeaning | internal/controller/config_injector.go:357-380 | the rendered shell commands, `mkdir -p` and `cp` over a tree of files and directories, do what the entries mean, failures included |
| ConfigEntries.BuildServerOverridesMap | internal/controller/config_injector.go:192-208 | the map holds the last override of each plugin and path, and every plugin named |
| ConfigEntries.ResolvePluginConfigs | internal/controller/config_injector.go:248-292 | the defaults in order, each replaced by its override, and then exactly the other overrides; distinct target texts for distinct default paths |
| ConfigEntries.CollectPluginConfigEntries | internal/controller/config_injector.go:212-245 | one such block per matched plugin, in order, and so exactly the files they want; an overridden plugin is consumed exactly when it is matched |
| ConfigEntries.CollectUnmatchedOverrideEntries | internal/controller/config_injector.go:296-320 | exactly the overrides of plugins that are not matched, each plugin with a warning |
| ConfigEntries.CollectServerConfigEntries | internal/controller/config_injector.go:323-354 | exactly the server's own files |
| ConfigEntries.BuildConfigEntries | internal/controller/config_injector.go:109-136 | whatever the map order: the blocks in their fixed order, exactly the wanted entries, distinct target texts when the specs are well-formed, and every ConfigMap used is mounted |
| ConfigEntries.PluginTargetsApart | internal/controller/config_injector.go:547-574 | slash-free directories: plugin targets are equal only for the same directory and path |
| ConfigEntries.PartsApart | internal/controller/config_injector.go:109-136 | well-formed specs: plugin files, files of unmatched plugins and server files never have the same target text |
| ConfigMeaning.EveryOrderSameResult | internal/controller/config_injector.go:109-136 | every order of the map loops gives the same outcome on every file tree, also where files clash with defaults, server files or other plugins, if names of unmatched plugins have no slash and the overrides copied in map order do not clash |
| ConfigMeaning.OverridesAgreeIff | internal/controller/config_injector.go:264-281 | for overrides of one plugin with given paths, all orders of the map have the same outcome on every file tree, whatever is copied under which policy, exactly when no two of the paths clash |
| ConfigMeaning.SpellingsDependOnOrder | internal/controller/config_injector.go:264-281 | `config.yml` beside `./config.yml`, and `a` beside `a/b`: the order decides the outcome |
| ConfigMeaning.SlashedNamesDependOnOrder | internal/controller/config_injector.go:296-320 | two unmatched plugins with a slash in one name that aim at one file, and whose order decides its content |
| ConfigMeaning.PluginFileMeaning | internal/controller/config_injector.go:212-281 | after a successful script a path of a matched plugin that all other wanted files are apart from holds the override if there is one, else the default, else what it held before; where the path is a directory, the file is the one in it |
| ConfigMeaning.CleanSpecsAreApart | internal/controller/config_injector.go:547-574 | with distinct names as directories, paths that are incomparable when cleaned, and no server file below plugins/, every file of a matched plugin is apart from all others |
| ServerProperties.InjectionHoldsAndIsIdempotent | internal/controller/config_injector.go:141-189 | each injected setting is what a reader of the file finds, and injecting again changes nothing |
| ServerProperties.OtherPropertyKeptIff | internal/controller/config_injector.go:157-167 | patching one key keeps another property in every file exactly when no line of that property can match the key's pattern |
| ServerProperties.OtherPropertiesKept | internal/controller/config_injector.go:157-186 | a property that no pattern can match keeps its value through the whole injection |
| ServerProperties.WildcardLosesProperty | internal/controller/config_injector.go:157-167 | a file in which the patch of rcon.port removes another property |
| HttpRoutes.DesiredMeaning | internal/controller/gateway_routes.go:312-356 | under each name of a valid entry there is the route of the last valid entry with that name, to its endpoint's port, and under other names nothing |
| HttpRoutes.BuildDesiredHttpRoutes | internal/controller/gateway_routes.go:312-356 | the loop computes the desired map, and reports an issue exactly when some entry is invalid |
| HttpRoutes.Namespace.ListOwnedHttpRoutes | internal/controller/gateway_routes.go:360-387 | exactly the labelled routes that the server owns |
| HttpRoutes.Namespace.ApplyHttpRouteChanges | internal/controller/gateway_routes.go:390-445 | success means every desired route exists as wanted; routes that are not both ours and desired are untouched; nothing is written when all match |
| HttpRoutes.Namespace.DeleteOrphanedHttpRoutes | internal/controller/gateway_routes.go:448-464 | removes only existing routes that are no longer desired, and all of them on success |
| HttpRoutes.Namespace.ReconcileHttpRoutes | internal/controller/gateway_routes.go:258-282 | an error-free pass converges, other owners' routes are never touched, and a pass over converged routes writes nothing |
| HttpRoutes.BuildServicePorts | internal/controller/papermcserver_controller.go:820-884 | the Service offers exactly the server's own and all endpoint ports, none twice unless RCON is on the game port |
| HttpRoutes.RoutesLeadToServicePorts | internal/controller/gateway_routes.go:478-550 | every desired route leads to a port that the server's Service offers |
| PluginCache.KeyIsInjective | pkg/plugins/cache.go:39-75 | for projects without colons the key determines the request |
| PluginCache.ProjectsCollideIff | pkg/plugins/cache.go:70-75 | two projects can share a compatibility key exactly when one name starts with the other and a colon |
| PluginCache.ClearsOwnEntriesOnly | pkg/plugins/cache.go:113-127 | for projects without colons clearing hits the project's entries and nobody else's |
| PluginCache.ClearsForeignEntriesIff | pkg/plugins/cache.go:113-127 | clearing always hits all own entries, and can hit another project's exactly when the names collide |
| PluginCache.CachedPluginClient.FreshIsRecorded | pkg/plugins/cache.go:38-103 | a fresh entry is an answer the client gave less than one TTL ago, for the same request if names have no colons |
| PluginCache.CachedPluginClient.GetVersions | pkg/plugins/cache.go:38-67 | a fresh entry answers with what the client said for this very project; otherwise the client is asked once and its answer kept; a failure changes nothing |
| PluginCache.CachedPluginClient.GetCompatibility | pkg/plugins/cache.go:70-103 | the same for a version, up to colliding names |
| PluginCache.CachedPluginClient.ClearProject | pkg/plugins/cache.go:113-127 | removes exactly the project's keys, in any order of the map |
| KeyedLists.ComparedMeansSameItems | internal/controller/papermcserver_controller.go:1944-1997 | with unique keys in the second list: true exactly when both hold the same items in any order |
| KeyedLists.ComparisonIsRightIff | internal/controller/papermcserver_controller.go:1944-1997 | the comparison is right for every first list exactly when the second has unique keys |
| KeyedLists.ComparedIsEquivalence | internal/controller/papermcserver_controller.go:1944-1997 | reflexive, symmetric and transitive on lists with unique keys |
| KeyedLists.ConditionsEqual | internal/controller/papermcserver_controller.go:1944-1966 | with unique types: true exactly when both lists hold the same status, reason and message per type |
| KeyedLists.PluginStatusSliceEqual | internal/controller/papermcserver_controller.go:1970-1997 | with unique references in slash-free namespaces: true exactly when both lists hold the same plugin statuses |

## Left out

- The Kubernetes client, watches and caches: objects are a versioned store with compare-and-set writes, reads may be stale. Server-side defaulting, owner reference internals and CRD installation are not modelled.
- A status write that changes nothing counts as a change of the resource version in the models, although the API server keeps it.
- The semantic version parser is a parameter: any parser that rejects the empty string and "latest" and accepts only characters of the grammar. Its order is section 11 of the standard.
- The cron parser and calendar arithmetic: a schedule is its next-trigger function. A schedule for which the library returns the zero time is outside the window theorems.
- SHA-256 digests: the suffix of a name that is too long is a parameter, so no claim is made that truncated names are distinct. HTTPRoute names are not claimed to be unique either: a later entry of the same name replaces an earlier one.
- The network: Hangar, Paper and registry clients, pod exec, RCON sockets, JAR downloads and their checksums are nondeterministic answers.
- VersionGate.DeployedNeverDecreases: says nothing about outside edits of the StatefulSet and compares versions without builds, because the code guards neither.
- MaintenanceWindow.GateUpdate: gates the Update controller only, as in the code; the server controller writes the image without asking.
- BackupTriggers.NoTriggerIsLost: passes and firings are atomic. A firing during a running backup is dropped by the code and is not covered. Of the per-server lock only this atomicity is kept.
- UpdateOutcome.RunUpdate: the aliasing of the status slice and the conditions set around the update are not modelled; plugin statuses are values.
- DeletionProgress.PluginReconciler.ReconcileDelete: assumes that no server is listed twice, which the object store guarantees for the matched servers.
- ImageTags.ImageRoundTrip: image references are single-line, since the source's pattern stops at a line break.
- ConfigScript.RenderKeepsMeaning: shell quoting, symbolic links and permissions are not modelled. Admission rejects `..` in every path (api/v1beta1/plugin_webhook.go:306-309), so cleaning a path only drops empty segments and dots.
- Retention.RecentSurvives: snapshots differ from each other, a pass is atomic towards backups of its server, and the sort is any oldest-first order.
- ConfigMeaning.EveryOrderSameResult: names of unmatched plugins must be free of slashes, which admission demands (api/v1beta1/papermcserver_webhook.go:236-240, api/v1beta1/plugin_webhook.go:276-282).
- DeletionProtocol.FinalizerSafety: both controllers read servers from one cache that never goes back, as the manager's shared client does; a listing is one read of that cache.
- ServerProperties.InjectionHoldsAndIsIdempotent: the file is a list of lines and a value is plain text; sed replacement characters and a missing final line break are not modelled.
- HttpRoutes.Namespace.UpdateHttpRouteIfChanged: of owner references only the owner set and the controlling owner are kept.
- TCP and UDP routes, network policies, pod templates, resource requests, labels of other objects, the web UI, REST handlers, metrics, logging and the admission webhooks.
- The checks of a pinned plugin version against the cache when a server's plugin is resolved, and the search for a newer build of the same version: they add only easy members.
