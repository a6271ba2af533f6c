# Syncrules: a verified model of the sync engine

Syncrules keeps two endpoints (directory trees on disk or on Google Drive) in step. A *rule* names a source and a
target endpoint, a mode (one-way push, one-way pull, two-way), ignore patterns and a conflict strategy. A run lists
both endpoints, compares them path by path, plans a list of actions, sorts it, and executes it one action at a time,
stopping at the first error or cancellation. A lock file keeps concurrent runs apart, a scheduler repeats the runs,
and the Drive adapter caches folder IDs.

The model follows that pipeline end to end and adds the stateful parts around it.

- `Domain`, `Paths`, `Diff`, `Conflict`, `Ignore`: entities, path ancestry and order, comparison, conflict resolution,
  ignore patterns.
- `PlannerSpec`, `Planner`, `Decisions`: what a plan must be (a sorted list of per-path decisions), the loops and the
  in-place sort that produce it, and what it says about each path, in which order, told by the listings alone.
- `Trees`, `Adapter`: directory trees (`map` from path to file or directory) and the local adapter's operations.
- `Walk`, `Executor`: the pruned recursive listing and planning from two stores.
- `Execution`, `Sync`, `Resume`, `TwoWaySync`, `Duality`: the meaning of running a plan and the theorems about it.
- `Progress`, `Service`: the execution loop with its counters and what the progress callback sees, under the lock, and
  one run of a rule from local stores to local stores.
- `LockProtocol`, `FileLocks`: the lock file under arbitrary interleaving and crashes, and its methods run without
  interleaving, shown to agree with the protocol.
- `DriveItems`, `DriveTree`, `Drive`: remote items that know their parents, the directory tree a folder shows, and the
  adapter with its path-to-ID cache.
- `DriveRun`, `DriveResume`, `DriveSync`: planned runs with Drive on one side, on trees and with the adapter's cache,
  planning again after an interruption, and one run of a rule from listing to the end.
- `Checksum`, `Escape`, `Scheduler`, `Config`, `Daemon`: streaming hash, query quoting, the scheduler's goroutines,
  configuration lookups, and the records that attempts at rules leave over many ticks.

How the main theorems are put. `After(plan, k, s, stamp)` runs the first `k` actions on the pair of trees `s`; `stamp`
gives each written path the time its store puts on it, whatever it is. `Applied` puts each action's effect at its own
path and changes nothing else. `Execution.RunExact` shows that a run is exactly `Applied` up to the first action that
could not succeed, and that which action this is was decided by the trees the plan was made from. Everything else
about runs is read off that.

`Execution`, `Sync`, `Resume`, `TwoWaySync`, `Duality` and `Service` are about two local stores: `Execute` uses the local
adapter's operations. Drive differs in three ways.

- It deletes whole subtrees. Two-way, or with Drive on the sending side, that never happens
  (`DriveRun.DriveNeverSweeps`); one-way onto Drive, `DriveRun.OneWayOntoDrive` has the success condition and the result.
- Where a file stands above a directory to be made, a local store fails. Drive's query for folders does not find the
  file, so unless the cache holds its ID a folder of the same name is made beside it, after which a lookup may find
  either. `Drive.DriveAdapter.Mkdir` has the exact condition for one call and `DriveRun.RunOnDrive` for a whole run; a run
  is not followed beyond that point. A write makes no such folder: it looks the path up first, so the file's ID is known
  and the service refuses what should go below it.
- The adapter's path-to-ID cache is shared by all rules of an endpoint and lives as long as the process, so a run starts
  with whatever keys other rules have left. Up to the first action at or below a path with a wrong key the run goes as
  specified (`DriveRun.DistrustedIsUnseen` with `DriveRun.RunOnDrive`, which also has the exact condition for a cache
  that was right to be right afterwards). Through the key of an item that is gone, copies and deletions fail, a directory passes for
  made, and the key stays (`DriveRun.DriveAction`).

Parameters in place of code that is not modelled: the glob matcher and the path separator (`Ignore.Platform`), each
endpoint's checksums (`Sums`), the hash fold (`Checksum.Hash`), the clocks (`stamp`, `now`), the set of dead
processes, the duration parser, and, for histories over many ticks, whatever happens to the trees, to the lock file and
to other processes between two ticks (`change` and `locks` of `Daemon.RunTicks`).

Hypotheses on trees (`Execution.Sound`): everything above an entry is a directory, no entry's name ends in
`.syncrules.tmp`, and nothing outside the run changes the trees between planning and the end of the run. On Drive,
siblings have different names at the start, paths are as `path.Clean` leaves them (`DriveTree.Clean`) and, where it is
listed, every item's name can be a part of such a path (`DriveTree.Tidy`).

Where the code and its documentation differ, the model follows the code:

- The usage guide says a one-way target fully mirrors the source (docs/usage.md:301). A run between local stores fails
  instead when a file on the receiving side stands above a path to be sent, a directory to be removed holds an ignored
  entry, or a path to be changed is refused by the adapters; it leaves type mismatches standing; and it keeps a file
  whose size and time agree, or whose size agrees while both checksums are missing. `Sync.OneWayMirror` states the exact
  success condition and the exact result. Onto Drive, a directory holding ignored entries is removed together with them:
  they all survive if and only if no directory to be removed holds one.
- The adapters mean to refuse paths that leave their root, but they refuse every path whose text starts with `..`, so
  also a top-level name such as `..data` (internal/adapter/local/local.go:69-77). Such a file is listed without a local
  checksum and its copy or deletion fails (`Sync.RefusedNameFails`); such a directory makes planning fail
  (`Walk.ListAllFiles`).
- Planning again after a run finds nothing to do only if every copy is then taken for identical. That holds for two
  endpoints with one checksum function and fails for SHA-256 against MD5. `Resume.ReplanExact` has the exact condition
  and `Resume.CopyAsksAgain` when a copied file is planned again.
- The progress callback is meant to see a growing count of bytes. A two-way copy from target to source announces the
  source's size while the target's bytes are counted as they are read, so the count goes back when the target's version
  is newer and longer (`Service.ReverseCopyOverruns`); it is in order exactly when no action moves more than it announced
  (`Service.ExecuteSync`), and always in one-way runs (`Service.SyncRule`).
- A stale lock is meant to be recovered when its process is gone. A process that dies between creating the lock file
  and writing its record leaves a file nobody ever recovers (`LockProtocol.HalfWrittenIsForever`), and reading a stale
  record and removing it are two steps, so exclusion needs at most one instance between them
  (`LockProtocol.LockIsExclusive`, `LockProtocol.TwoRemoversBreakExclusion`).
- The Drive adapter's `Delete` drops one key from the cache while the service deletes a whole subtree. The cache stays
  right exactly when it held no key below the deleted path (`Drive.DriveAdapter.Delete`; `Drive.StaleKey` breaks it). In
  planned runs what is not ignored below a deleted path has been deleted, and its key dropped, before; but another rule
  of the endpoint may have looked up what this one ignores. So a cache that was right stays right if and only if it held
  no key of an ignored path below an entry the run removed (`DriveRun.RunOnDrive`); `DriveRun.SharedAdapterCase` is such a
  case, and `DriveRun.SweptOnlyIfHeld` and `DriveRun.NothingSweptUnseen` say when there is none. The rule that had looked
  the path up then fails at it until the process ends, since no operation on a path drops its stale key.
- The Drive adapter's `Mkdir` means to reuse what is there. A file at the path passes for the folder once its ID is
  known, and where a file not known to the cache is in the way a second item of its name is made
  (`Drive.DriveAdapter.Mkdir`).

## Model

| member | source | states |
|---|---|---|
| Sync.OneWayMirror | internal/core/planner/planner.go:36-119 | between local stores a one-way run succeeds if and only if no file blocks a path to be sent, no directory to be removed holds an ignored entry and no path to be changed is refused; the sending tree never changes; on success the receiving tree has exactly the sent paths, types and contents, with reported mismatches, files taken for identical and ignored paths as they were |
| Sync.OneWayEnabled | internal/core/planner/planner.go:100-112 | every action of a one-way plan can succeed if and only if nothing is blocked, no directory to be removed is held by an ignored entry and no path to be changed is refused |
| Sync.NothingDenied | internal/adapter/local/local.go:69-77 | a plan has an action on a refused path if and only if a refused path is on one side only, or has files on both that are told apart and, two-way, a winner |
| Sync.UnequalMutates | internal/core/planner/planner.go:43-112 | a path gets an action that changes a tree exactly when one side lacks it, or both have files that are told apart and, two-way, the strategy has a winner |
| Sync.RefusedNameFails | internal/adapter/local/local.go:74-77 | a source file named "..foo" is planned as a copy and the run fails without changing anything |
| Sync.MirrorAt | internal/core/planner/planner.go:43-112 | what one path of the receiving tree holds after all actions of a one-way plan |
| Sync.SenderUntouched | internal/service/sync.go:265-273 | at every prefix of a one-way run the tree that is read from is unchanged |
| Sync.PlannedGrounded | internal/core/planner/planner.go:225-250 | every plan, in every mode, acts on distinct non-ignored paths, finds what it was planned for, makes each missing parent before what is below it and deletes everything not ignored below a directory before the directory |
| Sync.PlannedActionGrounded | internal/core/planner/planner.go:137-210 | what each planned action found on the two sides, and that a two-way plan never deletes |
| Sync.ParentPlanned | internal/core/planner/planner.go:50-58 | a directory missing above a created path has its own Mkdir, sorted earlier |
| Sync.ChildPlanned | internal/core/planner/planner.go:239-245 | everything not ignored below a deleted directory has its own Delete, sorted earlier |
| Sync.SoundThroughout | internal/service/sync.go:219-229 | both trees stay well formed through every run, failed or cut short |
| Execution.StepExact | internal/service/sync.go:275-316 | between local stores each action has exactly its own effect or fails leaving both trees alone, and which of the two was decided when planning |
| Execution.CreateStep | internal/adapter/local/local.go:151-189 | a Copy or Mkdir at its turn creates nothing but its own path, and fails exactly when its path is refused or a file stands above it |
| Execution.DeleteStep | internal/adapter/local/local.go:192-200 | a Delete at its turn on a local store removes exactly its path, and fails exactly when its path is refused or an ignored entry is below it |
| Execution.RunExact | internal/service/sync.go:219-229 | the exact trees and outcome of a run between local stores cut after any number of actions |
| Execution.RunSucceeds | internal/service/sync.go:226-229 | a run between local stores succeeds if and only if every action could, judged by the original trees |
| Execution.DeleteFindsEmpty | internal/core/planner/planner.go:239-245 | when a deletion that can succeed on a local store has its turn nothing is left below its path |
| Resume.ReplanExact | internal/core/rule/executor.go:32-75 | planning again after stopping anywhere gives exactly the unfinished rest plus the conflicts and skips already reported, if and only if every completed copy settled |
| Resume.InterruptedRunResumes | internal/service/sync.go:219-229 | an interrupted run whose executed copies settled, planned and run again, ends in the same trees with the same outcome as the uninterrupted run |
| Resume.RestIsPlan | internal/core/planner/planner.go:36-218 | the rest of a plan is the plan for the state reached |
| Resume.DecideDone | internal/core/diff/diff.go:61-97 | a path whose action is done asks for nothing more exactly when its copy settled |
| Resume.DecideSameKind | internal/core/diff/diff.go:59-101 | two present entries of one type ask for nothing exactly when sizes agree and times or checksums agree |
| Resume.SharedSettles | internal/adapter/local/local.go:110-119 | with one checksum function on both endpoints every copy settles, whatever times the stores assign |
| Resume.CopyAsksAgain | internal/adapter/gdrive/gdrive.go:507-513 | in any run, an executed copy is planned again if and only if the store did not keep the time and the two endpoints report different checksums for the content |
| Resume.OneFileAsksAgain | internal/adapter/gdrive/gdrive.go:507-513 | the smallest such case: one pushed file and two checksum functions |
| TwoWaySync.TwoWaySafe | internal/core/planner/planner.go:145-210 | at every prefix of a two-way run no path has vanished, ignored paths are unchanged, new paths are copies of the other side's, and bytes changed only where the versions were told apart, to the strategy's winner |
| TwoWaySync.WinnerIsOnBothSides | internal/core/conflict/resolver.go:34-127 | after a complete two-way run over two versions of a file that differ by size, or by time and checksum: under keep_remote both sides have the source's bytes, under keep_newest those of the later time unless the checksums agree or the times do, and otherwise each side is as before |
| TwoWaySync.TwoWaySucceeds | internal/core/planner/planner.go:123-218 | between local stores a two-way run succeeds if and only if neither side has a file above something the other side sends and no path to be changed is refused |
| TwoWaySync.TwoWayUnion | internal/core/planner/planner.go:129-135 | a complete two-way run gives both sides the union of the non-ignored paths |
| TwoWaySync.TwoWayFixpoint | internal/core/conflict/resolver.go:34-127 | after a complete two-way run, planning again yields exactly the conflicts and skips already reported and no other action, under every strategy |
| Duality.PullIsPush | internal/core/rule/executor.go:58-64 | a pull's plan is the push's with the endpoints exchanged, and so are the trees at every point of the run |
| Duality.KeepNewestSymmetric | internal/core/conflict/resolver.go:58-115 | under keep_newest, exchanging the endpoints gives the same actions in the same order with directions turned, and exchanged trees at every point |
| Diff.CompareSymmetric | internal/core/diff/diff.go:40-106 | the comparison does not depend on which side is the source |
| Diff.ComparedModified | internal/core/diff/diff.go:59-101 | two files are told apart exactly when sizes differ, or times and checksums both differ |
| Diff.ComparedPresence | internal/core/diff/diff.go:40-58 | which side alone has the file, and that anything but two files counts as modified |
| Conflict.ResolveFromPlanner | internal/core/conflict/resolver.go:22-128 | called for two differing files, the resolver copies exactly in the winner's direction, skips exactly when keeping local or when checksums agree, and never takes its nil or its same-time-and-size branch |
| PlannerSpec.PlanDeterministic | internal/core/planner/planner.go:42-115 | two plans for the same listings and policy are equal, so neither map order nor an unstable sort shows |
| PlannerSpec.PathsDistinct | internal/core/planner/planner.go:137-214 | each path yields at most one action |
| Decisions.MismatchIsReported | internal/core/planner/planner.go:68-78 | in every plan, in every mode, a path with different types on the two sides that is not ignored has exactly one action, a conflict |
| Decisions.MismatchIsListed | internal/core/planner/planner.go:338-358 | and it is in the finished plan's conflict list |
| Decisions.ConflictsListed | internal/core/planner/planner.go:338-358 | the conflict list holds the plan's conflicts and nothing else |
| Decisions.OneWayKinds | internal/core/planner/planner.go:43-112 | one-way, from the listings alone: a directory is made exactly where only the sender has one, a file copied exactly where only the sender has it or two files are told apart by size or by time and checksum, an entry deleted exactly where only the receiver has it, a conflict reported exactly where the types differ, and nothing is skipped |
| Decisions.OneWayShows | internal/core/planner/planner.go:50-112 | what a one-way action shows: its direction, what was listed on the two sides, and which reason goes with what |
| Decisions.TwoWayAdds | internal/core/planner/planner.go:145-182 | two-way, what only one side has goes to the other in its one action |
| Decisions.TwoWayKinds | internal/core/conflict/resolver.go:34-127 | two-way, for a path on both sides: exactly when each strategy copies, and which way, skips, or reports a conflict |
| Decisions.TwoWayShows | internal/core/conflict/resolver.go:34-127 | what a two-way action shows, and which reason goes with which finding |
| Decisions.OrderOfActions | internal/core/planner/planner.go:220-268 | of two actions of a plan the earlier is of the same or an earlier kind (directories, copies, deletions, conflicts, skips); within a kind the number of separators does not go down, or up for deletions; at one depth the earlier path has ended or has the smaller character where the two first differ |
| Decisions.StatsCount | internal/core/planner/planner.go:338-358 | each counter is the number of positions that hold its kind |
| Decisions.StatsGrow | internal/core/planner/planner.go:344-356 | a copy adds the size listed for the source, or else for the target, and nothing else adds bytes; conflicts are listed in the order of the actions |
| Decisions.PolicyIsRule | internal/core/rule/executor.go:56-70 | planning goes by the rule's own mode, strategy and patterns |
| PlannerSpec.LessStrict | internal/core/planner/planner.go:226-249 | the comparator is irreflexive and asymmetric |
| PlannerSpec.LessTransitive | internal/core/planner/planner.go:226-249 | the comparator is transitive |
| PlannerSpec.LessTotal | internal/core/planner/planner.go:226-249 | the comparator orders any two actions on different paths |
| PlannerSpec.SortedUnique | internal/core/planner/planner.go:225-250 | a strictly sorted list is determined by its members |
| PlannerSpec.PhasesInOrder | internal/core/planner/planner.go:220-268 | in a sorted plan directories precede copies precede deletions precede reports, parents precede children for Mkdir and follow them for Delete |
| Planner.PlanOneWay | internal/core/planner/planner.go:36-119 | the loops over the two maps produce the specified plan, its statistics and its conflict list |
| Planner.PlanTwoWay | internal/core/planner/planner.go:123-218 | the loop over all paths produces the specified two-way plan, its statistics and its conflict list |
| Planner.PlanSends | internal/core/planner/planner.go:43-98 | the first loop yields exactly the decisions for the sending side's paths |
| Planner.PlanDeletes | internal/core/planner/planner.go:101-112 | the second loop adds exactly the decisions for the paths only the receiving side has |
| Planner.SortActions | internal/core/planner/planner.go:225-250 | the slice is permuted in place so that no action comes after a later one |
| Planner.Insert | internal/core/planner/planner.go:225-250 | one insertion keeps the members and extends the ordered part by one |
| Planner.SortedPermutation | internal/core/planner/planner.go:225-250 | any ordered permutation of actions on distinct paths is strictly sorted |
| Planner.CalculateStats | internal/core/planner/planner.go:338-358 | the statistics and the conflict list are those of the action list |
| Planner.StatsPartition | internal/core/planner/planner.go:338-358 | the total is partitioned by action kind, and the conflict list is as long as its counter |
| Planner.StatsMonotone | internal/core/planner/planner.go:344-350 | copies and bytes of a prefix never exceed those of the plan |
| Ignore.ShouldIgnore | internal/core/planner/planner.go:272-334 | a path is ignored if and only if some pattern matches the path, a directory above it or one of its components |
| Ignore.IgnoredMeans | internal/core/planner/planner.go:272-334 | with separators turned into slashes, a path is ignored if and only if some pattern matches, as written or without a final slash, the path, what stands before one of its slashes, or what stands between two of them |
| Ignore.MatchesPattern | internal/core/planner/planner.go:284-331 | the four cases for one pattern amount to a match of some name of the path |
| Ignore.MatchesComponent | internal/core/planner/planner.go:300-312 | the component loop finds a match if there is one |
| Ignore.MatchesPrefix | internal/core/planner/planner.go:314-331 | the growing prefix takes every join of first parts, and the loop finds a match if there is one |
| Ignore.PrefixesAreNames | internal/core/planner/planner.go:314-331 | the prefixes tried are exactly the path and the directories above it, so the whole-path cases add nothing |
| Ignore.IgnoreClosed | internal/core/planner/planner.go:314-331 | for any glob matcher, ignoring a directory ignores everything below it |
| Walk.ListAllFiles | internal/core/rule/executor.go:77-111 | the pruned walk fails exactly when it comes to a directory whose path is refused or that is none; otherwise it lists exactly the non-ignored part of the full walk, each path once with its metadata, parents before children |
| Walk.ListEntry | internal/core/rule/executor.go:87-108 | one listed item fails exactly when it or something listed below it is refused, and otherwise contributes exactly its own non-ignored part of the tree |
| Walk.FailingWalk | internal/core/rule/executor.go:98-104 | if no entry of a directory fails, the walk meets no refused directory below it |
| Walk.WalkedAppend | internal/core/rule/executor.go:99-104 | appending the listings of disjoint regions lists their union with parents still first |
| Walk.FirstStep | internal/core/rule/executor.go:80-98 | every path under a directory is one of its entries or lies below one |
| Executor.Plan | internal/core/rule/executor.go:32-75 | planning fails exactly when one of the two listings does; otherwise planning from the pruned listings of two stores gives the plan for their full trees in the rule's mode |
| Executor.PlanFailsMeans | internal/core/rule/executor.go:32-40 | planning fails exactly when one of the two trees has a directory whose path starts with two dots and is not ignored |
| Executor.PrunedPlan | internal/core/planner/planner.go:44-46 | a list is the plan of the pruned listings if and only if it is the plan of the full ones |
| Executor.ToMap | internal/core/rule/executor.go:45-54 | the map holds each listed file under its path |
| Trees.MkdirAllMakes | internal/adapter/local/local.go:236-243 | making a directory succeeds exactly when the path is not refused and no file is at it or above it; then there are directories at every level down to it and nothing else has changed, otherwise nothing has |
| Trees.WriteWrites | internal/adapter/local/local.go:151-189 | writing succeeds exactly when the path is not refused, no file is above it and no directory at it; then it has the content, directories above it and nothing else has changed, otherwise nothing has |
| Trees.RemoveRemoves | internal/adapter/local/local.go:192-200 | deleting succeeds exactly for an entry that is not refused and has nothing below it; then it alone is gone, otherwise nothing has changed |
| Trees.ReadsBack | internal/adapter/local/local.go:128-148 | after a successful write the path reads back as written, after a successful deletion as nothing, and no operation changes what any other path reads |
| Trees.RefusedByName | internal/adapter/local/local.go:69-77 | writing, making, deleting and reading refuse exactly the paths that start with a slash or with two dots; for every other path the tree alone decides |
| Trees.RootIsThere | internal/adapter/local/local.go:236-243 | making the endpoint's root succeeds and changes nothing, and it cannot be read as a file |
| Trees.InfoShows | internal/adapter/local/local.go:95-120 | a file is listed with its own size, time and checksum, a directory with none of these |
| Trees.TempNameIsTaken | internal/adapter/local/local.go:163-185 | a write goes through the path with ".syncrules.tmp" added and leaves nothing there |
| Trees.HashedUpTo | internal/adapter/local/local.go:110-119 | a file is listed with a checksum exactly up to 104857600 bytes and under a name that is not refused |
| Adapter.LocalAdapter.List | internal/adapter/local/local.go:83-125 | the entries of one directory, each once, with metadata; files of more than 104857600 bytes or with a refused name without a checksum, all others with the hash of their bytes; nothing exactly for a path that starts with a slash or two dots or is no directory |
| Adapter.LocalAdapter.Write | internal/adapter/local/local.go:151-189 | making the parents, pulling the input into a temporary file and renaming it amounts to the specified write; the input is pulled completely, and reported to the callback, exactly when the temporary file can be made |
| Adapter.AncestorsByParent | internal/adapter/local/local.go:157-161 | making the parent directory makes everything above the file |
| Progress.CallbackReporter.Start | internal/progress/progress.go:84-108 | a new transfer leaves the counters alone, sets its own byte count to zero, hands over a start event with file and size, and keeps the callback in order |
| Progress.CallbackReporter.Update | internal/progress/progress.go:111-138 | bytes moved so far are reported on top of the completed ones, in one progress event; the account stays in order exactly while that sum is within the total |
| Progress.ProgressReader.Read | internal/progress/progress.go:218-227 | a chunk of the content, of whatever size, is handed over and the reporter is told the sum so far |
| Progress.ProgressReader.ReadAll | internal/adapter/local/local.go:170 | however the content is chunked, all of it arrives and the reporter has been told of every byte |
| Progress.SteadyMeans | internal/progress/progress.go:29-40 | in order means that no update passes its totals and that neither counter ever goes back |
| Progress.UnsteadyStays | internal/progress/progress.go:110-138 | an account once out of order stays so |
| Progress.CallbackReporter.Complete | internal/progress/progress.go:141-162 | counters advance by one file and the announced bytes, in one completion event; while they fit the totals, the callback stays in order exactly when no more bytes were moved than announced |
| Progress.CallbackReporter.Error | internal/progress/progress.go:165-182 | an error event with the counters as they are; it leaves the callback in order exactly when nothing had been moved |
| Progress.CallbackReporter.OverallProgress | internal/progress/progress.go:185-200 | the callback is given the caller's counters with the stored totals, in one event without a file, and stays in order when they agree with the reporter's |
| Service.Transfer | internal/service/sync.go:292-302 | the part of a copy after the source is open: the receiving store ends as a write of the content leaves it, the counters move only on success, and a callback in order stays so exactly when the bytes moved are no more than announced or, on failure, none |
| Service.ExecuteAction | internal/service/sync.go:259-317 | one action has the specified effect on the two stores in its direction; the callback is told of it only if it is a copy, the reporter counts it only if a copy completed, and the callback stays in order exactly when the action did not overrun |
| Service.CopyFile | internal/service/sync.go:276-303 | a copy reads one store and writes the other as specified; the callback is told of its start with name and size, of its progress, and of its completion or error, and stays in order exactly when the bytes moved are no more than announced or, on failure, none |
| Service.ExecuteNext | internal/service/sync.go:226-246 | after each action the service's counters are the statistics of the executed prefix, the reporter's have advanced by as much, and the callback is in order exactly if it was and the action did not overrun |
| Service.RunActions | internal/service/sync.go:212-255 | the loop ends in exactly the specified run cut at the cancellation or the first failure; the service's counters are the statistics of the executed prefix and the reporter's advance with them; they never pass the plan's totals and equal them on completion; from a fresh reporter the callback is in order if and only if no action overran, the failed one included |
| Service.ExecuteSync | internal/service/sync.go:182-256 | without the lock nothing happens; with it the loop runs as in RunActions and leaves no lock file |
| Service.OverrunsExactly | internal/service/sync.go:276-300 | in a planned run an action overruns exactly if it is a copy that can succeed from target to source of a file that is longer there than on the source |
| Service.SteadyUnlessUndersold | internal/progress/progress.go:111-162 | a planned run's callback is in order unless a longer target version wins, and a complete run over such a file is out of order |
| Service.ReverseCopyOverruns | internal/service/sync.go:278-283 | under keep_newest a newer and longer target file is copied with the source's size announced, and overruns |
| Service.PlannedRun | internal/service/sync.go:219-229 | a whole planned run in any mode: exact success condition, what it keeps in any case, what it achieves on success |
| Service.SyncRule | internal/service/daemon.go:210-228 | planning and executing one rule on two local stores under the lock: planning fails exactly on a refused directory; unless it was planned and the lock available nothing changes, and otherwise the stores are where the run of the one plan ends, complete or not; the run succeeds exactly if nothing blocks, holds or denies it; then one-way the receiver is a mirror and two-way both sides hold the union, the result tells the plan's copies and announced bytes and no lock file is left; in any case one-way leaves the sender and two-way every version but a losing one; the callback is in order unless a longer target version wins |
| Service.EndsUnique | internal/core/planner/planner.go:42-115 | the trees before a run leave one possible end |
| LockProtocol.LockIsExclusive | internal/lock/lock.go:62-134 | over every interleaving and crash with at most one instance about to remove a stale record, at most one live instance is engaged, the file is its own, nobody finds the lock stolen, and a holder's record agrees with the file |
| LockProtocol.AccessKeepsInv | internal/lock/lock.go:62-160 | every file access of Acquire and Release keeps the protocol invariant |
| LockProtocol.HolderNeverFails | internal/lock/lock.go:64-77 | a holder's re-acquisition rewrites its own record in both places and its release removes the file |
| LockProtocol.RemovedBefore | internal/lock/lock.go:83-87 | an instance whose stale file somebody else has removed fails and changes nothing |
| LockProtocol.LateWriteIsLost | internal/lock/lock.go:106-132 | a record written into a file the path no longer names is lost |
| LockProtocol.HalfWrittenIsForever | internal/lock/lock.go:106-132 | a file left created but unwritten by a dead process is never removed and nobody holds the lock again |
| LockProtocol.HalfWrittenReachable | internal/lock/lock.go:106-132 | such a file is reached in a run of one acquisition that dies before writing, with another process alive |
| LockProtocol.TwoRemoversBreakExclusion | internal/lock/lock.go:83-87 | from any state with two live instances about to remove, six steps make both hold the lock |
| LockProtocol.TwoRemoversReachable | internal/lock/lock.go:80-87 | such a state is reached from one leftover record |
| FileLocks.FileLock.Acquire | internal/lock/lock.go:62-134 | succeeds exactly when there is no lock file, or it holds a dead process's record or this instance's own, equal in process, start and rule; then file and memory hold the same record with the new rule and, on re-entry, the old start time; otherwise nothing changes, and the failure tells a parsed record from an unreadable one |
| FileLocks.FileLock.Release | internal/lock/lock.go:137-160 | removes the file exactly when it is this instance's; reports theft exactly when a foreign record is found |
| FileLocks.AcquireAlone | internal/lock/lock.go:62-134 | the protocol's accesses of one Acquire in one go succeed in exactly the cases and with exactly the record of the method |
| FileLocks.ReleaseAlone | internal/lock/lock.go:137-160 | the protocol's accesses of one Release in one go remove the file exactly when the method does |
| FileLocks.FileLock.AcquireEachThenRelease | internal/lock/lock_regression_test.go:14-42 | any non-empty sequence of acquisitions followed by a release succeeds and leaves no lock file |
| Drive.DriveAdapter.GetFileID | internal/adapter/gdrive/gdrive.go:374-418 | where the cache is right along the path the answer is the uncached walk's, and only levels of the path are gained; a stale key is answered as it is |
| Drive.DriveAdapter.GetOrCreateFolderID | internal/adapter/gdrive/gdrive.go:421-483 | a second item of one name is made if and only if a file stands at a level and the cache does not hold its ID; otherwise either only missing levels of the path were made, every item is as before and the answer is what the path leads to, or a known file stands above the path and nothing was made; the cache stays right along the path, coherent if it was, and gains only levels of it |
| Drive.DriveAdapter.Write | internal/adapter/gdrive/gdrive.go:206-250 | the tree below the root changes exactly as specified, parents and content or nothing, files above the path included; the cache stays right along the path, coherent if it was, and gains only levels of it; through a stale key the write fails and nothing changes |
| Drive.DriveAdapter.Delete | internal/adapter/gdrive/gdrive.go:253-271 | an entry goes with everything below it and nothing else does; a coherent cache stays so if and only if it held no key below the path; through a stale key the deletion fails and the key stays |
| Drive.DriveAdapter.Mkdir | internal/adapter/gdrive/gdrive.go:301-308 | a second item of one name is made if and only if a file whose ID the cache does not hold is at the path or above it; otherwise the tree below the root changes exactly as a local tree under the specified directory creation, except that a known file at the path passes for the directory; a stale key passes for it too |
| Drive.DriveAdapter.Read | internal/adapter/gdrive/gdrive.go:187-203 | what is read is what the tree below the root holds, and nothing through a stale key; the cache stays right along the path and gains only levels of it |
| Drive.DriveAdapter.List | internal/adapter/gdrive/gdrive.go:142-184 | fails exactly for a refused path or one that is not there; for a directory, its entries in the tree below the root, each once, with metadata and the service's checksum; only levels of the path are looked up |
| Drive.ListedWithSum | internal/adapter/gdrive/gdrive.go:507-513 | every file on Drive is listed with the service's MD5 of its content |
| Drive.DriveAdapter.constructor | internal/adapter/gdrive/gdrive.go:92-100 | opening an endpoint makes its root folder and caches only its levels, or, exactly where a file stands at a level, makes a second item of the file's name |
| Drive.DriveAdapter.Upload | internal/adapter/gdrive/gdrive.go:214-249 | an existing file gets the content, an existing folder refuses it; otherwise missing folders and one file appear, or nothing where a file stands above the path |
| Drive.DriveAdapter.Discard | internal/adapter/gdrive/gdrive.go:258-270 | exactly the paths through the deleted entry stop resolving; a coherent cache stays so if and only if it held no key below it, hence whenever nothing was below it |
| Drive.StaleKey | internal/adapter/gdrive/gdrive.go:268-270 | looking up anything below a folder and then deleting the folder leaves the key of an item that is gone |
| DriveItems.GoneWithCut | internal/adapter/gdrive/gdrive.go:263-266 | a deletion removes from the drive every item that a path through the deleted one led to |
| Drive.StaleKeyCase | internal/adapter/gdrive/gdrive.go:268-270 | a drive in which that happens: "/r/d/f" and "/r/d" under root "/r" |
| DriveTree.TreeAt | internal/adapter/gdrive/gdrive.go:386-415 | the tree of a folder holds at each clean path what the walk finds there |
| DriveTree.TreeWellFormed | internal/adapter/gdrive/gdrive.go:463-475 | everything above an entry of that tree is a directory |
| DriveTree.MadeFolders | internal/adapter/gdrive/gdrive.go:434-480 | making the missing levels of a path is making a directory with its parents in the tree |
| DriveTree.MadeFile | internal/adapter/gdrive/gdrive.go:240-248 | making the missing levels and a file is the specified write in the tree |
| DriveTree.StoreIsWrite | internal/adapter/gdrive/gdrive.go:206-250 | where the local store's temporary name is free, a write on Drive does what a local write does |
| DriveTree.BlockedInTree | internal/adapter/gdrive/gdrive.go:434-480 | a file stands at a level above a path on Drive exactly when the tree shows one above it |
| DriveTree.ReportsList | internal/adapter/gdrive/gdrive.go:162-183 | the reports of the items under a folder are a listing of its directory in the tree |
| DriveTree.ChangedFile | internal/adapter/gdrive/gdrive.go:217-225 | new content for an item changes exactly its one path in the tree |
| DriveTree.SweptTree | internal/adapter/gdrive/gdrive.go:263-266 | deleting an item takes its path and everything below it from the tree, and nothing else |
| Drive.DriveAdapter.FolderAt | internal/adapter/gdrive/gdrive.go:439-479 | one level of the path, from the cache, found or created, leads to the returned item; a second item of one name comes of it only where an unknown file stands at a level; nothing is made below a file |
| DriveItems.AddItem | internal/adapter/gdrive/gdrive.go:463-475 | creating an item under a folder without such a child changes exactly one path |
| DriveItems.ChangeContent | internal/adapter/gdrive/gdrive.go:217-225 | new content changes no path |
| DriveItems.TwinFolder | internal/adapter/gdrive/gdrive.go:447-476 | a folder made beside a file of its name leaves two items of one name in one folder |
| DriveItems.CutAll | internal/adapter/gdrive/gdrive.go:263-266 | deleting a subtree removes exactly the paths through it |
| DriveItems.ResolveInjective | internal/adapter/gdrive/gdrive.go:386-415 | with unique sibling names an item has one path |
| DriveItems.KeyParts | internal/adapter/gdrive/gdrive.go:412-414 | the key stored at each level of the walk names exactly the levels walked |
| DriveRun.OneWayOntoDrive | internal/adapter/gdrive/gdrive.go:253-271 | with no file above a directory to be made, a one-way run onto Drive succeeds if and only if no file stands above a file to be sent and no path to be changed is refused, even where a directory to be removed holds ignored entries; the sending tree never changes; on success every other path mirrors the sending side, an ignored entry survives exactly if nothing above it was removed, and all of them do if and only if no directory to be removed held one |
| DriveRun.DriveRunExact | internal/service/sync.go:219-229 | the exact trees and outcome of any prefix of a run with Drive on one side (a directory to be made on Drive below a file counts as failing here; there the code fails or makes a second item of the file's name, `DriveRun.RunOnDrive` says which) |
| DriveRun.DriveStepExact | internal/service/sync.go:275-316 | each action with Drive on one side has exactly its own effect, ignored entries below a deleted path included, or fails leaving both trees alone (a directory to be made on Drive below a file counts as failing here; there the code fails or makes a second item of the file's name, `DriveRun.RunOnDrive` says which) |
| DriveRun.DriveSweepStep | internal/adapter/gdrive/gdrive.go:263-266 | a deletion on Drive at its turn takes its path and only ignored entries with it |
| DriveRun.DriveAgrees | internal/service/sync.go:275-316 | where no directory removed from Drive holds an ignored entry, every prefix of a run is that of two local stores (a directory to be made on Drive below a file counts as failing here; there the code fails or makes a second item of the file's name, `DriveRun.RunOnDrive` says which) |
| DriveRun.DriveNeverSweeps | internal/core/planner/planner.go:123-218 | two-way, or with Drive on the sending side, every prefix of a planned run is that of two local stores (a directory to be made on Drive below a file counts as failing here; there the code fails or makes a second item of the file's name, `DriveRun.RunOnDrive` says which) |
| DriveRun.KeptUnlessHeld | internal/core/planner/planner.go:100-112 | ignored entries all survive a one-way run onto Drive if and only if no directory to be removed held one |
| DriveRun.RunOnDrive | internal/service/sync.go:219-229 | from any cache, as long as the actions keep away from ignored paths and from paths whose keys are not right: wherever a planned run with Drive on one side is cut, both stores are as specified, the keys of the other paths are right, and a cache that was right altogether is so afterwards if and only if it held no key of an ignored path below an entry the run removed from Drive; two items of one name appear if and only if the first action that the specification lets fail makes a directory on Drive below a file whose ID the cache did not hold, and beyond that the run is not followed |
| DriveRun.DistrustedIsUnseen | internal/adapter/gdrive/gdrive.go:374-418 | whatever is wrong in a cache that is right at the root, the actions before the first one at or below a path with a wrong key meet that condition |
| DriveRun.DriveAction | internal/service/sync.go:259-317 | one action has its specified effect on both stores or makes a second item of one name, with the exact condition; through a stale key a copy either way and a deletion on Drive fail and change nothing, and a directory passes for made |
| DriveRun.CoherentUnlessSwept | internal/adapter/gdrive/gdrive.go:268-270 | after any number of actions a cache that was right is right if and only if no ignored path whose key it held lay below an entry removed from Drive |
| DriveRun.CacheNext | internal/adapter/gdrive/gdrive.go:268-270 | one more operation keeps the account of the cache: keys the rule may look up are right, all others are as they were and lead where they led unless that was removed |
| DriveRun.SweptOnlyIfHeld | internal/core/planner/planner.go:100-112 | a right cache can go wrong in a planned run only one-way onto Drive and where a removed directory holds an ignored entry |
| DriveRun.NothingSweptUnseen | internal/adapter/gdrive/gdrive.go:412-414 | nor can it if it held no key of an ignored path at the start, as after this rule alone |
| DriveRun.NothingSweptNew | internal/adapter/gdrive/gdrive.go:92-100 | nor can it if the adapter is new |
| DriveRun.SharedAdapterCase | internal/service/sync.go:87-131 | an input where it does go wrong: everything in the cache is right, another rule having looked up "d/f"; this rule ignores that, removes "d" and leaves the key |
| DriveRun.TwinWhere | internal/adapter/gdrive/gdrive.go:447-479 | at its turn a directory to be made finds an unknown file in the way exactly if the plan's trees and the starting cache show one |
| DriveRun.NewTwins | internal/adapter/gdrive/gdrive.go:92-100 | a new adapter knows no file, so any file above a directory to be made gets a second item beside it |
| DriveRun.ReadyOnDrive | internal/core/planner/planner.go:239-245 | at its turn each action toward Drive finds files above its path exactly where the plan's trees had them, nothing where it makes a directory, and only ignored entries below what it deletes |
| DriveSync.ListAllFiles | internal/core/rule/executor.go:77-111 | the pruned walk on Drive fails exactly at a refused directory and otherwise lists exactly the non-ignored part of the tree, parents first; it looks up no ignored path and no file |
| DriveSync.PlanWithDrive | internal/core/rule/executor.go:32-75 | planning between a local store and Drive fails exactly when one of the two listings does and otherwise gives the plan for the two full trees in the rule's mode |
| DriveSync.SyncWithDrive | internal/service/daemon.go:210-228 | planning and running one rule between a local store and Drive under the lock, from any cache right for the keys the rule may look up: what planning made is the plan for the trees it found; without the lock nothing changes; with it the run ends as in `DriveRun.RunOnDrive`, judged by the trees and the cache before planning, and no lock file is left |
| DriveResume.DriveReplanExact | internal/core/rule/executor.go:32-75 | planning again after a run with Drive on one side stopped anywhere gives exactly the unfinished rest plus the conflicts and skips already reported, if and only if every completed copy settled, whatever ignored entries went with removed directories |
| DriveResume.DriveInterruptedRunResumes | internal/service/sync.go:219-229 | an interrupted run with Drive on one side whose executed copies settled, planned and run again, ends in the same trees with the same outcome as the uninterrupted run |
| DriveResume.SamePlan | internal/core/planner/planner.go:44-46 | ignored entries gone from Drive change no plan |
| DriveSync.SameSwept | internal/core/rule/executor.go:89-92 | listing cannot change which ignored keys a run will leave behind |
| Checksum.Calculate | internal/core/checksum/checksum.go:65-121 | for any reader that does not fail, however it splits the stream, and any positive buffer: the hash of the whole stream if it fits the bound, an error if it is longer |
| Checksum.AbsorbChunks | internal/core/checksum/checksum.go:105-108 | hashing in chunks is hashing at once |
| Checksum.HashIsFold | internal/core/checksum/checksum.go:105-121 | every byte is absorbed once, in order, and the state after the last is encoded |
| Escape.PassesArePerCharacter | internal/adapter/gdrive/gdrive.go:366-371 | the two whole-string replacements equal one escape per character |
| Escape.EscapesOnly | internal/adapter/gdrive/gdrive.go:366-371 | a backslash goes before each backslash and quote, and nothing else changes |
| Escape.EscapeRoundTrip | internal/adapter/gdrive/gdrive.go:394-396 | a reader of the quoted name consumes exactly the escaped text and the closing quote and recovers the name |
| Scheduler.SchedulerSafe | internal/scheduler/interval.go:54-102 | over every interleaving at most one loop is spawned, no channel is closed twice, and every counted run succeeded, failed or is in progress |
| Scheduler.FailedRunsCount | internal/scheduler/interval.go:130-142 | over every interleaving the failed runs are the syncs that finished with an error |
| Scheduler.SuccessfulRunsCount | internal/scheduler/interval.go:130-142 | and the successful ones those that finished without |
| Scheduler.TotalRunsCount | internal/scheduler/interval.go:105-110 | and all runs the ticks taken |
| Scheduler.StartStarts | internal/scheduler/interval.go:53-76 | starting takes effect exactly when the scheduler is neither running nor stopped |
| Scheduler.LoopLeaves | internal/scheduler/interval.go:89-101 | a waiting loop can leave exactly once the context is cancelled or a stop requested, and can always take a tick |
| Scheduler.StopNeedsRunning | internal/scheduler/interval.go:146-156 | a Stop call fails at once exactly when nothing is running |
| Scheduler.StopCanReturn | internal/scheduler/interval.go:146-168 | from every reachable state with a waiting loop, a Stop call can go on to return without an error, leaving the scheduler stopped and both channels closed once |
| Scheduler.StoppedForGood | internal/scheduler/interval.go:62-84 | once stopped, always stopped, and no further run |
| Scheduler.StopIsFinal | internal/scheduler/interval.go:146-168 | a Stop that returned without error leaves no sync in progress or to come |
| Config.Validate | internal/config/config.go:109-191 | accepts exactly the configurations with present and unique names, resolved references, valid rules and parseable intervals |
| Config.AcceptableMeans | internal/config/config.go:109-191 | the same conditions field by field |
| Config.LookUp | internal/service/sync.go:136-160 | in an accepted configuration every lookup made for a rule succeeds, and the rule, both endpoints and both transports are the only entries of their names |
| Daemon.AttemptRule | internal/service/daemon.go:202-235 | a rule of an accepted configuration between two local endpoints gets a record that tells of failure exactly if a listing failed, the lock was taken or something stood in the way of the plan, and otherwise the plan's copies and bytes; the stores are where the run of its plan ends, or untouched without listing or lock |
| Daemon.RuleIsConfigured | internal/service/daemon.go:202-210 | an attempt goes by the configured mode, strategy and patterns |
| Config.GetRule | internal/config/config.go:246-253 | finds a rule of that name exactly when there is one |
| Config.GetScheduledRules | internal/config/config.go:267-286 | the scheduled rules in configuration order |
| Config.ScheduledMembers | internal/config/config.go:267-286 | exactly the enabled rules that have no schedule or an enabled one |
| Config.ScheduledInOrder | internal/config/config.go:267-286 | a scheduled rule comes after exactly the scheduled rules configured before it |
| Daemon.Runner.RunSync | internal/service/daemon.go:187-242 | every rule asked for is attempted on the stores the one before it left and recorded once, each record telling what its attempt found and did; the call fails exactly when a record failed or the rule is unknown |
| Daemon.Ticker.ExecuteSync | internal/scheduler/interval.go:105-143 | a tick attempts each scheduled rule once in order on the stores and records it; the tick counts as failed exactly when a record did |
| Daemon.RunTicks | internal/scheduler/interval.go:89-101 | over any number of ticks, whatever happens in between to the trees, the lock file and other processes, the history is the ticks' records in order, each telling what its attempt on the stores found and did under the lock file as the tick found it, and failed runs are the ticks with a failed record |
| Daemon.FreeTick | internal/service/daemon.go:202-235 | on a tick that finds no lock file, or a dead process's, a rule's record tells of failure exactly if a listing failed or something stood in the way of its plan, and the stores are where the run of the plan ends |
| Daemon.BusyTick | internal/service/sync.go:182-190 | on a tick that finds the lock taken every record tells of failure and no tree changes |
| Daemon.HistoryIsDetermined | internal/service/daemon.go:187-242 | the starting trees, what happens from outside and the clocks leave one possible history: every record of every tick and all trees in between |
| Daemon.ToldUnique | internal/service/daemon.go:202-235 | the trees before an attempt and the lock leave one possible record and one possible state after it |
| Daemon.OneRecordPerTick | internal/service/daemon.go:202-235 | each rule's record of each tick is at its place in the history |

## Left out

- Symbolic links: trees hold regular files and directories only; a link would be copied as a file and then mismatch.
- Sizes and times of directories: a listing shows 0 for both, since the planner never reads them.
- Path cleaning (`filepath.Clean`, `Rel`, `..` as a whole component) and the endpoint root itself as an operand of Write or Delete.
- Real I/O errors, permissions and changes made from outside during a run.
- Cancellation inside listing, planning, hashing or a transfer: cancellation is seen at action boundaries only.
- An unknown mode at planning time: validation rejects it, so `SyncMode` has the three valid ones.
- Integer width of sizes and counters: they are unbounded.
- Progress.CallbackReporter.Start: does not model the start time and the transfer speed computed from it, because they are clock readings.
- Service.ExecuteSync: does not model the lookups between taking the lock and the loop; they cannot fail in an accepted configuration (`Config.LookUp`).
- Service.SyncRule: is about two local stores; `DriveSync.SyncWithDrive` has Drive, without progress.
- Daemon.AttemptRule: is about two local endpoints, and so are the members of `Daemon` that run it.
- Planner.SortActions: does not model the algorithm of the library sort; any ordered permutation of a plan is the same list.
- LockProtocol.LockIsExclusive: does not model another host's record, its timeout, a reused PID or a forced release, because each lets a live holder lose the lock by design.
- DriveRun.RunOnDrive: does not follow a run beyond two items of one name, because lookups may then find either, nor beyond the first action at or below a path with a wrong key, of which `DriveRun.DriveAction` has the case of the path's own stale key; progress is not part of it. It asks for no temporary names on Drive too, although none are made there.
- DriveRun.OneWayOntoDrive: excludes a file above a directory to be made, where the code may make a second item of its name and go on; `DriveRun.RunOnDrive` has when.
- DriveRun.DriveRunExact: tells of failure for such a directory, because a drive with two items of one name is no tree of paths.
- DriveRun.DriveStepExact: the same, for one action.
- DriveRun.DriveAgrees: the same; there the run is not that of two local stores.
- DriveRun.DriveNeverSweeps: the same; there the run is not that of two local stores.
- DriveSync.SyncWithDrive: is about a local store and Drive, not about two Drive endpoints; progress is not part of it, and neither is listing a directory through a stale key, for which the service's answer is open.
- A Drive root that normalises to the empty string: full paths then lack the leading slash the cached keys have.
- Drive names that cannot be part of a path, such as one with a slash, and siblings of one name from the start: lookups by path do not tell them apart.
- Drive listing pages, trash, error mapping and authentication; that a folder refuses content and a file refuses children is taken from the service.
- Config.Validate: does not model which error is reported, only whether there is one; the Drive credentials are not part of it.
- Daemon.Runner.RunSync: is about rules between local endpoints; it does not model times or error texts in records; the history is a sequence, not a database.
- Configuration defaults and file loading, loggers, PID files, the command line, byte and speed formatting.
