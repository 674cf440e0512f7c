# A verified model of go-dirstat's engines

go-dirstat measures directory trees, caches and compares the measurements, queries them, and applies planned file
operations. This project models the parts of it in which state changes step by step, and proves what they are for.

**The scanner** (`Forest` to `Scan`). Goroutines grow one shared tree under a lock. `Forest` and `TotalsMeaning` define
the aggregate invariant once: a directory holds its own inode plus what its children contribute, hence the sum over its
measured descendants. `LiveTree` is that tree as a class, with the loops over the parent chain. `Discovery` is the state
machine of all locked steps, `Scan` the methods that perform them, and `Runs` speaks about every schedule. At the end
`Scanner` relocates directories that several entries reach to their least path (a best-first search on a graph that may
be cyclic), gives the bytes of files with several names to the least one, and rebuilds the totals. `FileSystem` says what
tree a scan of a fixed file system may return, and `FirstPaths` when its canonical paths are the first ones;
`Confluence` shows that there is at most one such tree and `Settlement` that every finished run reaches it;
`ScanMeaning` reads off it what every node and the root show of the files.

**Snapshots, queries, deltas, deletes.** `Snapshot` to `CachedScan`: the flattened form against the tree, and the
two-pass check that decides which rows are accepted. `QueryOrder` and `Query`: a bounded heap against a full sort, and
repeated stable sorts against one. `Deltas` and `DeltaLaws`: rows that differ between two snapshots, and what the
leaf-only ones add up to. `ProgressClone`: bounded copies of the live tree. `TreeDelete`, `Mutations` and
`DeleteRescan`: a delete patched into the tree in memory against a new scan, with `Retiming` for the times.

**History retention and migration** (`Retention` to `MigrationRun`). The greedy planners are declared as functions of
a set of entries, and `RetentionShares` says of each entry when and why it goes. `SnapshotStore` is the store with the
loops that compute them, where every write may fail, and `Migrate` moves records between two stores and may stop
anywhere.

**File operations** (`PlanEffects` to `RecursiveRemoval`). The plan validator as a symbolic executor and its soundness
against every executed prefix, with what acceptance means for execution in `PlanGuards`; the overwrite protocol, the
move to a free destination and recursive removal as classes whose primitives may fail while other processes act. Ghost
fields record whether any did, so that the contracts also say what a run without faults must achieve.

Trees are maps from node identities to nodes, so a pointer is an identity and the heap of nodes is a value that the
methods reassign. Times are natural numbers with 0 as the zero time. Relative paths are slash-joined strings compared
bytewise, as the scanner compares them; the file operations and the deltas use sequences of components.

Five statements of the source or its documentation do not hold as written, and the model keeps the code:

- The comment at `internal/scan/scan.go:1074` calls the canonical path the lexicographically first reachable one. What
  the code computes is the fixpoint of `PathsUnique`. `FirstReachablePath` proves the comment for graphs without cycles
  in which no directory has two entries m and m+s with s starting below the slash. Both conditions matter:
  `TwoNamesExact` and `FirstReachablePathDiffers` show what such a pair of names does, `NoFirstPathOnCycle` a graph
  without a first path. With cycles the claim holds for paths that come to no directory twice (`FirstSimplePath`).
- The plan validator takes a path for missing that arrived inside a tree which the plan copied, moved or extracted. A
  touch of it makes the symbolic state wrong exactly if it is no file (`StepSound`). Unguarded plans can do that
  (`UnguardedTouchCanFail`). Guarded ones cannot, unless a touch brings a guard for a path that was not there before the
  plan (`GuardRefusesUnseen`, `GuardedPrefixSound`); one that does is `GuardedTouchCanFail`. `PlanTouches` has a condition
  that can be read off the plan. For the same reason an accepted guarded operation may be refused in its turn for a
  missing guard: exactly if it needs no source and finds one that the validator does not know of (`MissesGuardExactly`,
  `GuardMissedInCopy`); `GuardsSuffice` has a condition on the plan.
- The batch preflight of a migration does not look at the record limit of a key whose record the destination already
  has, so such a key, if it was over its limit before, may lose older live records (`DuplicateEvicts`,
  `EvictionExample`). `Migrate` states the guarantee with exactly that exception.
- A delete in memory is said to update every aggregate that the scanner would rebuild, modification times among them
  (`internal/tui/mutations.go:163`). Everything but times is what a scan would find, but directories above the deleted
  entry's own keep the time of what is gone and are raised to the time of the deletion. `RescanEqual` says exactly when
  the times agree, `RescanTimesDiffer` is a deletion after which they do not.
- Leaf-only rows avoid double counting, but where a file became a directory with entries, or replaced one, they do not
  add up to the root's growth (`LeafRowsSum` gives the difference, `LeafRowsCanDiffer` an example).

## Model

| member | source | states |
|---|---|---|
| LiveTree.LiveTree.constructor | internal/scan/scan.go:226-231 | The live tree starts as one measured, childless root directory. |
| LiveTree.LiveTree.PropagateSelf | internal/scan/scan.go:484-492 | Exactly the ancestors of a directory receive its own allocation and time, each once; no other node changes. |
| LiveTree.LiveTree.PropagateFile | internal/scan/scan.go:496-510 | Exactly the ancestors of a leaf receive what it contributes, once; a failed entry counts no file. |
| LiveTree.LiveTree.BumpDirCount | internal/scan/scan.go:515-519 | Exactly the ancestors of a new directory count it, once. |
| LiveTree.LiveTree.StartDirectory | internal/scan/scan.go:533-540 | Publishing a directory's own metadata keeps every directory of the tree exact. |
| LiveTree.LiveTree.PublishLeaf | internal/scan/scan.go:684-688 | Attaching a measured leaf keeps every directory of the tree exact. |
| LiveTree.LiveTree.PublishDirectory | internal/scan/scan.go:689-702 | Attaching a directory placeholder keeps every directory of the tree exact. |
| LiveTree.LiveTree.Adopt | internal/tree/tree.go:147-151 | The child is appended to the children, one level below its parent, and the links still describe one tree. |
| LiveTree.LiveTree.MoveTo | internal/tree/tree.go:158-191 | It refuses exactly the root and parents inside the moved subtree, changing nothing; otherwise the subtree hangs below its new parent under the new name with children sorted by name, and the depths of the whole subtree are right. |
| LiveTree.LiveTree.RebaseDepth | internal/tree/tree.go:193-199 | Every depth in the subtree, and no other, moves by the same distance. |
| LiveTree.LiveTree.Path | internal/tree/tree.go:123-135 | Climbing the parent pointers spells the path that the tree defines from the root down. |
| Forest.AddUpBalances | internal/scan/scan.go:484-510 | Carrying one directory's missing contribution to it and all its ancestors restores the aggregate invariant everywhere. |
| TotalsMeaning.TotalsCountDescendants | internal/scan/scan.go:427-442 | The local invariant is the global one: each directory's sizes, counts and time are the sum over the set of its measured descendants, each counted once. |
| ProgressClone.ShallowClone | internal/tree/tree.go:269-297 | The copy holds at most cap nodes, no more than maxDepth levels, each node with its parent, its unchanged totals and a prefix of its children; below the cap nothing within reach is missing. |
| ProgressClone.CloneIsExact | internal/tree/tree.go:259-268 | However small the copy, each copied directory shows the sum over everything that the live tree holds below it. |
| AliasGraph.PathsUnique | internal/scan/scan.go:1074-1077 | The equations "path = least of parent path + / + entry name over the incoming edges" have one solution, on cyclic graphs too. |
| FirstPaths.SimpleWalksNotBefore | internal/scan/scan.go:1074-1077 | Where no directory has two entries m and m+s with s starting below a slash, no walk without repetition spells a path before the canonical path of the directory it leads to. |
| FirstPaths.FirstSimplePath | internal/scan/scan.go:1074-1077 | There the canonical path is the first of all paths that reach a directory without coming to any directory twice. |
| FirstPaths.FirstReachablePath | internal/scan/scan.go:1074-1077 | If the graph has no cycle either, it is the lexicographically first reachable path that the source comment speaks of. |
| FirstPaths.TwoNamesExact | internal/scan/scan.go:1074-1077 | Two names of one directory: the canonical paths below it are the first ones if and only if the later name does not extend the earlier one by a character below the slash. |
| FirstPaths.FirstReachablePathDiffers | internal/scan/scan.go:1074-1077 | A concrete tree and graph on which the comment fails: an entry shown at a/x that the walk a-b/x reaches. |
| FirstPaths.NoFirstPathOnCycle | internal/scan/scan.go:1074-1077 | A concrete cyclic graph on which every path that reaches a directory has another before it, so that there is no first one. |
| DirectoryOwners.SearchDone | internal/scan/scan.go:1086-1114 | When the frontier is empty, every measured directory is placed at the least of its incoming paths: neither error return can be taken. |
| DirectoryOwners.PlaceDirectory | internal/scan/scan.go:1097-1107 | Placing a popped directory keeps the search invariant: placed directories have placed parents, keys never decrease, and no open edge is forgotten. |
| DirectoryOwners.SkipPlaced | internal/scan/scan.go:1088-1090 | A candidate for a directory that is placed already can be dropped without losing the least path. |
| Scanner.Scanner.CanonicalizeDirectoryOwners | internal/scan/scan.go:1078-1115 | The heap loop ends with every directory at its least visible path; only directories move, measurements and leaves stay, and sorted children stay sorted. |
| Scanner.Scanner.PushDirectoryEdges | internal/scan/scan.go:1117-1130 | One candidate per visible entry of the placed directory joins the frontier. |
| Scanner.Scanner.NormalizeFileOwners | internal/scan/scan.go:1222-1251 | In whatever order identities and names were found, each file's bytes end on its least path and all other names are empty and flagged; other nodes keep their bytes, and what every directory lacks or has too much does not change in sum. |
| Scanner.Scanner.NormalizeGroup | internal/scan/scan.go:1226-1250 | One identity: the least path carries its bytes, every ancestor is corrected by the difference. |
| Scanner.Scanner.LeastEntry | internal/scan/scan.go:1229-1234 | The chosen name is one of the identity's and none sorts before it. |
| Scanner.Scanner.RecomputeTree | internal/scan/scan.go:251-253 | The rebuilt totals satisfy the aggregate invariant on the relocated tree; nothing but directory totals changes. |
| Scanner.Scanner.RecomputeDirectory | internal/scan/scan.go:1135-1159 | Exactly the directories of one subtree are rebuilt, bottom-up, and balance. |
| FileOwners.AssigningEnds | internal/scan/scan.go:1235-1249 | The assignment loop leaves exactly one carrier, the least path. |
| ByteTransfer.ReassignedGap | internal/scan/scan.go:1236-1248 | Giving a name other bytes and correcting its ancestors conserves every total above. |
| Confluence.AuthoritativeUnique | internal/scan/scan.go:238-240 | A file system has at most one authoritative tree: names, parents, child order, sizes, flags and all totals are determined. |
| DiscoverySteps.InitialSound | internal/scan/scan.go:974-980 | The state before any goroutine runs satisfies the discovery invariant. |
| DiscoverySteps.StepKeeps | internal/scan/scan.go:645-742 | Each locked step of any goroutine, in any order, keeps the discovery invariant. |
| DiscoverySteps.PlanPublishable | internal/scan/scan.go:674-704 | Whatever happened between classifying an entry and publishing it, its directory is still there and its node is not. |
| Settlement.TerminalDone | internal/scan/scan.go:710-742 | When no goroutine has anything left to do, every reachable directory has been read and every entry of it is shown. |
| Settlement.SettledAuthoritative | internal/scan/scan.go:238-254 | Relocation, the choice of byte owners and the recomputation turn any finished discovery into the authoritative tree. |
| Settlement.GrandTotalConserved | internal/scan/scan.go:241-254 | The root totals that the running scan had reached are the final ones. |
| Settlement.UnfollowedIsCanonical | internal/scan/scan.go:241-254 | Where every directory has one entry, as without followed links, discovery already ends at the least paths. |
| Settlement.UnfollowedSettles | internal/scan/scan.go:241-254 | So in a scan that does not follow links the choice of byte owners alone ends at the authoritative tree, without relocation and recomputation. |
| Runs.RunSound | internal/scan/scan.go:427-442 | Every state of every schedule satisfies the discovery invariant. |
| Runs.EveryStateExact | internal/scan/scan.go:427-433 | In every state of every schedule each directory's totals are the exact sum over what was measured below it so far. |
| Runs.EveryReportExact | internal/scan/scan.go:94-99 | So does every progress report, a bounded copy of such a state. |
| Runs.StepShrinks | internal/scan/scan.go:527-619 | Every step does one thing that was not done before. |
| Runs.RunsEnd | internal/scan/scan.go:527-742 | No schedule goes on for ever: a run has at most as many steps as the file system has things to read and to show. |
| Runs.ScheduleIndependent | internal/scan/scan.go:238-240 | Two scans of one file system end with the same tree, however their goroutines were scheduled. |
| Scan.Scan.BeginDirectory | internal/scan/scan.go:533-540 | The first locked step of a directory scan is a step of the state machine. |
| Scan.Scan.ClassifyEntry | internal/scan/scan.go:759-816 | Classifying an entry, with its claims and file groups, is a step of the state machine. |
| Scan.Scan.PublishEntry | internal/scan/scan.go:684-704 | The locked step of a batch, for one entry, is a step of the state machine. |
| Scan.Scan.FinishDirectory | internal/scan/scan.go:545-549 | The error flag and the deferred sort are a step of the state machine. |
| Scan.Scan.Settle | internal/scan/scan.go:238-254 | From any terminal state the final step of a scan that follows links leaves the authoritative tree with the root totals unchanged; what its nodes and its root then show of the files is said field by field (see ScanMeaning). |
| Scan.Scan.SettleUnfollowed | internal/scan/scan.go:241-254 | From any terminal state the final step of a scan that does not, which only normalizes file owners, leaves the authoritative tree with the root totals unchanged, and the same is said of its nodes and its root. |
| ScanMeaning.NodesMeasured | internal/scan/scan.go:1168-1180 | A leaf shows the apparent and allocated bytes and the time of its file if it is the least of the file's names, or its only one; a later name is empty and flagged; an entry that could not be read is failed and empty; a directory is flagged exactly if reading it failed. |
| ScanMeaning.RootShowsFiles | internal/scan/scan.go:238-254 | The root shows the apparent bytes of every distinct file once, their allocated bytes and every directory's own, the number of readable leaves and of directories, and the newest time of all. |
| PlanValidator.PlanValidator.PathState | internal/fsops/plan_validate.go:343-376 | The cached inspection folded over the planned effects is the symbolic state of the path; a failing inspection is reported. |
| PlanValidator.PlanValidator.ValidateOperation | internal/fsops/plan_validate.go:134-285 | An operation is accepted exactly if its fields, guard, source and destination fit the symbolic state; accepted operations add their effects, refused ones add none. What acceptance means for execution is said by the PlanGuards rows and the soundness rows below. |
| PlanValidator.PlanValidator.ValidateDestination | internal/fsops/plan_validate.go:244-278 | A destination is accepted exactly if it is free under its policy, lies in a directory that exists or was planned, and outside its own source. |
| PlanValidator.ValidateAll | internal/fsops/plan_validate.go:107-119 | The plan is accepted exactly if every operation is, after the effects of those before it, and the dependent ones are singled out. |
| PlanValidator.PrevalidatePlan | internal/fsops/plan_validate.go:92-132 | A plan passes exactly if it is not empty, every operation is accepted in its turn, and every independent one passes a dry run. |
| PlanGuards.FirstAccepted | internal/fsops/plan_validate.go:134-285 | As long as no effect came before it, an operation is accepted, and its guard holds, if and only if it is legal and execution would get past all its checks on the real files. |
| PlanGuards.AcceptedIsLegal | internal/fsops/plan_validate.go:134-204 | In an accepted plan ids differ and are not blank, sources and destinations differ and lie in the root, the root itself is not deleted or moved, and destinations and guards are only where their action allows. |
| PlanGuards.UnguardedIsOurs | internal/fsops/plan_validate.go:220-222 | In an accepted guarded plan an operation without a guard whose source the validator takes to be there works on what an earlier operation created. |
| PlanGuards.MissesGuardExactly | internal/fsops/plan_validate.go:220-222 | In a guarded run a missing guard is found in an operation's turn if and only if it may do without a source and the validator took its source for missing although it is there. |
| PlanGuards.GuardsSuffice | internal/fsops/apply.go:145-277 | So no operation is refused for its missing guard if the plan neither touches nor makes what it takes for missing directly inside what a copy, move or extraction brought. |
| PlanGuards.GuardMissedInCopy | internal/fsops/plan_validate.go:220-222 | A concrete guarded plan that does: it is accepted, and its second operation is refused in its turn for want of a guard. |
| PlanGuards.DependsOnEarlier | internal/fsops/plan_validate.go:110-119 | An operation is taken for dependent only if an earlier one changed something at, above or inside its source, or made the directory in which it is to create something. |
| PlanGuards.ExtractsArchives | internal/fsops/plan_validate.go:226-232 | An accepted plan extracts something of its own making only if that came from one of its archives. |
| PlanSoundness.UnchangedIsInitial | internal/fsops/plan_validate.go:343-376 | A path that no effect changed has the state of its inspection. |
| PlanSoundness.StepSound | internal/fsops/plan_validate.go:378-419 | One accepted operation that succeeds keeps every claim of the symbolic state about the real files, if and only if it does not touch a hidden object that is no file. |
| PlanRuns.PrefixSound | internal/fsops/plan_validate.go:197-225 | After every executed prefix of an accepted plan the symbolic state tells the truth, unless a step touched such a hidden object. |
| PlanRuns.GuardedPrefixSound | internal/fsops/plan_validate.go:197-225 | In a guarded run, after every executed prefix of an accepted plan, the symbolic state tells the truth if every guard of a touch was captured from an object that was at its source before the plan. |
| PlanRuns.GuardRefusesUnseen | internal/fsops/plan_validate.go:197-225 | In a guarded run only a touch that brings a guard for a path not there before the plan can touch a hidden object. |
| PlanRuns.GuardedTouchCanFail | internal/fsops/plan_validate.go:197-225 | A concrete plan with such a guard, accepted and executed, after which the symbolic state calls a directory a file. |
| PlanTouches.PlanSound | internal/fsops/plan_validate.go:197-225 | A condition on the plan alone: if no touch of a path the plan takes for missing lies directly inside what a copy, move or extraction of the plan brought, the symbolic state tells the truth after every prefix of every run, guarded or not. |
| PlanTouches.TouchesNothingMade | internal/fsops/plan_validate.go:197-225 | Plans that touch nothing as missing directly inside something they made are such plans. |
| PlanRuns.GuardStillValid | internal/fsops/plan_validate.go:197-225 | No earlier step invalidates an accepted source guard: the object it names is still the one at the source. |
| PlanRuns.PreflightStillHolds | internal/fsops/plan_validate.go:120-130 | What an independent operation's dry run checked before the plan started still holds in its turn. |
| PlanRuns.GuardedRunKeepsPreflight | internal/fsops/apply.go:145-277 | In a guarded run of a prevalidated plan, with touch guards captured before it, every independent operation starts from the conditions its dry run found, and guards still name their objects. |
| PlanRuns.UnguardedTouchCanFail | internal/fsops/plan_validate.go:378-419 | A concrete unguarded plan, accepted and executed, after which the symbolic state calls a directory a file. |
| Overwrite.Destination.Replace | internal/fsops/apply.go:859-944 | Whatever primitive fails and whatever appears meanwhile: success means the replacement is in place and the backup gone; an object that was set aside is back in place, kept as a backup with a partial result, or discarded only after the replacement was published. With a guard that names an object only that object is discarded; with a guard that expects none, an object is set aside only if one came, went, and came again between the checks. If no primitive failed and nothing appeared after the set-aside, a stale object or one whose replacement was not built is back in place with exactly the build's own result, and a build that succeeds ends in success; if nobody disturbed anything before it either, the whole run is determined. |
| Overwrite.Destination.Rebuild | internal/fsops/apply.go:889-944 | The same once the destination is set aside: a failure that is not partial has restored it, and without a fault a failed build always is undone. |
| MovePath.Mover.MovePathNew | internal/fsops/apply.go:1002-1040 | It keeps the promise that the overwrite protocol asks of its build callback. What is published is either the source, taken away in one step, or a copy of objects that were each in the source, made between two equal walks over it; captured objects are removed only after that, with all guarantees of the clean-up. A success that is not complete is reported as published; a failure removes nothing, and the source is as others left it. If no primitive fails, nobody acts and the walk was complete, the move succeeds. |
| RecursiveRemoval.Filesystem.CleanupSourceSnapshot | internal/fsops/apply.go:1132-1165 | Others may act before every look and every removal. The removals go from the end of the walk backwards; each takes a leaf, and when the object and the directories above it were looked at just before, each was still the captured one. If others neither take nor bring back captured objects, whatever else they do, exactly the rest of the walk survives; everything not captured is as they left it. A complete walk is removed to its end if no primitive fails and nobody acts. |
| RecursiveRemoval.Filesystem.RemoveTree | internal/fsops/apply.go:1167-1184 | The result is complete exactly if everything captured was removed and partial exactly if something but not everything was; survivors and additions, and success without faults, as in the clean-up. |
| RecursiveRemoval.Filesystem.ValidateSourceAncestors | internal/fsops/apply.go:1186-1205 | It looks at one directory after another, from the object's own up to the source, while others may act in between: true means that each was still the captured one when it was looked at, false that the last one looked at was not. |
| RecursiveRemoval.SteadyRemovesCaptured | internal/fsops/apply.go:1132-1165 | If nobody acts between the first look and the removal, what is removed has the identity, kind and, unless it is a directory, the times of the captured object, in directories that all are the captured ones. |
| RecursiveRemoval.UndisturbedStep | internal/fsops/apply.go:1132-1165 | While nobody else acts, each captured object is a leaf when its turn comes and all its checks pass. |
| RecursiveRemoval.SurvivorsKeepAncestors | internal/fsops/apply.go:1132-1165 | An object that is there in the end, captured or added, has kept every captured directory above it, and the removal had stopped before the first of them. |
| RecursiveRemoval.AddedNeverRemoved | internal/fsops/apply.go:1132-1165 | No removal takes a path that was not captured. |
| RecursiveRemoval.InsideComesLater | internal/fsops/apply.go:1060-1084 | In a walk everything inside a directory comes after it, so the reverse order meets leaves. |
| SnapshotStore.SnapshotStore.RecordReservationPlan | internal/history/history.go:459-580 | The loops over the listing compute the declared plan, whatever order the listing and the maps have. |
| SnapshotStore.SnapshotStore.PrunePlan | internal/index/store.go:733-816 | The same for the cache planner and, without an incoming entry, for the global prune of the history. |
| SnapshotStore.SnapshotStore.AdmitAll | internal/history/history.go:533-578 | The admission loops keep the newest entry of each group first, groups by name, then everything, newest first, as far as the quota goes. |
| SnapshotStore.SnapshotStore.TrimKey | internal/history/history.go:502-531 | Exactly what lies beyond the newest maxRecords of the incoming key is removed, and the incoming entry is refused if it is among that. |
| SnapshotStore.SnapshotStore.ApplyRemovals | internal/history/history.go:1333-1398 | Only planned entries are deleted, also when it stops halfway; success means all of them are. |
| SnapshotStore.SnapshotStore.Record | internal/history/history.go:333-411 | Wherever it fails, nothing but planned removals is lost, and nothing at all before the record is stored; success means the whole plan is carried out and the record is there, byte for byte. If no primitive fails it succeeds exactly if the record has not expired, whatever has its id is the same record, and the reservation succeeds; otherwise nothing changed. |
| SnapshotStore.SnapshotStore.PreflightMigration | internal/history/history.go:1096-1182 | A record not yet there passes exactly if it has not expired, fewer than maxRecords records of its key are as new, and it fits beside what has not expired; one that is there passes exactly if it has not expired, can be read back, and is the same; if no primitive fails the answer depends on the files alone. |
| SnapshotStore.SnapshotStore.RemoveEntry | internal/history/history.go:1067-1094 | Success means the entry is gone; an error leaves it there or gone, and touches nothing else. |
| RetentionLaws.ReservationLaws | internal/history/history.go:459-580 | Whenever a reservation succeeds the incoming and every unsafe entry stay, the surviving safe bytes fit the quota, the key keeps at most maxRecords, and nothing removed for the quota would fit back. |
| RetentionLaws.PruneLaws | internal/index/store.go:733-816 | The cache planner guarantees the same apart from the per-key limit. |
| RetentionShares.ReservationReasons | internal/history/history.go:459-580 | A reservation removes an entry as invalid, expired, or in surplus of the incoming key, exactly if it is; of the others the quota takes exactly those that do not fit beside the kept entries tried before them: the newest of every key first, keys by name, then the rest from new to old. |
| RetentionShares.PruneReasons | internal/index/store.go:733-816 | The same for the cache planner and the global prune, whose keys have no limit. |
| RetentionLaws.PreflightPredicts | internal/history/history.go:434-457 | Planning before publication and planning again with the published record listed give the same removals. |
| RetentionLaws.ReplanRemovesNothing | internal/history/history.go:446-457 | Planning again after the removals removes nothing. |
| RetentionLaws.PruneThenEmpty | internal/history/history.go:1251-1317 | A global prune with the same clock is then empty, if and only if the record itself has not expired. |
| RetentionLaws.KeptFits | internal/history/history.go:533-578 | Greedy admission never exceeds the quota, and nothing it left out would fit. |
| RetentionLaws.AllKept | internal/history/history.go:533-578 | If everything fits together, nothing is left out. |
| Migration.RecordEvicts | internal/history/history.go:1184-1245 | With room for what is pending, recording a pending record evicts no live record for the quota, and for the record limit only of its own key when that was over its limit. |
| Migration.DuplicateEvicts | internal/history/history.go:1184-1245 | Recording again what the destination already has evicts a live record if and only if its key was over the record limit. |
| Migration.EvictionExample | internal/history/history.go:1184-1245 | A concrete destination and source that the batch preflight passes and whose migration evicts a live record. |
| Migration.RoomAfter | internal/history/history.go:979-1065 | Recording one pending record leaves room for the rest. |
| MigrationPreflight.PreflightMigrationBatch | internal/history/history.go:1184-1245 | The counting loops pass exactly if no record to come has expired and all new ones fit beside what the destination keeps, in bytes and per key. |
| MigrationRun.MoveOne | internal/history/history.go:1038-1062 | One record is recorded, loaded back and removed; wherever that stops nothing is lost; without a fault it succeeds exactly if the destination can record it. |
| MigrationRun.Migrate | internal/history/history.go:979-1065 | Wherever the migration stops every valid source record is still in the source or loadable at the destination, unsafe files stay, and no live record of the destination is gone unless its key was over the record limit before; success leaves no safe entry in the source. If no primitive fails, it succeeds only if every preflight passes; if one does not, both stores stay as they were, and if all do, it stops only at a record that the destination, as it is then, cannot record or read back. |
| Snapshot.FromTree | internal/index/snapshot.go:178-218 | The rows are the nodes in breadth-first order, each naming the row of its parent. |
| Snapshot.OrderComplete | internal/index/snapshot.go:178-205 | The queue visits every node exactly once. |
| Snapshot.RebuildFlattened | internal/index/snapshot.go:178-244 | Flattening and rebuilding is the identity, including child order, depths, totals and flags. |
| SnapshotLayout.BuiltRooted | internal/index/snapshot.go:294-297 | Parent indexes that point backwards are acyclic and reach the root. |
| SnapshotLayout.FlattenRebuilt | internal/index/snapshot.go:178-244 | Rebuilding and flattening again restores the rows if and only if their parent indexes never decrease. |
| SnapshotCheck.ForwardPass | internal/index/snapshot.go:268-325 | Every row is sane and linked to an earlier directory, siblings differ in name, and the header counts are the rows' counts. |
| SnapshotCheck.ReversePass | internal/index/snapshot.go:326-367 | One reverse accumulation accepts exactly the rows whose directories hold what their children hold, and refuses sums beyond 64 bits. |
| SnapshotCheck.AddChild | internal/index/snapshot.go:342-365 | A child is added exactly, or the addition is refused because it would overflow. |
| SnapshotCheck.ValidTreeLayout | internal/index/snapshot.go:249-368 | Accepted are exactly the valid layouts. |
| SnapshotCheck.ToTree | internal/index/snapshot.go:223-244 | A valid layout, and no other, is rebuilt into one tree. |
| SnapshotLaws.AcceptedIsMeasured | internal/index/snapshot.go:326-367 | An accepted snapshot satisfies the scanner's aggregate invariant, with nonnegative own allocations. |
| SnapshotLaws.AcceptedSays | internal/index/snapshot.go:249-368 | Of an accepted layout: the header counts are the numbers of directories, files and failed rows; rows are nonnegative, hang one level below an earlier directory, differ from their siblings in name, and have legal names; flagged duplicates are empty files. |
| SnapshotLaws.AcceptedCountsSubtrees | internal/index/snapshot.go:326-367 | From a single reverse pass every directory's row is known to be the fold over its whole subtree. |
| SnapshotLaws.ScannerSnapshotAccepted | internal/index/snapshot.go:249-368 | The flattening of every complete scanner tree of a directory, with legal names, is accepted. |
| SnapshotLaws.FileRootAccepted | internal/index/snapshot.go:249-368 | A layout with a file at its root is accepted if and only if it is what a scan of that file stores, or the same with an error. |
| CachedScan.ScanIsAccepted | internal/index/snapshot.go:178-368 | What a finished scan stores is accepted when read back, and is that scan's tree. |
| QueryOrder.RecordBefore | internal/query/query.go:513-525 | The first key that tells two records apart decides, in its direction; which field each key reads is said by MayPrecede, field by field. |
| QueryOrder.RankLaws | internal/query/query.go:218-226 | Ranking by the keys and then by arrival is a strict order. |
| Query.SliceStable | internal/query/query.go:496-502 | A stable sort by one key, as far as its contract fixes it. |
| Query.OneMoreKey | internal/query/query.go:491-504 | Stably sorting by one more significant key is stably sorting by all the keys together. |
| Query.SortRecords | internal/query/query.go:491-504 | One stable sort per key, least significant first, is one stable lexicographic sort. |
| Query.StableSortLaws | internal/query/query.go:491-504 | That sort rearranges the records, in the order of the keys. |
| Query.TopRecordHeap.Push | internal/query/query.go:206-208 | The candidate joins the kept records, and the last of them in rank is on top. |
| Query.TopRecordHeap.ReplaceTop | internal/query/query.go:166-169 | The last of the kept records gives way to the candidate, and the new last is on top. |
| Query.Offer | internal/query/query.go:161-171 | After each visit the kept records are the first limit of those seen: none outside comes before any of them. |
| Query.FirstIsPrefix | internal/query/query.go:178-185 | Sorting the first n of a set gives the first n of the sorted set. |
| Query.SelectTop | internal/query/query.go:159-185 | The bounded heap returns the first limit records of the full stable sort. |
| Query.Build | internal/query/query.go:125-186 | For every limit k the answer is the first k records of the unlimited answer; a negative limit and a failed walk are errors. Field by field and in either direction, no record of the answer, and none that was left out, would have to stand before an earlier one; without keys the answer ascends by path. |
| Deltas.FlattenPaths | internal/history/delta.go:184-201 | Rows are keyed by path exactly if every row names an earlier parent one level up; anything else is an invalid layout. |
| Deltas.ReportKnown | internal/history/delta.go:84-100 | Of the older snapshot's paths exactly those that went or changed size are reported, and they leave the newer map. |
| Deltas.ReportNew | internal/history/delta.go:101-103 | Together with what is left of the newer snapshot, every differing path is reported once. |
| Deltas.Compare | internal/history/delta.go:68-118 | Comparable snapshots give one row per path that differs in size or in being there. It shows both snapshots' sizes and times, their differences, the kind, and whether the path is new, removed, smaller or otherwise grown; larger changes of allocation come first, equal ones by path, whatever order the maps have; it fails with the depth error if and only if a differing path lies outside the root. |
| Deltas.FilterDeltas | internal/history/delta.go:122-170 | The first failing check is reported; otherwise exactly the rows of the wanted kind and depth come in their old order, up to the limit, with depths below the root, and a leaf-only filter drops exactly the rows with a reported path below them. |
| Deltas.MarkAncestors | internal/history/delta.go:143-150 | The loop reaches the root because the path lies below it, and marks exactly the proper ancestors. |
| DeltaLaws.AcceptedIsPathTree | internal/history/delta.go:184-201 | In an accepted snapshot no path is overwritten, and each directory's bytes are the sum over the paths directly inside it. |
| DeltaLaws.PairIsCompared | internal/history/delta.go:68-118 | For two accepted snapshots of one root and fingerprint the depth error cannot occur: every path lies below the root. |
| DeltaLaws.LeafGrowth | internal/history/delta.go:122-170 | Level by level, what the leaves grew is what the root grew, up to files that became or replaced nonempty directories. |
| DeltaLaws.LeafRowsSum | internal/history/delta.go:122-170 | The leaf-only rows of two accepted snapshots are an antichain; their apparent deltas sum to the root's growth plus the bytes of files that became directories with entries, less those of files that replaced them. |
| DeltaLaws.LeafRowsAddUp | README.md:313-323 | If no path changes between file and directory, the leaf-only rows sum to the root's growth: no double counting. |
| DeltaLaws.LeafRowsCanDiffer | internal/history/delta.go:122-170 | A concrete pair of accepted snapshots whose leaf-only rows do not sum to the root's growth. |
| Mutations.Session.FindNode | internal/tui/mutations.go:284-299 | The node found has the path asked for, and none is found only if no node has it. |
| Mutations.Session.DeletedCounts | internal/tui/mutations.go:333-347 | The walk counts the failures of the subtree, and the counts are what the node contributes to its parent. |
| Mutations.Session.DeleteNeedsReconciliation | internal/tui/mutations.go:312-331 | True exactly if links are followed or bytes may have moved to another name. |
| Mutations.Session.DirectorySelfAllocation | internal/tui/mutations.go:237-243 | What the children leave over, each subtraction stopping at zero; on measured trees that is the exact rest (TreeDelete.LeftOverIsRest). |
| TreeDelete.LeftOverIsRest | internal/tui/mutations.go:237-243 | If the children hold no more than the directory, subtracting them one by one, each time stopping at zero, leaves exactly the difference from their sum. |
| Mutations.Session.RefreshParent | internal/tui/mutations.go:249-282 | The change of the directory's own allocation and its new time reach exactly its ancestors; an overflow stops it and is reported. |
| Mutations.Session.PatchTree | internal/tui/mutations.go:175-206 | The node is cut off and every ancestor gives up what it held; what that means for a measured tree is TreeDelete.DeleteKeepsScannerTree. |
| Mutations.Session.RemoveDeletedNode | internal/tui/mutations.go:169-235 | It reports exact exactly if the deletion is unambiguous and the directory could be inspected without overflow; tree and counters are then the patched ones. |
| TreeDelete.NoFloor | internal/tui/mutations.go:385-397 | On a measured tree no subtraction ever stops at zero. |
| TreeDelete.ShiftIsGrowth | internal/tui/mutations.go:237-265 | The computed change is the growth of the directory's own allocation. |
| TreeDelete.DeleteKeepsScannerTree | internal/tui/mutations.go:169-282 | After an exact delete the tree satisfies the full aggregate invariant again, with the refreshed own metadata of the directory. |
| Mutations.StatsStillMatch | internal/tui/mutations.go:207-213 | The scan's counters are still the root's counts, and none of them stops at zero. |
| Mutations.PatchedSnapshotAccepted | internal/tui/mutations.go:123-141 | The patched tree can be stored as the newest complete cache generation: it is accepted when read back. |
| DeleteRescan.DeleteIsRescan | internal/tui/mutations.go:163-168 | Take the file system as it is after the deletion, only the entry's directory changed. The authoritative tree of it is the patched tree with its times rebuilt from the directories' own. |
| DeleteRescan.RescanAgrees | internal/tui/mutations.go:163-168 | So whatever a scan of that file system returns is the patched tree in names, places, order, sizes, counts and flags; none of its times is later, and only directories above the entry's own may show an earlier one. |
| DeleteRescan.RescanEqual | internal/tui/mutations.go:163-168 | The times agree too if and only if the entry was directly in the root, or what a scan shows at the directory next above its own, computed here from the old measurements, is no earlier than the deletion and than what the entry's directory showed before. |
| DeleteRescan.RescanTimesDiffer | internal/tui/mutations.go:163-168 | A concrete file system and deletion after which the patched root shows time 9, of the deleted file, and the scan that follows shows 5. |

## Left out

- Operating system calls, handles, symlink resolution, stat workers, semaphores and file locks: atomic steps that may fail.
- Cancellation: a run that is stopped is a run that takes no further step; a cancelled scan's tree is not described beyond the invariant of its states.
- Directory batches: every entry of a batch is published by a step of its own, which allows more interleavings than the code has.
- Follow policy, filters and device boundaries of the scanner: the file system is taken as the policy leaves it, with unique entry names per directory.
- Node objects: identities of one arena stand for pointers, so allocation and aliasing of separate objects are not modelled.
- Wrap-around of 64-bit sums in the scanner: sums are unbounded there; the snapshot check and the parent refresh model their overflow tests.
- Times before the zero time, time zones and monotonic clock readings.
- container/heap, sort and WalkDir: used by contract; Scanner.PopLeast, Query.TopRecordHeap and the walks choose as the library must.
- Clock drift, ownership markers, locks and the record byte limit of the history store; ids are assumed to be key and timestamp names, and a re-encoded record to have its stored size.
- gob, digests, fingerprints and error texts of snapshots: an error is a flag, and base is the last component of the root's path.
- Windows and macOS path spelling and case folding.
- Parameter checks of plan operations (modes, owners, sizes, formats), path resolution and archive contents; a guard's stamp stands for identity, size and time.
- Overwriting in the plan theorem: PlanRuns speaks about plans that refuse conflicts, because the validator does not follow the children of a replaced directory.
- Audit records and the result list of applyPlan beyond which operations were executed and what they created.
- Archive output in the overwrite protocol: the build callback is a contract, met by MovePathNew for moves; archivePathNew ignores a failed clean-up.
- MovePath.Mover.MovePathNew: what the two walks over the source return is given; that others change an object while it is copied and change it back is not excluded, so the copy is known to be the source as it was only while others keep still.
- Overwrite.Destination.Replace: with a guard that expects no destination, an object that came, went, and came again between the checks is set aside without having been reviewed; the claim about reviewed objects is for guards that name one.
- The capture of a tree before its removal: by contract, as a walk whose objects may change afterwards.
- Query filters, metadata inspection and the tree walk that feeds a query: the records arrive in some order.
- Allocated bytes of leaf-only rows: a directory's own allocation changes are dropped by design, so they have no such law.
- DeltaLaws.LeafRowsAddUp: needs two snapshots that the layout check accepts, as both stores give them.
- Selection, marks, expansion and the inspection pane of the interface; a tree that is not complete is always scanned again.
- Mutations.Session.RemoveDeletedNode: after an overflow the allocations of some ancestors are shifted and a scan follows; which ones is not stated.
- DeleteRescan.DeleteIsRescan: the recorded link count is taken to be true, as it is when the plan was made.
- Tie choice in the top-files list, text and table rendering, command wiring, configuration, previews and diagnostics.
