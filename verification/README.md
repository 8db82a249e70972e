# Termite, verified

Termite runs the compile commands of a build on other machines. A *worker* gives each command a
file system in which the master's directory shows through read-only and every change stays in
memory (a *union file system*). When the command is done the worker *reaps* that file system: it
lists what differs from the read-only tree. The master *replays* the list on its own disk, tells its
*attribute cache*, and the cache tells the other workers. If all of this is right, a build on twenty
machines leaves exactly the files a build on one machine would have left.

This project is a Dafny model of that machinery and a proof of what it gets right, and of exactly
when it does not. `dafny verify dfyconfig.toml` checks everything.

## How the model is organised

| files | what they model |
|---|---|
| `Paths`, `Spelling`, `PathOrder`, `Trees` | paths, the string functions and the order on them, trees of files |
| `Overlay`, `UnionOps`, `UnionProofs`, `RenameProofs`, `UnionRuns`, `Honesty` | the union file system as a state, its operations as transitions, runs of them, and what a reap then tells |
| `NodeTrees`, `Expansion`, `UnionFs` | the same file system as an object, with the recursive and worklist walks the program makes |
| `FileSets`, `Edits`, `SortedEdits`, `Supply`, `Master` | file sets, their order, and the replay on the master's disk |
| `AttrCache`, `CacheProofs` | the attribute cache: answering, being told, refreshing, copying |
| `RemoteRun`, `RootEntry`, `EndToEnd` | from a reap on the worker to the disk and the cache of the master |
| `ClientFeed` | handing changes to the workers' caches, by many threads |
| `Mirror`, `MirrorProofs`, `MirrorRuns`, `MirrorTraces`, `MirrorSafety` | tasks sharing file systems on a worker, and waiting for them on the master |
| `Jobs`, `Runs`, `Workers`, `WorkerSafety`, `WorkerLife` | a worker with several masters: reserving jobs, never running more, surviving shutdowns |
| `Transfer`, `Lru` | fetching files by hash in chunks, and the fixed-size cache |
| `Removal`, `RemovalSets` | `rm -r`, which the master runs itself |
| `Shell`, `Quoting` | splitting a shell command into words, and what a shell would make of it |

A path is a chain of names (`Paths.Path`); `Spelling` proves that the program's own string functions
are the constructors and destructors of that chain. A node of the union file system is keyed by
where it hangs. System calls are operations on an abstract tree which succeed or fail as the kernel's
would; hashing is an arbitrary function that never yields the empty string. Code that changes an
object is a class (`UnionFs.MemUnionFs`, `Masters.Master`, `AttrCaches.AttributeCache`,
`Jobs.WorkerMirrors`, `Lru.LruCache`), each method proved against a transition function; code that
several threads run at once (`ClientFeed`, `Mirror*`, `Worker*`, `Transfer`) is a state machine whose steps are
the program's critical sections, and its theorems range over every interleaving.

## What was found

Each of these is a lemma, with a concrete input or as part of a theorem that says exactly when the
program is right.

* **Renaming a directory loses changes below it.** The expansion that precedes a rename looks up every
  read-only name again, replacing nodes that had been changed (`UnionRuns.RenameLosesWrite`). The
  rename does what it should if and only if nothing visible would be lost
  (`RenameProofs.RenameMovesViewIff`).
* **A failed truncation makes a later rename invisible to the reap**: the master deletes the file and
  makes no other (`Honesty.RenameHidden`). Nothing else makes a reap wrong (`Honesty.StepReapIff`).
* **Replay hands files out from the wrong end**, so two files with the same contents get each other's
  permissions (`Supply.PermsSwapped`); permissions arrive if and only if they line up for every hash
  (`Supply.PermsRightIff`).
* **A path that changes between file and directory in one task is fatal to the master**
  (`EndToEnd.FileToDirectoryFails`); that is the only way a replay can fail
  (`RemoteRun.ReplyReplayableIff`).
* **With an empty writable root, files that were only moved are sent without a hash**
  (`EndToEnd.ReplyHashMissingIff`, `EndToEnd.MovedFileUnhashed`).
* **A task that finishes early can wipe out the ids of tasks that are about to be reaped**
  (`MirrorSafety.RaceLosesIds`); every id is reported exactly once if and only if that does not happen
  (`MirrorRuns.ExactlyOnceIff`). Waiting for such a task ends too early (`MirrorSafety.WaitReturnsTooEarly`).
* **It can also let a new task into a file system that is being reaped**, whose changes are then collected
  under it (`MirrorSafety.IntruderCrowdsIn`, `MirrorSafety.IntruderRobbed`). None of this can happen if and
  only if tasks do not share file systems or there is but one job (`MirrorSafety.EveryRunSafeIff`).
* **A worker can run more commands than it has jobs**: its shutdown strikes out mirrors that it has not
  waited for (`WorkerSafety.EmptiedOverruns`), and so does a master that comes from an address still in use
  (`WorkerSafety.ReusedOverruns`). There is no other way (`WorkerSafety.WithinJobsIff`).
* **Shutting a mirror down can kill the worker**: a task that returns a shared file system has it unmounted
  under the others (`WorkerLife.UnmountedBusy`), and a task without a command cannot be killed
  (`WorkerLife.KilledTooEarly`). Exactly when it survives: `WorkerLife.LivesIff`.
* **Joining a directory and the empty name leaves a trailing slash**, which is nobody's spelling of a
  path (`Spelling.JoinEmptyIsUnclean`); the worker does this for the root of its writable tree, so the
  caches never hear of new permissions there (`EndToEnd.RootUnheard`); exactly when that leaves one wrong is
  part of `EndToEnd.Deliver`.
* **`Send` promises file sets, not cache fills** (`ClientFeed.FillsMayWait`).
* **Adding a key that is present breaks the cache's index** (`Lru.AddOneToOneIff`), and the key is lost when
  the hand comes to the slot left over (`Lru.ReaddedIsLost`, `Lru.LostByAddsIff`).
* **`rm -r` of overlapping targets is fatal, and a missing target brings its directory back or is fatal
  as well** (`RemovalSets.RemovalUndone`, `RemovalSets.RemovalFatal`); exactly when a list of targets works
  is `RemovalSets.RemovalWorksIff`. It is not enough to look for the two faults one by one: they can make
  up for each other (`RemovalSets.RemovedAgain`, `RemovalSets.OneWayLeft`).
* **A shell command is taken apart wrongly** where a word ends in an escaped space
  (`Quoting.EscapedSpaceLost`), where a backslash or a backquote stands in double quotes
  (`Quoting.WrongInDouble`), at the end of a line (`Quoting.WrongAtLineEnd`), where a word holds a pattern in
  brackets (`Quoting.PatternGetsThrough`), and where a quotation is not closed
  (`Quoting.UnclosedAccepted`); everywhere else it is right (`Quoting.ParseExact`).

## Model

| member | source | states |
|---|---|---|
| `Spelling.SplitRendered` | attr/misc.go:9-13 | SplitPath takes the spelling of a path apart into its parent's spelling and its last name |
| `Spelling.SplitShortens` | attr/misc.go:9-13 | SplitPath shortens every non-empty string, so descending by it ends |
| `Spelling.JoinRendered` | fastpath/path.go:3-20 | joining a path's spelling and a name is the spelling of the child |
| `Spelling.JoinEmptyIsUnclean` | fastpath/path.go:3-20 | joining a non-root path and the empty name spells no path, and splits back into the path and the empty name |
| `Spelling.Join` | fastpath/path.go:3-20 | the index loops compute: trailing slashes of the first part and leading ones of the second removed, one slash between, or the second alone |
| `Spelling.RenderInjective` | attr/misc.go:9-13 | different paths are spelled differently |
| `PathOrder.BelowIsGreater` | attr/fileset.go:20-31 | in the byte order of their spellings a directory comes strictly before everything below it |
| `Overlays.InitialInv` | fs/memunionfs.go:228-246 | a fresh union file system satisfies the invariant and shows exactly the read-only tree |
| `Overlays.ResolveUnexpanded` | fs/memunionfs.go:288-313 | looking names up on demand finds a read-only path iff no deletion mark lies at or above it |
| `Overlays.ViewAt` | fs/memunionfs.go:288-313 | what a process sees, in closed form: the node if there is one, else the read-only entry if it shows through |
| `Overlays.ViewWf` | fs/memunionfs.go:288-313 | the view is a tree: everything in it has a directory above it |
| `Overlays.OpenDirListsView` | fs/memunionfs.go:606-630 | a directory listing shows exactly the visible names with their kinds |
| `Overlays.DiffIsView` | fs/memunionfs.go:93-131 | in every state that satisfies the invariant, the diff applied to the read-only tree gives exactly the view iff no node hides a change, that is, iff every node not marked changed reports what the read-only tree has there |
| `UnionProofs.LookupOk` | fs/memunionfs.go:288-313 | a lookup keeps the invariant and changes nothing that is visible |
| `UnionProofs.MkdirOk` | fs/memunionfs.go:315-325 | mkdir keeps the invariant and adds one directory to the view |
| `UnionProofs.SymlinkOk` | fs/memunionfs.go:347-357 | symlink keeps the invariant and adds one link to the view |
| `UnionProofs.CreateOk` | fs/memunionfs.go:421-438 | create keeps the invariant and adds one empty file to the view |
| `UnionProofs.UnlinkOk` | fs/memunionfs.go:327-345 | unlink and rmdir keep the invariant and take exactly the subtree of the name out of the view |
| `UnionProofs.PromoteOk` | fs/memunionfs.go:487-507 | copying a file on first write keeps the invariant and the view |
| `UnionProofs.WriteOk` | fs/memunionfs.go:509-535 | a write changes the contents of that file alone, never those of another node |
| `UnionProofs.TruncateOk` | fs/memunionfs.go:557-572 | truncation changes that file alone if it succeeds, and nothing visible if it fails |
| `UnionProofs.ChmodOk` | fs/memunionfs.go:583-590 | chmod changes the permissions of that path alone |
| `UnionProofs.ResetOk` | fs/memunionfs.go:75-91 | from every reachable state Reset restores the invariant and the read-only view |
| `RenameProofs.RenameInv` | fs/memunionfs.go:382-404 | rename keeps the invariant |
| `RenameProofs.RenameView` | fs/memunionfs.go:360-404 | the view after a rename: the tree without source and destination, plus what the expansion carried along, at the destination |
| `RenameProofs.RenameMovesViewIff` | fs/memunionfs.go:360-404 | rename moves the visible subtree iff the expansion loses no change below it |
| `UnionRuns.StepInv` | fs/memunionfs.go:281-404 | every operation the kernel may issue keeps the invariant |
| `UnionRuns.StepRefinesIff` | fs/memunionfs.go:281-404 | every operation does to the view what it does to a plain tree, iff it is not a rename that loses something |
| `UnionRuns.RunInv` | fs/memunionfs.go:281-404 | the invariant holds in every state of every run, and the read-only tree is never touched |
| `UnionRuns.UnionRefinesPlain` | fs/memunionfs.go:281-404 | a run of faithful operations shows what the same run shows on a plain copy of the tree |
| `UnionRuns.UnchangedLosesNothing` | fs/memunionfs.go:360-404 | where no node hides a change, renaming a directory with no changed node below it loses nothing |
| `UnionRuns.RenameLosesWrite` | fs/memunionfs.go:360-380 | counterexample: look a file up, rewrite it, rename its directory, and the old contents are back |
| `Honesty.BlindStep` | fs/memunionfs.go:281-590 | for every operation, told from the state before it: which nodes hide a change afterwards |
| `Honesty.StepReapIff` | fs/memunionfs.go:382-404 | from a state where nothing is hidden, the reap after any operation is right iff the operation is not the rename of a file promoted for a failed truncation to where the read-only tree does not show that very file |
| `Honesty.ReapDeliversView` | fs/memunionfs.go:93-131 | after any run the diff applied to the read-only tree is the view iff no node hides a change, as none does without such a rename; and Reset goes back to the read-only tree |
| `Honesty.FailedTruncateUntouched` | fs/memunionfs.go:557-572 | a truncation that fails leaves a file with its own backing file that is not marked changed |
| `Honesty.RenameHidden` | fs/memunionfs.go:382-404 | counterexample, a run from the start: look a file up, fail to truncate it, rename it, and the reap reports it gone without saying where it went |
| `NodeTrees.ReapNode` | fs/memunionfs.go:632-647 | the recursion notes exactly the changed nodes at or below a node |
| `NodeTrees.MarkEntries` | fs/memunionfs.go:118-125 | reading a directory marks all its entries and stacks exactly its directories |
| `NodeTrees.MarkGone` | fs/memunionfs.go:102-127 | the worklist marks exactly the read-only paths at or below a deleted name, and ends |
| `NodeTrees.ReapDeleted` | fs/memunionfs.go:102-127 | over all marks: exactly the read-only paths covered by one |
| `Expansion.LookUpAll` | fs/memunionfs.go:365-369 | looking up every read-only name in a directory replaces exactly the branches that show through |
| `Expansion.MaterializeSelf` | fs/memunionfs.go:360-371 | a directory is expanded, marked, and stops following the read-only tree |
| `Expansion.Materialize` | fs/memunionfs.go:373-380 | the recursion leaves a fresh node wherever the read-only tree shows through and keeps every other branch, in closed form |
| `Expansion.MarkChanged` | fs/memunionfs.go:406-411 | exactly the nodes at or below the given one are marked changed |
| `Expansion.WalkComplete` | fs/memunionfs.go:373-380 | expanding a directory and then each child is expanding the subtree |
| `UnionFs.ExpansionIs` | fs/memunionfs.go:360-411 | the walk followed by the marking is the expansion the rename transition is stated with |
| `UnionFs.ResetIs` | fs/memunionfs.go:649-677 | the recursion of reset is: a node survives iff it and all above it still stand for their own read-only path |
| `UnionFs.MemUnionFs.constructor` | fs/memunionfs.go:228-246 | the new object shows the read-only tree |
| `UnionFs.MemUnionFs.Lookup` | fs/memunionfs.go:281-313 | returns what the walk resolves to, and carries out the transition |
| `UnionFs.MemUnionFs.Mkdir` | fs/memunionfs.go:315-325 | carries out the transition, keeps the invariant, and refines the plain operation |
| `UnionFs.MemUnionFs.Unlink` | fs/memunionfs.go:327-345 | carries out the transition, keeps the invariant, and refines the plain operation; reports if there was a node |
| `UnionFs.MemUnionFs.Symlink` | fs/memunionfs.go:347-357 | carries out the transition, keeps the invariant, and refines the plain operation |
| `UnionFs.MemUnionFs.Create` | fs/memunionfs.go:421-438 | carries out the transition with a backing file of its own, keeps the invariant, and refines the plain operation |
| `UnionFs.MemUnionFs.Promote` | fs/memunionfs.go:487-507 | gives a file without backing file one with the same contents, once |
| `UnionFs.MemUnionFs.OpenWrite` | fs/memunionfs.go:509-515 | opening for writing changes nothing visible |
| `UnionFs.MemUnionFs.Write` | fs/memunionfs.go:517-526 | writing to an open file refines the plain write |
| `UnionFs.MemUnionFs.Truncate` | fs/memunionfs.go:557-572 | carries out the transition for both outcomes of the system call |
| `UnionFs.MemUnionFs.Chmod` | fs/memunionfs.go:583-590 | carries out the transition, keeps the invariant, and refines the plain operation |
| `UnionFs.MemUnionFs.Reap` | fs/memunionfs.go:93-131 | returns exactly the diff: applied to the read-only tree it gives the view iff no node hides a change |
| `UnionFs.MemUnionFs.ResetNode` | fs/memunionfs.go:649-677 | resets the subtree and says whether the node must be cut off |
| `UnionFs.MemUnionFs.Reset` | fs/memunionfs.go:75-91 | the view is the read-only tree again |
| `UnionFs.MemUnionFs.TakeAlong` | fs/memunionfs.go:394-398 | the subtree that a rename carries is expanded iff it still follows the read-only tree |
| `UnionFs.MemUnionFs.Rename` | fs/memunionfs.go:382-404 | carries out the transition; moves the view iff nothing is lost |
| `UnionFs.MemUnionFs.PerformAll` | fs/memunionfs.go:281-404 | performing a list of operations on the object is the run of transitions |
| `FileSets.LessTransitive` | attr/fileset.go:20-31 | the order of file sets is transitive |
| `FileSets.LessTotal` | attr/fileset.go:20-31 | two entries are ordered unless they have the same path and are both or neither deletions |
| `FileSets.Sort` | attr/fileset.go:20-37 | for any set: a permutation of the input in which nothing comes before anything less; strictly sorted if no two entries have the same place in the order |
| `FileSets.SortedUnique` | attr/fileset.go:20-31 | with distinct keys there is only one sorted order |
| `Edits.EditAllResult` | termite/master.go:443-494 | what a replay leaves: removed paths gone, the others put on top, whatever the order within the set |
| `SortedEdits.SortedReplayableIff` | termite/master.go:443-494 | a sorted set can be replayed step by step iff every removed directory's entries are removed, every put has a directory above it afterwards, and no put changes a kind it cannot |
| `SortedEdits.ReplayedWf` | termite/master.go:443-494 | a replay that goes through leaves a tree |
| `Supply.Balance` | termite/master.go:517-584 | at every step, for every hash: files in the pile and in the tally account for deletions, copies and uses |
| `Supply.NeverEmpty` | termite/master.go:517-584 | the second pass never pops an empty pile, whatever the order of the set |
| `Supply.ReceivedClosed` | termite/master.go:462-515 | in a sorted set, the n-th file wanted with a hash gets the n-th from last of copies and deleted files |
| `Supply.PermsRightIff` | termite/master.go:462-515 | every file gets its permissions iff they line up for every hash |
| `Supply.PermsSwapped` | termite/master.go:517-584 | counterexample: two new files with the same contents get each other's permissions |
| `Masters.Master.Prepare` | termite/master.go:526-578 | the first pass: hashes of files to be deleted are noted, and as many copies made as deletions will not supply |
| `Masters.Master.ReplayDeletion` | termite/master.go:446-460 | a deletion removes the path, or keeps its file for reuse when its hash is wanted |
| `Masters.Master.PutDir` | termite/master.go:462-471 | a directory entry makes the directory, or finds one there, iff the step can be carried out; anything else is left alone |
| `Masters.Master.PutFile` | termite/master.go:472-479 | an entry with a hash renames the last file of that pile into place, iff the step can be carried out |
| `Masters.Master.PutLink` | termite/master.go:480-486 | an entry with a link target replaces what is there by the link, iff the step can be carried out |
| `Masters.Master.ReplayPut` | termite/master.go:462-494 | a put leaves what the entry describes, with contents of exactly its hash |
| `Masters.Master.ReplayAll` | termite/master.go:443-515 | the second pass succeeds iff every step can be carried out |
| `Masters.Master.RemoveLeftovers` | termite/master.go:508-514 | no temporary file is left |
| `Masters.Master.Replay` | termite/master.go:517-584 | succeeds iff the set is replayable; then every touched path is as the set says, every other as it was, each file has the contents of its hash, no temporary file is left, and the attributes read back are those on disk |
| `RemoteRun.FillReply` | termite/task.go:136-186 | the loop sends exactly one entry for every result, under the writable root, sorted |
| `RemoteRun.ReplyReplayableIff` | termite/master.go:443-494 | a reaped set can be replayed iff it reports no path as changed between directory and something else |
| `RemoteRun.ReplyDelivers` | termite/master.go:443-494 | replaying a reaped set makes the writable root exactly what the reap reports and touches nothing outside it |
| `RemoteRun.ReplyPermsIff` | termite/master.go:462-515 | file permissions arrive as well, iff they line up for every hash |
| `EndToEnd.ReplyHashMissingIff` | termite/task.go:152-160 | a changed file is sent without a hash iff the writable root is empty and the file has no backing file |
| `EndToEnd.MovedFileUnhashed` | termite/task.go:152-160 | counterexample, a run from the start: a file looked up and renamed under an empty writable root is sent without a hash |
| `RootEntry.HeardCoherent` | attr/attrcache.go:275-328 | after a replay the cache is coherent with the disk as it has heard of it: with the old permissions of the writable root, whose entry it does not understand |
| `RootEntry.RootUnheardIff` | attr/attrcache.go:275-328 | it is coherent with the disk itself iff that directory is not cached or is as it was |
| `RootEntry.ReplayReply` | termite/master.go:443-584 | replaying what a task sent: succeeds iff every step can be carried out; the cache is coherent afterwards iff, told from disk, cache and set before the call, the set gives the writable root no new permissions, or that directory is neither cached nor above anything to be deleted |
| `EndToEnd.WholeIff` | termite/master.go:462-515 | everything arrives with its permissions iff the changed files do; what the set does not mention is exactly as it was |
| `EndToEnd.Deliver` | termite/task.go:136-186 | reap, send, sort, replay and tell the cache: succeeds iff kinds are kept; then delivers what the reap reports, with permissions iff they line up for every hash; and leaves the cache coherent iff, told from the union file system and the cache before the call, the writable root has its old permissions, or is not cached and nothing is gone |
| `EndToEnd.RunTask` | termite/task.go:38-68 | any task run on a worker: the same; and if no rename lost a change, what is delivered is what the same operations leave on a plain copy iff no node hides a change, as none does without the rename above |
| `EndToEnd.RootUnheard` | attr/attrcache.go:275-328 | counterexample, a run from the start: a task that gives its writable root new permissions leaves every cache that knows that directory incoherent |
| `EndToEnd.FileToDirectoryFails` | termite/master.go:462-479 | counterexample: replacing a file by a directory in one task cannot be replayed |
| `AttrCaches.CoherentVerifies` | attr/attrcache.go:142-184 | a cache coherent with a tree passes its own self-check |
| `AttrCaches.LocalGetRight` | attr/attrcache.go:201-218 | an answer from an entry, or negatively from the parent's listing, is what the tree says |
| `AttrCaches.ParentSettles` | attr/attrcache.go:232-247 | a right answer for the parent settles whether a name exists |
| `AttrCaches.AttributeCache.Fill` | attr/attrcache.go:248-273 | filling in an entry keeps coherence and answers rightly |
| `AttrCaches.AttributeCache.UnsafeGet` | attr/attrcache.go:232-273 | the recursive fill answers as the tree would, caches only the path and directories above it, and ends |
| `AttrCaches.AttributeCache.Get` | attr/attrcache.go:193-230 | exactly what an uncached look at the tree would say; nothing cached is disturbed, and exactly what exists of the path and the directories above it is cached besides |
| `AttrCaches.AttributeCache.Update` | attr/attrcache.go:275-328 | the loop applies the batch entry by entry, or stops where the program panics |
| `CacheProofs.RemovedCoherent` | attr/attrcache.go:281-310 | telling the cache of a removed path keeps it coherent with the tree without it |
| `CacheProofs.PutCoherent` | attr/attrcache.go:281-328 | telling it of a put path keeps it coherent, also for a new directory that comes without a listing |
| `CacheProofs.CacheFollows` | attr/attrcache.go:281-328 | a whole batch takes a cache coherent with one tree to one coherent with the next |
| `CacheProofs.ReplayKeepsCoherence` | termite/master.go:443-507 | told of the attributes read back after a replay, the cache is coherent with the new disk |
| `CacheProofs.RefreshCoherent` | attr/attrcache.go:330-390 | a refreshed cache is coherent with the tree as it is now, whatever happened to the tree, if equal stat data means an unchanged entry |
| `CacheProofs.Collect` | attr/attrcache.go:340-384 | exactly the cached paths that are gone or have new stat data are collected |
| `CacheProofs.Refresh` | attr/attrcache.go:330-390 | Refresh of the whole cache ends coherent with the new tree |
| `CacheProofs.CopyFiles` | attr/attrcache.go:399-408 | the copy is every entry once, sorted |
| `CacheProofs.CopyReproduces` | attr/attrcache.go:399-408 | applying the copy of a self-consistent cache to an empty one gives the same cache, no entry dropped |
| `CacheProofs.CoherentSelfConsistent` | attr/attrcache.go:142-184 | every coherent cache is self-consistent |
| `CacheProofs.KnownHashes` | termite/master.go:529-535 | the hashes reported for paths to be deleted are those on disk, and exactly what exists at or above such a path is cached besides |
| `CacheProofs.ReplayFileSet` | termite/master.go:517-584 | disk and cache change together: after a replay the cache is coherent with the new disk, also if new directories come with their empty listing |
| `ClientFeed.StepInv` | attr/attrcache.go:43-114 | every step of the client protocol keeps the invariant |
| `ClientFeed.RunInv` | attr/attrcache.go:43-114 | the invariant holds in every state of every run |
| `ClientFeed.FeedInOrder` | attr/attrcache.go:57-114 | delivered, then in flight, then pending, is the initial snapshot followed by everything queued since, in order; and sentId never passes pendingId |
| `ClientFeed.OneBatchAtATime` | attr/attrcache.go:76-102 | at most one thread at a time sends to a client |
| `ClientFeed.SendDelivers` | attr/attrcache.go:76-102 | when Send returns for a registered client, everything queued before the call has been delivered, whoever sent it |
| `ClientFeed.SentIdGrows` | attr/attrcache.go:76-102 | sentId never goes back, and what was delivered or logged is never taken back |
| `ClientFeed.FillsMayWait` | attr/attrcache.go:267-271 | a cache fill may still be pending when Send returns |
| `ClientFeed.FillsCanWait` | attr/attrcache.go:43-114 | the states in which this happens are reached from the start |
| `MirrorProofs.StepInv` | termite/mirror.go:108-192 | every step of tasks, reaps and waiting keeps the invariant |
| `MirrorRuns.MirrorBounds` | termite/mirror.go:108-192 | no more tasks run than granted, no epoch has more than ReapCount ids, and no task runs in a file system that is marked as being reaped |
| `MirrorRuns.RunningBound` | termite/mirror.go:108-152 | the running tasks of a mirror never exceed its grant |
| `MirrorRuns.ExactInvMeans` | termite/mirror.go:159-192 | as long as nothing is lost, every accepted id is in exactly one place |
| `MirrorRuns.ExactlyOnceIff` | termite/mirror.go:159-192 | every accepted id is accounted for exactly once iff no return has reset a file system between being marked and having its ids read |
| `MirrorTraces.OwnIdIff` | termite/mirror.go:159-192 | for every reap in every run: a task reads its own id among those it will report iff no return reset its file system between its joining and its reading the ids |
| `MirrorTraces.ReplyRightIff` | termite/task.go:38-68 | for every reply: it carries the changes of exactly the tasks it names iff nobody joined out of step, that is, every task that had joined is named iff its changes had not been collected before |
| `MirrorTraces.ReporterIsLast` | termite/mirror.go:159-192 | who reports an id: any other task that is named finished before the reporter did iff the reporter is named, too |
| `MirrorTraces.CrowdedIff` | termite/mirror.go:122-192 | somewhere in a run a task runs in a file system that another is reaping iff someone joined it between a return that reset it and the collection of its changes |
| `MirrorTraces.WaitRightIff` | attr/filesetwaiter.go:22-90 | when Wait has returned for a task that brought no set, one that names it has been replayed; for one that did, iff no return reset its file system between its joining and its reading the ids, or another task whose reply was replayed read them after it joined and before such a return |
| `MirrorSafety.RaceLosesIds` | termite/mirror.go:159-192 | counterexample: an interleaving in which two ids are never reported |
| `MirrorSafety.WaitReturnsTooEarly` | attr/filesetwaiter.go:22-90 | counterexample, going on from there: Wait returns for one task though no set names it, and the other waits on |
| `MirrorSafety.IntruderCrowdsIn` | termite/mirror.go:122-192 | counterexample: a task joins, and runs in, a file system that another is about to collect |
| `MirrorSafety.IntruderRobbed` | termite/task.go:136-138 | counterexample, going on from there: the changes of the running task are collected under it, for a reply that does not name it |
| `MirrorSafety.UnsharedIsSafe` | termite/mirror.go:122-192 | with one task to a file system or one job, no run has any of this |
| `MirrorSafety.EveryRunSafeIff` | termite/mirror.go:122-192 | each of the four, ids reported once, nobody in a file system being reaped, replies that carry what they name, waits that end in time, holds in every run iff ReapCount is 1 or the mirror has at most one job |
| `Workers.StepInv` | termite/mirrors.go:28-89 | letting a master in, reserving jobs, joining, making, running and ending a command, leaving and returning a file system, shutting a mirror down and dropping it, and the steps of the worker's own shutdown all keep the invariant: each mirror counts no more tasks than it was granted, no more is granted than there are jobs, and commands execute in mounted file systems only |
| `WorkerSafety.WithinJobs` | termite/mirror.go:108-152 | while every mirror at work is registered, every executing command is counted by one of them, so no more execute than there are jobs |
| `WorkerSafety.TidyWithinJobs` | termite/mirrors.go:28-89 | for every ReapCount: in every run in which addresses are fresh and the worker's shutdown, if there is one, strikes out no mirror still at work, there are never more commands executing than jobs |
| `WorkerSafety.EmptiedOverruns` | termite/mirrors.go:74-89 | counterexample, for any number of jobs: two masters are let in, the worker is shut down and lists its mirrors, one master registers and fills all jobs, the map is emptied, and the other is granted all jobs again |
| `WorkerSafety.ReusedOverruns` | termite/mirrors.go:28-53 | counterexample, for two jobs or more: a master that connects from an address still in use takes the place of the other in the map |
| `WorkerSafety.WithinJobsIff` | termite/mirrors.go:28-89 | no run ever has more commands executing than jobs iff addresses are fresh or there is at most one job, and the worker is not shut down or there is none; ReapCount does not matter |
| `WorkerLife.SmallLives` | termite/mirror.go:175-192 | with one task to a file system or one job, and mirrors shut down gently, the worker survives every run |
| `WorkerLife.UnmountedBusy` | termite/fuse.go:59-67 | counterexample: one of two tasks returns their file system to a mirror that is being shut down while the other's command executes in it, and the unmount that fails is a panic |
| `WorkerLife.KilledTooEarly` | termite/task.go:26-32 | counterexample: a connection breaks when a task has joined a file system and has no command yet, and killing that command is a panic |
| `WorkerLife.LivesIff` | termite/mirror.go:77-106 | the worker survives every run iff it has no jobs; if mirrors are only shut down gently, iff it has at most one job or ReapCount is 1 |
| `Jobs.WorkerMirrors.GetMirror` | termite/mirrors.go:28-53 | refuses iff nothing was asked for or nothing is left; otherwise grants what was asked for or all that is left, also under a key that is in use; registered grants never exceed the jobs |
| `Jobs.WorkerMirrors.DropMirror` | termite/mirrors.go:55-63 | gives exactly that mirror's jobs back |
| `Lru.AddOneToOneIff` | cba/lrucache.go:44-59 | adding keeps map and buffer one to one iff the key is new or is the one being evicted |
| `Lru.FoundOneToOne` | cba/lrucache.go:88-106 | a hit keeps map and buffer one to one and loses no key |
| `Lru.GetsLastAdded` | cba/lrucache.go:44-106 | in every run a key that is present has the value last added for it |
| `Lru.Survives` | cba/lrucache.go:44-106 | an entry survives, unchanged, as many adds and hits as the hand is steps away from it |
| `Lru.JustUsed` | cba/lrucache.go:44-106 | the hand is size - 1 steps away from an entry just added or read |
| `Lru.UsedSurvives` | cba/lrucache.go:44-106 | so an entry just added or read is still there, unchanged, after size - 1 further adds and hits |
| `Lru.PresentIff` | cba/lrucache.go:44-106 | in every run, whatever is added again: a key is there iff since it was last added the hand has not come to a slot that holds it, leftover or not, when something else was added |
| `Lru.LostByAddsIff` | cba/lrucache.go:44-59 | told beforehand: a key survives n adds of other keys iff every slot that holds it is at least n steps ahead of the hand |
| `Lru.ReaddedIsLost` | cba/lrucache.go:44-59 | counterexample: an entry re-added under a present key is lost after one more add |
| `Lru.LruCache.Add` | cba/lrucache.go:44-59 | the new state, for every key |
| `Lru.LruCache.Swap` | cba/lrucache.go:61-70 | the two slots are exchanged and every entry still knows its slot |
| `Lru.LruCache.Get` | cba/lrucache.go:88-106 | the value iff the key is present; the new state; the recorded age is the number of turns since the hand left the entry |
| `Lru.LruCache.AverageAge` | cba/lrucache.go:81-86 | between 0 and the size |
| `Transfer.Fill` | cba/spliceserver.go:21-48 | the chunks follow each other, only the last is short and flagged, and joined they are the file |
| `Transfer.PrepareInv` | cba/spliceserver.go:141-149 | opening a file for a request keeps the invariant |
| `Transfer.RemoveInv` | cba/spliceserver.go:128-139 | a channel taken from the waiting list has no other owner |
| `Transfer.ReceiveInv` | cba/spliceserver.go:151-156 | a received chunk is the one at the offset asked for, and the channel is then just behind it |
| `Transfer.InsertInv` | cba/spliceserver.go:119-126 | a channel goes back under the offset it is at |
| `Transfer.StepInv` | cba/spliceserver.go:92-163 | every step of any number of requests keeps the invariant |
| `Transfer.AnswersAreRight` | cba/spliceserver.go:92-117 | under any interleaving every answer is the file's bytes at the offset asked for, with the last flag iff it came up short; a file that was there is found; no request waits on a closed channel |
| `Transfer.Fetch` | cba/client.go:75-128 | rebuilds the file exactly, in floor(L/c)+1 requests when the two chunk sizes agree; gives up only on a request that was not answered |
| `Transfer.FetchFile` | cba/client.go:75-128 | a fetch from a server that serves others at the same time yields the stored file, so the corruption check never fires; it fails only if a call does |
| `Removal.RecurseNames` | termite/masterrun.go:31-45 | through the cache and in any order of names: every path of the subtree exactly once, children before parents |
| `Removal.DeletionsReplay` | termite/master.go:446-460 | deleting a closed list works, each directory being empty when its turn comes |
| `Removal.ScriptRemoves` | termite/masterrun.go:77-92 | the edit list of one target can be replayed and removes exactly its subtree |
| `Removal.RootFails` | termite/masterrun.go:77-92 | the edit list for the root directory can never be replayed |
| `Removal.RemoveRecursively` | termite/masterrun.go:77-92 | rm -r of one target: the disk is the old one without the subtree, and the cache has followed |
| `RemovalSets.RmScript` | termite/masterrun.go:77-92 | the loop builds the edit lists of all targets, one after the other |
| `RemovalSets.RemovalReplay` | termite/masterrun.go:77-92 | for any list of targets, existing or missing: the replay goes through iff each finds what it deletes and can put its parent back, and it leaves exactly what no target took for good |
| `RemovalSets.RemovalWorksIff` | termite/masterrun.go:77-92 | for any list: it removes exactly the targets' subtrees iff besides that nothing was put back |
| `RemovalSets.OneWayLeft` | termite/masterrun.go:77-92 | if no two existing targets overlap, or if no missing target follows an existing one at or above its directory, it works iff both hold |
| `RemovalSets.RemovalUndone` | termite/masterrun.go:77-92 | counterexample: a missing target below one that is removed leaves an empty directory behind |
| `RemovalSets.RemovalFatal` | termite/masterrun.go:77-92 | counterexample: two directories down, it makes the replay fail |
| `RemovalSets.RemovedAgain` | termite/masterrun.go:77-92 | the two faults can make up for each other: a list with both of them works |
| `Shell.ParseCommand` | termite/misc.go:125-196 | the loop computes the parse |
| `Shell.SegmentSteps` | termite/misc.go:133-178 | a bare, escaped, single-quoted or double-quoted piece adds to the word what the program takes it for |
| `Shell.WordCount` | termite/misc.go:182-195 | exactly the words that do not end in an escaped space are added to the result |
| `Shell.FlatText` | termite/misc.go:125-196 | whatever the text, all that is taken is kept, in order, in the result or in the word at hand |
| `Shell.EveryLine` | termite/misc.go:125-196 | every command line the parser does not give up on and in which every quotation is closed is written in these ways |
| `Shell.GivesUp` | termite/misc.go:179-181 | a shell metacharacter outside quotes makes the parser give up, whatever follows |
| `Shell.GivesUpInDouble` | termite/misc.go:155-156 | so does a dollar in double quotes |
| `Quoting.ParseIff` | termite/misc.go:77-196 | the parser finds the words a shell would find, or gives up as it promises, iff up to the last word none ends in an escaped space or holds a pattern in brackets, a line continuation, a form feed outside quotes or, in double quotes, a backquote or a backslash that stands for itself, and no line ends between them |
| `Quoting.ParseExact` | termite/misc.go:121-196 | the same for every command line, unless the parser gives up or the line ends inside a quotation |
| `Quoting.EscapedSpaceLost` | termite/misc.go:182-195 | counterexample: an escaped space runs two words together, and at the end of a command loses the word |
| `Quoting.WrongInDouble` | termite/misc.go:142-161 | counterexamples, for every ordinary character: in double quotes a backslash before it is dropped; and a backquote gets through |
| `Quoting.WrongAtLineEnd` | termite/misc.go:162-190 | counterexamples: a continued line leaves its end in the word, two lines become one command, a form feed ends a word |
| `Quoting.UnclosedAccepted` | termite/misc.go:192-195 | counterexample: a quotation that is never closed is accepted |
| `Quoting.PatternGetsThrough` | termite/misc.go:86-89 | counterexample: a word with a pattern in brackets is taken for a name |
| `Quoting.PrintedParsesBack` | termite/misc.go:125-196 | any words, each printed bare, single-quoted or double-quoted as suits it and joined by spaces, parse back |
| `Quoting.PrintedRightIff` | termite/misc.go:77-196 | and a shell would read them so, too, iff no word printed bare holds a pattern in brackets |

## Assumptions

* The kernel issues an operation only where it makes sense: the parent is a directory, a name to be
  created is free, a rename's destination is not inside its source or the other way round and has
  nothing visible below it (`UnionOps.Enabled`).
* The content store holds what its hashes say, and the hash of every file a reply mentions is in it
  by the time it is replayed. Hashes are never empty. Nothing else is assumed of hashing, so "the same
  contents" on the master's disk means "contents with the same hash".
* Equal stat data means an unchanged entry (`CacheProofs.StatTells`); modification times are one
  number, compared for equality only by `Refresh`.
* Reading a file yields all that is asked for or all that is left.
* `get` on the cache is atomic and its getter reports the tree.
* A file of a reply is replayed only if it has a hash (`RemoteRun.HashesSent`); when it has none is said by
  `EndToEnd.ReplyHashMissingIff`.
* The meaning of a shell command is that of sections 2.2 (Quoting), 2.3 (Token Recognition) and 2.13 (Pattern
  Matching Notation) of the POSIX.1-2017 Shell Command Language, in its POSIX locale. Reserved words,
  built-in commands and assignments are taken to mean themselves; the shell wrapper hands commands that
  begin with one to a shell.
* Unmounting a file system fails exactly while a command executes in it (`Workers.Busy`).

## Left out

- UnionFs.MemUnionFs.Rename: the object tree is a map from places to nodes, so what a process does with
  an open handle on a node that has been cut off is not modelled.
- UnionFs.MemUnionFs.Reap: the wait until no file is open for writing is left out.
- AttrCaches.AttributeCache.Get: the `busy` marks that make concurrent lookups of one name wait are left
  out, as is a getter that returns nothing.
- CacheProofs.Refresh: the goroutines that collect the changes are one loop, and only the refresh of the
  whole cache is modelled.
- RemoteRun.FillReply: the root entry of a reply is filed under the writable root itself; the program
  leaves a trailing slash there (`Spelling.JoinEmptyIsUnclean`). What the cache makes of that is modelled
  where the cache is told (`RootEntry.Heard`).
- ClientFeed.SendDelivers: sends that fail, after which sentId advances all the same, are left out.
- MirrorTraces.WaitRightIff: `flush`, which releases waiters after an error, is left out.
- MirrorProofs.StepInv: shutting a mirror down is left out here; `Workers` has it, and leaves out what a
  task reports.
- Workers.StepInv: a command that is killed may take any time to end; the reaping of a file system is not a
  step of its own here, and neither is closing the worker's listener.
- Transfer.AnswersAreRight: splice pipes are byte sequences; the timing and throughput statistics are left
  out.
- Lru.LruCache.Get: the sums of ages and lookups are unbounded integers.
- Removal.RemoveRecursively: one target other than the root directory, for which see `Removal.RootFails`; for
  several targets the edit list is treated on the shape of the tree (`RemovalSets`).
- Shell.ParseCommand: characters are single bytes; what the program does to others (it keeps the low byte of
  each rune) is left out.
- `MemUnionFs.Link`, which turns the tree into a graph, and `MemUnionFs.Update`, which depends on kernel
  notifications.
- Mounting, kernel notifications, inode and file handles, and `StatFs`.
- RPC, sockets, authentication, listeners and the coordinator; choosing a mirror for a task.
- Timestamps, owners, and attribute time-outs.
- `rm` without `-r` and the two forms of `mkdir` in the master: easy next to `rm -r`.
- `LocalDecider`, `Getopt`, `IntToExponent`, `EncodedAttr`, statistics and status pages.
