# Verified model of LRM

LRM is a peer-to-peer version control system: peers commit to their own branch, fetch each
other's history, and merge or park what they fetched. This project models its algorithms and
state machines in Dafny 4.11 and proves what they are for. `dafny verify dfyconfig.toml`
checks everything.

- `Dag`, `DagWalk`, `Lca`, `Topo`, `Lanes`: the commit graph, in which a missing commit has no
  parents, and the walks over it: ancestors, merge bases, topological orders, the listing.
- `VectorClock`, `Store`, `Sync`, `LocalMerge`, `Network`, `Session`, `Converge`: a peer's state,
  the local commit, integrate and its merge, and two machines over them. `Network` interleaves
  commits, receipts and integrations of any number of peers and shows that clocks mirror ancestry
  in every run. `Session` runs one whole exchange between two peers; `Converge` shows that it is
  a run of the network and that diverged peers end with the same files.
- `Merge`: the three-way merges of integrate and of cherry-pick and rebase, and the copies kept
  of overlapping files. `Tree`: Merkle trees from flat maps and back. `Fetch`: the twelve rounds
  of the object exchange. `Gc`: health check and collection.
- `Bisect`, `BisectRuns`, `Pick`, `Rebase`: the history commands as machines with sessions.
- `Diff`, `Hunks`, `Blame`: edit scripts, patches and line attribution.
- `Wire`, `Transport`, `Mux`: the two framing layers. `Parser`: expressions of the script language.
- `Text`, `Paths`: strings and tree paths.

Conventions. Content addresses are natural numbers, compared as the hex strings they stand for;
the hash of commits, trees and objects is a parameter assumed injective. Refs, objects and the
working tree are maps. Times, names and other outside choices are parameters, and arbitrary
where the program takes them from the clock. Loops that range over a Go map are loops that pick
any remaining element. A list that the program sorts and takes the head of is a set whose least
element is taken.

Where the code departs from what its comments or its callers suggest, the model follows the code:

- `diff.go` names a context of three lines and a list of hunks. Marking in place while scanning
  forward carries every mark on, so there is one hunk from shortly before the first change to
  the end of the file (`Hunks.MarkChanged`).
- tryMerge compares looked-up hashes, in which an absent path looks like an empty one.
  `Merge.TryMergeExact` gives the condition under which it is the three-way rule;
  `Merge.TryMergeMissesOverlap` is an input where it is not.
- Copy names of overlapping files may already be taken. `Merge.OverlapsLoseNothing` says exactly
  when nothing is overwritten.
- buildLevel sorts entries by name with a sort that does not promise to be stable, so a map that
  holds both a file and a directory of one name may have two roots. `Tree.MapIsRoot` says exactly
  when the root is determined whatever the sort does with equal names; that the sort of today
  happens to be stable on short lists is not modelled.
- integrate returns an error, and keeps no ref on the remote tip, when the merged tree has a path
  that no tree may hold; committing does not object to such a path. The responder of a push drops
  that error. `Sync.FailsExactly` is the exact condition, `Sync.BackslashFails` an input, and
  `Session.RunSession` keeps both tips when both tips' files have clean paths.
- The inconsistent-marks error of a bisect session is unreachable by marking offered candidates
  (`BisectRuns.OfferedRunNeverFails`). For marks on other commits `BisectRuns.MarkFailsExactly` is
  the exact condition and `BisectRuns.InconsistentMarks` gives two inputs.
- A health check visits an address once, whatever it is listed as. A clean report therefore means
  a whole store when references agree on what each address is (`Gc.ReportMeans`), and not always
  otherwise (`Gc.SharedAddressHidesLoss`).
- A read of a whole object stops one byte past its cap without an error, so a collection keeps,
  for a reachable object above 64 MiB, not its content twin but a blob equal to its front.
  `Gc.LeftIsLiveOrTwin` says exactly what is left, `Gc.StrayFrontIsLeft` is an input.
- A push sends at most 500 commits, so the session theorem asks for a history within that limit.
- After a divergent session the two branches do not become equal, because the dialer pushes the
  tip it had before merging: `Converge.DivergedPeersAgree` is about files, not commits.
- The nothing-to-resolve test of a rebase compares tree addresses, not contents.

## Model

| member | source | states |
|---|---|---|
| Dag.AncIsReach | internal/dag/dag.go:196-215 | The finite set of ancestors used throughout is exactly reachability along parent links, missing commits counting as parentless. |
| Dag.AncLeast | internal/dag/dag.go:196-215 | Any set closed under parents that holds a tip holds all its ancestors; the argument every worklist ends with. |
| Dag.AncAntisym | internal/dag/dag.go:61-86 | In a history without cycles two commits that reach each other are one. |
| DagWalk.MarkReachable | internal/dag/dag.go:196-215 | The stack walk with repeated entries adds exactly the ancestors of the tip to a closed set. |
| DagWalk.WalkTipOrder | internal/dag/dag.go:119-168 | Without a repeat and inside the stored ancestors; complete when no limit cuts it; an error only over a missing ancestor; newest first, with nothing newer left out, when no parent is younger than its child. |
| DagWalk.NewestUnseen | internal/dag/dag.go:119-168 | The inner scan finds a newest unseen entry, or reports exactly that an unseen entry is missing. |
| DagWalk.NewestFirstIsTopological | internal/dag/dag.go:119-168 | When every child is strictly newer than its parents, that order is topological. |
| Lca.AncestorDepths | internal/lca/lca.go:215-237 | The breadth-first walk gives every ancestor, and no other commit, its shortest distance. |
| Lca.Reaches | internal/lca/lca.go:96-122 | The bounded walk decides reachability within the given ancestors. |
| Lca.IsAncestorOfAnother | internal/lca/lca.go:18-93 | The inner test is true exactly of a common ancestor that another one descends from. |
| Lca.LowestOf | internal/lca/lca.go:18-93 | What survives the elimination is exactly the common ancestors no other common ancestor descends from. |
| Lca.LowestExists | internal/lca/lca.go:18-93 | Tips with common history always have such a lowest common ancestor. |
| Lca.Find | internal/lca/lca.go:18-93 | An error exactly for disjoint ancestries; otherwise a lowest common ancestor of minimal summed depth; one tip when it is an ancestor of the other; the other tip when one is nil. |
| Lca.IsAncestor | internal/lca/lca.go:132-162 | Exactly reachability, nil and missing commits included. |
| Lca.Diverged | internal/lca/lca.go:166-213 | Exactly the ancestors of the tip that the base does not reach, each once; an error exactly when one of them is missing. |
| Merge.TryMerge | internal/sync/sync.go:1232-1308 | The loop's map and overlap list follow the per-path decision at every path, overlaps sorted and absent from the map; it is the three-way rule wherever no path is blank. |
| Merge.TryMergeExact | internal/sync/sync.go:1254-1300 | tryMerge's switch agrees with the three-way rule at a path exactly when the path is not blank (base and remote differ only in presence of an empty hash while local changed); maps without empty hashes have no blank path. |
| Merge.TryMergeMissesOverlap | internal/sync/sync.go:1254-1300 | A concrete blank path where a two-sided change is not reported. |
| Merge.PickMerge | internal/gitcompat/pick.go:102-137 | applyPick's loop is the three-way rule on optional hashes, on all maps. |
| Merge.MergeUnique | internal/gitcompat/pick.go:102-137 | The rule determines map and overlap list, so both loops give one result on the same maps. |
| Merge.MergeSymmetric | internal/sync/sync.go:1232-1308 | Exchanging the sides changes neither the merged map nor the overlaps. |
| Merge.MergeIdentity | internal/sync/sync.go:1232-1308 | When one side is the base, the result is the other side without overlap. |
| Merge.ConflictCopyInjective | internal/sync/sync.go:831-846 | For one peer and time, different paths get different copy names. |
| Merge.ConflictCopyLonger | internal/sync/sync.go:831-846 | A copy name is never the path it is a copy of. |
| Merge.ResolveOverlaps | internal/sync/sync.go:852-891 | Local versions are kept at their paths and remote ones put at their copy names; an error exactly when a remote blob cannot be copied. |
| Merge.OverlapsKept | internal/sync/sync.go:754-806 | The committed tree holds every overlapping remote version under its copy name, the local version or the merge elsewhere. |
| Merge.OverlapsLoseNothing | internal/sync/sync.go:754-806 | Nothing of the merge or of the local side is overwritten exactly when the copy names are free or hold the same content. |
| Merge.NewCopyNamesLoseNothing | internal/sync/sync.go:754-806 | In particular nothing is overwritten when no copy name is a path of either tip. |
| VectorClock.JoinedIsLub | internal/vectorclock/vectorclock.go:28-34 | The pointwise maximum is the least clock above both. |
| VectorClock.VClock.Increment | internal/vectorclock/vectorclock.go:23-25 | One peer's count rises by one, the others stay. |
| VectorClock.VClock.Merge | internal/vectorclock/vectorclock.go:28-34 | The clock becomes the join of both. |
| VectorClock.VClock.Compare | internal/vectorclock/vectorclock.go:41-64 | -1 exactly for strictly before, 1 for strictly after, 0 for equal or unordered. |
| VectorClock.VClock.Equal | internal/vectorclock/vectorclock.go:67-84 | Equality of counts, absent entries counting as zero. |
| VectorClock.VClock.Concurrent | internal/vectorclock/vectorclock.go:87-89 | True exactly when neither clock is below the other. |
| Paths.CleanCut | internal/merkle/path.go:25-58 | The first segment of an accepted path and what follows it are accepted, so descending into directories stays inside clean paths. |
| Store.Repo.Commit | internal/store/store.go:488-528 | A commit on the branch tip with the tip's clock incremented for this peer; only the branch moves. |
| Store.Repo.Put | internal/dag/dag.go:61-86 | A commit is stored under its content address, and nothing else changes. |
| Store.Repo.Checkout | internal/sync/checkout.go:19-43 | Refuses exactly a commit that cannot be read and a tree with an unclean path, changing nothing; otherwise the working tree becomes the commit's files. |
| Sync.Integrate | internal/sync/sync.go:710-825 | Every case of integrate with its exact condition and new state: adopt, up to date, fast-forward, merge over a best base, park, or refuse; and exactly when it returns an error. |
| Sync.MergeTips | internal/sync/sync.go:754-825 | Diverged tips are merged over the base found, or parked for one of the listed reasons. |
| Sync.TreeToCommit | internal/sync/sync.go:754-800 | The merged tree, with both versions beside each other where files overlap, or a reason to park. |
| Sync.CreateMergeCommit | internal/sync/sync.go:1315-1339 | Refuses exactly trees with unclean paths; otherwise stores tree and commit with both parents and the joined, incremented clock. |
| Sync.ConflictBranch | internal/sync/sync.go:920-938 | One conflict ref moves to the remote tip and nothing else changes. |
| Sync.CleanTipsNeverFail | internal/sync/sync.go:754-825 | When both tips' files have clean paths, no merge is refused. |
| Sync.FailsExactly | internal/sync/sync.go:754-825 | With a single stored merge base, a merge is refused exactly when the tips have truly diverged, no path overlaps, and some path taken from them is unclean. |
| Sync.BackslashFails | internal/sync/sync.go:808-813 | A concrete history in which integrate can only fail, changing nothing, so that no ref leads to the remote tip. |
| LocalMerge.MergeLocalOpts | internal/sync/localmerge.go:50-161 | Adopt, keep, fast-forward, merge with a side preference, or refuse disjoint or unbuildable merges; each outcome with its condition and new state, and exactly when an error is returned. |
| LocalMerge.MergedTree | internal/sync/localmerge.go:98-128 | Every overlapping path takes the preferred side's version or absence, every other path follows the merge; the unresolved list is exactly the overlaps. |
| LocalMerge.SidesMirror | internal/sync/localmerge.go:29-34 | Keeping mine on one side of a merge and taking theirs on the other gives the same tree. |
| LocalMerge.SidedFromTips | internal/sync/localmerge.go:43-49 | Each path of the merged tree comes from one of the tips; a path changed on one side only takes that side. |
| Network.ClocksMirrorAncestry | internal/vectorclock/vectorclock.go:22-89 | In every run of commits, receipts and integrations, x is a proper ancestor of y exactly when Compare of their clocks is -1, and Concurrent holds exactly when neither reaches the other, for distinct stored commits. |
| Network.ClockOrderIsAncestry | internal/store/store.go:488-528 | Under the invariant, a clock is below another exactly when its commit is reached from the other. |
| Network.ClocksIdentify | internal/vectorclock/vectorclock.go:67-84 | In every run, commits with equal clocks are the same commit. |
| Network.RunKeepsInv | internal/sync/sync.go:710-825 | Every state of every run keeps the invariant: clocks grow along parents, each author's commits form a chain, every count is backed by an ancestor, and each branch reaches all its peer wrote. |
| Network.CommitKeepsInv | internal/store/store.go:488-528 | A local commit keeps it. |
| Network.IntegrateKeepsInv | internal/sync/sync.go:710-825 | Every case of integrate keeps it. |
| Network.ReceiveKeepsInv | internal/sync/sync.go:427-496 | Storing fetched commits keeps it. |
| Network.OwnCountOnBranch | internal/sync/sync.go:1315-1339 | No commit counts more of a peer's commits than the peer's own branch. |
| Network.GroundedAcyclic | internal/dag/dag.go:61-86 | Acyclicity follows from the clocks. |
| Session.RunSession | internal/sync/sync.go:378-475 | Between two complete sides: each side receives what it lacks and integrates the other's advertised tip, the responder unless the dialer ended in an error. Both sides end complete, with nothing lost, each branch at its old tip or a descendant, and the other's tip reachable from a ref unless that side's merge was refused. When both tips' files have clean paths the session goes through and both tips are kept. |
| Session.SessionSafe | internal/sync/sync.go:710-825 | Those safety properties follow from what each side received and what its integrate did, whatever the outcome. |
| Session.CleanHalf | internal/sync/sync.go:710-825 | A side whose own and whose peer's tip have clean files takes the tip without an error. |
| Session.FetchGraph | internal/sync/sync.go:427-475 | The level-by-level exchange brings in only the peer's commits, and between closed stores exactly the missing ancestry of the tip. |
| Session.FetchLevel | internal/sync/sync.go:433-475 | One want-have exchange keeps that everything new has its parents stored or pending. |
| Session.PushCommits | internal/sync/sync.go:1065-1136 | Only ancestors of the tip are sent; within the push limit and between closed stores all of them arrive. |
| Session.CollectKnownChain | internal/sync/sync.go:1140-1163 | Stored ancestors of the pushed tip, each once and at most 2000; all of them when there are no more than that. |
| Session.IntegrateSafe | internal/sync/sync.go:710-825 | Whatever the outcome on a complete store: the store stays complete, nothing stored is lost, the branch moves only forward, only it and the peer's conflict ref can move, and unless a merge was refused the remote tip stays reachable from a ref. |
| Converge.DivergedPeersAgree | internal/sync/sync.go:410-416 | After a session over a single merge base in which the dialer merged without an overlap, and without empty hashes, the responder has merged without an overlap too, and both branches stand at commits with the same files. |
| Converge.MirrorOutcome | internal/sync/sync.go:754-825 | A side that meets the same files with local and remote exchanged can only merge, without overlap and to the same files. |
| Converge.MirrorMerge | internal/sync/sync.go:1232-1308 | tryMerge with the sides exchanged, on maps without empty hashes: no overlap in one order means none in the other and the same map. |
| Converge.SessionIsSteps | internal/sync/sync.go:378-475 | What a session does to its two peers is at most four steps of the network machine: each side's receipt and its integration. |
| Converge.SessionContinuesRun | internal/sync/sync.go:378-475 | So a session between two peers of a run continues the run. |
| Converge.SessionClocks | internal/vectorclock/vectorclock.go:22-89 | After it, in each side's own store, of two distinct commits one is a proper ancestor of the other exactly when its clock compares as before, and clocks are concurrent exactly when neither reaches the other. |
| Converge.ReachableStoresAcyclic | internal/sync/sync.go:378-475 | In every run, two peers' stores together are acyclic, as a session between them needs. |
| Topo.TopoOrder | internal/gitcompat/bisect.go:311-366 | Kahn's algorithm with in-degrees lists the whole set, parents first, always taking the earliest ready commit; it fails exactly when a member is missing. |
| Topo.KahnUnique | internal/gitcompat/bisect.go:311-366 | That order is determined by the graph and the set. |
| Bisect.SuspectSet | internal/gitcompat/bisect.go:235-269 | The deletion loops compute exactly the ancestors of the bad commit that every bad mark reaches and no good mark reaches. |
| Bisect.MarkNarrows | internal/gitcompat/bisect.go:235-269 | A mark on an unmarked commit removes exactly what it clears and nothing else. |
| Bisect.Decide | internal/gitcompat/bisect.go:164-230 | Done for a single suspect, the middle untested one of the order, or the skipped range; an error exactly for missing history or no suspect. |
| Bisect.Bisector.Start | internal/gitcompat/bisect.go:76-115 | The session starts exactly when none is active, no scratch branch exists, the working tree is clean, and the bad commit's history is stored and has every good one as a proper ancestor; refused starts change nothing. |
| Bisect.Bisector.Mark | internal/gitcompat/bisect.go:118-161 | A mark is recorded on the named or current commit and the session advances; refused marks change nothing, and a dirty working tree turns a checkout into an error after the mark is saved. |
| Bisect.Bisector.Advance | internal/gitcompat/bisect.go:164-230 | The answer fits the recorded marks, or is an error where a checkout would be needed and the working tree is dirty; only the scratch checkout and the session's fields move. |
| Bisect.Bisector.Reset | internal/gitcompat/bisect.go:387-411 | After whatever marks, refs and HEAD are exactly those that the session started from; refused without a session or over a dirty working tree, changing nothing. |
| Bisect.CanNarrow | internal/gitcompat/bisect.go:271-295 | Whether a mark can still shrink the suspects. |
| BisectRuns.BisectSound | internal/gitcompat/bisect.go:118-230 | If a commit is bad exactly when the culprit is among its ancestors, then after any truthful marks the culprit is a suspect, a Done answer is the culprit and a skipped range holds it. |
| BisectRuns.OfferedMarkProgress | internal/gitcompat/bisect.go:164-230 | A mark on the offered candidate strictly shrinks the untested suspects and keeps a bad-marked top suspect. |
| BisectRuns.OfferedRunNeverFails | internal/gitcompat/bisect.go:164-230 | Marking offered candidates never reaches the inconsistent or internal error, and the number of marks is bounded by the untested suspects. |
| BisectRuns.ErrorMeansNoSuspect | internal/gitcompat/bisect.go:164-230 | With complete history the only possible error is that no suspect is left. |
| BisectRuns.StartTesting | internal/gitcompat/bisect.go:76-115 | A start that offers a candidate leaves a session that such a loop can take up. |
| BisectRuns.Run | internal/gitcompat/bisect.go:416-455 | Marking each candidate as its test turns out ends: with the culprit when nothing is skipped, otherwise with it or a range that holds it, whenever the test tells the culprit's descendants from the rest. |
| BisectRuns.MarkFailsExactly | internal/gitcompat/bisect.go:118-180 | For any accepted mark on any commit, marked before or not: the answer is an error exactly when a good mark's commit reaches every commit that the marks on other commits leave suspect, or a bad mark's reaches none of them. |
| BisectRuns.FreshMarkFailsExactly | internal/gitcompat/bisect.go:118-180 | On a commit not marked before: exactly when it is good and reaches the top suspect, or bad and reaches no suspect. |
| BisectRuns.InconsistentMarks | internal/gitcompat/bisect.go:118-180 | Two accepted marks on a chain of four commits that end in the inconsistent-marks error. |
| BisectRuns.ChainPositions | internal/gitcompat/bisect.go:311-366 | In a linear range the order puts ancestors first, so positions are ancestry. |
| BisectRuns.ChainHalves | internal/gitcompat/bisect.go:192-229 | On a linear range without skips, either verdict on the offered candidate leaves at most half, rounded up. |
| BisectRuns.BisectLogarithmic | internal/gitcompat/bisect.go:164-230 | A linear range of n suspects without skips is decided once 2 to the number of marks is at least n. |
| BisectRuns.BisectRunLength | internal/gitcompat/bisect.go:164-230 | And no such run has more marks than that: 2 to one less than their number is below n. |
| Pick.ApplyPick | internal/gitcompat/pick.go:71-150 | Refused, conflicting paths with nothing changed, or the three-way result over the target's first parent committed on the tip under the given message. |
| Pick.RebaseChain | internal/gitcompat/rebase.go:156-204 | Fails exactly when a commit above upstream is missing or a merge; otherwise the branch's own history, each commit once, oldest first, linked by first parents. |
| Pick.ChainIsDifference | internal/gitcompat/rebase.go:156-204 | That chain is exactly the ancestors of the tip that upstream does not reach. |
| Rebase.Rebaser.Start | internal/gitcompat/rebase.go:69-124 | A start that cannot go ahead changes nothing; otherwise done and pending make up the chain, and the branch does not move before the end. |
| Rebase.Rebaser.Replay | internal/gitcompat/rebase.go:208-237 | Ends stopped at the first pending commit that cannot be played, or finished with the branch alone moved, onto the messages of exactly the commits of the chain that were not skipped, in order; it skips none itself and on disjoint changes never stops. |
| Rebase.Rebaser.ReplayOne | internal/gitcompat/rebase.go:208-237 | One turn records the next original under its own message or changes nothing. |
| Rebase.Rebaser.Finish | internal/gitcompat/rebase.go:240-264 | Only now the branch moves, to the scratch tip, and the scratch branch disappears. |
| Rebase.Rebaser.Continue | internal/gitcompat/rebase.go:270-323 | The stopping commit is recorded with the working tree, or skipped exactly when the tree's address is that of the scratch tip's tree; the replay goes on behind it. Where it cannot resume nothing changes. |
| Rebase.PlayedHolds | internal/gitcompat/rebase.go:270-323 | What is replayed holds every commit at a position that was not skipped, and as many as there are such positions. |
| Rebase.Rebaser.Abort | internal/gitcompat/rebase.go:327-346 | All refs and the head are as they were before the start, and the working tree is the old tip's if that can be checked out. |
| Rebase.RecordNext | internal/gitcompat/rebase.go:208-237 | Adding a commit on the scratch tip keeps the invariant of a rebase underway. |
| Rebase.SkipNext | internal/gitcompat/rebase.go:300-312 | So does skipping. |
| Rebase.ReplayedNext | internal/gitcompat/rebase.go:240-264 | The first-parent path back to upstream spells the recorded messages in order. |
| Rebase.DisjointMerge | internal/gitcompat/pick.go:102-137 | Merging changes that touch other paths than upstream's never overlaps and mixes both. |
| Rebase.MixedIsMerge | internal/gitcompat/pick.go:102-137 | The mixture of disjoint changes is the three-way merge at the fork point. |
| Rebase.SmoothFinish | internal/gitcompat/rebase.go:240-264 | After disjoint changes the finished tip holds the three-way merge at the fork point. |
| Diff.FillTable | internal/diff/diff.go:109-123 | The table filled from the last row holds the length of a longest common subsequence of every pair of suffixes. |
| Diff.LcsOps | internal/diff/diff.go:81-146 | By the table or greedily, the script of the walk. |
| Diff.ScriptValid | internal/diff/diff.go:81-146 | In both branches the script turns the old lines into the new ones step by step. |
| Diff.ScriptSpells | internal/diff/diff.go:81-146 | Equal and deleted steps spell the old lines, equal and added steps the new lines. |
| Diff.LcsBounds | internal/diff/diff.go:109-123 | No common subsequence is longer than the table says. |
| Diff.TableKeeps | internal/diff/diff.go:124-145 | The script of the table branch keeps exactly that many lines. |
| Diff.KeptIsCommon | internal/diff/diff.go:81-146 | The kept lines of any script are a common subsequence. |
| Diff.ScriptOptimal | internal/diff/diff.go:81-146 | With the table, the script keeps as many lines as any common subsequence has and as any other script keeps. |
| Hunks.MarkChanged | internal/diff/diff.go:148-168 | Marking in place while scanning forward marks everything from three steps before the first change to the end. |
| Hunks.OpsToHunks | internal/diff/diff.go:148-213 | At most one hunk, from there to the end of the script. |
| Hunks.HunksApply | internal/diff/diff.go:148-213 | The hunks of any valid script fit the old lines and turn them into the new ones, with exact ranges. |
| Hunks.DiffLines | internal/diff/diff.go:58-73 | Binary exactly for texts with a NUL near the front; otherwise applying the patch to the old text gives the new text, large inputs included. |
| Blame.Blame | internal/gitcompat/blame.go:26-166 | Every tip line is attributed once, with its number and text, to its origin; it fails exactly when the file cannot be opened as text or some line has no origin. The branch for a file absent in the current version is shown never to be taken. |
| Blame.SplitLines | internal/gitcompat/blame.go:170-179 | The lines joined again are the text up to a final newline. |
| Blame.OriginHasTrail | internal/gitcompat/blame.go:86-164 | A line with an origin has a trail through first parents that ends where it was born: at a root or where the script adds it. |
| Blame.TrailEndsAtOrigin | internal/gitcompat/blame.go:86-164 | Every such trail ends at the line's origin. |
| Blame.TrailKeepsText | internal/gitcompat/blame.go:138-162 | Along it the line stands in every version with one text. |
| Blame.SourceIsStep | internal/gitcompat/blame.go:138-162 | A new line has no source exactly when the script adds it, and each is added or kept once. |
| Blame.SourceIncreases | internal/gitcompat/blame.go:138-162 | Carried lines keep strictly increasing numbers. |
| Blame.Renumber | internal/gitcompat/blame.go:138-162 | The index by number and the loop over the script move or attribute each undecided line and no other, and count them. |
| Blame.ChangedStep | internal/gitcompat/blame.go:128-164 | A step over a changed version keeps that undecided lines are in order, distinct, with the tip's text and origin. |
| Tree.TreeStore.BuildTreeFromMap | internal/sync/tree.go:27-36 | Refuses exactly maps with an unclean path; otherwise a stored tree spells the map. |
| Tree.TreeStore.BuildLevel | internal/sync/tree.go:38-85 | The recursion ends on clean paths and stores a tree for everything below the prefix; what was stored stays. |
| Tree.TreeStore.Partition | internal/sync/tree.go:38-55 | Exactly the files directly below the prefix and the names of its subdirectories. |
| Tree.SortEntries | internal/sync/tree.go:77-77 | The same entries in an order that names allow; equal names may stand either way. |
| Tree.TreeStore.PutRawAt | internal/sync/tree.go:87-113 | The object is at its address afterwards and nothing else changed. |
| Tree.TreeStore.Flatten | internal/merkle/merkle.go:259-285 | The recursion over the shared map, errors included. |
| Tree.FlattenBuilt | internal/merkle/merkle.go:259-285 | Flatten of a tree that spells a map is that map, a file beside a directory of the same name included. |
| Tree.RootIsMap | internal/sync/tree.go:27-85 | Equal roots mean equal maps, also between stores. |
| Tree.MapIsRoot | internal/sync/tree.go:77-77 | Whatever order the sort leaves equal names in, equal maps mean equal roots exactly when no path is also a directory of another. |
| Tree.ClashTwoRoots | internal/sync/tree.go:77-77 | With such a clash, at any depth, another order that the sort's contract allows gives the same map another address. |
| Tree.Changes | internal/merkle/merkle.go:300-316 | One change for each path that differs, of the right kind, ordered by path. |
| Tree.TreeStore.Diff | internal/merkle/merkle.go:288-317 | The changes between the two flattened trees, or an error exactly when one cannot be flattened. |
| Tree.DiffPatches | internal/merkle/merkle.go:288-317 | Carrying out the changes on the old map gives the new one. |
| Gc.CollectRoots | internal/gitcompat/gitcompat.go:375-421 | Exactly the recorded heads, tags, shelves and logged old and new tips, the zero address aside. |
| Gc.Vault.Fsck | internal/gitcompat/gitcompat.go:436-540 | The report is fair: only reachable addresses are visited, every problem is that of some use and is told once, no address has two, and counters and bytes are those of the stored objects visited. When references agree on what each address is, everything reachable is visited, every absent or unreadable object is reported, and nothing is reported exactly when everything is there and readable. |
| Gc.ReportMeans | internal/gitcompat/gitcompat.go:436-540 | The same of the report as a function of store and tips; and a store with nothing absent or unreadable always gets a clean report. |
| Gc.SharedAddressHidesLoss | internal/gitcompat/gitcompat.go:441-496 | A concrete store with a clean report although a reachable object is absent: a tree lists one address first as a file and then as a directory. |
| Gc.FsckUnmoved | internal/gitcompat/gitcompat.go:436-540 | The report is the same before and after a collection. |
| Gc.Vault.MarkLive | internal/gitcompat/gitcompat.go:553-612 | Marks exactly what is reachable from the tips, missing objects included. |
| Gc.Vault.MarkTwins | internal/gitcompat/gitcompat.go:619-629 | Adds exactly the content addresses of what is read of reachable objects, which for one above the read cap is its front, whether or not keys added on the way are visited. |
| Gc.Vault.Collect | internal/gitcompat/gitcompat.go:553-670 | Leaves exactly the marked objects, or everything in a dry run; the counters and freed bytes account for the difference. |
| Gc.CollectionSafe | internal/gitcompat/gitcompat.go:553-670 | Nothing reachable is lost or changed, and the same things are reachable afterwards. |
| Gc.LeftIsLiveOrTwin | internal/gitcompat/gitcompat.go:613-629 | Exactly what is left: what is reachable, content twins of what is reachable within the read cap, and the fronts of larger reachable objects; the last kind is left exactly where an unreachable blob holds such a front and no reachable object has its bytes. |
| Gc.StrayFrontIsLeft | internal/cas/cas.go:129-138 | A concrete store with such a blob, which survives the collection. |
| Gc.SecondCollection | internal/gitcompat/gitcompat.go:553-670 | A second collection removes nothing. |
| Gc.LiveAgree | internal/gitcompat/gitcompat.go:436-540 | A store that agrees on everything reachable has the same things reachable. |
| Fetch.Fetcher.MissingObjects | internal/sync/sync.go:499-574 | Once each, exactly what the trees lead to through present objects and the store lacks. |
| Fetch.Fetcher.FetchObjects | internal/sync/sync.go:579-632 | The peer's objects are filed in order; it fails exactly when the peer lacks one. |
| Fetch.Fetcher.FetchAll | internal/sync/sync.go:478-494 | Success means everything below the trees is present; from a peer that holds it all, success comes exactly when no object lies behind more than twelve that had to be fetched. |
| Fetch.RoundAdvances | internal/sync/sync.go:478-494 | A round brings in exactly what lies behind one more missing object. |
| Fetch.DepthAfterRounds | internal/sync/sync.go:478-494 | After k rounds every object less than k links below a tree root is present. |
| Fetch.ShortChainsSuffice | internal/sync/sync.go:1167-1185 | Twelve rounds suffice when no chain of links holds more than twelve objects. |
| Lanes.GraphOrder | internal/cli/graph.go:15-52 | Exactly the ancestors, each once and before its parents, or a front part of that list; an error exactly when one is missing. |
| Lanes.VisitCommit | internal/cli/graph.go:20-40 | The depth-first visit completes a commit after all its parents. |
| Lanes.RenderGraph | internal/cli/graph.go:56-134 | Before each commit the lanes are, once each, the printed commits' listed parents still to come; each commit sits in its lane and its first parent takes it over. |
| Lanes.Advance | internal/cli/graph.go:110-131 | Dropping a column and inserting parents keeps the columns distinct and adds exactly the listed, not yet active parents. |
| Wire.BigEndianReads | internal/mux/mux.go:191-206 | Numbers read back as they were written. |
| Wire.PiecesSpell | internal/transport/transport.go:85-104 | The pieces a write is cut into spell it. |
| Transport.Writer.Write | internal/transport/transport.go:85-104 | Non-empty frames of at most 16 KiB, each under the next number, that spell what was written. |
| Transport.FrameReads | internal/transport/transport.go:106-117 | Every frame written passes the reader's length check and reads back number and sealed bytes. |
| Transport.Reader.ReadFrame | internal/transport/transport.go:131-157 | Whatever bytes arrive, success takes exactly the writer's next frame and failure none; the writer's next frame, arrived whole, is always accepted. |
| Transport.Reader.Read | internal/transport/transport.go:120-129 | Against an arbitrary network, what is delivered is always a prefix of what was written. |
| Mux.DecodedIsPrefix | internal/mux/mux.go:208-233 | Any front part of the written bytes decodes to a front part of the written frames, and all bytes to all frames. |
| Mux.Connect | internal/mux/mux.go:132-144 | Two fresh endpoints conserve every stream. |
| Mux.OpenStream | internal/mux/mux.go:147-157 | A fresh id of this side's parity that neither side has seen. |
| Mux.Write | internal/mux/mux.go:74-91 | All of it in order on its own stream, or nothing on a closed one; every other stream is untouched and all streams stay conserved. |
| Mux.Read | internal/mux/mux.go:44-71 | What is read continues what was read before and is always a prefix of what was written; the end is reported only after everything written was read. |
| Mux.Deliver | internal/mux/mux.go:235-281 | dispatch takes one frame: a reset ends its stream, data and end marks join their stream's queue, a data frame waits on a full queue and an end mark is lost there, and an unknown stream is created and offered for acceptance unless too many wait; all streams stay conserved. |
| Mux.Close | internal/mux/mux.go:94-103 | One end mark, once, and the stream is forgotten. |
| Mux.Reset | internal/mux/mux.go:106-111 | Only the reset stream is disturbed. |
| Mux.AcceptStream | internal/mux/mux.go:160-166 | Streams are accepted in the order they were announced. |
| Parser.RoundTrip | internal/lr/parser.go:526-798 | Parsing the printing with the fewest parentheses gives the expression back and takes exactly its tokens. |
| Parser.ParsePrint | internal/lr/parser.go:528-685 | At every layer, a printed expression is read whole and the layer reads on behind it. |
| Parser.PrintInjective | internal/lr/parser.go:526-798 | So different expressions are printed differently. |
| Parser.Cursor.ParseLayer | internal/lr/parser.go:528-622 | Each binary layer's loop, on the shared cursor, builds the left-joined expression the layer's grammar gives. |
| Parser.Cursor.ParseUnary | internal/lr/parser.go:624-634 | Prefix operators, to the right. |
| Parser.Cursor.ParsePostfix | internal/lr/parser.go:636-685 | Calls, indexing and members, to the left. |
| Parser.Cursor.ParsePrimary | internal/lr/parser.go:687-727 | Literals, names, parentheses, lists and maps, or an error. |
| Parser.Cursor.ParseList | internal/lr/parser.go:729-756 | Elements with an optional last comma. |
| Parser.Cursor.ParseMapLit | internal/lr/parser.go:758-798 | Keys and values with an optional last comma. |

## Left out

- Network.ClocksMirrorAncestry: clock counters are natural numbers; the wrap-around of 64-bit counters is not modelled, and a run never rewinds a branch or shares one branch name between a peer and its conflict refs.
- Session.RunSession: local commits do not interleave with a session, both sides start complete in ancestry and trees and agree on trees they both hold, and the pushed history is at most 500 commits; an interrupted session may leave less, and the model has no such session. The batches of fifty in which a push is sent are one step.
- Session.RunSession: trees are fetched whole here; the object-level exchange is Fetch, which is not joined with it.
- Converge.DivergedPeersAgree: a single merge base and no empty hashes are required; with several best bases each side may choose another.
- Sync.Integrate: a tree is readable as a whole or not at all; a tree of which only some directories can be read, which Flatten would return in part, is not modelled. Peers whose ids share the first eight characters share a conflict ref, as in the program.
- Store.Repo.Checkout: errors of the filesystem and of reading single files are not modelled.
- Rebase.Rebaser.Continue: the file in which the state survives between commands, the check for a dirty tree and the reflog are a field, a parameter and nothing.
- Bisect.Bisector.Mark: likewise for the state file; every commit it moves to is taken to be one that can be checked out.
- BisectRuns.Run: the command is a function from commits to verdicts that leaves the working tree clean.
- Blame.Blame: hex that does not parse and objects over the read limit count as unreadable objects.
- Tree.TreeStore.Flatten: that content addresses admit no cycle of trees is an assumption of its own (Nested), since an injective hash alone does not exclude one; sizes, modes and the chunked flag of entries are not modelled, and map-built trees drop the flag. Tree.Changes visits the paths in sorted order instead of sorting at the end.
- Gc.Vault.Collect: addresses in tree and commit objects are taken to parse. That subtrees rank below their trees is assumed for the same reason; errors of file removal and of unreadable fan-out directories are not modelled. Problems are reported as a multiset, the program sorts them.
- Fetch.Fetcher.FetchAll: references have to agree on what an address is (Sound), because an unflagged visit hides a later flagged one; the second copy of a fetched tree under its plain content address is not tracked, nor are answers labelled with other addresses than those asked for.
- Lanes.RenderGraph: rows are records of column, width and parents; the text around them is not built.
- Transport.Reader.Read: the handshake and key derivation are not modelled; the cipher is ideal, counters do not wrap within 2 to the 64 frames, and write errors of the connection are not modelled.
- Mux.Read: a stream that its reader closed or either side reset is not claimed to be conserved, and neither is one recreated under a forgotten id; ids do not wrap within 2 to the 32; waking blocked readers when the session dies is not modelled. A step is one frame, so a blocked read loop is a step that does not happen yet.
- Parser.Cursor.ParsePrimary: function literals need statements, which are not modelled, and are an error here; the six binary layers of the program are one method with the layer as a parameter; positions and messages of errors are dropped.
- Cherry: its difference of ancestries is Lca.Diverged and its order that of Topo with another tie-break; the content signatures are not modelled.
- dag.Heads and deriveWorkspace: short folds over the reachability walk.
- Stash, reset, tags, shelves, grep and the other commands of gitcompat: bookkeeping over the same maps.
- Sockets, discovery, relays, the daemon, HTTP pages, the desktop program, the updater and the evaluator of the script language: outside the model.
- JSON, base64, compression and real cryptography: replaced by maps and injective functions.
