# A verified model of the blockDAG consensus

This project models, in Dafny, the parts of the node that decide which blocks come in which order
and what state follows from them, and proves that each accelerated structure agrees with the simple
one it stands for. `dafny verify dfyconfig.toml` checks everything.

The layers, bottom up:

- **Reachability index** (`Types`, `Intervals`, `Tree`, `Labels`, `Store`, `Counting`, `Relabel`,
  `Sliding`, `ChainPath`, `NewLeaf`, `Concentrate`, `Reindex`, `TreeOps`, `Dag`, `Covering`,
  `Deleting`, `Inquirer`). Every block has an interval of labels inside its tree parent's and a
  sorted list of blocks that cover the rest of its future. The specification is plain reachability:
  a block precedes another when a walk along parents leads to it. The invariant `Inquirer.Indexes`
  says that labels are nested and adjacent, covering sets sorted and disjoint, and that the index
  relates every pair of blocks exactly as the DAG does. Adding a block (with whatever reindexing it
  triggers), moving the reindex root and deleting a block keep it.
- **GHOSTDAG** (`Ghostdag`, `BlueSets`, `Colouring`, `Protocol`, `Agreement`, `Linearization`,
  `Engine`, `Anchor`). The specification colours a merge set greedily under the k-cluster rule on
  explicit sets; the code keeps anticone sizes incrementally along the selected chain and is proved
  to compute the same data. `Agreement` shows that a block's data depends on its past alone, and
  `Anchor` what becomes of data and order when the DAG is rebuilt above a pruning point.
- **The node** (`Target`, `NiPoPoW`, `Replay`, `DagState`, `Pruning`, `Checkpoints`, `DagChain`,
  `Node`). The cached state, its checkpoint, dropped transaction bodies, re-anchoring prunes and the
  interlink proof that survives them. Executing a block is an unknown function, so every statement holds
  for all of them. `Node.Serve` puts it together: whatever sequence of blocks, queries, dropped bodies
  and prunes a node is given, the state it reports is the replay of everything since the first genesis.
- **Linear chain and difficulty** (`Difficulty`, `LinearChain`), the **sparse Merkle tree** and the
  accounts above it (`KeyBits`, `Smt`, `AccountsDb`), and the **ordering prototype** that carries
  whole past and blue sets (`Prototype`). `Examples` and `PrototypeExample` hold block DAGs that show
  what can go wrong.

Code that changes things step by step is a class or a method with loops here, proved against
functions on maps, sets and sequences; the lemmas are about those functions.

## Conventions

- A block id is the number its 32 bytes spell. `NONE` (0) is the parent of the tree root and never a
  block; `ORIGIN` (all ones) is the virtual block below genesis. It is a block of the model with an
  empty past.
- Fixed-width integers are unbounded here and their limits are written out. Labels stay within 64
  bits (`Intervals.Interval.Valid`). A checked subtraction below zero, a failed assertion on an
  interval and a split that does not fit end in the status `Panic`; a climb that finds no labels at
  the tree root ends in `DataOverflow`. Methods say for which label capacity neither can happen, and
  `Engine.CAPACITY` blocks fit whatever they are.
- 256-bit arithmetic saturates or is bounded as in the code (`Target`, `Difficulty`); an overflow of
  the total work is the outcome `Overflow`.
- `unwrap` and `panic!` in the colouring code are assertions that are proved.
- Floating point only decides how surplus labels are shared out; the shares are arbitrary here.
- BLAKE3, the identity of a header and proof-of-work checks are arbitrary functions. Where distinct
  headers must have distinct ids, that is a hypothesis (`Pruning.Injective`).
- Every block is worth one unit of work, as in the engine of the source.

## Where the code departs from its comments, or needs a condition

- `protocol.rs:236-241` starts the merge set with every non-selected parent. It is the past of the
  new block less the selected parent and its past exactly if no other parent lies in the past of the
  selected one (`Protocol.MergedExactly`; `Examples.RedundantParent` is a DAG where it is not).
  `DagChain` builds its own blocks on unrelated tips, so they qualify
  (`DagChain.DagChain.NewParents`); for a block from outside it is a precondition, which the index can
  be asked for (`Node.ParentsUnrelated`).
- `dag_chain.rs:830-835` recognises a checkpoint by its length and last block. Continuing from it is
  right for all ways of executing blocks exactly if the checkpointed blocks are a prefix of the order
  (`Replay.PrefixSuffices`, `Replay.PrefixExactly`). The comparison shows that if the block is on the
  selected chain (`Checkpoints.MatchIsExact`), which a caller can check
  (`DagChain.DagChain.CheckpointFits`). If it was merged, the comparison may pass and the state be wrong
  (`Examples.StaleCheckpoint`, `Examples.StaleState`).
- `maybe_advance_checkpoint` builds on the last checkpoint even if the order below it has changed since,
  which again is right exactly if the checkpointed blocks are a prefix (`Replay.PrefixExactly`).
  `VirtualState` answers rightly after such a change too, but its caches are claimed to be right
  afterwards only if there was none.
- `prune_finalized_transactions` after a prune drops bodies that a full replay from the new base runs.
  The state is still found from the checkpoint, but `rebuild_state` goes wrong, for some way of executing
  blocks, exactly if a dropped body was of a block in the order after genesis
  (`DagChain.DagChain.PruneFinalizedTransactions`, `DagChain.DagChain.RebuildExact`), and the next prune
  relies on the same replay. It panics if fewer blocks were executed than the checkpoint holds.
- A prune keeps ancestry among the kept blocks exactly if all of them descend from the pruning point
  (`Anchor.AncestryKept`, `Anchor.DescentNeeded`; `Examples.NotFromTheCut` is a DAG where one does not).
- `dag_chain.rs:1082-1084` says that the blocks left behind the tip hold the difficulty window. They are
  blocks of the order, and the window is one of the chain: with merges the chain from the cut on may be
  shorter (`Examples.ShortWindow`) and the next target change (`Examples.TargetChanges`). `Prune` keeps
  it if that chain is longer than the window.
- An order that is longer by exactly one than what a prune must leave is not cut, even if its second
  block lies on the chain (`dag_chain.rs:1086`; `DagChain.DagChain.CutRetains`).
- A window of 0 or 1 is raised to 2 for the difficulty rule, but only that many headers and one more are
  sampled (`dag_chain.rs:479`, `507`), which never fills it: the target then stays what it was
  (`DagState.TargetHeld`).
- The comment in `target.rs` puts a solution of level k at or below the target over 2^k. It is below
  twice that (`Target.LevelBound`); the comment holds exactly for targets one or two below a power
  of two (`Target.LevelClaim`).
- `work_for_target` documents 2^256 / (target + 1). For target 0 that does not fit 256 bits and the
  code answers the largest number.
- `SparseMerkleTree::from_entries` documents that the last of equal keys counts; the code keeps the
  first (`Smt.DuplicatesMatter`, `Smt.FirstIsKept`).
- `engine.rs:111-114` says that a merge set comes blues first, then reds. The code sorts it as a whole
  by blue work, and that is what puts parents first (`Linearization.ParentsFirst`).
- Hinting at the current reindex root itself is answered with `BadQuery`
  (`TreeOps.FindNextReindexRoot`).
- Adding a block that exists already is reported as such, but only after the block was appended to the
  children of its parent once more (`tree.rs:21-32`); nothing is claimed of the index after that.
- The order of the prototype need not put parents first: it emits a block's blues before its reds.
  It does exactly if no blue that a chain block merges follows a red merged with it
  (`Prototype.TopologicalExactly`; `PrototypeExample.ParentLater` is a DAG where one does).

## Model

| member | source | states |
|---|---|---|
| Intervals.SplitExact | crates/tao-reachability/src/interval.rs:99-114 | parts of exactly the given sizes tile the interval from left to right; any other total is the assertion failure of the source |
| Intervals.SplitExponential | crates/tao-reachability/src/interval.rs:120-148 | every part has at least its size and all parts tile the interval, however the surplus is shared |
| Intervals.Biased | crates/tao-reachability/src/interval.rs:132-145 | whatever share each part is offered, no more than the surplus is handed out and the last part takes the remainder |
| Intervals.SplitHalf | crates/tao-reachability/src/interval.rs:82-95 | left half non-empty, both halves tile the interval, whatever the rounding |
| Tree.AncLinear | crates/tao-reachability/src/inquirer.rs:192-200 | the ancestors of a block form a chain |
| Tree.SubtreeSize | crates/tao-reachability/src/reindex.rs:83-118 | a subtree is its top and the subtrees of its children: the sizes add up to one more |
| Labels.MeetRelated | crates/tao-reachability/src/inquirer.rs:255-276 | laminarity: intervals that share a label belong to an ancestor and a descendant |
| Labels.TreeContains | crates/tao-reachability/src/inquirer.rs:192-200 | in a valid tree one interval contains another exactly if its block is a tree ancestor |
| Labels.OrderKept | crates/tao-reachability/src/inquirer.rs:148-164 | any two valid labellings of one tree put unrelated blocks in the same order, so reindexing never unsorts a covering set |
| Labels.SizeBound | crates/tao-reachability/src/reindex.rs:35-79 | a valid labelling leaves every subtree at least one label a block |
| Store.ReachabilityStore.Insert | crates/tao-reachability/src/store.rs:126-139 | new block with its parent, height, interval and empty lists, or the error for a known one; the new maps are stated whole |
| Store.ReachabilityStore.AppendChild | crates/tao-reachability/src/store.rs:146-150 | the child comes last in the list of its parent; nothing else changes |
| Store.ReachabilityStore.InsertFutureCoveringItem | crates/tao-reachability/src/store.rs:152-161 | the item is spliced in at the index; nothing else changes |
| Store.ReachabilityStore.ReplaceChild | crates/tao-reachability/src/store.rs:168-185 | the child at the index gives way to the replacement list |
| Store.ReachabilityStore.ReplaceFutureCoveringItem | crates/tao-reachability/src/store.rs:187-204 | the item at the index gives way to the replacement list |
| Store.BinarySearchDescendant | crates/tao-reachability/src/inquirer.rs:255-276 | on any ordered list the search ends at the item that starts where the block ends, at the last earlier one that contains it, or at the place where the block belongs |
| Store.SearchHit | crates/tao-reachability/src/inquirer.rs:255-276 | the item that contains the block is the one found |
| Store.SearchIsAncestry | crates/tao-reachability/src/inquirer.rs:204-220 | in a valid tree the search finds something exactly if some item is a tree ancestor; the hit on an equal start label, which the source does not check, is never a coincidence |
| Store.NextChainAncestorUnchecked | crates/tao-reachability/src/inquirer.rs:239-248 | the child through which the labels of the ancestor reach the descendant |
| Counting.SizeFromChildren | crates/tao-reachability/src/reindex.rs:83-118 | once all children are counted the size of the parent follows |
| Counting.PushComplete | crates/tao-reachability/src/reindex.rs:83-118 | the invariant of the counting pass when the last child reports and its parent reports next |
| Counting.AllCounted | crates/tao-reachability/src/reindex.rs:83-118 | when the queue is empty everything below the block has its true size |
| Reindex.ReindexContext.CountSubtrees | crates/tao-reachability/src/reindex.rs:83-118 | afterwards the cached sizes are the true subtree sizes, for the block and everything below it |
| Reindex.ReindexContext.PropagateInterval | crates/tao-reachability/src/reindex.rs:122-139 | succeeds exactly if the interval covers the subtree (or there is nothing below); then everything below is well labelled and no other label has moved |
| Relabel.AllServed | crates/tao-reachability/src/reindex.rs:122-139 | once the queue is empty every block below has a row of its children |
| Sliding.SlidAdjacent | crates/tao-reachability/src/reindex.rs:274-297 | siblings slid by the offset leave no gap; the outer end moves by the offset exactly if nobody grew |
| Sliding.InnerLevel | crates/tao-reachability/src/reindex.rs:299-322 | a slide that nobody grows from keeps the surrounding subtree well labelled and frees the offset at that end |
| Sliding.OuterLevel | crates/tao-reachability/src/reindex.rs:174-222 | a slide that the allocation block grows from puts everything below its parent in order |
| Reindex.ReindexContext.OffsetSiblings | crates/tao-reachability/src/reindex.rs:274-322 | each sibling between the chain block and the allocation block slides by the offset with its size kept, the allocation block grows by it, and no other label outside their subtrees changes |
| Reindex.ReindexContext.FindDonor | crates/tao-reachability/src/reindex.rs:182-208 | the walk ends at the first chain block with enough free labels or at the reindex root; what it is asked for is what the blocks above cannot give |
| ChainPath.PathBudget | crates/tao-reachability/src/reindex.rs:174-222 | what a chain block is asked for is positive at every step, so no subtraction underflows |
| ChainPath.NextOnChain | crates/tao-reachability/src/reindex.rs:174-222 | the search among the children of a chain block finds the next chain block |
| ChainPath.LevelInner | crates/tao-reachability/src/reindex.rs:174-222 | one step up the path keeps everything below the chosen child in order |
| ChainPath.LevelOuter | crates/tao-reachability/src/reindex.rs:224-272 | the last step puts everything below the common ancestor in order and moves exactly the required labels |
| Reindex.ReindexContext.Reclaim | crates/tao-reachability/src/reindex.rs:174-272 | on both sides, exactly the required labels move from the chosen child to the allocation block and everything below their parent is well labelled; it fails only if the reindex root is short of labels, and takes no more from it than the requirement and a slack for each level |
| Reindex.ReindexContext.ReindexEarlierThanRoot | crates/tao-reachability/src/reindex.rs:143-172 | the whole tree is valid again after a branch off the chain got its labels; with capacity at the reindex root it cannot fail |
| NewLeaf.Restored | crates/tao-reachability/src/reindex.rs:35-79 | putting a subtree that holds the new leaf in order puts the whole tree in order |
| NewLeaf.ClimbCapacity | crates/tao-reachability/src/reindex.rs:35-79 | with enough labels at the reindex root the climb is stuck neither there nor at the tree root |
| NewLeaf.BranchReady | crates/tao-reachability/src/reindex.rs:143-172 | the branch with the new leaf hangs off the chain, and its labels can be reclaimed there |
| Reindex.ReindexContext.ReindexIntervals | crates/tao-reachability/src/reindex.rs:35-79 | overflow, panic, or the whole tree valid with the root interval unchanged; the capacity for which it always succeeds |
| Concentrate.PackOne | crates/tao-reachability/src/reindex.rs:373-400 | packing one more sibling leaves the others and everything below in order |
| Reindex.ReindexContext.Tighten | crates/tao-reachability/src/reindex.rs:373-429 | siblings on one side are packed into one label a block next to the slack, well labelled below |
| Reindex.ReindexContext.ExpandToChosen | crates/tao-reachability/src/reindex.rs:431-455 | the chosen child gets everything between the packed siblings; for the new root, with labels below handed out afresh if they no longer fit |
| Reindex.ReindexContext.ConcentrateInterval | crates/tao-reachability/src/reindex.rs:348-371 | the child towards the new root gets all labels but those of the blocks beside it and the slack; for which size it cannot fail |
| Concentrate.ChainLonger | crates/tao-reachability/src/tree.rs:95-118 | one more chain block gives its labels away and those above do not notice |
| Concentrate.ChainAssembled | crates/tao-reachability/src/tree.rs:95-118 | chain blocks widened before their children are repaired are valid once the last one is |
| TreeOps.FindCommonTreeAncestor | crates/tao-reachability/src/tree.rs:38-50 | the result is the nearest common tree ancestor |
| TreeOps.FindNextReindexRoot | crates/tao-reachability/src/tree.rs:53-91 | the rule in full: the root stays if the hint is on another chain and less than the slack higher; otherwise the next root is the deepest block on the way from the last shared block to the hint that trails it by the depth; a bad query exactly if the hint is the root itself |
| TreeOps.PassDown | crates/tao-reachability/src/tree.rs:95-118 | one step of the move, and the labels left after so many steps |
| TreeOps.TryAdvancingReindexRoot | crates/tao-reachability/src/tree.rs:95-118 | the root moves where the rule says, in a tree that is valid again with the interval of its root unchanged, although blocks are widened in between; how many labels the new root has at least, and for which capacity it cannot fail |
| TreeOps.LeafPlaced | crates/tao-reachability/src/tree.rs:14-35 | a leaf labelled from the free labels at the end of its parent keeps the tree valid |
| TreeOps.AddTreeBlock | crates/tao-reachability/src/tree.rs:14-35 | whichever reindexing it triggers: an error, or a valid tree that is the old one with the leaf; with room at the reindex root it always succeeds, and how much of that room is left, at least |
| Dag.PastIsReachable | crates/tao-reachability/src/inquirer.rs:34-78 | the past of a block is exactly what walks along parents reach |
| Dag.PastGrows | crates/tao-reachability/src/inquirer.rs:34-67 | a new block gets the union of its parents and their pasts; no other past changes |
| Covering.RelabelledIndex | crates/tao-reachability/src/inquirer.rs:168-178 | moving labels changes no answer of the index and keeps it valid |
| Covering.OrderKeptByLeaf | crates/tao-reachability/src/inquirer.rs:148-164 | the order of unrelated blocks survives the reindexing of an insertion |
| Covering.LinkedWithLeaf | crates/tao-reachability/src/inquirer.rs:69-78 | with the new block in the covering sets of its merge set, it is related to every block as in the DAG, and old pairs stay right |
| Covering.IndexGrown | crates/tao-reachability/src/inquirer.rs:34-48 | the whole index is valid with the new block in it |
| Inquirer.Init | crates/tao-reachability/src/inquirer.rs:14-16 | the index of the origin alone; nothing if that exists |
| Inquirer.IsDagAncestorOf | crates/tao-reachability/src/inquirer.rs:204-220 | the answer is yes exactly if the blocks are equal or the first is in the past of the second; an unknown block is an error |
| Inquirer.GetNextChainAncestor | crates/tao-reachability/src/inquirer.rs:223-235 | exactly for a proper tree ancestor the answer is the child on the way; the errors otherwise |
| Inquirer.InsertToFutureCoveringSet | crates/tao-reachability/src/inquirer.rs:148-164 | the block is put where its labels belong and order is kept; refused exactly if the set already covers it |
| Inquirer.AddDagBlock | crates/tao-reachability/src/inquirer.rs:69-78 | accepted exactly if no merged block is listed twice or already covered |
| Inquirer.AddBlock | crates/tao-reachability/src/inquirer.rs:34-67 | with room, succeeds exactly for an acceptable merge set, and the index then answers for the DAG with the new block; the errors otherwise |
| Inquirer.MergeSetAccepted | crates/tao-reachability/src/inquirer.rs:34-78 | the exact merge set, each block once, is always accepted and gives the block exactly its past |
| Inquirer.HintVirtualSelectedParent | crates/tao-reachability/src/inquirer.rs:168-178 | the reindex root moves by the rule, labels may move, every answer stays; when it fails |
| Deleting.AncWithout | crates/tao-reachability/src/inquirer.rs:81-146 | tree ancestry among the survivors is as before |
| Deleting.WithoutTreeOk | crates/tao-reachability/src/inquirer.rs:81-146 | handing the labels of the deleted block to its heirs leaves a valid tree |
| Deleting.CoveredWithout | crates/tao-reachability/src/inquirer.rs:81-146 | a covering set in which the block gave way to its children covers the same survivors |
| Deleting.CoverLessOrdered | crates/tao-reachability/src/inquirer.rs:81-146 | and it is still sorted and disjoint |
| Deleting.IndexLess | crates/tao-reachability/src/inquirer.rs:81-146 | no answer between survivors changes |
| Inquirer.LetGoEverywhere | crates/tao-reachability/src/inquirer.rs:105-117 | every covering set that held the block now holds its children in its place |
| Inquirer.HandOn | crates/tao-reachability/src/inquirer.rs:119-142 | first and last child, the only child, or the sibling before take over the labels |
| Inquirer.DeleteBlock | crates/tao-reachability/src/inquirer.rs:81-146 | given the holders, the index answers for the DAG without the block; the reindex root keeps its guarantee exactly if the block was not a leaf and its only child |
| Ghostdag.SortedUnique | crates/tao-ghostdag/src/protocol.rs:264-271 | the order by blue work and id is unique |
| Ghostdag.JoinTest | crates/tao-ghostdag/src/protocol.rs:273-318 | a candidate keeps the k-cluster exactly if its anticone has at most k blues and each of them has room for one more |
| Ghostdag.FullMeansRed | crates/tao-ghostdag/src/protocol.rs:350-353 | with k blues beside the selected parent merged, a further candidate breaks the cluster: the early red never changes a colour |
| Ghostdag.WorkGrows | crates/tao-ghostdag/src/protocol.rs:182-221 | blue work grows along every edge above the origin |
| Ghostdag.SortedTopological | crates/tao-ghostdag/src/protocol.rs:223-229 | blocks in the order by blue work come after their ancestors |
| BlueSets.BlueSetCluster | crates/tao-ghostdag/src/protocol.rs:182-221 | the blue set of every block is a k-cluster |
| BlueSets.RecordedTrue | crates/tao-ghostdag/src/protocol.rs:321-342 | the nearest record along the selected chain is the true size of the blue anticone |
| BlueSets.UntouchedAnticone | crates/tao-ghostdag/src/protocol.rs:96-108 | a record that a block did not renew is still true for it |
| Protocol.MergedExactly | crates/tao-ghostdag/src/protocol.rs:88-94 | what the search collects is the merge set exactly if no other parent precedes the selected one |
| Protocol.SearchComplete | crates/tao-ghostdag/src/protocol.rs:88-94 | once the queue is empty everything that does not precede the selected parent was found |
| Protocol.GhostdagManager.FindSelectedParent | crates/tao-ghostdag/src/protocol.rs:169-179 | the parent with the most blue work, among equals the largest id |
| Protocol.GhostdagManager.UnorderedMergeset | crates/tao-ghostdag/src/protocol.rs:88-94 | the search finds exactly the other parents and what they lead to outside the past of the selected one |
| Protocol.GhostdagManager.SortBlocks | crates/tao-ghostdag/src/protocol.rs:264-271 | the unique order by blue work and id |
| Protocol.GhostdagManager.BlueAnticoneSize | crates/tao-ghostdag/src/protocol.rs:321-342 | the nearest record; for a blue block the walk never reaches genesis, so it cannot panic |
| Protocol.GhostdagManager.VisitPeer | crates/tao-ghostdag/src/protocol.rs:293-315 | a blue in the past of the candidate is skipped, others are counted, and red means that the cluster would break |
| Protocol.GhostdagManager.CheckWithChainBlock | crates/tao-ghostdag/src/protocol.rs:273-318 | blue exactly if the chain block precedes the candidate, red only if the cluster would break |
| Protocol.GhostdagManager.CheckBlueCandidate | crates/tao-ghostdag/src/protocol.rs:344-388 | blue exactly if the blues so far stay a k-cluster with the candidate, and then the sizes seen are true |
| Colouring.RecordOne | crates/tao-ghostdag/src/protocol.rs:96-108 | the records are true again after one more blue |
| Colouring.FullIsRed | crates/tao-ghostdag/src/protocol.rs:350-353 | the early answer is the answer of the full check |
| Protocol.GhostdagManager.Ghostdag | crates/tao-ghostdag/src/protocol.rs:182-221 | the data is that of the explicit specification: heaviest parent, greedy colouring of the sorted merge set, score, work, and true anticone sizes for exactly the blues this block touches |
| Agreement.DataUnique | crates/tao-ghostdag/src/protocol.rs:182-221 | the specification determines the data, in whatever order the parents are listed |
| Agreement.DataAgrees | crates/tao-ghostdag/src/engine.rs:64-86 | two engines that know the same ancestors of a block record the same data for it |
| Agreement.GdGrows | crates/tao-ghostdag/src/engine.rs:64-86 | recording a block leaves the data of all others right |
| Linearization.LinearCovers | crates/tao-ghostdag/src/engine.rs:115-141 | the order up to a block lists the block and exactly its past |
| Linearization.LinearInTurn | crates/tao-ghostdag/src/engine.rs:115-141 | each block once and after all its ancestors |
| Linearization.ParentsFirst | crates/tao-ghostdag/src/engine.rs:115-141 | every parent stands before its child |
| Linearization.ChainPrefix | crates/tao-ghostdag/src/engine.rs:115-141 | the order up to a chain block is a prefix of the order up to any later one |
| Linearization.LinearAgrees | crates/tao-ghostdag/src/engine.rs:115-141 | the order up to a block depends on its past alone |
| Linearization.ChainLinks | crates/tao-ghostdag/src/engine.rs:116-126 | the selected chain leads from genesis to the block, each the selected parent of the next |
| Engine.DagEngine.constructor | crates/tao-ghostdag/src/engine.rs:41-59 | an empty engine: only the origin is known, with labels for 19,000,000 blocks |
| Engine.DagEngine.AddBlock | crates/tao-ghostdag/src/engine.rs:64-86 | the DAG grows by the block, its data is recorded, index and stores stay valid, and the tip is the heavier of the two; with room for n blocks it succeeds and leaves room for n - 1; the reindex root follows the new block |
| Engine.DagEngine.Record | crates/tao-ghostdag/src/engine.rs:74-86 | data, relations and tip after the block was indexed |
| Engine.DagEngine.SelectedChain | crates/tao-ghostdag/src/engine.rs:116-126 | the selected chain, genesis first |
| Engine.DagEngine.TotalOrder | crates/tao-ghostdag/src/engine.rs:115-141 | the result is the order of the tip |
| Engine.EnginesAgree | crates/tao-ghostdag/src/engine.rs:64-141 | two engines given the same DAG in any two orders agree on all data, the tip and the total order |
| Engine.DataMerges | crates/tao-ghostdag/src/engine.rs:64-86 | blues and reds are the past less the selected parent and its past, each block once |
| Anchor.AncestryKept | crates/tao-dagvm/src/dag_chain.rs:1161-1183 | ancestry among kept blocks is the same in the rebuilt graph |
| Anchor.DescentNeeded | crates/tao-dagvm/src/dag_chain.rs:1161-1183 | if it is the same, every kept block descended from the pruning point |
| Anchor.DataKept | crates/tao-dagvm/src/dag_chain.rs:1079-1245 | every kept block keeps its selected parent and colours, its work counted from the pruning point |
| Anchor.OrderFromAnchor | crates/tao-dagvm/src/dag_chain.rs:1079-1245 | order and chain in the rebuilt engine are the old ones from the pruning point on |
| Anchor.TipFromAnchor | crates/tao-dagvm/src/dag_chain.rs:1079-1245 | the heaviest block stays the heaviest |
| Anchor.WindowFromAnchor | crates/tao-dagvm/src/dag_chain.rs:478-509 | with enough chain blocks kept, the window that decides the next target is the same |
| Anchor.CutAt | crates/tao-dagvm/src/dag_chain.rs:1091-1113 | cutting the order at a chain block drops exactly its past |
| Anchor.ParentsKept | crates/tao-dagvm/src/dag_chain.rs:1165-1183 | a block that descends from the pruning point and has no redundant parent has no parent below it |
| Target.WorkIsExpectation | crates/tao-consensus/src/target.rs:35-44 | the 256-bit formula is 2^256 / (target + 1) rounded down, for every positive target |
| Target.WorkAntitone | crates/tao-consensus/src/target.rs:35-44 | an easier target never stands for more work |
| Target.LeadingZeroBits | crates/tao-consensus/src/target.rs:47-58 | the byte loop counts what the bit length leaves |
| Target.LevelBound | crates/tao-consensus/src/target.rs:70-75 | a solution of level k is below twice the target over 2^k |
| Target.LevelClaim | crates/tao-consensus/src/target.rs:70-75 | the documented bound holds for all solutions exactly if the target is one or two below a power of two |
| Target.LevelMisses | crates/tao-consensus/src/target.rs:70-75 | a solution that breaks the documented bound, for every other target |
| Difficulty.NextTarget | crates/tao-consensus/src/difficulty.rs:45-80 | the loop computes the target of the window; before the window is full it is the last target, and the genesis target of an empty chain |
| Difficulty.WindowSuffices | crates/tao-consensus/src/difficulty.rs:53-58 | only the last window and one header matter |
| Difficulty.DifficultyBounds | crates/tao-consensus/src/difficulty.rs:57-79 | without saturation the next difficulty is between a sixth of the average and the average times the block time |
| Difficulty.SlowerIsEasier | crates/tao-consensus/src/difficulty.rs:45-80 | with the same targets and no gap between timestamps shorter, the next target is no harder |
| Difficulty.TargetAntitone | crates/tao-consensus/src/difficulty.rs:83-88 | a larger difficulty gives no easier target |
| Difficulty.RoundTrip | crates/tao-consensus/src/difficulty.rs:83-88 | difficulties up to 2^128 come back from the target unchanged or less one |
| LinearChain.ChainState.constructor | crates/tao-consensus/src/chain.rs:65-89 | genesis alone, with its own work |
| LinearChain.ChainState.RecentHeaders | crates/tao-consensus/src/chain.rs:152-167 | the end of the path from genesis, oldest first |
| LinearChain.ChainState.TargetFor | crates/tao-consensus/src/chain.rs:145-148 | the target of the whole path, although only a window is walked; below the window that of the parent |
| LinearChain.ChainState.AddHeader | crates/tao-consensus/src/chain.rs:170-228 | accepted means new, linked, at the next height, no earlier, with the target the path asks for and valid proof of work, and every stored header keeps that; a refusal is the first broken rule; the tip moves exactly on strictly more work than every known block, and the status says which of the three things happened |
| LinearChain.ChainState.SumFits | crates/tao-consensus/src/difficulty.rs:61-71 | in any chain state the sum of work over a window stays within 256 bits |
| LinearChain.PathSame | crates/tao-consensus/src/chain.rs:170-228 | paths of known blocks do not change |
| NiPoPoW.InterlinkForParent | crates/tao-dagvm/src/dag_chain.rs:460-475 | the pointers of the parent, with those up to its level (the bits by which it beats its target) pointing to it |
| NiPoPoW.Pointers | crates/tao-dagvm/src/dag_chain.rs:460-475 | pointer k leads to the last earlier chain block of level k or more |
| NiPoPoW.TopPointer | crates/tao-dagvm/src/dag_chain.rs:422-456 | the highest pointer leads to the last block of the highest level so far |
| NiPoPoW.MaximaTop | crates/tao-dagvm/src/dag_chain.rs:422-456 | the weak left-to-right maxima are those up to that block and the block itself |
| NiPoPoW.MaximaExact | crates/tao-dagvm/src/dag_chain.rs:422-456 | membership in the list of maxima, in both directions |
| NiPoPoW.BuildProofFor | crates/tao-dagvm/src/dag_chain.rs:422-456 | from the headers left after any prunes and the retained proof, the proof that the full history gives: the maxima before the block, then the block |
| NiPoPoW.TopFound | crates/tao-dagvm/src/dag_chain.rs:428-447 | a pointer below the current origin leads to a header of the retained proof |
| NiPoPoW.RetainedLater | crates/tao-dagvm/src/dag_chain.rs:1115-1121 | dropping headers before a later block and keeping its proof loses nothing |
| NiPoPoW.ProofPrefix | crates/tao-dagvm/src/dag_chain.rs:422-456 | the proof depends on the chain up to the block only |
| NiPoPoW.VerifyProof | crates/tao-dagvm/src/dag_chain.rs:121-150 | accepts exactly the proofs whose ends are genesis and the origin and whose later headers all meet their targets and end their interlink in the id of the header before; returns the capped sum of their work |
| NiPoPoW.TotalIsSum | crates/tao-dagvm/src/dag_chain.rs:121-150 | the total is the sum of the works, capped at 256 bits |
| NiPoPoW.ProofAccepted | crates/tao-dagvm/src/dag_chain.rs:121-150 | the proof of any chain block is accepted |
| Replay.ReplayBlocks | crates/tao-dagvm/src/dag_chain.rs:766-788 | fails exactly if there is a reward and a header is missing; otherwise passes from state to state, each block but genesis paying the miner of its header and running its own transactions |
| Replay.RunConcat | crates/tao-dagvm/src/dag_chain.rs:766-788 | replaying one list after another is replaying both |
| Replay.RunFrom | crates/tao-dagvm/src/dag_chain.rs:1127-1159 | starting over at a block with the state after it gives the same end |
| Replay.PrefixSuffices | crates/tao-dagvm/src/dag_chain.rs:830-843 | a checkpoint whose blocks are a prefix of the order leads to the state of the whole order |
| DagState.ThreeWays | crates/tao-dagvm/src/dag_chain.rs:813-860 | appending, restarting from the checkpoint and replaying everything all give the replay of the whole order |
| DagState.NextCheckpoint | crates/tao-dagvm/src/dag_chain.rs:865-900 | a checkpoint made from the last one is the replay of its own prefix |
| DagState.TipsUnrelated | crates/tao-dagvm/src/dag_chain.rs:525-566 | tips are pairwise unrelated |
| DagState.TipsAfter | crates/tao-dagvm/src/dag_chain.rs:670-709 | a new block takes the place of its parents among the tips |
| DagState.HeaviestIsTip | crates/tao-dagvm/src/dag_chain.rs:525-566 | the heaviest block is a tip |
| Pruning.PrunePlace | crates/tao-dagvm/src/dag_chain.rs:1091-1113 | the order up to a chain block is its own order, so the place of the cut is its length |
| Pruning.KeptBelowTip | crates/tao-dagvm/src/dag_chain.rs:1162-1165 | what is kept is the tip and blocks below it |
| Pruning.NextAccepted | crates/tao-dagvm/src/dag_chain.rs:1165-1183 | every kept block is accepted again on its old parents |
| Pruning.PrunedState | crates/tao-dagvm/src/dag_chain.rs:1127-1159 | replaying the kept order from the new base is replaying the old order from the old one |
| Pruning.PrunedTips | crates/tao-dagvm/src/dag_chain.rs:1241-1241 | after a prune the tip alone has no children |
| Pruning.WholeChained | crates/tao-dagvm/src/dag_chain.rs:422-456 | the chain from the first genesis to any block, across all prunes, is linked by interlinks and solved |
| Pruning.StemLonger | crates/tao-dagvm/src/dag_chain.rs:1115-1121 | a prune moves the origin along that chain and keeps it provable |
| Pruning.NeverBack | crates/tao-dagvm/src/dag_chain.rs:670-709 | a pruned block is never accepted again |
| DagChain.DagChain.constructor | crates/tao-dagvm/src/dag_chain.rs:276-383 | genesis alone, every field, all invariants |
| DagChain.DagChain.RebuildState | crates/tao-dagvm/src/dag_chain.rs:794-805 | the replay of the order from the base with the bodies at hand, paying the miners of the headers; impossible exactly if bodies were dropped and there is no base |
| DagChain.DagChain.Execute | crates/tao-dagvm/src/dag_chain.rs:819-856 | all three paths give the state of the given order |
| DagChain.DagChain.VirtualState | crates/tao-dagvm/src/dag_chain.rs:813-860 | the replay of the current order from the current base, each block paying the miner of its header, if the checkpointed blocks are still its beginning; then all invariants hold again and the checkpoint has moved exactly as it should; also after a deeper reorganisation, if the checkpoint is seen not to fit and the bodies are at hand, and then it fails exactly for want of history |
| DagChain.DagChain.MaybeAdvanceCheckpoint | crates/tao-dagvm/src/dag_chain.rs:865-900 | a new checkpoint at the finality depth below the end, with the replay of its prefix, exactly if twice that depth was executed since the last; otherwise nothing changes |
| DagChain.DagChain.PruneFinalizedTransactions | crates/tao-dagvm/src/dag_chain.rs:952-972 | panics exactly if less was executed than the checkpoint holds; which bodies go and how many; the state is still found from the checkpoint; a full replay still has all it runs exactly if no dropped body was of a block in the order after genesis |
| DagChain.DagChain.SelectedChainTarget | crates/tao-dagvm/src/dag_chain.rs:478-509 | the target of the last window of the selected chain, with the block time at least 1 and the window at least 2; the parent keeps its target while the chain does not fill the window, and always if the window is shorter than 2 |
| DagChain.DagChain.NewParents | crates/tao-dagvm/src/dag_chain.rs:535-545 | the heaviest tip is among the parents, at most 16, and they are pairwise unrelated |
| DagChain.DagChain.BuildBlock | crates/tao-dagvm/src/dag_chain.rs:525-566 | a block whose hash meets its target would be accepted by this node |
| DagChain.DagChain.Check | crates/tao-dagvm/src/dag_chain.rs:592-662 | stored means every rule: new, solved, 1 to 16 distinct known parents, the heaviest of them asking for this target, timestamp and interlink; any other verdict is the first rule broken |
| DagChain.DagChain.Accept | crates/tao-dagvm/src/dag_chain.rs:629-667 | a block is stored only if no rule is broken on its heaviest parent, and refused for the first broken one; the node grows by exactly the block, nothing else changes, all invariants are kept, and with room for labels it cannot fail |
| DagChain.DagChain.Apply | crates/tao-dagvm/src/dag_chain.rs:670-709 | the same for a block that passed the checks |
| DagChain.DagChain.FindCut | crates/tao-dagvm/src/dag_chain.rs:1080-1113 | the last chain block that leaves a window and the finality depth (at least 1) of the order; none exactly if no chain block past the origin leaves that many, or the order is at most one block longer |
| DagChain.DagChain.NewBase | crates/tao-dagvm/src/dag_chain.rs:1127-1159 | the state after the pruned prefix from genesis, base or checkpoint; an error exactly if a checkpoint reaches beyond the cut and bodies are gone |
| DagChain.DagChain.Rebuild | crates/tao-dagvm/src/dag_chain.rs:1161-1183 | adding the kept blocks above the new origin gives an engine of exactly the kept graph, and cannot fail within the capacity |
| DagChain.DagChain.Reanchor | crates/tao-dagvm/src/dag_chain.rs:1185-1245 | the switch to the rebuilt engine keeps tip, order from the cut on, state, proof and, with enough chain, the next target |
| DagChain.DagChain.Prune | crates/tao-dagvm/src/dag_chain.rs:1079-1245 | all invariants hold, a window and the finality depth stay in the order, the answer is the number of dropped blocks, the tip stays, the order is cut at the pruning point, replay gives the same state; the next target is the same if the chain from the cut to the tip was longer than the window; within the capacity the only error is a checkpoint beyond the cut without bodies, and an error changes nothing |
| KeyBits.NodeIdExact | crates/tao-database/src/smt.rs:176-191 | two ids are equal exactly for one depth and one prefix of that many bits |
| KeyBits.OrderOfBits | crates/tao-database/src/smt.rs:89-103 | byte order is bit order, the highest bit first |
| KeyBits.FlipBits | crates/tao-database/src/smt.rs:193-197 | flipping changes one bit and no other |
| KeyBits.SameKey | crates/tao-database/src/smt.rs:53-55 | a key is determined by its bits |
| Smt.Defaults | crates/tao-database/src/smt.rs:41-50 | the table of hashes of empty subtrees |
| Smt.NodeLocal | crates/tao-database/src/smt.rs:89-103 | a node depends only on its prefix and the leaves below it |
| Smt.SubtreeRootIsNode | crates/tao-database/src/smt.rs:89-103 | the computation on slices of the sorted leaves gives the node of the full tree |
| Smt.FromEntries | crates/tao-database/src/smt.rs:73-81 | sorted leaves of the entries, the first of equal keys |
| Smt.DuplicatesMatter | crates/tao-database/src/smt.rs:72-81 | the documented rule, that the last counts, agrees exactly if every key has the same leaf in its first and last entry |
| Smt.FirstIsKept | crates/tao-database/src/smt.rs:72-81 | two values for one key: the first is kept |
| Smt.CollectedAreSiblings | crates/tao-database/src/smt.rs:108-133 | the proof from the slices is the list of hashes beside the path |
| Smt.Verify | crates/tao-database/src/smt.rs:139-153 | accepts exactly 256 siblings that fold to the root |
| Smt.ProofFolds | crates/tao-database/src/smt.rs:108-153 | the siblings and the actual or empty leaf always fold to the root |
| Smt.Binding | crates/tao-database/src/smt.rs:139-153 | two accepted proofs of different leaves for one key and root yield a collision of the hash |
| Smt.SiblingRight | crates/tao-database/src/smt.rs:201-225 | the stored sibling on the way up is the true one |
| Smt.PathWritten | crates/tao-database/src/smt.rs:201-225 | writing one node of the path moves the boundary between new and old nodes up by one |
| Smt.StoreSame | crates/tao-database/src/smt.rs:201-225 | absent and empty leaves give the same store |
| Smt.RootRight | crates/tao-database/src/smt.rs:228-230 | every stored or default node is that of the full tree |
| AccountsDb.Overlay.GetNode | crates/tao-database/src/accounts_db.rs:198-208 | pending changes hide what is stored |
| AccountsDb.UpdateLeaf | crates/tao-database/src/smt.rs:201-225 | every node, stored or default, is right for the changed leaf |
| AccountsDb.AccountsDb.Set | crates/tao-database/src/accounts_db.rs:85-92 | the account changes and every node stays right |
| AccountsDb.AccountsDb.Delete | crates/tao-database/src/accounts_db.rs:95-100 | the account goes and every node stays right |
| AccountsDb.AccountsDb.Commit | crates/tao-database/src/accounts_db.rs:105-123 | all changes in one batch, the last one to an account deciding; exactly those that leave neither funds nor data purge it; every node right |
| AccountsDb.AccountsDb.StateRoot | crates/tao-database/src/accounts_db.rs:137-141 | the stored root is the root of the tree built from any listing of the current accounts, whatever the order of updates |
| AccountsDb.AccountsDb.StateProof | crates/tao-database/src/accounts_db.rs:148-156 | the account and the siblings; they fold to the root with the actual or empty leaf |
| Prototype.BlueSetIsCluster | crates/tao-dag/src/lib.rs:142-175 | every blue set is a k-cluster in the past of its block and the block |
| Prototype.ScoreGrows | crates/tao-dag/src/lib.rs:78-81 | blue scores grow along every edge |
| Prototype.ScoreAbovePast | crates/tao-dag/src/lib.rs:78-81 | a block outscores its whole past |
| Prototype.NodesAgree | crates/tao-dag/src/lib.rs:107-189 | two prototypes that hold the same parent lists, in whatever order they came, are equal |
| Prototype.OrderIsPermutation | crates/tao-dag/src/lib.rs:203-229 | the order lists the block and its past, each exactly once, for arbitrary parent lists |
| Prototype.TopologicalExactly | crates/tao-dag/src/lib.rs:203-229 | ancestors come first exactly if no blue follows a red merged with it |
| Prototype.ColoursSorted | crates/tao-dag/src/lib.rs:220-223 | sorting the colours again changes nothing |
| Prototype.BlockDag.MayJoin | crates/tao-dag/src/lib.rs:146-168 | the two conditions hold exactly if the blues stay a k-cluster with the candidate |
| Prototype.BlockDag.Classify | crates/tao-dag/src/lib.rs:142-171 | the loop is the greedy colouring |
| Prototype.BlockDag.AddBlock | crates/tao-dag/src/lib.rs:107-189 | the three errors in order with nothing changed, or one new block for which every node invariant holds |
| Prototype.BlockDag.Tip | crates/tao-dag/src/lib.rs:192-198 | the highest score, the smallest id among equals |
| Prototype.BlockDag.Order | crates/tao-dag/src/lib.rs:203-229 | the order of the best tip: its past and itself, each block once |
| Reindex.ReindexContext.HandOutRow | crates/tao-reachability/src/reindex.rs:122-141 | one block hands its labels to its children: a row inside it, each with room for its subtree, or a panic exactly if it is too small |
| Reindex.ReindexContext.SetAndPropagate | crates/tao-reachability/src/reindex.rs:335-345 | the block gets the interval and everything below it is well labelled, exactly if it fits |
| Reindex.ReindexContext.GiveUp | crates/tao-reachability/src/reindex.rs:324-333 | a chain block shrinks at one end and its siblings close up |
| Reindex.ReindexContext.RaiseLevel | crates/tao-reachability/src/reindex.rs:210-219 | one step up the path; only the redistribution at the reindex root can fail |
| Reindex.ReportUp | crates/tao-reachability/src/reindex.rs:99-117 | reports go up as long as the reporter is the last of its siblings, and the counting invariant holds again |
| TreeOps.AppendLeaf | crates/tao-reachability/src/tree.rs:22-33 | the block is linked below its parent with the given interval |
| Inquirer.Detach | crates/tao-reachability/src/inquirer.rs:99-145 | out of the tree, the covering sets and the labels: the index answers for the rest |
| Inquirer.Adopt | crates/tao-reachability/src/inquirer.rs:99-103 | the children of the block take its place among the children of its parent |
| Protocol.GhostdagManager.Expand | crates/tao-ghostdag/src/protocol.rs:244-260 | one step of the search keeps its invariant and makes progress |
| Protocol.GhostdagManager.constructor | crates/tao-ghostdag/src/protocol.rs:139-166 | the stores hold the origin alone |
| Difficulty.SumUp | crates/tao-consensus/src/difficulty.rs:61-69 | the loop accumulates the weighted time and the work of the window, which WindowSums spells out in timestamps |
| Difficulty.WeightBounds | crates/tao-consensus/src/difficulty.rs:59-74 | the weighted time lies between the triangle number and six block times that |
| NiPoPoW.FindHeader | crates/tao-dagvm/src/dag_chain.rs:428-438 | whatever was pruned, a block on the way of the walk is found among the headers or in the retained proof |
| DagChain.DagChain.RecentChain | crates/tao-dagvm/src/dag_chain.rs:478-509 | the last window and one more of the selected chain |
| DagChain.DagChain.ProofAt | crates/tao-dagvm/src/dag_chain.rs:1115-1121 | the proof for the cut is that of the whole history |
| DagChain.DagChain.KeptParents | crates/tao-dagvm/src/dag_chain.rs:1165-1181 | a kept block is added again under exactly its old parents |
| DagChain.DagChain.AddKept | crates/tao-dagvm/src/dag_chain.rs:1165-1183 | one more kept block in the engine under construction |
| DagChain.DagChain.Commit | crates/tao-dagvm/src/dag_chain.rs:1187-1242 | every field after the switch |
| DagChain.DagChain.StoreBlock | crates/tao-dagvm/src/dag_chain.rs:694-708 | every map and the tips after a block is stored; only a block with transactions has a body |
| DagChain.Remap | crates/tao-dagvm/src/dag_chain.rs:674-691 | known parents stay, unknown ones become the origin, each once |
| DagChain.Capped | crates/tao-dagvm/src/dag_chain.rs:539-545 | all tips, or the heaviest and the first of the others up to the cap |
| AccountsDb.AccountsDb.Emptied | crates/tao-database/src/accounts_db.rs:105-126 | an emptied leaf and a purged account leave the same tree |
| Smt.Compare | crates/tao-database/src/smt.rs:74-74 | byte order of keys |
| Smt.Insert | crates/tao-database/src/smt.rs:72-82 | one more entry in the sorted leaves, unless its key is there |
| Prototype.BlockDag.constructor | crates/tao-dag/src/lib.rs:58-72 | genesis alone |
| Prototype.BlockDag.BestOf | crates/tao-dag/src/lib.rs:126-130 | the highest score, the smallest id among equals |
| Prototype.BlockDag.InTopologicalOrder | crates/tao-dag/src/lib.rs:102-105 | the unique order by size of past and id |
| Prototype.BlockDag.Append | crates/tao-dag/src/lib.rs:214-227 | one more chain block of the order |
| TreeOps.OneNextRoot | crates/tao-reachability/src/tree.rs:53-91 | the rule leaves one choice |
| TreeOps.StaysExactly | crates/tao-reachability/src/tree.rs:53-91 | when the root stays, in heights: exactly if the hint is on another chain and less than the slack higher, or less than the depth higher than the next block towards it |
| TreeOps.MoveLabels | crates/tao-reachability/src/tree.rs:110-115 | the chain down to the new root hands its labels on; what is left at the end, at least |
| TreeOps.RoomForMove | crates/tao-reachability/src/tree.rs:14-118 | room for a block includes the room to move the reindex root after it |
| TreeOps.RoomAfter | crates/tao-reachability/src/tree.rs:14-118 | and afterwards there is room for one block less |
| Engine.Enter | crates/tao-ghostdag/src/engine.rs:66-72 | index and hint together: with room for n blocks both succeed and leave room for n - 1; the tree gets the block below its selected parent and the reindex root goes where a hint at the block sends it |
| Replay.PrefixExactly | crates/tao-dagvm/src/dag_chain.rs:830-843 | of two orders that begin with genesis, a checkpoint of the first leads to the state of the second, for the execution that lists transactions, exactly if it is its prefix |
| Checkpoints.MatchIsExact | crates/tao-dagvm/src/dag_chain.rs:830-835 | if the last block of the checkpoint is on the selected chain of either order, finding it at the same place means that the orders begin alike |
| Checkpoints.HeavierSelected | crates/tao-ghostdag/src/engine.rs:129-139 | a merged block never follows the selected parent of the block that merges it |
| DagChain.DagChain.CheckpointFits | crates/tao-dagvm/src/dag_chain.rs:830-835 | what a caller can check before a query: the last block of the checkpoint stands at its place and on the selected chain, exactly if the checkpoint is a prefix that ends with a chain block |
| DagChain.DagChain.TruthfulOnChain | crates/tao-dagvm/src/dag_chain.rs:830-835 | a checkpoint made at a chain block is never taken for a prefix that it is not |
| Examples.StaleCheckpoint | crates/tao-dagvm/src/dag_chain.rs:830-835 | a block DAG without redundant parents and two tips whose orders have the same third block and different second ones |
| Examples.StaleState | crates/tao-dagvm/src/dag_chain.rs:830-843 | there the test passes and the state is wrong |
| DagState.BodiesNeeded | crates/tao-dagvm/src/dag_chain.rs:766-788 | replaying with other bodies shows in the execution that lists transactions exactly if they differ on a block that is run |
| DagChain.DagChain.RebuildExact | crates/tao-dagvm/src/dag_chain.rs:794-805 | that replay is right for all ways of execution, or wrong for the one that lists transactions, according to whether the bodies that are run are at hand |
| DagChain.DagChain.Paths | crates/tao-dagvm/src/dag_chain.rs:819-856 | each of the three ways leads to the state of the whole order |
| DagChain.DagChain.Finish | crates/tao-dagvm/src/dag_chain.rs:694-708 | the node fits together again once the block is stored |
| DagChain.DagChain.Plan | crates/tao-dagvm/src/dag_chain.rs:1120-1183 | proof, base and engine before anything is changed, and the one error |
| Pruning.OrderStays | crates/tao-ghostdag/src/engine.rs:115-141 | a new block changes no order of a block known before |
| Pruning.WholeReplay | crates/tao-dagvm/src/dag_chain.rs:766-812 | replaying the current order from the current base is replaying everything since the first genesis |
| Pruning.StoryPruned | crates/tao-dagvm/src/dag_chain.rs:1127-1159 | a prune turns the beginning of the order into pruned history |
| Node.Open | crates/tao-dagvm/src/dag_chain.rs:276-383 | a node that is ready for requests |
| Node.Serve | crates/tao-dagvm/src/dag_chain.rs:629-1245 | over any run of blocks, queries, dropped bodies and prunes, in any order: the state reported is the replay of the current order and of everything since the first genesis; labels never run out; when there is no report |
| Node.Report | crates/tao-dagvm/src/dag_chain.rs:813-860 | one query in such a run, answered from the cache or by a full replay |
| Node.Take | crates/tao-dagvm/src/dag_chain.rs:629-667 | one block in such a run |
| Node.PruneIfClean | crates/tao-dagvm/src/dag_chain.rs:1079-1245 | one prune in such a run, after asking the index whether its condition holds |
| Node.CutIsClean | crates/tao-dagvm/src/dag_chain.rs:1091-1121 | the condition of a prune, checked beforehand |
| Node.ParentsUnrelated | crates/tao-ghostdag/src/protocol.rs:236-241 | the condition on parents, checked beforehand |
| Node.HistoryIs | crates/tao-dagvm/src/dag_chain.rs:766-812 | in a sound node the state of the order is that of the whole history |
| Node.PlacesBound | crates/tao-dagvm/src/dag_chain.rs:422-456 | a proof is no longer than the retained proof and the chain |
| Examples.ShortWindow | crates/tao-dagvm/src/dag_chain.rs:1082-1113 | a block DAG in which the cut that leaves window and depth in blocks leaves fewer chain blocks than the window needs |
| Examples.TargetChanges | crates/tao-consensus/src/difficulty.rs:45-80 | and a next target that changes with it |
| Examples.RedundantParent | crates/tao-ghostdag/src/protocol.rs:236-241 | a redundant parent that the search takes for merged |
| Examples.NotFromTheCut | crates/tao-dagvm/src/dag_chain.rs:1161-1183 | a kept block that descends from the cut only after the prune |
| PrototypeExample.ParentLater | crates/tao-dag/src/lib.rs:203-229 | a block DAG whose order puts a block before its parent |
| AccountsDb.AccountsDb.FromScratch | crates/tao-database/src/smt.rs:73-103 | sorting a listing of the accounts and hashing slice by slice gives the same root |
| AccountsDb.AccountsDb.RootOfListing | crates/tao-database/src/smt.rs:73-103 | any listing of the accounts has one root |
| Difficulty.WindowSums | crates/tao-consensus/src/difficulty.rs:64-69 | each interval adds its place times the gap of its timestamps, cut to one second and six block times; each block but the first adds its work |
| Difficulty.EvenGaps | crates/tao-consensus/src/difficulty.rs:71-79 | equal gaps s change the average work by the ratio of block time and s |
| Difficulty.OnTimeKept | crates/tao-consensus/src/difficulty.rs:45-80 | once the window is full, on-time blocks of one work keep it, but for one lost in rounding |
| NiPoPoW.SolvedHops | crates/tao-dagvm/src/dag_chain.rs:121-150 | certified is the same as solved headers that point at the one before |
| Replay.RunPays | crates/tao-dagvm/src/dag_chain.rs:766-788 | the states of a replay: each block pays the miner of its header and runs its own transactions |
| Replay.DiaryIs | crates/tao-dagvm/src/dag_chain.rs:766-788 | an execution that writes down whom it pays and what it runs lists miner and transactions of every block but genesis, in order |
| DagChain.DagChain.StateIsEarned | crates/tao-dagvm/src/dag_chain.rs:794-805 | the true state is reached by paying the miners of the headers in the current order |
| Node.HistoryPays | crates/tao-dagvm/src/dag_chain.rs:757-794 | since the first genesis every block, pruned or not, paid the miner of its header and ran its own transactions |
| Pruning.CutLeaves | crates/tao-dagvm/src/dag_chain.rs:1085-1113 | what the place of a cut means in numbers of blocks |
| DagChain.DagChain.CutRetains | crates/tao-dagvm/src/dag_chain.rs:1085-1113 | in the fields: at least window plus finality depth stay, no later chain block leaves that many, and when nothing is cut |
| DagState.SamplesAre | crates/tao-dagvm/src/dag_chain.rs:491-505 | one sample for every chain block, with its own timestamp and target |
| DagState.TargetHeld | crates/tao-dagvm/src/dag_chain.rs:478-509 | until the chain has one block more than the window its last target is kept, and for good if the window is shorter than two |
| DagState.TargetSteady | crates/tao-dagvm/src/dag_chain.rs:478-509 | a chain of on-time blocks of one work keeps it, but for one lost in rounding |
| DagChain.DagChain.OnTimeChain | crates/tao-dagvm/src/dag_chain.rs:478-509 | so does the selected chain of the node |
| DagChain.DagChain.CheckAgainst | crates/tao-dagvm/src/dag_chain.rs:645-662 | target, timestamp and interlink against the selected parent, in this order |
| DagChain.DagChain.Cached | crates/tao-dagvm/src/dag_chain.rs:854-859 | a state just computed is cached, and the checkpoint moves if it is time |
| LinearChain.ChainState.Examine | crates/tao-consensus/src/chain.rs:170-202 | the first broken rule and what it says of the header; none only for a header that keeps all rules |
| LinearChain.OnTimePath | crates/tao-consensus/src/chain.rs:145-148 | on-time headers of one work keep it, but for one lost in rounding |
| AccountsDb.AccountsDb.LastChange | crates/tao-database/src/accounts_db.rs:105-123 | the last change to an account decides, and it is gone exactly if that leaves neither funds nor data; other accounts stay |
| Protocol.ScoreCounts | crates/tao-ghostdag/src/protocol.rs:207-219 | blue score and blue work are the number of blue blocks in the past, the origin left out |
| Examples.CutProduct | crates/tao-consensus/src/difficulty.rs:76-77 | beyond 256 bits the product is cut, and on-time blocks do not keep their difficulty |

## Left out

- Inquirer.AddBlock: what is left in the store after a failure is not described, as the source stops half way too.
- Engine.DagEngine.AddBlock: on a failure for want of labels the engine is not described.
- Intervals.SplitHalf: the point where the halves meet is arbitrary within the interval, as 32-bit floating point decides it.
- Intervals.SplitExponential: the shares of the surplus are arbitrary up to what remains; the exponential weights are not modelled.
- Intervals.Biased: see the split above.
- DagChain.DagChain.Check: the wall clock, the size limits and the transaction Merkle root are not among the checks.
- DagChain.DagChain.Accept: a block whose parents are related is not covered.
- DagChain.DagChain.Prune: the proof walk stops after 1,000,000 steps, so the proof is assumed to be shorter; writing the compacted log is not modelled.
- Node.Serve: the client passes over blocks with related parents and prunes whose condition does not hold; it is not part of the source.
- DagChain.DagChain.BuildBlock: the search for a nonce is a parameter.
- Smt.PartitionPoint: the binary search of the standard library is its result, the length of the prefix of zero bits.
- Protocol.GhostdagManager.SortBlocks: the sort of the standard library is an insertion sort; keys are distinct, so the result is the same.
- Prototype.BlockDag.InTopologicalOrder: likewise an insertion sort.
- The anticone bound k is unbounded; the 16-bit wrap of k + 1 at its largest value is not modelled.
- Difficulty.NextTarget: the sum of work is unbounded; in the linear chain it never passes 256 bits (LinearChain.ChainState.SumFits), in the DAG node that is not claimed, and products of block time and window are taken to fit 64 bits.
- Timestamps are unbounded integers rather than 64-bit ones.
- Executing a block is a total function of state, miner and transactions; storage errors during execution are not modelled.
- Opening a node from its log, snapshots for synchronisation, and the legacy block format: serialisation and I/O.
- Account storage as RocksDB column families: the accounts and nodes are maps, and a write batch is an overlay that is then written as a whole.
- RPC, networking, command line, mempool, emission, genesis allocation and the useful-work crate.
- The header store and relations store of GHOSTDAG are maps with the operations the colouring uses.
