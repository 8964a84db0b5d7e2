# Shulcrum in Dafny

A verified model of the parts of the Shulcrum (Fulcrum) Electrum server where an in-memory index has to agree
with a simple recomputation, or where a protocol has to survive every interleaving of its callbacks. Check it
with `dafny verify dfyconfig.toml`.

Each area has a reference definition (plain functions), the objects and loops of the C++ code as classes and
methods proved against it, and theorems about the reference definition or about whole runs.

| area | files | main results |
|---|---|---|
| Merkle tree and header Merkle cache | `Division`, `Shifts`, `MerkleTree`, `MerkleLevel`, `MerkleCache` | over every run of growth, reorganisation, initialisation and queries, the cache answers exactly as a computation from scratch over the chain of that moment, except for one family of lengths, stated exactly |
| mempool and double-spend proofs | `Mempool*`, `DSProof`, `SynchDsps`, `Sums`, `Ids` | after every run of additions, drops, confirmations, clears and double-spend proofs the mempool equals the one that a single addition of the remaining transactions to an empty mempool builds, entry by entry and list by list; its value adds up; each proof affects exactly its transaction and the pool transactions that spend from it, directly or not; exactly the scripts and transactions concerned are reported; what every entry and list then says is spelled out over the transactions alone |
| parallel block download | `Extremes`, `DownloadSpec`, `DownloadProofs`, `DownloadRuns`, `DownloadProgress`, `Download` | under every interleaving blocks are stored in order, each height is requested once, what is under way stays within the limit of the net, nothing deadlocks, and a run has at most four productive steps for each block and one for each task |
| following reorganisations | `Reorg`, `InitialDownload` | the poll, download and undo loop ends on the node's chain, undoing only blocks above the fork, if and only if these can be undone; a sequence of reorganisations is followed if and only if none reaches below a floor that moves with each chain; not saving undo information in the initial download does harm if and only if blocks stored so end up near the tip |
| requests to bitcoind | `RequestSpec`, `RequestProofs`, `RequestReuse`, `RequestMeaning`, `Requests` | each request is answered at most once, with its own answer, and an unanswered one always has an answer on its way; when ids are used again, exactly when this breaks; every failure a sender is told of has its cause in the run |
| payment-address index range | `RpaSync` | at most two downloads, of missing heights only, complete the index from any consistent or flagged state; a slow check keeps exactly the first gapless stretch |
| fee histogram | `FeeHistogram` | each bin tells how many bytes pay at least its rate; rates decrease; bins reach the sizes aimed at, and where each one ends is stated rate by rate |
| block pre-processing | `BlockSpec`, `BlockProc` | flat indices, in-block links that are each other's inverse, and the per-script index, equal to naive recomputations |

Where code and comments or intent differ, the model follows the code:

* A Merkle query for a length below the cached one that ends on a segment boundary fails (`src/Merkle.cpp:224-227`
  asks for no hashes, and `src/Storage.cpp:4971-4977` refuses that). `MerkleCache.Cache.BranchAndRootFor` says
  exactly when; `MerkleCache.BoundaryQueryFails` gives an instance.
* On the main net the 100-block limit on read-ahead above height 550000 is never reached, because the test for
  150000 comes first (`src/Controller.cpp:886-889`); `DownloadRuns.NetLimits`.
* A request id may be used again once every earlier request with it has left the manager's queue, has had its
  object deleted if it was ever in the table, and is owed no answer by bitcoind; `RequestProofs.ExactlyOnce` holds for
  all runs that use ids so. The manager leaves this to its callers, which in this repository take every id from `newId()`
  (`src/Controller.cpp:1678`, `src/Servers.cpp:894`), so it is a boundary of the manager's interface. Each part is needed:
  * `src/BitcoinD.cpp:767-776` takes the table entry by id when an object is deleted. A waiting request can be left
    unanswered for ever if and only if another request with its id was in the table and has an object still to be
    deleted (`RequestReuse.StrandedIffRival`, after any run; `RequestReuse.StrandedFromStart` is such a run).
  * `src/BitcoinD.cpp:833-852` finds the request of a reply by id. A waiting request can be given the answer to
    another one if and only if bitcoind still owes an answer to another request with its id
    (`RequestReuse.MisansweredIffOwed`, after any run; `RequestReuse.OwedFromStart` is such a run, with a request
    that timed out and an answer that came late).
* A download that fills the payment-address index from the front makes storage record a wrong last height
  (`src/Storage.cpp:4024-4038`) until the slow check it also asks for has run; `RpaSync` includes this.
* The fee rate uses the fee cut to 32 bits (`src/Mempool.cpp:49`); `FeeHistogram.RateIsFeePerByte` says when that matters.
* Undo information is kept for the last `max_reorg` blocks as blocks are added (`src/Controller.cpp:1586-1590`), and
  is not restored when the chain becomes shorter. The floor is the height just above the highest block without it;
  `Reorg.FloorAfter` gives it after every reorganisation. `Reorg.Controller.Follow` reaches the node's last chain if and only
  if each chain forks no lower than the floor at that point. `Reorg.DepthSuffices`: reorganisations of at most
  `max_reorg` blocks meet this as long as none shortens the chain. At every depth they need not
  otherwise (`Reorg.ShorterThenForked`).

## Model

| member | source | states |
|---|---|---|
| Shifts.BranchLength | src/Merkle.h:47-52 | the least k with count <= 2^k |
| Shifts.AlignDown | src/Merkle.h:129-130 | shifting down and up again gives the start of the segment a number is in, itself iff it is aligned |
| Shifts.BranchLengthSplit | src/Merkle.h:47-52 | the branch length of a tree splits at any row into the part below and the branch length of the row, exactly when the tree is more than half a segment wide |
| MerkleTree.ComputeBranchAndRoot | src/Merkle.cpp:31-93 | the halving loop returns the branch and root of the reference tree, or an argument error exactly for a bad index or a length below the natural one |
| MerkleTree.Climb | src/Merkle.cpp:66-88 | after n turns the working row is the n-th row of the tree and the notes are the siblings met on the way |
| MerkleTree.CalculateRootFromBranch | src/Merkle.cpp:286-302 | the client's loop computes the fold of a leaf with its branch by index bits |
| MerkleTree.BranchProvesLeaf | src/Merkle.cpp:286-302 | folding any leaf with the branch that is returned for it, at any permitted length, gives the root |
| MerkleTree.ThreeLeaves | src/Merkle.cpp:31-93 | branch and root of the middle one of three leaves, written out |
| MerkleTree.FoldReachesRow | src/Merkle.cpp:31-93 | folding with the first n siblings reaches the leaf's ancestor in row n |
| MerkleTree.RowConcat | src/Merkle.cpp:95-115 | rows of a concatenation are concatenations of rows when the left part fills whole subtrees |
| MerkleTree.BranchCompose | src/Merkle.cpp:117-141 | a branch is the part below an inner row followed by the branch in that row |
| MerkleTree.BranchInSegment | src/Merkle.cpp:117-141 | the part of a branch below row d depends on the leaf's own segment only |
| MerkleLevel.Level | src/Merkle.cpp:95-115 | building the row from roots of 2^d-leaf chunks equals d rounds of pad-and-pair on the whole vector, short last chunk included |
| MerkleLevel.RowCut | src/Merkle.cpp:260-280 | cutting at leaf n keeps the nodes of the whole segments before n |
| MerkleLevel.ComputeFromLevel | src/Merkle.cpp:117-141 | returns what the reference says for a given row and leaf segment, consistency error included |
| MerkleLevel.FromLevelAnswer | src/Merkle.cpp:117-141 | from the right row and segment the consistency error is unreachable, and the answer has d lower levels plus the row's natural height |
| MerkleLevel.FromLevelIsPlain | src/Merkle.cpp:117-141 | that answer equals the plain one if and only if d is 0 or there are more than 2^(d-1) leaves |
| MerkleCache.Cache.InitializeFrom | src/Merkle.cpp:169-186 | the cached row becomes the row over the given hashes at the least height d with count <= 4^d, half-way up; an empty vector is an argument error and leaves height and state |
| MerkleCache.HalfWayUp | src/Merkle.cpp:181 | half the tree depth, rounded down, is the least d with count <= 4^d |
| MerkleCache.Cache.Initialize | src/Merkle.cpp:162-167 | the same from the store, failing exactly when the store cannot deliver, and then changing nothing |
| MerkleCache.Cache.ExtendTo | src/Merkle.cpp:191-208 | rebuilding from the last segment on keeps the cache in agreement; the "limit" error is unreachable |
| MerkleCache.Cache.LevelFor | src/Merkle.cpp:210-231 | the cut row is the row over the first l leaves; it fails exactly for a shorter length on a segment boundary |
| MerkleCache.Cache.BranchAndRootFor | src/Merkle.cpp:233-258 | the answer is the plain one for the first len ids of the current chain; which queries fail and with which error is stated by lengths alone, and every other answer is a branch as long as the tree is high that takes the id to the tree's root |
| MerkleCache.Cache.Truncate | src/Merkle.cpp:260-280 | the covered length falls to the last multiple of the segment size at or below the new length, and the cache still agrees with any chain that shares it |
| MerkleCache.Cache.AgreesAboveIsFree | src/Storage.cpp:4129-4132 | the chain may be replaced above the covered length |
| MerkleCache.Apply | src/Merkle.cpp:176-280 | one event of growth, reorganisation, initialisation or query, on a cache that agrees with its chain |
| MerkleCache.Replay | src/Merkle.cpp:176-280 | over every run from a new cache, all answers are those of plain computations |
| MerkleCache.BoundaryQueryFails | src/Merkle.cpp:224-227 | with four ids cached, length 2 cannot be queried although 3 and 4 can |
| DSProofs.DSPs.Add | src/DSProof.cpp:40-53 | a proof is added with all its links; the two indexes stay each other's inverse |
| DSProofs.DSPs.Rm | src/DSProof.cpp:61-79 | a proof and exactly its links disappear |
| DSProofs.DSPs.AddTx | src/DSProof.cpp:80-95 | one link is added to both indexes; the half-there state is unreachable |
| DSProofs.DSPs.RmTx | src/DSProof.cpp:96-123 | the transaction leaves all proofs, its own proofs disappear, and the number of its links is returned |
| DSProofs.DSPs.NumTxDspLinks | src/DSProof.cpp:33-38 | the count from the transactions' side equals the sum of the descendant sets |
| DSProofs.DSPs.BestProofForTx | src/DSProof.cpp:144-157 | a proof of the transaction itself if there is one, else one with fewest descendants, none iff there is none |
| DSProofs.DSPs.TxsLinkedToTxs | src/DSProof.cpp:159-176 | exactly the transactions sharing a proof with one of the given ones |
| DSProofs.LinksUnique | src/DSProof.cpp:33-123 | the link index is determined by the proofs |
| DSProofs.CountBothSides | src/DSProof.cpp:33-38 | counting links by transaction or by proof gives the same number |
| MempoolSpec.CanonicalUnique | src/Mempool.cpp:973-1010 | a canonical mempool is determined by its transactions and the confirmed outputs |
| MempoolSpec.SortedListUnique | src/Mempool.h:98-103 | a strictly sorted list is determined by its elements |
| MempoolMeaning.CanonicalMeans | src/Mempool.h:51-103 | every entry and list of a canonical mempool, in terms of transactions and confirmed outputs only: outputs, links, spends with amounts, unspent outputs, and lists with transactions without unconfirmed parents first and otherwise by rising hash |
| MempoolLists.SortAndUniqueify | src/Mempool.cpp:279-287 | a list of the same transactions, each once, those without unconfirmed parents first and otherwise by rising hash |
| MempoolLists.RemoveFromLists | src/Mempool.cpp:550-606 | removed ids leave the affected lists, emptied lists go, and only flagged lists are sorted |
| MempoolLists.ListsAfterRemoval | src/Mempool.cpp:550-606 | after that all lists are complete and strictly sorted again, although most were never re-sorted |
| MempoolModel.Mempool.AddNewTxs | src/Mempool.cpp:81-332 | fails exactly when some input spends neither a confirmed output nor an output, other than OP_RETURN, of a pool transaction; otherwise the mempool is canonical for old and new transactions together, in any iteration order; the scripts reported are exactly those of the new transactions, and the transactions reported exactly those sharing a proof with one that gained a link; every unlinked batch ends with all proofs of its parents, and no transaction gets a proof that does not come from a parent |
| MempoolModel.Mempool.AddOutputs | src/Mempool.cpp:92-137 | after the first pass the pool holds the new outputs and nothing of the inputs |
| MempoolModel.Mempool.AddTxInput | src/Mempool.cpp:142-245 | one input takes the canonical entries of a pool to those of the pool with that input |
| MempoolModel.Mempool.AddInputs | src/Mempool.cpp:142-277 | the second pass ends with all entries canonical, and notes parents and linked proofs |
| MempoolModel.Mempool.SortAffected | src/Mempool.cpp:279-287 | the lists touched by the batch are so ordered, and the others are as before |
| MempoolDsps.LinkAll | src/Mempool.cpp:299-312 | a transaction gains the given proofs, and links still missing decrease iff one was added |
| MempoolDsps.Propagate | src/Mempool.cpp:289-320 | the do-while loop terminates with every new transaction linked to all proofs of its noted parents and to no others, and returns exactly those that gained a link |
| MempoolModel.Mempool.GrowToDescendants | src/Mempool.cpp:334-366 | the least superset closed under children, and how much larger it is |
| MempoolModel.Mempool.DropTxs | src/Mempool.cpp:386-526 | the ids and exactly their descendants leave; what is left is canonical; proofs lose them; exactly their scripts, and exactly the transactions sharing a proof with one of them, are reported |
| MempoolModel.Mempool.EraseTxs | src/Mempool.cpp:401-474 | crediting, unlinking and erasing one by one gives the canonical entries of the rest |
| MempoolModel.Mempool.CreditSpends | src/Mempool.cpp:418-466 | outputs spent only by dropped transactions become unspent again |
| MempoolModel.Mempool.UnlinkAndErase | src/Mempool.cpp:380-384 | a transaction disappears, from its parents' children and its children's parents too |
| MempoolModel.Mempool.RmDspTxs | src/Mempool.cpp:483-507 | exactly the given transactions leave the proofs, and exactly those sharing a proof with one of them are reported |
| MempoolModel.Mempool.ConfirmedInBlock | src/Mempool.cpp:620-778 | after a block the mempool is canonical for the remaining transactions and the new confirmed outputs; what remaining transactions spend of the block is a confirmed spend with its amount, the block's height and the spent transaction's number; the scripts reported are exactly those of confirmed transactions and of those left without an unconfirmed parent; proofs lose the confirmed transactions, and those sharing a proof with one are reported |
| MempoolModel.Mempool.ConfirmTx | src/Mempool.cpp:700-737 | one confirmed transaction recategorises its children's spends, is unlinked and erased |
| MempoolModel.Mempool.RecategorizeChildren | src/Mempool.cpp:629-684 | the children's unconfirmed spends of the block become confirmed ones with height and number |
| MempoolLedger.UtxosAreUnspent | src/Mempool.cpp:92-137 | an output is in an unspent set iff it is valid and no pool transaction spends it |
| MempoolLedger.FeeIsSums | src/Mempool.cpp:131-241 | the fee of each transaction is what its inputs spend less what its outputs pay, OP_RETURN included |
| MempoolLedger.LedgerBalances | src/Mempool.cpp:92-245 | unspent outputs = confirmed value spent - fees - OP_RETURN value, in every canonical mempool in which no output is spent twice |
| MempoolRuns.Apply | src/Mempool.cpp:81-778 | every legal event takes a canonical mempool to a canonical one, keeps that no output is spent twice and no transaction spends itself, and keeps the proofs tied to the pool |
| MempoolRuns.Replay | src/Mempool.cpp:81-778 | so does every legal run from an empty mempool: entries and lists then say of transactions and confirmed outputs what they should, the value balances, and each proof affects exactly its own transaction and the pool transactions spending from it, directly or not |
| MempoolRuns.RebuildAgrees | src/Mempool.cpp:1711-1744 | a second mempool built at once from the transactions of a canonical one is equal, for every pool in which none spends itself |
| MempoolRuns.RunThenRebuild | src/Mempool.cpp:1711-1744 | after every legal run, a second mempool built at once from the remaining transactions is equal, entry by entry and list by list |
| MempoolRuns.ResyncAgrees | src/Storage.cpp:4085-4097 | after a clear, the same transactions and the same proofs, downloaded again, give the same entries, lists and proof index |
| SynchDsps.ProcessDownloads | src/Controller/SynchDSPsTask.cpp:180-217 | downloaded proofs of pool transactions are entered with those descendants that are in the pool; exactly the pool transactions concerned are flagged |
| SynchDsps.BatchTied | src/Mempool.cpp:170-320 | after a batch each proof still affects exactly its transaction's descendants in the grown pool |
| SynchDsps.DropTied | src/Mempool.cpp:483-507 | likewise after transactions have been dropped with all that spend from them |
| SynchDsps.ConfirmTied | src/Mempool.cpp:740-778 | likewise after transactions have been confirmed with their parents |
| SynchDsps.TiedUnique | src/DSProof.cpp:33-123 | the index is determined by the pool and by which proofs there are of which transactions |
| DownloadProofs.ExpectedCounts | src/Controller.cpp:516-524 | expectedCt counts exactly the strided heights of a task's range |
| DownloadProofs.OneOwner | src/Controller.cpp:1238-1240 | no height belongs to two tasks |
| DownloadProofs.OwnerOwns | src/Controller.cpp:1238-1240 | every height of the range belongs to a task |
| DownloadProofs.ProcessKeeps | src/Controller.cpp:546-563 | requests are made in range; a task past its range has all blocks, so "missing blocks" is never reported |
| DownloadProofs.ReplyKeeps | src/Controller.cpp:649-698 | after the first block exactly min(maxQ, blocks missing) requests are under way or scheduled |
| DownloadProofs.DrainKeeps | src/Controller.cpp:1520-1567 | draining stores by height without gaps, stops at a refused block, and loses nothing it holds |
| DownloadRuns.ThrottleRange | src/Controller.cpp:879-910 | a block that may be requested is at most 1000 ahead of storage, and one within 10 always may be |
| DownloadRuns.NetLimits | src/Controller.cpp:883-908 | a request waits exactly when it is beyond the limit of its net, height and coin (250 above 150000 on the main net, 10 above 10000 on ScaleNet, 250 or 100 above 1300000 on other test nets, else 1000), and then 10 ms, 5 more for each further block, at most 50 |
| DownloadRuns.StartInv | src/Controller.cpp:1230-1242 | the invariant holds when the tasks are created, and there are as many as blocks or connections allow, whichever is less |
| DownloadRuns.StepKeeps | src/Controller.cpp:546-698 | every callback, in any order, keeps the invariant: each requested height is in exactly one place |
| DownloadProgress.StoredInOrder | src/Controller.cpp:1520-1567 | after any run storage got base, base+1, ... in order, all of them when finished, up to the refused one when retrying |
| DownloadProgress.RequestsBounded | src/Controller.cpp:670-698 | after any run no task has more than nClients+1 requests out, and no height is with two tasks |
| DownloadProgress.BacklogBounded | src/Controller.cpp:879-910 | after any run at most 1000 blocks wait in memory for storage, none more than 1000 ahead |
| DownloadProgress.BacklogWithinLimits | src/Controller.cpp:879-910 | after any run every block that is requested, on its way or held is within the limit of its net and height |
| DownloadProgress.NothingStoredAfter | src/Controller.cpp:1520-1567 | over any run after the controller left the download, storage gets nothing more |
| DownloadProgress.RequestedExactlyOnce | src/Controller.cpp:546-575 | over any run every height is requested at most once, exactly once if the download finished |
| DownloadProgress.SuccessMeansAllArrived | src/Controller.cpp:546-563 | a task succeeds only with all expected blocks, each of which reached the controller |
| DownloadProgress.FinishedMeansSuccess | src/Controller.cpp:546-563 | once storage is complete every task has succeeded or will at its next call |
| DownloadProgress.NoDeadlock | src/Controller.cpp:546-575 | after any run that is still downloading some productive step is enabled: for the task that owns the height storage waits for, or for that block |
| DownloadProgress.WorkDecreases | src/Controller.cpp:546-698 | every productive step leaves less work |
| DownloadProgress.ProductiveStepsBounded | src/Controller.cpp:546-698 | no run, with any failures and renewed back-offs in between, has more productive steps than four for each block and one for each task |
| DownloadProgress.CanFinish | src/Controller.cpp:546-698 | from every state that keeps the invariant and has not failed the download can be brought to its end |
| DownloadProgress.CompletesFromStart | src/Controller.cpp:1230-1242 | with no block refused, that end has every height stored |
| Download.StateMachine.ProcessDownloadingBlocks | src/Controller.cpp:1520-1567 | the loop over the queued blocks makes the step of the reference machine |
| Download.DownloadBlocksTask.OnBlock | src/Controller.cpp:661-698 | the window is topped up as the reference machine says |
| Download.Controller.constructor | src/Controller.cpp:1230-1242 | the tasks of the GetBlocks state |
| Download.Controller.Handle | src/Controller.cpp:546-698 | every callback on the objects is a step of the reference machine |
| Reorg.HeaderVerifier.Check | src/BTC.cpp:105-153 | accepts exactly well-formed, non-null headers that link to the previous one, if any, and moves only then |
| Reorg.Storage.AddBlock | src/Storage.cpp:3698-3716 | appends exactly the headers that extend the chain; undo information is kept for the last undoDepth heights |
| Reorg.Storage.UndoLatestBlock | src/Storage.cpp:4100-4132 | takes off the last block exactly when it is not the genesis block and has undo information |
| Reorg.SameIdSamePast | src/BTC.cpp:137-153 | linked chains with the same id at one height are equal up to there |
| Reorg.LinkedMeansShared | src/BTC.cpp:137-153 | the node's next block fits exactly when all that is stored is on the node's chain |
| Reorg.Controller.GetBlocks | src/Controller.cpp:1583-1608 | all missing blocks are added, or one block is undone |
| Reorg.Controller.Poll | src/Controller.cpp:1110-1203 | one round: up to date, one step down, or caught up; with each error case |
| Reorg.Controller.Rewind | src/Controller.cpp:1610-1624 | one block above the fork is undone, or this is impossible |
| Reorg.Controller.Synchronise | src/Controller.cpp:1159-1203 | the loop ends on the node's chain, having undone just the blocks above the fork, if and only if all of those can be undone; which blocks can be undone afterwards is stated height by height: those of the last undoDepth from the fork on, unless the node is in its initial download, none below the fork could be undone, and more than undoDepth further headers are announced; outside the initial download the last undoDepth can if and only if those of them stored before could |
| Reorg.Controller.Follow | src/Controller.cpp:1159-1203 | the node shows one chain after the other: storage reaches the last of them if and only if each forks from the one before no lower than the floor at that point |
| Reorg.FloorAfter | src/Storage.cpp:3911-3958 | after a reorganisation the floor is unchanged, or the end of the window of the new chain if that is higher |
| Reorg.WindowKept | src/Controller.cpp:1586-1590 | the last undoDepth blocks can be undone after a reorganisation if and only if those of them stored before could be |
| Reorg.DepthSuffices | src/Controller.cpp:1586-1590 | any sequence of reorganisations of at most undoDepth blocks that never shortens the chain is followed, if the last undoDepth blocks can be undone at the start |
| Reorg.ShorterThenForked | src/Controller.cpp:1586-1590 | at every depth d, with just the last d blocks undoable, losing the tip and then forking d blocks below cannot be followed, though the steps replace one and d blocks |
| Reorg.AboveFork | src/Controller.cpp:1159-1203 | no undone block is on the node's chain |
| InitialDownload.CatchUp | src/Controller.cpp:1205-1217 | storage always gets to the end of a growing chain; the last undoDepth blocks can then be undone if and only if those stored before could and every stretch stored without undo information ends at least undoDepth below the tip |
| InitialDownload.WindowStep | src/Controller.cpp:1205-1217 | the same for one chain of such a run |
| InitialDownload.AnnouncedReached | src/Controller.cpp:1215-1216 | this holds when the last chain reaches the headers announced by each node in its initial download |
| InitialDownload.CatchUpThenFollow | src/Controller.cpp:1159-1217 | from an empty database, an initial download that reaches what was announced is followed by reorganisations of at most undoDepth blocks for ever, as long as none shortens the chain |
| RequestProofs.StepKeeps | src/BitcoinD.cpp:655-852 | every callback keeps: answered at most once; unanswered with a live sender means signal queued, call queued, or in the table |
| RequestProofs.ExactlyOnce | src/BitcoinD.cpp:703-733 | in every run that uses ids again only when earlier requests with them are past, there is at most one callback per request, about that request, with bitcoind's answer to that very request; an unanswered one has an answer on its way; at most one timeout is pending |
| RequestProofs.CanBeAnswered | src/BitcoinD.cpp:798-820 | the manager's call, the timeout check and the sender's event loop suffice to bring the answer |
| RequestProofs.NoLeaks | src/BitcoinD.cpp:767-776 | after every run with ids so used each table entry is for a request with that id whose object is still there |
| RequestReuse.StrandedStays | src/BitcoinD.cpp:767-776 | a request that has fallen out of all queues and the table stays so over every run |
| RequestReuse.StrandedIffRival | src/BitcoinD.cpp:767-776 | after any run, however ids are used, a waiting request can be left unanswered for ever if and only if another with its id was in the table and has an object still to be deleted |
| RequestReuse.StrandedFromStart | src/BitcoinD.cpp:767-776 | such a run from the start, with no sender dying |
| RequestReuse.MisansweredIffOwed | src/BitcoinD.cpp:833-852 | after any run, however ids are used, a waiting request can be given another one's answer if and only if bitcoind still owes an answer to another with its id |
| RequestReuse.OwedFromStart | src/BitcoinD.cpp:833-852 | such a run from the start, with a request that timed out |
| RequestReuse.FreshMeansNeither | src/BitcoinD.cpp:767-776 | after any run that uses ids again only when past, neither is the case |
| RequestMeaning.FailuresHaveCauses | src/BitcoinD.cpp:735-826 | after any run, a sender told of a failure is told so because it happened: no bitcoind, the id in use, a check later than the timeout allows, or that bitcoind lost |
| RequestMeaning.StampsAreTrue | src/BitcoinD.cpp:746-761 | after any run, a request that was ever tabled was entered at the time it is stamped with and given to the bitcoind it names |
| RequestMeaning.SilentAfterDeath | src/BitcoinD.cpp:703-733 | over any run after a sender is deleted none of its callbacks is run |
| Requests.BitcoinDMgr.RunQueued | src/BitcoinD.cpp:743-793 | no bitcoind, id held by a live request, or entered in the table with the time; the sender is told of the first two, each field is stated |
| Requests.BitcoinDMgr.HandleMessage | src/BitcoinD.cpp:833-852 | a reply takes the entry out of the table and is passed on to the request that was there, if its sender is connected, and to no other |
| Requests.BitcoinDMgr.NotifyFail | src/BitcoinD.cpp:821-826 | exactly the tabled requests with that bitcoind fail, and nothing else changes |
| Requests.BitcoinDMgr.RequestTimeoutChecker | src/BitcoinD.cpp:798-819 | exactly the tabled, live, not yet flagged requests whose stamp lies more than their timeout back are flagged, and fail once; nothing else changes |
| RpaSync.RpaStorage.AddRpaDataForHeight | src/Storage.cpp:4012-4039 | one height is stored; the range is updated, and flagged when it does not continue |
| RpaSync.RpaStorage.AddRange | src/Storage.cpp:4012-4039 | a download by increasing height, complete or broken off (then flagged) |
| RpaSync.RpaStorage.DeleteFromHeight | src/Storage.cpp:3320-3356 | heights from here on are gone and the range is cut |
| RpaSync.RpaStorage.DeleteToHeight | src/Storage.cpp:3358-3389 | heights up to here are gone and the range is cut |
| RpaSync.RpaStorage.Clamp | src/Storage.cpp:3391-3405 | only the wanted heights remain, with the exact range when they were all there |
| RpaSync.RpaStorage.Scan | src/Storage.cpp:3224-3262 | finds the first gapless stretch of the stored heights |
| RpaSync.RpaStorage.LoadCheck | src/Storage.cpp:3168-3318 | what is kept is exactly the first gapless stretch of the data, which storage then knows; nothing when records are bad |
| RpaSync.RpaStorage.RunSlowCheck | src/Storage.cpp:4324-4338 | runs exactly when flagged, and keeps the first gapless stretch of what lies inside the wanted heights |
| RpaSync.Controller.CheckRpaIndexNeedsSync | src/Controller.cpp:995-1075 | skips exactly when all wanted heights are there, asks only for non-empty missing ranges inside them, and from then on checks no more exactly after a skip with a chain |
| RpaSync.Controller.Synchronise | src/Controller.cpp:995-1075 | repeated checks end, after at most two downloads, with exactly the wanted heights stored |
| FeeHistogram.RateIsFeePerByte | src/Mempool.cpp:49-50 | the rate is fee per byte exactly when the fee is below 2^32 |
| FeeHistogram.SizesByRate | src/Mempool.cpp:45-53 | the first loop counts, for every rate, the bytes of its fee-paying transactions |
| FeeHistogram.TurnKeeps | src/Mempool.cpp:60-77 | one turn keeps the bins cut at items, in sum above 20/21 of the sizes aimed at, and each one ended by the rate that took it beyond its aim or by a rate that gets a bin for itself |
| FeeHistogram.Compact | src/Mempool.cpp:55-77 | the second loop satisfies what is said of the whole |
| FeeHistogram.CalcCompactFeeHistogram | src/Mempool.cpp:40-79 | bins up to k hold exactly the bytes paying at least the k-th rate; rates decrease; the rest would not fill a bin; the total exceeds 20/21 of the sum of b*1.1^k; each bin goes beyond its aim by no more than its last rate's bytes, and these have it for themselves if they alone are more than twice the aim |
| BlockProc.PreProcessedBlock.Fill | src/BlockProc.cpp:37-228 | fails exactly for oversized transactions and spends from a transaction without outputs; otherwise the flat lists, links and per-script index are those of the block |
| BlockProc.PreProcessedBlock.AddOutputs | src/BlockProc.cpp:100-141 | a transaction's outputs are flattened and entered for their scripts |
| BlockProc.PreProcessedBlock.AddInputs | src/BlockProc.cpp:143-169 | a transaction's inputs are flattened |
| BlockProc.PreProcessedBlock.ResolveInput | src/BlockProc.cpp:183-212 | an input is linked to the in-block output it spends, and entered for its script |
| BlockProc.SortAll | src/BlockProc.cpp:214-228 | the lists per script are sorted and without repetitions |
| BlockProc.SameOutpoint | src/BlockProc.cpp:183-212 | a link names the same transaction (the last with that hash) and output number from both ends; no link means the parent is outside |
| BlockProc.LinksInverse | src/BlockProc.cpp:183-212 | parentTxOutIdx and spentInInputIndex are mutually inverse when the block spends none of its outputs twice |
| BlockProc.InputPosition | src/BlockProc.h:141-153 | the input number in its transaction, recovered from the flat index |
| BlockProc.OutputPosition | src/BlockProc.cpp:100-112 | the same for outputs, with amounts |
| BlockProc.InfoIs | src/BlockProc.cpp:89-98 | each transaction's hash, numbers of inputs and outputs, and the positions of its first ones |
| BlockProc.TooBigIs | src/BlockProc.cpp:136-167 | the sizes that are accepted: at most 2^24 outputs, and spent output numbers below 2^24 except in the coinbase |
| BlockProc.IndexIsNaive | src/BlockProc.cpp:89-228 | each script's outs, ins and transactions are strictly increasing and are exactly the ones of the block |
| BlockProc.IndexByLinks | src/BlockProc.cpp:183-212 | a script's outs are the outputs that pay to it, and its ins exactly the inputs linked to one of these |
| BlockProc.TxNumsByLinks | src/BlockProc.cpp:214-228 | its transactions are exactly those that these outputs and inputs belong to |

## Left out

- Token data, RPA prefix tables and serialization, memory and size estimates, statistics, logging: no effect on the state modelled.
- Hash functions, header and transaction serialization, scripts: uninterpreted; a header is its id, its predecessor's id and whether it is null or malformed.
- Hashes of the wrong size in `Merkle::branchAndRoot` are excluded by type, and chains have fewer than 2^31 blocks, so no index wraps.
- Locks: each operation is one step; on the download and request protocols a step is one callback, and threads interleave freely between steps.
- MempoolModel.Mempool.AddNewTxs: assumes new ids that are not in the pool, no transaction spending itself, and none that a transaction already there spends from; the mempool after a failure is not described, as the caller discards it.
- MempoolModel.Mempool.DropTxs: assumes no output is spent twice in the pool.
- MempoolModel.Mempool.ConfirmedInBlock: assumes a block closed under in-pool parents that spends nothing the remaining pool spends.
- SynchDsps.ProcessDownloads: the requests that download the proofs are left out; in the runs a node lists, for each proof, all descendants of its transaction, so that those in the pool are exactly the pool's.
- Shared and weak pointers to transactions are ids into one table, and an entry is a value in it; the mempool entry has no object identity of its own.
- The getblockhash and getblock requests of one height are one request; failed or malformed replies are the event that fails the task. Block contents in the download are their heights.
- Download.StateMachine.ProcessDownloadingBlocks: the stop flag and the payment-address results are left out; storage's verdict on a block is an input, and an exception other than its refusal, which ends the download in failure, is not modelled. The link check behind the verdict is in `Reorg`.
- Download.DownloadBlocksTask.OnBlock: a task does not stop before it has succeeded or failed, and deleted tasks send nothing.
- Reorg.Controller.Synchronise: the node's chain is fixed while it runs, and ids are free of collisions; changes of the chain between runs are covered by `Reorg.Controller.Follow`.
- Reorg.Storage.UndoLatestBlock: the check that the undo record belongs to the tip is left out, as storage writes both together.
- Reorg.Controller.Poll: the check of the payment-address index in these lines is in `RpaSync`.
- Reorg.Storage.AddBlock: the bookkeeping of the earliest height with undo information is left out, since deleting a missing entry does nothing; write errors are not modelled.
- Requests.BitcoinDMgr.RunQueued: the table of cached results in the request manager is not modelled; that a request is answered from it is an event. Shutdown and the periodic timers themselves are left out. bitcoind answers each request it was sent at most once, perhaps late.
- RpaSync.RpaStorage.LoadCheck: unreadable records and foreign hashes are one input, `intact`; the fast check at startup is left out.
- FeeHistogram.CalcCompactFeeHistogram: double arithmetic is real arithmetic, and the result is described for pools below 4 GiB, where the unsigned sums do not wrap.
- BlockProc.PreProcessedBlock.Fill: assumes that an in-block spend names an output its parent has; the code only asserts this. The count of OP_RETURN outputs is left out.
- Configuration, networking, sockets, storage engine, subscriptions, address codecs, block and mempool download tasks other than the block download: plumbing or unseen code.
