# Verified models of the database exercises

The repository holds several small storage engines written in C and C++. This project models
five of them and proves what they are for.

- **B-link tree** (`1129_bltree`), modules `Blink*`. `BlinkMemory.Memory` is the shared memory: each
  of its methods is one store, one allocation or one lock operation, and keeps a history of
  snapshots, one after every store. `BlinkNode`, `BlinkCopy`, `BlinkParent` and `BlinkTree` are the
  program over it, loop by loop. `BlinkShape.Tree` is the invariant of the whole tree, with at most
  one split that is linked but not yet reported to its parent. `BlinkReader` runs `find_leaf` without
  locks, one memory access per step, against any history of stores, and `BlinkStill` says where it ends
  when nobody stores; `BlinkLeaves` is the leaf level on its own, between any two stores above it. `BlinkLocks` is the lock protocol of any number of
  concurrent insertions, with the allocation and each link store of a split a step of its own;
  `BlinkWaits` shows that it does not deadlock, `BlinkCuts` when lower bounds ascend under it,
  `BlinkLinks` exactly when a right link is lost and `BlinkLeafLinks` that none is on the leaf level.
  `BlinkKeyRuns` adds keys to it, and `BlinkRanges` proves what the leaves hold under any number of
  writers. `BlinkPlay` narrows these runs to those the program makes at a fan-out N, and `BlinkSizes` says
  how full their nodes get. `BlinkWindow` is one of them in which a link above the leaves is lost, and
  `BlinkPassing` one in which move_right goes right above the leaves.
- **Kung-Robinson optimistic concurrency** (`1108_occ/kr.cc`), modules `Kr*`. `KrSystem` is a transition
  system of any number of workers in which every read or store of a row, of `Tx_id` and of a
  `WaterMark` entry is a step of its own; `KrTransaction` is the text of `transaction()` as loops over
  arrays, and `KrSolo` shows that a worker's steps do what that text promises. `KrHistory` says what rows
  hold and what is read by the committed write sets alone.
- **B+ tree** (`1025`), modules `Bp*`: `BpTree.BPlusTree` over mutable nodes with parent pointers.
- **Open addressing** (`ass_1/open_addr.c`), module `OpenAddress`.
- **Silo** (`1115_silo`): `SiloEpoch` (epoch thread and workers, one atomic access per step), `SiloTid`
  (TID words and the commit TID) and `SiloWorker` (a worker's successive commits).

`Slots` holds what both trees share: the shifting and copying loops as functions on sequences.

Ghost state. Every tree node carries a `level` and the end points of its key range. In the B-link tree
these are fixed at allocation (`low`, exclusive), `pub` counts the child slots that descents may
have seen, and `calm` is the last snapshot at which the leaf level changed; `held`, `trail` and `unlinked`
are the locks held, the lock operations so far, and the new nodes that no right link and not Root leads
to yet. In the B+ tree a split also lowers `hi`. `chi[]` and `key[]` are stored inline in a node, so they
are sequences of fixed length that are updated one slot at a time. `N` is any even number from 4 on; the
programs use 600 and 4. `(int)ceil(N/2)` is `N / 2`, since the division is integral.

Where the code and its comments or its evident intention differ:

- `1108_occ/kr.cc:99` tests `!pthread_mutex_unlock(...)`, inverted relative to lines 94 and 133; the model
  unlocks and retries. The value written is 0, "no meaning" (line 88); the model lets each transaction
  write any function of the values it read.
- `1115_silo/silo.cc:73-76` announces a commit TID above the worker's most recently chosen one. `mrctid` is
  a fresh local, so this does not hold: `SiloTid.NewerIff` says exactly when it does, and
  `SiloTid.CommitCanRepeat` gives the case in which it does not. The same comment announces a TID above that
  of any record read or written. `max_wset` is never assigned, so `SiloTid.BlindWriteCanFall` stores a word
  below the one of a row that was written without being read, and `SiloTid.AboveIff` says exactly when a
  commit is above a given word. `SiloTid.CommitIsAboveIff` is the case of the words read, and
  `SiloTid.CommitCanWrap` its one exception, the last tid of an epoch; the 20 * 1000 commits of the
  program stay far below that tid.
- `1129_bltree/bltree.cc:277-282`: between the stores of a parent split the right half can be reached through the
  parent fields of its children (lines 144-146) before any right link leads to it. `BlinkWindow.LinkIsLost` is a
  run at fan-out 4 in which a second writer fills it and splits it there and line 279 then overwrites the second
  writer's link. `BlinkLinks.WholeIff` says for every run and level when no link is lost;
  `BlinkLeafLinks.LeafLevelIsWhole` that none ever is on the leaf level.
- `1129_bltree/bltree.cc:318`: a leaf split hands high_key on as it is, so in the last leaf it can lag behind the
  keys (`BlinkStep.HighCanLag`); `BlinkStep.SplitHigh` says exactly when. Nothing depends on
  it there: move_right compares with high_key only beside a right link, where it is exact.
- `1115_silo/silo.cc:355-360`: the creation of the epoch thread is commented out; the model has it as worker 0.
- `ass_1/open_addr.c:38` overflows if `rand()` returns `RAND_MAX`; the model takes positive values.
- `1129_bltree/bltree.cc:360` and `1025/bptree.cc:400` look at `nkey + 1` slots. A stored key is found before the
  extra one is reached; the contracts of both `SearchCore` methods say what else is "found".

## Model

| member | source | states |
|---|---|---|
| Slots.ShiftLoop | 1129_bltree/bltree.cc:28-46 | One round of the in-place shifting loop, and storing the new value after the last round, gives insertion at that position. |
| Slots.FirstAboveIs | 1129_bltree/bltree.cc:37-39 | The comparison loop can only stop at the one first slot above the key. |
| Slots.FillLoop | 1129_bltree/bltree.cc:100-104 | One round of the copying loop moves one more slot of the TEMP and touches no other. |
| Slots.SameElements | 1129_bltree/bltree.cc:291-328 | A strictly ascending sequence is determined by its elements, so contents determine the chain. |
| Slots.PutInOrderElements | 1129_bltree/bltree.cc:291-328 | Putting a new key in order gives an ascending sequence with exactly that key more. |
| BlinkState.StoreKeepsReadable | 1129_bltree/bltree.cc:173-179 | A store that leaves its record readable and raises no published key slot leaves the whole snapshot readable for any descent. |
| BlinkState.AllocKeepsReadable | 1129_bltree/lib.cc:51-97 | A new node disturbs no descent. |
| BlinkReader.AccessKeepsReader | 1129_bltree/bltree.cc:5-22 | One memory access of the descent, in any readable snapshot, is inside the arrays, finds a child pointer, and keeps the descent on a node that starts below its key. |
| BlinkReader.StoreKeepsReader | 1129_bltree/bltree.cc:163-180 | A store by someone else between two accesses keeps what the descent relies on, mid-scan included. |
| BlinkReader.DescentKeepsReader | 1129_bltree/bltree.cc:5-22 | Both together, for every interleaving of one descent with a history of stores. |
| BlinkReader.DescentNeverFaults | 1129_bltree/bltree.cc:5-22 | However stores interleave, the next access of an unfinished descent never follows a null or foreign pointer and never leaves an array. |
| BlinkReader.DescentEndsBelowKey | 1129_bltree/bltree.cc:5-22 | A descent that ends, ends at a leaf whose lower bound is below the key, then and ever after. |
| BlinkReader.DescentIsBounded | 1129_bltree/bltree.cc:10-19 | A descent makes at most (level of the root it read) * (N + 3) + 2 accesses, whatever is stored meanwhile. |
| BlinkStill.StillDescent | 1129_bltree/bltree.cc:5-22 | Until then every node it stands on covers the key. |
| BlinkStill.StillDescentFinds | 1129_bltree/bltree.cc:5-22 | In a tree in which nobody stores meanwhile, the accesses of the unlocked descent end at the one leaf that covers the key, which holds the key and its data pointer if and only if the tree does. |
| BlinkShape.CoverIsUnique | 1129_bltree/bltree.cc:199-229 | On one level, exactly one node covers a key, also while a split is pending. |
| BlinkShape.KeyIsInItsLeaf | 1129_bltree/bltree.cc:296-304 | A key is stored if and only if it is in the leaf that covers it, with the same data pointer. |
| BlinkShape.SeparatorFits | 1129_bltree/bltree.cc:163-180 | The separator of a pending split lies strictly between the two separators around the left child in its parent, and inside the parent's range. |
| BlinkStep.AddKeyAscends | 1129_bltree/bltree.cc:24-56 | A new key goes in so that the keys stay strictly ascending. |
| BlinkStep.AddKeyPairs | 1129_bltree/bltree.cc:24-56 | The pairs of key and data pointer afterwards are the old ones and the new one. |
| BlinkStep.SplitLeafPairs | 1129_bltree/bltree.cc:85-104 | The two halves of a split leaf hold exactly the pairs of the TEMP. |
| BlinkStep.PlacedByKey | 1129_bltree/bltree.cc:187-189 | The comparison loop finds the slot of the left child. |
| BlinkStep.AddSepSlots | 1129_bltree/bltree.cc:169-178 | Every key slot keeps its key, takes its left neighbour's or takes the separator, and no used slot rises. |
| BlinkStep.AddSepKids | 1129_bltree/bltree.cc:163-180 | With the separator in, every child starts at the separator to its left; the children are the old ones and the new one. |
| BlinkStep.InsertRaisesHigh | 1129_bltree/bltree.cc:50-53 | insert_in_leaf leaves high_key not below the new key and not below what it was, at one of the two; a high_key not below any used key stays so. |
| BlinkStep.SplitHigh | 1129_bltree/bltree.cc:306-323 | If high_key of a full leaf is not below its used keys, the same holds of the left half after a split, and of the right half if and only if the new key was not above high_key. |
| BlinkStep.HighCanLag | 1129_bltree/bltree.cc:306-323 | A last leaf that is split by a key above its high_key leaves a right half whose last key is above its high_key. |
| BlinkStores.ShiftingIsReadable | 1129_bltree/bltree.cc:173-176 | After each store of the shifting loop, child before key and from the highest slot down, the node is still readable, stale slots included. |
| BlinkStores.WithChildIsReadable | 1129_bltree/bltree.cc:177 | So it is when the new child is in and its key is not. |
| BlinkStores.WithKeyIsReadable | 1129_bltree/bltree.cc:178 | So it is when the key is in and nkey is not raised yet, and no published key slot rose. |
| BlinkStores.HalvingIsReadable | 1129_bltree/bltree.cc:113-121 | So it is after each store of the loop that rewrites the left half of a split internal node. |
| BlinkKeep.LeafInsertKeepsTree | 1129_bltree/bltree.cc:24-56 | A key put into the leaf that covers it keeps the whole tree. |
| BlinkKeep.AddSepKeepsTree | 1129_bltree/bltree.cc:261-264 | The pending separator put into a parent with room completes the tree. |
| BlinkSplit.LeafSplitKeepsTree | 1129_bltree/bltree.cc:306-323 | Splitting a full leaf around a new key gives a tree with exactly that split pending. |
| BlinkSplit.GrowthKeepsTree | 1129_bltree/bltree.cc:238-241 | A new root over the halves of the old one completes the tree. |
| BlinkCascade.KidOfOneHalf | 1129_bltree/bltree.cc:113-147 | Every child of a split internal node goes to exactly one half. |
| BlinkCascade.SplitParentKeepsTree | 1129_bltree/bltree.cc:266-282 | Splitting a full parent around the pending separator gives a tree with the split pending one level higher. |
| BlinkMemory.Memory.constructor | 1129_bltree/bltree.cc:330-333 | The first root is an empty leaf, and the history starts safe. |
| BlinkMemory.Memory.SetKey | 1129_bltree/bltree.cc:175-178 | One key store changes that slot of that node only and extends the safe history by one snapshot. It is made under the lock of the node, or before a right link or Root leads there. |
| BlinkMemory.Memory.SetChi | 1129_bltree/bltree.cc:174-177 | The same of one child store. |
| BlinkMemory.Memory.SetNkey | 1129_bltree/bltree.cc:179 | The same of an nkey store. |
| BlinkMemory.Memory.SetRoot | 1129_bltree/bltree.cc:241 | The store to Root keeps the history safe if the new root is complete and starts at the bottom. |
| BlinkMemory.Memory.AllocLeaf | 1129_bltree/lib.cc:51-63 | A new leaf has the fields calloc and alloc_leaf give it; no other node changes. |
| BlinkMemory.Memory.AllocInternal | 1129_bltree/lib.cc:65-78 | A new internal node likewise. |
| BlinkMemory.Memory.AllocRoot | 1129_bltree/lib.cc:80-97 | A new root holds the two children and the separator. |
| BlinkMemory.Memory.Lock | 1129_bltree/lib.cc:19-23 | Locks are taken beyond all held ones in the order of level and lower bound, none twice, at most three. |
| BlinkMemory.Memory.Unlock | 1129_bltree/lib.cc:25-29 | Only a held lock is released; the order of all lock operations is recorded. |
| BlinkNode.FindSlot | 1129_bltree/bltree.cc:169-171 | The comparison loop finds the first used slot above the key. |
| BlinkNode.ShiftLeaf | 1129_bltree/bltree.cc:40-43 | The shifting loop moves keys and pointers above the slot up by one, one safe store at a time. |
| BlinkNode.InsertInLeaf | 1129_bltree/bltree.cc:24-56 | The leaf becomes the old one with the key and its pointer in order, high_key raised if below; every store is safe for descents. |
| BlinkNode.InsertInTemp | 1129_bltree/bltree.cc:58-83 | The TEMP gets the key and its pointer in order. |
| BlinkNode.CopyFromLeftToTemp | 1129_bltree/bltree.cc:149-161 | The TEMP holds the N - 1 keys and N pointers of the node. |
| BlinkNode.FinalizeTemp | 1129_bltree/bltree.cc:182-197 | The TEMP gets the separator in order, the new child to its right. |
| BlinkNode.ShiftParent | 1129_bltree/bltree.cc:173-176 | The shifting loop of finalize_parent, child before key, keeps the history safe store by store. |
| BlinkNode.FinalizeParent | 1129_bltree/bltree.cc:163-180 | The parent becomes the old one with separator and child in; every single store on the way is safe for descents, nkey last. |
| BlinkNode.CopyFromTempToRight | 1129_bltree/bltree.cc:95-111 | The new leaf gets the upper half of the TEMP. |
| BlinkNode.CopyFromTempToLeft | 1129_bltree/bltree.cc:85-93 | The old leaf keeps the lower half, nkey stored first. |
| BlinkCopy.AdoptChildren | 1129_bltree/bltree.cc:144-146 | The loop gives exactly the children of the node their new parent. |
| BlinkCopy.CopyFromTempToRightParent | 1129_bltree/bltree.cc:129-147 | The new internal node gets the upper half with its children's parent fields, hidden from descents until it is complete. |
| BlinkCopy.CopyFromTempToLeftParent | 1129_bltree/bltree.cc:113-127 | The old node keeps the lower half while descents are running in it, store by store. |
| BlinkParent.LinkHalves | 1129_bltree/bltree.cc:278-282 | The right half takes over high key and right link, the left half gets the middle key and the link to the right. |
| BlinkParent.SplitParent | 1129_bltree/bltree.cc:266-282 | The loops and stores together are the split of SplitParentKeepsTree. |
| BlinkTree.FindLeaf | 1129_bltree/bltree.cc:5-22 | Run alone it ends at a leaf that starts below the key, and in a tree with no split pending at the leaf that covers it. |
| BlinkTree.MoveRight | 1129_bltree/bltree.cc:199-229 | Returns the node of the level that covers the key, holding its lock instead of the first one, at most three at a time, each lock taken before the one to its left is released; the disorder check never fires. |
| BlinkTree.RewriteNkey | 1129_bltree/bltree.cc:251-255 | The "subtle change" of nkey changes nothing after a split of even N. |
| BlinkTree.GrowRoot | 1129_bltree/bltree.cc:238-241 | The stores of root growth give the heap of GrowthKeepsTree, each one safe for descents and each one leaving the leaf level in order with the same pairs. |
| BlinkTree.LockParent | 1129_bltree/bltree.cc:257-259 | With exact parent fields, locking and moving right stays at the parent. |
| BlinkTree.CompleteSplit | 1129_bltree/bltree.cc:261-265 | A parent with room: the tree is complete again and stores the same pairs, and after every single store on the way the leaf level is in order and stores them. |
| BlinkTree.PassSplitUp | 1129_bltree/bltree.cc:266-282 | A full parent: the same pairs are stored, after every single store on the way too, and the split is pending one level up. |
| BlinkTree.InsertInParent | 1129_bltree/bltree.cc:231-289 | Through any number of levels, the pending split is completed, all locks are released, and in every snapshot on the way the leaf level is in order and no pair is added or lost. |
| BlinkTree.SplitLeaf | 1129_bltree/bltree.cc:306-323 | The loops and stores of a leaf split give the heap of LeafSplitKeepsTree. |
| BlinkTree.InsertSplit | 1129_bltree/bltree.cc:306-323 | After a leaf split the tree has exactly that split pending and stores exactly one pair more. |
| BlinkTree.InsertFrom | 1129_bltree/bltree.cc:296-328 | The critical section may start from any leaf below the key, however old: it adds exactly the new pair, keeps the tree and returns without locks. |
| BlinkTree.Insert | 1129_bltree/bltree.cc:291-328 | The keys along the chain of leaves become the old ones with the new one in its place; exactly one pair is added; tree, safe history and no locks; from the last snapshot in which a leaf differs from the one before, which lies within the call, every snapshot stores exactly the final pairs. |
| BlinkTree.InsertAfterDescent | 1129_bltree/bltree.cc:296-328 | The same if the descent of the insertion was spread over any earlier part of the history, with any stores of others between its accesses and after it. |
| BlinkTree.InsertAll | 1129_bltree/bltree.cc:340-354 | Any sequence of distinct new keys leaves a tree that holds the old keys and exactly these, each with the data pointer it was given. |
| BlinkTree.SearchCore | 1129_bltree/bltree.cc:356-361 | With no split pending, plain find_leaf and the scan find exactly the stored keys and those that happen to be in the first unused slot of their leaf. |
| BlinkTree.EmptyTree | 1129_bltree/bltree.cc:330-333 | The initial leaf is a tree without keys. |
| BlinkWalk.WalkCovers | 1129_bltree/bltree.cc:199-229 | From any node that starts below the key, right links lead to the node of that level that covers it. |
| BlinkWalk.SeparatorIsHighKey | 1129_bltree/bltree.cc:163-180 | Separator j is the high key of child j, whose right link is child j + 1. |
| BlinkWalk.LastKidEndsAtHighKey | 1129_bltree/bltree.cc:278-282 | The last child ends exactly where its parent ends. |
| BlinkWalk.ChildCovers | 1129_bltree/bltree.cc:10-19 | In a tree with no split pending, the child find_leaf picks covers the key if the node does. |
| BlinkPairs.LeafInsertPairs | 1129_bltree/bltree.cc:24-56 | Over the whole tree, a leaf insertion adds exactly the new pair. |
| BlinkPairs.LeafSplitPairs | 1129_bltree/bltree.cc:306-323 | So does a leaf split. |
| BlinkPairs.GrowthPairs | 1129_bltree/bltree.cc:238-241 | Root growth adds and loses no pair. |
| BlinkPairs.InternalSplitPairs | 1129_bltree/bltree.cc:266-282 | Neither does the split of an internal node. |
| BlinkChain.ChainAscends | 1129_bltree/bltree.cc:278-282 | Along the right links of the leaves the keys strictly ascend. |
| BlinkChain.ChainIsContents | 1129_bltree/bltree.cc:291-328 | The chain from the first leaf holds exactly the stored keys, in order. |
| BlinkChain.LeafKeysAreStored | 1129_bltree/bltree.cc:291-328 | From the root down to the first leaf and along the right links, exactly the stored keys are met, in order. |
| BlinkChain.InsertOnLeaves | 1129_bltree/bltree.cc:291-328 | Any two trees whose contents differ by one new key have leaf chains that differ by that key put in its place. |
| BlinkLeaves.TreeHasLeafLevel | 1129_bltree/bltree.cc:278-282 | In a tree, a split pending or not, the leaves by themselves are in order, exactly linked and disjoint. |
| BlinkLeaves.WalkOnLeaves | 1129_bltree/bltree.cc:199-229 | In a tree, right links lead where they lead on the leaf level alone. |
| BlinkLeaves.WalkFindsStored | 1129_bltree/bltree.cc:199-229 | Whenever the leaf level is in order, whatever the levels above are like, right links from any leaf that starts below a key lead to the leaf that covers it, and that one holds the key and its data pointer if and only if some leaf does. |
| BlinkLeaves.WalkIsUnique | 1129_bltree/bltree.cc:199-229 | All starting points below the key lead to the same leaf. |
| BlinkLeaves.StaysSettled | 1129_bltree/bltree.cc:163-180 | Stores above the leaf level leave it in order and storing the same pairs, after each single one of them. |
| BlinkLeaves.DescentThenWalk | 1129_bltree/bltree.cc:296-298 | A descent interleaved with any stores, followed by move_right in any later snapshot whose leaf level is in order, in the middle of a split above it or not, reaches the leaf that covers the key and holds it if any does. |
| BlinkLeaves.InsertionSettles | 1129_bltree/bltree.cc:306-328 | If the outcome of a call is a tree with exactly one new pair, then a store to a leaf was made within the call, and from the last such store on every snapshot has its leaves in order and stores exactly the final pairs. |
| BlinkLocks.StepKeepsInv | 1129_bltree/bltree.cc:199-328 | Every step of every thread, single link stores of a split included, keeps nodes in lock order: child, then parent level, then right neighbour; a right half not linked yet sits right beside the left one and no other link leads or will lead there; owners are exactly what the threads hold. |
| BlinkWaits.WantsBeyondHeld | 1129_bltree/bltree.cc:216-221 | A thread only waits for a lock beyond, in level and left-to-right place, all locks it holds. |
| BlinkWaits.NoWaitingCycle | 1129_bltree/bltree.cc:231-289 | In no state of any run of any number of threads do threads wait in a circle, wherever splits cut, whatever halves are reached before they are linked, and whatever links are overwritten. |
| BlinkWaits.SomeHolderRuns | 1129_bltree/bltree.cc:231-289 | Whenever some thread is blocked, the holder of some wanted lock is not, and has a next step unless it is about to lock a parent that is NULL. |
| BlinkWaits.LocksOf | 1129_bltree/bltree.h:26 | A thread holds at most three locks at once, and none between insertions. |
| BlinkWaits.GoesRight | 1129_bltree/bltree.cc:207-227 | At every node with a right link, for a key or a pair of halves, a thread in move_right can see the link, go on to it, take its lock while holding the others, and then release the left one; nothing else changes. |
| BlinkCuts.StepKeepsTop | 1129_bltree/bltree.cc:238-241 | Under any interleaving no node is above the root, except on the next level while some thread is replacing the root that it has split. |
| BlinkCuts.LowerBoundsIff | 1129_bltree/bltree.cc:277-282 | For every run: lower bounds ascend from left to right on every level if and only if every split so far cut strictly between the lower bounds of the node and of all nodes to its right. Keys are left out here, so whether the code's cuts do is not decided; for leaves LeafCutsAreInside decides it. |
| BlinkLinks.WholeIff | 1129_bltree/bltree.cc:277-282 | For every run of any number of writers and every level: no right link is ever lost (every link that a split has read is still the one it overwrites, and every linked node but the first of its level stays on some right link) if and only if at every store of line 279 on that level the half had no link yet and, unless NULL is stored, no other writer had read its NULL in order to split it. |
| BlinkLinks.UnsafeStepLoses | 1129_bltree/bltree.cc:279 | From a level without loss, one such store that is not harmless loses a link at once. |
| BlinkLinks.NoEarlyCopyIsWhole | 1129_bltree/bltree.cc:268-282 | A schedule in which nobody reads, to split it, the right link of a half whose line 279 is still to come loses no link on that level. |
| BlinkLinks.LinksAreOrder | 1129_bltree/bltree.cc:277-282 | On a level without loss, with no split between its allocation and line 282, right links are exactly the left-to-right order of the nodes. |
| BlinkLeafLinks.LeafLevelIsWhole | 1129_bltree/bltree.cc:306-323 | In every run whose insertions start at the root or at a node read from a child slot, with any number of writers and whatever is lost above, no right link of the leaf level is ever lost. |
| BlinkRanges.RightIsNext | 1129_bltree/bltree.cc:318-323 | Under any number of writers, no leaf lies between one that nobody is splitting and its right link. |
| BlinkRanges.ArrivedCovers | 1129_bltree/bltree.cc:296-298 | Where move_right stops on the leaf level, whatever the other writers have done, the leaf's range holds the key. |
| BlinkRanges.LeafCutsAreInside | 1129_bltree/bltree.cc:306-323 | In every run of any number of writers with their keys, every split of a leaf cuts strictly between its lower bound and those of all leaves to its right. |
| BlinkRanges.KeysStayInRange | 1129_bltree/bltree.cc:291-328 | In every state of such a run, lower bounds ascend along the leaves, every leaf holds only keys above its own lower bound and not above those of the leaves to its right, and every insertion is at a leaf that starts below its key. |
| BlinkRanges.HoldsIff | 1129_bltree/bltree.cc:291-328 | In every state of such a run the leaves hold exactly the keys that insertions have put in: none is lost to a concurrent split and none appears. |
| BlinkRanges.ArrivedDecides | 1129_bltree/bltree.cc:296-304 | An insertion that has stopped moving right is at the only leaf that can hold its key: any writer has put the key in before if and only if this leaf holds it. |
| BlinkKeyRuns.KeyMovesRight | 1129_bltree/bltree.cc:207-227 | In such a run an insertion above high_key can go on to its right neighbour, once that is free, and then holds it instead; at or below high_key, or without a right link, it stops. |
| BlinkPlay.PlayIsRun | 1129_bltree/bltree.cc:231-328 | The program's runs at fan-out N, with leaves and nodes split exactly when full and cut into the halves of the code, are among the runs of BlinkKeyRuns. |
| BlinkPlay.SplitLeaf | 1129_bltree/bltree.cc:296-326 | In such a run, with nobody in between, an insertion into a full leaf cuts its keys around the middle one, links the halves and keeps the lock of the left one. |
| BlinkPlay.WalkRight | 1129_bltree/bltree.cc:215-221 | In such a run, with high_key below what it looks for, move_right comes to hold the right neighbour instead. |
| BlinkPlay.Close | 1129_bltree/bltree.cc:261-265 | In such a run, a parent with room gets the right child, and both locks are released. |
| BlinkPlay.ShareOut | 1129_bltree/bltree.cc:268-275 | In such a run at fan-out 4, the right half of a full node is allocated, gets its three children, and is stored as their parent. |
| BlinkPlay.KeepAndClose | 1129_bltree/bltree.cc:276-286 | In such a run, the rest of a parent split with nobody in between: the left half keeps its part, line 279 and line 282 link the halves, and the child below is unlocked. |
| BlinkPlay.GrowTree | 1129_bltree/bltree.cc:238-248 | In such a run, the halves of the root get a new root above them, with both parent fields, and the lock is released. |
| BlinkSizes.OneLeafIsFound | 1129_bltree/bltree.cc:5-22 | find_leaf leads to one leaf only. |
| BlinkSizes.OneCut | 1129_bltree/bltree.cc:85-104 | A full leaf and its new key are cut in one way only. |
| BlinkSizes.PlayKeepsSizes | 1129_bltree/bltree.cc:261-307 | In every state of every run of the program at fan-out N, with any number of writers: no leaf holds more than N - 1 keys, no node above has more than N children, and of several leaves each holds at least N / 2 keys. |
| BlinkWindow.LinkIsLost | 1129_bltree/bltree.cc:144-282 | A run of the program at fan-out 4, from the empty tree to both threads idle, over 18 insertions: node 13, split off the half 10 by thread 1 while thread 0 is between lines 275 and 278, is on no right link, since line 279 has set that of node 10 back to NULL. |
| BlinkPassing.ThreeLocksAreHeld | 1129_bltree/bltree.cc:257-264 | A run of the program at fan-out 4, from the empty tree, in which a writer has read a parent that another one splits before it gets the lock: moving right there it holds three locks at once. |
| BlinkPassing.Joins | 1129_bltree/bltree.cc:257-264 | From there it goes on until the new node is a child of the right one of the two parents, all locks released. |
| KrModel.UntouchedKept | 1108_occ/kr.cc:104-109 | Storing a write set leaves every row outside it alone. |
| KrModel.RowsInPlace | 1108_occ/kr.cc:73-91 | A READ operation with c READs before it has its row at place c of the read rows, and there are no more of them than READs; likewise for WRITEs. |
| KrModel.LastStoreWins | 1108_occ/kr.cc:104-109 | A row of the write set ends with the value of its last entry. |
| KrModel.Find | 1108_occ/kr.cc:33-38 | The start point is the first record with id tx_begin + 1, or the end of the list. |
| KrModel.Validation | 1108_occ/kr.cc:25-51 | True exactly if no record from the start point on writes a row that was read. |
| KrModel.PrunedIsSuffix | 1108_occ/kr.cc:126-130 | Garbage collection drops a prefix of records, all below the minimum up to the first that is not. |
| KrModel.DroppedAreBelow | 1108_occ/kr.cc:126-130 | Every record dropped is below the minimum. |
| KrModel.MinWaterMark | 1108_occ/kr.cc:121-124 | The scan finds the smallest water mark. |
| KrModel.Collect | 1108_occ/kr.cc:126-130 | The erase loop, which has no end test, stops on the list when the last record is not below the minimum. |
| KrTransaction.Shared.ReadPhase | 1108_occ/kr.cc:73-81 | Undisturbed, every READ operation, with c READs before it, has its row and the value of that row as entry c, and there are no other entries. |
| KrTransaction.Shared.Modify | 1108_occ/kr.cc:83-91 | Every WRITE operation, with c WRITEs before it, has its row and its value, a function of the values read, as entry c, and there are no other entries. |
| KrTransaction.Shared.WritePhase | 1108_occ/kr.cc:104-109 | Every row of the write set ends with the value of its last entry, and every other row keeps its value. |
| KrTransaction.Shared.Register | 1108_occ/kr.cc:111-130 | One id more, the record pushed, the mark published, and the list pruned at the smallest mark. |
| KrTransaction.Shared.ValidateAndWrite | 1108_occ/kr.cc:93-133 | Commits exactly if the read set passes validation: write set applied, one id more, mark published, record pushed and list pruned; otherwise nothing changes. |
| KrTransaction.Shared.Transaction | 1108_occ/kr.cc:53-134 | Undisturbed, a transaction commits at its first attempt and is its serial execution. |
| KrSolo.CriticalSection | 1108_occ/kr.cc:93-133 | The worker's steps from validation to unlock leave exactly the state that the text leaves, for a commit and for a failure. |
| KrSolo.WholeTransaction | 1108_occ/kr.cc:64-134 | From any reachable state with the lock free, the steps of a worker that runs alone from the start of a transaction commit it at once and leave exactly the state that the text leaves, water mark and pruned list included. |
| KrSerial.CleanReads | 1108_occ/kr.cc:73-81 | An unlocked read of a row that nobody has written or is writing since tx_begin returns its value after commit tx_begin in the serial replay, also in the middle of someone's write phase. |
| KrInvariant.ValidReadsAreCurrent | 1108_occ/kr.cc:94-102 | Reads that pass validation are what a serial execution reads at the commit. |
| KrInvariant.PrunedListDecides | 1108_occ/kr.cc:25-51 | If the list reaches back to tx_begin, validating it says exactly whether a commit after tx_begin wrote a row that was read. |
| KrInvariant.StepKeepsInv | 1108_occ/kr.cc:53-134 | Every step of every worker keeps the invariant of the whole system. |
| KrInvariant.ReachedIsInv | 1108_occ/kr.cc:136-145 | It holds in every state any schedule leads to. |
| KrSerial.Serializable | 1108_occ/kr.cc:53-134 | In every reachable state, replaying the committed transactions in tx_id order gives what each of them read and wrote, and the rows themselves when no write phase is under way. |
| KrSerial.CommitsInProgramOrder | 1108_occ/kr.cc:136-145 | Each worker's transactions are committed once each, in its own order. |
| KrSerial.SnapshotReads | 1108_occ/kr.cc:66-109 | What an attempt that passes validation has read is what a serial execution reads after commit tx_begin and after every later one up to tx_end. |
| KrHistory.RowsHoldLastWrites | 1108_occ/kr.cc:104-109 | With nobody storing, every row holds the last value that the last commit to write it has given it, or its first value if none has. |
| KrHistory.CommitsReadLastWrites | 1108_occ/kr.cc:73-109 | Commit n has, for each of its READs in order, the row and the value that the last write before commit n left there, and for each WRITE in order the row and its value. |
| KrHistory.MarkIsBegin | 1108_occ/kr.cc:66-71 | Once an attempt has published its water mark, and until it commits or fails, that mark is its tx_begin. |
| KrSerial.HistoryIsKept | 1108_occ/kr.cc:111-130 | For an attempt that has read tx_begin, the list holds the record of every later id, except one whose push is still to come, and that one it does not. |
| KrSerial.VerdictIsExact | 1108_occ/kr.cc:94-102 | In every reachable state, validating the pruned list gives the verdict of validating all commits since tx_begin. |
| KrSerial.DoneIsARun | 1108_occ/kr.cc:111-130 | With the lock free, the list is a contiguous ascending run of ids that ends at Tx_id, each with the write set of its commit. |
| KrSerial.CollectStopsOnTheList | 1108_occ/kr.cc:126-130 | When a worker reaches the erase loop the last record is not below the minimum, something is left, and the minimum is not above any running attempt's tx_begin. |
| KrRetries.FailureHasACause | 1108_occ/kr.cc:94-102 | A failed validation is due to another worker's commit after tx_begin of a row that was read, and tx_begin is not before tx_end of the worker's last failure. |
| KrRetries.AbortsAreBounded | 1108_occ/kr.cc:64-102 | A worker's failures are never more than the others' commits, so at most (Nthread - 1) * MAX_TRANSACTION. |
| KrRetries.RunsEnd | 1108_occ/kr.cc:136-145 | Every schedule is finite: an explicit bound in workers, transactions and operations. |
| KrRetries.StuckMeansDone | 1108_occ/kr.cc:136-145 | A state in which no worker can move has every transaction of every worker committed, and its rows are those of running them one at a time. |
| KrRetries.HolderCanRun | 1108_occ/kr.cc:93-133 | Whoever holds the lock has a next step. |
| BpShape.CoverIsUnique | 1025/bptree.cc:96-107 | On one level exactly one node covers a key. |
| BpShape.KeyIsInItsLeaf | 1025/bptree.cc:396-402 | A key is in the tree if and only if it is in the leaf that covers it. |
| BpShape.SlotCovers | 1025/bptree.cc:96-107 | The child a search picks covers the key. |
| BpShape.SeparatorFits | 1025/bptree.cc:338-353 | The pending separator lies strictly between the separators around the left child. |
| BpShape.PlacementsAgree | 1025/bptree.cc:165-282 | The first pointer to the left child is at slot i if and only if placing the separator by key gives slot i. |
| BpShape.RightIsUnheld | 1025/bptree.cc:338-353 | No internal node points to the new right half before its separator is in. |
| BpStep.AddKeyAscends | 1025/bptree.cc:109-135 | A new key goes in so that keys stay strictly ascending. |
| BpStep.AddKeyKeys | 1025/bptree.cc:109-135 | The keys afterwards are the old ones and the new one. |
| BpStep.InsertKeepsTree | 1025/bptree.cc:369-371 | A key put into the leaf that covers it keeps the whole tree. |
| BpSplit.LeafSplitKeepsTree | 1025/bptree.cc:372-386 | Splitting a full leaf around a new key gives a tree with exactly that split pending. |
| BpSplit.AddSepKids | 1025/bptree.cc:259-282 | With the separator in, the range of every child lies exactly between its two separators. |
| BpSplit.AddSepKeepsTree | 1025/bptree.cc:339-341 | The pending separator put into a parent with room completes the tree. |
| BpSplit.GrowthKeepsTree | 1025/bptree.cc:333-337 | A new root over both halves completes the tree. |
| BpCascade.HalvesShare | 1025/bptree.cc:216-246 | The two halves of a split internal node share out its children; none is in both. |
| BpCascade.ParentSplitKeepsTree | 1025/bptree.cc:342-353 | Splitting a full parent, the middle key moving up and the right children getting their new parent, gives a tree with the split pending one level higher. |
| BpKeys.InsertKeys | 1025/bptree.cc:109-135 | Over the whole tree, a leaf insertion adds exactly the key. |
| BpKeys.LeafSplitKeys | 1025/bptree.cc:372-386 | So does a leaf split. |
| BpKeys.WalkAscends | 1025/bptree.cc:35-46 | The keys met by an in-order walk strictly ascend and stay in the node's range. |
| BpKeys.WalkIsContents | 1025/bptree.cc:35-46 | The walk from a node meets a key if and only if the tree holds it and the node covers it. |
| BpKeys.InsertOnWalk | 1025/bptree.cc:356-388 | Two trees whose contents differ by one new key have in-order walks that differ by that key put in its place. |
| BpNode.FindSlot | 1025/bptree.cc:102-104 | The comparison loop finds the first used slot above the key. |
| BpNode.ShiftUp | 1025/bptree.cc:275-276 | The shifting loop. |
| BpNode.InsertInLeaf | 1025/bptree.cc:109-135 | The leaf becomes the old one with the key in order, in both branches. |
| BpNode.InsertInTemp | 1025/bptree.cc:165-183 | Key and pointer go in by key, the pointer one slot to the right. |
| BpNode.EraseEntries | 1025/bptree.cc:186-192 | All slots are cleared and nkey is 0. |
| BpNode.CopyFromLeftToTemp | 1025/bptree.cc:248-257 | The TEMP holds the N - 1 keys and N pointers of the node. |
| BpNode.CopyFromTempToLeft | 1025/bptree.cc:195-203 | The left leaf gets the lower half. |
| BpNode.CopyFromTempToRight | 1025/bptree.cc:205-214 | The right leaf gets the upper half. |
| BpNode.CopyFromTempToLeftParent | 1025/bptree.cc:216-227 | The left internal node gets N/2 keys and one pointer more. |
| BpNode.CopyFromTempToRightParent | 1025/bptree.cc:229-239 | The right internal node gets what is beyond the middle key. |
| BpNode.InsertAfterLeftChild | 1025/bptree.cc:259-282 | The separator goes in at the first pointer to the left child, the new child right after it. |
| BpTree.BPlusTree.FindLeaf | 1025/bptree.cc:96-107 | Ends at the leaf that covers the key. |
| BpTree.BPlusTree.SearchCore | 1025/bptree.cc:396-402 | Found are exactly the keys of the tree and those that happen to be in the first unused slot of their leaf. |
| BpTree.BPlusTree.AdoptChildren | 1025/bptree.cc:241-245 | Exactly the children of the right half get it as their parent. |
| BpTree.BPlusTree.SplitParent | 1025/bptree.cc:342-351 | A full parent: no key is lost and the split is pending one level up. |
| BpTree.BPlusTree.GrowRoot | 1025/bptree.cc:333-337 | The stores of root growth complete the tree. |
| BpTree.BPlusTree.AddToParent | 1025/bptree.cc:339-341 | A parent with room: the tree is complete. |
| BpTree.BPlusTree.InsertInParent | 1025/bptree.cc:327-354 | Through any number of levels the pending split is completed and no key is added or lost. |
| BpTree.BPlusTree.SplitLeaf | 1025/bptree.cc:372-385 | After a leaf split exactly the new key is added and the split is pending with the right half's smallest key as separator. |
| BpTree.BPlusTree.StartLeaf | 1025/bptree.cc:361-367 | The leaf for a new key, the first leaf of an empty tree included. |
| BpTree.BPlusTree.Insert | 1025/bptree.cc:356-388 | The whole tree is kept (separators bound subtrees, parents exact, leaves at one depth, occupancy), and its in-order keys are the old ones with the new one in its place. |
| BpTree.BPlusTree.InsertAll | 1025/bptree.cc:426-432 | Any sequence of distinct keys gives a tree that holds exactly these, in order. |
| OpenAddress.PathIsProgression | ass_1/open_addr.c:24-28 | The wrap keeps the probes on the arithmetic progression by 7 modulo 10000, in 1..10000. |
| OpenAddress.EverySlotIsTried | ass_1/open_addr.c:24-28 | From any start, every slot of 1..10000 is tried within 10000 steps. |
| OpenAddress.EndsIff | ass_1/open_addr.c:14-30 | Probing ends if and only if the first choice or some slot of 1..10000 is free, and then within 10000 steps. |
| OpenAddress.StoreInFree | ass_1/open_addr.c:19-22 | Filling a free slot adds exactly the value to the nonzero entries. |
| OpenAddress.SecondChoice | ass_1/open_addr.c:14-30 | Of two values with the same remainder, with both slots free before, the second one lands 7 slots further on, as 10001 lands in slot 8 after 1 in slot 1. |
| OpenAddress.StillFindable | ass_1/open_addr.c:19-28 | An insertion leaves no free slot before any stored value on its probe path. |
| OpenAddress.SomePlaceIsFree | ass_1/open_addr.c:50-55 | With fewer than 10000 values stored, probing ends at the first free slot of its path. |
| OpenAddress.Table.OpenAddr | ass_1/open_addr.c:14-30 | The value lands at the first free slot of its path and flag is set; with flag set nothing changes. |
| OpenAddress.Table.InsertAll | ass_1/open_addr.c:48-55 | Up to 10000 values are put in one after the other, each at the first free slot of its path from value % 10000; then the nonzero entries are exactly the values, with multiplicity, and each can be found again by probing. |
| SiloTid.FieldsOfObj | 1115_silo/concurrency.h:23-34 | Unpacking a packed word gives its fields back. |
| SiloTid.FieldsInPlace | 1115_silo/concurrency.h:23-34 | In a packed word lock is bit 0, latest bit 1 and absent bit 2, then come 29 bits of tid and 32 bits of epoch. |
| SiloTid.ObjFits | 1115_silo/concurrency.h:23-34 | A packed word is below 2^64. |
| SiloTid.ObjOfFields | 1115_silo/concurrency.h:23-34 | Packing the fields of any 64-bit integer gives it back. |
| SiloTid.OrderIsLexicographic | 1115_silo/concurrency.h:40-50 | Comparing packed words is lexicographic on epoch, tid and flags, and equality is equality of all fields. |
| SiloTid.MaxComparesPacked | 1115_silo/concurrency.h:48-50 | The maximum taken on the fields is the one of the packed comparison. |
| SiloTid.MaxOfIsUpperBound | 1115_silo/silo.cc:94-95 | The maximum of the list is in it and not below any of its words. |
| SiloTid.Candidates | 1115_silo/silo.cc:78-98 | The commit word is the largest of the three candidates, unlocked and marked latest. |
| SiloTid.CommitIsAboveIff | 1115_silo/silo.cc:81-95 | The commit is above (epoch, tid) of the largest validated word if and only if its tid is not the last of 29 bits or the worker's epoch is newer. |
| SiloTid.CommitCanWrap | 1115_silo/silo.cc:83-84 | At the last tid the commit word is below what was read, for every epoch. |
| SiloTid.CommitIsInEpoch | 1115_silo/silo.cc:91-98 | The commit's epoch is the later of the worker's published one and that of the reads. |
| SiloTid.CommitGrows | 1115_silo/silo.cc:78-98 | With larger reads and a later epoch the commit word does not decrease. |
| SiloTid.AboveIff | 1115_silo/silo.cc:73-98 | A commit is above a given word, such as that of a row it writes, if and only if the largest word read, incremented, passes it, the worker's epoch is newer, or the word is a row's first. |
| SiloTid.BlindWriteCanFall | 1115_silo/silo.cc:71-84 | In every epoch, a transaction that reads nothing can store a word below the one of the row it writes. |
| SiloTid.NewerIff | 1115_silo/silo.cc:73-89 | A commit is strictly above the worker's previous one if and only if the largest word read, incremented, passes that one, at the 29-bit maximum too, or the epoch is newer. |
| SiloTid.CommitCanRepeat | 1115_silo/silo.cc:79-89 | A worker whose max_rset has not fallen since its last commit, but still lies below that commit's word, commits again with the same (epoch, tid) if it publishes the same epoch. |
| SiloWorker.Validate | 1115_silo/silo.cc:255-279 | Valid exactly if for every entry epoch and tid of the copied word are those loaded again and the copied word is unlocked or locked by the worker itself; max_rset is the maximum over the entries before the first that fails. |
| SiloWorker.HighestCovers | 1115_silo/silo.cc:278 | That maximum is one of the words it covers or the max_rset it started from, and not below any of them. |
| SiloWorker.Run | 1115_silo/silo.cc:193-286 | Exactly the attempts that pass validation commit, each with the commit word of the max_rset accumulated over all attempts so far, failed ones included. |
| SiloWorker.CommitFollowsReads | 1115_silo/silo.cc:257-282 | While no tid is at the maximum, a commit is above (epoch, tid) of everything its transaction read, as copied and as checked, and not below the worker's epoch. |
| SiloWorker.CommitsNeverFall | 1115_silo/silo.cc:193-286 | The packed commit words of a worker never decrease, in any run of the epoch protocol under which its attempts are made. |
| SiloEpoch.StepKeepsInv | 1115_silo/silo.cc:123-172 | Every atomic access of the epoch thread or a worker keeps the invariant, loads and stores that straddle an increment included. |
| SiloEpoch.EpochLag | 1115_silo/silo.cc:250-253 | In every state of a run, for any number of workers, each published epoch is the global one or one less, and so is one loaded but not yet stored. |
| SiloEpoch.StragglerHoldsEpoch | 1115_silo/silo.cc:123-172 | While a worker does not move, the global epoch stays within one of what it had published, whatever the others do. |
| SiloEpoch.PublishedNeverFalls | 1115_silo/silo.cc:252 | Over every run, what a worker has published later is not below what it had published earlier. |
| SiloEpoch.PublishesWhatItLoaded | 1115_silo/silo.cc:250-253 | A worker's load and its next store, whatever others do in between, publish the global epoch as it was at the load. |
| SiloEpoch.CheckAlone | 1115_silo/silo.cc:123-172 | With nobody in between, the check of the epoch thread passes exactly if all workers have published the global epoch, and then the global epoch is one more after THREAD_NUM + 3 steps. |
| SiloEpoch.EpochGoesOn | 1115_silo/silo.cc:123-172 | Under any interleaving: if every worker makes three moves, and after that the epoch thread THREAD_NUM + 3, with any moves of anybody in between, the global epoch has risen. |
| SiloEpoch.AddSucceeds | 1115_silo/silo.cc:37-47 | With one epoch thread the compare-exchange never fails, and advances from a state where all workers had published the epoch. |
| SiloEpoch.Epochs.ChkEpochLoaded | 1115_silo/silo.cc:123-133 | True exactly if workers 1 to THREAD_NUM - 1 have published the global epoch, the condition of the protocol. |
| SiloEpoch.Epochs.AtomicAddGE | 1115_silo/silo.cc:37-47 | Run alone, adds exactly one. |

## Left out

- BlinkTree.SearchCore: in a full leaf the scan of a key that is not stored goes on to the word behind key[]; the model answers "not found" there.
- BpTree.BPlusTree.SearchCore: the same.
- SiloTid.CommitIsAboveIff: stated for epochs below 2^32, the width of the field.
- Tree shape above the leaves under interleaved writers: a right link can be lost there (`BlinkWindow.LinkIsLost`), and move_right no longer reaches the node, so in `BlinkTree` the critical sections of writers are serialised against each other; any number of descents run between their single stores. The lock order, the absence of deadlock and the number of locks (`BlinkLocks`, `BlinkWaits`) and the keys in the leaves (`BlinkRanges`) hold for any number of writers.
- BlinkRanges.KeysStayInRange: a leaf is filled, or cut with its TEMP, in one step under its lock, and an insertion is taken to enter at a leaf that starts below its key; `BlinkReader.DescentEndsBelowKey` proves that of a descent beside one writer at a time.
- BlinkCuts.LowerBoundsIff: whether the cuts above the leaves lie inside is left open.
- In `BlinkPlay`, find_leaf is one step, and so is each loop over the child slots of a half.
- Parent fields are stored without the lock of the node they belong to (lines 124-146 and 240), so `Memory.SetParent` does not ask for it.
- NULL pointers under interleaved writers: move_right reads right_link twice (lines 208 and 215), and line 279 of another writer can store NULL in between; and the right half of an old root has a NULL parent until line 240. In `BlinkLocks` a thread then does not go right, or stays where it is.
- Between the stores of a leaf split (lines 315-323), which take keys out of a leaf before the right half is linked, the leaf level is not in order; `BlinkLeaves` says nothing of these snapshots.
- BpNode.InsertInLeaf: the data pointers it shifts along with the keys are not modelled, as for all of `1025`.
- Weak memory: stores are taken in program order and seen by all readers in that order.
- The lock protocol (`BlinkLocks`) leaves keys out: where move_right stops, what is full and where a split cuts is open there. `BlinkKeyRuns` fixes it on the leaf level, `BlinkPlay` on all levels.
- Duplicate keys in either tree: equal separators would be placed by key after all equal ones.
- Odd N: the nkey rewrites at `1129_bltree/bltree.cc:243-255` agree with the split sizes only for even N.
- Data pointers and leaf sibling links of `1025/bptree.cc`: the split stores data one slot off its key, and the link set at line 381 is erased at line 382 (the model stores and erases it).
- The allocation of a B-link node and the initialisation of its fields are one step: nobody else can see the node yet.
- Serializability and row locks of Silo: validation tests the copied lock bit, `max_wset` is never assigned, and a write-set key may be stored again after its unlocking store.
- `1101_s2pl`, `1115_silo/tmp`, `1115_latch`, `ass_1/binary_search.c` and the earlier B+ tree drafts in `1011_bptree` and `1018-bptree-leaf_split`: incomplete or easier versions of what is here.
- Printing, timing, data files, random generation, thread creation, CPU affinity, `calloc` failure and error exits.
- Wrap-around of `Tx_id` and of the 64-bit global epoch.
