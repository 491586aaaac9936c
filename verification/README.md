# Verified models of Bitcoin Core components

This project models the parts of the C++ sources under `bitcoin/src` whose guarantees are
hardest to see from the code, and proves those guarantees with Dafny 4.11.
`dafny verify dfyconfig.toml` checks everything.

- **Cluster linearization** (`cluster_linearize.h`, `util/feefrac.*`). Dependency graphs with
  stored ancestor and descendant sets (`DepGraph`), chunking (`Chunking`), the branch-and-bound
  search for the best ancestor-closed set (`Search`, `Finders`), `Linearize`, `PostLinearize` on
  its linked lists (`PostSpec`, `PostGuarantees`, `PostTrees`, `PostLeaf`, `PostLinearize`) and
  `MergeLinearizations` (`Merge`). "At least as good" is stated as `Dominates`: at every slope p/q
  the best prefix has at least the weight `q * fee - p * size` of the other's best prefix.
  `Heights` proves that this is the order of feerate diagrams as curves over real sizes, and
  `Compare` that `CompareChunks` computes that order.
- **Address manager** (`addrman.cpp`). All indexes and counters stay in step under every run
  (`AddrTables`, `AddrMan`); the consistency check accepts exactly the stated conditions
  (`AddrCheck`); saving and loading gives back the tables, and loading any file fails or gives
  tables in step, with an exact account of which (`AddrFile`, `AddrLoad`, `AddrLoaded`,
  `AddrRoundTrip`).
- **Coin caches** (`coins.cpp`). A stack of write-back caches with dirty and fresh flags answers
  like plain maps (`Coins`).
- **Script check queue** (`checkqueue.h`). A state machine whose steps are the critical sections
  and the running of batches, under every interleaving and with spurious wake-ups (`CheckQueue`).
- **Big integers and the block tree** (`arith_uint256.*`, `chain.*`). Limb arithmetic of any
  width, compact targets, proof of work, skip lists (`Numbers`, `Limbs`, `Shifts`, `ArithUint`,
  `Compact`, `Chain`).
- **Text codecs** (`base58.cpp`, `bech32.cpp`). Round trips, buffer bounds, and the checksum as a
  remainder of polynomials over GF(32) (`Base58Sizes`, `Base58`, `Bech32Code`, `Bech32Division`,
  `Bech32`).

Conventions. Random choices are left open, so that results hold for all of them. Clocks are
parameters. Hashes and network groups are arbitrary functions of the address. Where definitions
would flood the solver they are guarded by the predicate `Unfold` of `Common`: mentioning
`Unfold(true)` opens them.

Findings. `CheckMisses` gives tables that `CheckAddrman` accepts although a network counter is
missing, and `CheckedInStep` the exact condition under which it does not. `ResolveOne` shows that
the branch of `ResolveCollisions_` for an empty tried slot cannot be taken. `WithCoinOk` and
`AddCoin` give the exact condition under which a coin may be added as fresh, and `MisappliedFresh`
what happens otherwise. `AcceptedIffClean` shows that a file is refused already when an entry that is
kept shares its address with one that is dropped, since dropping it erases the address.

## Model

| member | source | states |
|---|---|---|
| `BitSets.First` | bitcoin/src/util/bitset.h:187-191 | the least member of a non-empty set |
| `BitSets.Last` | bitcoin/src/util/bitset.h:193-197 | the greatest member of a non-empty set |
| `BitSets.Fill` | bitcoin/src/util/bitset.h:143-149 | the set of the first `n` positions |
| `DepGraphs.Graph.FeeRate` | bitcoin/src/cluster_linearize.h:246-251 | the loop adds up fee and size of exactly the members of the set |
| `DepGraphs.Graph.GetReducedParents` | bitcoin/src/cluster_linearize.h:208-219 | the result lies among the proper ancestors; in an acyclic graph it generates all of them and no member is an ancestor of another |
| `DepGraphs.Graph.ReducedParentsLeast` | bitcoin/src/cluster_linearize.h:208-219 | such a set is contained in every set that generates the ancestors: the reduced parents are the least one |
| `DepGraphs.Graph.FindConnectedComponent` | bitcoin/src/cluster_linearize.h:265-280 | the result is closed under ancestors and descendants within `todo`, holds the first member, and is contained in every other such set |
| `DepGraphs.Graph.AppendTopo` | bitcoin/src/cluster_linearize.h:301-311 | the list grows by an order of exactly the selected transactions, topological if the graph is acyclic |
| `DepGraphs.AddDepsPairs` | bitcoin/src/cluster_linearize.h:177-198 | after adding dependencies, a is an ancestor of d if and only if it was, or child was an ancestor of d and a an ancestor of some new parent |
| `DepGraphs.AddDepsValid` | bitcoin/src/cluster_linearize.h:177-198 | ancestor and descendant sets stay converse, reflexive and transitive, and feerates stay as they were |
| `DepGraphs.AddDepsLeast` | bitcoin/src/cluster_linearize.h:177-198 | every closed graph that contains the old one and the new dependencies contains the result: exactly the new closure pairs are added |
| `DepGraphs.RemoveTxsKeeps` | bitcoin/src/cluster_linearize.h:157-171 | after removing transactions the graph is valid, and the others keep their feerates and their ancestors apart from the removed ones |
| `DepGraphs.RemapStep` | bitcoin/src/cluster_linearize.h:89-111 | adding the mapped reduced parents of one more transaction keeps the copy within the graph and covers that transaction |
| `DepGraphs.RemapLower` | bitcoin/src/cluster_linearize.h:89-111 | once all reduced parents are linked, every ancestor of the original is one in the copy |
| `DepGraphs.RemapUpper` | bitcoin/src/cluster_linearize.h:89-111 | no ancestor appears in the copy that is none in the original |
| `DepGraphs.DepGraph.FromMapping` | bitcoin/src/cluster_linearize.h:89-111 | the remapping constructor yields a valid graph isomorphic to the original under the mapping |
| `DepGraphs.DepGraph.AddTransaction` | bitcoin/src/cluster_linearize.h:133-146 | the lowest free position gets a transaction that has only itself as ancestor and descendant; everything else stays |
| `DepGraphs.DepGraph.RemoveTransactions` | bitcoin/src/cluster_linearize.h:157-171 | the in-place loops compute the graph without the removed transactions, which is valid |
| `DepGraphs.DepGraph.AddDependencies` | bitcoin/src/cluster_linearize.h:177-198 | the in-place loops compute the graph with the new closure, which is valid |
| `Diagram.ChunkBest` | bitcoin/src/cluster_linearize.h:374-389 | at every slope, inside a chunk nothing beats stopping before it or after it |
| `Diagram.DominatesTransitive` | bitcoin/src/cluster_linearize.h:1010-1012 | being at least as good at every slope is transitive |
| `Heights.DominatesIsDiagram` | bitcoin/src/util/feefrac.h:149-158 | for two orders of the same transactions, being at least as good at every slope is the same as the feerate diagram being nowhere below the other, at every real size |
| `Heights.SupportAbove` | bitcoin/src/util/feefrac.h:149-158 | no point of a diagram lies further above a line than its highest corner |
| `Heights.SlopeAt` | bitcoin/src/util/feefrac.h:149-158 | a point of a diagram with non-increasing feerates is the highest one at the slope of its own segment |
| `Compare.CompareCorner` | bitcoin/src/util/feefrac.cpp:39-61 | the cross product of the two slopes has the sign of the height difference at the next corner, also after the other diagram has ended |
| `Compare.NothingBetween` | bitcoin/src/util/feefrac.cpp:29-67 | without corners in between, a diagram that is not above another at both ends is not above it in between |
| `Compare.CompareChunks` | bitcoin/src/util/feefrac.cpp:10-73 | the sweep over the corners returns the order of the two diagrams as curves: greater, less, equivalent, or unordered when each is above the other somewhere |
| `Compare.CompareLinearizations` | bitcoin/src/util/feefrac.cpp:10-73 | comparing the chunk feerates of two linearizations decides which of them dominates the other, in both directions |
| `Improve.MoveFront` | bitcoin/src/cluster_linearize.h:1302-1337 | moving a set to the front whose parts beyond every chunk prefix have at least a bound that no chunk exceeds gives a linearization at least as good at every slope |
| `Chunking.ChunkLinearization` | bitcoin/src/cluster_linearize.h:374-389 | the result lists the feerates of a division into chunks: each proper prefix of a chunk has a lower feerate than the chunk, and feerates do not increase |
| `Chunking.ChunkingUnique` | bitcoin/src/cluster_linearize.h:374-389 | a linearization has only one such division |
| `Chunking.FirstChunkBest` | bitcoin/src/cluster_linearize.h:374-389 | no prefix of a linearization has a higher feerate than its first chunk |
| `Chunking.TailsOfShortest` | bitcoin/src/cluster_linearize.h:492-516 | for the shortest intersection with a chunk prefix that is not worse than the set, what lies beyond any chunk prefix is at least as good as the set |
| `Chunking.LinearizationChunking.constructor` | bitcoin/src/cluster_linearize.h:440-448 | all transactions are left, in the given order, with their chunking |
| `Chunking.LinearizationChunking.BuildChunks` | bitcoin/src/cluster_linearize.h:411-436 | the chunks are those of the transactions that are left, in order |
| `Chunking.LinearizationChunking.MarkDone` | bitcoin/src/cluster_linearize.h:461-481 | the remaining order drops exactly the subset, also when only the first chunk is skipped; chunks are left exactly if transactions are |
| `Chunking.LinearizationChunking.IntersectPrefixes` | bitcoin/src/cluster_linearize.h:492-516 | the result is the intersection of the set with the shortest prefix of chunks for which that intersection is non-empty and not worse than the set, or the set itself |
| `Merging.MergeLinearizations` | bitcoin/src/cluster_linearize.h:1302-1337 | for any two linearizations of one graph the loop ends with a linearization that dominates both |
| `Search.ShrinkImp` | bitcoin/src/cluster_linearize.h:782-788 | resetting from the end leaves exactly the transactions with a higher feerate than `best` |
| `Search.JumpAhead` | bitcoin/src/cluster_linearize.h:815-832 | the included set grows by every ancestor set that lies within the potential set, stays ancestor-closed and stays within it |
| `Search.AddItem` | bitcoin/src/cluster_linearize.h:797-867 | every candidate of the new item is not better than the best set, or covered by a queued item |
| `Search.Prune` | bitcoin/src/cluster_linearize.h:872-894 | a pruned item has no candidate with a higher feerate than the best set |
| `Search.SplitOn` | bitcoin/src/cluster_linearize.h:896-944 | the two items with and without the split transaction cover all candidates of the item |
| `Search.ComponentsCover` | bitcoin/src/cluster_linearize.h:762-777 | every ancestor-closed set is covered by the connected components, or beaten by its part in one of them |
| `Search.SplitDecides` | bitcoin/src/cluster_linearize.h:896-944 | replacing a work item by its two branches leaves at least one choice less undecided |
| `Search.FindCandidate` | bitcoin/src/cluster_linearize.h:717-986 | the result is a non-empty ancestor-closed subset, not worse than a given one; what may still be better lies in the work items left open, and these leave fewer than 2^n choices among n transactions undecided, one less for every step; so every run takes fewer than 2^n steps, and with fewer than `maxIterations` steps, as with a budget of 2^n, no non-empty ancestor-closed subset has a higher feerate |
| `Finders.AncestorCandidateFinder.constructor` | bitcoin/src/cluster_linearize.h:543-567 | the precomputed values are the feerates of all ancestor sets |
| `Finders.AncestorCandidateFinder.MarkDone` | bitcoin/src/cluster_linearize.h:575-586 | the values follow the removal: they are the feerates of the ancestor sets within what is left |
| `Finders.AncestorCandidateFinder.FindCandidateSet` | bitcoin/src/cluster_linearize.h:605-618 | the result is the ancestor set of some transaction, within what is left, that no other ancestor set beats |
| `Finders.OptimalBack` | bitcoin/src/cluster_linearize.h:982-985 | a set that is optimal in the sorted graph is optimal in the original |
| `Finders.SearchCandidateFinder.constructor` | bitcoin/src/cluster_linearize.h:669-692 | the sorted copy is isomorphic to the graph and everything is left |
| `Finders.SearchCandidateFinder.FindCandidateSet` | bitcoin/src/cluster_linearize.h:717-986 | the same guarantees in terms of the original positions, the bound of 2^n steps included |
| `Finders.SearchCandidateFinder.MarkDone` | bitcoin/src/cluster_linearize.h:992-998 | what is left shrinks by exactly the given transactions |
| `Linearizing.OptimalFront` | bitcoin/src/cluster_linearize.h:1019-1094 | putting an optimal ancestor-closed set first does not worsen any topological order of the rest |
| `Linearizing.Linearize` | bitcoin/src/cluster_linearize.h:1019-1094 | for every acyclic graph, budget and search order: the result is a linearization, it dominates the given old linearization, and when the flag is set it dominates every linearization of the graph; the start cost, the cost of each round and the halving of what is left are as recorded, all steps together stay within the budget, the flag is set if and only if every search ended before its share did, and a budget of `Enough` iterations sets it |
| `Linearizing.EnoughForAll` | bitcoin/src/cluster_linearize.h:1036-1075 | with `Need(n)` iterations for n transactions every round's share covers its search and leaves `Need` for the rest, whatever the rounds take |
| `PostSpec.SwapImproves` | bitcoin/src/cluster_linearize.h:1113-1295 | swapping two adjacent independent groups with the higher feerate second keeps the order valid and does not worsen it |
| `PostSpec.PassCorrect` | bitcoin/src/cluster_linearize.h:1113-1295 | after a pass the groups have non-increasing feerates, every proper prefix of a group has a lower feerate than the group, and the order is valid and not worse |
| `PostGuarantees.PostLinImproves` | bitcoin/src/cluster_linearize.h:1113-1295 | both passes together turn a linearization into one that dominates it |
| `PostGuarantees.PostLinChunksConnected` | bitcoin/src/cluster_linearize.h:1096-1111 | all chunks of the result are connected |
| `PostTrees.PostLinTreeOptimal` | bitcoin/src/cluster_linearize.h:1096-1111 | if every transaction has at most one child, or every one at most one parent, the result dominates every linearization of the graph |
| `PostLeaf.PostLinMovedLeaf` | bitcoin/src/cluster_linearize.h:1096-1111 | moving a leaf to the end and postlinearizing gives an order that dominates the original one |
| `PostLeaf.PostLinReplacedLeaf` | bitcoin/src/cluster_linearize.h:1096-1111 | the same if the fee of the leaf is raised on the way: at every slope the new order in the new graph is at least as good as the old one in the old graph |
| `PostLinearization.JoinedRep` | bitcoin/src/cluster_linearize.h:1243-1256 | the pointer updates of a merge represent the list with the two groups joined |
| `PostLinearization.SwappedRep` | bitcoin/src/cluster_linearize.h:1257-1269 | the pointer updates of a swap represent the list with the two groups exchanged |
| `PostLinearization.Settle` | bitcoin/src/cluster_linearize.h:1229-1270 | the inner loop on the linked lists ends and represents the groups after the last one has moved to its place |
| `PostLinearization.Pass` | bitcoin/src/cluster_linearize.h:1206-1271 | a pass over the array, in either direction, represents the groups of the specification |
| `PostLinearization.WriteBack` | bitcoin/src/cluster_linearize.h:1273-1293 | following the linked lists writes the flattened groups back to the array in the order of the pass |
| `PostLinearization.RunPass` | bitcoin/src/cluster_linearize.h:1206-1294 | one pass in place computes the forward or the backward pass of the specification |
| `PostLinearization.PostLinearize` | bitcoin/src/cluster_linearize.h:1113-1295 | the array ends up as the result of both passes; a linearization becomes a linearization that dominates it |
| `CheckQueue.BatchSize` | bitcoin/src/checkqueue.h:116-121 | a batch takes at least one check and no more than are queued or allowed |
| `CheckQueue.VerdictMeaning` | bitcoin/src/checkqueue.h:128-134 | the verdict of a batch is empty exactly if all its checks pass, and otherwise the result of one of them |
| `CheckQueue.NextInv` | bitcoin/src/checkqueue.h:72-137 | every step of every thread keeps the invariant: counters, batches in flight, results and failed checks not yet accounted for |
| `CheckQueue.ReachableInv` | bitcoin/src/checkqueue.h:72-137 | the invariant holds in every state that any interleaving reaches |
| `CheckQueue.CompleteIsRight` | bitcoin/src/checkqueue.h:166-169 | in every run, each completed session returned nothing exactly if all checks added in it passed, and otherwise the result of one of that session's checks |
| `CheckQueue.Accounting` | bitcoin/src/checkqueue.h:80-127 | in every reachable state the work counter is the queue length plus all unaccounted batches, batches are not empty, and the counts of idle and present threads are right |
| `CheckQueue.NoLostWakeUp` | bitcoin/src/checkqueue.h:80-127 | if the master sleeps without a pending notification, the queue is empty, work is outstanding, and another thread holds a batch |
| `CheckQueue.StepUsesWork` | bitcoin/src/checkqueue.h:72-137 | a step inside the loop changes nothing or decreases a measure of outstanding work |
| `CheckQueue.MasterIsOwed` | bitcoin/src/checkqueue.h:80-127 | in every reachable state, a master asleep without a pending notification is owed one by a worker with a batch |
| `CheckQueue.SomeoneWorks` | bitcoin/src/checkqueue.h:72-137 | while the master is inside, some step is enabled that decreases that measure |
| `CheckQueue.BusyRunsEnd` | bitcoin/src/checkqueue.h:72-137 | a run of steps that each change something uses up at least one unit of that measure a step and keeps the invariant |
| `CheckQueue.CompleteReturns` | bitcoin/src/checkqueue.h:72-137 | from every reachable state, steps that change something must end, and where none is left the master has returned from Complete and exactly the session it was in has been completed with the right result |
| `CheckQueue.NeverDeadlocked` | bitcoin/src/checkqueue.h:72-137 | from every reachable state and after any such steps, further ones lead to that return |
| `Coins.WithCoinOk` | bitcoin/src/coins.cpp:72-111 | adding a coin keeps the flags of the cache right if and only if it overwrites, is already cached, or the parent shows no coin there |
| `Coins.WithoutCoinOk` | bitcoin/src/coins.cpp:130-150 | spending keeps the flags right and hides the coin |
| `Coins.MisappliedFresh` | bitcoin/src/coins.cpp:72-111 | a coin added as fresh over one the parent shows reappears after it is spent, so the condition cannot be dropped |
| `Coins.WriteEntryOk` | bitcoin/src/coins.cpp:183-248 | writing a flagged entry of a child does not throw, makes the parent show what the child showed, keeps its flags right and touches nothing else |
| `Coins.BatchWrite` | bitcoin/src/coins.cpp:183-248 | the loop over flagged entries never throws; afterwards the parent shows at every outpoint what the child showed, and the child is left as the cursor leaves it |
| `Coins.BatchWriteDb` | bitcoin/src/txdb.cpp:93-152 | the same for the database below all caches |
| `Coins.CursorEnd` | bitcoin/src/coins.h:265-306 | a cursor that does not erase leaves exactly the unspent entries, without flags |
| `Coins.SanityHolds` | bitcoin/src/coins.cpp:315-345 | every cache of a proper stack passes the sanity check, and the flagged list is as long as there are flagged entries |
| `Coins.CoinsStack.FetchCoin` | bitcoin/src/coins.cpp:48-64 | looking a coin up fills caches but changes no view; it is found exactly if it is cached there or shown |
| `Coins.CoinsStack.GetCoin` | bitcoin/src/coins.cpp:66-70 | the answer is what the view shows, and no view changes |
| `Coins.CoinsStack.HaveCoin` | bitcoin/src/coins.cpp:163-166 | the answer tells whether the view shows a coin, and no view changes |
| `Coins.CoinsStack.AddCoin` | bitcoin/src/coins.cpp:72-111 | for every call: the top view changes at the one outpoint only, unspendable outputs change nothing, the call fails exactly when it would overwrite a cached unspent coin without permission, and the stack stays in order if and only if a coin taken for new is new to the base |
| `Coins.CoinsStack.SpendCoin` | bitcoin/src/coins.cpp:130-150 | the coin handed out is the one shown before, the call succeeds exactly if the outpoint is in the top cache or shown, and the top view changes at the one outpoint only |
| `Coins.CoinsStack.Uncache` | bitcoin/src/coins.cpp:274-287 | exactly an unflagged entry of the one cache goes, and no view changes |
| `Coins.CoinsStack.WriteDown` | bitcoin/src/coins.cpp:183-248 | writing a level down leaves the level below with the views of that level, and the level itself to be cleared |
| `Coins.CoinsStack.Flush` | bitcoin/src/coins.cpp:250-259 | the parent shows what the child showed, no other view changes, and the child is empty |
| `Coins.CoinsStack.Sync` | bitcoin/src/coins.cpp:261-272 | the same, with the child keeping its unspent entries without flags |
| `Coins.CoinsStack.Do` | bitcoin/src/coins.cpp:48-287 | every operation keeps the stack in agreement with plain maps, one per level, and answers as they do |
| `Coins.CoinsStack.Run` | bitcoin/src/coins.cpp:48-287 | over every run of operations on a stack of any height the answers are those of plain maps under the same adds and spends |
| `AddrMan.AddrManImpl.constructor` | bitcoin/src/addrman.cpp:109-125 | a new manager is empty and in step |
| `AddrMan.AddrManImpl.Find` | bitcoin/src/addrman.cpp:401-414 | an address is found exactly if it is known, with the id that stands for it |
| `AddrMan.AddrManImpl.Create` | bitcoin/src/addrman.cpp:416-430 | one entry more, at the end of `vRandom`, in no bucket yet; all other indexes in step |
| `AddrMan.AddrManImpl.SwapRandom` | bitcoin/src/addrman.cpp:432-454 | two positions of `vRandom` are exchanged and the entries' places follow |
| `AddrMan.AddrManImpl.Delete` | bitcoin/src/addrman.cpp:456-471 | exactly the one entry goes from all indexes, and the counters follow |
| `AddrMan.AddrManImpl.ClearNew` | bitcoin/src/addrman.cpp:473-489 | the slot is cleared, its entry loses one reference and goes with the last one; all others stay |
| `AddrMan.AddrManImpl.LeaveNew` | bitcoin/src/addrman.cpp:491-509 | all slots of the entry are cleared, and no others, although the loop may stop early |
| `AddrMan.AddrManImpl.Evict` | bitcoin/src/addrman.cpp:515-541 | the address in a tried slot stands in the one new slot its source gives it, with one reference, and the former holder of that slot has lost it; nothing else about any entry changes |
| `AddrMan.AddrManImpl.MakeTried` | bitcoin/src/addrman.cpp:491-548 | the entry stands in its tried slot and in no new slot, an address in the way is back in the new table, nothing else about any entry changes, and all indexes are in step |
| `AddrMan.AddrManImpl.Enroll` | bitcoin/src/addrman.cpp:550-597 | a known address is refreshed, an unknown one created, and the decision to list it is as specified |
| `AddrMan.AddrManImpl.List` | bitcoin/src/addrman.cpp:599-623 | the address takes its slot if and only if that is free, or held by another that is terrible or has other slots while this one has none; otherwise it is dropped if it has no other slot; all other entries stay what they are |
| `AddrMan.AddrManImpl.AddSingle` | bitcoin/src/addrman.cpp:550-624 | inserted if and only if it is routable, unknown or with newer news, not tried, below eight slots and unlisted or lucky, and its slot yields; then it newly stands in that slot with the announced time, services and source and one reference more; otherwise no slot changes and at most a known entry is refreshed; all else stays |
| `AddrMan.Refreshed` | bitcoin/src/addrman.cpp:567-577 | a new announcement moves an entry's time only forward and by more than an hour, and takes no services away |
| `AddrMan.AddrManImpl.Add` | bitcoin/src/addrman.cpp:681-691 | adding a list keeps everything in step; each announced address newly stands in the slot given by its source if it is welcome at its turn and changes no slot otherwise, and the result is true if and only if some address does the former |
| `AddrMan.AddrManImpl.MarkGood` | bitcoin/src/addrman.cpp:626-679 | the address moves to the tried table exactly if it is known, not there yet, and its slot is free or may be taken; otherwise a collision is noted if there is room; last success, last try and attempts of the entry are set in either case, and nothing else of it or any other entry but what the move changes |
| `AddrTables.UpdatedOk` | bitcoin/src/addrman.cpp:1077-1107 | changing the statistics of an entry keeps the tables in step if and only if its times are not before the epoch and a tried entry has had a success |
| `AddrMan.AddrManImpl.Attempt` | bitcoin/src/addrman.cpp:693-711 | only the statistics of the one address change, a failure is counted once per successful connection, and the tables stay in step unless the time of a known address is before the epoch |
| `AddrMan.AddrManImpl.Connected` | bitcoin/src/addrman.cpp:877-894 | only the time of the one address changes, if it is older than twenty minutes |
| `AddrMan.AddrManImpl.SetServices` | bitcoin/src/addrman.cpp:896-910 | only the services of the one address change |
| `AddrMan.AddrManImpl.ResolveOne` | bitcoin/src/addrman.cpp:912-973 | a pending id is dropped if and only if it is gone, invalid, its opponent was reached within four hours, or it wins; it wins exactly if the opponent has failed a test or the test window is over, and then it stands in the slot; otherwise nothing changes; the branch for an empty slot cannot be taken |
| `AddrMan.AddrManImpl.ResolveCollisions` | bitcoin/src/addrman.cpp:912-973 | every pending id is decided on the tables at its turn, in order of id: it stays pending exactly if it is known, valid and undecidable; one that wins stands in its slot at the end, whatever comes after it |
| `AddrMan.StillStands` | bitcoin/src/addrman.cpp:912-973 | an id that has won its slot in a pass cannot lose it to a later one of the pass |
| `AddrMan.AddrManImpl.SelectTriedCollision` | bitcoin/src/addrman.cpp:975-1001 | a pending collision with a known id always names an occupied tried slot; without an answer nothing was pending or exactly one id that is gone is dropped |
| `AddrMan.AddrManImpl.GetAddr` | bitcoin/src/addrman.cpp:812-851 | the result is all that passes the filters among a randomly chosen prefix of the shuffled `vRandom`, up to the number wanted; at most the asked number and percentage, of the asked network only, no terrible one if filtered, none twice; only places in `vRandom` change |
| `AddrMan.WantedBounds` | bitcoin/src/addrman.cpp:817-824 | the number wanted is the largest within all limits |
| `AddrMan.SelectOnce` | bitcoin/src/addrman.cpp:826-849 | no address is handed out twice |
| `AddrMan.AddrManImpl.Run` | bitcoin/src/addrman.cpp:550-1001 | every run of operations keeps all conditions of the consistency check, never more than ten pending collisions, each gone or up against an occupied slot, and never empties a tried slot; and every step of the run does to the whole state what its operation is stated to do |
| `AddrCheck.CheckEntries` | bitcoin/src/addrman.cpp:1077-1108 | the first pass accepts exactly if every entry is in order, and collects tried ids, reference counts and network counts |
| `AddrCheck.CheckTriedSlots` | bitcoin/src/addrman.cpp:1115-1130 | the pass over the tried table accepts exactly if every occupied slot holds a tried entry that belongs there |
| `AddrCheck.CheckNewSlots` | bitcoin/src/addrman.cpp:1132-1145 | counting down references accepts only if every slot holds a new entry that belongs there, no more often than its count says |
| `AddrCheck.CheckAddrman` | bitcoin/src/addrman.cpp:1063-1166 | the check returns zero if and only if the stated conditions hold |
| `AddrCheck.InStepChecked` | bitcoin/src/addrman.cpp:1063-1166 | tables in step pass the check |
| `AddrCheck.CheckedInStep` | bitcoin/src/addrman.cpp:1063-1166 | tables are in step if and only if they pass the check and the conditions it overlooks hold: addresses map back to entries, ids are below the next one, every network present has a counter |
| `AddrCheck.CheckMisses` | bitcoin/src/addrman.cpp:1154-1163 | the check accepts tables in which the network of an entry has no counter while an unused network has one |
| `AddrFile.Serialize` | bitcoin/src/addrman.cpp:133-228 | the loops write exactly the described layout: header, new entries, tried entries, for each bucket the numbers of its entries, checksum; the assertions on the counters hold |
| `AddrFile.Parse` | bitcoin/src/addrman.cpp:231-340 | reading a file gives what the layout says, or nothing where the code throws |
| `AddrFile.ParsedProper` | bitcoin/src/addrman.cpp:316-331 | entries of buckets name new entries and buckets of the file |
| `AddrFile.ParsedStream` | bitcoin/src/addrman.cpp:133-340 | reading a written file gives back what was written |
| `AddrLoad.LoadNew` | bitcoin/src/addrman.cpp:282-291 | new entries are numbered from zero and all indexes but uniqueness of addresses are in step |
| `AddrLoad.LoadTried` | bitcoin/src/addrman.cpp:293-314 | of the valid entries with the same tried slot the first is loaded, and no other; if all are valid and alone, all are loaded in order |
| `AddrLoad.PlaceAll` | bitcoin/src/addrman.cpp:341-376 | for every list of bucket entries the new table is exactly the described one, entry by entry: its own slot if buckets count and it is free, else the primary slot if that is free, never beyond eight per address |
| `AddrLoad.EachPairServed` | bitcoin/src/addrman.cpp:341-376 | a valid address that some bucket names has a slot or finds its primary slot occupied, and if buckets count its named slot is occupied or it has eight |
| `AddrLoad.Rebucketed` | bitcoin/src/addrman.cpp:341-376 | if buckets do not count, each slot is held by the first valid address whose source leads there, and nobody stands elsewhere |
| `AddrLoad.Prune` | bitcoin/src/addrman.cpp:378-388 | exactly the new entries without a slot go, with their addresses; all other entries and all slots stay |
| `AddrRoundTrip.RebuiltRenumbered` | bitcoin/src/addrman.cpp:231-399 | tables rebuilt from a file have the same entries, slots, reference counts, counters and addresses as those it was written from, up to renumbering |
| `AddrLoaded.StepsLoad` | bitcoin/src/addrman.cpp:231-388 | the loaded tables are those of the file: its new table, the entries that have a slot there, and the first valid tried entry of each slot, as the file has them, and nothing else |
| `AddrLoaded.NamedKept` | bitcoin/src/addrman.cpp:341-388 | a valid address that some bucket names is in the loaded tables unless another has its primary slot |
| `AddrLoaded.AcceptedIffClean` | bitcoin/src/addrman.cpp:231-399 | the consistency check accepts loaded tables exactly if the key is not zero and every entry that is kept shares its address with no other entry loaded and has a proper time of last success |
| `AddrRoundTrip.Unserialize` | bitcoin/src/addrman.cpp:231-399 | for every file: loading fails exactly if the file does not parse, its key is zero or it is not clean; otherwise the tables are the described ones and in step; a file written from tables in step, with valid addresses and the same checksum, is loaded as the same tables up to renumbering |
| `AddrRoundTrip.SaveThenLoad` | bitcoin/src/addrman.cpp:133-399 | saving and loading gives back the same tables up to renumbering |
| `ArithUint.BaseUint.SameLimbs` | bitcoin/src/arith_uint256.h:214-214 | limbs are equal if and only if values are, so the value contracts below fix every limb |
| `ArithUint.BaseUint.Add` | bitcoin/src/arith_uint256.h:128-138 | addition modulo the width, limb by limb with a 64-bit carry that does not overflow, for every width and also with itself |
| `ArithUint.BaseUint.Complement` | bitcoin/src/arith_uint256.h:62-68 | the complement modulo the width |
| `ArithUint.BaseUint.Increment` | bitcoin/src/arith_uint256.h:166-173 | plus one modulo the width |
| `ArithUint.BaseUint.Decrement` | bitcoin/src/arith_uint256.h:183-190 | minus one modulo the width |
| `ArithUint.BaseUint.Negate` | bitcoin/src/arith_uint256.h:70-77 | the negative modulo the width |
| `ArithUint.BaseUint.Sub` | bitcoin/src/arith_uint256.h:140-144 | subtraction modulo the width |
| `ArithUint.BaseUint.MulWord` | bitcoin/src/arith_uint256.cpp:47-57 | multiplication by a 32-bit word modulo the width |
| `ArithUint.BaseUint.AddRow` | bitcoin/src/arith_uint256.cpp:59-73 | one row of the multiplication adds the product with one limb, without 64-bit overflow |
| `ArithUint.BaseUint.Mul` | bitcoin/src/arith_uint256.cpp:59-73 | multiplication modulo the width |
| `ArithUint.BaseUint.ShiftLeft` | bitcoin/src/arith_uint256.cpp:13-28 | multiplication by a power of two modulo the width, for every shift |
| `ArithUint.BaseUint.ShiftRight` | bitcoin/src/arith_uint256.cpp:30-45 | division by a power of two, for every shift |
| `ArithUint.BaseUint.CompareTo` | bitcoin/src/arith_uint256.cpp:101-111 | the order of the values |
| `ArithUint.BaseUint.EqualTo` | bitcoin/src/arith_uint256.cpp:113-125 | equality with a 64-bit number |
| `ArithUint.BaseUint.GetLow64` | bitcoin/src/arith_uint256.h:238-242 | the value modulo 2^64 |
| `ArithUint.BaseUint.Bits` | bitcoin/src/arith_uint256.cpp:155-168 | the number of significant bits |
| `ArithUint.BaseUint.LongDivision` | bitcoin/src/arith_uint256.cpp:75-99 | shift and subtract from the given bit down gives the quotient |
| `ArithUint.BaseUint.Div` | bitcoin/src/arith_uint256.cpp:75-99 | the exact floor quotient, or the error exactly for a zero divisor |
| `Compact.SetCompact` | bitcoin/src/arith_uint256.cpp:175-193 | the value is the decoded target modulo 2^256, and both flags are exact |
| `Compact.OverflowExact` | bitcoin/src/arith_uint256.cpp:175-193 | the byte tests of the overflow flag hold exactly if the decoded target does not fit |
| `Compact.GetCompact` | bitcoin/src/arith_uint256.cpp:195-216 | the number is the compact form of the value |
| `Compact.DecodedClose` | bitcoin/src/arith_uint256.cpp:175-216 | decoding a compact form loses less than the unit of its exponent and keeps mantissa and exponent |
| `Compact.CompactRoundTrip` | bitcoin/src/arith_uint256.cpp:175-216 | for every 256-bit x, decoding its compact form raises no flag, gives y <= x with x - y below 256^max(0, size - 3), and y has the same compact form |
| `Compact.NegativeRoundTrip` | bitcoin/src/arith_uint256.cpp:175-216 | with the negative flag the compact form gives the same target, and decoding raises the flag exactly if the number, equally the mantissa, is not zero |
| `Compact.ProofFormula` | bitcoin/src/chain.cpp:131-144 | the rewritten quotient is floor(2^256 / (target + 1)) |
| `Compact.GetBlockProof` | bitcoin/src/chain.cpp:131-144 | the work is floor(2^256 / (target + 1)) for every valid target and zero otherwise |
| `BlockChain.BlockIndex.AncestorsAreUp` | bitcoin/src/chain.cpp:93-118 | the ancestors are exactly the blocks reached by parent steps |
| `BlockChain.BlockIndex.Stride` | bitcoin/src/chain.cpp:101-116 | one step of the walk, by skip pointer or parent, stays on the parent walk and does not pass the wanted height |
| `BlockChain.BlockIndex.GetAncestor` | bitcoin/src/chain.cpp:93-118 | the walk ends at the block that `height - h` parent steps reach, and gives null outside the range |
| `BlockChain.BlockIndex.BuildSkip` | bitcoin/src/chain.cpp:125-129 | the skip pointer is the ancestor at the skip height |
| `BlockChain.LastCommonAncestor` | bitcoin/src/chain.cpp:165-180 | the result is an ancestor of both blocks and no common ancestor is higher |
| `BlockChain.Chain.SetTip` | bitcoin/src/chain.cpp:21-29 | entry `i` is the tip's ancestor at height `i` for every `i`, despite the early exit |
| `BlockChain.Chain.FindFork` | bitcoin/src/chain.cpp:60-69 | the result is the highest ancestor of the block that the chain contains |
| `BlockChain.Chain.ContainsAncestors` | bitcoin/src/chain.h:438-450 | the chain contains exactly the ancestors of its tip |
| `Base58Sizes.EncodeRoom` | bitcoin/src/base58.cpp:99-99 | 256^n <= 58^(n * 138 / 100 + 1) for every n |
| `Base58Sizes.DecodeRoom` | bitcoin/src/base58.cpp:54-54 | 58^n <= 256^(n * 733 / 1000 + 1) for every n |
| `Base58.MulAdd` | bitcoin/src/base58.cpp:101-115 | multiplying and adding in place over the digit buffer holds the digits of the new number and ends with carry zero |
| `Base58.EncodeBase58` | bitcoin/src/base58.cpp:89-127 | one letter per leading zero byte, then the base-58 digits of the number; the carry assertion holds |
| `Base58.DecodeBase58` | bitcoin/src/base58.cpp:40-87 | accepts exactly letters between spaces within the length, and gives the bytes of their number with the leading zeroes |
| `Base58.DecodeEncoded` | bitcoin/src/base58.cpp:40-127 | decoding an encoding gives back the bytes, for every byte string within the length |
| `Base58.EncodeDecoded` | bitcoin/src/base58.cpp:40-127 | encoding what an accepted string without spaces decodes to gives back the string |
| `Bech32Code.Constants` | bitcoin/src/bech32.cpp:199-212 | the five constants are the generator without its leading term times 1, 2, 4, 8 and 16 in GF(32) |
| `Bech32Code.NextRemainder` | bitcoin/src/bech32.cpp:176-212 | one step on the packed word is multiplication by x, addition of the value and reduction by the generator over GF(32) |
| `Bech32Code.PolyMod` | bitcoin/src/bech32.cpp:130-216 | the packed word holds the remainder of the list with an implicit one in front |
| `Bech32Code.RemainderLinear` | bitcoin/src/bech32.cpp:130-216 | the remainder of a sum is the sum of the remainders |
| `Bech32Code.BurstsDetected` | bitcoin/src/bech32.cpp:130-216 | two lists of equal length, of any length, that differ only within six consecutive positions have different checksums |
| `Bech32Division.RemainderDivides` | bitcoin/src/bech32.cpp:130-216 | there is a quotient such that the list with its implicit one is the quotient times the generator plus the computed remainder, coefficient by coefficient |
| `Bech32Division.DivisionUnique` | bitcoin/src/bech32.cpp:130-216 | quotient and remainder are determined by the list |
| `Bech32.CheckCharacters` | bitcoin/src/bech32.cpp:287-309 | the positions reported are, in order, exactly the unprintable characters and the letters in another case than the first one; there are none exactly if the string is legal |
| `Bech32.PreparePolynomialCoefficients` | bitcoin/src/bech32.cpp:311-324 | all high bits of the human readable part, a zero, all low bits, then the values |
| `Bech32.VerifyChecksum` | bitcoin/src/bech32.cpp:327-339 | the encoding returned is the one whose constant the remainder is, if there is one |
| `Bech32.SixNeeded` | bitcoin/src/bech32.cpp:342-353 | six values complete a list exactly if they are the remainder with six zeroes plus the constant |
| `Bech32.CreateChecksum` | bitcoin/src/bech32.cpp:342-353 | the six values complete the list to a valid one, and no other six do |
| `Bech32.Encode` | bitcoin/src/bech32.cpp:358-371 | the string is the human readable part, the separator, and the letters of the values and their checksum |
| `Bech32.Decode` | bitcoin/src/bech32.cpp:374-400 | a result is given exactly if the string is legal, within the limit and, up to case, an encoding; it is then the one encoding, human readable part and values that it encodes |
| `Bech32.DecodingUnique` | bitcoin/src/bech32.cpp:374-400 | a string is the encoding of at most one triple |
| `Bech32.EncodeThenDecode` | bitcoin/src/bech32.cpp:358-400 | decoding an encoding returns exactly what was encoded if the human readable part is not empty and printable and the string fits the limit, and is refused in every other case |
| `Bech32.DecodeThenEncode` | bitcoin/src/bech32.cpp:358-400 | encoding what an accepted string decodes to returns the string in lower case |

## Left out

- FeeFrac arithmetic is on unbounded integers: the 64-bit fee, the 32-bit size and the emulated 96-bit product are not modelled.
- Search.FindCandidate: the ring buffer is a sequence; its reserved capacity and the switch to depth-first splitting are modelled, its storage is not, and the random choice of the end to split is nondeterministic.
- DepGraphs.DepGraph.AddTransaction: the number of positions a set type offers is a parameter.
- GetReducedChildren, IsConnected and ConnectedComponent variants: they mirror members that are modelled.
- CheckQueue.CompleteIsRight: worker notifications are covered by allowing every thread to wake at any time; starting, stopping and destroying the threads is not modelled.
- CheckQueue.CompleteReturns: says nothing about schedules that never run an enabled thread.
- Coins.CoinsStack.Run: memory accounting, the best block hash, failed writes, allocator rebuilds and tracepoints are not modelled; caches are levels of one object, so a parent changes only through its child.
- Coins.SanityHolds: the assertions on the list's links and on memory usage are not stated; the list is a sequence and memory is not accounted for.
- Coins.BatchWrite: the linked list of flagged entries is a sequence of outpoints.
- AddrMan.AddrManImpl.Run: bucket arrays are maps from occupied slots, and the indexes are one record that the methods reassign field by field.
- AddrMan.AddrManImpl.AddSingle: the odds of the random test, one in 2^references, are not modelled; its outcome is a parameter.
- AddrMan.AddrManImpl.MarkGood: times at or before the epoch are excluded; `AddrTables.UpdatedOk` gives exactly the times with which an entry passes the consistency check.
- AddrMan.AddrManImpl.GetAddr: the quality of the randomness is not modelled.
- Select_, GetChance, GetEntries_, FindAddressEntry_ and Size of the address manager: random loops with floating point, or plain queries.
- AddrFile.Serialize: how integers, records and hashes become bytes is not modelled; a file is a list of items.
- AddrFile.Parse: all exceptions are one failure, and reading is separated from filling the tables.
- AddrCheck.CheckAddrman: entries and slots are visited in an arbitrary order, so which fault is reported first is left open.
- AddrRoundTrip.Unserialize: times of the file are integers without the narrowing of the disk format.
- LocateErrors of Bech32 and the GF(1024) tables.
- Bech32.Encode: characters of the human readable part above 127, whose sign is up to the compiler, are excluded.
- Bech32.PreparePolynomialCoefficients: the same characters are excluded.
- Bech32.CreateChecksum: the same characters are excluded.
- Bech32.EncodeThenDecode: the same characters are excluded.
- Base58Check, which adds a hash to Base58.
- Hexadecimal and floating-point conversions of the big integers.
- FindEarliestAtLeast, block locators and GetBlockProofEquivalentTime of the chain.
- Compact block relay, block filters, compressors, ban lists, chain parameters, command-line programs and the bridges to managed code.
