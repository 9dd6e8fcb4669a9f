# Verified model of the mxlib cores

mxlib is a C++ base library for Windows. This project models its data structures and its concurrent
protocols in Dafny and proves what they are for.

* **Red-black tree** (`RedBlackTree.dfy`, `RedBlackQueries.dfy`, `RedBlackChecks.dfy`, `RedBlackRuns.dfy`). The
  intrusive tree, with its parent pointers, is modelled on the heap. `Insert`, `Remove`, the rotations and
  `DeleteFixup` recolour, rotate and relink nodes in place. Ghost fields give each node its place in the in-order
  sequence `nodes` and its black height; `Valid` says that links, colours and heights are right. The ghost fields
  `odd`, `short` and `gone` name what an operation in progress has still to repair.
* **Timer handler** (`TimerEngine.dfy`, `TimerLists.dfy`, `TimerProofs.dfy`, `TimerSafety.dfy`, `TimerDelays.dfy`,
  `TimerRemoval.dfy`, `TimerProgress.dfy`, `TimerArguments.dfy`, `TimerReturns.dfy`). A state machine whose steps are the interlocked operations and critical
  sections of `AddTimer`, `RemoveTimer` and `ProcessQueue`. A run is any sequence of enabled steps of any number of
  threads. The clock counts units of 100 ns, as the clock of the system does; the code reads it in milliseconds.
* **Slab allocator** (`SlabSizes.dfy`, `SlabChunks.dfy`, `SlabLists.dfy`, `SlabBins.dfy`, `SlabManager.dfy`). Chunks are
  objects whose free lists are threaded through the words of their blocks. They move among three circular lists, whose
  links are updated in place.
* **Locks and shutdown** (`LockWords.dfy`, `Rundown.dfy`, `RwLocks.dfy`, `HandlerOnDemand.dfy`, `TaskQueues.dfy`,
  `TaskCallbacks.dfy`, `TaskAnswers.dfy`, `ThreadPools.dfy`, `ThreadHooks.dfy`). One step for each interlocked
  operation, with the invariants that every run keeps. `RwProgress.dfy`, `HandlerProgress.dfy`, `TaskProgress.dfy` and
  `ThreadProgress.dfy` show that nothing gets stuck: from every reachable state some steps lead to the end of the call;
  `Paths.dfy` says what it means that steps lead to a state.
* **Containers and memory** (`Sequences.dfy`, `Bytes.dfy`, `CircularBuffer.dfy`, `MemoryObjects.dfy`, `ArrayList.dfy`,
  `Names.dfy`, `PropertyBag.dfy`, `LinkedList.dfy`, `PacketList.dfy`). Classes and methods that update arrays, links
  and fields in place, each proved against a sequence, a byte queue or a map. `Powers.dfy` has the powers of two.

Reading aids:

* A comparison function with its key is a function `probe` from nodes or elements to `int`. `Falling(s, probe)` says
  that the key is first greater, then equal, then less along `s`; `SortedFalls` gives it for a sorted sequence.
* What the system decides is a parameter: whether an allocation succeeds (`memory`, `room`, `grow`, `ok`), where new
  memory is placed (`region`, `length`), how far the clock goes on (`Tick`).
* The state machines carry history beside the state of the program: who answers for a timer, how often an item has been
  executed, cancelled and freed. No step looks at it.
* The comments over `GetCeiling`, `GetFloor`, `GetHigher` and `GetLower` in Include/RedBlackTree.h promise something
  else than the code does. The model follows the code: ceiling and floor are null when nothing qualifies, higher and
  lower are strict.
* A null node counts as black, in place of the calls on null pointers that the code makes.

In some places the code stops keeping its promise. The exact conditions are proved, with runs and inputs that fail:

* **Lock words.** A run breaks the rundown protection, or the lock for readers and writers, if and only if there are
  0x80000000 users or more (`Rundown.BreaksIff`, `RwLocks.BreaksIff`). `Rundown.Overflow` and `RwLocks.Overflow` give
  such runs.
* **Removal of timers.** A RemoveTimer that finds its variable cleared returns at once, although another thread may not
  have cancelled the timer yet; in `TimerProgress.SecondReturnsEarly` the callback starts after that.
  `TimerProgress.MayStartIff` says for every reachable state when a callback may still start. It comes down to the timer
  being queued (`TimerProgress.QueuedMayStart`), but for a call of AddTimer that has not queued it yet, and for a
  callback that is running: that may be its last call, or may have taken the id of its own timer.
* **Early timers.** Both readings of the clock are cut to milliseconds, so that a callback can start up to 0.9999 ms
  early (`TimerDelays.NeverEarly`, `TimerDelays.EarlyIff`, `TimerDelays.EarlyRun`).
* **Sizes near 2^64.** The size of a superblock wraps (`SlabManager.GrantHoldsIff`, `SlabManager.WrappedMalloc`), and so
  does the rounding of a buffer size (`CircularBuffers.RoundsUpIff`, `CircularBuffers.CircularBuffer.FitsIff`). The
  result `Overrun` says that the code then writes past the end of a block; nothing is known after it.
* **Calls made in OnTaskCancelled.** Finalize calls it for each item that is left, under a mutex that the same thread
  can enter again. If it calls QueueTask and that starts a worker, an item can be executed and cancelled, and freed
  while it is in use, even if QueueTask fails in the end (`ThreadHooks.SettlesTwiceIff`, `ThreadHooks.RefusedRun`,
  `ThreadHooks.QueuedRun`). If no worker starts there, all is kept.
* **Callbacks of tasks.** QueueTask keeps the callback in the task. A task that is queued with another callback while
  the first has not been called calls the second for both (`TaskCallbacks.CallsAnotherIff`, `TaskCallbacks.MixedRun`).
* **Overlapping copies.** `MemoryObjects.MxMemCopy` repeats the start of the source over a destination inside it.

## Model

| member | source | states |
|---|---|---|
| RedBlackTrees.RedBlackTree.constructor | Include/RedBlackTree.h:143-148 | a new tree is valid and empty |
| RedBlackTrees.RedBlackTree.LeftRotate | Include/RedBlackTree.h:727-750 | the rotation keeps every link, the in-order sequence and the place of every node, and changes no other link |
| RedBlackTrees.RedBlackTree.RightRotate | Include/RedBlackTree.h:752-775 | the mirror image |
| RedBlackTrees.RedBlackTree.LeftRotatedBlacks | Include/RedBlackTree.h:727-750 | if the two nodes that turn are balanced afterwards, every node is: equal black heights survive a left rotation |
| RedBlackTrees.RedBlackTree.LeftRotatedReds | Include/RedBlackTree.h:727-750 | no red node gets a red child by a left rotation if the two nodes that turn do not |
| RedBlackTrees.RedBlackTree.RightRotatedBlacks | Include/RedBlackTree.h:752-775 | the same for black heights and a right rotation |
| RedBlackTrees.RedBlackTree.RightRotatedReds | Include/RedBlackTree.h:752-775 | the same for red edges and a right rotation |
| RedBlackTrees.RedBlackTree.RecolourFamily | Include/RedBlackTree.h:423-429 | red uncle: all paths keep their black count, and the only red edge left is two levels higher |
| RedBlackTrees.RedBlackTree.StraightenLeft | Include/RedBlackTree.h:432-436 | inner grandchild: after the turn the red edge is an outer one, nothing else breaks |
| RedBlackTrees.RedBlackTree.StraightenRight | Include/RedBlackTree.h:454-458 | the mirror image |
| RedBlackTrees.RedBlackTree.LiftRight | Include/RedBlackTree.h:437-439 | outer grandchild: the last rotation removes the red edge and keeps all black counts |
| RedBlackTrees.RedBlackTree.LiftLeft | Include/RedBlackTree.h:459-461 | the mirror image |
| RedBlackTrees.RedBlackTree.InsertStep | Include/RedBlackTree.h:418-464 | one pass of the repair loop leaves at most one red edge, and that nearer to the root |
| RedBlackTrees.RedBlackTree.InsertFixup | Include/RedBlackTree.h:417-465 | the repair ends, with a valid tree and a black root, for whatever red leaf was hung in |
| RedBlackTrees.RedBlackTree.HookLeft | Include/RedBlackTree.h:388-395 | hanging a red leaf to the left puts it directly before its parent in order |
| RedBlackTrees.RedBlackTree.HookRight | Include/RedBlackTree.h:388-395 | hanging it to the right puts it directly after its parent |
| RedBlackTrees.RedBlackTree.FindLeaf | Include/RedBlackTree.h:374-387 | the descent ends where the new node belongs, behind all nodes that compare less or equal; without duplicates it ends at an equal node if and only if there is one |
| RedBlackTrees.RedBlackTree.Insert | Include/RedBlackTree.h:346-471 | every invariant is kept; the node goes directly after all nodes it is not less than, so equal nodes stay in order of insertion; without duplicates it is refused exactly if an equal node exists, which is returned, and then nothing in the tree changes |
| Sequences.InsertKeepsSorted | Include/RedBlackTree.h:346-471 | insertion at that place keeps a sorted sequence sorted, for any comparison that is an order with ties |
| Sequences.RemoveKeepsSorted | Include/RedBlackTree.h:473-647 | and taking a node out of it does |
| Sequences.SortedFalls | Include/RedBlackTree.h:155-168 | a sorted sequence is one that a search by comparison may descend in |
| RedBlackTrees.RedBlackTree.SwapWithSuccessor | Include/RedBlackTree.h:482-590 | a node with two children trades places, links and colour with its successor, adjacent or not; all other nodes keep theirs |
| RedBlackTrees.RedBlackTree.FindSuccessorBelow | Include/RedBlackTree.h:487-490 | the leftmost node to the right is the next in order and has no left child |
| RedBlackTrees.RedBlackTree.PrepareRemove | Include/RedBlackTree.h:482-590 | after the trade the tree is valid, but for the place of the two nodes, and what is left without the node is the same sequence |
| RedBlackTrees.RedBlackTree.SpliceOut | Include/RedBlackTree.h:593-606 | a node with one child is unlinked; its child takes its place |
| RedBlackTrees.RedBlackTree.TurnSiblingLeft | Include/RedBlackTree.h:786-792 | red sibling: afterwards the sibling is black and the same subtree is one black node short |
| RedBlackTrees.RedBlackTree.TurnSiblingRight | Include/RedBlackTree.h:821-827 | the mirror image |
| RedBlackTrees.RedBlackTree.PaintSibling | Include/RedBlackTree.h:793-797 | no red nephew: the shortage moves to the parent |
| RedBlackTrees.RedBlackTree.BendNephewRight | Include/RedBlackTree.h:800-806 | inner red nephew only: it becomes an outer one |
| RedBlackTrees.RedBlackTree.BendNephewLeft | Include/RedBlackTree.h:835-841 | the mirror image |
| RedBlackTrees.RedBlackTree.SettleLeft | Include/RedBlackTree.h:807-813 | outer red nephew: the shortage is gone |
| RedBlackTrees.RedBlackTree.SettleRight | Include/RedBlackTree.h:842-848 | the mirror image |
| RedBlackTrees.RedBlackTree.DeleteFixup | Include/RedBlackTree.h:777-857 | a subtree that is one black node short is repaired, whether its root replaces the removed node or is the removed leaf, still linked |
| RedBlackTrees.RedBlackTree.CutLeaf | Include/RedBlackTree.h:622-640 | unlinking the leaf after the repair leaves a tree without red edges and with equal black heights |
| RedBlackTrees.RedBlackTree.Remove | Include/RedBlackTree.h:473-647 | every invariant is kept, the sequence is the old one without exactly that node, which comes back unlinked |
| RedBlackTrees.RedBlackTree.RemoveAll | Include/RedBlackTree.h:649-654 | the tree is empty and every node it had is unlinked |
| RedBlackRuns.Operate | Include/RedBlackTree.h:346-654 | after any run of Insert, Remove and RemoveAll the tree is valid and sorted and has exactly the nodes that the operations leave, in their order; a search for any node finds an equal one if there is one, and the height is logarithmic |
| RedBlackQueries.GetNext | Include/RedBlackTree.h:42-63 | the next node in order, null after the last |
| RedBlackQueries.GetPrev | Include/RedBlackTree.h:65-86 | the node before, null before the first |
| RedBlackQueries.GetFirst | Include/RedBlackTree.h:170-180 | the first node in order |
| RedBlackQueries.GetLast | Include/RedBlackTree.h:182-193 | the last node in order |
| RedBlackQueries.Find | Include/RedBlackTree.h:155-168 | finds an equal node if and only if there is one, with no more comparisons than the tree is high |
| RedBlackQueries.GetCeiling | Include/RedBlackTree.h:195-233 | an equal node, or else the first that is greater, or null |
| RedBlackQueries.GetFloor | Include/RedBlackTree.h:235-271 | an equal node, or else the last that is less, or null |
| RedBlackQueries.GetHigher | Include/RedBlackTree.h:273-308 | the first node that is strictly greater, or null |
| RedBlackQueries.GetLower | Include/RedBlackTree.h:310-344 | the last node that is strictly less, or null |
| RedBlackQueries.Iterator.Begin | Include/RedBlackTree.h:862-887 | hands out the first node and keeps its successor |
| RedBlackQueries.Iterator.Next | Include/RedBlackTree.h:862-887 | hands out the kept node and keeps its successor |
| RedBlackQueries.ReverseIterator.Begin | Include/RedBlackTree.h:892-917 | hands out the last node and keeps the one before |
| RedBlackQueries.ReverseIterator.Next | Include/RedBlackTree.h:892-917 | hands out the kept node and keeps the one before |
| RedBlackQueries.Sweep | Include/RedBlackTree.h:862-887 | a pass that removes any of the nodes as it is handed them still visits each node once, in order, and leaves the others |
| RedBlackQueries.SweepBack | Include/RedBlackTree.h:892-917 | the same backwards |
| RedBlackChecks.WalkIsNodes | Include/RedBlackTree.h:662-674 | the walk along the links visits the nodes of the sequence, and nCount is their number |
| RedBlackChecks.ColoursCheck | Include/RedBlackTree.h:676-697 | the recursive check of links and colours succeeds on every subtree of a valid tree |
| RedBlackChecks.BlacksCheck | Include/RedBlackTree.h:699-722 | the recursive count meets the same number of black nodes on every path |
| RedBlackChecks.CheckTree | Include/RedBlackTree.h:662-722 | all of CheckTree holds of every valid tree |
| RedBlackChecks.HeightBound | Include/RedBlackTree.h:676-722 | a subtree of black height h has at least 2^h - 1 nodes and at most 2h + 1 levels |
| RedBlackChecks.HeightIsLogarithmic | Include/RedBlackTree.h:155-168 | 2 to the height is at most (nCount + 1) squared: the height is at most 2 log2(nCount + 1), which bounds the comparisons of Find |
| TimerProofs.LocalKeeps | Source/TimedEvent.cpp:351-606 | what one thread does to one timer, one id and one variable keeps the invariant of all others |
| TimerProofs.AllocateKeeps | Source/TimedEvent.cpp:570-589 | a timer from the free list, or a new one, belongs to the thread that adds it and to nobody else, and has the arguments of this AddTimer, whatever it was used for before |
| TimerProofs.InsertKeeps | Source/TimedEvent.cpp:389-403 | both lists take the new timer, and it is known by its id to the one variable it is stored in |
| TimerProofs.InsertFailsKeeps | Source/TimedEvent.cpp:393-398 | when the array cannot grow, the timer is released and nobody knows it |
| TimerProofs.TakeKeeps | Source/TimedEvent.cpp:410-416 | the id is taken from the variable; the call is the only one to know it |
| TimerProofs.CancelFoundKeeps | Source/TimedEvent.cpp:419-438 | RemoveTimer takes the timer from both lists and settles who releases it: this call, or ProcessQueue if the callback removes its own timer |
| TimerProofs.CancelMissedKeeps | Source/TimedEvent.cpp:419-434 | if the search does not find the id, the timer has been released already |
| TimerProofs.FreeKeeps | Source/TimedEvent.cpp:440-453 | RemoveTimer releases the timer it has cancelled, after its callback |
| TimerProofs.ClaimKeeps | Source/TimedEvent.cpp:496-516 | the timer thread marks as running the timer it is about to call, in one critical section with the choice |
| TimerProofs.PickIsFirst | Source/TimedEvent.cpp:488-516 | the scan takes the head of the queue if that is due, and nothing else: no timer in the queue is cancelled |
| TimerProofs.SettleKeeps | Source/TimedEvent.cpp:523-562 | after the callback a timer is released, left to the thread that removes it, or queued again, as its flags say |
| TimerProofs.StepKeeps | Source/TimedEvent.cpp:351-606 | every step of every caller and of the timer thread keeps the whole invariant |
| TimerLists.InsertOrdered | Source/TimedEvent.cpp:389-403 | insertion keeps the array strictly sorted by id and the queue by due time and order of insertion |
| TimerLists.RequeueOrdered | Source/TimedEvent.cpp:539-559 | a timer that fires again moves behind all that are due no later; the array by id is untouched |
| TimerLists.ReleaseListed | Source/TimedEvent.cpp:591-606 | a released timer is in neither list, and in the free list only while that has fewer than 128 |
| TimerSafety.RunKeeps | Source/TimedEvent.cpp:295-606 | the invariant holds in every reachable state |
| TimerSafety.FreedOnce | Source/TimedEvent.cpp:410-453 | a timer is released at most once, never while its callback runs, and exactly once if nobody has it any more |
| TimerSafety.ListsAgree | Source/TimedEvent.cpp:389-434 | the array by id and the queue hold the same timers, each strictly sorted, and no timer of the free list |
| TimerSafety.FiresFirst | Source/TimedEvent.cpp:488-516 | the timer chosen is due, not cancelled, and before all others by due time and then order of insertion |
| TimerSafety.NeverAfterRemoval | Source/TimedEvent.cpp:410-453 | after the RemoveTimer that has taken the id returns on another thread, the callback of that timer does not run and never starts again, and the timer has been released exactly once; for all other calls see TimerProgress.MayStartIff |
| TimerRemoval.StepKeepsOff | Source/TimedEvent.cpp:419-453 | a timer that has been taken from the lists, or released, stays so in every step of every thread |
| TimerRemoval.StepKeepsDead | Source/TimedEvent.cpp:351-606 | a timer whose callback cannot start any more stays so in every step |
| TimerRemoval.ChosenByPick | Source/TimedEvent.cpp:488-516 | no step but the choice in ProcessQueue brings a callback to its start |
| TimerProgress.MayStartIff | Source/TimedEvent.cpp:410-568 | in every reachable state: some continuation starts the callback of a timer if and only if the timer is chosen already, or is not cancelled and is on its way into the queue or in it, and the call of it that runs, if any, is not its last one and has not taken its id |
| TimerProgress.QueuedMayStart | Source/TimedEvent.cpp:410-568 | unless AddTimer has not queued it yet or its callback runs, that is: if and only if the timer is in the queue; so a RemoveTimer that finds its variable cleared promises that no callback starts exactly if the timer is not queued when it returns |
| TimerProgress.NeverChosenAgain | Source/TimedEvent.cpp:419-438 | after the critical section of a RemoveTimer, on any thread and also inside the callback, ProcessQueue never chooses that timer again |
| TimerProgress.ReturnEndsIt | Source/TimedEvent.cpp:410-453 | after the RemoveTimer that has taken the id returns, on any thread, no run starts the callback again |
| TimerProgress.SecondReturnsEarly | Source/TimedEvent.cpp:416-419 | a failing run: while one thread has taken the id and has not yet cancelled the timer, a second RemoveTimer of the same variable finds it cleared and returns, and the callback starts after that |
| TimerProgress.ComesToStart | Source/TimedEvent.cpp:475-568 | from every state in which the callback can start, the steps that lead to its start |
| TimerDelays.NeverEarly | Source/TimedEvent.cpp:386-387 | in units of 100 ns the callback is called less than 1 ms before the timeout of its timer is over, and never before it if the clock was at a whole millisecond, whatever happens in between |
| TimerDelays.EarlyRun | Source/TimedEvent.cpp:386-387 | a failing run for every other clock and timeout: both readings are cut to milliseconds, so the callback starts early |
| TimerDelays.EarlyIff | Source/TimedEvent.cpp:386-387 | some run starts the callback early if and only if the timeout is not 0 and the clock was not at a whole millisecond |
| TimerDelays.NeverTooOften | Source/TimedEvent.cpp:553-558 | nor is it called again before another timeout is over, counted from the time at which the timer was chosen, up to the same millisecond |
| TimerDelays.StepKeepsDue | Source/TimedEvent.cpp:351-606 | no step makes a timer in use due earlier |
| TimerArguments.StepKeepsAdding | Source/TimedEvent.cpp:366-387 | until AddTimer takes the time, no step of another thread changes the arguments of the timer that is being added |
| TimerArguments.StepKeepsRequest | Source/TimedEvent.cpp:351-606 | and no step changes those of a timer in use |
| TimerArguments.CallsAsAsked | Source/TimedEvent.cpp:92-98 | in every run the callback that is called for an id is the one that its AddTimer was given, with the timeout and the choice between one call and many that it was given |
| TimerArguments.NeverEarlyAsAsked | Source/TimedEvent.cpp:351-403 | it is called less than 1 ms before the timeout that AddTimer was given is over, and never before it if AddTimer took the time at a whole millisecond, also if the block comes from the free list |
| TimerArguments.DueAsAsked | Source/TimedEvent.cpp:72-81 | until its callback has returned the timer is due exactly at the millisecond of that time plus the timeout given: it is not delayed either |
| TimerArguments.DueAgainAsAsked | Source/TimedEvent.cpp:549-559 | and after a callback exactly one timeout after the millisecond that the timer thread read when it last looked at the clock before it chose the timer |
| TimerArguments.AgainIff | Source/TimedEvent.cpp:519-562 | after a callback the timer is queued again if and only if it is still in the queue, the callback has not cancelled it, and AddTimer was not told to call it once; if the callback has cancelled it or it was to be called once, it is released |
| TimerArguments.OnceAsAsked | Source/TimedEvent.cpp:535-549 | a timer that was added to be called once is chosen at most once |
| TimerArguments.AddReturns | Source/TimedEvent.cpp:351-408 | when AddTimer returns, the variable holds the id of the timer it has queued, or 0 exactly if it has failed |
| TimerArguments.ReleasePools | Source/TimedEvent.cpp:591-606 | a released timer goes to the free list if and only if there are fewer than 128 in it, and is deleted otherwise |
| TimerReturns.RemoveComesBack | Source/TimedEvent.cpp:410-453 | from every reachable state in which a thread is in RemoveTimer, some steps lead to its return: it waits for the callback that runs and for nothing else |
| SlabSizes.IndexIsLeast | Source/MemoryPools.cpp:230-242 | the size class is the least power of two from 8 to 16384 that is large enough; larger sizes, and no others, have none |
| SlabSizes.AndPredecessor | Source/MemoryPools.cpp:239-240 | n & (n - 1) is zero exactly for powers of two, bit by bit |
| SlabSizes.HighestBitIs | Source/MemoryPools.cpp:238 | _BitScanReverse brackets the size between two powers of two |
| SlabSizes.BlocksFit | Source/MemoryPools.cpp:257-322 | the blocks of a chunk lie inside its 64K behind the header, do not overlap, and lead back to the chunk by masking |
| SlabChunks.Header.ThreadBlocks | Source/MemoryPools.cpp:257-322 | the words written into a new chunk link all its blocks, in order of address |
| SlabChunks.Header.constructor | Source/MemoryPools.cpp:257-322 | a new chunk has all its blocks on the free list |
| SlabChunks.Header.Pop | Source/MemoryPools.cpp:257-322 | the first free block is taken; it was not live, and the words in memory still link the rest |
| SlabChunks.Header.Push | Source/MemoryPools.cpp:324-357 | a live block is put in front of the free list, by a write into its first word; no other word of the chunk changes |
| SlabChunks.Header.Write | Source/MemoryPools.cpp:389-407 | whatever the owner of a live block writes into it leaves the free list as it is |
| SlabChunks.Header.SanityCheck | Source/MemoryPools.cpp:389-407 | no assertion of the debug check fails: the tag is that of the address, the links through memory stay in the chunk, and dwFreeCount blocks are linked |
| SlabChunks.Header.Conservation | Source/MemoryPools.cpp:389-407 | free and live blocks add up to the blocks of the chunk |
| SlabLists.DlListInsertHead | Source/MemoryPools.cpp:202-210 | the circle with the item in front |
| SlabLists.DlListInsertTail | Source/MemoryPools.cpp:212-220 | the circle with the item at the end |
| SlabLists.DlListRemove | Source/MemoryPools.cpp:222-228 | the circle without the item, which is linked to itself |
| SlabBins.Bin.Alloc | Source/MemoryPools.cpp:257-322 | a block that was not live, from the first chunk in use, else the first free chunk, else a new one; null if and only if the system gives no memory and no chunk on the list in use or on the free list has a free block; all invariants are kept |
| SlabBins.Bin.HasFreeIff | Source/MemoryPools.cpp:264-280 | a chunk on those two lists has a free block if and only if one of the lists is not empty |
| SlabBins.Bin.Free | Source/MemoryPools.cpp:324-357 | exactly that block is no longer live, and of all memory only its first word changes; its chunk goes to the free list when it is wholly free, to the list in use when more than a quarter is |
| SlabBins.Bin.Write | Source/MemoryPools.cpp:257-357 | whatever the owner of a live block writes into it, at any time between the calls, leaves the bin valid and the same blocks live |
| SlabBins.Bin.ChunkKeeps | Source/MemoryPools.cpp:257-357 | in every reachable state the free list of each chunk is as long as dwFreeCount, distinct, aligned and linked through memory, free and live blocks add up, and the list a chunk is on fits: Free exactly if wholly free, InUse only with a free and a live block, Full with at most a quarter free |
| SlabBins.Bin.OnOneList | Source/MemoryPools.cpp:257-357 | each chunk is on exactly one of the three lists, once, and each list is a circle |
| SlabBins.Bin.LiveFits | Source/MemoryPools.cpp:257-322 | a live block is inside its chunk and apart from all other live blocks there |
| SlabManager.MemoryManager.constructor | Source/MemoryPools.cpp:76-91 | twelve bins, with blocks of 8 to 16384 bytes, as many in a chunk as fit behind the header, and nothing live |
| SlabManager.ClassFits | Source/MemoryPools.cpp:83-84 | in each class at least one block, and dwBlocksPerChunk blocks but not one more, fit behind the header |
| SlabManager.MemoryManager.Malloc | Source/MemoryPools.cpp:180-200 | for sizes up to 16384 null if and only if the system gives no memory and no chunk of the class has a free block on its list in use or free list, and if one has, the block is from memory that the manager has already; for larger sizes null exactly if the system gives none; else a block that was not live, apart from every live block, of exactly its class if it is binned and else of what the system gave behind the header; it has the size asked for if that and the header are below 2^64; all live blocks keep their words |
| SlabManager.MemoryManager.Free | Source/MemoryPools.cpp:127-147 | exactly that block is no longer live, and all other live blocks keep their words; null is ignored |
| SlabManager.MemoryManager.BlockSize | Source/MemoryPools.cpp:149-178 | the size of a live block, found by masking its address; 0 for null, and for a superblock that the system does not answer for |
| SlabManager.MemoryManager.Realloc | Source/MemoryPools.cpp:103-125 | null exactly when Malloc is, or for size 0; the new block is as large as asked, its first min(old, new) bytes are, word by word, those of the old block, which is released; on failure the old block stays; all other live blocks keep their words; it writes past the new block exactly if that is smaller than what is copied |
| SlabManager.MemoryManager.LiveInside | Source/MemoryPools.cpp:180-200 | every live block lies inside memory the manager has got, behind the header |
| SlabManager.MemoryManager.LiveApart | Source/MemoryPools.cpp:180-200 | any two live blocks, of any bins or superblocks, are apart |
| SlabManager.MemoryManager.Write | Source/MemoryPools.cpp:180-200 | what the owner writes into a live block changes no word of another live block, and leaves all as valid as it was |
| SlabManager.MemoryManager.KeptBut | Source/MemoryPools.cpp:103-147 | if nothing has been written but into one block, all other live blocks keep their words, in chunks and superblocks |
| SlabManager.MemoryManager.Copy | Source/MemoryPools.cpp:121 | the whole words copied are those of the other block, and no other live block changes |
| SlabManager.GrantHoldsIff | Source/MemoryPools.cpp:190-192 | whatever is granted holds the block and the header if and only if their sum is at most 2^64: at 2^64 the request is for 0 bytes, and refused |
| SlabManager.WrappedMalloc | Source/MemoryPools.cpp:190-200 | a failing input: Malloc(2^64 - 1) gives a block that is smaller |
| SlabManager.GrantFits | Source/MemoryPools.cpp:190-199 | new memory keeps all chunks and superblocks apart, at multiples of 64K |
| Rundown.EnterKeepsIff | Source/WaitableObjects.cpp:635-649 | an acquisition keeps the word right if and only if fewer than 0x7FFFFFFF hold the protection |
| Rundown.Overflow | Source/WaitableObjects.cpp:635-649 | with 0x80000000 users or more there is a run in which all of them enter and the high bit is set, although nobody closes |
| Rundown.StepKeeps | Source/WaitableObjects.cpp:635-675 | with fewer users than that, every step keeps: the low bits count the holders, the high bit says that it is closing, and a closer that is done leaves nobody inside |
| Rundown.RunKeeps | Source/WaitableObjects.cpp:635-675 | so in every reachable state |
| Rundown.BreaksIff | Source/WaitableObjects.cpp:635-675 | some run breaks the invariant if and only if there are 0x80000000 users or more |
| Rundown.ClosedForGood | Source/WaitableObjects.cpp:667-675 | once WaitForRelease has returned, nobody holds the protection, then or ever after |
| Rundown.OpenUntilClosed | Source/WaitableObjects.cpp:635-649 | until someone closes it, an acquisition that wins its exchange succeeds |
| Rundown.DoneStays | Source/WaitableObjects.cpp:667-675 | no step undoes the closing |
| RwLocks.EnterKeepsIff | Source/WaitableObjects.cpp:497-520 | a reader that enters keeps the count if and only if there are fewer than 0x7FFFFFFF others |
| RwLocks.StepKeeps | Source/WaitableObjects.cpp:497-625 | the low 31 bits count the shared holders, the high bit the one writer, and beside an exclusive holder there is no reader |
| RwLocks.RunKeeps | Source/WaitableObjects.cpp:497-625 | so in every reachable state |
| RwLocks.Overflow | Source/WaitableObjects.cpp:497-520 | with 0x80000000 guards or more there is a run in which all of them read and the bit of the writer is set, although nobody writes |
| RwLocks.BreaksIff | Source/WaitableObjects.cpp:497-625 | some run breaks the invariant if and only if there are 0x80000000 guards or more |
| RwLocks.ExclusiveAlone | Source/WaitableObjects.cpp:565-591 | an exclusive holder sees exactly 0x80000000 and is alone |
| RwLocks.Exclusion | Source/WaitableObjects.cpp:497-625 | in every run a writer is alone, and once its bit is set no reader enters |
| RwLocks.DrainSucceedsIff | Source/WaitableObjects.cpp:565-591 | the wait of a writer ends exactly when no reader is left |
| RwLocks.ChangesOver | Include/WaitableObjects.h:266-285 | a guard that upgrades or downgrades next has the other lock, not the one it gave up |
| RwProgress.NeverStuck | Source/WaitableObjects.cpp:497-625 | from every reachable state with fewer than 0x80000000 guards, some steps lead to a given guard having the lock for reading, and some to its having it for writing |
| HandlerOnDemand.LockKeeps | Include/WaitableObjects.h:248-291 | the steps of the lock, with the upgrade that drops the shared lock first, keep what each thread in Get or Shutdown relies on |
| HandlerOnDemand.TaskKeeps | Source/TimedEvent.cpp:295-334 | and so do the steps of Get and Shutdown |
| HandlerOnDemand.InstallsFirst | Source/TimedEvent.cpp:303-320 | a handler is installed only where there is none, although the upgrade is not atomic |
| HandlerOnDemand.StaysInstalled | Source/TimedEvent.cpp:295-334 | an installed handler stays until Shutdown |
| HandlerOnDemand.InstalledOnce | Source/TimedEvent.cpp:295-334 | between two installations there is a Shutdown |
| HandlerOnDemand.ReferencesCount | Source/TimedEvent.cpp:295-334 | in every reachable state the references to a handler are exactly those of callers that have got it, of the calls of Get about to install or return it, and that of the installed handler: it is destroyed when none is left and not before |
| HandlerOnDemand.ReturnsInstalled | Source/TimedEvent.cpp:324-325 | what Get returns is the handler that was installed when it took its reference, never null there, and from then to the return that reference is kept |
| HandlerOnDemand.ReturnsWhatItGot | Source/TimedEvent.cpp:295-326 | whatever a Get is about to return, it has got by a step of its own: the installed handler with a reference, or null, and that only if its own creation of a handler has failed |
| HandlerOnDemand.ReturnSame | Source/TimedEvent.cpp:295-334 | two calls of Get that take their references with no Shutdown in between return the same handler |
| HandlerProgress.GetComesBack | Source/TimedEvent.cpp:295-326 | from every reachable state, whoever has the lock or waits for it, some steps lead to the return of a Get of a given thread with a handler |
| TaskQueues.LocalKeeps | Source/TaskQueue.cpp:77-126 | what one thread does to the jobs it serves keeps the invariant of the others |
| TaskQueues.RundownKeeps | Source/TaskQueue.cpp:77-126 | the steps of the rundown word, taken by QueueTask and by the throttling callback, keep it |
| TaskQueues.PollKeeps | Source/TaskQueue.cpp:49-59 | Finalize comes to the shutdown of the pool only with no task counted |
| TaskQueues.StepKeeps | Source/TaskQueue.cpp:49-126 | every step keeps the invariant |
| TaskQueues.RunKeeps | Source/TaskQueue.cpp:49-126 | so in every reachable state |
| TaskQueues.AllDone | Source/TaskQueue.cpp:49-59 | at the shutdown every task that has been posted has run once, and its reference was taken and released once; one that has not never ran and holds no reference; nothing is left in the pool |
| TaskQueues.NotInside | Source/TaskQueue.cpp:77-99 | at the shutdown no QueueTask is past its rundown protection |
| TaskQueues.NoneAcceptedAfter | Source/TaskQueue.cpp:49-99 | no step after the shutdown accepts a task |
| TaskQueues.NoneAccepted | Source/TaskQueue.cpp:49-99 | so none is accepted in the rest of any run |
| TaskAnswers.StepKeepsAnswers | Source/TaskQueue.cpp:77-99 | every step keeps: what a QueueTask has returned, or is about to return, fits what has become of the task |
| TaskAnswers.AnswerIs | Source/TaskQueue.cpp:77-99 | in every reachable state QueueTask returns S_OK if and only if the task has been posted, the error of Post if and only if its reference was taken and given back, and MX_E_Cancelled only if Finalize has been called |
| TaskAnswers.NullPointerIff | Source/TaskQueue.cpp:82-83 | and E_POINTER if and only if it was given a null pointer, also when the queue is closing |
| TaskAnswers.ReturnedAllDone | Source/TaskQueue.cpp:49-99 | at the shutdown every QueueTask has returned, but for those that have still to find the queue closed; where it has returned S_OK the callback has run once and the reference was released once, where an error, the callback has never run |
| TaskProgress.ComesToShutdown | Source/TaskQueue.cpp:49-126 | from every reachable state, whatever is pending, some steps lead to the shutdown of the pool by a given Finalize |
| TaskCallbacks.StepKeepsCalls | Source/TaskQueue.cpp:77-126 | every step keeps: pending jobs of one task have one callback, which is in the task once it is stored; what has been called is what was asked for, if no QueueTask puts another callback in the place of a pending one |
| TaskCallbacks.CallsItsOwn | Source/TaskQueue.cpp:88-106 | then a job is only ever served with its own callback |
| TaskCallbacks.AllCalled | Source/TaskQueue.cpp:49-126 | and at the shutdown that has been called once for every accepted job |
| TaskCallbacks.MixedRun | Source/TaskQueue.cpp:88-106 | a failing run: one task is queued with two callbacks, and the second is called for the first job |
| TaskCallbacks.CallsAnotherIff | Source/TaskQueue.cpp:88-106 | some run calls a callback that was not given for the job if and only if a task may be queued while it is still to call another |
| ThreadPools.LocalKeeps | Source/Threads.cpp:450-722 | what one worker or the owner of the mutex does to an item keeps the invariant of the others |
| ThreadPools.PostKeeps | Source/Threads.cpp:525-582 | an item that cannot be posted is unlinked and freed, and QueueTask fails |
| ThreadPools.DequeueKeeps | Source/Threads.cpp:685-722 | an item that a worker takes from the port is its own, still in the list |
| ThreadPools.WorkKeeps | Source/Threads.cpp:685-722 | the worker unlinks, executes and frees it, each once |
| ThreadPools.SweepKeeps | Source/Threads.cpp:450-506 | Finalize takes an item that is left only when no worker can have it |
| ThreadPools.EnterKeeps | Source/Threads.cpp:450-459 | a call that OnTaskCancelled makes on the thread that owns the mutex keeps what Finalize relies on |
| ThreadPools.ReturnKeeps | Source/Threads.cpp:499-506 | and so does its return, with the port closed or open |
| ThreadPools.StartKeepsIff | Source/Threads.cpp:584-613 | starting a worker keeps the invariant if and only if it is not OnTaskCancelled that has called QueueTask |
| ThreadPools.StepKeeps | Source/Threads.cpp:450-722 | every step keeps the invariant, also QueueTask, Initialize and Finalize called in OnTaskCancelled, but for the start of a worker there |
| ThreadPools.RunKeeps | Source/Threads.cpp:450-722 | so it holds in every reachable state of a run in which no worker starts in OnTaskCancelled |
| ThreadPools.AtMostOnce | Source/Threads.cpp:525-722 | in such runs an item is executed or cancelled at most once, only if accepted, freed at most once, never while a worker has it, and a worker that takes it finds it untouched |
| ThreadPools.AllSettled | Source/Threads.cpp:450-506 | and when Finalize closes the port there are no workers, items or packets left, and every accepted item has been executed or cancelled, exactly one of the two, once, and freed once, but for those whose OnTaskCancelled has called this Finalize |
| ThreadPools.NothingQueued | Source/Threads.cpp:525-582 | in such runs a QueueTask made in OnTaskCancelled queues nothing: it cannot get by without a worker |
| ThreadPools.RefusedWhenClosed | Source/Threads.cpp:450-540 | after Finalize no QueueTask returns TRUE until Initialize opens the port again, in every run |
| ThreadProgress.NudgeReaches | Source/Threads.cpp:462-472 | the packet that Finalize posts can be taken by every worker that waits, also without a timeout |
| ThreadProgress.FinalizeCloses | Source/Threads.cpp:450-506 | from every reachable state in which Finalize waits for the workers, some steps lead to the close of the port |
| ThreadProgress.FreshTakes | Source/Threads.cpp:694-704 | a worker that QueueTask has started does not end before it has taken a packet |
| ThreadHooks.RefusedRun | Source/Threads.cpp:480-492 | a failing run: a QueueTask made in OnTaskCancelled starts a worker and then fails; the worker finds the packet of the item that is being cancelled, executes it and frees it |
| ThreadHooks.QueuedRun | Source/Threads.cpp:480-492 | another: OnTaskCancelled queues an item, which Finalize cancels while a worker executes and frees it |
| ThreadHooks.SettlesTwiceIff | Source/Threads.cpp:450-722 | some run settles an item twice if and only if a worker may start in a QueueTask made in OnTaskCancelled, whether or not anything can be posted there |
| CircularBuffers.RoundsUpIff | Source/CircularBuffer.cpp:253-297 | rounding to 4096 gives a size that is large enough if and only if it does not wrap |
| CircularBuffers.Partition | Source/CircularBuffer.cpp:68-153 | the filled and the free stretches, laid end to end, are the whole buffer |
| CircularBuffers.EmptyFirst | Source/CircularBuffer.cpp:100-113 | advancing over n bytes drops the first n, also across the end of the buffer |
| CircularBuffers.FillMore | Source/CircularBuffer.cpp:155-163 | and claiming n free bytes appends them |
| CircularBuffers.FillTwice | Source/CircularBuffer.cpp:204-239 | bytes written in two pieces, over the end of the buffer, are the next free ones, and what was in it is kept |
| CircularBuffers.CircularBuffer.GetReadPtr | Source/CircularBuffer.cpp:68-98 | the two stretches, one behind the other, are the contents |
| CircularBuffers.CircularBuffer.GetWritePtr | Source/CircularBuffer.cpp:115-153 | the two stretches are the free places, in the order in which they will be filled |
| CircularBuffers.CircularBuffer.Find | Source/CircularBuffer.cpp:39-66 | the least matching index from the start position on, or not found if there is none |
| CircularBuffers.CircularBuffer.AdvanceReadPtr | Source/CircularBuffer.cpp:100-113 | removes a prefix, or fails and changes nothing |
| CircularBuffers.CircularBuffer.AdvanceWritePtr | Source/CircularBuffer.cpp:155-163 | appends what is in the free places, or fails and changes nothing |
| CircularBuffers.CircularBuffer.GetAvailableForRead | Source/CircularBuffer.cpp:165-171 | the number of bytes held |
| CircularBuffers.CircularBuffer.Peek | Source/CircularBuffer.cpp:173-192 | copies a prefix, as long as asked or as there is, and removes nothing |
| CircularBuffers.CircularBuffer.Read | Source/CircularBuffer.cpp:194-202 | copies the prefix and removes it |
| CircularBuffers.CircularBuffer.Write | Source/CircularBuffer.cpp:204-239 | appends the bytes, growing the buffer if that is allowed, to twice its size if that is enough, or fails with the right error and leaves the contents; it overruns the buffer exactly if the size to grow to wraps when it is rounded |
| CircularBuffers.CircularBuffer.EnsureWritableSize | Source/CircularBuffer.cpp:241-251 | keeps the contents, unless the size that it takes wraps to 0; on success there is room for the bytes asked for exactly if there was, or the size with its rounding does not wrap; a buffer that is not empty overruns exactly if the rounding wraps |
| CircularBuffers.CircularBuffer.SetBufferSize | Source/CircularBuffer.cpp:253-297 | keeps the contents across wrap-around, and refuses to cut them; size 0 empties the buffer; if the rounding wraps, an empty buffer gets size 0 and another overruns, and only then |
| CircularBuffers.CircularBuffer.FitsIff | Source/CircularBuffer.cpp:276-289 | the rounded size holds the contents that SetBufferSize copies into it if and only if the rounding does not wrap or the buffer is empty |
| MemoryObjects.MxMemMove | Source/MemoryObjects.cpp:436-495 | for every overlap, alignment and length the destination is the old source range and all other memory is unchanged |
| MemoryObjects.MxMemCopy | Source/MemoryObjects.cpp:414-434 | the same where the destination does not start inside the source; where it does, d bytes behind its start, the first d bytes of the source are repeated over the destination |
| MemoryObjects.MovedInside | Source/MemoryObjects.cpp:436-495 | byte for byte: each byte of the destination is the byte of the source before the call |
| MemoryObjects.MxMemCompare | Source/MemoryObjects.cpp:497-519 | zero exactly for equal ranges, negative or positive exactly as the first difference says |
| MemoryObjects.FirstDecides | Source/MemoryObjects.cpp:497-519 | the first difference decides the lexicographic order of two ranges |
| MemoryObjects.MxMemSet | Source/MemoryObjects.cpp:382-412 | every byte of the range gets the low byte of the value, and no other byte changes |
| MemoryObjects.ShiftedIs | Source/MemoryObjects.cpp:389-393 | three shifts and additions repeat the byte in all eight bytes of the word |
| MemoryObjects.RepeatedByte | Source/MemoryObjects.cpp:389-393 | each byte of that word is the byte |
| ArrayLists.ArrayList.SetSize | Include/ArrayList.h:182-232 | elements are kept through reallocation; a forced smaller size deletes the rest; on failure nothing changes |
| ArrayLists.ArrayList.InsertElementAt | Include/ArrayList.h:61-71 | the element at its place, at the end if the index is beyond it, or nothing changes |
| ArrayLists.ArrayList.SetElementAt | Include/ArrayList.h:53-59 | replaces one element, if the index is inside |
| ArrayLists.ArrayList.GetElementAt | Include/ArrayList.h:137-141 | the element at the index |
| ArrayLists.ArrayList.SortedInsert | Include/ArrayList.h:73-102 | in an array that the element can be searched in, it goes before all equal ones; without duplicates it is refused exactly if an equal one exists, and nothing changes |
| ArrayLists.ArrayList.BinarySearch | Include/ArrayList.h:111-135 | finds an equal element if and only if one exists; an index it returns is always a match |
| ArrayLists.ArrayList.RemoveElementAt | Include/ArrayList.h:291-307 | takes out up to n elements, finalized if asked; refused exactly if the index is beyond the end, n is 0 or the sum wraps |
| ArrayLists.ArrayList.RemoveAllElements | Include/ArrayList.h:309-319 | nothing is left and every element was deleted once, in order |
| ArrayLists.InsertLowerKeepsSorted | Include/ArrayList.h:73-102 | insertion there keeps a sorted array sorted, and a strictly sorted one strictly so if there was no equal element |
| ArrayLists.RemoveStrictly | Include/ArrayList.h:291-307 | removal keeps an array strictly sorted |
| Names.StrCompareIs | Source/Strings/Strings.cpp:79-97 | the comparison of names is the lexicographic order of their forms in lower case |
| Names.SameKeys | Source/Strings/Strings.cpp:139-148 | two names have the same form in lower case if and only if they are as long and differ, place by place, at most between an upper-case and a lower-case letter of ASCII, 32 apart |
| Names.ComparesNames | Source/Strings/Strings.cpp:79-97 | names compare equal if and only if they differ in that way alone; a name is less if and only if, where they first differ otherwise, it ends or has the character with the lower code, letters taken as lower-case |
| Names.NamesAreOrdered | Source/Strings/Strings.cpp:79-97 | it is a total order, and zero exactly for names with the same form in lower case |
| PropertyBags.Searchable | Source/PropertyBag.cpp:427-430 | a strictly sorted list can be searched for any name |
| PropertyBags.PropertyBag.Find | Source/PropertyBag.cpp:427-430 | finds the property whose name differs at most in the case of ASCII letters, if and only if there is one |
| PropertyBags.PropertyBag.Insert | Source/PropertyBag.cpp:412-425 | the map with that name set; the list stays strictly sorted, through reallocation; without memory nothing changes |
| PropertyBags.PropertyBag.Set | Source/PropertyBag.cpp:62-225 | the map with that name set to the value, or the right error and no change |
| PropertyBags.PropertyBag.Get | Source/PropertyBag.cpp:316-409 | the value of that name, if it is a value of the kind asked for, and else the default, with the right error |
| PropertyBags.PropertyBag.GetKind | Source/PropertyBag.cpp:243-254 | the kind of the property, Undefined if there is none |
| PropertyBags.PropertyBag.Clear | Source/PropertyBag.cpp:45-60 | the map without that name, or NotFound |
| PropertyBags.PropertyBag.Reset | Source/PropertyBag.cpp:39-43 | the map is empty |
| PropertyBags.SetThenGet | Source/PropertyBag.cpp:45-60 | after a set, a get by any name that differs in the case of ASCII letters alone returns the value, any other name is as before, and after a clear by such a name the property is gone |
| LinkedLists.LinkedList.Remove | Include/LinkedList.h:82-97 | the sequence without the node, which is on no list |
| LinkedLists.LinkedList.PushHead | Include/LinkedList.h:99-113 | the node in front |
| LinkedLists.LinkedList.PushTail | Include/LinkedList.h:115-129 | the node at the end |
| LinkedLists.LinkedList.PushAfter | Include/LinkedList.h:131-154 | the node directly behind the given one; null stands for the front |
| LinkedLists.LinkedList.PushBefore | Include/LinkedList.h:156-179 | the node directly in front of the given one; null stands for the end |
| LinkedLists.LinkedList.PopHead | Include/LinkedList.h:191-199 | takes the first node, if any |
| LinkedLists.LinkedList.PopTail | Include/LinkedList.h:201-209 | takes the last node, if any |
| LinkedLists.LinkedList.RemoveAll | Include/LinkedList.h:211-216 | the list is empty and every node it had is on no list |
| LinkedLists.Iterator.Next | Include/LinkedList.h:226-251 | hands out the kept node and keeps its successor |
| LinkedLists.IteratorRev.Next | Include/LinkedList.h:256-281 | hands out the kept node and keeps the one before |
| LinkedLists.Sweep | Include/LinkedList.h:226-251 | a pass that takes off any of the nodes as it is handed them still visits each once, in order |
| LinkedLists.SweepBack | Include/LinkedList.h:256-281 | the same backwards |
| PacketLists.PacketList.QueueFirst | Include/Comm/IpcCommon.h:485-492 | the packet in front; null is ignored |
| PacketLists.PacketList.QueueLast | Include/Comm/IpcCommon.h:494-501 | the packet at the end; null is ignored |
| PacketLists.PacketList.DequeueFirst | Include/Comm/IpcCommon.h:503-511 | the first packet, if any |
| PacketLists.PacketList.QueueSorted | Include/Comm/IpcCommon.h:513-530 | the packet directly behind the last one with a smaller order |
| PacketLists.PacketList.Dequeue | Include/Comm/IpcCommon.h:532-548 | the first packet exactly if it has the order asked for; else nothing changes |
| PacketLists.PacketList.Remove | Include/Comm/IpcCommon.h:550-555 | the list without that packet |
| PacketLists.PacketList.GetCount | Include/Comm/IpcCommon.h:557-560 | the number of packets |
| PacketLists.PacketList.DiscardAll | Include/Comm/IpcCommon.h:476-483 | the list is empty |
| PacketLists.QueuedIncreasing | Include/Comm/IpcCommon.h:513-530 | queueing a new order keeps the orders strictly increasing and adds exactly that one |
| PacketLists.ComesOutInOrder | Include/Comm/IpcCommon.h:513-548 | packets with distinct orders, however they arrive and however the calls of Dequeue are interleaved, come out as consecutive orders; what has arrived is either out or still queued, none twice and none lost |
| PacketLists.AskSucceedsIff | Include/Comm/IpcCommon.h:532-548 | asking for the next order succeeds if and only if that packet has arrived |
| PacketLists.Deliver | Include/Comm/IpcCommon.h:513-548 | the list itself: events given to a PacketList one by one leave in it, and hand out, exactly what the run says |

## Left out

- RwLocks.RunKeeps: for fewer than 0x80000000 guards, because beyond that the count overflows (`RwLocks.BreaksIff`); the same holds for Rundown.RunKeeps, TaskQueues.RunKeeps and HandlerOnDemand.RunKeeps.
- TimerSafety.NeverAfterRemoval: about the call that has taken the id, on another thread; `TimerProgress.ReturnEndsIt` and `TimerProgress.MayStartIff` are about the others. Timer ids do not wrap, because an id that comes round again while the first is in use would break the array by id; each id is held by one variable.
- TimerEngine.DoCancel: the binary search by id is modelled by what it finds; the search itself is `ArrayLists.ArrayList.BinarySearch`.
- Timer handler: the destructor, sleeping and spinning; time is any nondecreasing number of 100 ns units. That a timer can fire is proved, not that it fires in time.
- FastLock_*: a critical section under it is one step.
- RwLocks: the branch that uses the locks of the system; fairness; waiting with a timeout.
- ThreadPools.AtMostOnce: only for runs in which no worker starts in OnTaskCancelled, because of `ThreadHooks.SettlesTwiceIff`; the same holds for ThreadPools.RunKeeps and ThreadPools.AllSettled.
- ThreadPools: how many workers QueueTask starts (at least one if there are none, as fewer than 2^31 are in use), the array of thread handles, structured exceptions.
- TaskQueues: the pool below the queue is a set of packets, each delivered once; its own threads and its limit of threads are not modelled; a callback that queues a task counts as another thread.
- SlabManager.MemoryManager.Realloc: of a word that is copied in part, nothing is said; words are eight bytes.
- Slab allocator: the header of 64-bit builds only (48 bytes), page protection, the tags of superblocks, CBin::Cleanup; the system places new memory at a multiple of 64K away from all other.
- CCircularBuffer::ReArrangeBuffer, which has no contract that keeps the contents.
- Memory primitives: addresses are offsets into one array, words are eight bytes; the debug heap.
- Null comparison functions, which the array list answers with FALSE or not found.
- ArrayList: Attach, Detach, Transfer, ReserveBlock, PopBlock, SetCount, GetIndexOf, and the growth of the block beyond its rounding.
- PropertyBags.PropertyBag.Add: fewer than 2^64 - 1 properties; the same holds for Insert and Set.
- PropertyBag: the getters by index, the memory of the single properties; names are without NUL, and upper and lower case differ for ASCII letters alone.
- LinkedLists.Node: carries the order of the packet that it is part of.
- PacketLists.ComesOutInOrder: packet orders do not wrap; GetCountOfType and the lock of the list are left out.
- HTTP, WebSocket, SSL, databases, dates, encodings and JavaScript, of which only declarations are there.
