# Halcyon: a verified model of the kernel's resource crates

Halcyon is a RISC-V kernel whose resource bookkeeping lives in small crates: page tables, the frame
pool, address spaces and memory objects, waiting and timers, work debts, remote calls, the ordered
table, memory pools and funded frames, the boot-time memory plan and the clock. This project models
those crates in Dafny and proves what their callers rely on. Objects that the crates update in place
are classes with the same fields and loops; each method is proved against a function on values, and
the properties that span calls are lemmas about those functions, over every input, every reachable
state or every run.

`dafny verify dfyconfig.toml` checks all of it.

## Layout

| modules | what they model |
|---|---|
| `Pte`, `PageTree`, `PageTreeEdit`, `PageTreeMap`, `PageTreeRun`, `PageCheck`, `PagePlan`, `PageBatch` | page-table entries, the tree as a value, its edits, preflight and publishing |
| `PageMemory`, `PageJob`, `PageMapJob`, `PageRunJob`, `PageDrain`, `TableTree` | the same tree in raw memory, edited in place |
| `OrderTree`, `OrderBytes`, `FrameBlocks`, `FrameInventory`, `FramePool` | the frame pool, from trees of free orders to the byte array |
| `SpaceLedger`, `SpacePieces`, `SpaceCover`, `SpaceState`, `SpaceCommit`, `SpaceRun`, `SpaceReserve`, `SpaceValid`, `SpaceMap`, `SpacePermits`, `SpaceChecks`, `SpaceShared`, `SpaceHistory`, `SpaceWitness`, `MemorySpace` | address-space changes: validate, reserve, commit, publish, synchronize, retire |
| `ObjectState`, `WriteXorExecute` | memory objects, write permits and the worlds made of objects and spaces |
| `WaitCore`, `TimeoutRace`, `TimeoutQueue`, `TimerHeap`, `TimerQueue` | wait rounds and their timeouts |
| `DebtQueues`, `WorkDebts`, `DebtLedger` | work debts and the counters of the ledger above them |
| `RemoteTable`, `RemoteRun` | remote calls between harts |
| `AvlTree`, `OrderedTable` | the ordered table |
| `MemoryPool`, `PoolForest`, `FundedFrames` | page accounts, forests of pools, frames paid from them |
| `SupplyRanges`, `MemorySupply`, `SupplyPlan` | the partition of physical memory at boot |
| `ClockGeometry` | ticks and deadlines |

Concurrent code (`WaitCore`, `TimeoutRace`, `RemoteRun`) is a state machine whose steps are the
atomic accesses, with any number of threads; a run is any sequence of enabled steps. `WriteXorExecute`,
`SpaceHistory` and `PoolForest` are runs over whole systems, from the empty one.

## Model

| member | source | states |
|---|---|---|
| `PagePlan.PublishMeaning` | os/page_table/src/lib.rs:682-721 | For every well-formed tree, every plan that passed preflight and every page, the translation after publishing is the one the plan means: mapped pages get their target, unmapped ones none, protected ones the new flags, and every other page and every page under a shared root slot keeps what it had. |
| `PagePlan.PublishExact` | os/page_table/src/lib.rs:887-923 | Preflight is exact: publishing uses exactly the number of tables preflight counted, from the end of the supply, and retires exactly the number it counted. |
| `PagePlan.PublishLinks` | os/page_table/src/lib.rs:682-721 | For every frame, the times it is linked in the tree, unused in the supply or retired add up to the same number before and after: no table is lost, leaked or linked twice. |
| `PagePlan.PublishWf` | os/page_table/src/lib.rs:682-721 | Publishing keeps the tree well formed: every leaf aligned to its level with admitted flags, and every frame number within what an entry can hold. |
| `PagePlan.PublishKeepsShared` | os/page_table/src/lib.rs:682-721 | No root slot attached from another tree is altered by any plan. |
| `PagePlan.MapThenUnmap` | os/page_table/src/lib.rs:682-721 | Mapping a free run and unmapping the same run restores the translation of every page, although tables were made and leaves split in between. |
| `PageTreeMap.SegLevel` | os/page_table/src/lib.rs:1392-1400 | The level chosen is the highest at which both page numbers are aligned and the segment still fits. |
| `PageTreeEdit.SplitFlat` | os/page_table/src/lib.rs:1105-1127 | Cutting a leaf into 512 leaves one level down changes the translation of no page. |
| `PageTreeEdit.TableFlat` | os/page_table/src/lib.rs:1243-1296 | An unmap or protect walk edits every owned page of the range and leaves every other page alone, splitting leaves at both ends. |
| `PageTreeEdit.TableUse` | os/page_table/src/lib.rs:1129-1185 | The walk takes exactly the tables the range preflight counts. |
| `PageTreeEdit.TableFreedExact` | os/page_table/src/lib.rs:1187-1241 | An unmap retires exactly the tables preflight predicts will become empty; a protect retires none. |
| `PageTreeMap.TableMapKeepsOk` | os/page_table/src/lib.rs:1025-1076 | Writing one segment leaves every other segment of the same run admissible, so a run that passed its check cannot fail half way. |
| `PageTreeRun.RunFlat` | os/page_table/src/lib.rs:1005-1023 | Publishing a run segment by segment maps every page of the run to its target and changes no other page. |
| `PageTreeRun.RunUse` | os/page_table/src/lib.rs:925-959 | A run takes exactly the tables missing from the tree it was checked against, each counted once however many segments pass through it. |
| `PageCheck.TableVerdict` | os/page_table/src/lib.rs:1129-1185 | For a range that holds a page, the protect preflight passes exactly when every page of it is owned, mapped and has the expected flags; otherwise its error names the first page that is not and says why. |
| `PageCheck.EmptyVerdict` | os/page_table/src/lib.rs:1129-1185 | For a range of no pages the preflight passes if and only if the page at its start is fit, or is the first page of the slot its walk ends in. |
| `PagePlan.EmptyProtectRefused` | os/page_table/src/lib.rs:1129-1185 | In a tree with nothing mapped, a protect of no pages is refused if and only if it starts inside a root slot and not at its first page. |
| `PagePlan.EmptyProtectOfNewTree` | os/page_table/src/lib.rs:1129-1185 | The first such input: in a new tree a protect of no pages from page 1 on is refused as not mapped at page 1, whatever its flags. |
| `PageBatch.StaysReady` | os/page_table/src/lib.rs:628-666 | A plan that was prepared against a tree is still ready, with the tables it was given, after another plan of the batch clear of it has been published. |
| `PageBatch.BatchMeaning` | os/page_table/src/lib.rs:628-666 | Publishing a batch of pairwise disjoint prepared plans of one kind gives every page exactly what the one plan that touches it means, and changes no page that none touches, in whatever order they come. |
| `TableTree.TableTree.constructor` | os/page_table/src/lib.rs:505-522 | A new tree has an empty root and owns nothing. |
| `TableTree.TableTree.Preflight` | os/page_table/src/lib.rs:887-923 | The loops over the raw tables return what the preflight function of the tree says, with the error it names, and stamp the token with the generation seen. |
| `TableTree.TableTree.Prepare` | os/page_table/src/lib.rs:578-618 | Preparing checks the plan again; on refusal every supplied frame is handed back and the error says whether the plan fails, frames are short or memory is; on success the change can be published at this generation. |
| `TableTree.TableTree.PublishPrepared` | os/page_table/src/lib.rs:669-680 | Publishing a prepared plan at its generation cannot fail: every translation becomes what the plan means, shared slots stay, unused and retired frames are as many as preflight said, and owners, unused and retired frames together are exactly the owners and supplied frames before. |
| `TableTree.TableTree.PublishBatch` | os/page_table/src/lib.rs:628-666 | The loop publishes prepared plans of one kind, clear of one another, as one generation: every page becomes what the one plan that touches it means, every other page stays, and owners, unused and retired frames together are exactly the owners and supplied frames before. |
| `TableTree.TableTree.UnmapRange` | os/page_table/src/lib.rs:1243-1296 | The recursive in-place walk over raw words leaves the tree, the supply and the owner ledger that the edit function defines, and says whether the table is empty. |
| `TableTree.TableTree.ProtectRange` | os/page_table/src/lib.rs:1299-1357 | The same for protect. |
| `TableTree.TableTree.PublishMap` | os/page_table/src/lib.rs:1005-1023 | The segment loop leaves the tree and supply that the run function defines, and the owned root slots of that tree. |
| `TableTree.TableTree.Translate` | os/page_table/src/lib.rs:851-875 | Walking the raw words gives the frame, flags and level the tree holds for the page, and nothing outside the address space. |
| `TableTree.TableTree.AttachSharedRoot` | os/page_table/src/lib.rs:731-761 | Entries are attached all or none; each of the three errors is returned exactly in its case, and then nothing changes. |
| `TableTree.TableTree.DrainOne` | os/page_table/src/lib.rs:776-834 | Each step lowers the number of steps left by exactly one, hands out at most one owner and never touches a shared slot. |
| `TableTree.TableTree.Drain` | os/page_table/src/lib.rs:776-834 | Draining ends and hands out every owned table exactly once. |
| `TableTree.TableTree.FinishDrain` | os/page_table/src/lib.rs:837-849 | A drained tree owns nothing but its root, which is given up. |
| `OrderTree.PutMeaning` | os/frame_pool/src/lib.rs:409-481 | Taking or releasing one aligned block flips exactly its frames and keeps every node byte equal to the largest free block below it. |
| `OrderTree.PickFits` | os/frame_pool/src/lib.rs:383-407 | The descent for a free block of an order always ends at an aligned block that is wholly free. |
| `OrderTree.PickIsLowest` | os/frame_pool/src/lib.rs:383-407 | No free block of that order in the tree starts lower. |
| `OrderTree.AllFreeMeans` | os/frame_pool/src/lib.rs:425-440 | The top-down test is true exactly when every frame of the block is free. |
| `OrderTree.SomeFreeMeans` | os/frame_pool/src/lib.rs:442-460 | The top-down test is true exactly when some frame of the block is free. |
| `OrderBytes.PutBytesIsPut` | os/frame_pool/src/lib.rs:362-375 | Writing bytes down one path of the flat array and merging upwards yields the bytes of the tree after the operation. |
| `FrameBlocks.CutTiles` | os/frame_pool/src/lib.rs:589-604 | The blocks of a range are aligned, adjacent, and tile it exactly. |
| `FrameBlocks.CutIsMountain` | os/frame_pool/src/lib.rs:589-604 | Their orders rise strictly and then fall strictly. |
| `FrameBlocks.CutLength` | os/frame_pool/src/lib.rs:581-587 | A range is cut into at most 128 blocks. |
| `FrameBlocks.CutBytes` | os/frame_pool/src/lib.rs:25-27 | Their trees together need two bytes for each frame. |
| `FrameBlocks.ForEachBlock` | os/frame_pool/src/lib.rs:589-604 | The loop yields those blocks. |
| `FramePool.FramePool.TakeAny` | os/frame_pool/src/lib.rs:383-407 | The block taken is the first the tree offers, and the bytes become those of the tree without it. |
| `FramePool.FramePool.BlockIsFree` | os/frame_pool/src/lib.rs:425-440 | True exactly when all frames of the block are free. |
| `FramePool.FramePool.BlockHasFree` | os/frame_pool/src/lib.rs:442-460 | True exactly when some frame of the block is free. |
| `FramePool.FramePool.RangeIsManaged` | os/frame_pool/src/lib.rs:492-500 | True exactly when every frame of the range belongs to some arena. |
| `FramePool.FramePool.RangeIsUniform` | os/frame_pool/src/lib.rs:502-536 | The two range tests decide whether the whole range, across arenas, is managed and free, or managed and not free. |
| `FramePool.FramePool.PutRange` | os/frame_pool/src/lib.rs:538-559 | Taking or releasing a range block by block across arenas changes the free set by exactly that range. |
| `FramePool.FramePool.AllocAt` | os/frame_pool/src/lib.rs:286-301 | Succeeds exactly when the range is nonempty and wholly free; then the free set loses exactly it, and otherwise nothing changes. The counter always equals the size of the free set. |
| `FramePool.FramePool.Dealloc` | os/frame_pool/src/lib.rs:307-323 | A managed range that is not free joins the free set. |
| `FramePool.FramePool.ReleaseRange` | os/frame_pool/src/lib.rs:326-348 | Succeeds exactly when the range is nonempty, managed and disjoint from the free set; otherwise nothing changes. |
| `FramePool.FramePool.AllocOrder` | os/frame_pool/src/lib.rs:236-250 | Fails exactly when no arena has a free aligned block of the order; otherwise takes the lowest one of the first arena that has any. |
| `FramePool.FramePool.AllocLargest` | os/frame_pool/src/lib.rs:255-282 | Fails only for a zero request or an empty pool; otherwise takes a block of the largest order that is free anywhere, capped by the request. |
| `FramePool.FramePool.AddManagedRegion` | os/frame_pool/src/lib.rs:168-221 | Each refusal is returned exactly in its case and changes nothing; success makes exactly the range managed and none of it free. With the full arena table none of the first sixteen regions is refused for arenas. |
| `FramePool.FramePool.AddRegion` | os/frame_pool/src/lib.rs:224-233 | A region added is managed and wholly free. |
| `SpaceCover.CoveredIndices` | os/memory_space/src/space.rs:1568-1605 | The scan succeeds exactly when every address of the range is mapped, owned and of an admitted kind; its error is the fault of the first address that is not. |
| `SpaceCover.FindHole` | os/memory_space/src/space.rs:1523-1555 | The hole found is the lowest one that fits between all regions and changes in flight; Conflict means that none fits anywhere. |
| `MemorySpace.MemorySpace.ClassifyFault` | os/memory_space/src/space.rs:718-732 | A faulting address is free, a guard or mapped with a protection, as the regions say. |
| `SpacePieces.UnmapView` | os/memory_space/src/space.rs:891-971 | The pieces that replace the covered regions hold what was there outside the range and nothing inside it. |
| `SpacePieces.ProtectView` | os/memory_space/src/space.rs:973-1138 | The pieces that replace the covered regions differ only in the current protection inside the range. |
| `SpacePieces.NormalizedSame` | os/memory_space/src/space.rs:1955-1972 | Coalescing keeps what every address says. |
| `MemorySpace.MemorySpace.ValidateUnmap` | os/memory_space/src/space.rs:891-971 | Accepted if and only if the range is admissible, every address of it is owned, and there is room for one more region in case the range lies strictly inside one; RegionLimit only for lack of that room, any other error names the first address at fault. An accepted plan keeps its promises whatever happens before it is reserved. |
| `MemorySpace.MemorySpace.ValidateProtect` | os/memory_space/src/space.rs:973-1138 | The same for protect, with merging into compatible neighbours; permission is denied exactly when the range is covered and some address of it can never have the protection, Busy and RegionLimit exactly when the plan for the regions found, with every neighbour that merges, is in the way of another change or has no room. |
| `MemorySpace.MemorySpace.ValidateMap` | os/memory_space/src/space.rs:734-889 | Every refusal is returned exactly in its case, in the order of the code, the lease being judged at the place chosen; the request is accepted if and only if none applies. An accepted plan covers guards and usable pages rounded up, at the lowest hole when no place is asked for, and keeps its promises. |
| `MemorySpace.MemorySpace.ValidateUserWriteLease` | os/memory_space/src/space.rs:1607-1663 | A lease is accepted if and only if it is small enough, within bounds, clear of every change in flight, writable at every address and spread over few enough regions; then its segments cover the range. LeaseInvalid names an address of the range that is not writable, and LeaseTooLarge means more bytes or more regions than the limit. |
| `SpaceChecks.CheckReservation` | os/memory_space/src/space.rs:1207-1251 | The checks made one after the other return the first refusal that applies. |
| `SpacePermits.PermitRequirements` | os/memory_space/src/space.rs:1844-1877 | One requirement for each object written, counting all writable pieces and those that are new writers. |
| `SpacePermits.PermitsMatch` | os/memory_space/src/space.rs:1879-1891 | True exactly when the permits are, as a multiset, those required. |
| `SpaceReserve.ReserveKeeps` | os/memory_space/src/space.rs:1142-1205 | A reservation that is not refused keeps the invariant of the whole space, for every set of changes already in flight. |
| `MemorySpace.MemorySpace.Reserve` | os/memory_space/src/space.rs:1142-1205 | Refuses exactly in the stated cases and then changes nothing; otherwise the change is in flight with its keys, allocations and permits, and can commit. |
| `MemorySpace.MemorySpace.Rollback` | os/memory_space/src/space.rs:1390-1401 | The regions are untouched, room and footprint are free again, and the permits taken for the change are returned. |
| `SpaceRun.CommitMeans` | os/memory_space/src/space.rs:1404-1436 | After a commit every address says exactly what the change asked for, given what it said before. |
| `SpaceRun.CommitOutside` | os/memory_space/src/space.rs:1404-1436 | Outside its footprint a commit changes nothing. |
| `SpaceRun.CommitTranslates` | os/memory_space/src/space.rs:1404-1436 | Carrying out the translation intents turns the old translation of every address into the one the new regions ask for. |
| `SpaceRun.CommitKeeps` | os/memory_space/src/space.rs:1404-1436 | A commit keeps the invariant of the space, whatever other changes are reserved or in flight. |
| `SpaceRun.CommitThenCommit` | os/memory_space/src/space.rs:1404-1436 | After one change commits, another that could commit still can if and only if the two take out no common region. |
| `SpaceRun.LeasePinned` | os/memory_space/src/space.rs:1607-1663 | While a change is reserved, every address of its lease is mapped writable to the byte its segment names, through every step of the others. |
| `MemorySpace.MemorySpace.Commit` | os/memory_space/src/space.rs:1404-1436 | The loops over keys and regions leave exactly the committed state; every address says what the change asked for and the permits of the regions taken out are returned. |
| `MemorySpace.MemorySpace.BeginRetire` | os/memory_space/src/space.rs:1456-1471 | Fragments and permits to retire are handed out once; the token keeps none of them. |
| `MemorySpace.MemorySpace.FinishRetire` | os/memory_space/src/space.rs:1473-1484 | A change is retired only when nothing is left of what was handed out. |
| `MemorySpace.MemorySpace.DrainOne` | os/memory_space/src/space.rs:1493-1511 | The last region leaves with its fragment and permit; nothing is returned exactly when the space is empty. |
| `SpaceShared.SharedMeansTwoUnmaps` | os/memory_space/src/space.rs:1665-1684 | Two changes in flight that take out a common region, one of which can still commit, are both unmaps. |
| `SpaceShared.TwoUnmapsOfOneMapping` | os/memory_space/src/space.rs:1404-1436 | In a space with one mapping of three pages, unmaps of the first and of the last page are both admitted, the first commits, and the second cannot find its region. |
| `SpaceWitness.TwoUnmapsInARun` | os/memory_space/src/space.rs:1404-1436 | Some run from the empty world, mapping, reserving two unmaps and committing one, reaches a reserved change that cannot commit. |
| `SpaceHistory.CommitExactly` | os/memory_space/src/space.rs:1404-1436 | In every run from an empty world, a reserved change can commit if and only if no change committed since it was reserved took out one of its regions. |
| `SpaceHistory.UnsharedAlwaysCommits` | os/memory_space/src/space.rs:1404-1436 | In every run in which no two reserved changes of a space ever share a region, every reserved change can commit at every point. |
| `ObjectState.MemoryObjectState.ReserveWrites` | os/memory_space/src/object.rs:166-203 | Permits are granted or refused as the object state and limit say, and a refusal changes nothing. |
| `ObjectState.MemoryObjectState.Seal` | os/memory_space/src/object.rs:217-230 | Sealing publishes at once exactly when no permit is out. |
| `ObjectState.MemoryObjectState.ReleaseOne` | os/memory_space/src/object.rs:232-240 | The last permit of a sealing object publishes it, exactly once. |
| `WriteXorExecute.StepKeeps` | os/memory_space/src/object.rs:104-251 | Every step of every object, space and caller keeps the count: permits out of an object are exactly those held by regions, reserved changes, committed changes and callers. |
| `WriteXorExecute.RunKeeps` | os/memory_space/src/object.rs:104-251 | That count is right at every point of every run from the empty world. |
| `WriteXorExecute.PermitAccounted` | os/memory_space/src/object.rs:232-240 | A permit in a caller's hands can always be released: the count it is taken from is not zero. |
| `WriteXorExecute.WriteXorExecuteForever` | os/memory_space/src/object.rs:243-250 | Once some space maps an object executable, at no later point of the run does any region, change or caller hold a permit to write it. |
| `WaitCore.RunKeeps` | os/wait_context/src/lib.rs:164-396 | In every interleaving of atomic steps of any number of threads, restarts and spurious compare-exchange failures, the protocol invariant holds. |
| `WaitCore.WordsFit` | os/wait_context/src/lib.rs:35-50 | In every run both packed words fit 64 bits: the last epoch is never left. |
| `WaitCore.PackedTells` | os/wait_context/src/lib.rs:44-50 | Packed words are equal exactly when the rounds, phases and flags in them are, so comparing words compares rounds. |
| `WaitCore.RestartRefused` | os/wait_context/src/lib.rs:352-364 | A restart is refused exactly when the round is not done or is the last there can be, and then no shared word changes. |
| `WaitCore.OneCompletion` | os/wait_context/src/lib.rs:182-317 | In every run at most one thread is ever told to complete a round, always with the first outcome offered in it. |
| `WaitCore.NoLostCompletion` | os/wait_context/src/lib.rs:182-317 | When no call is in progress, a round that is past installing and has an outcome is being completed or done: no completion is lost between offering and arming. |
| `WaitCore.StaleCallsChangeNothing` | os/wait_context/src/lib.rs:182-365 | No step of a call of an older round changes a shared word. |
| `WaitCore.OutcomeIsReady` | os/wait_context/src/lib.rs:372-376 | The assertion in front of the outcome read never fails, and the value read is the first outcome of the round. |
| `TimerQueue.TokenRoundTrip` | shared/timer_queue/src/lib.rs:29-58 | A token packed in 64 bits is recovered from its word; the word is not zero and its top bit is clear. |
| `TimerHeap.FirstIsLeast` | shared/timer_queue/src/lib.rs:295-308 | The first entry of the heap is a smallest one. |
| `TimerQueue.TimerQueue.SiftUp` | shared/timer_queue/src/lib.rs:402-413 | A heap that is wrong only above one place becomes a heap, with back links right and no entry changed. |
| `TimerQueue.TimerQueue.SiftDown` | shared/timer_queue/src/lib.rs:415-437 | The same below one place. |
| `TimerQueue.TimerQueue.TryRegister` | shared/timer_queue/src/lib.rs:139-187 | Fails exactly when the queue is unbound, memory is short or the arena is full, and then changes nothing; otherwise the token is one never given out before, and exactly it is added. |
| `TimerQueue.TimerQueue.Cancel` | shared/timer_queue/src/lib.rs:190-209 | A live token gives its value, once; any other token, stale or foreign, changes nothing. |
| `TimerQueue.TimerQueue.Reschedule` | shared/timer_queue/src/lib.rs:225-268 | Exactly the one deadline changes, parked or not, without growing past the prepaid capacity. |
| `TimerQueue.TimerQueue.Park` | shared/timer_queue/src/lib.rs:271-292 | The entry keeps its token and value and has no deadline. |
| `TimerQueue.TimerQueue.Peek` | shared/timer_queue/src/lib.rs:295-308 | No deadline of any live entry is before the one returned. |
| `TimerQueue.TimerQueue.PopExpired` | shared/timer_queue/src/lib.rs:316-325 | Pops an entry with a least deadline exactly when one has passed; every other token keeps its entry. |
| `TimerQueue.TimerQueue.SetValue` | shared/timer_queue/src/lib.rs:213-222 | Only the value of the one live entry is replaced. |
| `TimerQueue.TimerQueue.BindOwner` | shared/timer_queue/src/lib.rs:125-136 | An owner is given once and entries are kept. |
| `TimeoutRace.OneWinner` | os/wait_context/src/lib.rs:71-121 | In every interleaving of publish, close, cancellation and expiry, a published token is still in the word or has exactly one winner: one cancellation or one expiry. |
| `TimeoutRace.RemovedOnce` | os/wait_context/src/lib.rs:71-121 | Every queue entry is removed at most once, and a live one has someone responsible for it. |
| `TimeoutRace.NothingLeft` | os/wait_context/src/lib.rs:71-121 | When the word is closed and taken and nobody holds a token, no queue entry is left behind. |
| `TimeoutRace.RetireWins` | os/wait_context/src/lib.rs:111-120 | An expiry wins exactly when its token is published and neither closed nor retired. |
| `TimeoutRace.ClosedForGood` | os/wait_context/src/lib.rs:91-107 | A closed and emptied word stays so and gives no token. |
| `TimeoutRace.TakerSettles` | os/wait_context/src/lib.rs:91-107 | Once the word is closed, no step of another thread can make a pending compare-exchange of a canceller fail for a new value: the retry loop ends. |
| `TimeoutQueue.Register` | shared/timer_queue/src/lib.rs:139-187 | On a real queue, which may hold other tokens, registering is the register step of the race. |
| `TimeoutQueue.Withdraw` | shared/timer_queue/src/lib.rs:190-209 | Cancelling a rejected or taken token is that step of the race, and finds the entry exactly when the race says it is live. |
| `TimeoutQueue.Expire` | shared/timer_queue/src/lib.rs:316-325 | Popping an expired entry is the pop step of the race for a token of its own and no step for any other. |
| `DebtQueues.LinkAll` | os/work_debt/src/lib.rs:531-540 | Linking a slot to the tail extends exactly one owner's chain and keeps all chains disjoint and well linked. |
| `DebtQueues.PopAll` | os/work_debt/src/lib.rs:338-369 | Unlinking the head shortens exactly one chain and keeps the others. |
| `WorkDebts.WorkDebts.ReserveIn` | os/work_debt/src/lib.rs:273-297 | Succeeds exactly when a slot of the partition is empty and the partition is valid; the slot is the first empty one from the cursor on, wrapping around in the partition; only it changes and the reservation is new. |
| `WorkDebts.WorkDebts.Cancel` | os/work_debt/src/lib.rs:299-311 | Exactly a live reservation is accepted and its slot is empty again. |
| `WorkDebts.WorkDebts.Publish` | os/work_debt/src/lib.rs:313-336 | Exactly a live reservation and a valid owner are accepted; the debt goes to the end of that owner's queue. |
| `WorkDebts.WorkDebts.Take` | os/work_debt/src/lib.rs:338-369 | Returns the oldest debt of the owner, and nothing exactly when its queue is empty. |
| `WorkDebts.WorkDebts.Requeue` | os/work_debt/src/lib.rs:371-388 | A taken debt without a wake token goes back to the end of its queue. |
| `WorkDebts.WorkDebts.ArmWake` | os/work_debt/src/lib.rs:392-411 | One wake token at a time, and none after a wake has been latched. |
| `WorkDebts.WorkDebts.CancelWake` | os/work_debt/src/lib.rs:413-426 | The wake token of a debt still running is taken back. |
| `WorkDebts.WorkDebts.Park` | os/work_debt/src/lib.rs:429-453 | A debt parks exactly when a wake is armed, and is queued again exactly when one has been latched. |
| `WorkDebts.WorkDebts.Wake` | os/work_debt/src/lib.rs:455-477 | A live wake is never lost: it queues a parked debt and is latched for a running one. |
| `WorkDebts.WorkDebts.Finish` | os/work_debt/src/lib.rs:479-497 | The slot is empty under the next generation, or out of use for good after the last. |
| `WorkDebts.WorkDebts.Rearm` | os/work_debt/src/lib.rs:501-518 | The slot stays reserved for the same holder. |
| `WorkDebts.WorkDebts.HasPending` | os/work_debt/src/lib.rs:520-522 | True exactly when some slot is pending for the owner. |
| `WorkDebts.WorkDebts.NoneStranded` | os/work_debt/src/lib.rs:313-540 | In every state reached, a pending debt is on its owner's queue, a parked one has a live wake token, values are in exactly those slots, and no slot has two tokens of a kind. |
| `WorkDebts.WorkDebts.OneSignal` | os/work_debt/src/lib.rs:392-411 | A running debt has a latched wake or a wake token, never both. |
| `DebtLedger.DebtLedger.ReserveIn` | os/kernel/src/work_ledger.rs:43-52 | Reserving counts nothing. |
| `DebtLedger.DebtLedger.Publish` | os/kernel/src/work_ledger.rs:64-90 | A live reservation is always accepted and the owner's counter goes up by one. |
| `DebtLedger.DebtLedger.Take` | os/kernel/src/work_ledger.rs:54-62 | Taking leaves the counter as it is: a debt being run still counts. |
| `DebtLedger.DebtLedger.Park` | os/kernel/src/work_ledger.rs:111-129 | The counter goes down exactly when the debt really parks, and never below zero. |
| `DebtLedger.DebtLedger.Finish` | os/kernel/src/work_ledger.rs:131-138 | The counter goes down by one and was not zero. |
| `DebtLedger.DebtLedger.Rearm` | os/kernel/src/work_ledger.rs:140-152 | The counter goes down by one and was not zero. |
| `DebtLedger.DebtLedger.WakeRaw` | os/kernel/src/work_ledger.rs:161-176 | A live wake is never refused; the counter goes up exactly when a parked debt is queued. |
| `DebtLedger.DebtLedger.ZeroMeansIdle` | os/kernel/src/work_ledger.rs:190-195 | A counter is zero if and only if the owner has no pending and no taken debt. |
| `RemoteTable.RemoteCalls.Reserve` | os/remote_call/src/lib.rs:154-171 | The lowest empty slot of the target; InvalidTarget exactly for a target out of range and Full exactly when none is empty. |
| `RemoteTable.RemoteCalls.Take` | os/remote_call/src/lib.rs:212-232 | The lowest pending slot of the hart and its value, or nothing exactly when none is pending. |
| `RemoteTable.RemoteCalls.Finish` | os/remote_call/src/lib.rs:235-253 | Exactly a live taken slot is released, to the next generation or for good. |
| `RemoteTable.RemoteCalls.ReserveBatch` | os/kernel/src/remote_call.rs:168-213 | A batch is reserved for all its targets or for none, and then the table is as it was; each refusal is returned exactly in its case. |
| `RemoteTable.RemoteCalls.PublishBatch` | os/kernel/src/remote_call.rs:216-240 | Publishing slot by slot is never refused and sets exactly the slots of the batch. |
| `RemoteTable.RemoteCalls.CancelBatch` | os/kernel/src/remote_call.rs:257-270 | Dropping a batch slot by slot empties exactly its slots. |
| `RemoteRun.RunKeeps` | os/kernel/src/remote_call.rs:109-336 | The protocol invariant holds in every interleaving of senders and harts. |
| `RemoteRun.NeverPanics` | os/kernel/src/remote_call.rs:110-116 | In every run none of the asserts fails: no target acknowledges twice and no slot is lost to its holder. |
| `RemoteRun.SinkOnce` | os/kernel/src/remote_call.rs:316-336 | A batch's sink is called at most once, and only after every target has fenced; no target fences for a batch that is not published. |
| `RemoteRun.NoneLost` | os/kernel/src/remote_call.rs:316-336 | While the sink of a published batch has not been called, some hart that still owes it something has a step to take. |
| `RemoteRun.HartStepsEnd` | os/kernel/src/remote_call.rs:316-336 | Every step of a busy hart is possible and lowers the work left, so draining ends. |
| `RemoteRun.TakenStays` | os/remote_call/src/lib.rs:212-232 | A slot a hart works from stays its own, under the same generation, until that hart finishes with it. |
| `RemoteRun.FinishedForGood` | os/remote_call/src/lib.rs:235-253 | In every run, at every point after a hart has finished with a slot, the token it worked from is live in no phase that any call accepts. |
| `AvlTree.RebalanceItems` | shared/ordered_table/src/lib.rs:305-323 | Rotations keep the entries in order. |
| `AvlTree.RebalanceAvl` | shared/ordered_table/src/lib.rs:305-323 | A node whose sides are at most two apart becomes a balanced tree of the height it had or one less. |
| `AvlTree.InsertItems` | shared/ordered_table/src/lib.rs:325-333 | An entry goes in at the one place that keeps the order and nothing else moves. |
| `AvlTree.TakeMinItems` | shared/ordered_table/src/lib.rs:335-342 | The entry taken is the first and the others stay in order. |
| `AvlTree.RemoveItems` | shared/ordered_table/src/lib.rs:344-378 | A key that is there goes out with its value, an absent one changes nothing, and nothing else moves. |
| `AvlTree.Dense` | shared/ordered_table/src/lib.rs:279-285 | A balanced tree of height h has at least 2 to the power h/2, less one, entries. |
| `AvlTree.HeightFits` | shared/ordered_table/src/lib.rs:279-285 | The height of any tree that can exist fits the byte it is stored in. |
| `OrderedTable.OrderedTable.Get` | shared/ordered_table/src/lib.rs:138-151 | The value under the key, or nothing. |
| `OrderedTable.OrderedTable.TryInsert` | shared/ordered_table/src/lib.rs:124-128 | Refused exactly when the table is full or memory is short, and then unchanged; otherwise exactly one entry is added. |
| `OrderedTable.OrderedTable.PrepareCandidate` | shared/ordered_table/src/lib.rs:100-109 | Admitted exactly when the key is there or there is room. |
| `OrderedTable.OrderedTable.RemoveKey` | shared/ordered_table/src/lib.rs:176-186 | Exactly that key goes, with its value. |
| `OrderedTable.OrderedTable.PopFirst` | shared/ordered_table/src/lib.rs:207-214 | The entry with the least key goes. |
| `OrderedTable.OrderedTable.NextAfter` | shared/ordered_table/src/lib.rs:189-204 | The first entry past the cursor in key order. |
| `OrderedTable.AfterMeans` | shared/ordered_table/src/lib.rs:189-204 | What is past a cursor is exactly the suffix of entries with larger keys. |
| `OrderedTable.OrderedTable.ScanVisible` | shared/ordered_table/src/lib.rs:226-260 | Fills the buffer with the keys of the longest visible run past the cursor that fits, leaves the rest of it alone, and says whether anything is left. |
| `OrderedTable.ReachIsLongest` | shared/ordered_table/src/lib.rs:226-260 | That run is all visible and stops only at an invisible entry, at the end or when the buffer is full. |
| `MemoryPool.MovesClose` | os/memory_pool/src/lib.rs:443-545 | Each of the four account moves is refused exactly outside its range, and keeps available, reserved, charged and delegated adding up to the total. |
| `MemoryPool.MovesUndone` | os/memory_pool/src/lib.rs:443-545 | Reserving and rolling back, or reserving, committing and returning, restores the accounts. |
| `MemoryPool.PoolState.ReserveDelegation` | os/memory_pool/src/lib.rs:312-323 | Refused at the depth limit; otherwise reserves for a child one level down. |
| `MemoryPool.PoolState.CommitReserved` | os/memory_pool/src/lib.rs:481-502 | A token of another pool is refused and changes nothing; otherwise reserved pages become charged or delegated. |
| `MemoryPool.PoolState.ReturnCredit` | os/memory_pool/src/lib.rs:504-529 | A credit of another pool is refused and changes nothing; otherwise its pages are available again. |
| `PoolForest.RunKeeps` | os/memory_pool/src/lib.rs:224-545 | In every run over any forest of pools and any tokens the forest invariant holds. |
| `PoolForest.AccountsAreTokens` | os/memory_pool/src/lib.rs:224-545 | In every run each account of each pool is exactly the sum of the live tokens and children it stands for, and depths stay within the limit. |
| `PoolForest.TokensNeverRefused` | os/memory_pool/src/lib.rs:325-441 | In every run a live token is always accepted by its own pool; another pool answers WrongOwner and nothing changes. |
| `PoolForest.DelegationPrepares` | os/memory_pool/src/lib.rs:242-275 | In every run a reserved delegation can be made into a child under any identity but its parent's, which is refused. |
| `PoolForest.TopologyHolds` | os/memory_pool/src/lib.rs:402-415 | In every run the credit of each pool is of its own parent and for all it has, so the topology test never fails. |
| `PoolForest.OwnerAlive` | os/memory_pool/src/lib.rs:402-415 | The pool a live token belongs to has not been given up. |
| `PoolForest.RetireWhenQuiet` | os/memory_pool/src/lib.rs:402-415 | A pool can be given up if and only if no token and no child of it is left. |
| `PoolForest.PagesConserved` | os/memory_pool/src/lib.rs:224-545 | In every run the pages held by all pools and on their way between pools add up to those the roots were made with. |
| `FundedFrames.Funded.SplitOff` | os/funded_frame/src/lib.rs:147-198 | Splits the pages at the given count, in order, and the credit with them; refused exactly at the ends, and then unchanged. |
| `FundedFrames.Funded.SplitFirst` | os/funded_frame/src/lib.rs:201-238 | The first extent leaves with a credit for exactly its pages. |
| `FundedFrames.Funded.MergeFrom` | os/funded_frame/src/lib.rs:242-271 | Pages and credit of both owners join in order; each refusal is returned exactly in its case and leaves both unchanged. |
| `FundedFrames.Fund` | os/funded_frame/src/lib.rs:306-354 | On success the owner has exactly the pages asked for, paid by that many pages of quota; on any error the quota is as it was and every claimed extent is released. Each limit, quota, claim and physical error is returned exactly in its case. |
| `SupplyRanges.NormalizedMeans` | os/memory_supply/src/lib.rs:273-286 | Sorting and merging gives apart, ascending ranges that cover exactly the same addresses. |
| `SupplyRanges.ClipMeans` | os/memory_supply/src/lib.rs:503-522 | The pairwise overlaps cover exactly what both inputs cover, in at most the product of their numbers. |
| `SupplyRanges.SubtractMeans` | os/memory_supply/src/lib.rs:552-584 | Every address covered by the first and not by the second is in exactly one piece, and no other address is in any. |
| `SupplyRanges.SubtractPieces` | os/memory_supply/src/lib.rs:552-584 | There are at most as many pieces as ranges on both sides. |
| `SupplyRanges.SameCountSameTotal` | os/memory_supply/src/lib.rs:288-294 | Two lists that contain every address equally often have the same number of bytes. |
| `MemorySupply.RangeBuffer.Normalize` | os/memory_supply/src/lib.rs:273-286 | The loop in place yields the normalized ranges. |
| `MemorySupply.NormalizeMemories` | os/memory_supply/src/lib.rs:484-501 | Accepted memories are sorted and apart; InvalidRange only for an invalid range, MemoryOverlap exactly when two valid ranges overlap, CapacityExhausted only beyond the capacity. |
| `MemorySupply.ClipInto` | os/memory_supply/src/lib.rs:503-522 | Yields the normalized overlaps; InvalidRange only for an invalid range, CapacityExhausted only beyond the product. |
| `MemorySupply.SubtractInto` | os/memory_supply/src/lib.rs:552-584 | Yields the difference; capacity is exhausted only beyond the sum. |
| `MemorySupply.PlaceOne` | os/memory_supply/src/lib.rs:586-611 | The block is aligned, of the length asked for, inside one memory and clear of everything taken; no room and overflow alike mean that no such block exists in any memory, and overflow comes from an address of memory above which none ends within a word. |
| `SupplyPlan.Planner.Divide` | os/memory_supply/src/lib.rs:326-453 | On success every byte of managed memory is in exactly one of permanent, boot-held, metadata, heap, recovery and user-free, no other byte is in any, and the totals add up. ClassificationMismatch is never returned; CapacityExhausted is not with buffers of M + 2MP + MB + 1 + H + R ranges for at most M, P and B ranges and the limits H and R; InvalidRequirements exactly when a requirement is invalid; InvalidRange and MemoryOverlap as the ranges say; InsufficientMetadata, InsufficientHeap, InsufficientRecovery and ArithmeticOverflow only when every place for the next block meets reserved memory or a block set aside before it, or the metadata length itself overflows. |
| `SupplyPlan.AccountedAll` | os/memory_supply/src/lib.rs:326-453 | What has been classified and what is left over contain every managed address exactly once together. |
| `ClockGeometry.LeastTick` | shared/erhino_shared/src/time.rs:117-131 | The tick for an admitted deadline is readable, has reached the deadline, and no earlier tick has. |
| `ClockGeometry.AdmittedExactly` | shared/erhino_shared/src/time.rs:117-131 | A deadline is admitted if and only if some readable tick reaches it. |
| `ClockGeometry.MaxDeadlineFits` | shared/erhino_shared/src/time.rs:72-90 | Every frequency above zero and every origin below the last tick gives a clock, and its last deadline fits 64 bits. |
| `ClockGeometry.NoTickBeyond` | shared/erhino_shared/src/time.rs:106-115 | No readable tick shows a time past the last admissible deadline. |
| `ClockGeometry.NoOverflow` | shared/erhino_shared/src/time.rs:117-131 | None of the 128-bit products and sums overflows. |
| `ClockGeometry.TickMoves` | shared/erhino_shared/src/time.rs:102-104 | Time never goes back from one tick to the next, nor forward by more than the resolution. |

## Findings

- A reserved change is meant to be able to commit, and the commit panics when it cannot find a region
  (os/memory_space/src/space.rs:1408-1413). Conflicts are judged by footprint
  (os/memory_space/src/space.rs:1665-1684), and the footprint of an unmap is its range, while it takes
  out whole regions. Two unmaps of disjoint parts of one mapping are therefore both admitted, and
  whichever commits second fails: `SpaceShared.TwoUnmapsOfOneMapping` gives the state and the two
  requests, and `SpaceWitness.TwoUnmapsInARun` a run that reaches it. `SpaceRun.CommitThenCommit` and `SpaceHistory.CommitExactly` give the exact condition: a
  reserved change can commit if and only if no change committed since its reservation took out one of
  its regions. `SpaceShared.SharedMeansTwoUnmaps` shows that only unmaps can meet in this way, and
  `SpaceHistory.UnsharedAlwaysCommits` that a caller who never has two reserved changes of one region
  never sees the panic.
- A protect of no pages should have nothing to check. The walk skips a slot only when the range ends
  before it or starts after it (os/page_table/src/lib.rs:1143-1145), so an empty range that starts strictly inside a
  larger slot is judged by the page there, and can be refused for a shared slot, a hole or other flags.
  `PagePlan.EmptyProtectOfNewTree` gives such an input, `PageCheck.EmptyVerdict` the exact condition, and
  `PageCheck.TableVerdict` covers every other range.

## Left out

- Assembly, boot code, device drivers, the device-tree and program loaders, system calls and the user library.
- The handle table, the ready queue and the other small containers: easier members of the same kind.
- The boot-time mapper of the page-table crate (`EagerMapper`), which allocates while it maps.
- `TableTree.TableTree.PublishBatch`: the plans of a batch must be clear of one another, as those of one transaction are; the source does not check it.
- `TableTree` counts frames and generations with unbounded numbers; page-table words are numbers, root-slot bitmaps are sets, and the walk down a segment's path is a recursion.
- `FramePool` holds its metadata as numbers rather than bytes; orders stay below 64, so every value fits.
- `TableTree.TableTree.PublishPrepared`: the frames supplied must be zeroed and unlike any in use, as the owner type of the source guarantees.
- `MemorySpace`: exhaustion of 64-bit keys, overflow of address sums, refusals for lack of memory and for bad limits at creation, and the two summaries derived from a plan (object deltas and retiring capacity).
- `SpacePermits`: requirements are counted when a change is reserved; the source stores them when it is validated.
- `WaitCore`, `TimeoutRace`, `RemoteRun`: steps are sequentially consistent; the memory orderings of the source are not modelled.
- `TimerQueue`: failing allocations are flags passed to the call; deadlines are unbounded.
- `WorkDebts` and `DebtLedger`: the process-wide supply of table identities, the fair budget and the doorbell interrupts; ledger counters change inside the critical section of the call.
- `RemoteRun`: per-hart epoch registers, interrupts and the contents of fence requests.
- `OrderedTable`: keys are numbers; borrowed lookups and `count_matching` are left out.
- `OrderedTable.OrderedTable.TryInsert`: inserting a key that is there is excluded, as the source asserts.
- `PoolForest`: owner keys are places in the forest and never run out.
- `FundedFrames`: the quota is the memory pool and a physical claim is an extent; clearing of frames is left out.
- `SupplyPlan`: consumption of heap and recovery tickets after planning; the library sort is modelled by insertion, and alignment by arithmetic instead of masks.
- `ClockGeometry`: reading the hardware counter.
