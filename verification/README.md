# Verified models of the operating-system simulators

A Dafny model of the simulators in `Lab_Assignments/`, with proofs of what they are for. Each module follows one
program or one part of it. Code that changes arrays, lists and counters in place is a class or a method with loops,
proved against a specification function; the properties are lemmas about those functions, over every input, every step
and every run. Random numbers, input files and the scheduler's choices are parameters.

`dafny verify dfyconfig.toml` checks the whole project.

**Resource manager** (`Bank`, `PendingPass`, `MasterStep`, `ResourceManager`, `BankerSession`, `BankerCompany`,
`BankerDeadlock`, `GenInput`). The master thread, compiled with deadlock avoidance. The greedy check decides exactly
whether some order lets every thread finish; one pass over the queue is a fixpoint; every state of every session is
safe and the books balance. A release does not give NEED back
(`Lab_Assignments/LA8_Bankers_Algorithm_Deadlock/resource.c:545-552`), so the safety check does not keep sessions from
deadlocking, although the program's own README promises that it does. The exact condition is proved: a script can
deadlock in otherwise harmless company if and only if it somewhere asks, all told, for more than its maximum while it
holds something. A session that the script generator can produce, and that deadlocks, is given.

**Demand paging** (`Words`, `FrameTable`, `BinarySearch`, `Paging`, `PagingRun`, `PagingLoss`, `PagingFit`,
`PagingCounts`, `PagingStart`, `PagingOutcome`, `PagingTotals`, `PagingSingle`, `RingQueue`, `Simulator`). Frames are
partitioned between the free stack and the page tables, a failed load means at least six ready processes, and every
run ends or spins. The loop is meant to end with every process completed and counted, and does not always: a process
that finishes its last search while being swapped in is not counted. Which runs count everybody is proved exactly: per
turn, from the queues and the free frames; per run, by whether somebody is swapped out during its last search. From
the input: nothing is ever swapped if and only if the peak demand fits in memory, and then everybody is counted; six
processes always fit; twelve never make the loop spin; and with one search each everybody is counted except in one
case, 1228 processes whose first needs more than eight data pages, where all but one are. An input of that kind is
given. A turn is told whole from the state before it, with what it adds to the statistics; the degree of
multiprogramming is the least number of ready processes at a swap-out. The program's README speaks of one probe per
turn; the code runs one whole search per turn (`Lab_Assignments/LA9_Demand_Paging_Virtual_Memory/demandpaging.c:245`),
and the model follows the code.

**Boats and visitors** (`Boating`, `Rendezvous`) and **leader and followers** (`HashTable`, `TurnPassing`). State
machines over all interleavings of any number of participants, with invariants, progress and step bounds; the leader's
table is a class.

**Rebuilding** (`Rebuild`, `GenDep`), **event queue** (`EventHeap`) and **Foodoku** (`Sudoku`, `BoardGen`, `Foodoku`).
Recursive rebuilding over a generated graph, with the exact order of its output, a binary heap as a multiset, and a
Sudoku whose nine blocks judge placements by asking their neighbours.

`Collections` holds facts about sets and sequences.

## Model

| member | source | states |
|---|---|---|
| `Bank.SafeNotStuck` | Lab_Assignments/LA8_Bankers_Algorithm_Deadlock/resource.c:382-421 | In a safe state no set of threads is stuck: outside any set that leaves somebody out, somebody can finish on what is available and what the set returns |
| `Bank.NeverStuckSafe` | Lab_Assignments/LA8_Bankers_Algorithm_Deadlock/resource.c:382-421 | Greedy order never matters: any partial completing order extends to a full one as long as no set of threads is stuck |
| `Bank.SafeIffNeverStuck` | Lab_Assignments/LA8_Bankers_Algorithm_Deadlock/resource.c:382-421 | A state has a completing order of all threads if and only if no set of threads is stuck |
| `Bank.SafeIffPlays` | Lab_Assignments/LA8_Bankers_Algorithm_Deadlock/resource.c:382-421 | A state is safe if and only if there is an order in which the threads, one after another, can be granted all they still need and then quit |
| `Bank.ReleaseKeepsSafe` | Lab_Assignments/LA8_Bankers_Algorithm_Deadlock/resource.c:545-552 | Handing resources back without restoring NEED keeps a completing order in existence |
| `Bank.UndoGrantKeepsSafe` | Lab_Assignments/LA8_Bankers_Algorithm_Deadlock/resource.c:483-489 | If the state after a non-negative grant is safe, so is the state before it |
| `Bank.GrantWithinNeedSafe` | Lab_Assignments/LA8_Bankers_Algorithm_Deadlock/resource.c:478-489 | A thread that could finish at once can be given any amount without losing safety |
| `Bank.AllFitSafe` | Lab_Assignments/LA8_Bankers_Algorithm_Deadlock/resource.c:571-643 | A session starts safe when every maximum fits the total |
| `PendingPass.GrantableEarlier` | Lab_Assignments/LA8_Bankers_Algorithm_Deadlock/resource.c:468-489 | What can be granted after another grant could have been granted before it |
| `PendingPass.GrantableBeforePass` | Lab_Assignments/LA8_Bankers_Algorithm_Deadlock/resource.c:459-523 | What can be granted after a pass could have been granted before it |
| `PendingPass.KeptAreRefused` | Lab_Assignments/LA8_Bankers_Algorithm_Deadlock/resource.c:459-523 | After one pass nothing left in the queue fits and is safe, although each request was judged in an earlier state |
| `PendingPass.PassIsFixpoint` | Lab_Assignments/LA8_Bankers_Algorithm_Deadlock/resource.c:459-523 | A second pass grants nothing and changes nothing |
| `PendingPass.PassSplitsQueue` | Lab_Assignments/LA8_Bankers_Algorithm_Deadlock/resource.c:498-519 | The queue after a pass is exactly the refused requests in arrival order, and the granted ones, in arrival order, turn the state before into the state after |
| `PendingPass.PassKeepsSafe` | Lab_Assignments/LA8_Bankers_Algorithm_Deadlock/resource.c:478-489 | A pass from a safe state ends in a safe state |
| `PendingPass.PassKeepsNonNegative` | Lab_Assignments/LA8_Bankers_Algorithm_Deadlock/resource.c:468-489 | A pass never overdraws the pool and never takes from a thread |
| `PendingPass.PassGrantsOrRefusesAll` | Lab_Assignments/LA8_Bankers_Algorithm_Deadlock/resource.c:459-523 | A pass reports a grant if and only if some request was grantable at its start; otherwise nothing changed |
| `PendingPass.FinisherIsGranted` | Lab_Assignments/LA8_Bankers_Algorithm_Deadlock/resource.c:468-481 | A thread whose need fits the pool is granted a request within its need or within the pool |
| `PendingPass.SomeoneIsGranted` | Lab_Assignments/LA8_Bankers_Algorithm_Deadlock/resource.c:459-523 | No all-blocked state: from a safe state in which every active thread waits within its need and the others hold nothing, a pass grants something |
| `MasterStep.QueuedIffAsks` | Lab_Assignments/LA8_Bankers_Algorithm_Deadlock/resource.c:645-657 | A message joins the queue exactly when some entry is positive; its negative entries go back to the pool at once, and what is queued is the rest |
| `MasterStep.ReceiveKeepsNonNegative` | Lab_Assignments/LA8_Bankers_Algorithm_Deadlock/resource.c:182-207 | No request of a thread that returns only what it holds makes a holding or the pool negative |
| `MasterStep.ReceiveKeepsSafe` | Lab_Assignments/LA8_Bankers_Algorithm_Deadlock/resource.c:182-207 | Taking in a release, a mixed request or a quit keeps a completing order in existence, also when a thread returns more than it holds |
| `MasterStep.StepKeepsSafe` | Lab_Assignments/LA8_Bankers_Algorithm_Deadlock/resource.c:159-221 | Every step of the master loop keeps the state safe, also when a thread returns more than it holds; when it does not, nothing becomes negative |
| `MasterStep.PassConserves` | Lab_Assignments/LA8_Bankers_Algorithm_Deadlock/resource.c:483-489 | A pass neither creates nor destroys resources |
| `MasterStep.StepConserves` | Lab_Assignments/LA8_Bankers_Algorithm_Deadlock/resource.c:182-215 | Pool and holdings together add up to the same total after every step |
| `ResourceManager.Manager.constructor` | Lab_Assignments/LA8_Bankers_Algorithm_Deadlock/resource.c:571-643 | Everything in the pool, nothing allocated, NEED the maxima, nothing pending |
| `ResourceManager.ProgressFinish` | Lab_Assignments/LA8_Bankers_Algorithm_Deadlock/resource.c:397-405 | Crediting a thread that can finish extends the completing order the flags stand for |
| `ResourceManager.CheckVerdict` | Lab_Assignments/LA8_Bankers_Algorithm_Deadlock/resource.c:409-421 | Where the loop stops, all flags set means a completing order exists, and with non-negative holdings a clear flag means none does |
| `ResourceManager.Manager.Sweep` | Lab_Assignments/LA8_Bankers_Algorithm_Deadlock/resource.c:384-411 | One sweep keeps work and flags in step with a completing order, and either extends it or finds nobody else able to finish |
| `ResourceManager.Manager.Consider` | Lab_Assignments/LA8_Bankers_Algorithm_Deadlock/resource.c:390-408 | Looking at one unfinished thread either credits it, extending the completing order, or shows that it cannot finish on what the order leaves |
| `ResourceManager.Manager.Greedy` | Lab_Assignments/LA8_Bankers_Algorithm_Deadlock/resource.c:382-421 | The verdict of the loop is soundness and, with non-negative holdings, completeness for the existence of a completing order |
| `ResourceManager.Manager.IsSafeState` | Lab_Assignments/LA8_Bankers_Algorithm_Deadlock/resource.c:360-437 | Terminates, restores all tables exactly, and answers whether the tentative state is safe |
| `ResourceManager.Manager.CanGrant` | Lab_Assignments/LA8_Bankers_Algorithm_Deadlock/resource.c:465-481 | True only if the request fits and granting it leaves a safe state, and with non-negative holdings exactly then; tables unchanged |
| `ResourceManager.Manager.GrantRequest` | Lab_Assignments/LA8_Bankers_Algorithm_Deadlock/resource.c:483-489 | Moves the amount from pool and NEED to the allocation of the one thread |
| `ResourceManager.Manager.EnqueueRequest` | Lab_Assignments/LA8_Bankers_Algorithm_Deadlock/resource.c:444-457 | Appends to the queue; head, tail and links stay a proper list |
| `ResourceManager.Manager.Unlink` | Lab_Assignments/LA8_Bankers_Algorithm_Deadlock/resource.c:498-512 | Takes one node out of the list, wherever it stands, leaving head, tail and links in order |
| `ResourceManager.Manager.Visit` | Lab_Assignments/LA8_Bankers_Algorithm_Deadlock/resource.c:464-520 | Handles one node: granted and unlinked only if grantable, with non-negative holdings exactly then; else everything unchanged |
| `ResourceManager.ResumeStep` | Lab_Assignments/LA8_Bankers_Algorithm_Deadlock/resource.c:464-520 | What is left of a pass after a node is the pass over the rest of the list from there |
| `ResourceManager.Manager.ProcessPendingRequests` | Lab_Assignments/LA8_Bankers_Algorithm_Deadlock/resource.c:459-523 | With non-negative holdings the in-place traversal computes the pass over the arrival sequence: same tables, same remaining list, same answer; from a safe state it always ends in one |
| `ResourceManager.Manager.HandleReleaseRequest` | Lab_Assignments/LA8_Bankers_Algorithm_Deadlock/resource.c:545-552 | Returns the amounts to the pool; NEED unchanged |
| `ResourceManager.Manager.HandleQuit` | Lab_Assignments/LA8_Bankers_Algorithm_Deadlock/resource.c:185-193 | Returns everything the thread holds; NEED unchanged; one active thread fewer |
| `ResourceManager.Manager.HandleReleasePart` | Lab_Assignments/LA8_Bankers_Algorithm_Deadlock/resource.c:197-203 | Returns the negative entries and leaves the positive ones as the request |
| `ResourceManager.Manager.HandleRequest` | Lab_Assignments/LA8_Bankers_Algorithm_Deadlock/resource.c:164-215 | One turn of the master loop refines the step on the abstract state when the thread returns no more than it holds; whatever it returns, a safe state stays safe |
| `BankerSession.PassKeepsBooks` | Lab_Assignments/LA8_Bankers_Algorithm_Deadlock/resource.c:483-489 | For each thread, what it holds or is owed, and NEED less what it is owed, are unchanged by a pass |
| `BankerSession.MessageAffordable` | Lab_Assignments/LA8_Bankers_Algorithm_Deadlock/resource.c:196-203 | In any reachable state whoever may send a message returns no more than it holds |
| `BankerSession.StepInv` | Lab_Assignments/LA8_Bankers_Algorithm_Deadlock/resource.c:159-221 | One message keeps the books of every thread, the totals, safety, one pending request per thread, and nothing grantable left waiting |
| `BankerSession.RunIsSafe` | Lab_Assignments/LA8_Bankers_Algorithm_Deadlock/resource.c:159-221 | Every state of every run is safe |
| `BankerSession.RunAccounts` | Lab_Assignments/LA8_Bankers_Algorithm_Deadlock/resource.c:182-206 | In every state of every run: pool plus holdings is the total, the pool is not overdrawn, holdings are within the maxima, and NEED, for threads that have quit too, is MAX less ALLOCATION less all handed back so far |
| `BankerSession.WaitingBooks` | Lab_Assignments/LA8_Bankers_Algorithm_Deadlock/resource.c:444-489 | A waiting thread holds what its messages came to without the pending one, and its NEED is MAX less all it asked before |
| `BankerSession.ReleaseFreeIsHarmless` | Lab_Assignments/LA8_Bankers_Algorithm_Deadlock/geninput.c:40-50 | Scripts that release only at QUIT keep every request within NEED |
| `BankerSession.WaitsHarmlessly` | Lab_Assignments/LA8_Bankers_Algorithm_Deadlock/resource.c:459-523 | A waiting thread of a harmless script asks within its NEED or holds nothing |
| `BankerSession.WaitingMeansHeld` | Lab_Assignments/LA8_Bankers_Algorithm_Deadlock/resource.c:459-523 | While anybody waits, somebody holds something |
| `BankerSession.NotAllWaiting` | Lab_Assignments/LA8_Bankers_Algorithm_Deadlock/resource.c:159-221 | If no script is harmful, some active thread is not waiting after each pass |
| `BankerSession.NeverBlocked` | Lab_Assignments/LA8_Bankers_Algorithm_Deadlock/resource.c:159-221 | A session whose threads ask beyond their maximum, all told, only with nothing in hand is never blocked |
| `BankerSession.RunCounts` | Lab_Assignments/LA8_Bankers_Algorithm_Deadlock/resource.c:159-221 | A run has taken exactly as many steps as messages were sent |
| `BankerSession.FinishedRun` | Lab_Assignments/LA8_Bankers_Algorithm_Deadlock/resource.c:159-221 | No run is longer than the scripts; a harmless one that cannot go on has sent every message, everybody has quit, nothing is pending and the pool is full |
| `BankerCompany.CompanyIsOk` | Lab_Assignments/LA8_Bankers_Algorithm_Deadlock/geninput.c:40-50 | The company of a harmful script is a proper system whose other thread never asks beyond its maximum |
| `BankerCompany.TroubleBlocks` | Lab_Assignments/LA8_Bankers_Algorithm_Deadlock/resource.c:459-523 | With that company the harmful script reaches a state in which both threads wait for ever |
| `BankerCompany.DeadlocksIffHarmful` | Lab_Assignments/LA8_Bankers_Algorithm_Deadlock/resource.c:459-552 | A script can deadlock in some company of harmless threads if and only if it somewhere asks for more than its maximum, all told, while holding something |
| `BankerDeadlock.VictimIsGenerated` | Lab_Assignments/LA8_Bankers_Algorithm_Deadlock/geninput.c:21-50 | The deadlocking system obeys all bounds of the script generator |
| `BankerDeadlock.GeneratedSessionDeadlocks` | Lab_Assignments/LA8_Bankers_Algorithm_Deadlock/resource.c:545-552 | A session the generator can produce reaches a blocked state although every grant passed the safety check |
| `GenInput.EntryStaysWithin` | Lab_Assignments/LA8_Bankers_Algorithm_Deadlock/geninput.c:43-48 | Each drawn entry keeps what its thread holds between nothing and the maximum; where both are possible an even coin releases |
| `GenInput.EntryRange` | Lab_Assignments/LA8_Bankers_Algorithm_Deadlock/geninput.c:43-48 | The entries that can be drawn are exactly those that keep the holding within the maximum |
| `GenInput.GenerateLine` | Lab_Assignments/LA8_Bankers_Algorithm_Deadlock/geninput.c:42-50 | One line is drawn entry by entry on top of what the thread holds, and leaves that between nothing and the maximum |
| `GenInput.GenerateScript` | Lab_Assignments/LA8_Bankers_Algorithm_Deadlock/geninput.c:40-52 | Every line is drawn on top of what the lines before it come to, and the script stays within the maximum throughout |
| `FrameTable.EntryRoundTrip` | Lab_Assignments/LA9_Demand_Paging_Virtual_Memory/demandpaging.c:34-38 | A created entry is valid and gives its frame back exactly when the frame fits 15 bits; clearing keeps the frame bits |
| `Words.Masks` | Lab_Assignments/LA9_Demand_Paging_Virtual_Memory/demandpaging.c:34-38 | What the masks of the top bit do to a sixteen-bit word, in numbers: test, remainder and addition of 0x8000 |
| `FrameTable.MasksAgree` | Lab_Assignments/LA9_Demand_Paging_Virtual_Memory/demandpaging.c:34-38 | The four entry operations equal the masks 0x8000, 0x7FFF, the complement of 0x8000, and the or with 0x8000, on every sixteen-bit word |
| `FrameTable.PartitionIsExclusive` | Lab_Assignments/LA9_Demand_Paging_Virtual_Memory/demandpaging.c:116-141 | Under the ownership map the free stack has no duplicates, and a frame is on it if and only if no page holds it; no two pages share a frame |
| `FrameTable.AssignKeepsPartition` | Lab_Assignments/LA9_Demand_Paging_Virtual_Memory/demandpaging.c:136-140 | Giving a page the top frame keeps free stack and page tables a partition of the frames |
| `FrameTable.ReleasePageKeepsPartition` | Lab_Assignments/LA9_Demand_Paging_Virtual_Memory/demandpaging.c:124-127 | Pushing back the frame of one page keeps the partition |
| `FrameTable.FreeKeepsPartition` | Lab_Assignments/LA9_Demand_Paging_Virtual_Memory/demandpaging.c:121-130 | Freeing a process keeps the partition, empties exactly its table and changes nothing else |
| `FrameTable.AssignConserves` | Lab_Assignments/LA9_Demand_Paging_Virtual_Memory/demandpaging.c:136-140 | Free and resident frames still add up to 12288; one more is resident |
| `FrameTable.FreeConserves` | Lab_Assignments/LA9_Demand_Paging_Virtual_Memory/demandpaging.c:121-130 | All frames of the process come back to the stack, none are lost |
| `BinarySearch.SearchFindsKey` | Lab_Assignments/LA9_Demand_Paging_Virtual_Memory/demandpaging.c:148-171 | The loop ends with both bounds at the key, or at the nearer end if the key is outside |
| `BinarySearch.SearchIsShort` | Lab_Assignments/LA9_Demand_Paging_Virtual_Memory/demandpaging.c:148-171 | At most b probes for an array of up to 2^b elements |
| `BinarySearch.SearchPages` | Lab_Assignments/LA9_Demand_Paging_Virtual_Memory/demandpaging.c:151-152 | Every probed page lies after the essential pages and inside the table, for arrays up to 2038 * 1024 + 1 elements |
| `BinarySearch.MaxArrayIsExact` | Lab_Assignments/LA9_Demand_Paging_Virtual_Memory/demandpaging.c:152-152 | That bound is exact: all searches of an array stay inside the table if and only if it is no longer |
| `Paging.TouchInv` | Lab_Assignments/LA9_Demand_Paging_Virtual_Memory/demandpaging.c:150-154 | One probe keeps all invariants, and fails only with no free frame and the page absent |
| `Paging.TouchAllInv` | Lab_Assignments/LA9_Demand_Paging_Virtual_Memory/demandpaging.c:149-171 | A sequence of probes keeps all invariants; if it succeeds every probed page is resident |
| `Paging.ResidentBound` | Lab_Assignments/LA9_Demand_Paging_Virtual_Memory/demandpaging.c:132-141 | Resident frames are at most 2048 per live process, and fewer if one of them has a page missing |
| `Paging.FailedLoadMeansCrowd` | Lab_Assignments/LA9_Demand_Paging_Virtual_Memory/demandpaging.c:132-137 | A load that finds no frame happens only with at least six other processes ready |
| `Paging.SwapOutInv` | Lab_Assignments/LA9_Demand_Paging_Virtual_Memory/demandpaging.c:154-166 | Swapping out keeps all invariants and the reported degree at least six |
| `Paging.FinishInv` | Lab_Assignments/LA9_Demand_Paging_Virtual_Memory/demandpaging.c:173-177 | Finishing a search keeps all invariants, and a completed process leaves at least ten free frames |
| `Paging.SearchInv` | Lab_Assignments/LA9_Demand_Paging_Virtual_Memory/demandpaging.c:143-178 | A whole search keeps all invariants; either the search counts as done or the process is swapped out with its search still to do |
| `Paging.UninterruptedSearch` | Lab_Assignments/LA9_Demand_Paging_Virtual_Memory/demandpaging.c:143-178 | A search that is not interrupted ends at its key, makes exactly its probes as accesses, at most b for up to 2^b elements, and leaves every probed page resident while the process lives |
| `Paging.ReviveInv` | Lab_Assignments/LA9_Demand_Paging_Virtual_Memory/demandpaging.c:250-260 | Bringing in the first swapped-out process keeps all invariants with that process running |
| `PagingRun.FrontIsAlive` | Lab_Assignments/LA9_Demand_Paging_Virtual_Memory/demandpaging.c:235-244 | The process at the head of the ready queue is neither completed nor swapped out, so the guard always holds |
| `PagingRun.BackOfReady` | Lab_Assignments/LA9_Demand_Paging_Virtual_Memory/demandpaging.c:265-270 | There is always room to put the running process back |
| `PagingRun.SearchLeft` | Lab_Assignments/LA9_Demand_Paging_Virtual_Memory/demandpaging.c:173-177 | A search lowers the searches remaining by one, unless it is interrupted |
| `PagingRun.TurnIsOk` | Lab_Assignments/LA9_Demand_Paging_Virtual_Memory/demandpaging.c:234-273 | One turn keeps all invariants, accounts for every completion as counted or missed, and lowers searches remaining or else the ready queue |
| `PagingRun.SpinsExactlyWhen` | Lab_Assignments/LA9_Demand_Paging_Virtual_Memory/demandpaging.c:235-267 | A turn leaves the loop spinning if and only if one ready process is at its last search, at least two are swapped out, and the first of those is at its last search too |
| `PagingRun.RunResult` | Lab_Assignments/LA9_Demand_Paging_Virtual_Memory/demandpaging.c:230-274 | Every run ends; completions are counted or missed; it spins only after a missed one; otherwise all processes are completed, and all are counted if none was missed |
| `PagingRun.SpinsIffTrouble` | Lab_Assignments/LA9_Demand_Paging_Virtual_Memory/demandpaging.c:230-274 | A run ends up spinning if and only if it passes through a state in which one ready process is at its last search, at least two are swapped out, and the first of those is at its last search too |
| `PagingRun.TurnEffect` | Lab_Assignments/LA9_Demand_Paging_Virtual_Memory/demandpaging.c:234-273 | A turn swaps at most once, and then leaves at least six ready; it misses a completion only in its swap-in, both processes at their last search; who is swapped out at its last search stays so or is the one missed |
| `PagingFit.TouchAllFits` | Lab_Assignments/LA9_Demand_Paging_Virtual_Memory/demandpaging.c:149-171 | A list of pages can be touched without fault of memory if and only if the different pages missing are no more than the free frames; then exactly those pages are added |
| `PagingFit.SearchFits` | Lab_Assignments/LA9_Demand_Paging_Virtual_Memory/demandpaging.c:143-178 | A search swaps its process out if and only if more of its pages are missing than frames are free; otherwise the process holds what it held and the pages of the search |
| `PagingFit.RevivedFits` | Lab_Assignments/LA9_Demand_Paging_Virtual_Memory/demandpaging.c:250-260 | The search of a process let back in goes through if and only if ten essential pages and the different pages of the search are no more than the free frames |
| `PagingFit.MissesExactlyWhen` | Lab_Assignments/LA9_Demand_Paging_Virtual_Memory/demandpaging.c:242-263 | A turn completes a process without counting it if and only if, before it, the first ready and the first swapped-out process are at their last searches, the first search fits in the free frames, and the second with ten essential pages in what is then free |
| `PagingCounts.TouchAllCounts` | Lab_Assignments/LA9_Demand_Paging_Virtual_Memory/demandpaging.c:132-171 | Going through a list of pages costs an access each and a fault for each different page that was missing; cut off, a fault for each free frame and one more, and the accesses up to and with the one that fails |
| `PagingCounts.SearchCounts` | Lab_Assignments/LA9_Demand_Paging_Virtual_Memory/demandpaging.c:143-178 | What one search adds to the four statistics, told from the pages missing, the free frames and the ready queue before it |
| `PagingCounts.TurnComesTo` | Lab_Assignments/LA9_Demand_Paging_Virtual_Memory/demandpaging.c:234-273 | A whole turn told from the state before it: who goes where in the queues, what is counted and missed, which pages the processes hold afterwards, and what each statistic grows by |
| `PagingCounts.TurnDegree` | Lab_Assignments/LA9_Demand_Paging_Virtual_Memory/demandpaging.c:162-165 | A turn changes the degree only if it swaps somebody out, and then to the number of ready processes if that is lower or the first |
| `PagingCounts.RunDegree` | Lab_Assignments/LA9_Demand_Paging_Virtual_Memory/demandpaging.c:162-165 | Over any run the degree is the least number of ready processes at a swap-out |
| `PagingLoss.DoomedIsMissed` | Lab_Assignments/LA9_Demand_Paging_Virtual_Memory/demandpaging.c:250-263 | Once somebody is swapped out at its last search the run misses a completion |
| `PagingLoss.MissesIffDoomed` | Lab_Assignments/LA9_Demand_Paging_Virtual_Memory/demandpaging.c:230-274 | A run misses a completion if and only if somebody is at some time swapped out at its last search |
| `PagingLoss.OneSearchSwaps` | Lab_Assignments/LA9_Demand_Paging_Virtual_Memory/demandpaging.c:230-274 | With one search each, a run that misses no completion never swaps |
| `PagingLoss.FewAreStranded` | Lab_Assignments/LA9_Demand_Paging_Virtual_Memory/demandpaging.c:234-273 | A run from a state with at most x more swapped out than ready, and at most 12 + x processes, leaves at most x of them swapped out for ever |
| `PagingStart.StartInv` | Lab_Assignments/LA9_Demand_Paging_Virtual_Memory/demandpaging.c:192-223 | After reading the input every process is ready with its ten essential pages and all invariants hold |
| `PagingStart.Simulation` | Lab_Assignments/LA9_Demand_Paging_Virtual_Memory/demandpaging.c:180-274 | From any input that boots the run ends with every completion either counted or missed, spins only after a missed one and otherwise completes every process, and reports a degree of at least six if anything was swapped |
| `PagingOutcome.RoundTurn` | Lab_Assignments/LA9_Demand_Paging_Virtual_Memory/demandpaging.c:242-272 | While nothing is swapped out, a turn whose search fits hands over to the next process of the round, which holds exactly the pages its searches so far have used |
| `PagingOutcome.NeverSwapsIffSuffices` | Lab_Assignments/LA9_Demand_Paging_Virtual_Memory/demandpaging.c:180-274 | From the input alone: nothing is ever swapped if and only if, for each process, all its pages and those that later processes use before their last search fit in 12288 frames; then everybody is completed and counted |
| `PagingOutcome.UncountedIffLastSearchSwapped` | Lab_Assignments/LA9_Demand_Paging_Virtual_Memory/demandpaging.c:180-274 | From any input that boots, a completion goes uncounted if and only if somebody is at some time swapped out at its last search, and then fewer than all are counted |
| `PagingOutcome.OneSearchCountsAllIffSuffices` | Lab_Assignments/LA9_Demand_Paging_Virtual_Memory/demandpaging.c:180-274 | With one search each, everybody is counted if and only if that memory suffices |
| `PagingOutcome.SixSuffice` | Lab_Assignments/LA9_Demand_Paging_Virtual_Memory/demandpaging.c:132-166 | Memory suffices for at most six processes, whatever they search for |
| `PagingOutcome.FewStranded` | Lab_Assignments/LA9_Demand_Paging_Virtual_Memory/demandpaging.c:234-273 | The loop spins only with more than twelve processes, and leaves at most n - 12 of them swapped out |
| `PagingTotals.StatisticsIfSuffices` | Lab_Assignments/LA9_Demand_Paging_Virtual_Memory/demandpaging.c:276-282 | When memory suffices: one access for each probe of each search, one fault for each different data page of each process, no swap, and all processes as the degree |
| `PagingTotals.DegreeReported` | Lab_Assignments/LA9_Demand_Paging_Virtual_Memory/demandpaging.c:162-165 | From any input that boots, the degree reported is at most the number of ready processes at every swap-out, at least six, and that number at one of them; it is the number of processes if nothing was swapped out |
| `PagingSingle.FewPages` | Lab_Assignments/LA9_Demand_Paging_Virtual_Memory/demandpaging.c:148-171 | A search of a window of up to 2^b pages touches at most b + 2 different pages |
| `PagingSingle.TurnKeepsRoom` | Lab_Assignments/LA9_Demand_Paging_Virtual_Memory/demandpaging.c:242-263 | With one search each, at most one process is ever swapped out or missed, and from then on there is room for any search |
| `PagingSingle.OneSearchOutcome` | Lab_Assignments/LA9_Demand_Paging_Virtual_Memory/demandpaging.c:180-274 | With one search each the loop never spins and counts everybody, or everybody but one exactly when there are 1228 processes and the first needs more than eight data pages |
| `PagingSingle.CrowdLosesOne` | Lab_Assignments/LA9_Demand_Paging_Virtual_Memory/demandpaging.c:250-263 | A given input of 1228 processes, the first with 2^20 elements, boots, swaps, and ends with one completion uncounted |
| `RingQueue.Queue.constructor` | Lab_Assignments/LA9_Demand_Paging_Virtual_Memory/demandpaging.c:69-78 | An empty queue |
| `RingQueue.Queue.Enqueue` | Lab_Assignments/LA9_Demand_Paging_Virtual_Memory/demandpaging.c:80-86 | Appends to the sequence, or drops the item when full |
| `RingQueue.Queue.Dequeue` | Lab_Assignments/LA9_Demand_Paging_Virtual_Memory/demandpaging.c:88-95 | Takes the first of the sequence, or answers -1 when empty |
| `RingQueue.Queue.IsEmpty` | Lab_Assignments/LA9_Demand_Paging_Virtual_Memory/demandpaging.c:97-99 | True exactly for the empty sequence |
| `Simulator.Simulator.AllocateFrame` | Lab_Assignments/LA9_Demand_Paging_Virtual_Memory/demandpaging.c:116-119 | Pops the top of the free stack, or answers -1 with nothing changed |
| `Simulator.Simulator.LoadPage` | Lab_Assignments/LA9_Demand_Paging_Virtual_Memory/demandpaging.c:132-141 | The page table, stack and fault counter change as the paging model says, with the same answer |
| `Simulator.Simulator.FreeProcessFrames` | Lab_Assignments/LA9_Demand_Paging_Virtual_Memory/demandpaging.c:121-130 | The loop over packed entries releases exactly the resident pages, in page order |
| `Simulator.Simulator.RecordDegree` | Lab_Assignments/LA9_Demand_Paging_Virtual_Memory/demandpaging.c:162-165 | The expression for active processes is the length of the ready queue, and the minimum is kept |
| `Simulator.Simulator.SwapOutProcess` | Lab_Assignments/LA9_Demand_Paging_Virtual_Memory/demandpaging.c:157-165 | Counts the swap, frees the frames, queues the process and records the degree |
| `Simulator.Simulator.PerformBinarySearch` | Lab_Assignments/LA9_Demand_Paging_Virtual_Memory/demandpaging.c:143-178 | The loop with its faults and early return computes the search of the paging model |
| `Simulator.Simulator.ReadInput` | Lab_Assignments/LA9_Demand_Paging_Virtual_Memory/demandpaging.c:180-223 | Succeeds exactly when ten frames per process suffice, and then leaves the booted kernel |
| `Simulator.Simulator.SwapInProcess` | Lab_Assignments/LA9_Demand_Paging_Virtual_Memory/demandpaging.c:250-267 | The swap-in branch, with the completion it does not count |
| `Simulator.Simulator.TurnOf` | Lab_Assignments/LA9_Demand_Paging_Virtual_Memory/demandpaging.c:242-272 | One turn of the loop refines the turn of the paging model |
| `Simulator.Simulator.RunSimulation` | Lab_Assignments/LA9_Demand_Paging_Virtual_Memory/demandpaging.c:230-274 | The loop refines the run of the paging model, ending where the code spins |
| `Simulator.Simulate` | Lab_Assignments/LA9_Demand_Paging_Virtual_Memory/demandpaging.c:284-300 | From input to the four statistics, in place: they are those of the run from the booted kernel; no swap if and only if memory suffices, and then all are counted, with the probes as accesses and the data pages as faults; with one search each the exact count; no swap with six processes, no spin with twelve; the degree is the least number of ready processes at a swap-out |
| `Boating.FirstClaimable` | Lab_Assignments/LA7_Boating_Pthreads/boating.c:156-164 | The lowest-numbered boat that is open and unclaimed, if any |
| `Boating.LookingClaims` | Lab_Assignments/LA7_Boating_Pthreads/boating.c:150-166 | A visitor who looks takes the open and unclaimed boat with the lowest number, leaves his number and riding time with it, and changes nothing else |
| `Boating.FindBoat` | Lab_Assignments/LA7_Boating_Pthreads/boating.c:156-164 | The scan finds a boat exactly if one is claimable, and then the first |
| `Rendezvous.AnnounceTokens` | Lab_Assignments/LA7_Boating_Pthreads/boating.c:38-69 | A boat announcing itself, waking a visitor or not, keeps both semaphores equal to the tokens that are out |
| `Rendezvous.CallBoatTokens` | Lab_Assignments/LA7_Boating_Pthreads/boating.c:38-143 | A visitor calling a boat, waking one or not, does the same |
| `Rendezvous.ClaimInv` | Lab_Assignments/LA7_Boating_Pthreads/boating.c:153-166 | Claiming the first open boat keeps every boat and visitor paired with at most one other |
| `Rendezvous.MoveInv` | Lab_Assignments/LA7_Boating_Pthreads/boating.c:58-177 | Every step of every boat and visitor keeps all invariants |
| `Rendezvous.CompletedBound` | Lab_Assignments/LA7_Boating_Pthreads/boating.c:98-111 | Rides done and under way never exceed the visitors |
| `Rendezvous.QuietIffNoMove` | Lab_Assignments/LA7_Boating_Pthreads/boating.c:58-177 | No thread can move if and only if every thread is at rest at a semaphore, a barrier, a fruitless scan or its end |
| `Rendezvous.QuietMeansDone` | Lab_Assignments/LA7_Boating_Pthreads/boating.c:58-177 | Where no thread can move, every visitor has completed a ride |
| `Rendezvous.BoatMoveSteps` | Lab_Assignments/LA7_Boating_Pthreads/boating.c:58-113 | Every step of a boat uses up some of the steps that are left |
| `Rendezvous.VisitorMoveSteps` | Lab_Assignments/LA7_Boating_Pthreads/boating.c:127-177 | So does every step of a visitor |
| `Rendezvous.RideEnds` | Lab_Assignments/LA7_Boating_Pthreads/boating.c:98-106 | A ride is completed only by the boat that carries the visitor, recorded with his number and time, and the boat that completes the last one is the last boat |
| `Rendezvous.StopsIffAllDone` | Lab_Assignments/LA7_Boating_Pthreads/boating.c:108-111 | A boat stops for good exactly when it finds, after a ride, that all rides are completed |
| `Rendezvous.RunNeverShares` | Lab_Assignments/LA7_Boating_Pthreads/boating.c:76-88 | In every state of every run no two boats serve the same visitor, and a boat carries its visitor for the time that visitor chose |
| `Rendezvous.RunEndsWell` | Lab_Assignments/LA7_Boating_Pthreads/boating.c:58-177 | Every run has at most 5m + 15n steps, and one that cannot go on has given each visitor exactly one ride of its chosen time, with a last boat named |
| `HashTable.Table.constructor` | Lab_Assignments/LA5_Leader_Follower_Shared_Memory/leader.cpp:67-70 | An empty table |
| `HashTable.Table.CheckAndUpdate` | Lab_Assignments/LA5_Leader_Follower_Shared_Memory/leader.cpp:113-129 | With a free slot left, linear probing with wrap-around answers true exactly for stored sums and otherwise stores the new one; sums below the size stay at their own index |
| `HashTable.Table.NotStored` | Lab_Assignments/LA5_Leader_Follower_Shared_Memory/leader.cpp:115-124 | A free slot met while probing means the sum is not in the table |
| `HashTable.Table.RoomLeft` | Lab_Assignments/LA5_Leader_Follower_Shared_Memory/leader.cpp:115-124 | Fewer sums than slots means the probing meets a free slot |
| `TurnPassing.MoverHasTurn` | Lab_Assignments/LA5_Leader_Follower_Shared_Memory/follower.cpp:24-43 | Only the follower whose turn it is, or whose turn to leave it is, can do anything but wait |
| `TurnPassing.StepInv` | Lab_Assignments/LA5_Leader_Follower_Shared_Memory/leader.cpp:79-124 | Every step of leader and followers keeps the turn protocol, the rounds drawn and the sums |
| `TurnPassing.ExactlyOneCanStep` | Lab_Assignments/LA5_Leader_Follower_Shared_Memory/leader.cpp:79-124 | Until the leader has stopped exactly one participant can step, and afterwards none |
| `TurnPassing.DrawsInOrder` | Lab_Assignments/LA5_Leader_Follower_Shared_Memory/leader.cpp:85-86 | In each round the leader draws first and then followers 1 to n in order, each into its own slot; nothing else changes the slots |
| `TurnPassing.DrawsAreFree` | Lab_Assignments/LA5_Leader_Follower_Shared_Memory/follower.cpp:39-39 | Any number from 1 to 99 can be drawn by the leader, and any from 1 to 9 by the follower whose turn it is |
| `TurnPassing.SumsInRange` | Lab_Assignments/LA5_Leader_Follower_Shared_Memory/leader.cpp:85-111 | Every sum lies between n + 1 and 9n + 99 |
| `TurnPassing.SeenBound` | Lab_Assignments/LA5_Leader_Follower_Shared_Memory/leader.cpp:113-129 | The table never holds more than 8n + 99 sums |
| `TurnPassing.SumsFitTheTable` | Lab_Assignments/LA5_Leader_Follower_Shared_Memory/leader.cpp:114-114 | For up to 100 followers every sum is below the table size |
| `TurnPassing.DecideWithTable` | Lab_Assignments/LA5_Leader_Follower_Shared_Memory/leader.cpp:92-95 | The table decides to stop exactly if the sum was seen before |
| `TurnPassing.StepsShrink` | Lab_Assignments/LA5_Leader_Follower_Shared_Memory/leader.cpp:79-124 | Every step uses up some of the steps that are left |
| `TurnPassing.RunSums` | Lab_Assignments/LA5_Leader_Follower_Shared_Memory/leader.cpp:99-111 | Each sum is the leader's number and one number of each follower, all drawn in that round |
| `TurnPassing.RunEnds` | Lab_Assignments/LA5_Leader_Follower_Shared_Memory/follower.cpp:24-43 | Runs are bounded, with at most 8n + 100 sums, all but the last different; the last repeats an earlier one; followers leave in order 1 to n, each once, before the leader stops |
| `Rebuild.ReachIffPath` | Lab_Assignments/LA1_Dependency_Rebuild/rebuild.c:81-121 | The modules the recursion visits from a root are exactly those with a dependency path from it |
| `Rebuild.ReachRank` | Lab_Assignments/LA1_Dependency_Rebuild/gendep.c:48-54 | Whatever is reachable comes later in the generator's permutation |
| `Rebuild.ClosedHoldsReach` | Lab_Assignments/LA1_Dependency_Rebuild/rebuild.c:87-87 | A done module already has everything below it done, so skipping it loses nothing |
| `Rebuild.LogExtend` | Lab_Assignments/LA1_Dependency_Rebuild/rebuild.c:129-136 | Printing a module whose dependencies are all done keeps the output in dependency order with no module twice |
| `Rebuild.VisitReaches` | Lab_Assignments/LA1_Dependency_Rebuild/rebuild.c:81-136 | The process for a module prints exactly what can be reached from it and was not done, each module once |
| `Rebuild.VisitInTurn` | Lab_Assignments/LA1_Dependency_Rebuild/rebuild.c:81-136 | Dependencies are handled from first to last: whatever can be reached from the first k of them is printed before everything else, and the module itself last |
| `Rebuild.VisitInside` | Lab_Assignments/LA1_Dependency_Rebuild/rebuild.c:87-99 | Within the output of a process, each module printed has the output of its own process in one piece, so the order holds at every depth |
| `Rebuild.OrderExample` | Lab_Assignments/LA1_Dependency_Rebuild/rebuild.c:81-136 | Four modules: 1 depends on 2, 3, 4 and 2 on 4; the output is 4, 2, 3, 1 |
| `Rebuild.Session.InitializeDone` | Lab_Assignments/LA1_Dependency_Rebuild/rebuild.c:12-22 | Nothing is done |
| `Rebuild.Session.UpdateDone` | Lab_Assignments/LA1_Dependency_Rebuild/rebuild.c:38-60 | Marks one module, whatever else the file holds |
| `Rebuild.Session.RebuildDependency` | Lab_Assignments/LA1_Dependency_Rebuild/rebuild.c:87-99 | A child does exactly the modules reachable from its dependency, and the parent sees them |
| `Rebuild.Session.FinishModule` | Lab_Assignments/LA1_Dependency_Rebuild/rebuild.c:128-136 | Prints and marks the module unless it is done |
| `Rebuild.Session.Process` | Lab_Assignments/LA1_Dependency_Rebuild/rebuild.c:63-137 | Terminates along the permutation; done grows by exactly the reachable set; each module is printed once, after all its dependencies; what is reached from earlier dependencies comes before the rest, and the module itself last |
| `Rebuild.Session.RebuildRoot` | Lab_Assignments/LA1_Dependency_Rebuild/rebuild.c:139-164 | From a fresh start, done is exactly the set of modules with a path from the root, and the output is in the order of the dependencies, the root last |
| `GenDep.BubblePass` | Lab_Assignments/LA1_Dependency_Rebuild/gendep.c:13-19 | One pass rearranges and brings the largest to the end |
| `GenDep.BubbleSort` | Lab_Assignments/LA1_Dependency_Rebuild/gendep.c:8-21 | The first n elements end up sorted, a permutation of themselves, the rest untouched |
| `GenDep.Shuffled` | Lab_Assignments/LA1_Dependency_Rebuild/gendep.c:33-36 | Whatever is drawn, the exchanges keep a permutation a permutation |
| `GenDep.EveryOrder` | Lab_Assignments/LA1_Dependency_Rebuild/gendep.c:33-36 | With the right draws the exchanges lead from any permutation to any other |
| `GenDep.EveryPositions` | Lab_Assignments/LA1_Dependency_Rebuild/gendep.c:33-36 | Every order of the modules comes up for some draws |
| `GenDep.Shuffle` | Lab_Assignments/LA1_Dependency_Rebuild/gendep.c:33-36 | The in-place loop makes exactly those exchanges |
| `GenDep.Invert` | Lab_Assignments/LA1_Dependency_Rebuild/gendep.c:37-37 | Gives each module its position |
| `GenDep.Collect` | Lab_Assignments/LA1_Dependency_Rebuild/gendep.c:50-51 | Gathers exactly the modules at marked positions |
| `GenDep.SortedDistinctIncreasing` | Lab_Assignments/LA1_Dependency_Rebuild/gendep.c:52-54 | Sorting a list without duplicates gives the same modules, strictly increasing |
| `GenDep.DependenciesOf` | Lab_Assignments/LA1_Dependency_Rebuild/gendep.c:48-56 | The list of a module is increasing and holds exactly the modules its position leads to |
| `GenDep.Generate` | Lab_Assignments/LA1_Dependency_Rebuild/gendep.c:33-57 | The graph is acyclic by position in the shuffle, and its lists are exactly the drawn edges |
| `EventHeap.RootIsLeast` | Lab_Assignments/LA3_CPU_Scheduling_Simulator/schedule.c:154-217 | No event in a heap is earlier than the root, and none at its time has a smaller process number |
| `EventHeap.SiftUpStep` | Lab_Assignments/LA3_CPU_Scheduling_Simulator/schedule.c:164-171 | An exchange with the parent moves the one place out of order up |
| `EventHeap.SiftDownStep` | Lab_Assignments/LA3_CPU_Scheduling_Simulator/schedule.c:182-194 | An exchange with the smaller child moves the one place out of order down |
| `EventHeap.TakeRoot` | Lab_Assignments/LA3_CPU_Scheduling_Simulator/schedule.c:179-180 | Moving the last event to the root leaves one place out of order and exactly the root missing |
| `EventHeap.EventQueue.AddEvent` | Lab_Assignments/LA3_CPU_Scheduling_Simulator/schedule.c:154-175 | Adds exactly the event, or drops it when full, and keeps the heap |
| `EventHeap.EventQueue.GetNextEvent` | Lab_Assignments/LA3_CPU_Scheduling_Simulator/schedule.c:177-199 | Removes and returns an event such that none is earlier and none at the same time has a smaller process number; keeps the heap and all other events |
| `EventHeap.EventQueue.Drain` | Lab_Assignments/LA3_CPU_Scheduling_Simulator/schedule.c:177-199 | Taking events until none is left yields all of them, by time from first to last and then by process number |
| `Sudoku.CluesConsistent` | Lab_Assignments/LA4_Foodoku_Distributed_Sudoku/boardgen.c:10-29 | The clues of a puzzle with a solution do not conflict |
| `Sudoku.UnitsMakeSolution` | Lab_Assignments/LA4_Foodoku_Distributed_Sudoku/boardgen.c:20-29 | Nine different digits in every row, column and block make a solution |
| `Sudoku.BaseDealt` | Lab_Assignments/LA4_Foodoku_Distributed_Sudoku/boardgen.c:10-29 | The boards written into the program are a puzzle and its solution |
| `BoardGen.Names` | Lab_Assignments/LA4_Foodoku_Distributed_Sudoku/boardgen.c:32-36 | Whatever is drawn, the digits 1 to 9 are permuted and 0 stays |
| `BoardGen.NamesStep` | Lab_Assignments/LA4_Foodoku_Distributed_Sudoku/boardgen.c:32-36 | One exchange of the shuffle: the names of the last digit not settled and of the one drawn change places |
| `BoardGen.EveryRenaming` | Lab_Assignments/LA4_Foodoku_Distributed_Sudoku/boardgen.c:32-36 | Every renaming of the nine digits comes up for some random numbers |
| `BoardGen.SourceKeepsSight` | Lab_Assignments/LA4_Foodoku_Distributed_Sudoku/boardgen.c:37-70 | Cells that share a row, column or block after the moves did so before |
| `BoardGen.DealConsistent` | Lab_Assignments/LA4_Foodoku_Distributed_Sudoku/boardgen.c:31-71 | Dealing a board without conflicts gives a board without conflicts |
| `BoardGen.DealIsDealt` | Lab_Assignments/LA4_Foodoku_Distributed_Sudoku/boardgen.c:31-71 | Dealing puzzle and solution alike gives a puzzle with its solution, for all draws |
| `BoardGen.ShuffleNames` | Lab_Assignments/LA4_Foodoku_Distributed_Sudoku/boardgen.c:32-36 | The in-place exchanges compute the permutation of the digits |
| `BoardGen.ExchangeRows` | Lab_Assignments/LA4_Foodoku_Distributed_Sudoku/boardgen.c:41-44 | The loop exchanges two whole rows of both boards |
| `BoardGen.ExchangeColumns` | Lab_Assignments/LA4_Foodoku_Distributed_Sudoku/boardgen.c:51-54 | The loop exchanges two whole columns of both boards |
| `BoardGen.Fill` | Lab_Assignments/LA4_Foodoku_Distributed_Sudoku/boardgen.c:57-70 | Fills a board through the digit names, turned over or not |
| `BoardGen.NewBoard` | Lab_Assignments/LA4_Foodoku_Distributed_Sudoku/boardgen.c:6-72 | The program leaves exactly the deals of the two boards |
| `BoardGen.NewBoardIsDealt` | Lab_Assignments/LA4_Foodoku_Distributed_Sudoku/boardgen.c:6-72 | What it leaves is a puzzle and its solution, for all random numbers |
| `Foodoku.RowNeighbours` | Lab_Assignments/LA4_Foodoku_Distributed_Sudoku/coordinator.c:20-25 | Exactly the other two blocks of the band |
| `Foodoku.ColumnNeighbours` | Lab_Assignments/LA4_Foodoku_Distributed_Sudoku/coordinator.c:28-34 | Exactly the other two blocks of the stack |
| `Foodoku.PlaceIsFair` | Lab_Assignments/LA4_Foodoku_Distributed_Sudoku/block.c:87-149 | An accepted placement keeps the board free of conflicts and the clues as they are |
| `Foodoku.AllowedIffConsistent` | Lab_Assignments/LA4_Foodoku_Distributed_Sudoku/block.c:94-149 | A placement in a gap is accepted if and only if it changes the cell and leaves the board free of conflicts |
| `Foodoku.AfterIsFair` | Lab_Assignments/LA4_Foodoku_Distributed_Sudoku/coordinator.c:158-212 | Every command keeps the game fair |
| `Foodoku.PlayIsFair` | Lab_Assignments/LA4_Foodoku_Distributed_Sudoku/coordinator.c:149-238 | Every sequence of n, s and p commands after a deal keeps the board free of conflicts and the clue cells unchanged |
| `Foodoku.SolveSolves` | Lab_Assignments/LA4_Foodoku_Distributed_Sudoku/coordinator.c:197-212 | Showing the solution of a fair game fills the board without conflict, in agreement with the clues, and no cell can be changed afterwards |
| `Foodoku.PlayOn` | Lab_Assignments/LA4_Foodoku_Distributed_Sudoku/coordinator.c:149-238 | Commands take effect one after another, from first to last |
| `Foodoku.PlayIsSolved` | Lab_Assignments/LA4_Foodoku_Distributed_Sudoku/coordinator.c:149-238 | However a board was played since it was dealt, command s solves it |
| `Foodoku.PlaceChanges` | Lab_Assignments/LA4_Foodoku_Distributed_Sudoku/block.c:147-149 | An accepted digit goes into its cell, and nothing else of the game changes |
| `Foodoku.FilledIsSolved` | Lab_Assignments/LA4_Foodoku_Distributed_Sudoku/coordinator.c:149-238 | A board filled in fairly solves its puzzle |
| `Foodoku.PlacedIffAllowed` | Lab_Assignments/LA4_Foodoku_Distributed_Sudoku/block.c:94-148 | The answer is acceptance exactly if the cell is no clue and neither it nor a cell it sees holds the digit |
| `Foodoku.CheckConflict` | Lab_Assignments/LA4_Foodoku_Distributed_Sudoku/block.c:41-46 | 1 exactly if the digit is among the three values |
| `Foodoku.Block.Receive` | Lab_Assignments/LA4_Foodoku_Distributed_Sudoku/block.c:75-85 | Both boards of the block hold the nine numbers received |
| `Foodoku.Block.AnswerRow` | Lab_Assignments/LA4_Foodoku_Distributed_Sudoku/block.c:156-167 | 1 exactly if the row of this block holds the digit |
| `Foodoku.Block.AnswerColumn` | Lab_Assignments/LA4_Foodoku_Distributed_Sudoku/block.c:169-180 | 1 exactly if the column of this block holds the digit |
| `Foodoku.Block.Place` | Lab_Assignments/LA4_Foodoku_Distributed_Sudoku/block.c:87-153 | Which of the five answers, in the order of the checks; the digit is placed exactly on acceptance |
| `Foodoku.RowKnown` | Lab_Assignments/LA4_Foodoku_Distributed_Sudoku/block.c:112-128 | Given no conflict in the own block, the two row answers tell exactly whether the whole row holds the digit |
| `Foodoku.ColumnKnown` | Lab_Assignments/LA4_Foodoku_Distributed_Sudoku/block.c:130-145 | The two column answers tell exactly whether the whole column does |
| `Foodoku.Session.constructor` | Lab_Assignments/LA4_Foodoku_Distributed_Sudoku/coordinator.c:92-147 | Nine blocks, and boards of the coordinator, holding whatever memory held; the game is what they hold |
| `Foodoku.Session.Slice` | Lab_Assignments/LA4_Foodoku_Distributed_Sudoku/coordinator.c:167-175 | The message to a block is its ninth of the board |
| `Foodoku.Session.Send` | Lab_Assignments/LA4_Foodoku_Distributed_Sudoku/coordinator.c:166-177 | Every block holds its ninth, in both its boards |
| `Foodoku.Session.NewGame` | Lab_Assignments/LA4_Foodoku_Distributed_Sudoku/coordinator.c:163-179 | Every block shows its ninth of the board dealt, in both its boards, and the solution dealt with it is kept |
| `Foodoku.Session.ShowSolution` | Lab_Assignments/LA4_Foodoku_Distributed_Sudoku/coordinator.c:197-212 | Every block shows its ninth of the solution, in both its boards |
| `Foodoku.Session.FindingIsVerdict` | Lab_Assignments/LA4_Foodoku_Distributed_Sudoku/block.c:94-145 | What one block finds from itself and four neighbours is the answer read off the whole board |
| `Foodoku.Session.PlaceDigit` | Lab_Assignments/LA4_Foodoku_Distributed_Sudoku/coordinator.c:181-195 | Exactly out-of-range input is refused as such; otherwise the distributed answer is that of the whole-board rule, and the digit goes into its cell exactly on acceptance |
| `Foodoku.Session.Run` | Lab_Assignments/LA4_Foodoku_Distributed_Sudoku/coordinator.c:149-238 | The command loop refines play on the whole board, also before the first deal |

## Left out

- BankerSession.NeverBlocked: says nothing of sessions with a harmful script, some of which do not block (a thread
  alone never does); the exact statement, over all harmless company, is BankerCompany.DeadlocksIffHarmful.
- PagingRun.SpinsExactlyWhen: a kernel in order that is about to spin is given (`PagingStart.SpinningHappens`), but no
  input that boots into a run reaching one; inputs with one search each or at most twelve processes do not.
- PagingOutcome.NeverSwapsIffSuffices: with several searches each and memory short, what is counted is told from the
  states passed through (PagingOutcome.UncountedIffLastSearchSwapped, PagingFit.MissesExactlyWhen), not from the keys.
- TurnPassing.StepInv: the leader's and followers' loop tests read the shared turn as one step, memory is
  sequentially consistent, and followers join with distinct numbers 1 to n (the unsynchronised increment at
  `Lab_Assignments/LA5_Leader_Follower_Shared_Memory/follower.cpp:96` is not modelled).
- Rendezvous.MoveInv: waits at semaphores do not wake spuriously, and a scan that finds no boat is no step.
- Rendezvous.RunEndsWell: the end-of-session barrier and the joining of threads after the last ride are left out.
- EventHeap.EventQueue.GetNextEvent: differences of times and numbers do not overflow; taking from an empty queue,
  which no caller does, is excluded.
- Foodoku.Session.PlaceDigit: placements are handled one at a time; replies left over from an earlier conflict, which
  the block reads as unknown commands, are not modelled.
- Rebuild.Session.Process: running `./rebuild` in a child is a recursive call, `done.txt` an array; the limits of 100
  modules and 256 characters are left out.
- ResourceManager.Manager.HandleRequest: for a thread that returns more than it holds, which the program does not check
  and generated scripts never do, only safety is stated; the check may then refuse what could be granted.
- Simulator.Simulate: each process has at least one search and at most 2038 * 1024 + 1 elements; beyond that some
  search reads outside the program's arrays.
- HashTable.Table.CheckAndUpdate: the table has a free slot; in a full table the program would probe for ever.
- Reading and printing of files in every program, including the parsing of maxima in the resource manager: maxima,
  totals, keys and graphs are inputs.
- The thread signalling of the resource manager (barriers, condition variables, a signal sent before its wait): the
  master handles one message at a time and a granted thread goes on.
- The resource manager without deadlock avoidance, and its `can_allocate`, which is never called.
- A pending request's amounts are a value in its list node, not an array owned by it.
- The spinning loop of the paging simulator is returned as an outcome, since it would never end.
- The ready queue, event handling and statistics of the CPU scheduler; they mix process numbers with indices.
- The restaurant, the ball game and the file search, and the quality of random numbers.
