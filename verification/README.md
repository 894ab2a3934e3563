# Verification of the ey engine, its memory library and its OpenCL samples

A Dafny model of the parts of the repository whose correctness is not plain from one body, with proofs.
`dafny verify dfyconfig.toml` checks all of it. Each directory is one part.

- `lowering/`: the statement lowering pass of the engine. A statement tree becomes a flat list of expression,
  branch, jump, pseudo and label nodes. `Syntax` and `Lowering` say what the pass computes, `Semantics` what tree
  and list mean (both as deterministic small-step machines, the tree with continuations, the list with a program
  counter), `WellFormed` what the parser and the oracles guarantee, `Engine` the pass as the source writes it, with
  node lists changed in place. The main result is `Preservation.LoweringPreservesMeaning`.
- `barrier/`: the reusable N-thread barrier on Win32. One step is one operating-system call or one access to a
  shared field; waiting and releasing the lock are separate steps. Safety, absence of lost wake-ups, absence of
  deadlock and a bound on every run are proved for all interleavings.
- `slab/`: the slab allocator and the flexible slab over it. Addresses, headers, tails and the intrusive free lists
  are modelled; `Zone` and `FlexZone` are the objects.
- `types/`: alignment macros, struct layout with bit-fields, and the folding of type specifiers.
- `symbols/`: the hash table, in one thread (`HashTable`) and in any number (`HashThreads`), and scoped lookup
  over it (`Scopes`), where a name is an address and a text.
- `gpu/`: the work partition, and the counting and the filling kernel under every interleaving of their work items.
- `bitmap/`: the bitmap reader and writer as functions on bytes and as loops; `FileFormat` says what they do to a file
  by offsets and bytes alone.
- `queue/`: the tail queues of the BSD macros as pointer structures that refine sequences.

## Readings of the source

- The three oracles about constants are parameters of the lowering pass. Two of them are stubs that return 0
  (`trunk/engine/eng_expr.c:2454-2464`); `Preservation.TruthOracleExact` says what they must satisfy.
- There is no interpreter of the list in the repository. The machine here reads the nodes as the comments in
  `trunk/engine/eng_stmt.c` draw them: the return point is allocated but never linked, so returning leaves the
  list, and a branch without a true target falls through.
- A switch compares in `unsigned long`, the type the pass gives its selector.
- `ey_stmt_contain_label` looks through blocks only. `Visibility.ShownLabelsSuffice` therefore asks that each
  part that may be dropped shows its labels that way, and the theorems of `Preservation` that no surviving jump, those
  of a switch to its cases included, names a label in dropped code (`WellFormed.KeepsTargets`). That is more than the
  list being closed: a switch whose body is dropped leaves a closed list and may still lose a case.
  `Closed.ClosedExactly` states both conditions, and `Limits` gives two functions where the meaning changes.
- The barrier assumes that the operating-system calls succeed and, as auto-reset events do, wake a waiter only when
  signalled. `quota` and `generation` are history variables that no step reads.
- A page that malloc hands out is disjoint from every other page; what its memory holds is arbitrary.
- `ey_type_is_declared` answers yes for `void`, so a struct may have a member of type void; and an array T[] that is
  the only member is taken, where the standard asks for another member before it.
- The case for `char` in `ey_type_combine` has no `break`, so `char signed` becomes `signed short`.
- The static rules that the lowering theorems ask for include distinct case values. The parser does not see to that:
  `ey_convert_label` is a stub that returns 0 (`trunk/engine/eng_sym.c:504-508`), and a case is looked up by a fresh
  copy of that number's text.
- Nothing interns names. Every occurrence of an identifier gets its own copy (`trunk/engine/eng_rule.y:990-1000`), and
  the hash is of the copy's address, so `int a; a;` finds `a` only if both copies fall on one line.
  `Scopes.RunsAgreeExactly` states when lookups are right, `Scopes.TwoCopies` gives the failing input.
- `storage_class_specifier declaration_specifiers` tests with `|` where a mask test is meant, so it always aborts.
- The number of hash lines is `2 ^ power2_size` with C's exclusive or.
- The bitmap reader does not seek to the header's offset, and both directions pad a row by
  `(4 - (3 * width) % 4) % 4` bytes also when a pixel is one byte.

## Model

| member | source | states |
|---|---|---|
| Preservation.LoweringPreservesMeaning | trunk/engine/eng_stmt.c:1590-1709 | for every well-formed function, store and expression semantics, the lowered list ends with an outcome (fell off the end with a store, returned a value with a store, faulted) exactly when structured execution does; labels, goto and switch included |
| Visibility.ShownLabelsSuffice | trunk/engine/eng_stmt.c:1590-1709 | the same for every well-formed function, with no condition but one on the tree: each branch, loop body and switch body that holds a label shows one through blocks, and each goto names a label of the function |
| Visibility.ContainsLabelExactly | trunk/engine/eng_stmt.c:446-461 | the search finds a label exactly when one is reached through blocks and other labels only |
| Visibility.ShownCaseEntered | trunk/engine/eng_stmt.c:1498-1567 | `switch (e) { case k: return; }` with the selector equal to k: the list enters the body at the case and returns |
| Visibility.FoldedShapes | trunk/engine/eng_stmt.c:471-496 | a constant condition without effect leaves no test, no branch and no code that cannot run: if, while, do and for around parts without labels |
| Preservation.LoweringPreservesDivergence | trunk/engine/eng_stmt.c:1590-1709 | the list runs for ever exactly when the function does |
| Preservation.NeverWild | trunk/engine/eng_stmt.c:1590-1709 | no run of the finished list jumps to a null or unplaced target |
| Preservation.FoldingUnobservable | trunk/engine/eng_stmt.c:471-496 | with sound oracles the constant-condition shapes of if, while, do and for end with the same outcomes as the general branch shapes |
| Preservation.TruthOracleExact | trunk/engine/eng_expr.c:2454-2464 | the pass keeps every function's outcomes exactly when the truth oracle is right on every constant |
| Preservation.StubExactly | trunk/engine/eng_expr.c:2454-2464 | with the stub, which always answers 0, every function's outcomes are kept exactly when no constant is true |
| Preservation.OneOutcome | trunk/engine/eng_stmt.c:1590-1709 | structured execution has at most one outcome, so the two-way result above pins it down |
| Limits.LostExactly | trunk/engine/eng_stmt.c:1590-1709 | for every well-formed function whose switches keep their labels and whose gotos name its labels: the list ends in a wild jump from exactly the stores from which the function comes to a goto whose label lies in dropped code, and from every other store it has the function's outcomes |
| Limits.HiddenLabelLost | trunk/engine/eng_stmt.c:446-496 | a concrete function whose label lies under a loop in a folded branch: the list jumps to nowhere where the function does not |
| Limits.HiddenCaseLost | trunk/engine/eng_stmt.c:1498-1499 | a concrete switch whose case lies under a loop: the function returns at the case, the list never enters the body |
| Closed.ClosedExactly | trunk/engine/eng_stmt.c:1590-1709 | every branch, jump, goto, break and continue target is a node of the list exactly when every label that lowered code jumps to is kept; every return targets the return point; no surviving jump names a label in dropped code exactly when the list is closed and no switch has lost its body |
| FlatLayout.NoNodeTwice | trunk/engine/eng_stmt.c:1683-1709 | in the finished list no node occurs twice, and the return point does not occur, so returns leave the list |
| FlatLayout.LowerIds | trunk/engine/eng_stmt.c:1590-1681 | lowering one statement places each of its nodes and each new node at most once, and nothing else |
| FlatLayout.LowerSeqIds | trunk/engine/eng_stmt.c:422-444 | the same for the statements of a block |
| FlatLayout.ChainIds | trunk/engine/eng_stmt.c:1511-1560 | the compare chain uses only identities handed out for it |
| Targets.BreakLands | trunk/engine/eng_stmt.c:1570-1578 | the break point in force is where the innermost enclosing loop or switch of the structured program is left |
| Targets.ContinueLands | trunk/engine/eng_stmt.c:1580-1588 | the continue point in force is where the innermost enclosing loop resumes, seen through switches |
| Targets.LabelLands | trunk/engine/eng_stmt.c:353-374 | every label of lowered code is a position of the list whose code matches the labelled statement and what follows it |
| Targets.LabelPointsNext | trunk/engine/eng_stmt.c:353-420 | a label, case or default node stands in front of its statement's code and points at the first node of it, or at none |
| Targets.BranchPointsNext | trunk/engine/eng_stmt.c:570-678 | the branch of a tested conditional never has a null target and points at the next node if its branch has code |
| Targets.LoopPointsNext | trunk/engine/eng_stmt.c:860-886 | the branch of a tested while or for loop has a null true target exactly if the body has no code, points at the next node otherwise, and leaves to the loop's last node |
| Simulation.SimStep | trunk/engine/eng_stmt.c:1590-1681 | every step of structured execution is matched by finitely many steps of the list, with a measure that excludes endless stuttering |
| Simulation.EndsForward | trunk/engine/eng_stmt.c:1590-1709 | a finished structured run is a finished run of the list with the same outcome |
| Simulation.EndsBackward | trunk/engine/eng_stmt.c:1590-1709 | a finished run of the list is a finished structured run with the same outcome |
| Simulation.SelectCaseMeans | trunk/engine/eng_stmt.c:1511-1548 | the case selected is one whose value equals the selector as unsigned long, and none is selected only if no case matches |
| Simulation.SelectCasePlain | trunk/engine/eng_stmt.c:1511-1548 | with selector and cases in one 64-bit range, signed or unsigned, the case selected is one of the selector's very value (section 6.8.4.2 of ISO/IEC 9899:1999) |
| Simulation.SelectDefaultMeans | trunk/engine/eng_stmt.c:1511-1519 | the default found is a default label, and none is found only if there is none |
| Simulation.SelectAnyOrder | trunk/engine/eng_stmt.c:1511-1548 | for distinct cases the label selected does not depend on the order of the label list |
| Simulation.DefaultTargetMeans | trunk/engine/eng_stmt.c:1511-1560 | the chain's last jump aims at the default label, or at the break point when there is none |
| Simulation.ChainRuns | trunk/engine/eng_stmt.c:1511-1560 | running the compare chain ends at the first case equal to the selector, or at the default target, with store and selectors unchanged |
| Simulation.SwitchRuns | trunk/engine/eng_stmt.c:1462-1567 | the selector is evaluated once and control enters the body at the selected label, or goes to the break point |
| Engine.Lowerer.FunctionPrepare | trunk/engine/eng_stmt.c:1683-1709 | fills a statement list in place with exactly the lowered list and its node contents; fails exactly when the slab runs out, with an error set |
| Engine.Lowerer.Prepare | trunk/engine/eng_stmt.c:1590-1681 | appends the lowered code of a statement to the list in place, moving and rewriting nodes as the source does |
| Engine.Lowerer.PrepareDec | trunk/engine/eng_stmt.c:320-342 | one node for each initialiser, in order |
| Engine.Lowerer.PrepareLabel | trunk/engine/eng_stmt.c:353-420 | the label node first, then the body, whose first node it points at |
| Engine.Lowerer.PrepareBlock | trunk/engine/eng_stmt.c:422-444 | the statements in order |
| Engine.Lowerer.PrepareIf | trunk/engine/eng_stmt.c:463-683 | both foldings and all four branch shapes |
| Engine.Lowerer.JoinBranches | trunk/engine/eng_stmt.c:570-678 | two prepared lists joined by branch, jump and tail; null branch targets never remain where code follows |
| Engine.Lowerer.PrepareWhile | trunk/engine/eng_stmt.c:705-889 | dropped, endless and conditional loops |
| Engine.Lowerer.PrepareDoWhile | trunk/engine/eng_stmt.c:891-1089 | body once, endless and conditional loops |
| Engine.Lowerer.PrepareFor | trunk/engine/eng_stmt.c:1091-1366 | first clause, then dropped, endless and conditional loops |
| Engine.Lowerer.PrepareSwitch | trunk/engine/eng_stmt.c:1368-1568 | selector assignment, compare chain, body, break point; only the assignment when no label is visible |
| Engine.Lowerer.AppendChain | trunk/engine/eng_stmt.c:1511-1560 | the loop over the label list, each branch aimed at the next one once that exists |
| Engine.Lowerer.PrepareLeaf | trunk/engine/eng_stmt.c:685-703 | expression, goto, return, break and continue nodes with the points passed down |
| Engine.LowerGrows | trunk/engine/eng_stmt.c:1590-1681 | the pass hands out new nodes only |
| Barrier.NobodyLeavesEarly | trunk/apu/src/SDKUtil/SDKThread.cpp:202-252 | in every interleaving, when a thread has left its k-th call every thread has entered its k-th call |
| Barrier.NobodyRunsAhead | trunk/apu/src/SDKUtil/SDKThread.cpp:202-252 | two threads are never a full generation apart |
| Barrier.StepRefinesIdeal | trunk/apu/src/SDKUtil/SDKThread.cpp:202-445 | every step of the program is a step of a barrier with one atomic enter and one atomic leave for each call, or does not show |
| Barrier.NoLostWakeUp | trunk/apu/src/SDKUtil/SDKThread.cpp:255-331 | a thread blocked on an unsignalled event either belongs to an incomplete generation and stands in the wait set, or a running broadcast has yet to come to its event |
| Barrier.CompleteGenerationWakes | trunk/apu/src/SDKUtil/SDKThread.cpp:255-331 | once all threads of a generation have been counted and its broadcast is over, none of them is blocked |
| Barrier.LockCountIsDepth | trunk/apu/src/SDKUtil/SDKThread.cpp:373-445 | _nLockCount equals the owner's depth of the lock, but for the one enter or leave that is under way |
| Barrier.NeverRefused | trunk/apu/src/SDKUtil/SDKThread.cpp:373-398 | wait and endSynchronized never find that the caller does not hold the lock |
| Barrier.WaitRefusesExactly | trunk/apu/src/SDKUtil/SDKThread.cpp:255-262 | for any caller, wait goes on exactly if the caller holds the lock, and otherwise returns with lock and count as they were |
| Barrier.EndRefusesExactly | trunk/apu/src/SDKUtil/SDKThread.cpp:373-398 | for any caller, endSynchronized goes on to leave the lock exactly if the caller holds it |
| Barrier.NeverStuck | trunk/apu/src/SDKUtil/SDKThread.cpp:202-445 | no deadlock: until all threads have made all their calls some thread can move |
| Barrier.RunsEnd | trunk/apu/src/SDKUtil/SDKThread.cpp:202-445 | under every schedule the threads together take at most 25 steps for each call |
| Barrier.StoppedMeansFinished | trunk/apu/src/SDKUtil/SDKThread.cpp:202-445 | where no thread can move, every thread has returned from all its calls |
| Barrier.CanAlwaysFinish | trunk/apu/src/SDKUtil/SDKThread.cpp:202-445 | from every reachable state all threads can be brought through all their calls |
| CondVarSafety.InvStep | trunk/apu/src/SDKUtil/SDKThread.cpp:202-445 | one step of any thread keeps the whole invariant: lock ownership and depth, the thread count, the wait set and the events |
| CondVarSafety.InvInit | trunk/apu/src/SDKUtil/SDKThread.cpp:132-166 | the state init leaves behind satisfies the invariant, for 1 to 2^32 - 1 threads |
| CondVarSafety.AllBlocked | trunk/apu/src/SDKUtil/SDKThread.cpp:213-232 | when the last thread of a generation decides, every other thread waits for the broadcast |
| CondVarSafety.FullAtDeciding | trunk/apu/src/SDKUtil/SDKThread.cpp:213-218 | the unsigned comparison with _maxThreads - 1 holds exactly when all threads of the generation have been counted |
| CondVarEvents.OpenExactly | trunk/apu/src/SDKUtil/SDKThread.cpp:262-308 | in every reachable state the open events are exactly those of the threads inside wait, and none is open when all have returned |
| CondVarEvents.SignalledOnce | trunk/apu/src/SDKUtil/SDKThread.cpp:288-331 | a signalled event is that of a thread that has yet to wake by it, and no broadcast will signal it again |
| SlabRuns.LegalRunsAreSafe | trunk/libmemory/ey_slab.c:88-172 | over every run of allocations and legal frees neither crash branch is reached, no item is handed out while it is held, and what the client holds is exactly what the slab has in use |
| SlabRuns.RunsFromInit | trunk/libmemory/ey_slab.c:88-216 | the same from ey_zinit, for every item size up to 992 |
| SlabRuns.AllocKeeps | trunk/libmemory/ey_slab.c:88-126 | ey_zalloc returns NULL exactly when every page is full and malloc fails; otherwise one item not in use, and the invariant holds again |
| SlabRuns.OutOfItems | trunk/libmemory/ey_slab.c:88-113 | the alloc list is empty exactly when every item of every page is in use |
| SlabRuns.FreeExactly | trunk/libmemory/ey_slab.c:128-172 | ey_zfree succeeds exactly on items in use, reports a double free exactly on free items of live pages, and never finds a tail overwritten |
| SlabOrder.OverwriteExactly | trunk/libmemory/ey_slab.c:135-141 | whatever has been written over the tails, a release is stopped for it exactly if the item's own tail has changed |
| SlabOrder.ReusedNext | trunk/libmemory/ey_slab.c:88-172 | the item given back last is handed out next if its page is first or the only one with free items; otherwise its page is queued and the next item is as before |
| SlabOrder.NewPageFromItsEnd | trunk/libmemory/ey_slab.c:61-86 | a new page hands out its last item first |
| SlabRuns.PayloadsApart | trunk/libmemory/ey_slab.c:17-43 | payloads of items in use meet no other payload, header, tail or page header, and lie in the page HEAD2PAGE gives |
| SlabRuns.CountersExact | trunk/libmemory/ey_slab.c:45-58 | alloc_item_count is the number of items in use and the sum over pages of items per page less free items; page_count is the pages of the two lists |
| SlabRuns.ClearForgets | trunk/libmemory/ey_slab.c:218-232 | ey_zclear gives every page back and leaves the slab as ey_zinit did |
| SlabRuns.AcceptedFits | trunk/libmemory/ey_slab.c:174-216 | a size that ey_zinit accepts gives a sound page layout exactly when it is at most 992 |
| SlabRuns.RoundsUp | trunk/libmemory/ey_slab.c:180-189 | the item size is the request rounded up by less than eight bytes to a multiple of eight |
| SlabRuns.HugeSizeAccepted | trunk/libmemory/ey_slab.c:189-193 | 2^30 - 24 bytes are accepted, because four items wrap to zero in an int, and such a slab has no item in a page |
| SlabJunk.JunkUnobservable | trunk/libmemory/ey_slab.c:61-86 | over every legal run the answers do not depend on what malloc's memory held, although free_item is never initialised: no link past the first free_count free items is followed |
| SlabMoves.TakeFirstKeeps | trunk/libmemory/ey_slab.c:93-125 | taking the first free item of the first alloc page meets no bad link, changes the items in use by that item and keeps lists and counters |
| SlabMoves.FreeReturns | trunk/libmemory/ey_slab.c:146-171 | an item that is not its page's last goes back to the page; a full page moves to the alloc list |
| SlabMoves.FreeGivesBack | trunk/libmemory/ey_slab.c:147-154 | the page of the last item in use is on the alloc list and goes back to malloc, and no other item in use goes with it |
| SlabMoves.LastItem | trunk/libmemory/ey_slab.c:147-154 | with all but one item of a page free, the others are all on its free list |
| SlabSteps.GetPageKeeps | trunk/libmemory/ey_slab.c:61-86 | a new page adds its items as free ones and disturbs nothing |
| SlabInvariant.EnoughItems | trunk/libmemory/ey_slab.c:189-207 | the size test leaves at least four items in a page |
| Zone.Zone.constructor | trunk/libmemory/ey_slab.c:174-216 | the initialised slab, empty and with the invariant |
| Zone.Zone.TakePage | trunk/libmemory/ey_slab.c:61-86 | the loop that carves a page in place |
| Zone.Zone.Alloc | trunk/libmemory/ey_slab.c:88-126 | the retry loop: at most one new page, then an item that was not in use |
| Zone.Zone.Free | trunk/libmemory/ey_slab.c:128-172 | gives one item back in place and keeps the invariant |
| Zone.Zone.Clear | trunk/libmemory/ey_slab.c:218-232 | both page lists walked and released |
| Flex.FzFreeExactly | trunk/libmemory/ey_fslab.c:103-120 | ey_fzfree returns a block to the backend that issued it exactly when size + header differs from the slab's item size; at equality a slab item is unlinked from malloc_list, where it is not |
| Flex.UnbalancedReached | trunk/libmemory/ey_fslab.c:72-120 | in every new flexible slab of size 1 to 968 one allocation gives a block of that size, whose release fails |
| Flex.FzAllocKeeps | trunk/libmemory/ey_fslab.c:72-101 | ey_fzalloc hands out a block that was not in use; malloc_list holds exactly the live large blocks |
| Flex.FlexRunsAreSafe | trunk/libmemory/ey_fslab.c:72-120 | over every run without requests of that one size each block goes back to where it came from |
| Flex.RoomExactly | trunk/libmemory/ey_fslab.c:72-101 | a block, from malloc or from the slab, has room for the size asked for exactly when size + header does not wrap |
| Flex.FzInitKeeps | trunk/libmemory/ey_fslab.c:28-70 | a new flexible slab is empty and sound; size 0 means no slab |
| Flex.FzInitExactly | trunk/libmemory/ey_fslab.c:28-70 | initialisation is refused exactly for sizes that are negative or overflow with the header added, and there is no slab exactly for size 0 and sizes that ey_zinit refuses |
| FlexZone.FlexZone.Alloc | trunk/libmemory/ey_fslab.c:72-101 | the allocation in place, over the slab object |
| FlexZone.FlexZone.Free | trunk/libmemory/ey_fslab.c:103-120 | the release in place, for blocks of balanced size |
| Alignment.AlignExactly | trunk/engine/eng_mem.h:6-14 | align_offset is the least multiple not below the offset exactly when the offset is positive or the alignment divides 2^64 |
| Alignment.ThreeIsWrong | trunk/engine/eng_mem.h:10-14 | a concrete failing input: offset 0 aligned to 3 gives 2 |
| Alignment.AlignIsRoundUp | trunk/engine/eng_mem.h:10-14 | for alignments that divide 2^64 it is rounding up, at every offset, the wrapped subtraction at 0 included |
| Alignment.RoundUpLeast | trunk/engine/eng_mem.h:10-14 | rounding up gives the least multiple, less than one alignment away |
| StructLayout.BitsPlacedAs | trunk/engine/eng_type.c:1059-1103 | placing a bit-field with the (offset, bit_offset) pair, which may move backwards, is the move of a one-variable bit cursor, inside the field's unit |
| StructLayout.PlainPlacedAs | trunk/engine/eng_type.c:1105-1148 | placing a plain member starts at the next aligned byte of that cursor |
| StructTheorems.FollowsCursor | trunk/engine/eng_type.c:1052-1149 | each member of an accepted struct starts at the bit the one-variable cursor gives, aligned, a bit-field inside its own unit |
| StructTheorems.MembersApart | trunk/engine/eng_type.c:1052-1149 | members are pairwise disjoint in bits and in order of declaration |
| StructTheorems.SizeCovers | trunk/engine/eng_type.c:1151-1153 | the size covers every member and is a multiple of the alignment, which is a multiple of every member's |
| StructTheorems.SizeExactly | trunk/engine/eng_type.c:1151-1153 | the size is the least multiple of the alignment that no member ends behind, and the alignment the largest among the members, 0 without any |
| StructTheorems.RefusedExactly | trunk/engine/eng_type.c:1057-1127 | a struct is refused exactly when some member is, with the first such member's fault |
| StructEngine.StructType.SetStructType | trunk/engine/eng_type.c:1039-1154 | the loop over the members that writes each of them in place, up to the refused one |
| StructTheorems.AcceptedExactly | trunk/engine/eng_type.c:1057-1127 | a struct is laid out exactly when each member is one that section 6.7.2.1 of ISO/IEC 9899:1999 allows, or of type void, or an array T[] on its own; otherwise the first other member is reported |
| StructTheorems.StandardExactly | trunk/engine/eng_type.c:1057-1127 | acceptance agrees with the standard's rule exactly for structs that are refused or have no void member and no lone array T[] |
| StructTheorems.VoidMemberTaken | trunk/engine/eng_type.c:1105-1131 | a concrete struct with a member of type void is laid out |
| StructEngine.PlaceMember | trunk/engine/eng_type.c:1074-1148 | the part of the loop that moves the cursor and writes the member |
| Specifiers.FoldMeansExactly | trunk/engine/eng_type.c:621-880 | folding a specifier list of any length from the right gives the meaning of its multiset exactly when it is not one of the four lists the missing break after the char case misreads |
| Specifiers.FoldIs | trunk/engine/eng_rule.y:1899-1913 | what the fold gives for every list, the misread ones included |
| Specifiers.OrderDoesNotMatter | trunk/engine/eng_rule.y:1899-1913 | reordering the specifiers changes nothing, nor does a qualifier or storage class after the last |
| Specifiers.FoldItemsIs | trunk/engine/eng_rule.y:1857-1945 | with qualifiers and storage classes in the list: qualifiers anywhere and a storage class at the end change nothing, and a storage class anywhere else makes every list refused |
| Specifiers.StaticInt | trunk/engine/eng_rule.y:1880-1884 | `static int` is refused, `int static` is accepted |
| Specifiers.NormalType | trunk/engine/eng_type.c:553-619 | arithmetic specifiers are accepted exactly when they name a width and at most one sign (section 6.7.2 of ISO/IEC 9899:1999), and normalise to that type |
| Specifiers.OthersStay | trunk/engine/eng_type.c:553-619 | void, float, double, structs, unions and enumerations combine with no other specifier and are their own normal type |
| Scopes.RunsAgreeExactly | trunk/engine/eng_sym.c:18-36 | for every hash of addresses and every run of push, pop, declarations at any level (each not outside a live one of its name on its line) and withdrawals: each of the two lookups in the flat table gives what the stack of scopes gives exactly if that is nothing, or a declaration whose own copy of the name falls on the key's line |
| Scopes.RunsAgree | trunk/engine/eng_sym.c:341-470 | where all copies of a name fall on one line, over the same runs each lookup gives what the stack of scopes gives, and no scope comes to hold a name twice |
| Scopes.TwoCopies | trunk/engine/eng_rule.y:990-1000 | a concrete failing input in tables of every size: with two copies of a name the use does not find the declaration, and a second declaration in the same scope is accepted |
| Scopes.ActAgrees | trunk/engine/eng_rule.y:4728-4740 | each event keeps table and stack in step, line by line, whether or not the level declared at is open |
| Scopes.LevelCounts | trunk/engine/eng_rule.y:4728-4740 | after every run the level is what it was, plus pushes, less pops, counted on the events |
| Scopes.BlockCloses | trunk/engine/eng_rule.y:4728-4740 | after a push, any well-nested run and a pop the level is what it was and no lookup, whatever it compares, finds a declaration further in |
| Scopes.PopKeepsOuter | trunk/engine/eng_rule.y:4733-4740 | a pop takes no declaration outside the scope it closes |
| Scopes.FindExactly | trunk/engine/eng_sym.c:341-369 | ey_find_symbol finds the innermost declaration exactly if there is none or its copy is on the key's line |
| Scopes.FindLevelExactly | trunk/engine/eng_sym.c:371-399 | ey_find_level_symbol finds the innermost declaration from a level inwards exactly under the same condition |
| Scopes.InsertAgrees | trunk/engine/eng_sym.c:401-423 | insertion at any level is refused for a conflict exactly when the scope has the name on that line, accepted exactly when it has not and there is memory and room, and then declares it |
| Scopes.InsertAgreesExactly | trunk/engine/eng_sym.c:401-423 | after head insertion the line's first entry of the name is its innermost declaration exactly when no live declaration of the name on that line is further in |
| Scopes.GuardSuffices | trunk/engine/eng_rule.y:4167-4182 | a level lookup that finds nothing is exactly what makes the insertion that follows it right |
| Scopes.RemoveAgrees | trunk/engine/eng_sym.c:425-439 | removal takes a declaration of that name and level on the copy's line out of its scope, and reports a missing key exactly if there is none |
| Scopes.PurgeAgrees | trunk/engine/eng_sym.c:441-470 | purging at a level leaves exactly the scopes outside it |
| Scopes.StartsInStep | trunk/libmemory/ey_hash.c:37-108 | a fresh table holds the stack with one empty scope |
| Hash.LinesInBounds | trunk/libmemory/ey_hash.c:48-58 | the exclusive or gives 8 to 22 lines for every power asked for, and every key's line is one of them |
| Hash.And | trunk/libmemory/ey_hash.c:58-91 | a masked value is at most either operand |
| Hash.BitwiseExactly | trunk/libmemory/ey_hash.c:58-91 | bit by bit the operators are conjunction and difference |
| Hash.CountKept | trunk/libmemory/ey_hash.c:174-280 | count is the number of entries and at most the limit, so no removal finds it at zero |
| HashTable.HashTable.constructor | trunk/libmemory/ey_hash.c:37-108 | parameters clamped, every line empty |
| HashTable.HashTable.FindEx | trunk/libmemory/ey_hash.c:152-172 | the first entry of the key's line that compares equal |
| HashTable.HashTable.Put | trunk/libmemory/ey_hash.c:174-212 | insertion in place with its three refusals |
| HashTable.HashTable.Take | trunk/libmemory/ey_hash.c:214-250 | removal in place of the first equal entry |
| HashTable.HashTable.PurgeLine | trunk/libmemory/ey_hash.c:262-277 | one line walked while matching entries are unlinked |
| HashTable.HashTable.Purge | trunk/libmemory/ey_hash.c:252-280 | all lines purged in place |
| HashThreads.CounterExact | trunk/libmemory/ey_hash.c:174-280 | with any number of threads, at every step count is the entries plus the inserts counted but not linked less the removals uncounted but not unlinked, within the limit, and no thread finds it at zero |
| HashThreads.InvStep | trunk/libmemory/ey_hash.c:174-280 | one step of any thread keeps lock ownership, what the holder of a line knows of its entries, and both forms of the counter equation |
| HashThreads.LinkingStep | trunk/libmemory/ey_hash.c:174-280 | the step that changes a line: an insertion goes in front of a line where no entry is the same, a removal takes the first that is, a purge the first from its level on |
| HashThreads.OthersKeepEntries | trunk/libmemory/ey_hash.c:174-280 | no other step of any thread changes any line's entries |
| HashThreads.GivesUpExactly | trunk/libmemory/ey_hash.c:186-231 | an insertion is a conflict exactly if an entry of the line is the same, a removal finds no key exactly if none is |
| HashThreads.LimitExactly | trunk/libmemory/ey_hash.c:194-201 | an insertion is refused for the limit exactly if the counter has come to it |
| HashThreads.PurgeComplete | trunk/libmemory/ey_hash.c:252-280 | when a purge has finished, whatever the other threads did but insert from its level on, no line holds an entry from that level on |
| HashThreads.WeightsPositive | trunk/libmemory/ey_hash.c:234-239 | a thread about to lower the counter does not find it at zero |
| Partition.ComputeGlobals | trunk/apu/src/KernelLaunch/KernelLaunch.cpp:419-442 | the sizing loop ends, with a thread count that is the least multiple of the group size, from the guess on, that divides the items |
| Kernel.VisitedOnce | trunk/apu/src/KernelLaunch/KernelLaunch_Kernels.cl:22-29 | each vector is read by exactly one work item, in exactly one round of a pass |
| Kernel.Rounds | trunk/apu/src/KernelLaunch/KernelLaunch_Kernels.cl:22-29 | after each round the work items together have counted exactly the vectors up to that round |
| Kernel.GroupStep | trunk/apu/src/KernelLaunch/KernelLaunch_Kernels.cl:4-36 | one step of any work item keeps the group's invariant: partial counts, the shared counter and the barriers |
| Launches.ResultsAddUp | trunk/apu/src/KernelLaunch/KernelLaunch_Kernels.cl:4-36 | for every buffer and every interleaving of work items the groups' results add up to the number of 32-bit words equal to val |
| Kernel.CountIsOccurrences | trunk/apu/src/KernelLaunch/KernelLaunch_Kernels.cl:22-29 | what the theorems count is how often val occurs among the words of the vectors |
| Launches.NoLoopsNoWrite | trunk/apu/src/KernelLaunch/KernelLaunch_Kernels.cl:10 | with a loop count of zero no run of any items writes anything |
| Launches.NeverStuck | trunk/apu/src/KernelLaunch/KernelLaunch_Kernels.cl:18-35 | no barrier holds a group up: until all items have finished some item can go on |
| Launches.RunsEnd | trunk/apu/src/KernelLaunch/KernelLaunch_Kernels.cl:4-36 | every run of the read kernel ends: its length and the steps left add up to the steps there were |
| Launches.StoppedAddsUp | trunk/apu/src/KernelLaunch/KernelLaunch_Kernels.cl:4-36 | where no item can go on all have finished, and the groups' results add up to the number of words equal to val |
| Launches.VerifyExactly | trunk/apu/src/KernelLaunch/KernelLaunch.cpp:244-264 | the host's check passes exactly when every word of the buffer is val |
| Launches.SumResults | trunk/apu/src/KernelLaunch/KernelLaunch.cpp:249-252 | the loop over the groups' results, in 32 bits |
| Launches.SizesFit | trunk/apu/src/KernelLaunch/KernelLaunch.cpp:180-199 | the sizes computed make a launch whose strided loops cover the buffer |
| WriteKernel.WritesEverything | trunk/apu/src/KernelLaunch/KernelLaunch_Kernels.cl:38-55 | for every buffer and every interleaving of work items, once all have returned every word is val, or with a loop count of zero the buffer is as it was |
| WriteKernel.WriteRunsEnd | trunk/apu/src/KernelLaunch/KernelLaunch_Kernels.cl:38-55 | every run of the write kernel ends: its length and the steps left add up to the steps there were |
| WriteKernel.WrittenIsVerified | trunk/apu/src/KernelLaunch/KernelLaunch_Kernels.cl:4-55 | what the write kernel has filled passes the read kernel's check exactly for the same value |
| WriteKernel.FilledIsVerified | trunk/apu/src/KernelLaunch/KernelLaunch.cpp:384-396 | after the host has filled the buffer with a byte, the kernel's check passes exactly for that byte |
| WriteKernel.RepeatByte | trunk/apu/src/KernelLaunch/KernelLaunch.cpp:184-190 | the loop that repeats a byte in all four bytes of a word |
| RoundTrip.StableAfterFirstWrite | trunk/apu/src/SDKUtil/SDKBitMap.cpp:170-399 | from any file that loads, writing and loading again gives the same bitmap, and writing again the same bytes |
| RoundTrip.LoadAfterWrite | trunk/apu/src/SDKUtil/SDKBitMap.cpp:170-399 | for every width, height and palette, duplicate colours included, loading what was written gives the bitmap back |
| RoundTrip.LoadIsFaithful | trunk/apu/src/SDKUtil/SDKBitMap.cpp:251-304 | every loaded pixel is a palette colour, or has the w component that load fills in |
| FileFormat.LoadExactly | trunk/apu/src/SDKUtil/SDKBitMap.cpp:182-245 | a file loads exactly if its bytes say BM, not compressed, 8 bits or more, and the rows its width and height need are there; it is refused exactly if one of the first three is not so |
| FileFormat.LoadedBytes | trunk/apu/src/SDKUtil/SDKBitMap.cpp:268-293 | for every file that loads, width times height pixels, and pixel (x, y) is the three bytes, blue first, or the palette entry of the one byte, at its offset in the file |
| FileFormat.WrittenHeaders | trunk/apu/src/SDKUtil/SDKBitMap.cpp:321-399 | the written file has the headers as they were, the palette entry by entry, and exactly the rows' bytes behind them |
| FileFormat.WrittenPixel | trunk/apu/src/SDKUtil/SDKBitMap.cpp:363-390 | each pixel is written blue first, or as the index of the first palette entry that is its colour, at its offset in the file |
| FileFormat.WrittenPadding | trunk/apu/src/SDKUtil/SDKBitMap.cpp:385-390 | the bytes behind the pixels of a row are zero |
| RoundTrip.PixelBack | trunk/apu/src/SDKUtil/SDKBitMap.cpp:363-390 | the reader finds each pixel where the writer put it, row padding included |
| RoundTrip.FirstEntryWins | trunk/apu/src/SDKUtil/SDKBitMap.cpp:306-319 | a colour that is twice in the palette is written as its first entry |
| BitMap.RowAlignment | trunk/apu/src/SDKUtil/SDKBitMap.cpp:289-292 | rows are a multiple of four bytes for every width with three bytes a pixel, with one byte only for even widths |
| BitMap.PaletteRoundTrip | trunk/apu/src/SDKUtil/SDKBitMap.cpp:214-232 | the palette read back is the palette written |
| SDKBitMap.SDKBitMap.LoadFrom | trunk/apu/src/SDKUtil/SDKBitMap.cpp:170-304 | the reader in place: a bitmap is loaded exactly when the file is one |
| SDKBitMap.SDKBitMap.Save | trunk/apu/src/SDKUtil/SDKBitMap.cpp:321-399 | the writer's nested loops produce exactly the file |
| SDKBitMap.ReadPixels | trunk/apu/src/SDKUtil/SDKBitMap.cpp:268-293 | the running index of the nested loops is each pixel's place in its row |
| SDKBitMap.FindColor | trunk/apu/src/SDKUtil/SDKBitMap.cpp:306-319 | the search for a colour, 0 when it is not there |
| TailQueue.InsertHead | trunk/include/ey_queue.h:491-501 | puts the element in front of the sequence, all pointers consistent |
| TailQueue.InsertTail | trunk/include/ey_queue.h:503-510 | puts it at the end |
| TailQueue.InsertAfter | trunk/include/ey_queue.h:468-480 | puts it behind the given element |
| TailQueue.InsertBefore | trunk/include/ey_queue.h:482-489 | puts it before the given element without the head |
| TailQueue.Remove | trunk/include/ey_queue.h:520-532 | takes exactly that element out, in place, from either end or the middle |
| TailQueue.Concat | trunk/include/ey_queue.h:427-436 | appends the second queue and leaves it empty, writing two elements only |
| TailQueue.RemoveMarked | trunk/include/ey_queue.h:447-450 | safe traversal with removal visits every element and leaves exactly the unmarked ones |
| TailQueue.OneSequence | trunk/include/ey_queue.h:406-462 | the pointers determine the sequence |
| TailQueue.BackPointers | trunk/include/ey_queue.h:406-462 | a back pointer is the address of the pointer to the element |
| SingleTailQueue.Reverse | trunk/include/ey_queue.h:310-318 | leaves exactly the reversed sequence, last pointer included |
| SingleTailQueue.ReversedAt | trunk/include/ey_queue.h:310-318 | element i of the reversed sequence is element i from the end |
| SingleTailQueue.Splice | trunk/include/ey_queue.h:320-332 | moves exactly the elements from the given one on to the end of the second queue |
| SingleTailQueue.InsertHead | trunk/include/ey_queue.h:264-268 | puts the element in front |
| SingleTailQueue.InsertTail | trunk/include/ey_queue.h:270-274 | puts it at the end |

## Left out

- LoweringPreservesMeaning: says nothing of functions in which dropped code holds a label that surviving code jumps to; `Limits.LostExactly` says for which stores that matters when the jump is a goto, and for switches that lose a case there is a concrete function.
- StepRefinesIdeal: is about the Win32 code; the POSIX branch of SDKThread.cpp (one mutex, one condition variable, a wait that is not in a loop) is not part of this model.
- FunctionPrepare: one budget stands for the statement slab and the selector's symbol; running out of expression nodes while a switch is lowered, error texts, levels and locations are not modelled.
- LegalRunsAreSafe: is about one thread; the flag of an item is set after the spin lock is left, which two threads could interleave.
- CounterExact: leaves out readers, who take the lines' read locks and change nothing, and the slab that entries come from.
- RunsAgree: leaves out the refusal to insert a symbol that is already in a table, and takes levels not to wrap.
- FollowsCursor: computes in unbounded integers; a struct large enough to overflow a C int is undefined there.
- ResultsAddUp: asks that nk * 4 * nItemsPerThread * 64 fits 32 bits, as the kernel's counters need.
- LoadFrom: asks that the file holds all that is read and that the rows fit the buffer the header's size and offset give; otherwise the source reads memory it never filled.
- Barrier and hash threads are modelled as state machines on values, not as objects: interleaving is the point there.
- The queue of pages inside a slab is a sequence; that the macros keep such sequences is the subject of `queue/`.
- Flex- and Bison-generated lexing and parsing, the attachment of label bodies by the grammar, the HTML and POP3 decoders.
- Type checking and constant evaluation of expressions; symbol declaration and definition; type copying and initializers; union layout, where every member is at offset 0.
- OpenCL calls, timers, logging, option parsing, makefiles.
- `ey_hash_init` on a used table and `ey_fzclear` followed by use.
- STAILQ_CONCAT, LIST and the remaining macros, which would add easier members of the same kind.
