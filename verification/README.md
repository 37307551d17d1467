# A model of atomsnap

atomsnap is a lock-free library for multi-version pointers: readers acquire the current
version behind a gate, writers replace it, and a version is destroyed once it is replaced and
nobody holds it.  This project models its three interlocking parts and two of its companions
in Dafny and proves what they promise, over every interleaving of any number of threads.

`dafny verify dfyconfig.toml` verifies everything.

## How the model is built

Each atomic operation of the code is one step; what a thread has in its local variables
between two steps is its program counter.  A weak compare-and-swap may fail for no reason.
Fields called history in the files record what happened and never decide a branch.

- **Protocol** (`Protocol`, `ProtocolInvariant`, `ProtocolTheorems`): control blocks
  `[references | handle]` and inner states `[counter | flags]` with both counters wrapping at
  2^32.  Versions are named by incarnation, because handles are recycled.  `Refinement` maps
  every run to `SnapshotSpec`, a machine with one current version per slot and a set of holders per version.
  `ProtocolOverflow` is the run that shows where the documented claim about wrap-around ends.
  `RetryLoops` has the calls themselves, as loops that one thread runs while others interfere;
  each keeps a log of its steps, so that a contract also says what the call does not do.
- **Allocator** (`Allocator`, `AllocatorInvariant`, `AllocatorSteps`, `AllocatorTheorems`):
  local chains, shared stacks with a depth tag, batch steal, reclaim, and the registry that
  hands a context from an exiting thread to an adopting one.  The number S of slots per arena
  is any number from 2 to 4095; reclaiming leaves arbitrary contents.  `ArenaBound` is about
  runs in which no free into a context overlaps an allocation on it.  `AllocatorRuns` says what
  registrations, exits and the periodic give-back come to in any run.  `OwnerContext` is the
  owner's code on arrays, each method proved to perform steps of the same machine; `OwnerModel`
  and `OwnerCalls` have the facts about whole calls, and `AllocationPolicy` says which slot an
  allocation returns and which arenas stay active.
- **Both together** (`System`, `SystemTheorems`): versions live in slots, so the protocol's assumption that a
  new handle is not in use and the allocator's assumption that only allocated slots are freed
  are discharged by each other.  `SystemTheorems` lifts progress and refinement to it, and
  `LockFreedom` says what every failed compare-and-swap is due to.
- **CAS counter client** (`CounterClient`, `CounterTheorems`): the benchmark's writers and readers over the
  protocol; that their calls keep the library's rules is proved, not assumed.
- **Tagged free list** (`TaggedWords`, `TaggedFreeList`, `TaggedFreeListInvariant`,
  `TaggedFreeListTheorems`, `TaggedFreeListLoops`): the benchmark's Treiber stack with a 4-bit
  tag, with the exact number of updates at which the tag stops protecting it.

The documented rules for clients (the library's README.md:277-280) are the conditions under which calls
can begin: each hold is released at most once and not while a compare-exchange relies on it, a
version is published at most once, only a version that was never published is freed by hand,
and `expected` is held or NULL.  Acquiring several versions at once is allowed here although
the rules forbid it.

## Where code and documentation differ

The library's README.md:376-377 says that wrap-around cannot cause premature reclamation because reclamation
requires the DETACHED flag.  The code meets this exactly as long as no release and no detaching step is taken
that leaves a detached version with a positive multiple of 2^32 holders: `ProtocolTheorems.RunSafeExactly`
proves it in both directions, with a condition that is told before the step, and
`ProtocolOverflow.DestroyedWhileHeld` gives runs where it does not.  With at
most 1,048,576 threads (the same file, line 273) and one hold each, the condition is met.

## Model

| member | source | states |
|---|---|---|
| `Words.ValueInjective` | atomsnap.c:105-122 | Two 64-bit words are equal exactly when both packed 32-bit fields are, so a compare-and-swap on the packed word compares both. |
| `Words.AddUpperIsUnsignedAdd` | atomsnap.c:110-122 | Adding 1 << 32 is the unsigned 64-bit addition, wraps the upper field and leaves the handle or the flags in the lower field untouched, carry included. |
| `Words.SubWrapped` | atomsnap.c:764-771 | Unsigned 32-bit subtraction of two wrapped counts is the wrapped difference of the true counts. |
| `Handles.HandleRoundTrip` | atomsnap.c:288-296 | A handle decodes to the arena and slot it was built from, and is HANDLE_NULL only for the last slot index of the last arena. |
| `Handles.EveryWordIsAHandle` | atomsnap.c:255-278 | Every 32-bit word names an arena below the maximum, so the bounds check of the decoder never rejects, and re-encoding gives the word back. |
| `ProtocolInvariant.StepKeeps` | atomsnap.c:723-781 | Every atomic step of every call keeps the tie between packed wrapping words, flags, program counters and history, with no bound on holds; only a release or a detach can condemn a held version. |
| `ProtocolTheorems.PrematureExactly` | atomsnap.c:728-745 | Sparing every version that is current, held or not yet detached is exactly what the invariant adds to the tie between words and history. |
| `ProtocolTheorems.CondemnsExactly` | atomsnap.c:764-780 | From a good state a step keeps the invariant if and only if it is not a release or a detaching step that, by the holders counted before it, leaves a detached version with a positive multiple of 2^32 of them. |
| `ProtocolTheorems.StepSafeExactly` | atomsnap.c:728-735 | A step from a good state reclaims nothing prematurely if and only if it is not such a condemning step, which can be told before it is taken. |
| `ProtocolTheorems.RunSafeExactly` | README.md:371-377 | Along a whole run, no version that is current, held or not yet detached is called back or being disposed of, if and only if no step of the run condemns, told in the state it is taken in. |
| `ProtocolTheorems.RunSafeByHolders` | README.md:371-377 | The same, told by the states: if and only if no detached version is ever held a positive multiple of 2^32 times. |
| `ProtocolTheorems.FewHoldersSuffice` | README.md:371-377 | Fewer than 2^32 simultaneous holds on a detached version make every state of every run safe; the total number of acquires and releases is unbounded. |
| `ProtocolTheorems.NoPrematureReclamation` | atomsnap.c:728-745 | A version that is current, held, or swapped out but not yet detached is not finalized, has run no callback, and no thread is about to finalize or free it. |
| `ProtocolTheorems.FinalizedExactlyOnce` | atomsnap.c:737-746 | The double-finalize abort is unreachable, at most one step sees DETACHED with counter zero, the callback runs at most once, and a detached version without holders has exactly one thread disposing of it. |
| `ProtocolTheorems.SplitCounters` | atomsnap.c:764-771 | While current, the outer field is the acquires since publication and the inner field the releases, modulo 2^32; after detach the inner field is minus the outstanding holders; handle and flags are exact. |
| `ProtocolTheorems.AcquireExactly` | atomsnap.c:1034-1048 | An acquire, on an empty slot too, adds 1 << 32 to the control block as one unsigned 64-bit addition, takes one hold more on the very version that is current, or none if there is none, and changes nothing else. |
| `ProtocolTheorems.SwapExactly` | atomsnap.c:1087-1106 | A swap or a successful compare-exchange leaves the new handle, or HANDLE_NULL, with reference count zero, and goes on to detach exactly the version that was current, with the count of its acquires modulo 2^32; no other slot, hold or inner state changes. |
| `ProtocolTheorems.HandleIdentifies` | atomsnap.c:1123-1135 | While a caller holds `expected`, the handle in the control block equals the expected one if and only if that very incarnation is current, although handles are recycled. |
| `ProtocolTheorems.CompareWithoutAba` | atomsnap.c:1119-1163 | A successful compare-exchange replaces exactly the incarnation held; false is returned only at an instant when another one or none is current; a failed attempt changes nothing. |
| `ProtocolTheorems.RetriesBounded` | atomsnap.c:754-781 | In the detach loop, real failures so far plus holders still outstanding never exceed the holders at the swap. |
| `ProtocolTheorems.RetryAccounting` | atomsnap.c:1097-1106 | The budget of the detach loop is the number of holders at the swap, and each failure that is not spurious is counted. |
| `ProtocolTheorems.NeverStuck` | atomsnap.c:1034-1163 | A call in progress always has its next step enabled in every good state. |
| `ProtocolOverflow.HoldMany` | atomsnap.c:1042-1045 | For every n there is a run in which the current version is held n times and the outer field reads n modulo 2^32. |
| `ProtocolOverflow.DestroyedWhileHeld` | README.md:376-377 | For every positive multiple n of 2^32 there is a run in which a version's callback has run while n of its holds are outstanding: the documented claim about wrap-around fails there. |
| `SnapshotSpec.NextKeepsIntact` | README.md:369-374 | The simple machine never lets a slot or a holder see a destroyed version. |
| `Refinement.StepRefines` | atomsnap.c:1034-1163 | Every step of the interleaved protocol on packed words is one action of the simple machine with one current version per slot and a set of holders. |
| `Refinement.RunRefines` | atomsnap.c:723-781 | The image of every safe run is a run of the simple machine from the empty state; destruction happens only to versions that are unpublished and unheld. |
| `RetryLoops.InterferedKeeps` | atomsnap.c:1034-1075 | Any sequence of steps of other threads within the bound keeps the invariant, leaves a call in progress where it is and leaves the holds it relies on. |
| `RetryLoops.DetachLands` | atomsnap.c:764-776 | The word that a successful detach writes is DETACHED with minus the outstanding holders, and the caller goes on to finalize exactly if there are none. |
| `RetryLoops.ReleaseSeesZero` | atomsnap.c:1070-1074 | A release writes DETACHED with counter zero if and only if it gives up the only hold on a detached version. |
| `RetryLoops.CompareDecided` | atomsnap.c:1141-1153 | Each attempt of the compare-exchange loop swaps in the new version for the one held, returns false because another is current, or retries with the word it read. |
| `RetryLoops.RetiresOnly` | atomsnap.c:723-781 | A step that detaches or destroys a version changes that version, its inner state and the place of its thread, and nothing else: no slot, no hold, no other version, no other thread. |
| `RetryLoops.CalmCompare` | atomsnap.c:1119-1144 | A compare-exchange that nobody disturbs is decided in the state it began in; when it returns false, the state is that one again, the new version private as before. |
| `RetryLoops.Memory.AttemptDetach` | atomsnap.c:773-777 | One attempt of the detaching compare-and-swap under interference: success detaches; failure is spurious or is counted against the holders at the swap, and the next attempt uses the word that is there now. |
| `RetryLoops.Memory.Detach` | atomsnap.c:754-778 | The detach loop terminates under any interference with finitely many spurious failures; real failures are at most the holders at the swap. |
| `RetryLoops.Memory.TryFinalize` | atomsnap.c:723-746 | The version is destroyed, once, exactly when the word says DETACHED with counter zero; otherwise nothing changes; the abort is not reached. |
| `RetryLoops.Memory.DetachAndAdjust` | atomsnap.c:754-781 | The version swapped out is destroyed, once, if and only if nobody held it at the detaching step, otherwise it is detached and left to its holders; every step of the call is one that retires this version, and undisturbed nothing else changes. |
| `RetryLoops.Memory.ReleaseVersion` | atomsnap.c:1058-1075 | A release destroys the version if and only if it was detached and this was its only hold; every later step of the call retires that version; otherwise the release step is all that happens. |
| `RetryLoops.Memory.ExchangeVersion` | atomsnap.c:1084-1107 | The call is one swap, which puts the new version in the slot, followed only by steps that retire the version it took out; if the slot was empty, the swap is the last step.  Undisturbed, the slot holds the new version, published, and the other slots and all holds are as they were. |
| `RetryLoops.Memory.CompareAndSwap` | atomsnap.c:1130-1153 | Through any number of rounds, each a load or an attempt and nothing else: the last step decides the call by whether the incarnation held is current, or every round was disturbed and the loop goes on. |
| `RetryLoops.Memory.CompareExchange` | atomsnap.c:1119-1163 | When the call returns, it returns true exactly if at the deciding step the version held as `expected` was current.  After that step it only retires that version, or, returning false, does nothing more and the new version is the caller's, private as before; undisturbed, the state is then the one it began in. |
| `AllocatorSteps.StepKeeps` | atomsnap.c:606-697 | Every step of allocation, batch steal, growth, reclaim, push, registration and exit keeps the allocator invariant under any interleaving. |
| `AllocatorSteps.PushArena` | atomsnap.c:679-696 | A push whose compare-and-swap succeeds puts its slot on top of the stack that is there now with the right depth, even if the stack was stolen and rebuilt to the same word in between. |
| `AllocatorSteps.SentinelMeansEmpty` | atomsnap.c:634-638 | The top of an active arena is the sentinel if and only if its shared stack is empty. |
| `AllocatorSteps.DepthIsLength` | atomsnap.c:320-325 | The depth the owner reads in the top word of its last arena is the length of the stack. |
| `AllocatorTheorems.RunInv` | atomsnap.c:644-651 | In every state of every run the invariant holds and the assertion after the batch steal has not failed. |
| `AllocatorTheorems.DepthTagIsChainLength` | atomsnap.c:679-696 | In every active arena the upper half of the top word is the number of links from the top to the sentinel, and the slots passed are distinct usable slots of that arena. |
| `AllocatorTheorems.LocalChainEndsAtSentinel` | atomsnap.c:562-592 | A local chain, followed through memory, stays in one active arena of its context, passes distinct slots and ends at that arena's sentinel. |
| `AllocatorTheorems.EverySlotInOnePlace` | atomsnap.c:606-697 | Conservation: memory leads to a usable slot of an active arena from the shared top if and only if its place is the stack, from a local top if and only if it is that context's chain, a thread has it in hand or pushes it if and only if its place says so; otherwise it is allocated. |
| `AllocatorTheorems.OverlaidWord` | atomsnap.c:178-181 | The word shared by own handle and link holds the slot's own handle in every allocated slot. |
| `AllocatorTheorems.ReclaimDiscardsNothing` | atomsnap.c:327-335 | When an arena is given back on the strength of its depth tag, every usable slot of it is on its shared stack. |
| `AllocatorTheorems.SingleOwner` | atomsnap.c:808-820 | No two threads ever use the same context, in any interleaving of registration, exit and adoption. |
| `AllocatorTheorems.OnlyOwnerChanges` | atomsnap.c:206-214 | A context is made and changed only by steps of the thread that uses it. |
| `AllocatorTheorems.KeptWhileUnused` | atomsnap.c:679-696 | While no thread that uses a context moves, over any stretch of any run, the context does not change and its arenas keep owner, position and every slot of the local chain with its link, and only gain slots on their shared stacks. |
| `AllocatorTheorems.HandOver` | atomsnap.c:827-849 | From the exiting thread's store of its id to the next adoption of the context, in every run, nobody uses the context; the adopter gets the vectors, the active arenas and the whole local chain as they were left, with only pushes onto shared stacks in between, and is its only user. |
| `AllocatorTheorems.ChainKeptInMemory` | atomsnap.c:562-592 | The local chain that is handed over is the same chain in memory: followed from the local top it passes the same slots. |
| `AllocatorTheorems.RegistersUnderLowestFreeId` | atomsnap.c:808-849 | From every reachable state, a thread that registers undisturbed takes the lowest free id and gets the context left there as it is, or a new empty one, and every other context stays as it is. |
| `AllocatorRuns.RegistrationOutcome` | atomsnap.c:808-849 | In every run, whatever other threads do meanwhile: a registration fails only if each thread id was taken at some time during the call; if it succeeds, each id below the one it got was, so one that loses a race goes on to the next id, and the thread uses the context of its id. |
| `AllocatorRuns.ExitOutcome` | atomsnap.c:348-370 | In every run: an exiting thread stores its id only after it has found, at some time during the call, no active arena or a last active arena that is not fully free, and the active arenas it leaves are those of that time. |
| `AllocatorRuns.StepCounts` | atomsnap.c:613 | Every step of every run counts the allocations on a context exactly: one at the begin of an allocation on it, and none otherwise. |
| `AllocatorRuns.FreeArenaGivenBack` | atomsnap.c:613-621 | In every run, over any stretch in which as many allocations begin on a context as an arena has slots, a last active arena that is fully free all along does not stay active until no allocation on the context is under way. |
| `AllocatorTheorems.TablesAgree` | atomsnap.c:510-541 | Each owned arena is registered under its owner, and no arena appears twice in the vectors of all contexts. |
| `AllocatorTheorems.NeverStuck` | atomsnap.c:255-278 | No step of any call finds a missing arena, slot or context: its next step is always possible. |
| `ArenaBound.AllAllocated` | atomsnap.c:629-657 | When an allocation that no free into its context overlaps has found the local chain and every active stack empty, every usable slot of the context is allocated. |
| `ArenaBound.DeliverCloses` | atomsnap.c:656-659 | Returning the first slot of a newly set up arena puts more slots in use than all earlier active arenas have. |
| `ArenaBound.ActiveArenasBounded` | atomsnap.c:606-663 | In every run in which no free into a context overlaps an allocation on it, whatever happens on other contexts, between its allocations (active arenas - 1) * (S - 1) is less than the context's peak of simultaneously allocated slots, through reclaim and reuse. |
| `OwnerCalls.FreshChainPops` | atomsnap.c:461-491 | After set-up, repeated pops yield S - 1 handles that decode to slots S - 1 down to 1 of that arena, none of them HANDLE_NULL, and then HANDLE_NULL. |
| `OwnerCalls.PopIsPopMemory` | atomsnap.c:562-592 | The pop of the step machine, on an empty chain or not, is the pop on memory that the previous statement is about. |
| `OwnerModel.SilentStep` | atomsnap.c:606-697 | Only the return of an allocation and the begin of a free change which slots are allocated; reclaim, steal, growth and exit never do. |
| `OwnerCalls.AllocCall` | atomsnap.c:606-663 | A whole allocation that nobody disturbs can be carried through, and either returns a slot that was free, and nothing else changes hands, or has found every index drawn. |
| `AllocationPolicy.AllocServes` | atomsnap.c:606-663 | Which slot a whole allocation returns and which arenas it leaves active, told from the books before it: every S-th time a last arena whose depth is S - 1 is given back first; then the local top, else the top of the first shared stack that is not empty, else the last slot of an arena that was given back, else of a new one, else HANDLE_NULL. |
| `AllocationPolicy.ExitLeaves` | atomsnap.c:357-362 | A whole thread exit gives back, from the end of the active arenas, exactly those whose depth is S - 1, up to the first that is in use, and changes nothing else in the books. |
| `OwnerCalls.FreeCall` | atomsnap.c:672-697 | A whole free is the reverse of handing the slot out. |
| `OwnerCalls.ExitCall` | atomsnap.c:348-370 | A whole thread exit loses no allocated slot and stops reclaiming only at an arena that is in use. |
| `OwnerCalls.StartedByRegistration` | atomsnap.c:808-849 | The state in which the array model of a context begins is reached by a thread that registers. |
| `OwnerContext.SetupArenaStack` | atomsnap.c:461-491 | The in-place loop leaves, whatever the arena held, the link words of a chain from the last slot to the sentinel, depth zero, and returns its top. |
| `OwnerContext.Reallocated` | atomsnap.c:429-447 | The grown vectors keep the old contents and are NULL beyond them. |
| `OwnerContext.ThreadContext.constructor` | atomsnap.c:831-841 | A new context is valid, owns nothing and has peak zero. |
| `OwnerContext.ThreadContext.EnsureVectorCapacity` | atomsnap.c:418-451 | Afterwards there is room for one more arena; if there was, nothing changes, else the capacity has doubled or is 4; pointers are non-null up to the high-water mark and NULL from there to the capacity. |
| `OwnerContext.ThreadContext.AddArena` | atomsnap.c:523-541 | The new arena is in the global table under its drawn index only, and the vectors record it at the end. |
| `OwnerContext.ThreadContext.ReuseArena` | atomsnap.c:510-514 | A reclaimed arena is set up again in place as the next active one. |
| `OwnerContext.ThreadContext.InitArena` | atomsnap.c:500-553 | On the arrays, the steps of the machine that set up a reclaimed or a new arena; failure exactly when all indices are drawn. |
| `OwnerContext.ThreadContext.PopLocal` | atomsnap.c:562-592 | On the arrays, exactly the pop of the machine; returns the old local top or HANDLE_NULL. |
| `OwnerContext.ThreadContext.StealBatch` | atomsnap.c:644-651 | On the arrays, the batch steal of the machine. |
| `OwnerContext.ThreadContext.ReclaimLastArenaIfEmpty` | atomsnap.c:310-338 | Gives the last arena back exactly when its depth says all slots returned; its contents are arbitrary afterwards. |
| `OwnerContext.ThreadContext.StealFromArenas` | atomsnap.c:629-654 | The search takes the first active arena whose stack is not empty, or establishes that none is. |
| `OwnerContext.ThreadContext.AllocSlot` | atomsnap.c:606-663 | The handle returned was not allocated and is now, nothing else changed hands, and the peak follows; HANDLE_NULL only when every arena index has been drawn.  On the arrays: the count grows by one, every S-th call gives a fully free last arena back before a slot is looked for, and the slot comes from the local chain, the first stack that is not empty, a reclaimed arena or a new one, in this order. |
| `OwnerContext.ThreadContext.FreeSlot` | atomsnap.c:672-697 | The slot is on top of its arena's stack, one deeper than before, and nothing else changed hands, through any number of spurious failures. |
| `OwnerContext.ThreadContext.ReclaimFromEnd` | atomsnap.c:357-362 | The loop gives back fully free arenas from the end and stops at the first that is in use. |
| `OwnerContext.ThreadContext.TlsDestructor` | atomsnap.c:348-370 | No allocated slot is lost, the field that marks the thread id as taken is cleared, and of the active arenas exactly the fully free ones at the end are given back, so that the last active arena, if any, is in use. |
| `OwnerContext.ThreadContext.Frugal` | atomsnap.c:310-338 | The arena bound for the arrays: between calls (active - 1) * (S - 1) is less than the peak. |
| `System.ProjectsToProtocol` | atomsnap.c:930-982 | Every step of library and allocator together is a step of the protocol, whose demand for a fresh handle the allocator meets, or leaves the protocol alone. |
| `System.ProjectsToAllocator` | atomsnap.c:702-713 | Every step of both together is a step of the allocator, whose demand that only allocated slots are freed the protocol meets, or leaves the allocator alone. |
| `System.StepKeeps` | atomsnap.c:930-956 | Every step keeps protocol, allocator and the link between versions and slots. |
| `System.RunInv` | atomsnap.c:702-713 | So in every state of every safe run. |
| `System.SelfHandle` | atomsnap.c:1087 | The handle that exchange and compare-exchange read from a version is that version's own, although free slots keep a link in that word. |
| `System.NoPrematureReuse` | atomsnap.c:728-745 | The slot of a version that is current, held or not yet detached is on no free chain and in no allocation or free in progress, and its word still names it. |
| `System.ControlBlockResolves` | atomsnap.c:1045-1047 | A handle found in a control block always resolves to the allocated slot of the version that is current there. |
| `System.FullDrain` | atomsnap.c:1084-1107 | With no call in progress, empty control blocks, no holds and no unpublished version, the callback has run exactly once per version made and every slot of every active arena is on a stack or a local chain. |
| `System.RunDrains` | test/wraparound_test.c:247-262 | The same at the end of every safe run that ends so. |
| `SystemTheorems.NeverStuck` | atomsnap.c:702-713 | A call in progress, through protocol and allocator, always has its next step enabled. |
| `SystemTheorems.ExchangeCanBegin` | atomsnap.c:1084-1088 | Outside any call, a client that keeps the protocol's rules can begin an exchange, and the handle read is the one the rules speak of. |
| `SystemTheorems.CompareCanBegin` | atomsnap.c:1119-1125 | The same for compare-exchange, with both handles. |
| `SystemTheorems.StepRefines` | atomsnap.c:930-982 | Each step of library and allocator together is an action of the simple machine or is not seen by clients. |
| `SystemTheorems.RunRefines` | atomsnap.c:1034-1163 | Every safe run of library and allocator together refines a run of the simple machine from the empty state. |
| `LockFreedom.CompareFailurePaid` | atomsnap.c:1148-1152 | If compare-exchange finds another word than it read, then since the read an acquire, an exchange or a compare-exchange took effect on that control block. |
| `LockFreedom.PushFailurePaid` | atomsnap.c:679-696 | If a free finds another top than it read, then since the read a push landed on that arena or its owner stole the stack. |
| `LockFreedom.ReadsCurrentTop` | atomsnap.c:695-696 | The load and every failed attempt of a free, spurious or not, leave it with its slot and the top that is there now. |
| `LockFreedom.UndisturbedPushLands` | atomsnap.c:679-696 | In every run, whatever failed before it, an attempt of a free lands, on top of the stack and one deeper, if since it last read the top no push landed on that arena and its owner did not steal the stack. |
| `LockFreedom.PopFailurePaid` | microbench/bench2/lf_pool.hpp:41-46 | If a pop finds another head than it read, the head has been updated since. |
| `CounterClient.StepKeepsLibrary` | microbench/bench1/cmp_exchange/atomsnap_example.cpp:45-58 | Every step of the client that the library allows keeps the invariant of client and library, since fewer than 2^32 threads cannot hold a version 2^32 times. |
| `CounterTheorems.RulesObeyed` | microbench/bench1/cmp_exchange/atomsnap_example.cpp:45-58 | Whatever statement a writer or reader has reached, the call it makes is one that the library's rules allow and the data it touches is there. |
| `CounterTheorems.RunInv` | microbench/bench1/cmp_exchange/atomsnap_example.cpp:45-93 | In every run of the programs of fewer than 2^32 writers and readers (the library admits 2^20 threads), assuming nothing of the calls they make, no call breaks a rule and the invariant holds throughout. |
| `CounterTheorems.ReaderChecksPass` | microbench/bench1/cmp_exchange/atomsnap_example.cpp:80-92 | Both checks of the reader pass in every reachable state: the fields are equal and the value is not below the recorded one, and the payload has not been destroyed. |
| `CounterTheorems.PublishedInOrder` | microbench/bench1/cmp_exchange/atomsnap_example.cpp:45-58 | The values published are 0, 1, 2, ... in order of publication. |
| `CounterTheorems.OnePerSuccess` | microbench/bench1/cmp_exchange/atomsnap_example.cpp:52-58 | Exactly the successful compare-exchanges publish, one value each. |
| `CounterTheorems.ReadersNeverGoBack` | microbench/bench1/cmp_exchange/atomsnap_example.cpp:80-93 | Along every run of those programs, the value that a reader has recorded never decreases. |
| `CounterTheorems.LastSeenIsLastRead` | microbench/bench1/cmp_exchange/atomsnap_example.cpp:87-92 | Along every run, the recorded value is the one in the version that the reader held at its last comparison, until the next one. |
| `CounterTheorems.ReadsNeverGoBack` | microbench/bench1/cmp_exchange/atomsnap_example.cpp:80-93 | Along every run, of two comparisons by the same reader the later one finds equal fields in the version it holds and no smaller value than the earlier one found. |
| `CounterTheorems.AcquiresLatest` | microbench/bench1/cmp_exchange/atomsnap_example.cpp:45-46 | An acquire gives a writer or reader the value that was published last. |
| `CounterTheorems.NoVersionLost` | microbench/bench1/cmp_exchange/atomsnap_example.cpp:51-59 | Along every run, each version that was made has been published or is the one that its maker goes on with: a writer whose compare-exchange fails offers the same version again. |
| `TaggedWords.ValueInjective` | microbench/bench2/lf_pool.hpp:85-99 | Two head words are equal exactly when address and tag are. |
| `TaggedWords.PackIsMask` | microbench/bench2/lf_pool.hpp:85-89 | Packing on the parts is the code's mask arithmetic on 64 bits. |
| `TaggedWords.PtrIsMask` | microbench/bench2/lf_pool.hpp:91-94 | Extracting the address on the parts is the code's mask arithmetic. |
| `TaggedWords.TagIsMask` | microbench/bench2/lf_pool.hpp:96-99 | Extracting the tag on the parts is the code's mask arithmetic. |
| `TaggedWords.PackRoundTrip` | microbench/bench2/lf_pool.hpp:85-99 | Packing loses neither address nor tag if and only if the address leaves the tag bits free. |
| `TaggedWords.AlignmentLeavesTagBits` | microbench/bench2/lf_pool.hpp:17-22 | Multiples of any alignment that is a power of two of at least 16 leave the tag bits free. |
| `TaggedWords.Normalised` | microbench/bench2/lf_pool.hpp:12-26 | The alignment settled on is a power of two of at least 16, the one asked for exactly if that was one, else 16. |
| `TaggedWords.EveryValueIsAWord` | microbench/bench2/lf_pool.hpp:91-99 | Every 64-bit value is an address part and a tag part. |
| `TaggedWords.NextTagValue` | microbench/bench2/lf_pool.hpp:39 | The tag increment on the parts is the code's mask arithmetic. |
| `TaggedWords.SameTag` | microbench/bench2/lf_pool.hpp:39 | Two update counts have the same tag if and only if they differ by a multiple of 16. |
| `TaggedFreeListInvariant.PushKeeps` | microbench/bench2/lf_pool.hpp:59-71 | A push whose compare-and-swap succeeds is right however many updates it missed. |
| `TaggedFreeListTheorems.HeadUnchanged` | microbench/bench2/lf_pool.hpp:30-46 | A successful pop with fewer than 16 updates since its head read saw no update at all. |
| `TaggedFreeListTheorems.StepSafeExactly` | microbench/bench2/lf_pool.hpp:28-72 | From an intact state a step leaves memory in agreement with the history of pushes and pops, with each block on the list or held, if and only if it is not a pop whose link names another block than the top block's present link. |
| `TaggedFreeListTheorems.MemorySafeExactly` | microbench/bench2/lf_pool.hpp:28-72 | The same of memory alone: head and links spell out some list of exactly the blocks that nobody holds, if and only if the step is not such a stale pop. |
| `TaggedFreeListTheorems.TimelyIsNotStale` | microbench/bench2/lf_pool.hpp:28-48 | Popping in time excludes the failing case. |
| `TaggedFreeListTheorems.RunSafeExactly` | microbench/bench2/lf_pool.hpp:28-72 | Memory agrees with the history in every state of a run if and only if no step of the run is a stale pop, whatever holders write into their blocks and whatever becomes of the tag. |
| `TaggedFreeListTheorems.RunMemorySafeExactly` | microbench/bench2/lf_pool.hpp:28-72 | Over whole runs, of memory alone: it spells out a list of exactly the blocks that nobody holds in every state, if and only if no step is a stale pop. |
| `TaggedFreeListTheorems.TimelyRunInv` | microbench/bench2/lf_pool.hpp:28-72 | In every run whose pops all come within 15 updates of their read, the list is intact and the tags count updates throughout. |
| `TaggedFreeListTheorems.EachBlockInOnePlace` | microbench/bench2/lf_pool.hpp:28-72 | In memory the list is acyclic and ends at NULL, and each block ever obtained is met exactly once on it or held by exactly one caller. |
| `TaggedFreeListTheorems.SixteenUpdatesBreak` | microbench/bench2/lf_pool.hpp:38-46 | From every intact state with three free blocks and two idle threads, a run with exactly 16 updates between read and pop leaves a held block as the head: the bound is sharp. |
| `TaggedFreeListTheorems.ThreeFreeBlocks` | microbench/bench2/lf_pool.hpp:28-72 | Such a state is reachable. |
| `TaggedFreeListLoops.FreeList.constructor` | microbench/bench2/lf_pool.hpp:12-26 | A new list is intact and empty, with the normalised alignment and the block size asked for, raised to that of a link. |
| `TaggedFreeListLoops.FreeList.Alloc` | microbench/bench2/lf_pool.hpp:28-48 | The loop returns a block that the caller did not hold and nobody else holds, and leaves the caller's blocks alone, while others update the head fewer than 16 times after it was read; an exception only if the system refuses; it goes on only if every round was disturbed.  Its steps are the load, failed rounds and one pop, system block or exception; undisturbed, it takes the top block, and asks the system only if there is none, and nothing else changes. |
| `TaggedFreeListLoops.FreeList.Free` | microbench/bench2/lf_pool.hpp:50-72 | The loop leaves the block on top of the list and held by nobody, and the caller's other blocks with the caller, with no bound on the steps of others; it goes on only if every round was disturbed; NULL is ignored.  Its steps are the load, failed rounds and one push; undisturbed, the list has grown by the block and nothing else has changed. |

## Left out

- Weak memory orderings: each atomic operation is one sequentially consistent step.
- Failure of `calloc`, `realloc`, `aligned_alloc` and of the thread-local storage calls, apart from all arena indices being drawn and the free list's `bad_alloc`; so the paths after a failed `realloc` are not there.
- `pthread_once`, thread-local keys, page sizes and what `madvise` really does: the contents of a reclaimed arena are arbitrary.
- `atomsnap_init_gate` and `atomsnap_destroy_gate`, beyond control blocks that start empty; destroying a gate with live versions is documented as undefined.
- Payload pointers, `free_context`, `atomsnap_set_object` and `atomsnap_get_object`: a version has a count of its callbacks, and in the counter client two integers.
- A pointer to a version is the handle of its slot; the NULL checks of the calls are the cases where there is none.
- The bodies of user callbacks; a gate without `free_impl` counts as one whose callback does nothing.
- Overflow of the 64-bit allocation counter and of the client's 64-bit values.
- The forced states of `test/wraparound_test.c`, which no run of the library reaches.
- `OwnerContext.ThreadContext`: one context, calls that do not overlap; concurrent pushes, adoption and several contexts are in the step machine only.
- `RetryLoops.Memory`: keeps the whole state of the protocol machine in one field, so it shows the loops and their interference but not separate memory locations.
- `RetryLoops.Memory` and `TaggedFreeListLoops.FreeList`: a loop that the code may repeat for ever is followed through any number of rounds, and reported as going on after them.
- `TaggedFreeListLoops.FreeList`: `round_up`, the zeroing of new blocks beyond their first word and the size passed to `aligned_alloc` are not modelled.
- The other benchmarks, their timing and argument handling, and the `PoolAllocator` of the `shared_ptr` examples, which is a weaker copy of the arena stack and would only add easier members.
