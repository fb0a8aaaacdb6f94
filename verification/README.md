# Yggdrasil: models and proofs

Dafny models of the parts of Yggdrasil that hold its hardest logic, and proofs about them.
`dafny verify dfyconfig.toml` checks everything.

**Terms, copying and collection** (`Terms`, `Heap`, `TermOps`, `Evacuate`, `Compaction`,
`ProcHeap`, `FlatMap`). Memory is one array of words; a tagged word is a natural number and a
boxed word is eight times an index. `Rep(m, R, w, v)` says that word `w` of memory `m` means the
value tree `v` using only objects inside the region `R`; it is the reference every operation is
held against. `copy_term`, `term_size_words`, `eq`, `evacuate`, `map_from_pairs`, `map_get`,
`map_put` and the process heap are methods that write the array. The collector is proved for every
well-formed from-space, cyclic ones included; that meanings survive is then a corollary for the
words that have one. Compaction is proved never to overrun its target.

**Bytecode** (`Bytecode`, `Verifier`, `Interp`, `InterpSafety`, `Lowering`, `Blocks`,
`Simulation`, `Codec`, and the readings by bytes `Bits`, `ByteMeaning`, `ByteRequests`,
`ByteControl`, `ByteChecks`, `ByteBlocks`, `Format`). Five decoders are given as five tables and proved to cut every byte stream
alike. The verifier's scan is proved to accept exactly the functions whose reachable control flow
stays on checked instructions. The interpreter runs against a system known only by its replies to
the whole history of requests, so each theorem is about every system. Runs are bounded by fuel,
one unit for each taken jump, call or tail hop; a theorem for every fuel is a theorem for every
finite run and every prefix of an endless one. The compiler is modelled down to its block IR, and
running the blocks is proved equal to interpreting with products that wrap, which is what the
emitted multiplication does; an interpreter that checks them is the same up to its first overflow.
What each instruction does, what the verifier asks of it and where the compiler cuts are also
stated from the bytes, with opcodes and operand positions written out as numbers and arithmetic as
bits, doublings and halvings, and proved of the tables and functions the other theorems use; so is
the layout of a module file.

**Tail calls and modules** (`Sentinels`, `Trampoline`, `StashSafety`, `TailReading`, `TailIsCall`,
`Unwinding`, `ModuleTable`, `LogErasure`, `Linking`, `StraySpawn`). The stash is read off the
request log: a tail-call request fills it, a take empties it. An external call stands in the log and
is then a nested invocation that goes on with the same log and so with the same stash. The module table is a
function of the log, and every reading of it follows an entry of its own, so between any two
readings it may have changed. The process's entry in the RUNNING registry is the last note in the
log; dispatched calls and hops note where they go and back, bound calls do not. All that is assumed
of the system is that its replies are not the reserved word. A world also says which instances run
compiled and which of their call sites are bound; the stash theorems hold in all of them.

Compiled code spawns in the instance the registry names, the interpreter in the one it executes.
So binding a call is not always the same as dispatching it: `StraySpawn` builds a linked world in
which a bound call traps where the dispatched one gets its child. `Linking` proves that this is
the only way to part, in both directions, and gives a condition on the code that excludes it. Logs
are compared there with the notes left out.

**Scheduler** (`Scheduler`, `SchedulerSafety`, `ExitSignals`, `Lifecycle`, `Journeys`). A transition
system over any number of cores. Table-lock critical sections and run-queue operations are single
steps; a context switch is a save step and a resume step with the deferred transition between them.
`Lifecycle` says what a step does to one process, and accounts for its mail over whole runs;
`Journeys` follows a process through several steps.

**Frames and rings** (`FrameBitmap`, `Ring`; `Basics` holds arithmetic shared by all parts). The
frame bitmap packs its bits into 64-bit words. The ring is both a class and a system of single
loads and stores by two sides that see each other's cursor late.

Where code and documentation differ, the code is followed. The compiler's header comment says
integer arithmetic wraps at i61 where the interpreter traps on overflow
(`crates/ygg-jit/src/lib.rs:18-19`). In fact both engines wrap sums, differences and shifts at i61
alike, and they differ exactly on products that overflow an i64 (`Lowering.MachineAgrees`). The
same file says the tail after a block end inside a dead region is skipped without emitting
(lines 690-695); `Blocks.Compile` shows that branch is never taken, since every instruction after a
block end leads a block.

## Model

| member | source | states |
|---|---|---|
| `Terms.RepUnique` | crates/ygg-term/src/lib.rs:126-185 | a word of a memory has at most one unfolded value |
| `Terms.RepFrame` | crates/ygg-term/src/lib.rs:148-185 | a term keeps its value under any change to memory outside the objects it uses |
| `Terms.ReservedIsNoTerm` | crates/ygg-term/src/lib.rs:33-40 | a word with the reserved tag 7 has no value |
| `Terms.BytesSpell` | crates/ygg-term/src/lib.rs:148-185 | the bytes a binary's words are read as spell those words, lowest first |
| `Heaps.Heap.constructor` | crates/ygg-term/src/lib.rs:222-229 | a heap over a span of memory starts empty |
| `Heaps.Heap.Alloc` | crates/ygg-term/src/lib.rs:246-253 | succeeds iff the words are left, hands out the next ones, and otherwise moves nothing |
| `Heaps.Heap.TruncateTo` | crates/ygg-term/src/lib.rs:238-241 | rolls the top back to an earlier watermark |
| `Heaps.CopyTerm` | crates/ygg-term/src/lib.rs:358-405 | the copy means what the source means, succeeds iff exactly its deep size is free, uses exactly that, lives in the new words alone and changes no other cell |
| `Heaps.CopyRecord` | crates/ygg-term/src/lib.rs:362-388 | the same outcome for tuples and maps, keys verbatim and values copied |
| `Heaps.CopyBinary` | crates/ygg-term/src/lib.rs:372-372 | the same outcome for binaries, byte by byte |
| `Heaps.CopyList` | crates/ygg-term/src/lib.rs:389-402 | the same outcome for lists, the spine walked by a loop and rebuilt from its end |
| `Heaps.WalkSpine` | crates/ygg-term/src/lib.rs:391-396 | the cells collected are the list's, in order, and what follows the last one is its tail |
| `Heaps.CopyCell` | crates/ygg-term/src/lib.rs:398-401 | one head is copied and put before the copied tail, in exactly the words that takes |
| `Heaps.CopySlots` | crates/ygg-term/src/lib.rs:366-386 | consecutive slots are copied in order, succeeding iff their deep sizes fit |
| `TermOps.TermSizeWords` | crates/ygg-term/src/lib.rs:500-524 | returns the deep size of the term's value, the number `CopyTerm` needs |
| `TermOps.Eq` | crates/ygg-term/src/lib.rs:530-569 | decides equality of the two terms' values |
| `TermOps.EqLists` | crates/ygg-term/src/lib.rs:551-565 | two spines walked in step are equal iff their values are |
| `TermOps.EqMaps` | crates/ygg-term/src/lib.rs:544-550 | two maps are equal iff keys agree as words and values as values |
| `TermOps.EqSlots` | crates/ygg-term/src/lib.rs:539-542 | two runs of slots are equal iff all their values are |
| `TermOps.EqBytes` | crates/ygg-term/src/lib.rs:543-543 | two binaries are equal iff all their bytes are |
| `TermOps.FragmentCopyFrom` | kernel/src/proc.rs:122-128 | a fragment sized by `term_size_words` always holds the copy, which means what the message meant |
| `Evacuation.EvacOne` | crates/ygg-term/src/lib.rs:470-493 | keeps the two-pointer invariant, returns the word redirected to the object's one copy, and refuses only when an uncopied live object does not fit |
| `Evacuation.MoveObject` | crates/ygg-term/src/lib.rs:487-491 | an object is moved whole and its header forwarded, or nothing changes |
| `Evacuation.ScanSlots` | crates/ygg-term/src/lib.rs:434-461 | all term slots of one copy are redirected, copying what they refer to as needed |
| `Evacuation.ScanAll` | crates/ygg-term/src/lib.rs:429-464 | the scan ends with every slot of every copy redirected, or for want of room |
| `Evacuation.Evacuate` | crates/ygg-term/src/lib.rs:423-467 | succeeds iff the distinct live objects fit, and then the heap grows by exactly their sizes and everything live is copied once |
| `Evacuation.CopyKeepsInv` | crates/ygg-term/src/lib.rs:470-493 | copying one object and forwarding its header keeps layout, forwarding and scanned region right |
| `Evacuation.SlotKeepsInv` | crates/ygg-term/src/lib.rs:434-461 | redirecting the slot under the scan keeps the invariant one slot further on |
| `Evacuation.TopIsTotal` | crates/ygg-term/src/lib.rs:423-493 | the top has moved by exactly the summed sizes of the distinct objects copied |
| `Evacuation.GivesUpRightly` | crates/ygg-term/src/lib.rs:423-493 | a collection that gives up could not have fitted its live objects |
| `Evacuation.AllCopied` | crates/ygg-term/src/lib.rs:423-467 | once roots and copies are redirected, the copied objects are exactly the reachable ones |
| `Evacuation.NoPointerBack` | crates/ygg-term/src/lib.rs:423-467 | every boxed slot of the new region points at a copy, never into from-space |
| `Evacuation.EvacuationKeepsValue` | crates/ygg-term/src/lib.rs:423-493 | a redirected word means what the old word meant |
| `Evacuation.EvacuationAddsNoValue` | crates/ygg-term/src/lib.rs:423-493 | what a redirected word means, the old word meant |
| `Evacuation.RootsKeepMeaning` | crates/ygg-term/src/lib.rs:423-467 | every root means after a collection exactly what it meant before, both ways |
| `Evacuation.SharingKept` | crates/ygg-term/src/lib.rs:470-493 | two words are redirected to one word iff they were one word: forwarding is a bijection |
| `CompactionBounds.LiveWithinEstimate` | crates/ygg-term/src/lib.rs:500-524 | the summed deep sizes of the roots bound what a sharing collection copies |
| `CompactionBounds.TotalWithinCells` | kernel/src/proc.rs:367-390 | objects that do not overlap take no more words than the cells they lie in |
| `ProcHeaps.LiveWithinSpans` | kernel/src/proc.rs:367-390 | what is live takes no more words than the spans it lives in |
| `ProcHeaps.TargetFits` | kernel/src/proc.rs:82-89 | the target chosen holds everything live: it has the words of the estimate, or is the whole quota, which bounds what the spans held |
| `ProcHeaps.TargetSufficient` | kernel/src/proc.rs:82-89 | the target is the one page count, from four to the quota, that has at least the words asked or is the quota, and is not one page too many |
| `ProcHeaps.CopiesOwn` | crates/ygg-term/src/lib.rs:423-467 | the copies a collection leaves are whole, apart, closed under reference and inside the new span, clear of its free words |
| `ProcHeaps.ProcHeap.constructor` | kernel/src/proc.rs:51-61 | a process heap starts with one span within its quota and no objects |
| `ProcHeaps.ProcHeap.Grow` | kernel/src/proc.rs:64-78 | adds a span iff below quota and frames are found, doubling up to the quota; moves nothing built before and keeps the heap tidy |
| `ProcHeaps.ProcHeap.Build` | crates/ygg-term/src/lib.rs:255-284 | writes one whole object iff its words are left; everything built before keeps its meaning, and the heap stays tidy with the new object and root |
| `ProcHeaps.Reroot` | kernel/src/modload.rs:243-247 | the next hop may hand over any of the objects as its arguments |
| `ProcHeaps.ProcHeap.LiveEstimate` | kernel/src/proc.rs:378-381 | sums the roots' deep sizes, their number and 32 |
| `ProcHeaps.ProcHeap.MaybeCompact` | kernel/src/proc.rs:367-390 | leaves alone iff one span at most half full; panics iff pressured with a quota under four pages; takes the least pages, four to quota, that hold the deep sizes, the root count and 32, or finds no frames for exactly those; evacuation then never runs out, each root keeps its value, and the new heap holds exactly the live words; a tidy heap stays tidy, so this holds over any number of hops with any building between |
| `FlatMaps.LastWins` | crates/ygg-term/src/lib.rs:295-297 | a literal maps a key to the value of the last pair carrying it |
| `FlatMaps.StableSortKeepsMap` | crates/ygg-term/src/lib.rs:302-303 | stable sorting does not change the map a slice denotes |
| `FlatMaps.StableSortUnique` | crates/ygg-term/src/lib.rs:302-303 | any two stable sorts by key of a slice are equal, so the library's is the one modelled |
| `FlatMaps.SortByKey` | crates/ygg-term/src/lib.rs:302-303 | sorts the slice stably by raw key word, in place |
| `FlatMaps.DedupSorted` | crates/ygg-term/src/lib.rs:304-312 | compacts in place to strictly increasing keys denoting the same map, leaving the tail as it was |
| `FlatMaps.LeftoverKeepsMap` | crates/ygg-term/src/lib.rs:304-312 | the slice left behind, stale tail included, still denotes the same map |
| `FlatMaps.Canonicalize` | crates/ygg-term/src/lib.rs:298-312 | sort and dedup together: canonical pairs, same map, and a slice that still denotes it |
| `FlatMaps.MapFromPairs` | crates/ygg-term/src/lib.rs:298-322 | refuses boxed keys untouched; a full heap leaves a slice denoting the same map; success builds a sorted object of that map |
| `FlatMaps.MapGet` | crates/ygg-term/src/lib.rs:188-205 | binary search is lookup in the map the object denotes, present or absent |
| `FlatMaps.MapPut` | crates/ygg-term/src/lib.rs:328-341 | builds the old map with one key set, leaving the old object alone |
| `FlatMaps.MapNew` | crates/ygg-interp/src/lib.rs:651-672 | retrying on the slice an earlier try already sorted and compacted builds the map of the original pairs |
| `SchedulerSafety.StepKeeps` | kernel/src/proc.rs:665-776 | every step keeps the token and ownership invariant, and every table lookup the kernel unwraps succeeds |
| `SchedulerSafety.TakeKeeps` | kernel/src/proc.rs:699-719 | looking up a popped pid: stale, runnable or dead, the invariant holds |
| `SchedulerSafety.PostKeeps` | kernel/src/proc.rs:733-774 | the deferred transition after a switch keeps it, kill-pending and mailbox races included |
| `SchedulerSafety.StealKeeps` | kernel/src/proc.rs:679-689 | work stealing keeps it |
| `SchedulerSafety.SpawnKeeps` | kernel/src/proc.rs:261-312 | spawning keeps it, with the child's enqueue still pending |
| `SchedulerSafety.MarkDeadKeeps` | kernel/src/proc.rs:496-517 | killing a waiting, runnable or running process keeps it |
| `SchedulerSafety.DeliverKeeps` | kernel/src/proc.rs:529-542 | delivery, with its wake of a waiting receiver, keeps the token and ownership invariant; what it delivers is `Lifecycle.SendDelivers` |
| `SchedulerSafety.ReapKeeps` | kernel/src/proc.rs:800-819 | reaping, with all its signals, keeps it |
| `SchedulerSafety.TakeDueKeeps` | kernel/src/proc.rs:633-662 | moving due entries off the wheel keeps every waiter with a deadline covered in time |
| `SchedulerSafety.WakeKeeps` | kernel/src/proc.rs:633-662 | waking or re-arming a due pid keeps it |
| `SchedulerSafety.RunInv` | kernel/src/proc.rs:665-776 | the invariant holds all along every run from the start, and no run panics on a missing process |
| `SchedulerSafety.Exclusion` | kernel/src/proc.rs:434-468 | in every run a pid executes on at most one core, is resumed only with its context saved, and leaves the table only when no core is on its stack |
| `SchedulerSafety.ReapedOffStack` | kernel/src/proc.rs:699-776 | only a dead process looked up or switched away from is reaped, off every stack |
| `SchedulerSafety.NoLostWakeups` | kernel/src/proc.rs:554-662 | in every reachable state a waiting process has no mail and no token, a runnable one exactly one token; one waiting with a deadline has a timer due by it or by the next tick, or being handled; a doomed one is running or dead, a dead one off-core has a token |
| `ExitSignals.DownAllSends` | kernel/src/proc.rs:800-833 | each monitor of a reaped process has its DOWN attempted once, in order; who receives them is `Lifecycle.DownsReach` |
| `ExitSignals.MarkAllDooms` | kernel/src/proc.rs:807-811 | abnormal death dooms every linked process still in the table |
| `ExitSignals.SignalsKept` | kernel/src/proc.rs:285-324 | every step keeps the accounting of pids, refs, DOWNs and links |
| `ExitSignals.SignalConservation` | kernel/src/proc.rs:285-324 | in every run: a pid issued is in the table or was reaped, once; a ref is registered once or was answered once; links are symmetric, and a link to one reaped abnormally means dead or kill-pending |
| `ExitSignals.DoomedStep` | kernel/src/proc.rs:496-517 | one step never revives a kill-pending process nor takes its mail |
| `ExitSignals.KilledStaysKilled` | kernel/src/proc.rs:554-622 | from being told to die on, a process is never runnable or waiting and no message leaves its mailbox |
| `ExitSignals.NeverComesBack` | kernel/src/proc.rs:261-312 | pids are never reused |
| `Lifecycle.TableStep` | kernel/src/proc.rs:665-776 | what every kind of step does to every process, in terms of that process alone: state, mail, kill mark, links, monitors, reason and deadline |
| `Lifecycle.SendDelivers` | kernel/src/proc.rs:522-542 | a send to a live process puts its message last in that mailbox, makes a waiting receiver runnable, and changes no other process; to any other it changes nothing |
| `Lifecycle.DownsReach` | kernel/src/proc.rs:800-833 | a reaped process's DOWNs reach every live watcher, one for each of its refs in the order registered, and nobody else |
| `Lifecycle.KillsReach` | kernel/src/proc.rs:807-811 | abnormal death kills or marks exactly the live linked processes, with its reason, and leaves the rest alone |
| `Lifecycle.MailStep` | kernel/src/proc.rs:522-622 | a step changes a live process's mailbox only by appending what it brings and removing what a receive takes |
| `Lifecycle.MailConserved` | kernel/src/proc.rs:522-622 | over every run the messages brought to a process are, in order, those its receives took and those still in its mailbox |
| `Journeys.ProcessChoices` | kernel/src/proc.rs:434-622 | an executing process may yield, exit, send, kill, spawn and monitor at any time; it takes any message there is iff not told to die, and ends in a receive iff it was |
| `Journeys.OldestRuns` | kernel/src/proc.rs:675-731 | popped, looked up and switched to, the oldest entry of a core's own queue runs, and nothing else changes |
| `Journeys.YoungestStolen` | kernel/src/proc.rs:679-689 | a thief takes the youngest entry of its victim |
| `Journeys.YieldRequeues` | kernel/src/proc.rs:434-449 | a process that yields is runnable at the end of its core's queue, its context saved |
| `Journeys.DoomedIsReaped` | kernel/src/proc.rs:736-775 | one told to die is reaped when it yields, with the reason it was killed for |
| `Journeys.ExitIsReaped` | kernel/src/proc.rs:457-468 | one that exits is reaped with the reason it gave |
| `Journeys.EmptyReceiveWaits` | kernel/src/proc.rs:554-622 | a receive that finds nothing sets its timer and waits; if mail came before the switch was over it is runnable at once |
| `Journeys.ChildIsQueued` | kernel/src/proc.rs:261-312 | a spawned process is runnable at the end of its spawner's queue and the spawner goes on |
| `Journeys.DueTaken` | kernel/src/proc.rs:633-645 | exactly the wheel's entries up to now are taken off |
| `Journeys.DueIsWoken` | kernel/src/proc.rs:646-661 | a due process is woken if waiting, looked at again the next tick if running, and otherwise dropped |
| `Journeys.DeadlineIsDue` | kernel/src/proc.rs:633-645 | a deadline that has come is on the due list of the first core's next look |
| `Bytecode.TablesAgree` | crates/ygg-jit/src/lib.rs:289-469 | verifier, interpreter, leader pass and dead-code skipper read the same operands for every opcode |
| `Bytecode.SkipAgrees` | crates/ygg-bytecode/src/lib.rs:154-204 | the length-adding skipper ends every instruction where the readers do and gives up exactly when they do |
| `Bytecode.Decode` | crates/ygg-interp/src/lib.rs:182-183 | a decoded instruction advances, stays inside the code and has its opcode's operands |
| `Verifier.RolesChecked` | crates/ygg-bytecode/src/verify.rs:131-360 | operand checks pass iff the operands can be read and each is within its bounds |
| `Verifier.InsnChecked` | crates/ygg-bytecode/src/verify.rs:131-360 | an instruction passes iff it decodes with good operands, and ends at the same offset |
| `Verifier.VerifyFn` | crates/ygg-bytecode/src/verify.rs:118-379 | accepts iff header and code are in bounds, every scanned instruction is good, and all control flow leads to scanned boundaries, which `ByteChecks.AcceptedIs` spells out; an error is the first fault of the scan and true of it |
| `Verifier.Verify` | crates/ygg-bytecode/src/verify.rs:69-74 | accepts a module iff it accepts each function; an error is the first refused function's |
| `Verifier.InsnBlamed` | crates/ygg-bytecode/src/verify.rs:131-360 | the error of a refused instruction names its offset and a fault it has: unknown, cut short, or a register, atom or function that does not exist |
| `ByteChecks.GoodIsSound` | crates/ygg-bytecode/src/verify.rs:148-360 | for every byte sequence: an instruction passes iff, by its opcode's number, its operands are all there and its registers, atoms and callees exist and match |
| `ByteChecks.AcceptedIs` | crates/ygg-bytecode/src/verify.rs:118-379 | acceptance by the bytes, jump targets reckoned from the two's complement of the offset included |
| `ByteControl.JumpsChecked` | crates/ygg-bytecode/src/verify.rs:191-197 | in accepted code a jump's offset leads to an instruction |
| `ByteControl.LoopAccepted` | crates/ygg-bytecode/src/verify.rs:191-197 | a function with a backward jump is accepted |
| `ByteControl.LoopRuns` | crates/ygg-interp/src/lib.rs:717-727 | and its loop goes round for as long as there is fuel |
| `Interp.Run` | crates/ygg-interp/src/lib.rs:165-728 | the interpreter loop computes `RunFunction`, for every system and fuel; what that is, instruction by instruction, is stated from the bytes in the rows below |
| `Bits.BitOpBits` | crates/ygg-interp/src/lib.rs:461-473 | bit k of and, or and xor is that of the operands' bits k, for all 64 and all integers |
| `Bits.BitsDetermine` | crates/ygg-interp/src/lib.rs:461-473 | bits determine the number, so there is no other result |
| `Bits.ShiftsAre` | crates/ygg-interp/src/lib.rs:474-485 | a left shift is repeated doubling cut to 64 bits, a right shift repeated halving rounding down |
| `ByteMeaning.LoadIntRuns` | crates/ygg-interp/src/lib.rs:186-190 | LOAD_INT puts the i64 of its eight bytes, tagged |
| `ByteMeaning.LoadAtomRuns` | crates/ygg-interp/src/lib.rs:191-196 | LOAD_ATOM puts the module's atom by its global number, or the unknown one |
| `ByteMeaning.CopyRuns` | crates/ygg-interp/src/lib.rs:197-206 | LOAD_NIL and MOVE |
| `ByteMeaning.IntRuns` | crates/ygg-interp/src/lib.rs:264-485 | the two-operand integer instructions leave the sum, difference, product, comparison, each bit's and, or, xor, or the doubled or halved number, cut to i61; an overflowing product and a shift outside 0 to 60 trap |
| `ByteMeaning.IntTraps` | crates/ygg-interp/src/lib.rs:264-485 | operands that are not integers trap |
| `ByteMeaning.NotRuns` | crates/ygg-interp/src/lib.rs:486-491 | BNOT turns every bit over |
| `ByteRequests.AskRuns` | crates/ygg-interp/src/lib.rs:207-712 | every instruction the system carries out asks it with its registers' values in the order of its bytes, its immediates and constant bytes, and puts the reply where its first byte says, tagged if it is a bare number |
| `ByteRequests.SpawnRuns` | crates/ygg-interp/src/lib.rs:326-338 | SPAWN asks, then is started in the instance looked up, or traps where that has no such function |
| `ByteControl.JumpRuns` | crates/ygg-interp/src/lib.rs:717-727 | JMP goes to its end plus its signed offset |
| `ByteControl.BranchRuns` | crates/ygg-interp/src/lib.rs:297-304 | JMP_IF does so on every integer but zero |
| `ByteControl.EndRuns` | crates/ygg-interp/src/lib.rs:322-359 | RET gives its register's value, EXIT_ATOM traps with its register's atom |
| `ByteControl.CallRuns` | crates/ygg-interp/src/lib.rs:305-321 | CALL runs the numbered function on a frame of the listed registers' values in order and nil above, and puts its result, or ends with it if it is the sentinel |
| `ByteControl.CallExtRuns` | crates/ygg-interp/src/lib.rs:445-460 | CALL_EXT is served as its two atoms and the listed values in order |
| `ByteControl.TailRuns` | crates/ygg-interp/src/lib.rs:418-429 | TAIL_CALL stashes its function's number and the listed values in order, and returns the sentinel |
| `ByteControl.TailExtRuns` | crates/ygg-interp/src/lib.rs:430-444 | TAIL_CALL_EXT does so with its two atoms |
| `InterpSafety.SimpleSafe` | crates/ygg-interp/src/lib.rs:184-712 | a good straight-line instruction never leaves the frame |
| `InterpSafety.RunSound` | crates/ygg-interp/src/lib.rs:165-728 | runs of accepted modules never fail on decoding, jumps, calls or registers of their own, and pass only scanned boundaries, through all recursion and whatever external calls do |
| `InterpSafety.VerifiedRuns` | crates/ygg-interp/src/lib.rs:165-180 | started with matching arity, an accepted function ends in a value, a trap of data or system, or runs on; the one fault left is a callee's, which `StashSafety.InvokeSafe` rules out |
| `Lowering.MachineAgrees` | crates/ygg-jit/src/lib.rs:580-596 | the compiled integer operation gives, for all operands, the word or trap of the interpreter whose products wrap, and so what `ByteMeaning.ArithLeaves` says; that is the checking interpreter's except exactly for products that overflow an i64 |
| `ByteMeaning.ArithLeaves` | crates/ygg-interp/src/lib.rs:264-485 | for every two i61 and every integer opcode, whether there is a result and the word it is, in bits, doublings and halvings |
| `Lowering.OverflowSplitsEngines` | crates/ygg-jit/src/lib.rs:18-19 | 2^32 squared traps in the interpreter and is 0 in compiled code |
| `Lowering.EmitAgrees` | crates/ygg-jit/src/lib.rs:699-1210 | each emitted straight-line operation has the effect of the interpreter whose products wrap: registers, requests and traps |
| `Blocks.FindLeaders` | crates/ygg-jit/src/lib.rs:289-469 | returns the leaders of the code, or nothing iff the code does not scan |
| `Blocks.LeadersAreBoundaries` | crates/ygg-jit/src/lib.rs:287-288 | on verified code leaders are boundaries and include every jump target and every instruction after a block end; which they are by the bytes is `ByteBlocks.LeaderIs` |
| `ByteBlocks.LeaderIs` | crates/ygg-jit/src/lib.rs:287-469 | a block starts at 0, where a jump's offset leads, and after a jump or an end, and nowhere else |
| `ByteBlocks.ResolvesIs` | crates/ygg-jit/src/lib.rs:816-841 | of scanned instructions exactly those are given up that name an unknown atom, jump to just past the code, or end it with a conditional jump |
| `Blocks.Compile` | crates/ygg-jit/src/lib.rs:681-1213 | gives up iff the code does not scan or a lookup fails; otherwise every leader's block holds exactly its instructions up to the next block end or leader, none skipped |
| `Simulation.BlockAgrees` | crates/ygg-jit/src/lib.rs:681-1213 | from any instruction and state, the rest of its block and all after it do exactly what that interpreter does |
| `Simulation.ProgramAgrees` | crates/ygg-jit/src/lib.rs:621-1223 | compiled functions equal the interpreter whose products wrap: result, traps, requests, external calls and cost, for every system, every server of external calls and every length of run |
| `Simulation.VerifiedResolves` | crates/ygg-jit/src/lib.rs:816-841 | on verified code no block or atom lookup fails |
| `Simulation.CompileModule` | crates/ygg-jit/src/lib.rs:240-253 | a verified module compiles, function by function |
| `Codec.EncodeModule` | crates/ygg-bytecode/src/lib.rs:266-283 | the encoder's loops write `Encode(m)` |
| `Codec.DecodeModule` | crates/ygg-bytecode/src/lib.rs:285-312 | the decoder's cursor computes `Decoded(bytes)`, errors included |
| `Codec.Reader.Next` | crates/ygg-bytecode/src/lib.rs:321-329 | takes the next bytes and advances, or reports the input short |
| `Codec.Reader.NextFunction` | crates/ygg-bytecode/src/lib.rs:299-309 | reads one function record, or reports the input short |
| `Codec.ReadAtoms` | crates/ygg-bytecode/src/lib.rs:290-296 | reads that many atoms, stopping at the first short or malformed one |
| `Codec.RoundTrip` | crates/ygg-bytecode/src/lib.rs:266-312 | decoding an encoding with anything after it gives the module and the rest |
| `Codec.RoundTripExact` | crates/ygg-bytecode/src/lib.rs:266-312 | a module survives the round trip iff its counts and lengths fit their fields and its atoms are strings |
| `Codec.Reencodes` | crates/ygg-bytecode/src/lib.rs:285-312 | accepted bytes start with the encoding of what was read |
| `Codec.PrefixRejected` | crates/ygg-bytecode/src/lib.rs:285-312 | every strict prefix of an encoding is rejected as short |
| `Format.HeaderLies` | crates/ygg-bytecode/src/lib.rs:266-270 | an encoding starts with the six magic bytes and the atom count in four |
| `Format.AtomLies` | crates/ygg-bytecode/src/lib.rs:270-273 | atom k lies after those before it, its length in two bytes, then its text |
| `Format.CountLies` | crates/ygg-bytecode/src/lib.rs:274-274 | the function count follows the atoms in four bytes |
| `Format.FunctionLies` | crates/ygg-bytecode/src/lib.rs:275-281 | function k lies after those before it: name in four bytes, arity, registers, code length in four, code |
| `Format.Utf8IsText` | crates/ygg-bytecode/src/lib.rs:292-295 | the strings accepted are exactly the encodings of sequences of Unicode scalar values by section 3 of RFC 3629 |
| `Sentinels.ScanFunction` | crates/ygg-bytecode/src/lib.rs:214-238 | finds whether a function holds a tail call or unreadable code, and otherwise exactly whom it calls |
| `Sentinels.SentinelReturners` | crates/ygg-bytecode/src/lib.rs:211-255 | ends, with a bit set iff sibling calls lead to a function that leaves |
| `Sentinels.VerifiedLeaves` | crates/ygg-bytecode/src/lib.rs:206-210 | in a verified module leaving means holding a tail-call opcode, and callees are functions of the module |
| `Trampoline.Invoke` | kernel/src/modload.rs:229-249 | the trampoline loop computes `Invoked`: run, take the target, enter it, until a value; what a hop enters is stated in `TailIsCall.TailCallHops` and `TailCallExtHops` |
| `Trampoline.ResumeTail` | kernel/src/modload.rs:288-304 | the resume loop computes `Resume`: the same chain from an already filled stash |
| `Trampoline.FunctionNamed` | crates/ygg-bytecode/src/lib.rs:258-264 | the first function of that name, or none iff there is none |
| `Trampoline.ResolveIs` | kernel/src/modload.rs:257-264 | a qualified call enters function k of the module's current instance iff that is the first of the name and takes that many arguments; otherwise badarg |
| `Trampoline.OnceRuns` | kernel/src/modload.rs:306-340 | up to 16 arguments run on the instance's engine, more on the checking interpreter |
| `Trampoline.ExternIs` | crates/ygg-jit/src/lib.rs:984-1022 | compiled code calls straight into a bound function iff the call has its arity and at most 16 arguments, and dispatches otherwise; the interpreter always dispatches and comes back to itself |
| `Trampoline.EnvIs` | kernel/src/jit.rs:234-246 | what each engine lets its code see: atoms, system, whether products wrap, and where it spawns |
| `Trampoline.LookupIs` | kernel/src/modload.rs:198-210 | the registry's entry finds that version in either slot of its name, and otherwise the current instance |
| `StashSafety.RunPairs` | crates/ygg-interp/src/lib.rs:165-728 | every frame, its calls and nested invocations included, adds requests in which each tail call but a last one is followed at once by its take, never breaks, and returns the sentinel iff the last request is an untaken tail call that fits its module |
| `StashSafety.RunStash` | kernel/src/percpu.rs:46-52 | at every moment of every run the stash is full iff the request just made was a tail call, and then either the take comes next or the run has just returned the sentinel with a target its module can enter |
| `StashSafety.InvocationStash` | kernel/src/proc.rs:346-362 | at every moment of an invocation, however deep external calls nest on the one slot, a filled stash is taken as the next thing that happens; the invocation ends with it empty |
| `StashSafety.InvokeSafe` | kernel/src/modload.rs:229-249 | interpreted or compiled, dispatched or bound, whatever is loaded meanwhile, the trampoline finds every target it takes, enters only functions that match it, faults on no code and never lets the reserved word out |
| `StashSafety.DynamicSafe` | kernel/src/modload.rs:342-354 | the same of an external call dispatched in the table of the moment |
| `StashSafety.DirectSafe` | crates/ygg-jit/src/lib.rs:984-1009 | the same of a bound call, sentinel check or none |
| `StashSafety.ResumeSafe` | kernel/src/modload.rs:282-304 | the same of the chain resumed after it |
| `StashSafety.HopCallable` | kernel/src/modload.rs:252-280 | a taken target can be entered, a local one in the same instance; which function and arguments it is, from the bytes, is `TailIsCall.TailCallHops` |
| `StashSafety.NeverTails` | crates/ygg-jit/src/lib.rs:995-998 | a function whose bit is clear never returns the sentinel, on any engine and whatever its external calls run, so its callers need no check |
| `TailReading.InvokeReads` | kernel/src/modload.rs:229-280 | in every interpreted program and under every history of the module table, invoking equals running each tail call's target in place (a local one in the same instance, a qualified one as its call would find it) on the listed registers in order, its result becoming that of the frame and of every sibling frame that CALLed it |
| `TailReading.FrameReads` | crates/ygg-interp/src/lib.rs:305-320 | the same of any frame from any instruction, and the frame tail-calls in that reading iff it returns the sentinel |
| `TailReading.InvokeIsCall` | kernel/src/modload.rs:229-280 | where no function CALLs a sibling that may tail-call, that is each tail call's target called on those values and its result returned |
| `TailIsCall.TailCallHops` | kernel/src/modload.rs:271-276 | ended by TAIL_CALL k, rs, on any engine, a run goes on as function k of the same instance on those registers' values in order |
| `TailIsCall.TailCallExtHops` | kernel/src/modload.rs:256-270 | ended by TAIL_CALL_EXT it goes on as the dynamic call of those atoms on those values |
| `TailIsCall.OnceDeaf` | kernel/src/modload.rs:229-280 | in worlds that do not look at the marks calls leave in the log, runs from logs that differ in marks end alike |
| `TailIsCall.TailFinishesAsCall` | kernel/src/modload.rs:252-280 | so a verified frame about to make either tail call finishes as one about to make the call of the same operands and return its result, in everything but marks |
| `Unwinding.CallerIsUnwound` | crates/ygg-interp/src/lib.rs:315-320 | with such a CALL the two readings differ: the caller's frame is dropped, as the first says, whatever the system and the table |
| `Unwinding.ModuleVerified` | crates/ygg-bytecode/src/verify.rs:118-379 | the module showing it is one the verifier accepts |
| `ModuleTable.ChangeKeeps` | kernel/src/modload.rs:83-136 | loads and purges keep every slot verified, exactly analysed and rising in version |
| `ModuleTable.VersionsGrow` | kernel/src/modload.rs:70-136 | over every history a sealed name keeps its instance, and any other is replaced only by a higher version |
| `ModuleTable.TargetStays` | kernel/src/modload.rs:155-188 | a target bound to a sealed function at any earlier time is what the name resolves to now, verified, of that arity and with its bit still exact |
| `ModuleTable.DirectIs` | kernel/src/modload.rs:159-188 | a call is bound iff its module is sealed and compiled and the first function of the name takes at most 16 arguments, and by its exact bit |
| `ModuleTable.Modules.constructor` | kernel/src/modload.rs:44-45 | the table starts empty |
| `ModuleTable.Modules.LoadFull` | kernel/src/modload.rs:83-136 | loads iff the bytes decode and verify, else changes nothing; a sealed slot is returned, not replaced; otherwise the slot gets an instance of the next version with each atom interned and exact bits, its current becomes its previous, and no other slot changes |
| `ModuleTable.Modules.LoadSealed` | kernel/src/modload.rs:70-81 | is idempotent on a sealed name and otherwise seals what it loads |
| `ModuleTable.Modules.NoteRunning` | kernel/src/modload.rs:190-192 | records which instance of the table a process entered, never one newer than the table's |
| `ModuleTable.Modules.PurgeOld` | kernel/src/modload.rs:372-395 | drops the previous version of that slot alone, keeps exactly the living in the registry, and names for killing exactly the live processes on an older version, so whoever is left on that module runs the current one |
| `Linking.LinkedAgrees` | kernel/src/modload.rs:83-136 | with any instances compiled and any call sites bound when their instance was loaded, invoking gives what interpreting with the same arithmetic and dispatching everything gives (result, traps, requests and cost, under every history of the table) if and only if no SPAWN was made with the registry naming another instance than the executing one |
| `Linking.LinkedChecks` | crates/ygg-jit/src/lib.rs:18-19 | against the interpreter that checks products the only other way to part is an overflow there, and up to it the requests are the same |
| `Linking.TameAgrees` | kernel/src/modload.rs:155-210 | if no function reachable from a bound one by calls and tail calls holds a SPAWN and instances stay in their slots, a process started with the registry naming its instance never spawns astray, so the two agree |
| `Linking.LinkedSane` | kernel/src/modload.rs:155-188 | bound targets are verified, of their arity and exactly analysed, so the stash theorems hold in every linked world |
| `Linking.HelperAtHome` | kernel/src/jit.rs:234-246 | with the registry naming the executing instance, a compiled SPAWN starts there iff that is still in a slot of its name; a version in neither slot is taken for the current one |
| `Linking.ExternAgrees` | crates/ygg-jit/src/lib.rs:972-1022 | one external call, bound directly or dispatched by its helper, with or without the sentinel check: it does what dispatch does or a SPAWN in it strayed, and where that is excluded it leaves the registry as it found it |
| `StraySpawn.SpawnStrays` | kernel/src/jit.rs:234-246 | a linked world, built by the loader and compiler of this model, in which a call bound to a sealed spawning function traps with badarg where the dispatched call returns the child |
| `FrameBitmaps.FrameBitmap.constructor` | crates/ygg-alloc/src/lib.rs:29-40 | all frames start used, the untracked bits of the storage as well, and none is free |
| `FrameBitmaps.FrameBitmap.SetUsed` | crates/ygg-alloc/src/lib.rs:56-71 | sets one bit of the storage; `free` stays the number of clear tracked bits while the bit is tracked, and counts an untracked one all the same |
| `FrameBitmaps.FrameBitmap.MarkFreeRange` | crates/ygg-alloc/src/lib.rs:74-80 | frees exactly the whole frames of the range, clipped |
| `FrameBitmaps.FrameBitmap.MarkUsedRange` | crates/ygg-alloc/src/lib.rs:83-89 | marks exactly the frames of the rounded-up range, clipped |
| `FrameBitmaps.FrameBitmap.Alloc` | crates/ygg-alloc/src/lib.rs:91-108 | takes the first free frame from the cursor round, and fails iff every frame is used |
| `FrameBitmaps.FrameBitmap.FindFree` | crates/ygg-alloc/src/lib.rs:95-107 | with any frame free the search from the cursor finds the next one and never wraps to its start |
| `FrameBitmaps.FrameBitmap.AllocContig` | crates/ygg-alloc/src/lib.rs:112-137 | takes the lowest aligned run of free frames, and fails only if there is none |
| `FrameBitmaps.FrameBitmap.FirstUsed` | crates/ygg-alloc/src/lib.rs:125-130 | finds the first used frame of a run, or that there is none |
| `FrameBitmaps.FrameBitmap.FreeFrames` | crates/ygg-alloc/src/lib.rs:139-149 | frees a block iff all of it was used, else stops at the first free frame; `free` still counts the clear tracked frames iff the block lies in the tracked range |
| `FrameBitmaps.StrayFree` | crates/ygg-alloc/src/lib.rs:139-149 | with one frame tracked, freeing the untracked frame after it is accepted and `free` becomes 1 with no tracked frame free |
| `FrameBitmaps.CountFreed` | crates/ygg-alloc/src/lib.rs:139-149 | freeing a used block adds to the clear tracked bits exactly as many as lie in the tracked range |
| `FrameBitmaps.NoMultipleBetween` | crates/ygg-alloc/src/lib.rs:119-124 | the alignment skip passes no aligned start |
| `FrameBitmaps.CountRun` | crates/ygg-alloc/src/lib.rs:114-116 | a free run of n frames means at least n free, so the early refusal is right |
| `FrameBitmaps.RunsDisjoint` | crates/ygg-alloc/src/lib.rs:74-149 | over every run of allocations, frees and range marks off the blocks in use, blocks handed out stay used and disjoint, giving one back frees all of it, and between marks frames are conserved; its steps are the postconditions of `Alloc`, `AllocContig`, `FreeFrames` and the marks |
| `Rings.StepKeeps` | crates/ygg-rings/src/lib.rs:117-140 | every single load or store keeps the ring's invariant |
| `Rings.NeverStuck` | crates/ygg-rings/src/lib.rs:117-140 | each side always has a step, full or not and empty or not exclude each other, and a load may be as late as the last one |
| `Rings.WriteIsSafe` | crates/ygg-rings/src/lib.rs:117-128 | the producer writes only a slot that holds nothing unread |
| `Rings.ReadIsOldest` | crates/ygg-rings/src/lib.rs:131-140 | the consumer reads the oldest unread entry |
| `Rings.Fifo` | crates/ygg-rings/src/lib.rs:117-140 | under every interleaving pops are a prefix of pushes, at most the capacity is outstanding and no unread slot is overwritten, across cursor wraps |
| `Rings.RefusalsAreHonest` | crates/ygg-rings/src/lib.rs:117-140 | Full and empty are reported only when true at a cursor the other side had reached |
| `Rings.SpscRing.constructor` | crates/ygg-rings/src/lib.rs:80-87 | a ring starts empty |
| `Rings.SpscRing.Length` | crates/ygg-rings/src/lib.rs:102-106 | the wrapped difference of the cursors is the number of entries |
| `Rings.SpscRing.Push` | crates/ygg-rings/src/lib.rs:117-128 | appends iff there is room |
| `Rings.SpscRing.Pop` | crates/ygg-rings/src/lib.rs:131-140 | takes the oldest entry, or nothing iff empty |

## Left out

- Safepoints: neither engine's preemption polls are in the request log. The compiled engine also polls at a backward conditional jump that is not taken, and before SLEEP_MS checks its operand.
- Bodies of the heap, binary, message, port and buffer instructions inside the engines: each is one request to the system with the operands in order, the same request for the interpreter's arm and the runtime helper. What heap building itself does is proved in the term modules, not linked to the requests.
- Linking.LinkedChecks: says nothing of compiled code after an overflow that the checking interpreter traps on, beyond what Linking.LinkedAgrees says of it.
- ModuleTable.Modules.NoteRunning: the engines' own entries are the notes of the log (Trampoline.Running), not calls of this method; that a new process may run before its spawner has noted it, and the bind counters, are not modelled.
- Trampoline.Invoke: the compaction that invoke_gc makes between hops is proved in ProcHeaps and not part of this loop; the two table lookups of one dispatched call from compiled code, the caller's and the callee's, are at one moment.
- Interp.Run: native stack depth is unbounded, and the debug-build range assertion of integer terms is not modelled.
- ProcHeaps.ProcHeap.MaybeCompact: requires a tidy heap, which the constructor, Grow, Build and MaybeCompact itself give; frames come from a function of the page count that may fail, and returning the old spans to the allocator is not modelled.
- FrameBitmaps.FrameBitmap.FreeFrames: requires the block inside the bitmap's storage; past it the source panics on an index.
- Rings.Fifo: memory ordering is modelled as late but never backward cursor reads over entries written in order, not as hardware reordering.
- Scheduler steps draw a pid or reference number and use it at once; the code draws it by an atomic increment just before taking the table lock.
- Scheduler timers due at one look are served in the order they were set, not tick by tick.
- Scheduler fairness and liveness, priorities, the monitor handoff of spawn_monitor, and which message of a mailbox a receive selects.
- Cranelift, machine code, relocation and code-zone mapping; context-switch assembly; TLB and stack mapping.
- Port drivers and the buffer table, interrupts, boot, and host tools: the text assembler, term formatting and the run tool.
