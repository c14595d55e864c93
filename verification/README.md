# Janet: a model of the compiler back end, the collector, the marshaller and the scheduler

Janet is a small language that compiles to bytecode. This project models the parts of its C core whose
correctness is least obvious from reading one function, and proves what they are relied on for. Verify it
with `dafny verify dfyconfig.toml`.

**Bytecode.** `Bytecode` and `Machine` give instruction words their fields and an interpreter step.
`Verifier` is the bytecode verifier and what it buys: accepted code stays in bounds in every run.
`MovOpt` (dead write removal), `NoopRemoval` with `NoopSemantics` (compaction and jump rewriting) and
`Optimizer` (both) show that the passes preserve acceptance and everything observable of every run, and
`DeletedReads` when that can fail.
`FuncDefs` has the passes and the verifier as in-place loops over a function definition. `Runs` has the
general facts about runs that these use.

**Compiler.** `Regalloc` refines the register bitset to a set. `Slots` says what loads, moves and stores do
to registers, upvalues and reference cells, and `Emitter` proves the emitted code to do what it is meant to
do on every mix of slots. `Scopes` and `Compiler` are lexical scopes, register lifetimes and upvalue
addressing over the real allocators. `VarOps`, `Comparators`, `InlineOps`, `InlineComparisons` and
`InlineEquality` are the variadic operators and comparators, as bytecode loops and as inline code.
`Encoding`, `Asm` and `Assembler` are instruction encoding, disassembly and labels.

**Garbage collector.** `GcHeap`, `GcMark`, `GcSweep` and `Gc` are marking with bounded recursion and a spill
stack, the three sweep passes over linked block lists with weak containers, and a whole collection.
`ThreadedAbstracts` is the reference counting protocol between threads, as a state machine over atomic steps.

**Marshaller.** `MarshInts`, `MarshGraph`, `Marsh`, `MarshRoundTrip`, `MarshDepth` and `Marshaller` are integer
encodings, value graphs with sharing and cycles, the encoder and decoder as functions, their round trip, how
deep a graph may be, and both as they run. `MarshFormat` has the bytes themselves, `MarshSharing` what is
written of a value the second time, and `MarshSafety` what the reader makes of any bytes.

**Event loop and fibers.** `RingBuffer`, `TimerHeap`, `Scheduler`, `SchedulerRuns` and `Deliveries` are the
circular queue, the timer heap, generation numbered scheduling and channels as a state machine, what all of
its runs keep, and what becomes of the values. `Wakeups` shows that no wakeup is lost. `Channels` and
`EventLoop` are the loop as it runs, over circular buffers and the heap, and `LoopRuns` shows its whole runs
to be runs of the state machine.
`FiberStack` is the frame chain in one array with closure environments, and `Calls` joins it to the verifier.

Where a promise does not hold of the code, the model keeps the code and states the exact condition:
`MovOpt.PrunedLockstep` with `DeletedReads.DeletionsUnnoticedExactly`, `Emitter.Emitter.EmitS`,
`FiberStack.EntriesAgree`, `InlineOps.ReducedExactly`, `InlineOps.NegatedExactly`,
`InlineComparisons.CompareExactly`, `InlineEquality.EqualityExactly`, `Assembler.BodyBack`,
`ThreadedAbstracts.NeverFinalizedExactly`, `Deliveries.LosesExactly` and `Deliveries.HandedFate`.

## Model

| member | source | states |
|---|---|---|
| Bytecode.DecodeNoop | src/core/bytecode.c:120-125 | a word is a noop exactly when its low seven bits are zero |
| Verifier.FaultFreeExact | src/core/bytecode.c:416-484 | the checks of one instruction pass if and only if the opcode is known, every slot, constant, definition and environment index that the interpreter uses exists and the jump stays in the code; for the error operation the whole D field must name a slot too, of which the interpreter reads A |
| Verifier.FaultNamed | src/core/bytecode.c:416-484 | the code of an instruction names the first thing wrong with it: the opcode, a slot the interpreter uses, the jump, the definition, the constant or the environment |
| Verifier.SymbolFaultExactly | src/core/bytecode.c:504-526 | the checks of a symbol map entry pass if and only if its slot and live range or its environment exist and it has a name, and each code names what does not |
| Verifier.LastDecodes | src/core/bytecode.c:486-502 | code with an accepted last instruction cannot run off its end |
| Verifier.VerifiedSound | src/core/bytecode.c:405-529 | an accepted definition is sound instruction by instruction and ends in an exit or a jump |
| Verifier.StepSafe | src/core/bytecode.c:405-529 | one step of sound code keeps the pc in the code and never crashes |
| Verifier.VerifiedRunsSafely | src/core/bytecode.c:405-529 | every run of an accepted definition, against any surroundings, keeps the pc and every index in range |
| FuncDefs.FuncDef.FirstInstructionFault | src/core/bytecode.c:416-484 | the scanning loop returns the code of the first faulty instruction, or zero |
| FuncDefs.FuncDef.FirstSymbolFault | src/core/bytecode.c:504-526 | the scan of the symbol map from its end returns the code of the last faulty entry, or zero |
| FuncDefs.FuncDef.Verify | src/core/bytecode.c:405-529 | zero if and only if the definition is accepted; too many environments, no code, and parameters that with the rest parameter do not fit the slots are reported as 15, 1 and 2 in this order, and any other code is the fault found first |
| Calls.AcceptedCallable | src/core/fiber.c:191-220 | an accepted definition can be called: its parameters, the rest parameter included, have slots |
| Calls.SameCaptures | src/core/fiber.c:253-285 | the slots that a frame keeps for closures are those that the interpreter shares with them |
| Calls.Call | src/core/fiber.c:191-250 | a call or tail call of an accepted definition puts a frame on the stack that has all arguments and in which every run of the code, in any surroundings, stays in bounds |
| NoopRemoval.PcMap | src/core/bytecode.c:116-127 | the rewrite map never runs ahead of the old index |
| NoopRemoval.PcMapMonotone | src/core/bytecode.c:116-127 | the rewrite map is monotone and shortens distances, never lengthening one |
| NoopRemoval.KeptOrder | src/core/bytecode.c:116-127 | the map keeps the order of a kept instruction and any boundary, both ways |
| NoopRemoval.NewDistance | src/core/bytecode.c:139-157 | a jump that fits its signed field before compaction fits it afterwards |
| NoopRemoval.AddShifted8 | src/core/bytecode.c:139-146 | adding to the upper 24 bits modulo 2^32 adds to the signed jump offset and leaves the opcode byte alone |
| NoopRemoval.AddShifted16 | src/core/bytecode.c:147-157 | the same for the upper 16 bits of a conditional jump |
| NoopRemoval.RewriteMeaning | src/core/bytecode.c:131-166 | a rewritten instruction does what the old one did and its jump leads to the image of the old target |
| NoopRemoval.CompactAt | src/core/bytecode.c:129-166 | every kept instruction ends up, rewritten, where the map says |
| NoopRemoval.CompactSource | src/core/bytecode.c:129-166 | every new index comes from a kept instruction |
| NoopRemoval.CompactDecodes | src/core/bytecode.c:129-166 | the compacted code, taken apart, is the kept instructions with redirected jumps |
| NoopRemoval.LiveRangeKept | src/core/bytecode.c:168-176 | a symbol is live at a kept instruction after the rewrite if and only if it was before |
| NoopRemoval.MapSymbolFaultFree | src/core/bytecode.c:168-176 | rewritten symbol map entries pass the checks again |
| NoopRemoval.WithoutNoopsVerified | src/core/bytecode.c:114-181 | removing noops from an accepted definition leaves an accepted one |
| NoopSemantics.NoopsForward | src/core/bytecode.c:114-181 | every state of a run of the original is reached, with its pc mapped, by a run of the compacted code |
| NoopSemantics.NoopsBackward | src/core/bytecode.c:114-181 | every state of a run of the compacted code is reached by the original |
| FuncDefs.FuncDef.MapPcs | src/core/bytecode.c:116-127 | the first loop computes the rewrite map |
| FuncDefs.FuncDef.Retarget | src/core/bytecode.c:136-160 | one instruction is rewritten as specified |
| FuncDefs.FuncDef.CompactCode | src/core/bytecode.c:129-166 | the in-place loop leaves the compacted code and source map in front |
| FuncDefs.FuncDef.MapSymbols | src/core/bytecode.c:168-176 | the symbol map is rewritten through the map, upvalue entries excepted |
| FuncDefs.FuncDef.RemoveNoops | src/core/bytecode.c:114-181 | the whole pass turns the definition into its compacted form |
| MovOpt.OperandsTouched | src/core/bytecode.c:210-344 | the slots that count as used by an instruction are those that the interpreter reads, and the result of an operation that consumes the pushed arguments |
| MovOpt.DeadIsLoad | src/core/bytecode.c:346-393 | only loads, moves, closures and index reads whose target nobody reads are deleted |
| MovOpt.DeadExactly | src/core/bytecode.c:346-393 | an instruction is deleted if and only if it is a load, move, closure or index read into a slot that is neither captured nor used nor reserved |
| MovOpt.LiveShrinks | src/core/bytecode.c:185-402 | deleting instructions never makes a dead slot matter again |
| MovOpt.PrunedRound | src/core/bytecode.c:185-402 | rounds of deletion compose: each stays a pruning of the original |
| MovOpt.PrunedLockstep | src/core/bytecode.c:185-402 | the pruned program runs in lockstep with the original, with the same pushes, events and outcome, if and only if no deleted instruction raises |
| FuncDefs.FuncDef.TouchReads | src/core/bytecode.c:210-344 | marks exactly the slots that the read group of an instruction names |
| FuncDefs.FuncDef.Analyse | src/core/bytecode.c:191-344 | the analysis finds exactly the slots that are captured or read |
| FuncDefs.FuncDef.Prune | src/core/bytecode.c:346-393 | one round turns exactly the dead instructions into noops, and says whether it removed one |
| FuncDefs.FuncDef.MovOpt | src/core/bytecode.c:185-402 | the loop ends, each round removing an instruction, and leaves a pruned definition in which every load, move, closure and index read goes to a slot that matters |
| Optimizer.OptimizedForward | src/core/compile.c:1134-1135 | after both passes every observable state of the original is matched, as long as no deleted instruction raises |
| Optimizer.OptimizedBackward | src/core/compile.c:1134-1135 | and every observable state of the optimized code comes from the original |
| Optimizer.OptimizedVerified | src/core/compile.c:1134-1135 | both passes preserve acceptance |
| Optimizer.Optimize | src/core/compile.c:1134-1135 | the two passes in sequence give the optimized definition of these theorems |
| Optimizer.IgnoredReadDiffers | src/core/bytecode.c:377-391 | a function whose ignored index read raises is shipped as a function that returns nil, so the condition on deleted instructions is needed |
| DeletedReads.HarmlessForward | src/core/bytecode.c:377-391 | if no deleted instruction is an index read or an upvalue load, every observable state of the original is matched by the shipped code, in every world |
| DeletedReads.HarmlessBackward | src/core/bytecode.c:377-391 | and every observable state of the shipped code is one of the original |
| DeletedReads.ReadRaisesExactly | src/core/bytecode.c:377-391 | a read that a run makes can raise, the world having been the same so far, if and only if the run has not asked for the same before |
| DeletedReads.DeletionNoticed | src/core/bytecode.c:377-391 | if a run reaches a deleted read that it has not made before, there is a world in which the original raises there while the shipped code goes on |
| DeletedReads.DeletionObserved | src/core/bytecode.c:377-391 | and if nothing that is left can raise, no state of the shipped code looks like the end of the original |
| DeletedReads.DeletionsUnnoticedExactly | src/core/bytecode.c:377-391 | if nothing that is left can raise, the shipped code looks like the original in every world and from every entry if and only if no run reaches a deleted read that it has not made before |
| DeletedReads.RepeatedReadUnnoticed | src/core/bytecode.c:377-391 | the second of two equal reads is deleted and no world can tell, so reaching a deleted read is not enough |
| Regalloc.PushHolds | src/core/regalloc.c:86-100 | growing the bitset changes no answer |
| Regalloc.WithBitHolds | src/core/regalloc.c:103-108 | setting or clearing a bit changes the answer for that register alone |
| Regalloc.CountTrailingOnes | src/core/regalloc.c:49-56 | the least zero bit of a chunk that has one |
| Regalloc.RegisterAllocator.Clone | src/core/regalloc.c:67-83 | a copy with the same registers and no temporaries |
| Regalloc.RegisterAllocator.Touch | src/core/regalloc.c:103-108 | takes one register, whatever it was |
| Regalloc.RegisterAllocator.Alloc1 | src/core/regalloc.c:111-134 | hands out the least free register, never one of 240 to 255, and max bounds all that were handed out |
| Regalloc.LeastFree | src/core/regalloc.c:111-134 | below the first zero bit of the first chunk that is not full every register is taken |
| Regalloc.RegisterAllocator.Free | src/core/regalloc.c:138-142 | gives one register back and no other |
| Regalloc.RegisterAllocator.Check | src/core/regalloc.c:145-150 | tells whether a register is taken |
| Regalloc.RegisterAllocator.Temp | src/core/regalloc.c:155-167 | a register below 256: a free one, or the reserved one of the tag when none is free, in which case the far register that was tried stays taken but max does not count it |
| Regalloc.RegisterAllocator.FreeTemp | src/core/regalloc.c:169-173 | gives a temporary back unless it is a reserved register |
| Slots.TransferThrough | src/core/emit.c:258-263 | two transfers through a register are one transfer that also disturbs that register |
| Slots.DerefTransfers | src/core/emit.c:118-126 | loading the array of a reference and reading index 0 loads the reference |
| Slots.RefTransfers | src/core/emit.c:146-153 | loading the array of a reference and writing index 0 stores into the reference |
| Slots.PerformFrom | src/core/emit.c:341-353 | loading operands, operating and storing the result is the operation on the slots themselves, for every store, every later constant table and whatever else the operation writes |
| Emitter.Emitter.Const | src/core/emit.c:53-75 | a constant keeps its index, new ones are appended, and a full table is an error |
| Emitter.Emitter.LoadConst | src/core/emit.c:78-111 | emits code that puts the constant in the register and changes nothing else |
| Emitter.Emitter.MoveNear | src/core/emit.c:114-140 | emits code that loads any kind of slot into a near register and changes nothing else |
| Emitter.Emitter.MoveBack | src/core/emit.c:143-179 | emits code that stores a register into any writable slot, disturbing no live register; a far register stored into a reference misses it |
| Emitter.Emitter.FreeRegNear | src/core/emit.c:182-189 | releases what was borrowed and nothing else |
| Emitter.Emitter.RegFar | src/core/emit.c:192-210 | a register of two bytes that holds the slot: its own, or a fresh one that is near if and only if a near one is free |
| Emitter.Emitter.RegNear | src/core/emit.c:213-221 | a near register that holds the slot: its own or a temporary |
| Emitter.Emitter.Copy | src/core/emit.c:239-264 | the destination gets the value of the source and no other live register, upvalue or reference changes; a constant destination is an error |
| Emitter.Emitter.EmitS | src/core/emit.c:278-286 | performs the operation on its slot if and only if it does not have to store into a reference while every near register is taken |
| Emitter.Emitter.EmitSS | src/core/emit.c:321-331 | performs the operation on both slots, disturbing nothing else that is live, and leaves all temporaries free |
| Emitter.Emitter.EmitSSI | src/core/emit.c:309-339 | the same for two slots and an immediate byte |
| Emitter.Emitter.EmitSSS | src/core/emit.c:341-353 | the same for three slots |
| Emitter.MissedStore | src/core/emit.c:146-153 | code that never reaches the reference does not perform the operation |
| Emitter.SpilledIndex | src/core/emit.c:149-152 | a far register number spills into the index field of the store |
| Scopes.CapturedDistinct | src/core/compile.c:427-453 | the environments of a function are frames of different functions, all of them around it |
| Scopes.CapturedGrows | src/core/compile.c:442-450 | later resolutions never change what an earlier environment index means |
| Scopes.LinkFound | src/core/compile.c:433-441 | an environment entry that is there already leads to the owner of the symbol |
| Scopes.LinkAdded | src/core/compile.c:442-450 | a new entry leads to the owner of the symbol and keeps all lists consistent |
| Compiler.Compiler.Find | src/core/compile.c:313-337 | finds nothing if and only if no pair of any scope has the name; what it finds is the last such pair of the innermost scope that has one, with whether a function boundary was crossed or discarded code entered |
| Compiler.InnermostOnly | src/core/compile.c:320-337 | a name that some scope has stands for one pair only |
| Compiler.Compiler.LinkScope | src/core/compile.c:429-452 | one function gets or already has an entry through which the owner is reached |
| Compiler.Compiler.Propagate | src/core/compile.c:424-453 | from the owner inward every function can reach its frame |
| Compiler.Compiler.Expose | src/core/compile.c:412-456 | a variable used across functions is kept, marked as an upvalue, and the index that is returned leads to the frame of its function |
| Compiler.Compiler.Resolve | src/core/compile.c:309-457 | a name that no scope has is the global; any other stands for the last pair with it in the innermost scope that has it: a constant or reference as it is, a register of the same function, or an upvalue whose environment number leads to the frame of the function that owns it, which is marked as captured |
| Compiler.Compiler.Enter | src/core/compile.c:153-176 | a scope of the same function starts with the registers held, a function with none |
| Compiler.Compiler.MergeSyms | src/core/compile.c:195-213 | the names move to the outer scope without being visible, and captured registers stay held |
| Compiler.Compiler.Leave | src/core/compile.c:179-227 | the largest register survives, captured registers stay allocated, and all scope invariants and their allocators agree again |
| Compiler.Compiler.Alloc | src/core/emit.c:33-39 | no register that a name or a closure of the function uses is handed out again |
| Compiler.Compiler.NameSlot | src/core/compile.c:94-130 | the new name is the one found from now on |
| Compiler.Compiler.FreeSlot | src/core/compile.c:87-91 | a constant, reference, named slot or upvalue is left alone, and any other register is given back without taking one from a variable |
| Compiler.Compiler.Temp | src/core/regalloc.c:155-167 | a temporary of the innermost scope is below 256 and no register of a variable; when it is a reserved one, the far register that was tried stays taken without counting for the maximum |
| Compiler.Compiler.FreeTemp | src/core/regalloc.c:169-173 | a temporary is given back without taking a register from a variable |
| Compiler.Compiler.PopFuncdef | src/core/compile.c:1005-1017 | the slot count covers every register and every temporary that the allocators of the function handed out, scopes that were left included |
| GcHeap.EdgesExactly | src/core/gc.c:125-296 | for every kind of block, what the marker follows is what the fields of the block hold, other than the weak sides of weak containers |
| GcMark.SeenIsReachable | src/core/gc.c:57-97 | when nothing is pending, what is marked or visited is exactly what is reachable |
| GcMark.Marker.Mark | src/core/gc.c:57-97 | a value is marked, or spilled when the recursion is at the guard, and the marking invariant holds |
| GcMark.Marker.MarkBlock | src/core/gc.c:163-312 | a block is flagged before its references are followed, and already marked blocks are left alone |
| GcMark.Marker.MarkMany | src/core/gc.c:125-134 | marking a run of values keeps the invariant and handles each of them |
| GcMark.Marker.DrainSpilled | src/core/gc.c:600-603 | the loop over spilled roots ends and leaves the root array as long as it was |
| GcMark.Marker.MarkAll | src/core/gc.c:578-603 | marks exactly the blocks reachable from the event loop, the root fiber and the roots, never nests deeper than the guard, and restores the roots |
| GcSweep.SweepResult | src/core/gc.c:448-488 | after as many steps as there are blocks the list holds exactly the kept ones, in order |
| GcSweep.CleanedRefers | src/core/gc.c:407-446 | a weak container keeps strong references only to what it referred to |
| GcSweep.CleanedHolds | src/core/gc.c:407-446 | and weak references only to live blocks |
| GcSweep.Arena.SweepList | src/core/gc.c:448-488 | unlinks and frees exactly the unmarked blocks of a list, in place, and clears the marks of the others |
| GcSweep.Arena.DropItems | src/core/gc.c:417-423 | dead items of a weak array become nil |
| GcSweep.Arena.DropEntries | src/core/gc.c:424-443 | entries of a weak table with a dead weak side go away |
| GcSweep.Arena.DropWeak | src/core/gc.c:407-446 | the first pass cleans every weak container that stays |
| GcSweep.Arena.SweepAll | src/core/gc.c:406-488 | the three passes keep exactly the marked blocks in list order and lower the block count by the number freed |
| Gc.SurvivorMentions | src/core/gc.c:406-488 | what survives mentions, strongly or weakly, only what survives |
| Gc.SweptNoDangling | src/core/gc.c:406-488 | no dangling reference is left |
| Gc.Collect | src/core/gc.c:578-608 | a collection keeps exactly the reachable blocks, leaves no reference to a freed one, and takes from weak containers exactly the references to what is not kept or is shared between threads; a suspended collector does nothing |
| Gc.WeakItemKept | src/core/gc.c:381-424 | an item of a weak array stays if and only if it is no reference or one to a reachable block that is not shared |
| Gc.WeakEntryKept | src/core/gc.c:425-442 | an entry of a weak table stays if and only if each of its weak sides is no reference, or one to a reachable block that is not shared |
| ThreadedAbstracts.HoldersPut | src/core/gc.c:490-521 | changing one thread changes the number of holders by what that thread gained or lost |
| ThreadedAbstracts.ThreadStep | src/core/gc.c:490-521 | a table always covers the heap of its thread and carries marks only for entries yet to be swept |
| ThreadedAbstracts.ObjectStep | src/core/abstract.c:196-215 | every atomic step keeps the count equal to the number of tables, undelivered records and counts left behind by failed sends and receives |
| ThreadedAbstracts.DoomFrame | src/core/abstract.c:204-215 | an abstract whose count is zero is touched only by the thread that finalizes it |
| ThreadedAbstracts.InvStep | src/core/marsh.c:1603-1636 | create, send, failed send, receive, failed receive, discard at any time before the thread is gone, mark, sweep, exit and finalize steps all keep the invariant |
| ThreadedAbstracts.CountIsReferences | src/core/marsh.c:444-455 | in every interleaving the count is tables plus undelivered records plus what failed sends and receives left behind; an abstract is finalized at most once and never while a thread or message refers to it |
| ThreadedAbstracts.NoUseAfterFree | src/core/abstract.c:196-215 | no step of any run touches a finalized abstract |
| ThreadedAbstracts.LastReference | src/core/marsh.c:1618-1621 | the step that takes the last reference away finalizes the abstract if and only if it is not a discarded message and no failed send or receive has left a count behind |
| ThreadedAbstracts.NeverFinalizedExactly | src/core/marsh.c:1618-1632 | in every run from the start, an abstract that nothing refers to any more is never finalized, whatever happens later, if and only if a failed send or receive has left a count behind or its last reference was a discarded message |
| ThreadedAbstracts.DiscardLeaks | src/core/marsh.c:1618-1621 | discarding a message with the last reference leaks the abstract |
| ThreadedAbstracts.DiscardLeaksFromStart | src/core/marsh.c:1618-1621 | a run from the start that leaks: create, send, forget, sweep, discard |
| ThreadedAbstracts.FailedSendLeaks | src/core/ev.c:757-768 | a run from the start that leaks: marshalling counts the reference and then raises |
| ThreadedAbstracts.FinalizerLeaks | src/core/ev.c:821-832 | a run from the start that leaks: a channel that holds the last reference is finalized in a sweep |
| ThreadedAbstracts.LeakedForever | src/core/marsh.c:1618-1621 | a leaked abstract is never finalized, whatever happens later |
| MarshInts.IntRoundTrip | src/core/marsh.c:137-155 | readint inverts pushint wherever its bytes occur and stops right behind them |
| MarshInts.SizeRoundTrip | src/core/marsh.c:169-185 | read64 inverts push64 wherever its bytes occur |
| MarshInts.PushSize | src/core/marsh.c:169-185 | the loop writes the bytes of the specification |
| MarshInts.PullSize | src/core/marsh.c:767-787 | the loop reads what the specification reads |
| MarshRoundTrip.ReferenceRoundTrip | src/core/marsh.c:494-503 | a back reference finds the value that the writer numbered |
| MarshRoundTrip.RoundLast | src/core/marsh.c:592-605 | tuples and structs, numbered after their parts, come back in step with the writer |
| MarshRoundTrip.RoundObject | src/core/marsh.c:581-629 | arrays, tables and buffers, numbered before their parts, come back in step with the writer, cycles included |
| MarshRoundTrip.RoundOne | src/core/marsh.c:470-647 | writer numbers and reader lookup indices agree after every value |
| MarshRoundTrip.MarshalRoundTrip | src/core/marsh.c:470-647 | every graph that can be written is read back as the same graph with the same sharing, consuming exactly the bytes written, and as many values are numbered on both sides |
| MarshDepth.ShallowMarshals | src/core/marsh.c:470-503 | a graph can be written if the nesting of its value and of all its objects together stays below the recursion guard, cycles included |
| MarshSharing.SecondTime | src/core/marsh.c:494-503 | a value that was written before, with anything in between, is a back reference of at most six bytes and gets no new number |
| MarshSafety.AnyBytesSafe | src/core/marsh.c:1329-1541 | whatever the bytes are, what the reader accepts is a well-formed graph, with every reference and prototype there and no key twice, and nothing is read behind the input |
| MarshSafety.PutFinds | src/core/marsh.c:1497-1530 | putting a value under a key changes the value of that key alone; nil and NaN keys change nothing |
| MarshFormat.IntFormat | src/core/marsh.c:136-154 | integers are one byte, two marked bytes or a mark and four bytes, most significant first, in two's complement |
| MarshFormat.SizeFormat | src/core/marsh.c:169-184 | sizes are one byte up to 240, otherwise a count and the bytes, least significant first and without zeros at the end |
| MarshFormat.Leads | src/core/marsh.c:44-80 | every kind of value begins with its own byte and then its size; a value written again begins with the byte of a back reference |
| MarshFormat.PartsOrder | src/core/marsh.c:581-647 | prototype first, then each key with its value |
| Marshaller.Writer.MarkSeen | src/core/marsh.c:416-428 | numbers a value in order of appearance |
| Marshaller.Writer.MarshalOne | src/core/marsh.c:470-647 | appends the encoding of the value; a stack overflow is the only failure |
| Marshaller.Writer.MarshalAll | src/core/marsh.c:581-647 | appends the encodings of the parts in order |
| Marshaller.Reader.UnmarshalOne | src/core/marsh.c:1329-1541 | reads what the specification reads, and fails where it fails |
| Marshaller.Reader.UnmarshalText | src/core/marsh.c:1386-1418 | strings, symbols, keywords and buffers |
| Marshaller.Reader.UnmarshalComposite | src/core/marsh.c:1452-1541 | arrays, tuples, structs and tables of all kinds |
| Marshaller.Reader.UnmarshalAll | src/core/marsh.c:1474-1541 | the parts of a composite in order |
| Marshaller.CopyThroughBytes | src/core/marsh.c:692-709 | a value that goes into bytes comes out of them as the same graph |
| RingBuffer.RingPush | src/core/ev.c:171-176 | a write at the tail of a buffer that is not full appends, wrapped or not |
| RingBuffer.RingPushHead | src/core/ev.c:178-187 | a write before the head of a buffer that is not full puts an item in front |
| RingBuffer.Queue.Count | src/core/ev.c:138-142 | the number of items, wrapped or not |
| RingBuffer.Queue.MaybeResize | src/core/ev.c:144-169 | makes room without changing the contents, and fails exactly at the capacity limit |
| RingBuffer.Queue.Grow | src/core/ev.c:149-167 | a wrapped layout keeps its contents when its second segment moves |
| RingBuffer.Queue.Push | src/core/ev.c:171-176 | appends one item, or fails exactly at the capacity limit |
| RingBuffer.Queue.PushHead | src/core/ev.c:178-187 | puts one item in front, or fails exactly at the capacity limit |
| RingBuffer.Queue.Pop | src/core/ev.c:189-194 | takes the first item, or reports an empty queue |
| TimerHeap.RootLeast | src/core/ev.c:209-213 | the root of the heap is earliest |
| TimerHeap.RiseStep | src/core/ev.c:252-264 | a swap upwards moves the only place where order may fail |
| TimerHeap.SinkStep | src/core/ev.c:219-234 | a swap with the earlier child moves the only place where order may fail |
| TimerHeap.TimerHeap.Peek | src/core/ev.c:209-213 | the earliest timeout, if there is one |
| TimerHeap.TimerHeap.Add | src/core/ev.c:238-265 | keeps the heap and adds exactly one timeout |
| TimerHeap.TimerHeap.Pop | src/core/ev.c:216-235 | keeps the heap and takes out exactly the root |
| TimerHeap.TimerHeap.Expire | src/core/ev.c:1510-1527 | takes out exactly the timeouts that are due, in nondecreasing order |
| SchedulerRuns.CoreSchedule | src/core/ev.c:515-529 | scheduling keeps the generations of queued tasks apart |
| SchedulerRuns.CoreRun | src/core/ev.c:1530-1537 | taking a task off the queue keeps the generations apart, and it runs only in the present generation |
| SchedulerRuns.CoreStep | src/core/ev.c:515-529 | every step keeps generations apart and wakes or resumes none twice |
| SchedulerRuns.ShapeGive | src/core/ev.c:1004-1068 | a give keeps readers and items exclusive and the number of waiting writers right |
| SchedulerRuns.ShapeTake | src/core/ev.c:1085-1132 | a take keeps readers and items exclusive and the number of waiting writers right |
| SchedulerRuns.BalanceGive | src/core/ev.c:1004-1068 | what a give puts in is handed out or becomes the last item |
| SchedulerRuns.BalanceTake | src/core/ev.c:1085-1132 | what a take hands out was the first item |
| SchedulerRuns.ChannelStep | src/core/ev.c:1004-1132 | every step keeps all channel invariants |
| SchedulerRuns.OneRunnable | src/core/ev.c:1530-1537 | in every run at most one queued task of a fiber is runnable |
| SchedulerRuns.WokenOnce | src/core/ev.c:1510-1537 | in every run the reader, timeout and close entries tagged with one generation of a fiber wake it at most once, and the task of a generation leaves the queue at most once |
| SchedulerRuns.ChannelsInOrder | src/core/ev.c:1004-1132 | in every run an open channel has no items or no waiting readers, as many waiting writers as items beyond the limit, and hands values out in the order given |
| SchedulerRuns.AttentiveStep | src/core/ev.c:515-529 | unless the running fiber cancels itself, every waiting reader would accept a value |
| SchedulerRuns.LostNeedsSelfCancel | src/core/ev.c:1004-1132 | if no running fiber cancels itself, no channel gives a value out to nobody |
| Deliveries.HandedQueued | src/core/ev.c:1004-1132 | a value that is handed out travels with a task of the present generation of its fiber |
| Deliveries.HandedFate | src/core/ev.c:1530-1540 | in every run a value that was handed out is still queued or has left the queue once; it is dropped if and only if its fiber was scheduled again before that, and otherwise reaches the fiber unless that has ended |
| Deliveries.LosesExactly | src/core/ev.c:515-516 | a value is given out to nobody if and only if the taker, or the first fresh reader, has a cancellation queued |
| Deliveries.LostExactly | src/core/ev.c:1004-1132 | in every run the values given out to nobody are those of the steps that meet this condition |
| Deliveries.SelfCancelLoses | src/core/ev.c:515-516 | a run from the start: a fiber cancels itself, takes an item and loses it |
| Deliveries.CancelDrops | src/core/ev.c:1537 | a run from the start in which no fiber cancels itself: a fiber that another one cancels between the give and its turn does not get the value |
| Deliveries.EndedRefuses | src/core/ev.c:1020-1022 | a run from the start: the entry of a fiber that waited with its own cancellation queued outlives it, and a value given later goes to a fiber that has ended |
| Wakeups.EntryStays | src/core/ev.c:1004-1128 | an entry with the present generation of its fiber leaves a channel only in a step that schedules the fiber, unless a cancellation of it was queued or it had ended |
| Wakeups.NoLostWakeup | src/core/ev.c:1004-1128 | in every run, a fiber that stopped in a give or take or went to sleep is in that queue or has that timeout with its present generation, or has a task of its present generation queued, until it runs again |
| Wakeups.FullQueueStrands | src/core/ev.c:1093-1103 | a queue at its largest drops the entry, so that nothing of the channel will wake the fiber |
| Wakeups.TakeWakesWriter | src/core/ev.c:1109-1128 | an item and the first waiting writer leave together, and unless a cancellation of it is queued the writer is scheduled with the channel as its next generation |
| Wakeups.CloseWakes | src/core/ev.c:1352-1410 | closing schedules everyone who waits with nil as the next generation |
| Wakeups.CloseOrder | src/core/ev.c:1352-1410 | writers before readers, behind everything that is queued |
| Wakeups.ExpireDelivers | src/core/ev.c:1510-1526 | a sleep resumes its fiber with nil, a timeout and a deadline cancel it with their message, each under its condition, and otherwise nothing changes |
| Wakeups.FirstComeFirstServed | src/core/ev.c:1530-1540 | in every run tasks have their turn in the order in which they were queued, as long as none is queued to run soon |
| Wakeups.StartedIsRoot | src/core/ev.c:515-529 | in every run every fiber that was started has been scheduled and can be cancelled as a task |
| Channels.Channel.PopReader | src/core/ev.c:1020-1022 | the loop takes stale readers and the first fresh one off the circular buffer |
| Channels.Channel.PushItem | src/core/ev.c:1024-1043 | the item is queued unless the buffer is at its largest, and the giver too when that is over the limit |
| Channels.Channel.PopItem | src/core/ev.c:1093-1119 | the first item and the first waiting giver come off their buffers, or the taker is queued |
| EventLoop.EventLoop.ScheduleGeneral | src/core/ev.c:515-529 | over the circular task queue, the step of the state machine that queues a task with a new generation; it aborts if and only if the queue would reach its largest size |
| EventLoop.EventLoop.ChannelGive | src/core/ev.c:1004-1068 | over the circular buffers, the state and events are those of a give, and it panics if and only if the channel is closed or overfull |
| EventLoop.EventLoop.ChannelTake | src/core/ev.c:1085-1132 | over the circular buffers, the state and events are those of a take |
| EventLoop.EventLoop.WakePending | src/core/ev.c:1362-1384 | empties a buffer of waiting fibers and wakes exactly those whose entries are fresh, in order |
| EventLoop.EventLoop.ChannelClose | src/core/ev.c:1352-1410 | writers first, then readers, are woken and both buffers emptied |
| EventLoop.EventLoop.ExpireTimers | src/core/ev.c:1506-1527 | all due timeouts take effect, earliest first, and no other is removed from the heap |
| EventLoop.EventLoop.RunNext | src/core/ev.c:1530-1540 | the head of the circular task queue is resumed, refused or dropped as the state machine says |
| LoopRuns.ExpireRuns | src/core/ev.c:1506-1527 | expiring the due timeouts after taking them out together is a run of one expiry after the other |
| LoopRuns.Perform | src/core/ev.c:515-529 | any one step over the circular buffers and the heap is the step of the state machine, for any number of channels that share nothing |
| LoopRuns.Drive | src/core/ev.c:1500-1540 | a fresh loop driven by any list of inputs stops at the first that is not possible and is then, unless the task queue was full, in the state and has shown the events of a run of the state machine that these inputs spell |
| FiberStack.ChainFrame | src/core/fiber.c:192-251 | frames depend only on the cells below the next header |
| FiberStack.EntriesAgree | src/core/fiber.c:332-396 | tail calls and normal calls give the parameters the same values; all slots agree if and only if no argument collected in the rest parameter is left behind it |
| FiberStack.Detach | src/core/fiber.c:255-283 | a detached environment keeps the value of every slot that a closure can refer to |
| FiberStack.EnvRegion | src/core/fiber.c:255-283 | the frame of an environment lies within the chain, apart from all frames above it |
| FiberStack.FrameAdded | src/core/fiber.c:219-227 | a new frame on top leaves all frames and environments below as they were |
| FiberStack.Fiber.SetCapacity | src/core/fiber.c:117-127 | growing the stack changes nothing on it |
| FiberStack.Fiber.Push | src/core/fiber.c:136-142 | appends one argument or overflows |
| FiberStack.Fiber.Push2 | src/core/fiber.c:145-154 | appends two arguments or overflows |
| FiberStack.Fiber.Push3 | src/core/fiber.c:157-167 | appends three arguments or overflows |
| FiberStack.Fiber.PushN | src/core/fiber.c:170-178 | appends any number of arguments or overflows |
| FiberStack.EnteredReceives | src/core/fiber.c:229-246 | no argument of a call is lost or moved: the parameters and what the rest parameter collects are the arguments in order, but for an odd last one of a struct, and what is missing is nil |
| FiberStack.TailEnteredReceives | src/core/fiber.c:360-384 | the same for a tail call, which clears what is behind the rest parameter |
| FiberStack.Fiber.FuncFrame | src/core/fiber.c:192-251 | a wrong number of arguments changes nothing; otherwise the frame is pushed, its slots receive all arguments, and no other frame or environment changes |
| FiberStack.Fiber.CFrame | src/core/fiber.c:399-425 | an activation with just the arguments goes on top |
| FiberStack.Fiber.DetachTop | src/core/fiber.c:255-283 | the environment of the top frame gets its own values, for all closures that share it |
| FiberStack.Fiber.DetachedValues | src/core/fiber.c:269-279 | slots that no closure refers to are cleared, all others kept |
| FiberStack.Fiber.FuncFrameTail | src/core/fiber.c:332-396 | the same in place of the top frame, whose environment keeps its captured slots |
| FiberStack.Fiber.PopFrame | src/core/fiber.c:428-439 | the activation below is on top again exactly as it was, and the environment of the popped one is detached |
| FiberStack.Fiber.Capture | src/core/vm.c:993-1003 | the running function gets an environment that is its frame, once |
| FiberStack.Fiber.SetSlot | src/core/fiber.c:255-283 | a write to a slot is seen through the environment of the frame and through no other |
| VarOps.ReadEncoded | src/core/corelib.c:864-868 | the macros produce words that the interpreter reads as meant |
| VarOps.VarOpLoop | src/core/corelib.c:910-918 | the main loop folds the rest of the arguments from the left |
| VarOps.VarOpComputes | src/core/corelib.c:887-919 | for any number of arguments the hand-assembled code returns the left fold, the nullary constant, or the operator applied to the unary constant |
| Comparators.ComparatorLoop | src/core/corelib.c:958-973 | the main loop compares neighbours and leaves at the first that fails |
| Comparators.ComparatorComputes | src/core/corelib.c:949-974 | for any number of arguments the hand-assembled code returns whether all neighbours stand in the relation, or the opposite |
| InlineOps.OpReduce | src/core/cfuns.c:114-152 | emits the specified straight line of operations |
| InlineOps.ReducedFolds | src/core/cfuns.c:138-151 | the straight line computes the left fold if no later operand lives in the target |
| InlineOps.ReducedExactly | src/core/cfuns.c:138-151 | it does so for every operator and all values if and only if no operand after the second lives in the target |
| InlineOps.InlineAgrees | src/core/cfuns.c:114-152 | inline operators and the bytecode loop return the same value if no later operand lives in the target; a unary minus must be of a number, and multiplying by minus one must be subtracting from zero |
| InlineOps.NegatedExactly | src/core/cfuns.c:125-131 | the inline unary minus, which multiplies where the loop subtracts, is right in every world where the two agree on numbers if and only if its operand is a number |
| InlineComparisons.CompReduce | src/core/cfuns.c:316-352 | emits comparisons with the loads and moves that their slots need and branches between them, and patches the distance to the end into the signed half word of every branch |
| InlineComparisons.ComparisonDoes | src/core/emit.c:341-353 | a comparison of any two slots puts its result in the target, near or far, and changes no other slot |
| InlineComparisons.ControlEnds | src/core/cfuns.c:346-349 | instruction by instruction, control gets to the end of the chain unless a branch is taken that does not fit its half word, which leads at least 0x10000 instructions before the end, outside of any shorter chain |
| InlineComparisons.ChainLength | src/core/emit.c:341-353 | the chain is as long as the loads, moves, operations and branches counted slot by slot |
| InlineComparisons.FarByWidth | src/core/cfuns.c:346-349 | the distance of the first branch lies between the least and the greatest width of a comparison and its branch times their number |
| InlineComparisons.FarLength | src/core/cfuns.c:346-349 | the first branch never fits from 16386 arguments on and always fits up to 3278; near registers have the first limit exactly, reference cells and a far target the second |
| InlineComparisons.LoadsTooFar | src/core/cfuns.c:346-349 | 12000 arguments of which every second one has to be loaded: the first branch spans 35994 instructions and its field is negative |
| InlineComparisons.CompareExactly | src/core/cfuns.c:316-352 | inline comparators get to their end with what the comparator means, for every relation and all values, if and only if no operand read after the first comparison lives in the target and the first branch fits |
| InlineComparisons.CompareAgrees | src/core/cfuns.c:316-352 | under that condition inline comparators and the bytecode loop return the same value, equality and inequality included |
| InlineEquality.EqualityExactly | src/core/cfuns.c:316-352 | inline equality and inequality tests get to their end with the right answer for all values if and only if every branch that can be taken fits and the target does no harm among the operands: it is not among those after the first, or is all of them, or constants rule out every store that shows a difference |
| Encoding.NumberOf | src/core/asm.c:822-831 | every opcode has one number, which is looked up as that opcode |
| Encoding.DecodeABC | src/core/asm.c:433-449 | three bytes put above the opcode are read back |
| Encoding.DecodeAE | src/core/asm.c:397-431 | a byte and a signed or unsigned half word put above the opcode are read back |
| Encoding.DecodeD | src/core/asm.c:385-396 | a signed or unsigned value of three bytes put above the opcode is read back |
| Asm.DisassembleAssemble | src/core/asm.c:862-920 | disassembling an assembled word gives the opcode and arguments back |
| Asm.AssembleDisassemble | src/core/asm.c:373-475 | reassembling a disassembled word gives it back if and only if it has no breakpoint bit, nothing outside its arguments, a two-byte slot and an environment that exists |
| Assembler.LabelNames | src/core/asm.c:655-667 | a label stands for the instruction after its last occurrence |
| Assembler.WordAt | src/core/asm.c:674-702 | the word of every instruction line stands at its instruction number |
| Assembler.JumpsToLabel | src/core/asm.c:295-302 | a jump to a label decodes to the instruction that the label names, forwards or backwards |
| Assembler.Assembler.DoArg | src/core/asm.c:351-370 | an argument is accepted if and only if it stands for a number that fits its field, and a slot is counted |
| Assembler.Assembler.ReadInstruction | src/core/asm.c:373-475 | the word of one instruction, or an error for a wrong number of arguments, a bad argument or a missing environment |
| Assembler.Assembler.FindLabels | src/core/asm.c:655-667 | the first pass finds all labels and the length |
| Assembler.Assembler.AssembleBody | src/core/asm.c:652-705 | both passes give the words of the body and their number, fail exactly when a line cannot be assembled, and count every slot used |
| Assembler.BodyPasses | src/core/asm.c:652-705 | no instruction of an assembled body is refused by the verifier for its opcode or for a slot |
| Assembler.BodyBack | src/core/asm.c:652-705 | assembling the lines of a disassembled body gives the body back if and only if every word is canonical |

## Left out

- Bytecode semantics: arithmetic, calls, table access and closures made by one activation are answers of an arbitrary environment to the history of events; the auto-suspend interrupt, the breakpoint bit during execution and 32-bit overflow of the program counter for code longer than 2^31 words are not modelled. Closures over an activation see exactly the slots of its closure bitset.
- Optimizer.Optimize: requires symbol map entries to end at most at the code length. The source accepts the largest 32-bit value there and then reads behind its rewrite map.
- Code against its comment: the dead write pass says that the instructions it deletes cannot raise, but index reads and upvalue loads can; the model follows the code, and the theorem carries the exact condition.
- Emitter.Emitter.EmitS: the operation is not performed in one family of cases, which the contract names; janetc_emit_si and its relatives, which are emit1s with other immediates, are not modelled. Source mappings are not modelled.
- Marshalling: functions, fibers, user abstracts, pointers, C functions and the registry are left out, and so is the mode without cycles; numbers are 32-bit integers or opaque eight-byte reals, so that negative zero, which the source writes as the integer zero, and NaNs, all of which the reader turns into one canonical NaN, keep their bytes here, and values are equal when they look the same, which differs from the source for tuples and structs that hold a NaN; struct and table entries keep their slot order, since hashing is not modelled; the parts of a mutable object are filled in when all of them have been read; identities are numbered with at most 2^31 values.
- MarshRoundTrip.MarshalRoundTrip: is about graphs that can be written at all; deeper ones fail with the stack overflow that Marshaller.Writer.MarshalOne reports. MarshDepth.ShallowMarshals gives a bound that is enough and not the exact one, which depends on the order of the traversal.
- Garbage collector: finalizers, scratch memory, the allocation counter and janet_gcunrootall are left out; mark callbacks of abstract types are lists of values; the environment of a finished fiber is detached before marking.
- Threaded abstracts: addresses are not reused, reference counts do not overflow, and the entries of a message are sent and received one at a time; a message for a thread that is gone stays undelivered.
- Scheduler: polling, streams, signals, threaded channels, supervisor channels, select and the self-pipe are left out; other code that schedules a fiber is an arbitrary step. Generation numbers do not wrap around and fibers are not reset. The state machine has no largest task queue; the loop has, and aborts there.
- SchedulerRuns.ChannelsInOrder: a value counts as handed out when it leaves the channel; Deliveries.HandedFate and Deliveries.LostExactly say what becomes of it.
- Timer heap: pop_timeout is modelled for the root, which is the only index it is called with.
- Fiber stack: a rest parameter that is a struct holds its pairs as they came, with equal and nil keys not merged; environments with negative offsets, which come from unmarshalling, writes through upvalues, and overflow of 32-bit stack sizes other than in the pushes are left out.
- Scopes: symbol lifetimes for debugging, lints and macro bindings are left out; a global is an argument of Resolve; leaving a scope while keeping a result slot is not modelled.
- Compiler.Compiler.FreeSlot: requires that the register is held and that no named or captured variable lives in it when the slot has no named flag, which is how the callers in the source make and free slots.
- Inline operators: temporaries are apart from all slots, which is what the register allocator promises; equality is that of the values as they look, so a register with a NaN, which is not equal to itself, is not covered; the immediate forms are assumed to agree with the binary ones. For the comparisons a taken branch that does not go to the end counts as a failure, even where a chain of 0x10000 instructions or more is entered again. The apply function is left out.
- DeletedReads.DeletionNoticed: asks that the run has not made the same read before, without which no world can tell; DeletionObserved asks in addition that nothing left in the code can raise, since a later read may raise in the same way.
- Compiler.Compiler.Temp: requires a tag that is not in use, where the source exits the program.
- Assembler: symbolic slot, environment, constant and definition names, type keywords, nested definitions and the slot counts of enclosing functions are left out.
- Parsing, the PEG engine, numbers and strings, modules, the FFI, processes, files and networking are not part of this model.
