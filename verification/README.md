# Verified models of axon and its Lua core

axon is a server engine with an embedded Lua 5.1.5.  This project models the
parts of both whose correctness is hardest to see from the code, and proves what
they promise:

- **Garbage collector** (`Gc*.dfy`): the incremental tri-colour mark and sweep
  collector as a step system that interleaves with the program through write
  barriers, string interning and upvalue lookup.  `GcState` has one function per
  procedure of `lgc.c`; `GcInv` the invariant; `GcSafety`, `GcReclaim` and
  `GcFull` the theorems over whole runs; `GcMachine` a class whose methods have
  the loops of the source and are proved equal to those functions; `GcMarkBits`
  the mark byte; `GcMeaning` what each operation does to the references between
  objects.
- **Code generator** (`Code*.dfy`): the code for constants, locals, `not`, `and`,
  `or` and comparisons, with jump lists threaded through the instructions, against
  the interpreter.  `CodeVm` is the interpreter and the meaning of expressions,
  `CodeGen` the class `FuncState` with the operations of `lcode.c`; the modules
  between say where the runs of half-finished code go and how each operation
  changes that.  `CodeLaws` says what the operators mean in plain
  terms, and `CodeMachine` has the interpreter's loop and runs what was compiled.
  `CodeWord` is the layout of the instruction words.
- **Tables** (`Table*.dfy`): array part and chained scatter table against a finite
  map; growth; length; traversal.
- **Timers** (`Timer*.dfy`, `MemPool.dfy`): the three timing wheels against a set of
  due ticks; the node pool.
- **Patterns** (`Pattern*.dfy`): the backtracking matcher with its capture array,
  against all matches in order of preference and a declarative meaning;
  `PatternMeaning` says what each special byte of a pattern means.
- **Upvalues**, **table.sort**, **`%q` and the lexer**, **dump and undump**, the
  **byte buffer and frames** and the **hash map** (`Upvalues`, `Sort`, `Quoting`,
  `Spelling`, `Dump*`, `Buffer`, `Pipe`, `HashMap*`).

Conventions.  Classes mirror the source's structures, and `Valid` (or `Inv`) is
what holds between calls.  Numbers are unbounded; where the source's width
matters it is written out.  An object, node or entry is a number, and its fields
are maps; `NULL` is -1.  What a callback, a reader, a writer, a hash function or
an order function does is an arbitrary function parameter.  Errors that the
source raises are results (`Raised`, `Error`, `Outcome`).

Notes on the code.

- Collector: an object that only C locals hold is `pinned`; collector steps need
  that there is none.  Strings, threads and open upvalues are never black;
  userdata and closed upvalues become black when they are marked.
- Timers: `slot_now_` is taken to start at zero.  When wheel 1 turns over, the
  first carry looks at its cell 1024 before the hand is reset, which is past the
  source's array.  `TimerSlots.PastTheEnd` proves that this happens exactly when the
  new tick is a multiple of 1024^2; the model gives each wheel one cell more, and
  proves it always empty.  Ticks stay below 1024^3, as the header demands.
- A timer callback that deletes a timer due at the same tick frees an entry that
  `process_tick` still walks over and frees again.  `TimerSpec.SparedExactly` proves
  that all entries are still there to be freed exactly if no callback does this, and
  `TimerSpec.DeletedTooEarly` is the case of two timers.
- `buffer_t::pop` returns the old length when everything leaves, although its
  comment says the length afterwards; the model follows the code.
- `buffer_t::prepare` adds positions in 32 bits.  `ByteBuffer.NoWrap` is the exact
  condition under which they do not wrap around; a queue that stays below 2 GB meets
  it (`ByteBuffer.ModestFits`), and beyond that it depends on where the queue lies in
  its block (`ByteBuffer.WrapAround`).
- `UNPACK_HEADER` reads through plain `char`, and the receiving loop wants more than
  a header.  `ThreadPipe.ParseExact` proves for which transmissions all frames
  arrive: every protocol number and every length has a low byte below 128 or a high
  byte of 255, and the last frame has a payload.  `ThreadPipe.Losses` shows one frame
  of each kind that does not.
- `%q`: the round trip fails for strings with so many newlines that the line
  counter overflows; `Quoting.QuoteBack` says exactly when, and
  `Quoting.NewlineTooMany` is the smallest such string.
- Tables: the array part has at most 2^26 slots, the largest size a rehash chooses.
- `hmap_t::rehash` puts the entries of a bucket in the reverse order of the list of
  all entries, so of several entries with one key a lookup may find another one
  afterwards.  `HashMapT.HashMap.FindAcrossRehash` says exactly when it does not, and
  `HashMapT.LookupChanges` is a map of two entries for which it does.

## Model

| member | source | states |
|---|---|---|
| `GcHeap.ReallyMarkSpec` | depends/lua/src/lgc.c:69-112 | marking a white object marks it and everything marked on the way is either on the gray list or has all its references marked; nothing else changes |
| `GcHeap.MarkAllSpec` | depends/lua/src/lgc.c:158-236 | the same for the list of references that a traversal visits |
| `GcHeap.MarkAllStaysIn` | depends/lua/src/lgc.c:69-112 | marking from references inside a closed set marks nothing outside it |
| `GcHeap.FollowsAll` | depends/lua/src/lgc.c:158-274 | the references followed from an object are exactly those of its fields: entries, metatable, environment, constants, upvalues, stack, or the value of an upvalue |
| `GcState.PropagateMarkShrinks` | depends/lua/src/lgc.c:277-327 | each turn of propagateall lowers a measure, so it terminates |
| `GcState.CloseOneShrinks` | depends/lua/src/lfunc.c:96-112 | each turn of luaF_close removes an open upvalue |
| `GcCollector.PropagateMarkTriColor` | depends/lua/src/lgc.c:277-320 | propagatemark keeps the tri-colour invariant: no black object refers to a white one |
| `GcCollector.PropagateAllSpec` | depends/lua/src/lgc.c:323-327 | after propagateall the gray list is empty and the invariant holds |
| `GcCollector.RemarkCovers` | depends/lua/src/lgc.c:515-522 | after remarking, the values of all open upvalues of marked threads are covered |
| `GcCollector.AtomicMarkSpec` | depends/lua/src/lgc.c:525-543 | after the marking of the atomic step every marked object has all its references marked, and all roots are marked |
| `GcCollector.FlipLive` | depends/lua/src/lgc.c:544-552 | after the flip of the current white no object that is not dead refers to a dead one |
| `GcCollector.AtomicKeeps` | depends/lua/src/lgc.c:525-553 | the atomic step keeps the invariant and enters the string sweep |
| `GcClose.CloseFromKeeps` | depends/lua/src/lfunc.c:96-112 | luaF_close keeps the invariant in every phase of the collector, freeing only dead upvalues |
| `GcSweep.SweepLeavesSpec` | depends/lua/src/lgc.c:407-428 | sweeping a chain removes exactly the dead, unfixed objects, whitens the others and keeps their order |
| `GcSweep.FreeRootKeeps` | depends/lua/src/lgc.c:378-400 | freeing an object of the root list, with the upvalues of a thread, keeps the invariant |
| `GcCycle.SweepListKeeps` | depends/lua/src/lgc.c:407-428 | a bounded sweep of the root list keeps the invariant and frees only dead, unfixed objects |
| `GcCycle.SweptAll` | depends/lua/src/lgc.c:581-595 | when the sweep has passed the whole list no dead object is left |
| `GcCycle.RehashSpec` | depends/lua/src/lstring.c:32-43 | the loops of luaS_resize move every string exactly once, to the bucket of its hash |
| `GcCycle.ResizeStrOk` | depends/lua/src/lstring.c:22-47 | luaS_resize keeps one object per content and every string in its bucket |
| `GcCycle.SingleStepKeeps` | depends/lua/src/lgc.c:556-607 | every collector step, in every phase, keeps the invariant, the roots and all references, and frees only dead, unfixed objects |
| `GcMutator.NewObjKeeps` | depends/lua/src/lgc.c:685-691 | allocation keeps the invariant in every phase |
| `GcMutator.InternKeeps` | depends/lua/src/lstring.c:50-93 | looking a string up, with the revival of a dead one, or creating it keeps the invariant |
| `GcMutator.FindUpvalKeeps` | depends/lua/src/lfunc.c:53-79 | finding or creating an upvalue, with the revival of a dead one, keeps the invariant |
| `GcMutator.StoreKeeps` | depends/lua/src/lgc.h:86-97 | a store into an object followed by its barrier macro keeps the invariant |
| `GcMutator.BarrierKeeps` | depends/lua/src/lgc.c:661-682 | the forward barrier marks the value while marking and whitens the parent while sweeping; the invariant holds again |
| `GcMutator.SetStackKeeps` | depends/lua/src/lgc.c:256-273 | changing a stack needs no barrier: threads are never black |
| `GcMutator.SetOpenUpvalKeeps` | depends/lua/src/lvm.c:451-456 | nor does a write through an open upvalue |
| `GcMutator.SetClosedUpvalKeeps` | depends/lua/src/lvm.c:451-456 | a write through a closed upvalue with its barrier keeps the invariant |
| `GcSafety.ApplyKeeps` | depends/lua/src/lgc.c:556-710 | every operation of the program or the collector keeps the invariant |
| `GcSafety.Safety` | depends/lua/src/lgc.c:556-710 | over every interleaving of program and collector steps, no object reachable from the roots is ever freed |
| `GcSafety.InternedForever` | depends/lua/src/lstring.c:75-93 | after every run two strings have equal content exactly if they are the same object |
| `GcSafety.InitialOk` | depends/lua/src/lstate.c:70-81 | a new state, with any list of names made and fixed, satisfies the invariant, and every one of the names is fixed |
| `GcMeaning.RootsAre` | depends/lua/src/lgc.c:500-512 | the roots are the main thread, the registry, the running thread, the metatables of the basic types and what C code holds |
| `GcMeaning.StoreMeans` | depends/lua/src/lgc.h:86-97 | after a store the object refers to exactly the new references, and every other object to what it did before |
| `GcMeaning.SetStackMeans` | depends/lua/src/lgc.c:256-273 | the same for globals and stack of a thread; its open upvalues refer to what their slots hold now |
| `GcMeaning.SetUpvalMeans` | depends/lua/src/lvm.c:451-456 | an upvalue refers to the value assigned through it, and when open so does its stack slot; nothing else changes |
| `GcMeaning.NewObjMeans` | depends/lua/src/lgc.c:685-691 | a new object has the body asked for and no other object changes |
| `GcMeaning.CloseMeans` | depends/lua/src/lfunc.c:96-112 | closing upvalues changes what no remaining object refers to |
| `GcReclaim.StepDoomed` | depends/lua/src/lgc.c:556-607 | a set of garbage objects stays garbage, and in the colour that dooms it, over every step that does not look one of them up |
| `GcFull.Reclaims` | depends/lua/src/lgc.c:501-607 | an object unreachable when a cycle marks its roots, and not revived by interning or upvalue lookup, is freed before the cycle reaches finalize |
| `GcFull.FirstSweepFreesNothing` | depends/lua/src/lgc.c:635-650 | the first sweep of luaC_fullgc from pause or propagate frees nothing |
| `GcFull.FullGcExact` | depends/lua/src/lgc.c:635-658 | luaC_fullgc keeps exactly the reachable and the fixed objects, whatever phase it starts in |
| `GcFull.SweepProgress` | depends/lua/src/lgc.c:581-595 | each sweep step frees something or moves on, so the sweep ends |
| `GcMachine.GlobalState.ReallyMark` | depends/lua/src/lgc.c:69-112 | the method changes the heap and the gray list as the marking function says |
| `GcMachine.GlobalState.PropagateMark` | depends/lua/src/lgc.c:277-320 | the method equals the function it is specified by |
| `GcMachine.GlobalState.PropagateAll` | depends/lua/src/lgc.c:323-327 | the loop ends with the result of the function |
| `GcMachine.GlobalState.RemarkUpvals` | depends/lua/src/lgc.c:515-522 | the loop over the open upvalues equals the function |
| `GcMachine.GlobalState.MarkRoot` | depends/lua/src/lgc.c:501-512 | the roots are marked and the phase is propagate |
| `GcMachine.GlobalState.Atomic` | depends/lua/src/lgc.c:525-553 | the method equals the function |
| `GcMachine.GlobalState.SweepLeaves` | depends/lua/src/lgc.c:407-428 | the loop over a chain equals the function |
| `GcMachine.GlobalState.SweepList` | depends/lua/src/lgc.c:407-428 | the bounded loop over the root list equals the function |
| `GcMachine.GlobalState.BarrierF` | depends/lua/src/lgc.c:661-671 | the method equals the function |
| `GcMachine.GlobalState.BarrierBack` | depends/lua/src/lgc.c:673-682 | for a black table that got a white value: the backward barrier of the step system |
| `GcMachine.GlobalState.Store` | depends/lua/src/lgc.h:86-97 | the store and its barrier are one step of the step system, the collector's invariant holds again, and the references are the new ones of this object and the old ones of all others |
| `GcMachine.GlobalState.LinkUpval` | depends/lua/src/lgc.c:694-710 | the method equals the function |
| `GcMachine.GlobalState.Close` | depends/lua/src/lfunc.c:96-112 | the loop equals the function |
| `GcMachine.GlobalState.ResizeStrings` | depends/lua/src/lstring.c:22-47 | the two loops equal the function |
| `GcMachine.GlobalState.NewString` | depends/lua/src/lstring.c:50-93 | the method equals the function |
| `GcMachine.GlobalState.FindUpval` | depends/lua/src/lfunc.c:53-79 | the method equals the function |
| `GcMachine.GlobalState.SingleStep` | depends/lua/src/lgc.c:556-607 | the method equals the function |
| `GcMachine.GlobalState.FullGc` | depends/lua/src/lgc.c:635-658 | the method equals the function |
| `GcMarkBits.Tests` | depends/lua/src/lgc.h:65-67 | iswhite and isblack tell the colours apart on the mark byte |
| `GcMarkBits.IsDeadBits` | depends/lua/src/lgc.h:69-70 | isdead on the bits: the object has the other shade of white |
| `GcMarkBits.SweepTest` | depends/lua/src/lgc.c:410-416 | the test of sweeplist keeps an object unless it is dead and not fixed |
| `GcMarkBits.Changes` | depends/lua/src/lgc.c:32-40 | the colour macros change the colour and no other bit |
| `GcMarkBits.Flip` | depends/lua/src/lgc.c:544-548 | the other white becomes the current one, keeping the fixed bit |
| `CodeRun.RunRelinked` | depends/lua/src/lvm.c:407-426 | patched code runs as the old code did, and where the old code left by a jump that has a target now, it goes on from there |
| `CodeLists.ListUnique` | depends/lua/src/lcode.c:100-106 | a jump list threaded through the code is the only one with its head: it ends and has no cycle |
| `CodeLists.ListConcat` | depends/lua/src/lcode.c:185-196 | changing the last jump of one list to point to another gives the first list followed by the second |
| `CodeLists.ListRetarget` | depends/lua/src/lcode.c:150-160 | patching one list leaves every list disjoint from it intact |
| `CodeFlow.RunExit` | depends/lua/src/lvm.c:509-585 | a run leaves only by an open jump inside the code, and through a test only if there is one |
| `CodeFlow.RunEmitted` | depends/lua/src/lcode.c:789-801 | emitting resolves the pending jumps: whoever arrived goes on with the new instruction, everyone else is where he was |
| `CodeFlow.RetargetKeeps` | depends/lua/src/lcode.c:150-160 | patching leaves all other jumps, and the tests in front of them, alone |
| `CodeStore.MergeNils` | depends/lua/src/lcode.c:35-56 | stretching the LOADNIL in front clears the further registers on every run that passes |
| `CodeStore.EmitTest` | depends/lua/src/lcode.c:74-77 | a test with its jump keeps the invariant and every run up to it |
| `CodeClose.CloseLists` | depends/lua/src/lcode.c:394-407 | after the lists of an expression are closed, all runs arrive with its value in the register, by the TESTSET or by the right LOADBOOL, and all other jumps are untouched |
| `CodeSteps.DeliverJump` | depends/lua/src/lcode.c:390-411 | the value of a comparison reaches the register as a boolean on both ways |
| `CodeExpr.Branch` | depends/lua/src/lcode.c:539-583 | after goiftrue and goiffalse control arrives exactly if the value has the wanted truth, and otherwise leaves by the other list with the value |
| `CodeExpr.TestNot` | depends/lua/src/lcode.c:524-531 | dropping the NOT and testing for the opposite does not change where runs go |
| `CodeTheorem.ComputeLogical` | depends/lua/src/lcode.c:737-752 | code for the left operand, the branch and the right operand, with the lists joined, computes `and` and `or` |
| `CodeTheorem.ComputeCompare` | depends/lua/src/lcode.c:673-686 | the comparison of two fetched operands computes the relation, with greater turned into less |
| `CodeTheorem.ComputeNot` | depends/lua/src/lcode.c:586-618 | exchanging the lists and dropping their values computes the negation |
| `CodeGen.FuncState.FixJump` | depends/lua/src/lcode.c:80-87 | one jump changes, or the error is raised, exactly if the target is too far away |
| `CodeGen.FuncState.Concat` | depends/lua/src/lcode.c:185-196 | one jump changes and the result heads the first list followed by the second |
| `CodeGen.FuncState.PatchTestReg` | depends/lua/src/lcode.c:131-141 | the TESTSET gets its register or becomes a TEST; nothing else changes |
| `CodeGen.FuncState.PatchListAux` | depends/lua/src/lcode.c:150-160 | every jump of the list goes to its value or default target and no other instruction changes |
| `CodeGen.FuncState.NeedValue` | depends/lua/src/lcode.c:122-128 | true exactly if some jump of the list brings no value |
| `CodeGen.FuncState.RemoveValues` | depends/lua/src/lcode.c:144-147 | exactly the TESTSETs of the list become TESTs |
| `CodeGen.FuncState.Code` | depends/lua/src/lcode.c:789-801 | pending jumps are resolved before the instruction is appended |
| `CodeGen.FuncState.Jump_` | depends/lua/src/lcode.c:59-66 | the new jump heads a list with the pending ones, which stay open |
| `CodeGen.FuncState.CondJump` | depends/lua/src/lcode.c:74-77 | the test and its open jump are appended |
| `CodeGen.FuncState.PatchToHere` | depends/lua/src/lcode.c:179-182 | the list joins the pending jumps and the place becomes a jump target |
| `CodeGen.FuncState.ReserveRegs` | depends/lua/src/lcode.c:199-212 | registers are taken within the frame, or the error is raised, exactly if there are too many |
| `CodeGen.FuncState.AddK` | depends/lua/src/lcode.c:229-247 | the constant is at the index returned, and equal constants share an entry; the error is raised exactly for a new constant in a full table |
| `CodeGen.FuncState.Nil_` | depends/lua/src/lcode.c:35-56 | the registers are nil on every run that arrives, by a LOADNIL only where one is needed |
| `CodeGen.FuncState.Discharge2Reg` | depends/lua/src/lcode.c:343-379 | on every run that arrives the value is in the register and nothing else changed |
| `CodeGen.FuncState.Exp2Reg` | depends/lua/src/lcode.c:390-411 | by whichever way control reaches the value, it ends up in the register, and no other register changes |
| `CodeGen.FuncState.Exp2NextReg` | depends/lua/src/lcode.c:414-419 | the same for the next free register |
| `CodeGen.FuncState.Exp2AnyReg` | depends/lua/src/lcode.c:422-433 | the value is in the register returned, with all registers in use kept; no code for a value already there |
| `CodeGen.FuncState.Exp2RK` | depends/lua/src/lcode.c:436-469 | the operand returned holds the value; a repeated call changes nothing |
| `CodeGen.FuncState.JumpOnCond` | depends/lua/src/lcode.c:524-536 | the jump is taken exactly if the value has the wanted truth, and brings the value |
| `CodeGen.FuncState.GoIfTrue` | depends/lua/src/lcode.c:539-560 | control goes on exactly if the value is true, and leaves by the false list with the value otherwise |
| `CodeGen.FuncState.GoIfFalse` | depends/lua/src/lcode.c:563-583 | the same with the senses exchanged |
| `CodeGen.FuncState.CodeNot` | depends/lua/src/lcode.c:586-618 | the descriptor stands for the negation |
| `CodeGen.FuncState.CodeComp` | depends/lua/src/lcode.c:673-686 | the descriptor stands for the comparison and all temporaries are free again |
| `CodeGen.FuncState.Compile` | depends/lua/src/lcode.c:689-781 | for every expression, every run of the code so far either computes its value, keeping all registers in use, or raises its error; runs that are elsewhere are not affected; code and constants grow by no more than the size of the expression, and with room for that there is no error of the generator |
| `CodeGen.FuncState.AssignLocal` | depends/lua/src/lcode.c:472-477 | running the emitted code leaves the expression's Lua value in the local variable and changes no other register in use; with room for the expression there is no error of the generator |
| `CodeGen.FuncState.NewLocal` | depends/lua/src/lcode.c:414-419 | the same for a new local variable in the next free register |
| `CodeGen.FuncState.constructor` | depends/lua/src/lparser.c:328-353 | a new function has no code, and its parameters are its local variables |
| `CodeLaws.NumbersCompare` | depends/lua/src/lcode.c:671-686 | for a comparison that is the usual one on numbers, the six operators on two numbers are the six relations |
| `CodeLaws.BasicCompare` | depends/lua/src/lvm.c:545-570 | equality, less and less-or-equal ask the comparison about the operands in this order |
| `CodeLaws.DerivedCompare` | depends/lua/src/lcode.c:679-682 | greater is less with the operands exchanged, greater-or-equal likewise, and unequal is the negation of equal |
| `CodeLaws.FailingOperand` | depends/lua/src/lvm.c:545-570 | an error in an operand is an error of the comparison |
| `CodeLaws.Leaves` | depends/lua/src/lparser.c:729-768 | constants, locals and parentheses |
| `CodeLaws.Logic` | depends/lua/src/lcode.c:567-665 | nil and false are false and everything else is true; not gives a boolean, and and or give one operand |
| `CodeMachine.Execute` | depends/lua/src/lvm.c:374-585 | the interpreter's loop computes the runs that the theorems speak of |
| `CodeMachine.CompileAndRun` | depends/lua/src/lcode.c:472-477 | an assignment compiled in a new function and executed leaves the value of the expression in the local and the other locals alone, or raises its error; a small expression compiles |
| `CodeMachine.CompareAndRun` | depends/lua/src/lcode.c:671-686 | a comparison of two numbers, compiled and executed, leaves their relation in the local |
| `CodeWord.OffsetBack` | depends/lua/src/lopcodes.h:96-101 | a jump offset written into an instruction is read back exactly if it lies between -131071 and 131072; opcode and A stay |
| `CodeWord.FieldsBack` | depends/lua/src/lopcodes.h:80-98 | each field is read back exactly if it fits, and the other fields stay |
| `CodeWord.WordIsFields` | depends/lua/src/lopcodes.h:37-48 | the fields make up the whole word, and B and C together are Bx |
| `CodeWord.Created` | depends/lua/src/lopcodes.h:104-111 | a new instruction has the fields it was made from exactly if all of them fit |
| `CodeWord.JumpBack` | depends/lua/src/lcode.c:80-106 | the target written by fixjump is what getjump reads, exactly if it is not the jump itself, which reads as the end of the list |
| `CodeWord.ConstantBack` | depends/lua/src/lopcodes.h:119-130 | the index of a constant operand comes back |
| `CodeWord.WordExample` | depends/lua/src/lopcodes.h:37-48 | the words of three example instructions |
| `TableHash.PutHereOk` | depends/lua/src/ltable.c:399-401 | a free main position takes the key: chains, main positions and distinct keys hold again |
| `TableHash.PutBehindOk` | depends/lua/src/ltable.c:418-423 | the free node behind the main position takes the key: the same |
| `TableHash.PutMovingOk` | depends/lua/src/ltable.c:410-417 | moving the colliding node and taking its place: every key is still on the chain from its main position |
| `TableSizes.ComputeSizes` | depends/lua/src/ltable.c:189-208 | the largest power of two, or zero, with more than half of its slots in use by the integer keys, and how many keys that puts there |
| `TableSizes.BestUnique` | depends/lua/src/ltable.c:189-208 | there is only one such size |
| `TableSizes.BestMeans` | depends/lua/src/ltable.c:189-207 | the integer keys fill more than half of that size, and at most half of every larger power of two |
| `TableSizes.LargestSize` | depends/lua/src/ltable.c:39-46 | the largest array part has 2^26 slots |
| `TableLook.Room` | depends/lua/src/ltable.c:382-388 | with fewer keys than nodes there is a free node |
| `LuaTable.Table.constructor` | depends/lua/src/ltable.c:358-371 | a new table is empty |
| `LuaTable.Table.FindNode` | depends/lua/src/ltable.c:481-489 | walking the chain from the main position finds the key if any node has it |
| `LuaTable.Table.Get` | depends/lua/src/ltable.c:435-491 | the value the table has for the key, in either part |
| `LuaTable.Table.GetFreePos` | depends/lua/src/ltable.c:382-388 | a free node, or there is none |
| `LuaTable.Table.PlaceKey` | depends/lua/src/ltable.c:399-429 | the key gets a node and every lookup gives the same as before; it fails only without a free node |
| `LuaTable.Table.NewKey` | depends/lua/src/ltable.c:399-429 | with room it never rehashes, without it rehashes once; then the key has a slot and every lookup is unchanged |
| `LuaTable.Table.SetSlot` | depends/lua/src/ltable.c:494-517 | the slot of the key, or the error for nil and NaN; every lookup is unchanged |
| `LuaTable.Table.Put` | depends/lua/src/ltable.c:494-505 | the map changes at the key and nowhere else |
| `LuaTable.Table.CountKeys` | depends/lua/src/ltable.c:222-260 | the counts per slice and in all are those of the keys with a value and the extra key |
| `LuaTable.Table.NumUseArray` | depends/lua/src/ltable.c:222-244 | the counts per slice are those of the array part |
| `LuaTable.Table.Rehash` | depends/lua/src/ltable.c:333-349 | the array part has the best size, every lookup is unchanged, and afterwards the extra key has a place; or overflow, exactly if the keys beyond the best array part are more than the largest hash part |
| `LuaTable.Table.Resize` | depends/lua/src/ltable.c:297-324 | new sizes and the same contents, or overflow exactly if too many nodes were asked for; reinsertion never needs another rehash |
| `LuaTable.Table.ResizeArray` | depends/lua/src/ltable.c:327-330 | a larger array part and the same contents, without failing |
| `LuaTable.Table.SetNodeVector` | depends/lua/src/ltable.c:272-294 | enough empty nodes, or overflow exactly if too many were asked for |
| `LuaTable.Table.FindIndex` | depends/lua/src/ltable.c:137-159 | the traversal index of the key, or the error exactly if the table does not have it |
| `LuaTable.Table.Next` | depends/lua/src/ltable.c:162-179 | the first index behind the key's with a value |
| `LuaTable.Table.Traverse` | depends/lua/src/ltable.c:162-179 | following next from nil visits every key with a value exactly once |
| `LuaTable.Table.GetN` | depends/lua/src/ltable.c:560-576 | an index with a value whose successor has none |
| `LuaTable.Table.UnboundSearch` | depends/lua/src/ltable.c:532-553 | the same beyond the array part |
| `LuaTable.Table.Replay` | depends/lua/src/ltable.c:494-505 | after any sequence of assignments, to nil too, and enlargements the table is the finite map they describe, unless that map had 2^26 keys on the way and the table overflowed |
| `TimerSlots.DigitsNext` | src/core/ax_timer.cc:149-157 | carrying the hands counts ticks |
| `TimerSlots.SlotStays` | src/core/ax_timer.cc:50-63 | when the tick moves on, only the timers of the cascaded slot change theirs |
| `TimerSlots.CurrentSlot` | src/core/ax_timer.cc:173-174 | a waiting timer is in the current slot exactly if it is due now |
| `TimerSlots.PastTheEnd` | src/core/ax_timer.cc:152-159 | a carry looks past the last slot exactly if the new tick is a multiple of 1024^2, and then at cell 1024 of wheel 1 |
| `TimerSlots.PastTheEndFirst` | src/core/ax_timer.cc:152-159 | the cells looked at when tick 1048575 is over |
| `TimerSpec.DueTickIs` | src/core/ax_timer.cc:78-83 | the due tick is now plus the timeout in ticks, at least one |
| `TimerSpec.AddMeans` | src/core/ax_timer.cc:65-91 | a new timer has a handle of its own and waits for now plus its timeout in ticks, at least one; nothing else changes |
| `TimerSpec.DeleteMeans` | src/core/ax_timer.cc:93-124 | a deleted timer waits no longer; nothing else changes |
| `TimerSpec.DeletedNeverFires` | src/core/ax_timer.cc:93-192 | a deleted timer has not fired and does not fire in any number of ticks |
| `TimerSpec.FiresExactlyOnce` | src/core/ax_timer.cc:65-192 | in every orderly history a timer that was not deleted has fired exactly once, at its due tick, if that has come, and not at all otherwise |
| `TimerSpec.FiresOnTime` | src/core/ax_timer.cc:126-192 | over any number of ticks whose callbacks stay within the rules, a timer known before them and not deleted since has fired at its due tick exactly if that has come |
| `TimerSpec.TicksGrow` | src/core/ax_timer.cc:126-139 | ticks never take back a due tick, a deletion or a firing, and delete nothing unless a callback does |
| `TimerSpec.AddsOnlyOk` | src/core/ax_timer.cc:177-181 | callbacks that only add timers, with timeouts in range, meet the conditions of any number of ticks |
| `TimerSpec.AddOrderly` | src/core/ax_timer.cc:65-91 | adding keeps histories orderly |
| `TimerSpec.DeleteOrderly` | src/core/ax_timer.cc:93-124 | so does deleting |
| `TimerSpec.TickOrderly` | src/core/ax_timer.cc:141-192 | so does a tick whose callbacks add timers and delete timers that are not due at it |
| `TimerSpec.TicksOrderly` | src/core/ax_timer.cc:126-139 | so do many ticks |
| `TimerSpec.SparedExactly` | src/core/ax_timer.cc:177-190 | every entry of the slot is still there to be freed after the callbacks exactly if none of them deleted one |
| `TimerSpec.DeletedTooEarly` | src/core/ax_timer.cc:177-190 | two timers due together, the first of which deletes the second: its entry is gone too early |
| `EventTimer.EvTimer.constructor` | src/core/ax_timer.cc:12-27 | a new timer has no entries |
| `EventTimer.EvTimer.WhichSlot` | src/core/ax_timer.cc:50-63 | the two loops find the wheel and slot of a tick |
| `EventTimer.EvTimer.AddTimer` | src/core/ax_timer.cc:65-91 | the timer is added with its due tick; wheels, handle map and pool still describe the same set |
| `EventTimer.EvTimer.DelTimer` | src/core/ax_timer.cc:93-124 | 0 exactly for a waiting timer, which is removed and no other |
| `EventTimer.EvTimer.Extract` | src/core/ax_timer.cc:93-124 | the same from within a callback; the timers due at this tick are not touched unless it is one of them |
| `EventTimer.EvTimer.Cascade` | src/core/ax_timer.cc:159-170 | the entries of the slot go to the slots the new hands give them |
| `EventTimer.EvTimer.Turn` | src/core/ax_timer.cc:149-171 | the hands show the new tick and every entry is in its slot; which cells the carries looked at |
| `EventTimer.EvTimer.RunSlot` | src/core/ax_timer.cc:173-181 | the callbacks of the current slot run once each; the timers they add and delete are those of other slots |
| `EventTimer.EvTimer.DropSlot` | src/core/ax_timer.cc:183-191 | the entries that fired are gone from map, pool and slot |
| `EventTimer.EvTimer.ProcessTick` | src/core/ax_timer.cc:141-192 | exactly the timers due at the new tick fire, each once, whatever their callbacks add or delete elsewhere |
| `EventTimer.EvTimer.TimerRoutine` | src/core/ax_timer.cc:126-139 | as many ticks as the clock advanced, or none after a block of more than a minute; at each of them exactly the timers due then fire |
| `MemoryPool.MemPool.constructor` | src/core/mem_pool.cc:15-35 | all nodes are on the free list |
| `MemoryPool.MemPool.Alloc` | src/core/mem_pool.cc:44-57 | a node nobody has |
| `MemoryPool.MemPool.Release` | src/core/mem_pool.cc:59-76 | the node can be handed out again |
| `PatternClass.FindClassEnd` | depends/lua/src/lstrlib.c:202-223 | the loop finds where a class ends or that it is malformed |
| `PatternClass.MatchBracketClass` | depends/lua/src/lstrlib.c:245-265 | the loop decides membership in the set, or in its complement |
| `PatternClass.SingleMatch` | depends/lua/src/lstrlib.c:268-275 | the class of a single character |
| `PatternMeaning.ClassLetters` | depends/lua/src/lstrlib.c:226-242 | the bytes of each class letter, and that its capital is the complement |
| `PatternMeaning.OtherLetters` | depends/lua/src/lstrlib.c:226-242 | any other escaped byte stands for itself |
| `PatternMeaning.SingleMeans` | depends/lua/src/lstrlib.c:268-275 | a dot, an escape and an ordinary byte: their length and what they match |
| `PatternMeaning.SetMeans` | depends/lua/src/lstrlib.c:245-265 | a set written from bytes, ranges and classes ends at its bracket and holds exactly what one of its members holds, or with a caret the complement |
| `PatternMeaning.RepeatMeans` | depends/lua/src/lstrlib.c:414-438 | behind a class, a star, plus, question mark or minus byte, or none of them: how many bytes are tried and in which order |
| `PatternMeaning.PlaceMeans` | depends/lua/src/lstrlib.c:365-413 | the end of the pattern, a final dollar, and brackets that open, mark and close captures |
| `PatternMeaning.BalanceMeans` | depends/lua/src/lstrlib.c:379-383 | %b goes on where the two brackets first balance, and only there |
| `PatternMeaning.FrontierMeans` | depends/lua/src/lstrlib.c:384-395 | %f goes on where the byte before is outside the set and this one inside |
| `PatternMeaning.BackMeans` | depends/lua/src/lstrlib.c:396-403 | %1 to %9 match the text of a finished capture once more, and anything else is an error |
| `PatternSpec.BalanceIs` | depends/lua/src/lstrlib.c:281-298 | %b ends at the first place where the brackets balance |
| `PatternSpec.MatchIsFirst` | depends/lua/src/lstrlib.c:301-440 | the search finds the first of all matches in order of preference: longest first for * and +, shortest first for - |
| `PatternSpec.EndingsAreMatches` | depends/lua/src/lstrlib.c:365-440 | that list has exactly the declarative matches |
| `PatternSpec.FoundIffMatches` | depends/lua/src/lstrlib.c:365-440 | a match is found exactly if some split of the subject gives every item its share |
| `PatternSpec.WellFormedRuns` | depends/lua/src/lstrlib.c:186-223 | a well-formed pattern raises no error on any subject |
| `PatternMatch.MatchState.CaptureToClose` | depends/lua/src/lstrlib.c:194-199 | the last unfinished capture |
| `PatternMatch.MatchState.CheckCapture` | depends/lua/src/lstrlib.c:186-191 | the finished capture a digit refers to, or the error |
| `PatternMatch.MatchState.Balance_` | depends/lua/src/lstrlib.c:281-298 | the loop equals the function |
| `PatternMatch.MatchState.MaxExpand` | depends/lua/src/lstrlib.c:301-313 | the search from the longest repetition down, captures restored between attempts |
| `PatternMatch.MatchState.MinExpand` | depends/lua/src/lstrlib.c:316-326 | the search from the shortest repetition up |
| `PatternMatch.MatchState.StartCapture` | depends/lua/src/lstrlib.c:329-340 | the rest matches with one capture more; on failure the captures are as before |
| `PatternMatch.MatchState.EndCapture` | depends/lua/src/lstrlib.c:343-351 | the same with the last open capture closed |
| `PatternMatch.MatchState.MatchCapture` | depends/lua/src/lstrlib.c:354-362 | whether the subject repeats the captured text |
| `PatternMatch.MatchState.Class` | depends/lua/src/lstrlib.c:414-437 | a class with its repetition leads where the search says |
| `PatternMatch.MatchState.DoMatch` | depends/lua/src/lstrlib.c:365-440 | outcome and captures are those of the search; on failure level and live captures are as on entry |
| `PatternMatch.Find` | depends/lua/src/lstrlib.c:512-532 | the leftmost start with a match, and there the best match |
| `Upvalues.Thread.Push` | depends/lua/src/lvm.c:723-742 | a new local variable has a location of its own |
| `Upvalues.Thread.GetUpval` | depends/lua/src/lvm.c:427-431 | the value of the one variable the upvalue stands for |
| `Upvalues.Thread.SetUpval` | depends/lua/src/lvm.c:451-456 | an assignment to that variable and no other, before and after closing |
| `Upvalues.Thread.GetLocal` | depends/lua/src/lvm.c:407-410 | reading a stack slot reads the variable that lives there |
| `Upvalues.Thread.SetLocal` | depends/lua/src/lvm.c:407-410 | an assignment through the stack is seen through every closure, and no other variable changes |
| `Upvalues.Thread.FindUpval` | depends/lua/src/lfunc.c:53-79 | closures capturing the same variable get the same upvalue; the list stays strictly ordered |
| `Upvalues.Thread.LeaveScope` | depends/lua/src/lfunc.c:96-112 | exactly the upvalues at or above the level are closed, and all still stand for their variables |
| `Upvalues.Sharing` | depends/lua/src/lfunc.c:53-112 | two closures over one local see each other's assignments, before and after its scope ends, and another local is not touched |
| `TableSort.ScanUp` | depends/lua/src/ltablib.c:225-229 | stops at an element not below the pivot, inside the range |
| `TableSort.ScanDown` | depends/lua/src/ltablib.c:230-234 | stops at an element not above the pivot, inside the range |
| `TableSort.Sort3Ok` | depends/lua/src/ltablib.c:196-216 | the three elements are in order and the range is rearranged |
| `TableSort.Exchange` | depends/lua/src/ltablib.c:223-240 | small elements in front, large ones behind, by rearranging |
| `TableSort.Partition` | depends/lua/src/ltablib.c:218-244 | the pivot ends between the smaller and the larger elements |
| `TableSort.AuxSort` | depends/lua/src/ltablib.c:193-254 | the range is a sorted permutation, nothing else changes, and the recursion is at most logarithmically deep |
| `TableSort.Sort` | depends/lua/src/ltablib.c:256-264 | for every strict weak order the array is a sorted permutation of what it was |
| `Quoting.AddQuoted` | depends/lua/src/lstrlib.c:696-723 | the loop appends the quoted form |
| `Quoting.LexState.IncLineNumber` | depends/lua/src/llex.c:129-137 | a pair of different newline bytes is one line |
| `Quoting.LexState.ReadDigits` | depends/lua/src/llex.c:306-312 | at most three digits and their value |
| `Quoting.LexState.ReadString` | depends/lua/src/llex.c:278-331 | the string that the specification of string literals says, or its error |
| `Quoting.QuoteBack` | depends/lua/src/lstrlib.c:696-723 | reading the quoted form gives back the bytes exactly if the line counter can count the newlines |
| `Quoting.NewlineTooMany` | depends/lua/src/llex.c:129-137 | one newline, read on the last line but one that can be counted, fails; a line earlier it comes back |
| `Quoting.QuoteAndRead` | depends/lua/src/llex.c:278-331 | quoting and reading a byte string gives it back |
| `Quoting.QuotedBytes` | depends/lua/src/lstrlib.c:696-723 | what is written for each byte |
| `Spelling.ReadsAll` | depends/lua/src/llex.c:278-331 | however each byte of a literal is written, raw, by letter, by one to three digits, behind a backslash or as a line break, the lexer reads the bytes meant, if the line counter can count the breaks |
| `Spelling.TooLargeRead` | depends/lua/src/llex.c:313-314 | a decimal escape above 255 is an error |
| `Spelling.UnfinishedRead` | depends/lua/src/llex.c:282-288 | so are a bare line break and the end of the input |
| `Spelling.SpellAndRead` | depends/lua/src/llex.c:278-331 | the lexer's loop on such a literal |
| `DumpFormat.GetPutText` | depends/lua/src/ldump.c:61-74 | a string, or none, read after it was written |
| `DumpFormat.GetPutConst` | depends/lua/src/ldump.c:80-105 | a constant read after it was written |
| `DumpFormat.GetPutDebug` | depends/lua/src/ldump.c:111-127 | debug data read after it was written |
| `DumpFormat.GetPutFunction` | depends/lua/src/ldump.c:129-141 | a function tree read after it was written, sources taken over from the parent |
| `DumpFormat.LoadedSame` | depends/lua/src/lundump.c:161-181 | without stripping the loaded function is the dumped one |
| `DumpFormat.LoadedStripped` | depends/lua/src/ldump.c:111-141 | with strip the loaded tree has the same headers, code, constants and nested functions, no debug data and no sources of its own |
| `DumpFormat.LowByteFirst` | depends/lua/src/lundump.c:214-227 | the lowest byte of a number is written first |
| `DumpFormat.SampleBytes` | depends/lua/src/ldump.c:80-164 | the precompiled form of one function, byte by byte |
| `DumpFormat.RoundTrip` | depends/lua/src/ldump.c:153-164 | undump of dump is the function, or with strip the function with all but its debug data and sources |
| `DumpLoad.DumpState.DumpFunction` | depends/lua/src/ldump.c:129-141 | exactly the bytes of the format were written; or the writer got a part of them and refused its last block, with the status returned |
| `DumpLoad.DumpChunk` | depends/lua/src/ldump.c:153-164 | header and function were written, or the writer refused a block of them; a writer that accepts everything ends with status 0 |
| `DumpLoad.Zio.Lookahead` | depends/lua/src/lzio.c:35-45 | there is a byte at hand if the stream has one |
| `DumpLoad.Zio.Read` | depends/lua/src/lzio.c:58-71 | the next n bytes of the stream over all blocks, or how many are missing |
| `DumpLoad.LoadState.LoadConsts` | depends/lua/src/lundump.c:100-129 | the loop loads what the bytes say |
| `DumpLoad.LoadState.LoadDebug` | depends/lua/src/lundump.c:137-159 | the loops load what the bytes say |
| `DumpLoad.LoadState.LoadFunction` | depends/lua/src/lundump.c:161-181 | loads what the bytes say, within the depth limit and accepted by the code check, or fails |
| `DumpLoad.UndumpChunk` | depends/lua/src/lundump.c:195-209 | what is loaded depends only on the bytes, not on the cut into blocks |
| `DumpLoad.DumpAndLoad` | depends/lua/src/lundump.c:195-209 | loading what dumping writes, over any cut, gives the function back, with strip all but its debug data and sources; a writer that accepts everything ends with status 0 |
| `ByteBuffer.Buffer.Shift` | src/core/ax_buffer.cc:43-66 | the bytes stay, at the front of the same block or of one of the initial size, as the shrink limit says |
| `ByteBuffer.Buffer.Prepare` | src/core/ax_buffer.cc:122-137 | the bytes stay and there is room behind them, for every request whose sums do not wrap around; the exact extent |
| `ByteBuffer.Buffer.FlushPush` | src/core/ax_buffer.cc:140-146 | the bytes written behind the data join it |
| `ByteBuffer.Buffer.Push` | src/core/ax_buffer.cc:149-157 | the bytes are appended, for every request whose sums do not wrap around; the exact extent |
| `ByteBuffer.Buffer.Pop` | src/core/ax_buffer.cc:70-86 | the bytes leave at the front; the value returned; the exact extent |
| `ByteBuffer.Buffer.Replay` | src/core/ax_buffer.cc:56-157 | any run of operations is the queue it describes, as long as no sum wraps around |
| `ByteBuffer.PreparedBound` | src/core/ax_buffer.cc:122-137 | what is prepared is enough, and no more than the block there was, the initial one, or the request and 128 bytes |
| `ByteBuffer.ModestFits` | src/core/ax_buffer.cc:122-137 | no sum of a run wraps around while the queue stays below 2 GB |
| `ByteBuffer.WrapAround` | src/core/ax_buffer.cc:127-128 | with 3 GB in the queue, one byte more wraps around at the end of a block of 4 GB and not at its start |
| `ByteBuffer.FirstInFirstOut` | src/core/ax_buffer.h:44-55 | over any run, what has left followed by what is there is what was there followed by what was put in |
| `ThreadPipe.PackUnpack` | src/core/ax_proto_msg.h:12-19 | a header field survives packing and unpacking exactly if it has 16 bits and its low byte is below 128 or its high byte is 255 |
| `ThreadPipe.WireBytes` | src/core/ax_proto_msg.h:15-18 | two frames on the wire, byte by byte |
| `ThreadPipe.ParseCut` | src/core/ax_tpipe.cc:91-104 | the frames do not depend on where the bytes are cut |
| `ThreadPipe.ParseExact` | src/core/ax_tpipe.cc:91-104 | encoded frames come out in order, once each, with nothing left, exactly if every header field survives and the last frame has a payload |
| `ThreadPipe.Losses` | src/core/ax_proto_msg.h:12-19 | frames that do not arrive: protocol number 200, a payload of 128 bytes, no payload |
| `ThreadPipe.RestShort` | src/core/ax_tpipe.cc:91-97 | what waits for more data is shorter than a header and 64 KB |
| `ThreadPipe.Pipe.OnRead` | src/core/ax_tpipe.cc:77-105 | exactly the complete frames go to the callback and the rest stays; how far the block may grow |
| `ThreadPipe.Receive` | src/core/ax_tpipe.cc:77-105 | over any cut into reads, of a transmission of any length, the frames sent are delivered in order, once each, exactly if the transmission is deliverable |
| `LinkedNodes.PushList` | src/core/ax_hashmap.h:275-288 | the pointer updates put the node at the head of the list |
| `LinkedNodes.CutList` | src/core/ax_hashmap.h:291-306 | the pointer updates take the node out of the list |
| `HashMapT.HashMap.Find` | src/core/ax_hashmap.h:194-205 | the first entry for the key in its bucket, which is the newest since the last rehash if there is one, or none |
| `HashMapT.HashMap.Insert` | src/core/ax_hashmap.h:168-184 | one entry more, at the head of its bucket and of the list of all; lookups of its key find it and all others are as before |
| `HashMapT.HashMap.Remove` | src/core/ax_hashmap.h:233-265 | one entry less, from its bucket and the list of all; lookups that found another entry still do |
| `HashMapT.HashMap.RemoveGet` | src/core/ax_hashmap.h:222-230 | the value of the entry that a lookup finds, which is removed; lookups of other keys are as before |
| `HashMapT.HashMap.MoveToHead` | src/core/ax_hashmap.h:275-306 | only this entry changes its place in the list, and no lookup changes |
| `HashMapT.HashMap.Rehash` | src/core/ax_hashmap.h:105-132 | every bucket of the new size holds its entries in the reverse order of the list of all, which is untouched |
| `HashMapT.HashMap.RemoveAll` | src/core/ax_hashmap.h:97-102 | no entries are left |
| `HashMapT.HashMap.FindAcrossRehash` | src/core/ax_hashmap.h:105-132 | a lookup finds the same entry after a rehash exactly if no other entry for the key stands behind it in the list of all |
| `HashMapT.LookupChanges` | src/core/ax_hashmap.h:105-132 | with two entries for one key the older one is found after a rehash |

## Left out

- Collector: finalizers, weak tables, byte accounting and thresholds, coroutine resumption beyond the change of the running thread.
- Code generator: calls, upvalues, globals, indexing, arithmetic and constant folding; line information; the limit on the number of instructions itself.  The operand of a comparison that is discharged already is not discharged a second time, which `CodeGen.FuncState.Exp2RK` proves to change nothing.
- `lopcodes.h`: the code generator's instructions are a datatype; the bit layout is modelled by itself, for 32-bit words.
- Tables: array parts larger than 2^26, which only an explicit request makes; dead keys left by the collector; metatables.
- EventTimer.EvTimer.RunSlot: what the source does after a callback deleted a timer due at the same tick, because it then uses freed entries; `TimerSpec.SparedExactly` says when.
- EventTimer.EvTimer.ProcessTick: the same.
- EventTimer.EvTimer.TimerRoutine: the same.
- Timers: handles wrapping around after 2^31 adds.
- Matcher: `gsub` and `gmatch`, plain search, locales other than C.
- Sort: order functions that are not strict weak orders.
- Undump: the code checker of `ldebug.c` is a parameter.
- LuaTable.Table.ResizeArray: sizes below the present one, which its only caller (`lvm.c:710-711`) does not ask for, and above 2^26, the largest array part of this model.
- Buffer: `pop_char`, `pop_short` and `pop_int`, which read after a pop that may shrink the buffer; `reset`.
- Pipe: the sending half, which does not remove sent bytes from its buffer; read errors, and pipes without a read callback.
- `ax_queue.cc`: on overflow it links a new chunk but never advances its end, so it is no queue.
- Polling, sockets, node configuration, logging, the code generators and the rest of the Lua libraries.
