# rvdbt in Dafny

rvdbt translates RV32IA guest code to amd64.  Just-in-time translation goes through QuickIR and the
QuickCodegen back end; ahead-of-time translation first groups the executed blocks of a page into
regions.  This project models those parts and proves what they are for.

* **Host code does what the interpreter does** (`Compiler`).  Guest code is translated to QuickIR
  (`Rv32Emission`, `Rv32Blocks`, `Rv32Regions`, `Rv32Translator`), its operands are selected
  (`QSel`, `QSelPass`), host registers are allocated (`RegAllocState`, `RegAllocSim`, `QRegAlloc`) and
  blocks are laid out (`Layout`, `Backend`).  `Compiler.HostFollows` and `Compiler.HostReflects` relate
  every run of the resulting code on an abstract amd64 machine (`HostMachine`) to the interpreter
  (`Rv32`), in both directions, for every guest program without loads into x0 that have no offset;
  `Compiler.MachineFollows` and `Compiler.MachineReflects` are the same for 32-bit arithmetic and the
  decoder.  Host code goes to a misaligned branch target if and only if the interpreter traps for it;
  everywhere else both agree on registers, memory, traps and the faulting address.  Only instructions
  that amd64 has are used, and none of them changes the stack pointer, the memory base or the state
  pointer (`Layout`).
* **What the interpreter computes** (`Rv32Decode`, `Rv32Operators`, `Rv32Effects`).  Decoding inverts
  encoding for every instruction, and operators, loads, stores, atomics and traps are stated on numbers
  or 32-bit vectors, independently of how the model defines them.
* **Execute steps the interpreter** (`Execution`).  Every run of the execution loop from an empty cache,
  with translation, both lookup tables, patched branches and the host code of all blocks together,
  takes the interpreter to the same guest address with the same registers and memory.  The same holds
  for caches that hold the regions which ahead-of-time compilation makes of a page (`AotCompile`).
* **Regions have a single entry and are as few as possible** (`ModuleGraph`, `RegionPasses`,
  `RegionTheory`, `DomTrees`, `FlowGraphs`, `Markers`).  The depth-first numbering, the iterative
  dominator computation (including its termination), dominance frontiers, the worklist for region
  entries and region extraction are proved against path-based definitions.
* **Chaining is invisible** (`Chaining`).  Over every run of the execution loop, the direct-mapped tables
  and the patched branch slots lead to the code that the ordered map holds.  The links and flags in the
  cache are exactly what control has passed through.
* **Profiles are closed** (`ProfileClosure`, `AotBuild`, `Rv32Analyser`).  Blocks recorded by any run are
  reachable in the graph that ahead-of-time compilation builds from them with the decoding analyser, so
  its panic for unreachable regions does not occur and the page is split into regions.  The edges of
  that graph are exactly the direct exits of the blocks that the translator makes of the same extents.
* **Hand-off between threads** (`TaskHandoff`).  Each call of SendTask has its function run exactly once
  before it returns, for any number of callers and any interleaving.  A call that is pending before
  Destroy returns within a bounded number of steps, not counting spurious wakeups; a call that is
  stored after Destroy never runs.

Operations that the source performs by changing fields, arrays or lists are methods, on classes where
the source has objects; they are proved against functions and predicates on values, about which the
lemmas speak.  A result `ok == false` stands for a panic.

## Modelling decisions

* Guest words are four bytes, and arithmetic is a record of functions (`Rv32.Arith`): the C operators of
  the interpreter on one side, what amd64 instructions compute on the other.  `Rv32Machine` defines
  both on the numbers that words stand for and proves that they agree; all other proofs use only
  these facts and, for scans, that addresses are numbers modulo 2^32 (`Rv32Analysers.Linear`, which
  `Rv32Analysers.MachineIsLinear` establishes).
* The meaning of QuickIR is independent of operators, memory and helpers (`Qir.Semantics`), so the back
  end theorem holds for all of them.  What a helper leaves in caller-saved registers is arbitrary.
* Locals are defined before they are used within their block, as all builders in the repository do; the
  instruction pointer is reached through its state slot only.
* Guest code does not change while it runs, and memory faults are a partial memory.
* Some documented limits are preconditions or results: 255 graph nodes including the root
  (`Markers.NumberingFits` says why), 255 virtual registers in regions with helper calls, 512 tracks,
  1024 bytes of spill frame (never full with at most 256 locals).

## Five places where the code does less than it should

* A load into x0 with offset zero uses its address operand as destination
  (`dbt/guest/rv32_qir.cpp:206`).  `Rv32Regions.ClobberingLoad` gives the exact condition: the code is
  valid if and only if the base register is not x0 (otherwise the destination is a constant), and then
  it agrees with the interpreter if and only if the access faults or loads what the base register
  holds.  `Rv32Emission.ClobberExample` gives a state for which it does not, for every such load.
* The translator does not check the alignment of branch targets (`dbt/guest/rv32_qir.cpp:316`).
  `Rv32Blocks.BlockReaches` states for every block, and `Compiler.HostReflects` for every exit of host
  code, that the target is misaligned if and only if the interpreter traps for it;
  `Rv32Blocks.MisalignedExample` is an input for which the two differ.
* The table for indirect branches starts out with address 0 and a null pointer in every entry.
  `Chaining.IndirectKeeps` states that a jump goes to the null pointer if and only if its target is 0
  and the entry is still empty, and `Chaining.NullJump` is such a run.
* The decoder does not look at every bit that the manual fixes (`dbt/guest/rv32_decode.h:89-137`).
  `Rv32Decode.AcceptsOverlooked` gives the exact set of words that it accepts although they encode no
  instruction of RV32IA; `Rv32Decode.OverlookedExample` is one of them, a multiplication that runs as a
  shift.
* An extent that wraps around the end of the address space is cut short when it is scanned again.
  `Rv32Analysers.Rescan` says exactly when and to what; it does not happen between aligned addresses
  (`Rv32Analysers.AlignedRescan`), which are the only ones in a profile, and `Rv32Analysers.WrapExample`
  is an input for which it does.

## Model

| member | source | states |
|---|---|---|
| `ModuleGraphs.ModuleGraph.ComputeRegions` | dbt/aot/aot_module.cpp:290-302 | regions partition the blocks, every region has one entry which is the last entry on every path to its blocks, and no other split with these properties has fewer regions; the panic occurs exactly if some block is unreachable |
| `ModuleGraphs.ModuleGraph.ComputeDomTree` | dbt/aot/aot_module.cpp:151-203 | every link is the immediate dominator by the path definition, and the outer loop ends |
| `ModuleGraphs.ModuleGraph.ComputeDomFrontier` | dbt/aot/aot_module.cpp:205-218 | the frontier sets are exactly the dominance frontiers by definition |
| `ModuleGraphs.ModuleGraph.ComputeRegionIDF` | dbt/aot/aot_module.cpp:220-244 | the flagged entries are the least set that contains the seeds and is closed under frontiers |
| `ModuleGraphs.ModuleGraph.ComputeRegionDomSets` | dbt/aot/aot_module.cpp:246-288 | one region per entry, with exactly the blocks reached from it without passing another entry |
| `ModuleGraphs.ModuleGraph.RecordGBr` | dbt/aot/aot_module.h:109-117 | adds the edge if the target is a node of the page and otherwise only a flag |
| `ModuleGraphs.ModuleGraph.RecordBrindTarget` | dbt/aot/aot_module.h:95-100 | the block becomes a seed with an edge from the root |
| `ModuleGraphs.ModuleGraph.RecordSegmentEntry` | dbt/aot/aot_module.h:102-107 | the block becomes a seed with an edge from the root |
| `ModuleGraphs.AddSuccValid` | dbt/aot/aot_module.h:25-29 | successor and predecessor lists describe the same edges after every addition, duplicates and self loops included |
| `RegionPasses.PostOrderNodes` | dbt/aot/aot_module.cpp:121-149 | the explicit stack lists nodes once each, every one after the nodes it discovers |
| `RegionPasses.PostOrderComplete` | dbt/aot/aot_module.cpp:121-149 | the list has all nodes exactly if all are reachable from the root |
| `RegionPasses.PostOrderNumbers` | dbt/aot/aot_module.cpp:156-165 | every node but the root has a predecessor with a smaller number |
| `RegionPasses.Intersect` | dbt/aot/aot_module.cpp:171-181 | ends at a node on both dominator chains that is below every common one |
| `RegionPasses.LinkDominators` | dbt/aot/aot_module.cpp:183-203 | when nothing changes any more, the links are stable and keep all dominators |
| `RegionPasses.DominanceFrontiers` | dbt/aot/aot_module.cpp:205-218 | each runner stops at the dominator, and the sets match the definition |
| `RegionPasses.RegionEntries` | dbt/aot/aot_module.cpp:220-244 | the worklist ends although it holds duplicates, with the least closed set |
| `RegionPasses.RegionNodes` | dbt/aot/aot_module.cpp:246-288 | the nodes of one region, its entry first, without repetition |
| `RegionPasses.RegionsSplitPage` | docs/rvdbt.md:124-126 | regions built this way are a partition with single entries and minimal in number |
| `DomTrees.SweepStep` | dbt/aot/aot_module.cpp:183-201 | one node of a sweep keeps what makes the sweeps settle |
| `DomTrees.SweepDescends` | dbt/aot/aot_module.cpp:183-203 | every sweep that changes something lowers the total height of the tree, so the loop ends |
| `DomTrees.StableIsImmediate` | dbt/aot/aot_module.cpp:183-203 | links that no longer change are immediate dominators |
| `DomTrees.RelinkKeepsDominators` | dbt/aot/aot_module.cpp:171-199 | moving a link to the meet of the predecessors loses no dominator |
| `RegionTheory.ClosedIsSingleEntry` | docs/rvdbt.md:124-125 | entries closed under frontiers give every block a unique last entry on all paths |
| `RegionTheory.SingleEntryIsClosed` | docs/rvdbt.md:124-126 | conversely, entries with that property are closed under frontiers |
| `RegionTheory.IteratedFrontierIsMinimal` | docs/rvdbt.md:126 | every valid set of entries contains the computed one |
| `RegionTheory.RegionsPartition` | docs/rvdbt.md:124-125 | every block lies in exactly one region, whose entry dominates it |
| `Markers.MarkerRoundTrip` | dbt/qmc/marker.h:15-52 | a marker reads back its states, and zero for whatever older markers wrote |
| `Markers.NumberingFits` | dbt/qmc/marker.h:48-52 | numbering n nodes leaves marks that the next marker ignores if and only if n is below 256 |
| `QSel.SelectOperands` | dbt/qmc/qcg/qsel.cpp:23-81 | inputs keep their values, no other register changes, aliased inputs are the output register, remaining constants are encodable, and the exact number of temporaries that this takes |
| `QSel.SaveLiveInput` | dbt/qmc/qcg/qsel.cpp:44-61 | an input that still reads the output register reads a copy afterwards |
| `QSel.SatisfyAlias` | dbt/qmc/qcg/qsel.cpp:32-64 | the aliased input becomes the output register without changing any value that is read |
| `QSel.LowerConstant` | dbt/qmc/qcg/qsel.cpp:66-80 | a constant stays only if the instruction can encode it |
| `QSel.SelectionPreservesMeaning` | dbt/qmc/qcg/qsel.cpp:23-81 | moves and selected instruction together do what the instruction did, with any operators and helpers |
| `QSel.SelectedCodeAgrees` | dbt/qmc/qcg/qsel.cpp:154-168 | the same for straight-line code |
| `QSel.SelectBlock` | dbt/qmc/qcg/qsel.cpp:154-168 | selected blocks are well-formed again and end in the same instruction |
| `QSelPass.SelectRegion` | dbt/qmc/qcg/qsel.cpp:154-168 | every block is selected with the temporaries of earlier ones; the registers of the region grow by the sum over its instructions |
| `QSelPass.SelectionMatches` | dbt/qmc/qcg/qsel.cpp:154-168 | after any number of blocks, original and selected region are at the same place with the same registers and memory |
| `ArchTraits.ConstraintFacts` | dbt/qmc/qcg/arch_traits.cpp:34-121 | only binary operations alias, always the first input; tied inputs are allocated first; immediates as the table says |
| `HostMachine.SetccIsWrite` | dbt/qmc/qcg/qemit.cpp:358-381 | clearing first or widening afterwards leaves exactly the comparison result, aliased or not |
| `HostMachine.StoredGlobal` | dbt/guest/rv32_qir.cpp:46-59 | globals stored one after the other can all be read back |
| `RegAllocState.FrameSlotInv` | dbt/qmc/qcg/qra.cpp:179-191 | frame slots are aligned, inside the frame and disjoint |
| `RegAllocState.FrameNeverFull` | dbt/qmc/qcg/qra.cpp:179-191 | with at most 256 locals the frame has room for every slot |
| `RegAllocState.SpillStep` | dbt/qmc/qcg/qra.cpp:112-119 | a spill keeps the bookkeeping consistent and every machine that matches it matches afterwards |
| `RegAllocState.FillStep` | dbt/qmc/qcg/qra.cpp:193-208 | the same for loading a register from its slot |
| `RegAllocState.ReleaseStep` | dbt/qmc/qcg/qra.cpp:165-177 | a register may be given up if its slot is up to date or its value no longer matters |
| `RegAllocState.DefineCarries` | dbt/qmc/qcg/qra.cpp:319-358 | writing the renamed result register makes the machine match the new bookkeeping |
| `RegAllocState.SyncedIsPrecise` | dbt/qmc/qcg/qra.cpp:310-317 | synchronized globals are precise in memory although they stay in registers |
| `RegAllocState.PreciseEntersBlock` | dbt/qmc/qcg/qra.cpp:250-257 | a precise state can enter any block that starts with all globals in memory |
| `RegAllocSim.PreciseBefore` | dbt/qmc/qcg/qra.cpp:310-317 | just before every load, store, helper call and transfer of control, memory holds the precise guest state |
| `RegAllocSim.HostMatches` | dbt/qmc/qcg/qra.cpp:271-377 | the rewritten instruction does what the original did |
| `RegAllocSim.TranslatedMatches` | dbt/qmc/qcg/qra.cpp:271-377 | so does everything that was emitted for it |
| `RegAllocSim.HostIsEncodable` | dbt/qmc/qcg/arch_traits.h:97-115 | every emitted instruction is one that amd64 has, said with register numbers: none touches registers 4, 5 and 13, shift counts are in `cl`, indirect targets in `rsi`, arithmetic has two addresses, and immediates survive sign extension |
| `HostMachine.StepKeepsReserved` | dbt/qmc/qcg/qemit.cpp:302-304 | no such instruction, and no helper, changes the stack pointer, the memory base or the state pointer |
| `RegAllocSim.CodeMatches` | dbt/qmc/qcg/qra.cpp:463-475 | the same for the code of a block |
| `RegAllocSim.RegionMatches` | dbt/qmc/qcg/qra.cpp:463-475 | after any number of blocks, virtual and allocated region are at the same place with the same globals and memory |
| `QRegAllocs.QRegAlloc.constructor` | dbt/qmc/qcg/qra.cpp:78-92 | one dead track per virtual register, all host registers free |
| `QRegAllocs.QRegAlloc.Prologue` | dbt/qmc/qcg/qra.cpp:237-248 | consistent bookkeeping with all globals in memory |
| `QRegAllocs.QRegAlloc.AllocPReg` | dbt/qmc/qcg/qra.cpp:94-110 | a register in the mask and outside the avoided ones, free afterwards; at most its owner moved; the panic is unreachable |
| `QRegAllocs.TargetExists` | dbt/qmc/qcg/qra.cpp:94-110 | every input of every opcode finds an allowed register |
| `QRegAllocs.QRegAlloc.AllocFrameSlot` | dbt/qmc/qcg/qra.cpp:179-191 | the slot is the next aligned one, or the frame is full |
| `QRegAllocs.QRegAlloc.EmitSpill` | dbt/qmc/qcg/qra.cpp:112-119 | the value is in the slot and nothing else changed |
| `QRegAllocs.QRegAlloc.SyncSpill` | dbt/qmc/qcg/qra.cpp:148-163 | the slot is up to date; skipped when it already was |
| `QRegAllocs.QRegAlloc.Release` | dbt/qmc/qcg/qra.cpp:165-177 | the register has no owner and the value is looked for in its slot |
| `QRegAllocs.QRegAlloc.Spill` | dbt/qmc/qcg/qra.cpp:133-146 | the value lives in its slot, no register was written |
| `QRegAllocs.QRegAlloc.Fill` | dbt/qmc/qcg/qra.cpp:193-208 | the value is in a register, in an allowed one if it had to be loaded |
| `QRegAllocs.QRegAlloc.AllocInput` | dbt/qmc/qcg/qra.cpp:285-308 | the host operand shows the value of the virtual one and satisfies the constraint |
| `QRegAllocs.QRegAlloc.AllocInputs` | dbt/qmc/qcg/qra.cpp:271-308 | the same for all inputs at once, whatever later ones evict |
| `QRegAllocs.QRegAlloc.SyncGlobals` | dbt/qmc/qcg/qra.cpp:310-317 | all globals are up to date in memory and nothing moved |
| `QRegAllocs.QRegAlloc.AllocOutput` | dbt/qmc/qcg/qra.cpp:319-358 | an aliased output stays in its input's register, any other goes to a register that nobody owns |
| `QRegAllocs.QRegAlloc.AllocOp` | dbt/qmc/qcg/qra.cpp:271-358 | inputs, synchronization and output together |
| `QRegAllocs.AllocatedFits` | dbt/qmc/qcg/qra.cpp:285-358 | registers are in their masks and not fixed, distinct sources are in distinct registers, constants are encodable |
| `QRegAllocs.QRegAlloc.SpillGlobals` | dbt/qmc/qcg/qra.cpp:250-257 | all globals are in memory, registers keep their contents |
| `QRegAllocs.QRegAlloc.RegionBoundary` | dbt/qmc/qcg/qra.cpp:259-269 | everything is in memory, registers keep their contents |
| `QRegAllocs.QRegAlloc.CallOp` | dbt/qmc/qcg/qra.cpp:361-377 | globals are in memory and no value is in a caller-saved register |
| `QRegAllocs.CallLoopEnds` | dbt/qmc/qcg/qra.cpp:369-375 | the u8 loop over the registers ends if and only if there are at most 255, and then visits each once |
| `QRegAllocs.QRegAlloc.VisitInst` | dbt/qmc/qcg/qra.cpp:379-461 | every instruction is translated so that its emission does what it does |
| `QRegAllocs.QRegAlloc.AllocBlock` | dbt/qmc/qcg/qra.cpp:463-475 | blocks start and end with all globals in memory |
| `QRegAllocs.QRegAlloc.Run` | dbt/qmc/qcg/qra.cpp:463-475 | every block of the region is translated |
| `QRegAllocs.AllocateRegion` | dbt/qmc/qcg/qra.cpp:477-481 | the whole pass; it succeeds with at most 512 registers and 256 locals |
| `Layout.EmitRegion` | dbt/qmc/qcg/qcg.cpp:63-75 | every block's code stands at its label and is followed by the next block |
| `Layout.LayoutFollows` | dbt/qmc/qcg/qemit.cpp:193-225 | every run over blocks is a run of the flat code, although fall-through jumps are left out |
| `Layout.LayoutReflects` | dbt/qmc/qcg/qemit.cpp:193-225 | every exit of the flat code is an exit of the region |
| `Layout.RunKeepsReserved` | dbt/qmc/qcg/qemit.cpp:84 | however long emitted code runs, the three registers through which slots and guest memory are addressed hold what they held on entry |
| `Backend.GenerateCode` | dbt/qmc/qcg/qcg.cpp:20-41 | the passes fit together; with helper calls compilation succeeds if and only if the registers of the region and those that selection adds are at most 255; without, it needs at most 512 and succeeds if at most 256 of them are locals |
| `Backend.BackendFollows` | dbt/qmc/qcg/qcg.cpp:20-41 | however many blocks a region runs, the code gets to the same place or leaves by the same exit with the same globals and memory |
| `Backend.BackendReflects` | dbt/qmc/qcg/qcg.cpp:20-41 | the code leaves by no other exit |
| `Rv32.SetReg` | dbt/guest/rv32_interp.cpp:31-54 | a register write leaves x0 zero and all other registers alone |
| `Rv32.HandlerEffects` | dbt/guest/rv32_interp.cpp:31-190 | a handler changes its destination register only and never x0, memory only where it stores, the program counter by four unless it branches; if it stops, nothing has changed and the saved instruction pointer names it |
| `Rv32.InterpretSplit` | dbt/guest/rv32_interp.cpp:266-321 | running k1 and then k2 instructions is running k1 + k2 |
| `Rv32Machine.MachineOperatorsAgree` | dbt/qmc/qcg/qemit.cpp:391-450 | amd64 instructions compute the C operators, shifts with the amount masked to five bits |
| `Rv32Operators.MachineCompares` | dbt/guest/rv32_interp.cpp:128-178 | sums and differences modulo 2^32; comparisons and branches by the order of numbers, signed ones after flipping bit 31 |
| `Rv32Operators.MachineShifts` | dbt/guest/rv32_interp.cpp:128-178 | a shift by one place more doubles or halves the number, and the arithmetic one copies bit 31 |
| `Rv32Operators.MachineBits` | dbt/guest/rv32_interp.cpp:128-178 | bitwise operators are those of 32-bit vectors |
| `Rv32Operators.MachineTargets` | dbt/guest/rv32_interp.cpp:119-127 | an indirect jump goes to the sum with its lowest bit cleared |
| `Rv32Effects.LoadedNumber` | dbt/guest/rv32_interp.cpp:71-79 | a load yields the little-endian number in memory, widened with its sign or with zeros |
| `Rv32Effects.LoadAfterStore` | dbt/guest/rv32_interp.cpp:71-79 | a load after a store of the same size gives back the stored part |
| `Rv32Effects.AtomicEffect` | dbt/guest/rv32_interp.cpp:214-275 | the word that each implemented atomic operation stores, and what it leaves in the destination |
| `Rv32Effects.StopsFor` | dbt/guest/rv32_interp.cpp:22-275 | which instruction stops for which reason: the four traps and the fault, each if and only if |
| `Rv32Effects.TrapNumbers` | dbt/guest/rv32_cpu.h:13-19 | translated code reports each trap by its number |
| `Rv32Machine.MachineAdditionLaws` | dbt/qmc/qir_opt.cpp:32-51 | addition commutes, zero is neutral, and aligned plus offset is aligned exactly if the offset is |
| `Rv32Decode.DecodeMatches` | dbt/guest/rv32_decode.h:14-194 | the decoder chooses an operation if and only if the bits that it looks at are those of the operation |
| `Rv32Decode.IllegalMatchesNone` | dbt/guest/rv32_decode.h:14-194 | in an illegal instruction they are those of no operation |
| `Rv32Decode.LegalMatches` | dbt/guest/rv32_decode.h:14-194 | in every other word the bits that the decoder looks at are those of some operation |
| `Rv32Decode.EncodingIsDecoded` | dbt/guest/rv32_decode.h:14-194 | a word with all bits that the instruction listings of the RISC-V manual, Volume I, fix for an operation is decoded to that operation |
| `Rv32Decode.DecodeEncode` | dbt/guest/rv32_insn.h:30-150 | every representable instruction is decoded from its encoding in the manual, operation, registers and immediate |
| `Rv32Decode.AcceptsOverlooked` | dbt/guest/rv32_decode.h:78-170 | the decoder accepts a word that the listings give to no operation of RV32IA if and only if it has a nonzero funct7 in `slli` or in a register operation other than `add`, `sub`, `srl`, `sra`, or a nonzero rs2 in `lr.w` |
| `Rv32Decode.OverlookedExample` | dbt/guest/rv32_decode.h:103-138 | the word of `mulh x0, x0, x0` is decoded as `sll` |
| `Rv32Decode.RoundTripB` | dbt/guest/rv32_insn.h:88-96 | the branch immediate of section 2.3 of the RISC-V manual, Volume I, is recovered whatever the other bits are |
| `Rv32Decode.EncodedB` | dbt/guest/rv32_insn.h:88-96 | encoding the decoded immediate gives back its bits |
| `Rv32Decode.RoundTripJ` | dbt/guest/rv32_insn.h:107-114 | the same for jumps |
| `Rv32Decode.RoundTripI` | dbt/guest/rv32_insn.h:58-66 | the same for the I format |
| `Rv32Decode.RoundTripS` | dbt/guest/rv32_insn.h:78-86 | the same for the S format |
| `Rv32Decode.RoundTripU` | dbt/guest/rv32_insn.h:98-105 | the same for the U format |
| `Rv32Decode.EncodedI` | dbt/guest/rv32_insn.h:58-66 | encoding the decoded I immediate gives back its bits |
| `Rv32Decode.EncodedS` | dbt/guest/rv32_insn.h:78-86 | the same for the S format |
| `Rv32Decode.EncodedU` | dbt/guest/rv32_insn.h:98-105 | the same for the U format |
| `Rv32Decode.EncodedJ` | dbt/guest/rv32_insn.h:107-114 | the same for jumps |
| `Operands.UnpackPack` | dbt/qmc/qir.h:117-248 | every packed operand is read back with its kind, type and value; packing loses nothing |
| `Rv32Emission.FoldingPreservesMeaning` | dbt/qmc/qir_opt.cpp:32-51 | an addition that is folded at build time still computes the sum |
| `Rv32Emission.StraightFollows` | dbt/guest/rv32_qir.cpp:180-380 | the QuickIR of every instruction that is not a branch has the interpreter's outcome: registers, memory, trap, fault and saved instruction pointer |
| `Rv32Emission.StubOfInsn` | dbt/guest/rv32_qir.cpp:377-393 | each instruction that is left to a helper calls the stub of its own handler |
| `Rv32Emission.HcallFollows` | dbt/guest/rv32_interp.cpp:48-54 | a runtime stub has the effect of the handler that it calls |
| `Rv32Emission.JalrRuns` | dbt/guest/rv32_qir.cpp:326-343 | the target is computed before the link register is written |
| `Rv32Emission.ClobberedBase` | dbt/guest/rv32_qir.cpp:203-207 | a load into x0 without offset from another base register agrees with the interpreter if and only if it faults or loads what that register holds |
| `Rv32Regions.ClobberingLoad` | dbt/guest/rv32_qir.cpp:194-208 | for all loads into x0 without offset: the code is valid if and only if the base is not x0, and then the condition above |
| `Rv32Regions.NoDestination` | dbt/guest/rv32_qir.cpp:194-208 | with base x0 the destination is a constant, whatever registers the region has |
| `Rv32Emission.ClobberExample` | dbt/guest/rv32_qir.cpp:203-207 | for every such load with a base register, a state for which it does not agree |
| `Rv32Blocks.EmitterIsOk` | dbt/guest/rv32_qir.cpp:180-395 | single instructions and transfers of control are translated correctly |
| `Rv32Blocks.StraightRuns` | dbt/guest/rv32_qir.cpp:80-110 | over instructions that do not end a block, both stop at the same one or get to the end |
| `Rv32Blocks.BlockReaches` | dbt/guest/rv32_qir.cpp:80-178 | a translated block gets where the interpreter gets, and goes to a misaligned address exactly where the interpreter traps for it |
| `Rv32Blocks.MisalignedExample` | dbt/guest/rv32_qir.cpp:314-325 | an input for which the interpreter traps and translated code does not |
| `Rv32Regions.RegionFollows` | dbt/guest/rv32_qir.cpp:64-78 | the same for whole runs of a region, with at least one guest instruction per block |
| `Rv32Regions.BlockExtra` | dbt/qmc/qcg/qsel.cpp:23-81 | a translated block takes at most three registers per guest instruction, for its temporaries and for selection |
| `Rv32Regions.BlockIsReady` | dbt/guest/rv32_qir.cpp:80-178 | translated blocks define temporaries before use, end in one transfer of control or a helper, and name their successors |
| `Rv32Translators.Translator.constructor` | dbt/guest/rv32_qir.cpp:62-71 | an empty block for every range |
| `Rv32Translators.Translator.MakeGBr` | dbt/guest/rv32_qir.cpp:128-137 | a local branch if and only if the target is in the region |
| `Rv32Translators.Translator.TranslateBrcc` | dbt/guest/rv32_qir.cpp:139-178 | both successors lie at the addresses of the branch; a successor is a block of the region if its address is in the region, and otherwise a new block that leaves it |
| `Rv32Translators.Translator.TranslateInsn` | dbt/guest/rv32_qir.cpp:120-126 | appends the code of the instruction and ends the block if it has to, with local branches exactly for addresses in the region |
| `Rv32Translators.Translator.TranslateIPRange` | dbt/guest/rv32_qir.cpp:80-110 | the block is the translation of the code at its address and stops exactly at the first ending instruction, limit or boundary |
| `Rv32Translators.Translate` | dbt/guest/rv32_qir.cpp:64-78 | every range has its block, all other blocks leave the region, branches are local exactly for addresses in the region, and the exact number of registers |
| `Rv32Translators.CoversScan` | dbt/guest/rv32_qir.cpp:92-108 | a block covers exactly the scanned instructions |
| `Compiler.CompileRegion` | dbt/qmc/compile.cpp:9-28 | translation and code generation fit together, and the code is entered at offset 0 for the first range; a single range always compiles, and so do any ranges with at most 74 instructions in all |
| `Compiler.HostFollows` | dbt/qmc/compile.cpp:9-28 | host code keeps up with the interpreter for any number of steps, keeps the three reserved registers, and is at a misaligned target exactly if the interpreter has trapped for it |
| `Compiler.HostReflects` | dbt/qmc/compile.cpp:9-28 | whenever host code leaves a region, the interpreter gets to the same exit with the same registers, memory and, on traps and faults, instruction pointer; the exit is misaligned if and only if the interpreter traps for it; the three reserved registers are kept |
| `Compiler.MachineLaws` | dbt/guest/rv32_interp.cpp:80-190 | 32-bit arithmetic meets the assumptions of these theorems |
| `Compiler.MachineFollows` | dbt/qmc/compile.cpp:9-28 | the forward direction for 32-bit arithmetic and the decoder, without assumptions on them |
| `Compiler.MachineReflects` | dbt/qmc/compile.cpp:9-28 | the backward direction for them |
| `Execution.RunSteps` | dbt/execute.cpp:54-88 | from any cache whose host code was compiled for its addresses, every run of the loop and of host code takes the interpreter to the same guest address with the same registers and memory, and to a misaligned address exactly where it refuses to go; the reserved registers are kept throughout |
| `Execution.RunStops` | dbt/execute.cpp:54-88 | if host code then stops with a trap or fault, so does the interpreter, in the same state |
| `Execution.ExecuteSteps` | dbt/execute.cpp:54-88 | the same from an empty cache |
| `Execution.CompiledIsLawful` | dbt/qmc/compile.cpp:9-28 | compiled code meets the assumptions of these theorems |
| `Execution.MachineExecutes` | dbt/execute.cpp:54-88 | the theorem for 32-bit arithmetic and the decoder, without assumptions on them |
| `Rv32Analysers.Analyse` | dbt/guest/rv32_analyser.cpp:14-36 | block end and edges of the scan; the panic occurs exactly at an illegal instruction |
| `Rv32Analysers.ExitsAreEdges` | dbt/guest/rv32_analyser.cpp:46-101 | the direct exits of the translated block are exactly the recorded branch edges |
| `Rv32Analysers.MachineExitsAreEdges` | dbt/guest/rv32_analyser.cpp:46-101 | the same for 32-bit arithmetic and the decoder, without assumptions on them |
| `Rv32Analysers.MachineIsLinear` | dbt/guest/rv32_analyser.cpp:21-33 | instructions lie four bytes apart modulo 2^32 and addresses are compared as numbers |
| `Rv32Analysers.Rescan` | dbt/aot/aot.cpp:35-40 | scanning the extent that was found covers the same instructions, or one instruction if and only if it wraps around the end of the address space after the first |
| `Rv32Analysers.AlignedRescan` | dbt/aot/aot.cpp:35-40 | between aligned addresses it always covers the same instructions |
| `Rv32Analysers.WrapExample` | dbt/guest/rv32_analyser.cpp:28-32 | an input for which it covers one instruction only |
| `Rv32Analysers.ScansAgree` | dbt/guest/rv32_analyser.cpp:21-33 | the scan on numbers that profile closure uses is this scan of the same code |
| `Rv32Analysers.EdgesAreExits` | dbt/guest/rv32_analyser.cpp:46-101 | the branches on numbers that profile closure uses are the recorded edges |
| `Rv32Analysers.TranslatedExits` | dbt/guest/rv32_qir.cpp:80-178 | the direct exits of a block that is translated up to a boundary are those that profile closure uses |
| `Chaining.InlinedOffsetIsHash` | dbt/qmc/qcg/qemit.cpp:261-262 | the inlined offset is the table index times the entry size, for every address |
| `Chaining.InlinedOffsetBits` | dbt/qmc/qcg/qemit.cpp:261-262 | the emitted shift and mask compute this offset on 32 bits |
| `Chaining.LookupIsMap` | dbt/tcache/tcache.h:48-58 | a lookup through the table is a lookup in the map |
| `Chaining.InsertAgrees` | dbt/tcache/tcache.cpp:66-70 | insertion keeps tables and map in agreement if and only if the address is new or the block is the same |
| `Chaining.InlinedHit` | dbt/qmc/qcg/qemit.cpp:264-269 | a hit is what the map holds, except that address 0 hits empty entries |
| `Chaining.DirectKeeps` | dbt/qmc/qcg/jitabi.cpp:83-93 | a direct branch runs the code that the map holds for it, or returns to the loop with its address |
| `Chaining.IndirectKeeps` | dbt/qmc/qcg/jitabi.cpp:143-152 | the same for indirect branches; a null jump occurs if and only if the target is 0 and its entry is empty |
| `Chaining.NullJump` | dbt/qmc/qcg/qemit.cpp:264-269 | from an empty cache, the first block's jump to address 0 is such a null jump |
| `Chaining.TurnKeeps` | dbt/execute.cpp:60-87 | one turn of the loop enters the code for `state->ip` and records the branch that led there |
| `Chaining.StepRefines` | dbt/execute.cpp:54-88 | every step is a step of a machine that only has the map |
| `Chaining.RunRefines` | dbt/execute.cpp:54-88 | so is every run |
| `Chaining.RunRecords` | dbt/tcache/tcache.h:62-75 | after any run from an empty cache, said without the tables: a slot is linked if and only if control has passed through it, its link is recorded once, a block is a segment entry if and only if a linked slot that leaves a page leads to it, and it is a target of indirect branches if and only if control has entered it without a direct branch |
| `Chaining.FastNextTime` | dbt/qmc/qcg/jitabi.cpp:83-152 | after a branch has found its block, the slot or the table for indirect branches jumps straight to it |
| `Chaining.TCache.Lookup` | dbt/tcache/tcache.h:48-58 | result and new table of a lookup |
| `Chaining.TCache.Insert` | dbt/tcache/tcache.cpp:66-70 | new map and table; they agree if and only if the address is new or the block is the same |
| `Chaining.TCache.CacheBrind` | dbt/tcache/tcache.h:62-69 | new table for indirect branches and flag |
| `Chaining.TCache.Link` | dbt/tcache/tcache.h:71-75 | the slot jumps to the block, and the link is recorded |
| `Chaining.TCache.TryLinkBranch` | dbt/qmc/qcg/jitabi.cpp:83-93 | where a lazy branch goes and what it patches |
| `Chaining.TCache.BranchIndirect` | dbt/qmc/qcg/qemit.cpp:242-290 | inlined lookup and slow path together |
| `Chaining.TCache.TurnLoop` | dbt/execute.cpp:60-87 | one turn of the loop on the tables |
| `ProfileClosure.PiecesReach` | dbt/aot/aot.cpp:35-40 | a branch of a block is reached through the pieces into which later blocks have split it |
| `ProfileClosure.StepKeepsRecord` | dbt/execute.cpp:60-87 | every translated block was entered indirectly or through a recorded branch of an earlier one |
| `ProfileClosure.AllReached` | dbt/aot/aot_module.cpp:159-165 | every translated block is in every closed set that contains the seeds |
| `ProfileClosure.ProfileIsClosed` | dbt/aot/aot_module.cpp:159-165 | the same after any run from an empty cache |
| `AotBuild.BuildModuleGraph` | dbt/aot/aot.cpp:12-43 | the nodes are the recorded blocks; the edges are exactly those from the root to flagged blocks and the branches between blocks; every extent is recorded; the panic occurs exactly if the scan of a block ends at an illegal instruction |
| `AotBuild.AnalyseBlock` | dbt/guest/rv32_analyser.cpp:14-36 | the decoding analyser gives a block exactly the edges to nodes that its code branches to directly, and no other block any |
| `AotBuild.ProfiledGraphIsReachable` | dbt/aot/aot_module.cpp:159-165 | in the graph built from a recorded run every block is reachable from the root |
| `AotBuild.SplitPage` | dbt/aot/aot.cpp:45-48 | after any run that translated fewer than 255 blocks of a page, the page is split into regions that are a partition with single entries and minimal in number, unless the analyser panics |
| `AotBuild.ExitsAreSuccessors` | dbt/aot/aot.cpp:52-60 | a block translated up to the extent in the graph branches directly to another block of the page if and only if the graph has that edge |
| `AotBuild.MachineExitsAreSuccessors` | dbt/aot/aot.cpp:52-60 | the same for 32-bit arithmetic and the decoder, without assumptions on them |
| `AotBuild.TranslatedIsHonest` | dbt/execute.cpp:42-52 | the direct exits that the translator makes of a range are those that runs are assumed to follow |
| `AotCompile.CompilePage` | dbt/aot/aot.cpp:45-68 | after any run that translated fewer than 255 blocks of a page: the regions are a partition with single entries and minimal in number; the code of a region has, for every node, a block at the node's address that stops exactly at its extent, and is entered at its first node, as `Execution.RunSteps` requires; a region of one block or of at most 74 instructions always compiles |
| `AotCompile.CompileNodes` | dbt/aot/aot.cpp:51-59 | one job for all nodes of a region |
| `AotCompile.ExtentsAreClean` | dbt/aot/aot.cpp:52-60 | extents in the graph cover the instructions that were analysed, so what is excluded up to the analyser's boundary is excluded from compilation |
| `TaskHandoff.StepKeeps` | dbt/util/fsmanager.cpp:28-82 | every step of every thread keeps the protocol invariant |
| `TaskHandoff.ExactlyOnce` | dbt/util/fsmanager.cpp:65-82 | in every run each function runs at most once, exactly once before its call returns, before Destroy takes effect if it was stored before, and never otherwise |
| `TaskHandoff.NoLostWakeup` | dbt/util/fsmanager.cpp:39-50 | before Destroy, sender and worker never sleep together on a full slot, nor a sender on an empty one without a notification to come |
| `TaskHandoff.NotifiesWorker` | dbt/util/fsmanager.cpp:75-76 | a notification by the holder of the request mutex reaches the worker, not another sender |
| `TaskHandoff.NoDeadlock` | dbt/util/fsmanager.cpp:65-82 | while a call is under way some thread can take a step |
| `TaskHandoff.CallReturns` | dbt/util/fsmanager.cpp:65-82 | whatever the schedule, a call that is pending before Destroy returns within a bounded number of steps without spurious wakeups |
| `TaskHandoff.SpuriousWakeup` | dbt/util/fsmanager.cpp:78-81 | a spurious wakeup costs three steps at most |

## Left out

- Instruction encodings of asmjit, the frame set-up and the naked-assembly stubs: modelled by their effect only.
- Constant load and store addresses of 2^31 and above: how the assembler encodes them as a displacement is not modelled.
- The LLVM back end, ELF writing and loading, stack maps, object files, checksums, logging and graph dumps.
- System call emulation, mmap bookkeeping and the trace and debug paths.
- Invalidation of translated code and exhaustion of the code and block pools.
- Memory ordering: RV32A handlers are modelled on one thread.
- Self-modifying guest code: code is a fixed function from addresses to words.
- The intrusive instruction list and condition-code tables of QuickIR: lists are sequences.
- Pointers: graph nodes, blocks and branch slots are numbers, and per-node fields are sequences indexed by them.
- Iteration over graph nodes in address order: nodes are numbered in the order in which they are recorded, which is the same when the profile is read.
- Chaining.TCache: code pointers are numbers; the byte patterns that BranchSlot writes are not modelled.
- ModuleGraphs.ModuleGraph.ComputeRegions: requires fewer than 256 nodes with the root; `Markers.NumberingFits` shows that the u8 marker mistakes numbers for marks from there on.
- ModuleGraphs.ModuleGraph.ComputeDomTree: requires fewer than 256 nodes, for the same reason.
- ModuleGraphs.ModuleGraph.ComputeRegionDomSets: requires fewer than 256 nodes, for the same reason.
- Backend.GenerateCode: for regions without helper calls it is not said exactly when the spill frame becomes full, which depends on the values that the allocator happens to spill; it never is with at most 256 locals.
- QRegAllocs.QRegAlloc.CallOp: requires at most 255 virtual registers, because its loop over a u8 index does not end with more.
- QRegAllocs.QRegAlloc.VisitInst: requires at most 255 virtual registers for helper calls, for the same reason; `Backend.GenerateCode` returns false there.
- ProfileClosure.ProfileIsClosed: runs go to aligned addresses only, and the wrap of the page end on the last page of the address space is not modelled.
- AotBuild.BuildModuleGraph: does not model the last page of the address space, whose end wraps to 0; indirect branches and links are recorded for the dump only and change nothing here.
- AotCompile.CompilePage: assumes fewer than 255 blocks on the page, not the last one, and no load into x0 without offset in them.
- AotBuild.TranslatedIsHonest: does not model ranges on the last page of the address space.
- AotBuild.SplitPage: assumes fewer than 255 blocks on the page, for the marker limit above.
- Rv32Emission.StraightFollows: excludes loads into x0 without offset, for which `Rv32Regions.ClobberingLoad` has the exact condition.
- Rv32Emission.ClobberedBase: excludes base register x0, for which `Rv32Regions.NoDestination` shows that there is no valid code.
- Compiler.CompileRegion: requires that no translated instruction is a load into x0 without offset.
