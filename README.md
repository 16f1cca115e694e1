# asmjit x86 function-frame internals, modelled in Dafny

This project models the x86 back end of asmjit's function API (`X86Internal`)
and two small containers from its base library. The x86 part covers:

- how a calling convention is resolved (`initCallConv`);
- how a function signature is lowered onto registers and stack slots (`initFuncDetail`);
- how a function frame is built and laid out (`initFuncFrame`, `finalizeFuncFrame`);
- how the frame learns what assigning the arguments needs (`argsToFuncFrame`, with
  `X86FuncArgsContext::initWorkData` and its three marking passes);
- the moves between registers and memory (`emitRegMove`, `emitArgMove`);
- the function prolog and epilog (`emitProlog`, `emitEpilog`);
- how incoming arguments are shuffled into their assigned registers and stack
  slots (`emitArgsAssignment`).

The two containers are `SmallString<N>` (an inline-or-zone string) and the
register allocator's stack slots (`RAStackSlot`, `RAStackAllocator`).

Register masks are sets of register ids below 32. OR is union, AND is
intersection, `~` is the complement within 0..31, popcount is cardinality
and `ctz` is the minimum. An emitter is an object whose `trace` grows by one
instruction per emit.

The layers follow the source:

- Value functions (`CallConvs`, `FuncDetails`, `Moves`, `Shuffles`) state what
  each routine computes.
- Classes with fields and `modifies` clauses model the objects the source
  updates in place: `FuncFrame`, `WorkData`, `X86FuncArgsContext`, the emitter,
  `SmallString` and the stack allocator.
- Their methods are proved to leave the state the value functions describe.
- Lemmas state what the source promises about those functions.

The headline results are these:

- After `emitArgsAssignment` succeeds, every argument variable is done. When no
  slot asks for a move between register groups, every argument is also in its
  assigned register (`ArgsEmission.EmitArgsAssignment`, `Assignments.ArgsAssigned`).
- The epilog restores exactly what the prolog saved, in reverse order and from
  the same slots (`Prologs.NonGpRestores`, `Prologs.PopsUndoPushes`).
- The prolog's vector, MMX and mask saves exactly fill the save area that
  `finalizeFuncFrame` reserves (`Prologs.NonGpSavesFillArea`).
- `argsToFuncFrame` marks every argument target dirty, and marks at most one
  scratch register per group besides them (`Marks.MarkedDirty`).

On Win64 the stack cursor starts at the spill-zone size, so the fifth integer
argument sits at offset 32, right after the 32-byte spill zone
(`src/asmjit/x86/x86internal.cpp:305-307`, `FuncDetailProps.Win64FiveInts`).

Where "## Findings" shows the source selecting a wrong instruction or counting
a swap that is not one, both versions are modelled. The rest of the model
(the emitting wrappers, the argument shuffle and the swap count) uses the
intended one, as "## Left out" lists member by member.

## Model

| member | source | states |
|---|---|---|
| Defs.VecRegTypeOf | src/asmjit/x86/x86internal.cpp:159-162 | a vector type of at most 16 bytes lives in an XMM register, of at most 32 in YMM, otherwise ZMM |
| Defs.AscendingProps | src/asmjit/x86/x86internal.cpp:1286-1290 | the bit iterator visits every id of the mask once, in increasing order, and nothing else |
| Defs.AscendingSplit | src/asmjit/x86/x86internal.cpp:1286-1290 | the bit iterator visits the lowest id first and then the rest of the mask |
| Defs.DescendingProps | src/asmjit/x86/x86internal.cpp:1409-1420 | the pop loop's top-down visit of the ids below n is decreasing and sees exactly the mask's ids below n |
| Defs.DescendingReversesAscending | src/asmjit/x86/x86internal.cpp:1409-1420 | the top-down visit is the bottom-up visit reversed |
| Defs.AlignUp | src/asmjit/x86/x86internal.cpp:858 | the least multiple of the alignment that is not below x |
| Defs.AlignDiff | src/asmjit/x86/x86internal.cpp:893 | the bytes x must grow by to become aligned, less than the alignment |
| Defs.LowestId | src/asmjit/x86/x86internal.cpp:656 | ctz of a non-empty mask is a member of the mask that is below every other member |
| CallConvs.InitCallConv | src/asmjit/x86/x86internal.cpp:29-145 | fails with InvalidArgument exactly for an id the switch does not list; otherwise records the id and a well-formed convention |
| CallConvs.SysV64Convention | src/asmjit/x86/x86internal.cpp:91-99 | System V: rdi, rsi, rdx, rcx, r8, r9 and xmm0-7 passed, 128-byte red zone, no spill zone, alignment 16, rbx, rsp, rbp, r12-r15 preserved |
| CallConvs.Win64Convention | src/asmjit/x86/x86internal.cpp:79-89 | Win64: rcx, rdx, r8, r9 and xmm0-3 by position, 32-byte spill zone, the Win64 strategy |
| CallConvs.X86ClassicConventions | src/asmjit/x86/x86internal.cpp:44-77 | the 32-bit conventions align to 4, preserve ebx, esp, ebp, esi, edi, and pop their arguments exactly for stdcall, thiscall and the fastcalls |
| CallConvs.LightConventionVecPreserved | src/asmjit/x86/x86internal.cpp:101-137 | a light convention of arity n leaves exactly the first n vector registers unpreserved |
| CallConvs.PassedOrderWellFormed | src/asmjit/x86/x86internal.cpp:44-137 | argument registers lie in the architecture's register file, never include the stack pointer, and are never listed twice |
| FuncDetails.LowerRet | src/asmjit/x86/x86internal.cpp:178-242 | one or two return values; where each goes is stated by FuncDetailProps.RetPlacement |
| FuncDetails.LowerDefault | src/asmjit/x86/x86internal.cpp:244-289 | one placement per argument; FuncDetailProps.DefaultCursor, DefaultIntArg and DefaultVecArg state which |
| FuncDetails.LowerWin64 | src/asmjit/x86/x86internal.cpp:291-328 | one placement per argument; FuncDetailProps.Win64Arg states which |
| FuncDetails.FuncDetail.constructor | src/asmjit/x86/x86internal.cpp:171-176 | a detail with the given convention, returns and arguments, nothing placed and no registers used |
| FuncDetails.InitFuncDetail | src/asmjit/x86/x86internal.cpp:168-332 | the detail's returns, arguments, used registers and argument stack size become those of the lowering |
| FuncDetails.PlaceArgsDefault | src/asmjit/x86/x86internal.cpp:248-288 | the default-strategy loop leaves the arguments, the used masks and the stack cursor that LowerDefault computes |
| FuncDetails.PlaceArgsWin64 | src/asmjit/x86/x86internal.cpp:292-327 | the Win64 loop leaves the arguments, the used masks and the stack cursor that LowerWin64 computes |
| FuncDetailProps.DefaultCursor | src/asmjit/x86/x86internal.cpp:244-289 | the default strategy's cursors count the register-placed values of each group, and the stack cursor is the spill zone plus the stack-placed bytes |
| FuncDetailProps.DefaultIntArg | src/asmjit/x86/x86internal.cpp:252-266 | an integer argument takes a register exactly while earlier arguments took fewer GP registers than the passed order holds, the entry at that count, GPD up to 32 bits and GPQ beyond; otherwise it sits at the spill zone plus the earlier stack bytes |
| FuncDetailProps.DefaultVecArg | src/asmjit/x86/x86internal.cpp:268-287 | a float goes on the stack without PassFloatsByVec; otherwise a float or vector takes the next vector register of the passed order |
| FuncDetailProps.Win64Arg | src/asmjit/x86/x86internal.cpp:298-326 | under Win64, argument k takes entry k of its group's passed order; a vector needs VectorCall; stack values sit at the spill zone plus the earlier stack slots |
| FuncDetailProps.UsedRegsFromPassedOrder | src/asmjit/x86/x86internal.cpp:257 | every register marked used comes from the passed order of its group |
| FuncDetailProps.UsedRegsWithinArch | src/asmjit/x86/x86internal.cpp:168-332 | for every resolved convention, the arguments use only the architecture's registers and never the stack pointer |
| FuncDetailProps.RetPlacement | src/asmjit/x86/x86internal.cpp:181-224 | a 64-bit integer return is split into eax and edx on x86 and stays in rax on x86-64; an 80-bit float returns in fp0 |
| FuncDetailProps.SysV64ThreeInts | src/asmjit/x86/x86internal.cpp:252-258 | three 64-bit integers under System V go to rdi, rsi and rdx, and use no stack |
| FuncDetailProps.Win64FiveInts | src/asmjit/x86/x86internal.cpp:298-308 | five 64-bit integers under Win64 take rcx, rdx, r8 and r9; the fifth goes at offset 32, and the stack takes 40 bytes |
| FuncDetailSources.DefaultSources | src/asmjit/x86/x86internal.cpp:244-289 | under the default strategy, every register argument holds a GP or vector passed-order entry its group's cursor has passed, and no register is taken twice |
| FuncDetailSources.Win64Sources | src/asmjit/x86/x86internal.cpp:291-328 | under the Win64 strategy, argument i in a register holds entry i of its group's passed order |
| FuncDetailSources.LoweredSourcesWellFormed | src/asmjit/x86/x86internal.cpp:168-332 | for every convention the resolver produces, the placed arguments meet what initWorkData expects of its sources: ids below 32, no register shared, none done |
| Frames.SaRegOf | src/asmjit/x86/x86internal.cpp:834-841 | the stack-arguments register is the requested one or the stack pointer; under dynamic alignment the frame pointer replaces the stack pointer |
| Frames.FinalDirtyGp | src/asmjit/x86/x86internal.cpp:829-845 | the frame pointer becomes dirty when preserved, and the SA register becomes dirty unless it is the stack pointer |
| Frames.LocalAreas | src/asmjit/x86/x86internal.cpp:856-872 | the local stack starts at the aligned call-stack end; the non-GP save area follows it, 16-aligned exactly when the alignment is at least 16 and vector registers are saved |
| Frames.GpSaveOffsetOf | src/asmjit/x86/x86internal.cpp:892-895 | padding aligns the stack at the call site, counting the GP saves and the return address, unless the frame is empty and makes no calls |
| Frames.StackAdjustmentOf | src/asmjit/x86/x86internal.cpp:896-903 | the stack adjustment is the bytes below the GP save area, rounded up to the alignment under dynamic alignment |
| Frames.FrameOffsets | src/asmjit/x86/x86internal.cpp:856-913 | a dynamic-alignment slot follows the non-GP save area exactly under dynamic alignment without a frame pointer; stack arguments lie past the return address, past the frame pointer or all saved GP registers relative to the SA register, and at no known SP offset under dynamic alignment |
| Frames.ComputeLayout | src/asmjit/x86/x86internal.cpp:826-913 | the SA register is SaRegOf's, only the GP dirty mask changes (as FinalDirtyGp says), the save areas are sized from the registers both dirty and preserved, and the offsets are FrameOffsets' |
| Frames.MinimumDynamicAlignment | src/asmjit/x86/x86internal.cpp:786-793 | the natural alignment raised to at least 16, doubled when no raise happened, kept in a byte |
| Frames.FuncFrame.constructor | src/asmjit/x86/x86internal.cpp:780 | a reset frame: no registers dirty or preserved, no SA register, nothing sized |
| Frames.FuncFrame.Reset | src/asmjit/x86/x86internal.cpp:780 | every field returns to its reset value |
| Frames.FuncFrame.AddDirtyRegs | src/asmjit/x86/x86internal.cpp:709 | group g's dirty registers grow by the given ones and nothing else changes |
| Frames.FuncFrame.SetSARegId | src/asmjit/x86/x86internal.cpp:760 | the SA register id is stored in a byte and nothing else changes |
| Frames.InitFuncFrame | src/asmjit/x86/x86internal.cpp:774-812 | the frame is reset, then takes the convention's architecture, alignments, red and spill zones, callee cleanup, used and preserved registers; the stack pointer is never preserved, and a natural alignment below 128 means no dynamic alignment |
| Frames.FinalizeFuncFrame | src/asmjit/x86/x86internal.cpp:814-916 | the frame gets the layout ComputeLayout describes, and its save areas are sized from its saved registers |
| Frames.StackPointerNeverSaved | src/asmjit/x86/x86internal.cpp:808-809 | after initFuncFrame and any sequence of addDirtyRegs calls, the stack pointer is not among the GP registers the frame saves |
| Moves.RegForMemToMemMove | src/asmjit/x86/x86internal.cpp:338-356 | the register a stack-to-stack move goes through: a GP one for integers or values that fit, otherwise the narrowest vector register, and none beyond 64 bytes |
| Moves.RegForMemToMemMoveProps | src/asmjit/x86/x86internal.cpp:345-353 | the choice fails only for a non-integer wider than 64 bytes, and the chosen register is the narrowest that holds the value |
| Moves.MemToMemMoveAlwaysValid | src/asmjit/x86/x86internal.cpp:338-356 | between two valid type ids there is always a register for a stack-to-stack move |
| Moves.RegMoveWith | src/asmjit/x86/x86internal.cpp:958-1026 | memory operands take the other side's size; the move has exactly one destination and one source |
| Moves.RegMoveLoadWidth | src/asmjit/x86/x86internal.cpp:961-1025 | a load into a register that fits the type transfers exactly the value's bytes, for integer, mask, MMX and vector types; scalar F32, F64 and F80 values are not covered |
| Moves.RegMoveStoreWidth | src/asmjit/x86/x86internal.cpp:961-1025 | a store from a register that fits the type transfers exactly the value's bytes, for integer, mask, MMX and vector types; scalar F32, F64 and F80 values are not covered |
| Moves.RegMoveVersionsAgree | src/asmjit/x86/x86internal.cpp:966-983 | the code as written differs from the intended one only for 8- and 16-bit loads from memory |
| Moves.RegMoveNarrowLoadOverreads | src/asmjit/x86/x86internal.cpp:966-983 | as written, loading an unsigned byte into al emits `mov eax, byte [mem]`, which reads four bytes |
| Moves.RegMoveShape | src/asmjit/x86/x86internal.cpp:958-975 | register ids, bases and offsets are kept; a narrow register-to-register move renames both sides to 32-bit registers |
| Moves.RegMoveVex | src/asmjit/x86/x86internal.cpp:996-1025 | VEX forms are chosen exactly for float and vector types under AVX, and for 512-bit integer vectors always |
| Moves.ArgMoveOperands | src/asmjit/x86/x86internal.cpp:1035-1238 | the move fails with InvalidState exactly for an unsupported combination; otherwise it writes the requested register and reads the given source, a memory source declared no wider than the source type |
| Moves.ArgMoveIntExtension | src/asmjit/x86/x86internal.cpp:1056-1091 | between integers, sign extension is used exactly when a signed value goes to a wider signed type; as intended, every other source narrower than 32 bits is zero-extended with movzx |
| Moves.ArgMoveIntLoadWidth | src/asmjit/x86/x86internal.cpp:1075-1091 | as intended, a load from memory into an integer register reads at most the source type's bytes, and exactly those when the destination type is at least as wide |
| Moves.ArgMoveWideMovOverreads | src/asmjit/x86/x86internal.cpp:1075-1088 | as written, a byte in memory moved into rax, and a dword in memory moved into al, both become `mov rax, byte [mem]`, which reads eight bytes |
| Moves.ArgMoveConversion | src/asmjit/x86/x86internal.cpp:1169-1202 | a float/double conversion reads the source's element type and produces the destination's |
| Moves.ArgMoveConversionSwapped | src/asmjit/x86/x86internal.cpp:1173-1187 | as written, converting one double in xmm1 to a float in xmm0 picks cvtss2sd, which turns a float into a double |
| Moves.EmitRegMove | src/asmjit/x86/x86internal.cpp:935-1033 | the emitter's trace grows by exactly the selected move |
| Moves.EmitArgMove | src/asmjit/x86/x86internal.cpp:1035-1238 | the trace grows by the selected move, or stays the same and the call fails with InvalidState |
| Prologs.XmmMoveInst | src/asmjit/x86/x86internal.cpp:151-157 | aligned moves exactly when the save area is 16-byte aligned, and VEX forms exactly under AVX |
| Prologs.SaveInfoOf | src/asmjit/x86/x86internal.cpp:1244-1264 | each group is saved through a register of that group, one slot of that register's size per register |
| Prologs.PushedGp | src/asmjit/x86/x86internal.cpp:1278-1279 | the pushed GP registers are the saved ones, minus the frame pointer when the frame preserves it |
| Prologs.EmitProlog | src/asmjit/x86/x86internal.cpp:1266-1344 | the trace grows by the frame-pointer setup, the pushes, the SA register copy, the alignment, the adjustment, the DA slot store and the non-GP saves, in that order |
| Prologs.EmitEpilog | src/asmjit/x86/x86internal.cpp:1346-1434 | the trace grows by the non-GP restores, the cleanups, the stack restore, the pops, the frame-pointer pop and `ret` |
| Prologs.EmitPushes | src/asmjit/x86/x86internal.cpp:1285-1291 | one push per id of the mask, lowest id first |
| Prologs.EmitPops | src/asmjit/x86/x86internal.cpp:1409-1421 | one pop per set bit among ids 15 down to 0, highest first |
| Prologs.EmitNonGp | src/asmjit/x86/x86internal.cpp:1322-1341 | one save per register of the vector, MMX and mask groups, the memory offset stepping by each group's slot size |
| Prologs.EmitSaves | src/asmjit/x86/x86internal.cpp:1331-1339 | one move per register of a group; the offset returned lies one slot past the last save |
| Prologs.NonGpRestores | src/asmjit/x86/x86internal.cpp:1363-1382 | the epilog's restores are the prolog's saves with the operands exchanged: each register comes back from the slot it was stored to |
| Prologs.PrologPushesSavedGp | src/asmjit/x86/x86internal.cpp:1276-1291 | the prolog pushes every saved GP register once, lowest first, with the frame pointer pushed on its own when preserved |
| Prologs.PopsUndoPushes | src/asmjit/x86/x86internal.cpp:1408-1425 | the epilog pops the pushed registers in reverse order |
| Prologs.PopAreaMatchesPushes | src/asmjit/x86/x86internal.cpp:1388-1395 | `lea zsp, [zbp - count]` puts the stack pointer on the last pushed register: count is the bytes the pushes took |
| Prologs.NonGpAreaSize | src/asmjit/x86/x86internal.cpp:852-854 | the saved groups take 16 bytes per vector register and 8 per MMX or mask register, as finalizeFuncFrame reserves |
| Prologs.NonGpSavesFillArea | src/asmjit/x86/x86internal.cpp:1322-1341 | the saves fill the non-GP save area of a finalized frame slot after slot, from start to end |
| WorkDatas.WorkData.constructor | src/asmjit/x86/x86internal.cpp:386-397 | a reset work area |
| WorkDatas.WorkData.Reset | src/asmjit/x86/x86internal.cpp:386-397 | all masks and counts are cleared and every table entry names no variable |
| WorkDatas.WorkData.AddDst | src/asmjit/x86/x86internal.cpp:568-570 | the register becomes a target, a register to shuffle and a used register |
| WorkDatas.WorkData.Assign | src/asmjit/x86/x86internal.cpp:404-410 | the free register becomes occupied and the table names the variable there |
| WorkDatas.WorkData.Reassign | src/asmjit/x86/x86internal.cpp:412-421 | the variable moves from the occupied old register into the free new one, in the mask and in the table |
| WorkDatas.WorkData.Swap | src/asmjit/x86/x86internal.cpp:423-431 | two variables trade table entries, and the mask is unchanged |
| WorkDatas.WorkData.Unassign | src/asmjit/x86/x86internal.cpp:433-439 | the register becomes free and its table entry names no variable |
| ArgsContexts.ArgsContext.constructor | src/asmjit/x86/x86internal.cpp:489-500 | no architecture, no variables, no flags, no SA variable, and four reset work areas |
| ArgsContexts.ArgsContext.AddArg | src/asmjit/x86/x86internal.cpp:526-608 | slot i becomes variable n, or the slot's error is reported, in the order the source checks |
| ArgsContexts.ArgsContext.AddTarget | src/asmjit/x86/x86internal.cpp:544-580 | a register target must be a valid, unclaimed register of its group and is claimed; a stack target needs a register to move through |
| ArgsContexts.ArgsContext.CheckRegTarget | src/asmjit/x86/x86internal.cpp:545-566 | the errors InvalidRegType, InvalidRegGroup, InvalidPhysId and OverlappedRegs, exactly when the source raises each |
| ArgsContexts.ArgsContext.AddSource | src/asmjit/x86/x86internal.cpp:582-605 | a register source occupies its register in its own group; a stack source counts one load of the target's group |
| ArgsContexts.ArgsContext.InitArchRegs | src/asmjit/x86/x86internal.cpp:509-522 | GP registers without the stack pointer (and without the frame pointer when it is preserved), and 8 or 16 vector registers, 8 MMX and 8 mask registers |
| ArgsContexts.ArgsContext.ExtractArgs | src/asmjit/x86/x86internal.cpp:524-608 | one variable per assigned slot, in slot order, or the first failing slot's error |
| ArgsContexts.ArgsContext.InitWorkRegs | src/asmjit/x86/x86internal.cpp:610-612 | each group's working registers come from its masks and the frame's dirty and preserved registers |
| ArgsContexts.ArgsContext.ChooseSaReg | src/asmjit/x86/x86internal.cpp:617-658 | the overlap checks come first; then the SA register is the frame's, else the requested free one, else the lowest available register, else NoMorePhysRegs |
| ArgsContexts.ArgsContext.PlaceSaVar | src/asmjit/x86/x86internal.cpp:660-673 | the SA variable occupies its register, which becomes a working register; a requested target becomes a target |
| ArgsContexts.ArgsContext.DetectSwaps | src/asmjit/x86/x86internal.cpp:678-698 | each variable that is half of a swap is counted in its group |
| ArgsContexts.ArgsContext.IsSwap | src/asmjit/x86/x86internal.cpp:681-692 | the swap test on the context's state, excluding a variable already in its target (ArgVars.Swap) |
| ArgsContexts.ArgsContext.InitWorkData | src/asmjit/x86/x86internal.cpp:502-701 | the context becomes the built state, or fails with the first error the source checks for |
| ArgsContexts.ArgsContext.MarkDstRegsDirty | src/asmjit/x86/x86internal.cpp:703-713 | in every group, the used registers and those to shuffle become working registers and dirty registers of the frame |
| ArgsContexts.ArgsContext.MarkScratchRegs | src/asmjit/x86/x86internal.cpp:715-754 | every group with a stack-to-stack move, and every non-GP group with a swap, gets its scratch register marked working and dirty when it has one |
| ArgsContexts.ArgsContext.MarkScratchReg | src/asmjit/x86/x86internal.cpp:728-750 | one group's scratch register, if any, becomes working and dirty |
| ArgsContexts.ArgsContext.MarkStackArgsReg | src/asmjit/x86/x86internal.cpp:756-768 | the frame's SA register becomes the SA variable's register, else the frame pointer when preserved, else stays unchanged |
| ArgsContexts.NewContext | src/asmjit/x86/x86internal.cpp:923-924 | a new context on which initWorkData ran, with its outcome |
| ArgsContexts.ArgsToFuncFrame | src/asmjit/x86/x86internal.cpp:922-929 | fails exactly as initWorkData does and then leaves the frame alone; otherwise the frame is marked by the three passes |
| ArgVars.OutOf | src/asmjit/x86/x86internal.cpp:549-574 | a target without a type id takes its register type's id, or the source's for a stack target |
| ArgVars.SaPlanProps | src/asmjit/x86/x86internal.cpp:644-657 | the SA register is chosen among the free registers; without a frame or requested choice it is the lowest free working register when there is one |
| ArgVars.SrcIdFresh | src/asmjit/x86/x86internal.cpp:582-599 | no earlier slot holds slot i's source register |
| ArgVars.DstIdsTaken | src/asmjit/x86/x86internal.cpp:564-566 | with no error before slot i, the recorded targets are exactly those earlier slots take |
| ArgVars.InPlaceIsSwapAsWritten | src/asmjit/x86/x86internal.cpp:679-697 | a register variable already in its target passes the swap test as written, though it swaps with nothing |
| ArgVars.InPlaceVecArgCounted | src/asmjit/x86/x86internal.cpp:679-697 | one xmm0 argument staying in xmm0 counts one vector swap as written, and none as intended |
| ArgVars.SwapIsTwoCycle | src/asmjit/x86/x86internal.cpp:679-697 | the intended swap test holds exactly when another variable sits in v's target and is to go to v's register, in the same group |
| ArgVars.BuiltSaVar | src/asmjit/x86/x86internal.cpp:614-674 | after initWorkData, the SA variable exists exactly when an SA register is needed, and it starts in that register |
| ArgVars.BuiltTargets | src/asmjit/x86/x86internal.cpp:564-570 | after initWorkData, a group's targets and registers to shuffle are exactly the target registers of its slots |
| Marks.DstMarkedView | src/asmjit/x86/x86internal.cpp:703-713 | a group after markDstRegsDirty: its marked registers are working registers |
| Marks.ScratchRegProps | src/asmjit/x86/x86internal.cpp:733-747 | the scratch register is never a target, avoids registers still to shuffle when it can, and is missing only when every register is working and a target |
| Marks.DirtyMarks | src/asmjit/x86/x86internal.cpp:703-754 | the two passes add all of a group's targets to its dirty registers, plus at most one more, and only in a group that needs a scratch register |
| Marks.MarkedDirty | src/asmjit/x86/x86internal.cpp:703-754 | after both passes every target is dirty, dirty registers only grow, and at most one non-target per scratch-needing group is added |
| Marks.MarkedSaRegIs | src/asmjit/x86/x86internal.cpp:756-768 | markStackArgsReg picks the SA register initWorkData chose |
| Marks.MarkedFrame | src/asmjit/x86/x86internal.cpp:922-929 | the three passes applied to a built context give a frame marked as FrameMarked describes |
| Shuffles.StackDstVar | src/asmjit/x86/x86internal.cpp:1526-1571 | the stack-target step: a register source is released and stored; a stack source is loaded into the lowest free register of the chosen class, then stored; the variable is done |
| Shuffles.StackDstsErrStays | src/asmjit/x86/x86internal.cpp:1557-1568 | phase 1 stops at its first error |
| Shuffles.StackDstsProps | src/asmjit/x86/x86internal.cpp:1526-1571 | phase 1 stores every variable with a stack target, leaves the others alone, and keeps the tables in agreement |
| Shuffles.MoveTo | src/asmjit/x86/x86internal.cpp:1609-1620 | the variable moves into the free register of its group, done exactly when that register is its target, and another pass is due |
| Shuffles.Exchange | src/asmjit/x86/x86internal.cpp:1628-1641 | two GP variables trade registers with one xchg, 64-bit when either is; v becomes done, and the other is done when it has a target |
| Shuffles.ShuffleVar | src/asmjit/x86/x86internal.cpp:1581-1662 | one visit: skip, stay pending for a cross-group target, move to a free target, exchange, or move away through a scratch register |
| Shuffles.ShufflePassErrStays | src/asmjit/x86/x86internal.cpp:1610-1633 | a shuffle pass stops at its first error |
| Shuffles.Shuffle | src/asmjit/x86/x86internal.cpp:1578-1673 | passes until nothing is pending; fails with InvalidState after two passes in a row that moved nothing |
| Shuffles.MoveToProps | src/asmjit/x86/x86internal.cpp:1609-1620 | a move keeps the tables in agreement and every other variable; v stays in its group and is done exactly in its target |
| Shuffles.ExchangeProps | src/asmjit/x86/x86internal.cpp:1628-1641 | an exchange keeps the tables in agreement and every other variable; v is done |
| Shuffles.ShuffleVarProps | src/asmjit/x86/x86internal.cpp:1581-1662 | a visit keeps agreement; when it leaves nothing pending, v is done or not in a register; a variable lands done only in its target |
| Shuffles.ShufflePassProps | src/asmjit/x86/x86internal.cpp:1580-1663 | a pass with nothing pending leaves every visited variable in a register done |
| Shuffles.ShuffleProps | src/asmjit/x86/x86internal.cpp:1578-1673 | a settled shuffle keeps agreement and leaves every variable in a register done |
| Shuffles.StackSrcVar | src/asmjit/x86/x86internal.cpp:1690-1721 | the load step: a variable on the stack is loaded into its target and done; a GP target in the SA register is deferred to a second pass the first time |
| Shuffles.StackSrcPassErrStays | src/asmjit/x86/x86internal.cpp:1714-1717 | a load pass stops at its first error |
| Shuffles.StackSrcVarVars | src/asmjit/x86/x86internal.cpp:1690-1721 | the load step touches only v: it is loaded, or deferred with a second pass newly planned |
| Shuffles.StackSrcPassVars | src/asmjit/x86/x86internal.cpp:1689-1722 | a load pass loads every variable or defers it, and only the first pass can defer |
| Shuffles.StackSrcsVars | src/asmjit/x86/x86internal.cpp:1680-1724 | phase 3 leaves every variable that was on the stack done in its target register |
| Shuffles.AssignArgs | src/asmjit/x86/x86internal.cpp:1499-1727 | phase 1 when some target is on the stack, the shuffle, then phase 3 when some source is on the stack, with the SA register worked out before phases 1 and 3 |
| Shuffles.StoredProps | src/asmjit/x86/x86internal.cpp:1521-1572 | phase 1 leaves agreeing tables, every variable placed, and done variables in their targets |
| Shuffles.AssignArgsDone | src/asmjit/x86/x86internal.cpp:1499-1727 | a settled assignment leaves every variable done; with no cross-group move, every variable is in its target |
| Assignments.SlotVarsStart | src/asmjit/x86/x86internal.cpp:526-608 | every variable of an error-free slot is placed; one with a stack target is not done; a done one is in its target |
| Assignments.BuiltStarts | src/asmjit/x86/x86internal.cpp:502-701 | initWorkData's state is where the phases start: tables agree, variables placed, done ones in place, and the flags are set whenever a target or source is on the stack |
| Assignments.ArgsAssigned | src/asmjit/x86/x86internal.cpp:1477-1727 | after initWorkData and a settled assignment, every variable is done; with no cross-group move, every argument is in its target |
| ArgsEmission.StackDstStep | src/asmjit/x86/x86internal.cpp:1527-1570 | one iteration of the stack-target loop leaves the state and the trace that StackDstVar describes, or its error |
| ArgsEmission.RegToStack | src/asmjit/x86/x86internal.cpp:1533-1539 | the register is released in its group and stored into the target slot |
| ArgsEmission.StackToStack | src/asmjit/x86/x86internal.cpp:1540-1564 | the value is loaded into the lowest free register of the chosen class, or the step fails with InvalidState |
| ArgsEmission.StoreLoaded | src/asmjit/x86/x86internal.cpp:1566-1570 | the loaded register is stored into the target slot and the variable is done |
| ArgsEmission.StackDstsLoop | src/asmjit/x86/x86internal.cpp:1526-1571 | the stack-target loop leaves what StackDsts describes |
| ArgsEmission.MoveToStep | src/asmjit/x86/x86internal.cpp:1609-1620 | the move to a free register leaves what MoveTo describes |
| ArgsEmission.ExchangeStep | src/asmjit/x86/x86internal.cpp:1628-1641 | the xchg leaves what Exchange describes |
| ArgsEmission.TradeCurs | src/asmjit/x86/x86internal.cpp:1635-1640 | v is done in its target, the other variable takes v's old register, done when it has a target |
| ArgsEmission.ShuffleVarStep | src/asmjit/x86/x86internal.cpp:1581-1662 | one visit leaves what ShuffleVar describes |
| ArgsEmission.OccupiedStep | src/asmjit/x86/x86internal.cpp:1622-1661 | the visit with an occupied target leaves what ShuffleVar describes |
| ArgsEmission.ShufflePassLoop | src/asmjit/x86/x86internal.cpp:1580-1663 | one pass leaves what ShufflePass describes |
| ArgsEmission.ShuffleLoop | src/asmjit/x86/x86internal.cpp:1578-1673 | the shuffle loop leaves what Shuffle describes, and says whether it settled |
| ArgsEmission.StackSrcStep | src/asmjit/x86/x86internal.cpp:1690-1721 | one visit of a load pass leaves what StackSrcVar describes, with the passes planned after it |
| ArgsEmission.LoadStep | src/asmjit/x86/x86internal.cpp:1711-1720 | the load into the target register, which the variable then occupies, done |
| ArgsEmission.StackSrcPassLoop | src/asmjit/x86/x86internal.cpp:1689-1722 | one load pass leaves what StackSrcPass describes |
| ArgsEmission.StackSrcsLoop | src/asmjit/x86/x86internal.cpp:1680-1724 | phase 3 leaves what StackSrcs describes |
| ArgsEmission.SaRegister | src/asmjit/x86/x86internal.cpp:1506-1514 | the SA register is the stack pointer, the frame pointer under dynamic alignment with a preserved frame pointer, else the SA variable's register or the frame's |
| ArgsEmission.StoresRun | src/asmjit/x86/x86internal.cpp:1521-1572 | phase 1 runs exactly when some target is on the stack |
| ArgsEmission.ShuffleThenLoadRun | src/asmjit/x86/x86internal.cpp:1578-1724 | the shuffle, then phase 3 when a source is on the stack, leave what ShuffleThenLoad describes |
| ArgsEmission.AssignPhases | src/asmjit/x86/x86internal.cpp:1499-1727 | the three phases leave what AssignArgs describes |
| ArgsEmission.RunPhases | src/asmjit/x86/x86internal.cpp:1499-1727 | on a built context, the phases match AssignArgs; when they settle, every variable is done, and in its target without cross-group moves |
| ArgsEmission.EmitArgsAssignment | src/asmjit/x86/x86internal.cpp:1477-1727 | initWorkData's error with nothing emitted, or the phases on the built context, with every variable done once they settle |
| SmallStrings.WholeSize | src/asmjit/base/smallstring.h:80-82 | the object is N bytes, never smaller than its base, and one of the two |
| SmallStrings.MaxEmbeddedLength | src/asmjit/base/smallstring.h:83 | the longest inline string plus its terminator fills the object after the 4-byte length |
| SmallStrings.StrLen | src/asmjit/base/smallstring.h:34-35 | the index of the first NUL: a NUL is there and none comes before it |
| SmallStrings.Zone.Dup | src/asmjit/base/smallstring.h:42 | a NUL-terminated copy when the zone has room, which it takes; otherwise nothing, and the zone is unchanged |
| SmallStrings.SmallString.constructor | src/asmjit/base/smallstring.h:90 | a new string is empty, embedded and has no data |
| SmallStrings.SmallString.Reset | src/asmjit/base/smallstring.h:28-31 | the length and the first inline bytes are cleared; the string is empty and embedded |
| SmallStrings.SmallString.Data | src/asmjit/base/smallstring.h:100-101 | getData's first getLength() characters, inline or in the zone copy |
| SmallStrings.SmallString.SetData | src/asmjit/base/smallstring.h:33-50 | fails with NoHeapMemory exactly when a long string does not fit the zone, changing nothing; otherwise the data read back is the input, inline and NUL-terminated up to kMaxEmbeddedLength |
| RAStacks.ToU8 | src/asmjit/base/rastack_p.h:47 | the conversion to an 8-bit field keeps values below 256 and is congruent modulo 256 |
| RAStacks.ToU32 | src/asmjit/base/rastack_p.h:58-61 | the conversion to a 32-bit field keeps values below 2^32 and is congruent modulo 2^32 |
| RAStacks.AddedFlags | src/asmjit/base/rastack_p.h:53-55 | after an OR, a flag is set exactly when it was set before or is added |
| RAStacks.UseCountsAdd | src/asmjit/base/rastack_p.h:57-58 | `addUseCount()` and then `addUseCount(n)` grow the count by 1 + n, modulo 2^32 |
| RAStacks.WeightReadsBack | src/asmjit/base/rastack_p.h:60-61 | after setWeight, getWeight returns a non-negative weight unchanged and a negative one as its 32-bit two's complement |
| RAStacks.RAStackSlot.SetBaseRegId | src/asmjit/base/rastack_p.h:46-47 | the id is truncated to 8 bits, kept as is below 256, and nothing else changes |
| RAStacks.RAStackSlot.AddFlags | src/asmjit/base/rastack_p.h:53-55 | the flags are OR-ed in; isRegHome and isStackArg hold exactly when they held or their bit is added |
| RAStacks.RAStackSlot.AddUseCount | src/asmjit/base/rastack_p.h:57-58 | the use count grows by n (one by default) modulo 2^32, exactly by n when that does not wrap |
| RAStacks.RAStackSlot.SetWeight | src/asmjit/base/rastack_p.h:60-61 | the signed weight is stored into the unsigned field: unchanged when not negative, plus 2^32 when negative |
| RAStacks.RAStackSlot.SetOffset | src/asmjit/base/rastack_p.h:63-64 | getOffset returns what setOffset stored |
| RAStacks.RAStackAllocator.constructor | src/asmjit/base/rastack_p.h:100-105 | no allocator, no bytes used, stack size 0, alignment 1 and no slots |
| RAStacks.RAStackAllocator.Reset | src/asmjit/base/rastack_p.h:111-117 | the allocator is recorded and the rest starts over as after construction |
| RAStacks.RAStackAllocator.GetSlotCount | src/asmjit/base/rastack_p.h:132 | the number of slots is the length of the slot vector |

## Left out

- Shuffles.Shuffle: the source loops until the shuffle settles or fails. Its termination is not proved from the source, so the model takes a pass budget (`passes`) and reports OutOfPasses once it is spent.
- Shuffles.ShuffleVar: a variable whose target is in another register group stays pending, as the source's unimplemented branch does. The results that place every argument in its target assume no slot asks for such a move (`Assignments.NoCrossGroup`).
- Debug assertions that the source relies on, such as a register being free before `assign`, become guards that fail with InvalidState. A wrong index or stale table entry that the source would use silently is therefore modelled as an error.
- After an error, the model promises only the error value and, for the frame and the string, that the state is unchanged, where the source leaves it so. It says nothing about the half-updated context on other error paths.
- `func.h`, `zone.h`, `globals.h`, `intutils.h` and the emitter classes are not part of this model.
  - FuncFrame's accessors are modelled from how this code uses them: `hasDynamicAlignment` means the final alignment is at least the minimum dynamic one, and the saved registers are the dirty ones that are preserved.
  - The emitter's `emit` always succeeds and appends one instruction to a trace. Encoding, inline comments and emitter errors are left out.
- Register operands are modelled by register type and id; `gpz(id)` is a native-size GP register with that id.
- The 32-bit signed displacement of memory operands is kept as an integer. The wrap-around of `int32_t(...)` in `cloneAdjusted` on huge offsets is not modelled.
- SmallStrings.Zone: a zone is a byte budget, and `dup` succeeds exactly when the copy with its terminator fits. How the zone grows is not part of this model.
- SmallStrings.SmallString: the union overlaying `_length`, `_embedded`, `_dummy` and `_external` is modelled as separate fields. `reset` clears the length and the first inline bytes, and the pointer becomes an empty copy.
- SmallStrings.SmallString.SetData: `_length` is a 32-bit field, so the length reads back only for strings shorter than 2^32. For longer strings the model promises that only the stored length wraps modulo 2^32.
- `kNullTerminated` is the largest `size_t` of the pointer width (2^32-1 or 2^64-1).
- RAStackAllocator's newSlot, calculateStackFrame and adjustSlotOffsets are left out, as are the zone vector's growth and the allocator's workings. Without newSlot, slots have no constructor in the model.
- ArgsContexts.ArgsContext.InitWorkData requires its sources to satisfy `SourcesWellFormed`: register ids below 32, no two sources in the same register of one group, and none done. `FuncDetailSources.LoweredSourcesWellFormed` proves that the arguments initFuncDetail places, under every convention the resolver produces, meet it.
- The members below use the intended instruction selection and swap test from "## Findings", not the code as written. `Moves.RegMoveAsWritten`, `Moves.ArgMoveAsWritten` and `ArgVars.SwapAsWritten` model the code as written, and the Findings lemmas relate the two.
- Moves.EmitRegMove: emits RegMove, so an 8- or 16-bit load from memory is `movzx`, not the `mov` the source's fall-through leaves.
- Moves.EmitArgMove: emits ArgMove, so float/double conversions convert the right way, and a narrow integer into a 64-bit register is zero-extended with `movzx` rather than moved with `mov`.
- Shuffles.StackDstVar: stores and loads through RegMove and ArgMove, not their as-written versions.
- Shuffles.MoveTo: moves through ArgMove, not ArgMoveAsWritten.
- Shuffles.StackSrcVar: loads through ArgMove, not ArgMoveAsWritten.
- Shuffles.AssignArgs: its three phases emit the intended moves, as StackDstVar, MoveTo and StackSrcVar do.
- ArgsEmission.StackDstStep: leaves StackDstVar's trace, with the intended store and load.
- ArgsEmission.RegToStack: stores through RegMove, not RegMoveAsWritten.
- ArgsEmission.StackToStack: loads through ArgMove and stores through RegMove, not their as-written versions.
- ArgsEmission.StoreLoaded: stores through RegMove, not RegMoveAsWritten.
- ArgsEmission.MoveToStep: moves through ArgMove, not ArgMoveAsWritten.
- ArgsEmission.StackSrcStep: loads through ArgMove, not ArgMoveAsWritten.
- ArgsEmission.LoadStep: loads through ArgMove, not ArgMoveAsWritten.
- ArgsEmission.EmitArgsAssignment: its trace carries the intended moves of the phases above.
- ArgsContexts.ArgsContext.IsSwap: the intended test (`ArgVars.Swap`), which also requires that the variable is not already in its target; the source's test (`ArgVars.SwapAsWritten`) lacks that condition.
- ArgsContexts.ArgsContext.DetectSwaps: counts swaps with the intended test, so a variable already in its target adds no swap, where the source counts one.
- ArgsContexts.ArgsContext.InitWorkData: its built state carries the intended swap counts.
- ArgsContexts.NewContext: its built state carries the intended swap counts, as InitWorkData's does.
- ArgsContexts.ArgsToFuncFrame: with the intended swap counts, a vector or other non-GP argument already in its target does not make its group pick a scratch register and mark it dirty, as the source does.
- Moves.ArgMoveOperands: bounds the declared size of a memory source, not the bytes the instruction reads. Those are bounded for integer destinations only (`Moves.ArgMoveIntLoadWidth`). A `movd` into an MMX or XMM register from an 8- or 16-bit memory value reads four bytes.
- `dumpFuncValue` and `dumpAssignment` produce debug text only, and are left out.

## Findings

| source | as written | input that shows it | evidently intended | confidence | as-written member | corrected member |
|---|---|---|---|---|---|---|
| src/asmjit/x86/x86internal.cpp:1173-1201 | converting doubles to floats picks `cvtss2sd`/`cvtps2pd`, and floats to doubles picks `cvtsd2ss`/`cvtpd2ps`: the mnemonic pairs are swapped | a double in xmm1 moved into a float argument in xmm0 | `cvtsd2ss` (and `cvtpd2ps`) for double to float, `cvtss2sd` (and `cvtps2pd`) for float to double | not executed | Moves.ArgMoveConversionSwapped | Moves.ArgMoveConversion |
| src/asmjit/x86/x86internal.cpp:966-983 | an 8- or 16-bit load from memory sets `movzx` and then falls through to the next case, which overwrites it with `mov` | emitRegMove(al, byte [rsp], U8): the result is `mov eax, byte [rsp]`, which reads four bytes | `movzx eax, byte [rsp]`, which reads one byte and zero-extends it | not executed | Moves.RegMoveNarrowLoadOverreads | Moves.RegMoveLoadWidth |
| src/asmjit/x86/x86internal.cpp:679-697 | the swap test does not exclude a variable already in its target register, whose table entry is itself | one xmm0 argument assigned to stay in xmm0 | no swap counted, since the variable needs no move | not executed | ArgVars.InPlaceVecArgCounted | ArgVars.SwapIsTwoCycle |
| src/asmjit/x86/x86internal.cpp:1075-1088 | a zero extension into a 64-bit register, and a move into an 8- or 16-bit register from a wider source, fall to `mov`; the register is 64-bit unless the narrower size is exactly 4, and the memory operand takes the narrower size. The comment there assumes that every source narrower than 4 bytes was already handled | a U8 in memory moved into a U64 argument in rax: `mov rax, byte [rsp]`, which reads eight bytes | `movzx eax, byte [rsp]`, which zero-extends into rax; for a narrow destination, a 32-bit `mov` | not executed | Moves.ArgMoveWideMovOverreads | Moves.ArgMoveIntLoadWidth |
