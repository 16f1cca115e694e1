/** The function prolog and epilog (X86Internal::emitProlog, emitEpilog): the
    instruction sequences that set up and tear down a frame laid out by
    finalizeFuncFrame. The emitted sequences are specified by functions of the
    frame; the emitting methods are proved to produce them, and lemmas relate the
    epilog to the prolog. */
module Prologs {
  import opened Defs
  import opened Emit
  import opened Frames

  // ---------------------------------------------------------------------------
  // Save and restore of non-GP registers
  // ---------------------------------------------------------------------------

  /** x86GetXmmMovInst: aligned moves when the save area is 16-byte aligned,
      VEX forms under AVX. */
  function XmmMoveInst(frame: FuncFrame): (id: InstId)
    reads frame
    ensures id in {Movaps, Vmovaps, Movups, Vmovups}
    ensures id in {Movaps, Vmovaps} <==> frame.HasAttr(AlignedVecSR)
    ensures IsVexForm(id) <==> frame.HasAttr(AvxEnabled)
  {
    if frame.HasAttr(AlignedVecSR) then (if frame.HasAttr(AvxEnabled) then Vmovaps else Movaps)
    else (if frame.HasAttr(AvxEnabled) then Vmovups else Movups)
  }

  /** How one register of a group is saved: the move, the register type and the
      slot size (the register's size). */
  datatype SaveInfo = SaveInfo(inst: InstId, rt: RegType, size: nat)

  /** X86Internal_setupSaveRestoreInfo for the vector, MMX and mask groups. */
  function SaveInfoOf(frame: FuncFrame, g: Group): (info: SaveInfo)
    requires g != GroupGp
    reads frame
    ensures info.size == RegTypeSize(info.rt) && GroupOf(info.rt) == g
  {
    if g == GroupVec then SaveInfo(XmmMoveInst(frame), Xmm, RegTypeSize(Xmm))
    else if g == GroupMm then SaveInfo(Movq, Mm, RegTypeSize(Mm))
    else SaveInfo(Kmovq, K, RegTypeSize(K))
  }

  /** A save `mov [zsp + offset], reg` or the matching restore `mov reg, [zsp + offset]`. */
  function SaveAt(info: SaveInfo, id: RegId, offset: int, store: bool): Inst {
    if store then Inst(info.inst, [Mem(IdSp, offset, 0), Reg(info.rt, id)])
    else Inst(info.inst, [Reg(info.rt, id), Mem(IdSp, offset, 0)])
  }

  /** The saves (or restores) of `ids`, one slot of `info.size` bytes each from `offset` up. */
  function SaveSeq(ids: seq<RegId>, info: SaveInfo, offset: int, store: bool): (r: seq<Inst>)
    ensures |r| == |ids|
  {
    if ids == [] then []
    else [SaveAt(info, ids[0], offset, store)] + SaveSeq(ids[1..], info, offset + info.size, store)
  }

  /** The saved registers of one group and how they are saved. */
  datatype SaveGroup = SaveGroup(regs: RegMask, info: SaveInfo)

  /** The vector, MMX and mask groups of the frame, in that order. */
  function SaveGroups(frame: FuncFrame): (gs: seq<SaveGroup>)
    requires frame.Valid()
    reads frame
    ensures |gs| == 3
    ensures forall i :: 0 <= i < 3 ==>
      gs[i] == SaveGroup(frame.SavedRegs(i + 1), SaveInfoOf(frame, i + 1))
  {
    [SaveGroup(frame.SavedRegs(GroupVec), SaveInfoOf(frame, GroupVec)),
     SaveGroup(frame.SavedRegs(GroupMm), SaveInfoOf(frame, GroupMm)),
     SaveGroup(frame.SavedRegs(GroupK), SaveInfoOf(frame, GroupK))]
  }

  /** The bytes `n` slots of `size` bytes take (n * size, summed slot by slot). */
  function AreaSize(n: nat, size: nat): (r: nat)
    ensures r == n * size
  {
    if n == 0 then 0 else size + AreaSize(n - 1, size)
  }

  /** The saves (or restores) of the groups `gs`, one after the other from `offset` up. */
  function NonGpSeq(gs: seq<SaveGroup>, offset: int, store: bool): seq<Inst> {
    if gs == [] then []
    else
      var ids := Ascending(gs[0].regs);
      SaveSeq(ids, gs[0].info, offset, store)
      + NonGpSeq(gs[1..], offset + AreaSize(|ids|, gs[0].info.size), store)
  }

  /** The saves (`store`) or restores of all non-GP registers the frame preserves. */
  function NonGpOf(frame: FuncFrame, store: bool): seq<Inst>
    requires frame.Valid()
    reads frame
  {
    NonGpSeq(SaveGroups(frame), frame.offsets.nonGpSaveOffset, store)
  }

  // ---------------------------------------------------------------------------
  // The prolog
  // ---------------------------------------------------------------------------

  /** The GP registers pushed and popped one by one: the saved ones but the frame
      pointer, which has its own push and pop when the frame preserves it. */
  function PushedGp(frame: FuncFrame): (m: RegMask)
    requires frame.Valid()
    reads frame
    ensures forall r :: r in m <==>
      r in frame.SavedRegs(GroupGp) && !(frame.HasAttr(HasPreservedFP) && r == IdBp)
  {
    if frame.HasAttr(HasPreservedFP) then frame.SavedRegs(GroupGp) - {IdBp} else frame.SavedRegs(GroupGp)
  }

  function Pushes(arch: Arch, ids: seq<RegId>): (r: seq<Inst>)
    ensures |r| == |ids|
  {
    if ids == [] then [] else [Inst(Push, [Gpz(arch, ids[0])])] + Pushes(arch, ids[1..])
  }

  function Pops(arch: Arch, ids: seq<RegId>): (r: seq<Inst>)
    ensures |r| == |ids|
  {
    if ids == [] then [] else [Inst(Pop, [Gpz(arch, ids[0])])] + Pops(arch, ids[1..])
  }

  /** `push zbp; mov zbp, zsp` when the frame preserves the frame pointer. */
  function FramePointerSetup(frame: FuncFrame, arch: Arch): seq<Inst>
    reads frame
  {
    if frame.HasAttr(HasPreservedFP) then
      [Inst(Push, [Gpz(arch, IdBp)]), Inst(Mov, [Gpz(arch, IdBp), Gpz(arch, IdSp)])]
    else []
  }

  /** The register the stack-arguments pointer is kept in by the prolog: the
      frame's one, or the stack pointer when it has none. */
  function SaRegOperandId(frame: FuncFrame): nat
    reads frame
  {
    if frame.saRegId != IdBad && frame.saRegId != IdSp then frame.saRegId else IdSp
  }

  /** `mov saReg, zbp` (or `mov saReg, zsp` without a frame pointer) when the
      stack arguments are addressed through a register of their own. */
  function SaRegSetup(frame: FuncFrame, arch: Arch): seq<Inst>
    reads frame
  {
    var sa := frame.saRegId;
    if sa != IdBad && sa != IdSp then
      if frame.HasAttr(HasPreservedFP) then
        (if sa != IdBp then [Inst(Mov, [Gpz(arch, sa), Gpz(arch, IdBp)])] else [])
      else [Inst(Mov, [Gpz(arch, sa), Gpz(arch, IdSp)])]
    else []
  }

  /** `and zsp, -alignment`, `sub zsp, stackAdjustment` and the store of the
      stack-arguments pointer into its slot, each when the frame calls for it. */
  function StackSetup(frame: FuncFrame, arch: Arch): seq<Inst>
    reads frame
  {
    var zsp := Gpz(arch, IdSp);
    (if frame.HasDynamicAlignment() then [Inst(And, [zsp, Imm(-(frame.alignment.final as int))])] else [])
    + (if frame.HasStackAdjustment() then [Inst(Sub, [zsp, Imm(frame.offsets.stackAdjustment)])] else [])
    + (if frame.HasDynamicAlignment() && frame.HasDAOffset() then
         [Inst(Mov, [Mem(IdSp, frame.offsets.daOffset, 0), Gpz(arch, SaRegOperandId(frame))])]
       else [])
  }

  /** What emitProlog emits for `frame` on an emitter of architecture `arch`. */
  function PrologOf(frame: FuncFrame, arch: Arch): seq<Inst>
    requires frame.Valid()
    reads frame
  {
    FramePointerSetup(frame, arch)
    + Pushes(arch, Ascending(PushedGp(frame)))
    + SaRegSetup(frame, arch)
    + StackSetup(frame, arch)
    + NonGpOf(frame, true)
  }

  // ---------------------------------------------------------------------------
  // The epilog
  // ---------------------------------------------------------------------------

  /** `emms` and `vzeroupper` when the frame asks for them. */
  function Cleanup(frame: FuncFrame): seq<Inst>
    reads frame
  {
    (if frame.HasAttr(MmxCleanup) then [Inst(Emms, [])] else [])
    + (if frame.HasAttr(AvxCleanup) then [Inst(Vzeroupper, [])] else [])
  }

  /** The offset below the frame pointer the stack pointer is restored to before
      the pops: the GP save area without the frame pointer's own slot. */
  function PopAreaOffset(frame: FuncFrame, arch: Arch): int
    reads frame
  {
    frame.offsets.gpSaveSize - GpSizeOf(arch)
  }

  /** Bring the stack pointer back to the pushed registers: from the frame
      pointer, from the dynamic-alignment slot, or by adding the adjustment. */
  function StackRestore(frame: FuncFrame, arch: Arch): seq<Inst>
    reads frame
  {
    var zsp := Gpz(arch, IdSp);
    if frame.HasAttr(HasPreservedFP) then
      var count := PopAreaOffset(frame, arch);
      if count == 0 then [Inst(Mov, [zsp, Gpz(arch, IdBp)])]
      else [Inst(Lea, [zsp, Mem(IdBp, -count, 0)])]
    else if frame.HasDynamicAlignment() && frame.HasDAOffset() then
      [Inst(Mov, [zsp, Mem(IdSp, frame.offsets.daOffset, 0)])]
    else if frame.HasStackAdjustment() then
      [Inst(Add, [zsp, Imm(frame.offsets.stackAdjustment)])]
    else []
  }

  /** `pop zbp` and `ret` (with the bytes the callee pops, if any). */
  function Return(frame: FuncFrame, arch: Arch): seq<Inst>
    reads frame
  {
    (if frame.HasAttr(HasPreservedFP) then [Inst(Pop, [Gpz(arch, IdBp)])] else [])
    + (if frame.HasCalleeStackCleanup() then [Inst(Ret, [Imm(frame.calleeStackCleanup)])] else [Inst(Ret, [])])
  }

  /** What emitEpilog emits. The pops test the ids 15 down to 0. */
  function EpilogOf(frame: FuncFrame, arch: Arch): seq<Inst>
    requires frame.Valid()
    reads frame
  {
    NonGpOf(frame, false)
    + Cleanup(frame)
    + StackRestore(frame, arch)
    + Pops(arch, Descending(PushedGp(frame), 16))
    + Return(frame, arch)
  }

  // ---------------------------------------------------------------------------
  // The emitters
  // ---------------------------------------------------------------------------

  /** X86Internal::emitProlog. */
  method EmitProlog(e: Emitter, frame: FuncFrame)
    requires frame.Valid()
    modifies e
    ensures e.trace == old(e.trace) + old(PrologOf(frame, e.arch))
  {
    ghost var t0 := e.trace;
    ghost var fpSetup := FramePointerSetup(frame, e.arch);
    ghost var pushes := Pushes(e.arch, Ascending(PushedGp(frame)));
    ghost var saSetup := SaRegSetup(frame, e.arch);
    ghost var stackSetup := StackSetup(frame, e.arch);
    var groups := SaveGroups(frame);
    var nonGpSaveOffset := frame.offsets.nonGpSaveOffset;
    ghost var saves := NonGpSeq(groups, nonGpSaveOffset, true);
    assert saves == NonGpOf(frame, true);
    ghost var prolog := PrologOf(frame, e.arch);
    assert prolog == fpSetup + pushes + saSetup + stackSetup + saves;
    var zsp := Gpz(e.arch, IdSp);
    var zbp := Gpz(e.arch, IdBp);
    var gpSaved := PushedGp(frame);
    var saRegId := frame.saRegId;
    var preservedFP := frame.HasAttr(HasPreservedFP);
    var dynamicAlignment := frame.HasDynamicAlignment();
    var alignment := frame.alignment.final;
    var stackAdjustment := frame.offsets.stackAdjustment;
    var daOffset := frame.offsets.daOffset;
    var saveDA := frame.HasDynamicAlignment() && frame.HasDAOffset();
    var saveSource := SaRegOperandId(frame);

    if preservedFP {
      e.Emit(Push, [zbp]);
      e.Emit(Mov, [zbp, zsp]);
    }
    ghost var t1 := e.trace;
    assert t1 == t0 + fpSetup;

    EmitPushes(e, gpSaved);
    ghost var t2 := e.trace;
    assert t2 == t1 + pushes;

    if saRegId != IdBad && saRegId != IdSp {
      if preservedFP {
        if saRegId != IdBp {
          e.Emit(Mov, [Gpz(e.arch, saRegId), zbp]);
        }
      } else {
        e.Emit(Mov, [Gpz(e.arch, saRegId), zsp]);
      }
    }
    ghost var t3 := e.trace;
    assert t3 == t2 + saSetup;

    ghost var alignAnd := if dynamicAlignment then [Inst(And, [zsp, Imm(-(alignment as int))])] else [];
    ghost var adjustSub := if stackAdjustment != 0 then [Inst(Sub, [zsp, Imm(stackAdjustment)])] else [];
    ghost var daStore := if saveDA then [Inst(Mov, [Mem(IdSp, daOffset, 0), Gpz(e.arch, saveSource)])] else [];
    assert stackSetup == alignAnd + adjustSub + daStore;
    if dynamicAlignment {
      e.Emit(And, [zsp, Imm(-(alignment as int))]);
    }
    assert e.trace == t3 + alignAnd;
    ghost var t3a := e.trace;
    if stackAdjustment != 0 {
      e.Emit(Sub, [zsp, Imm(stackAdjustment)]);
    }
    assert e.trace == t3a + adjustSub;
    ghost var t3b := e.trace;
    if saveDA {
      e.Emit(Mov, [Mem(IdSp, daOffset, 0), Gpz(e.arch, saveSource)]);
    }
    assert e.trace == t3b + daStore;
    ghost var t4 := e.trace;
    ConcatAssoc(t3, alignAnd, adjustSub);
    ConcatAssoc(t3, alignAnd + adjustSub, daStore);
    assert t4 == t3 + stackSetup;

    EmitNonGp(e, groups, nonGpSaveOffset, true);
    assert e.trace == t4 + saves;
    Concat5(t0, fpSetup, pushes, saSetup, stackSetup, saves);
    assert e.trace == t0 + prolog;
  }

  /** X86Internal::emitEpilog. */
  method EmitEpilog(e: Emitter, frame: FuncFrame)
    requires frame.Valid()
    modifies e
    ensures e.trace == old(e.trace) + old(EpilogOf(frame, e.arch))
  {
    ghost var t0 := e.trace;
    var groups := SaveGroups(frame);
    var nonGpSaveOffset := frame.offsets.nonGpSaveOffset;
    var gpSaved := PushedGp(frame);
    ghost var restores := NonGpSeq(groups, nonGpSaveOffset, false);
    ghost var cleanup := Cleanup(frame);
    ghost var stackRestore := StackRestore(frame, e.arch);
    ghost var pops := Pops(e.arch, Descending(gpSaved, 16));
    ghost var ret := Return(frame, e.arch);
    ghost var epilog := EpilogOf(frame, e.arch);
    assert epilog == restores + cleanup + stackRestore + pops + ret;
    var zsp := Gpz(e.arch, IdSp);
    var zbp := Gpz(e.arch, IdBp);
    var preservedFP := frame.HasAttr(HasPreservedFP);
    var mmxCleanup := frame.HasAttr(MmxCleanup);
    var avxCleanup := frame.HasAttr(AvxCleanup);
    var count := PopAreaOffset(frame, e.arch);
    var restoreDA := frame.HasDynamicAlignment() && frame.HasDAOffset();
    var daOffset := frame.offsets.daOffset;
    var stackAdjustment := frame.offsets.stackAdjustment;
    var calleeStackCleanup := frame.calleeStackCleanup;

    EmitNonGp(e, groups, nonGpSaveOffset, false);
    ghost var t1 := e.trace;

    ghost var emms := if mmxCleanup then [Inst(Emms, [])] else [];
    ghost var vzero := if avxCleanup then [Inst(Vzeroupper, [])] else [];
    if mmxCleanup {
      e.Emit(Emms, []);
    }
    assert e.trace == t1 + emms;
    ghost var t1a := e.trace;
    if avxCleanup {
      e.Emit(Vzeroupper, []);
    }
    assert e.trace == t1a + vzero;
    ConcatAssoc(t1, emms, vzero);
    ghost var t2 := e.trace;
    assert t2 == t1 + cleanup;

    if preservedFP {
      if count == 0 {
        e.Emit(Mov, [zsp, zbp]);
      } else {
        e.Emit(Lea, [zsp, Mem(IdBp, -count, 0)]);
      }
    } else if restoreDA {
      e.Emit(Mov, [zsp, Mem(IdSp, daOffset, 0)]);
    } else if stackAdjustment != 0 {
      e.Emit(Add, [zsp, Imm(stackAdjustment)]);
    }
    ghost var t3 := e.trace;
    assert t3 == t2 + stackRestore;

    EmitPops(e, gpSaved);
    ghost var t4 := e.trace;

    ghost var popBp := if preservedFP then [Inst(Pop, [zbp])] else [];
    ghost var retInst := if calleeStackCleanup != 0 then [Inst(Ret, [Imm(calleeStackCleanup)])] else [Inst(Ret, [])];
    if preservedFP {
      e.Emit(Pop, [zbp]);
    }
    assert e.trace == t4 + popBp;
    ghost var t4a := e.trace;
    if calleeStackCleanup != 0 {
      e.Emit(Ret, [Imm(calleeStackCleanup)]);
    } else {
      e.Emit(Ret, []);
    }
    assert e.trace == t4a + retInst;
    ConcatAssoc(t4, popBp, retInst);
    assert e.trace == t4 + ret;
    Concat5(t0, restores, cleanup, stackRestore, pops, ret);
    assert e.trace == t0 + epilog;
  }

  /** The `pop gp` loop: the ids 15 down to 0, each popped when its bit is set
      (the source tests bit 15 of the mask and shifts it left once per id). */
  method EmitPops(e: Emitter, gpSaved: RegMask)
    modifies e
    ensures e.trace == old(e.trace) + Pops(e.arch, Descending(gpSaved, 16))
  {
    ghost var goal := e.trace + Pops(e.arch, Descending(gpSaved, 16));
    if gpSaved != {} {
      var regId := 16;
      while regId != 0
        invariant regId <= 16
        invariant goal == e.trace + Pops(e.arch, Descending(gpSaved, regId))
      {
        regId := regId - 1;
        ghost var t := e.trace;
        PopsStep(e.arch, gpSaved, regId);
        if regId in gpSaved {
          e.Emit(Pop, [Gpz(e.arch, regId)]);
          ConcatAssoc(t, [Inst(Pop, [Gpz(e.arch, regId)])], Pops(e.arch, Descending(gpSaved, regId)));
        }
      }
    } else {
      DescendingProps(gpSaved, 16);
      EmptyIffNoElements(Descending(gpSaved, 16));
    }
    assert e.trace + [] == e.trace;
  }

  lemma PopsStep(arch: Arch, m: RegMask, n: nat)
    requires n < 16
    ensures Pops(arch, Descending(m, n + 1))
            == (if n in m then [Inst(Pop, [Gpz(arch, n)])] else []) + Pops(arch, Descending(m, n))
  {
    if n in m {
      assert Descending(m, n + 1)[1..] == Descending(m, n);
    } else {
      assert Descending(m, n + 1) == Descending(m, n);
    }
  }

  /** The `push gp` loop: a bit iterator over the mask, lowest id first. */
  method EmitPushes(e: Emitter, gpSaved: RegMask)
    modifies e
    ensures e.trace == old(e.trace) + Pushes(e.arch, Ascending(gpSaved))
  {
    var it := gpSaved;
    while it != {}
      invariant e.trace + Pushes(e.arch, Ascending(it)) == old(e.trace) + Pushes(e.arch, Ascending(gpSaved))
      decreases |it|
    {
      var id := LowestId(it);
      PushesStep(e.arch, it);
      ghost var t := e.trace;
      ghost var rest := Pushes(e.arch, Ascending(it - {id}));
      e.Emit(Push, [Gpz(e.arch, id)]);
      ConcatAssoc(t, [Inst(Push, [Gpz(e.arch, id)])], rest);
      it := it - {id};
    }
    AscendingProps(it);
  }

  /** Appending five pieces one by one is appending their concatenation. */
  lemma Concat5(t: seq<Inst>, a: seq<Inst>, b: seq<Inst>, c: seq<Inst>, d: seq<Inst>, f: seq<Inst>)
    ensures ((((t + a) + b) + c) + d) + f == t + ((((a + b) + c) + d) + f)
  {
    ConcatAssoc(t, a, b);
    ConcatAssoc(t, a + b, c);
    ConcatAssoc(t, (a + b) + c, d);
    ConcatAssoc(t, ((a + b) + c) + d, f);
  }

  lemma PushesStep(arch: Arch, it: RegMask)
    requires it != {}
    ensures Pushes(arch, Ascending(it))
            == [Inst(Push, [Gpz(arch, LowestId(it))])] + Pushes(arch, Ascending(it - {LowestId(it)}))
  {
    AscendingSplit(it);
    assert Ascending(it)[1..] == Ascending(it - {LowestId(it)});
  }

  /** The save (`store`) or restore loop over the vector, MMX and mask groups;
      the memory offset steps by the register size. The groups are the frame's
      (SaveGroups), read before any instruction is emitted. */
  method EmitNonGp(e: Emitter, groups: seq<SaveGroup>, offset0: int, store: bool)
    requires |groups| == 3
    modifies e
    ensures e.trace == old(e.trace) + NonGpSeq(groups, offset0, store)
  {
    var offset := offset0;
    ghost var goal := e.trace + NonGpSeq(groups, offset, store);
    var group: nat := 1;
    assert groups[group - 1..] == groups;
    while group < GroupVirt
      invariant 1 <= group <= 4
      invariant goal == e.trace + NonGpSeq(groups[group - 1..], offset, store)
    {
      var it := groups[group - 1].regs;
      var info := groups[group - 1].info;
      ghost var t := e.trace;
      ghost var start := offset;
      offset := EmitSaves(e, it, info, offset, store);
      GroupStep(goal, t, e.trace, groups, group - 1, start, offset, store);
      group := group + 1;
    }
    assert groups[group - 1..] == [];
    assert e.trace + [] == e.trace;
  }

  /** The inner loop over one group's mask: one move per saved register, the
      offset stepping by the slot size; returns the offset after the last slot. */
  method EmitSaves(e: Emitter, regs: RegMask, info: SaveInfo, offset0: int, store: bool)
    returns (offset: int)
    modifies e
    ensures e.trace == old(e.trace) + SaveSeq(Ascending(regs), info, offset0, store)
    ensures offset == offset0 + AreaSize(|Ascending(regs)|, info.size)
  {
    var it := regs;
    offset := offset0;
    ghost var goal := old(e.trace) + SaveSeq(Ascending(regs), info, offset0, store);
    while it != {}
      invariant goal == e.trace + SaveSeq(Ascending(it), info, offset, store)
      invariant offset + AreaSize(|Ascending(it)|, info.size) == offset0 + AreaSize(|Ascending(regs)|, info.size)
      decreases |it|
    {
      var id := LowestId(it);
      ghost var t := e.trace;
      SaveStep(goal, t, it, info, offset, store);
      e.Emit(info.inst, if store then [Mem(IdSp, offset, 0), Reg(info.rt, id)]
                        else [Reg(info.rt, id), Mem(IdSp, offset, 0)]);
      assert e.trace == t + [SaveAt(info, id, offset, store)];
      offset := offset + info.size;
      it := it - {id};
    }
    AscendingProps(it);
    assert e.trace + [] == e.trace;
  }

  /** The outer loop's step: the next group's saves come first in what is left. */
  lemma GroupStep(goal: seq<Inst>, t: seq<Inst>, t': seq<Inst>, gs: seq<SaveGroup>, i: nat,
                  offset: int, offset': int, store: bool)
    requires i < |gs|
    requires goal == t + NonGpSeq(gs[i..], offset, store)
    requires t' == t + SaveSeq(Ascending(gs[i].regs), gs[i].info, offset, store)
    requires offset' == offset + AreaSize(|Ascending(gs[i].regs)|, gs[i].info.size)
    ensures goal == t' + NonGpSeq(gs[i + 1..], offset', store)
  {
    assert gs[i..][0] == gs[i];
    assert gs[i..][1..] == gs[i + 1..];
    ConcatAssoc(t, SaveSeq(Ascending(gs[i].regs), gs[i].info, offset, store), NonGpSeq(gs[i + 1..], offset', store));
  }

  /** The inner loop's step: one register saved, the offset one slot further. */
  lemma SaveStep(goal: seq<Inst>, t: seq<Inst>, it: RegMask, info: SaveInfo, offset: int, store: bool)
    requires it != {}
    requires goal == t + SaveSeq(Ascending(it), info, offset, store)
    ensures goal == (t + [SaveAt(info, LowestId(it), offset, store)])
                    + SaveSeq(Ascending(it - {LowestId(it)}), info, offset + info.size, store)
    ensures AreaSize(|Ascending(it)|, info.size) == info.size + AreaSize(|Ascending(it - {LowestId(it)})|, info.size)
  {
    var tail := SaveSeq(Ascending(it - {LowestId(it)}), info, offset + info.size, store);
    AscendingSplit(it);
    assert Ascending(it)[1..] == Ascending(it - {LowestId(it)});
    ConcatAssoc(t, [SaveAt(info, LowestId(it), offset, store)], tail);
    assert |Ascending(it)| == 1 + |Ascending(it - {LowestId(it)})|;
  }


  // ---------------------------------------------------------------------------
  // The epilog undoes the prolog
  // ---------------------------------------------------------------------------

  /** The instruction with its two operands exchanged: a save turned into the
      matching restore. */
  function Swapped(i: Inst): Inst {
    if |i.ops| == 2 then Inst(i.id, [i.ops[1], i.ops[0]]) else i
  }

  function SwapAll(s: seq<Inst>): (r: seq<Inst>)
    ensures |r| == |s|
  {
    if s == [] then [] else [Swapped(s[0])] + SwapAll(s[1..])
  }

  lemma {:induction false} SwapAllConcat(a: seq<Inst>, b: seq<Inst>)
    ensures SwapAll(a + b) == SwapAll(a) + SwapAll(b)
  {
    if a == [] {
      assert a + b == b;
    } else {
      assert (a + b)[1..] == a[1..] + b;
      SwapAllConcat(a[1..], b);
      ConcatAssoc([Swapped(a[0])], SwapAll(a[1..]), SwapAll(b));
    }
  }

  lemma {:induction false} SaveSeqRestores(ids: seq<RegId>, info: SaveInfo, offset: int)
    ensures SaveSeq(ids, info, offset, false) == SwapAll(SaveSeq(ids, info, offset, true))
    decreases |ids|
  {
    if ids != [] {
      SaveSeqRestores(ids[1..], info, offset + info.size);
    }
  }

  /** The epilog's non-GP restores are the prolog's saves, in the same order, with
      register and memory operand exchanged: every register is reloaded from the
      very slot it was stored to. */
  lemma {:induction false} NonGpRestores(gs: seq<SaveGroup>, offset: int)
    ensures NonGpSeq(gs, offset, false) == SwapAll(NonGpSeq(gs, offset, true))
    decreases |gs|
  {
    if gs != [] {
      var ids := Ascending(gs[0].regs);
      var next := offset + AreaSize(|ids|, gs[0].info.size);
      SaveSeqRestores(ids, gs[0].info, offset);
      NonGpRestores(gs[1..], next);
      SwapAllConcat(SaveSeq(ids, gs[0].info, offset, true), NonGpSeq(gs[1..], next, true));
    }
  }

  lemma {:induction false} PushesAt(arch: Arch, ids: seq<RegId>, k: nat)
    requires k < |ids|
    ensures Pushes(arch, ids)[k] == Inst(Push, [Gpz(arch, ids[k])])
  {
    if k > 0 {
      PushesAt(arch, ids[1..], k - 1);
    }
  }

  lemma {:induction false} PopsAt(arch: Arch, ids: seq<RegId>, k: nat)
    requires k < |ids|
    ensures Pops(arch, ids)[k] == Inst(Pop, [Gpz(arch, ids[k])])
  {
    if k > 0 {
      PopsAt(arch, ids[1..], k - 1);
    }
  }

  /** The prolog pushes every saved GP register once, lowest id first, the frame
      pointer through its own push when the frame preserves it. */
  lemma PrologPushesSavedGp(frame: FuncFrame)
    requires frame.Valid()
    ensures Increasing(Ascending(PushedGp(frame)))
    ensures forall r :: r in frame.SavedRegs(GroupGp) <==>
      (r in Ascending(PushedGp(frame)) || (frame.HasAttr(HasPreservedFP) && r == IdBp && IdBp in frame.SavedRegs(GroupGp)))
  {
    AscendingProps(PushedGp(frame));
  }

  /** The epilog pops the registers the prolog pushed, in the reverse order, as
      long as they are the sixteen x86 GP registers its loop tests. */
  lemma PopsUndoPushes(frame: FuncFrame, arch: Arch)
    requires frame.Valid()
    requires forall r :: r in frame.SavedRegs(GroupGp) ==> r < 16
    ensures var pushes := Pushes(arch, Ascending(PushedGp(frame)));
            var pops := Pops(arch, Descending(PushedGp(frame), 16));
            && |pops| == |pushes|
            && forall k :: 0 <= k < |pops| ==> pops[k] == Inst(Pop, pushes[|pushes| - 1 - k].ops)
  {
    var m := PushedGp(frame);
    var a := Ascending(m);
    DescendingReversesAscending(m, 16);
    var d := Descending(m, 16);
    assert d == Reverse(a);
    forall k | 0 <= k < |d|
      ensures Pops(arch, d)[k] == Inst(Pop, Pushes(arch, a)[|a| - 1 - k].ops)
    {
      PopsAt(arch, d, k);
      PushesAt(arch, a, |a| - 1 - k);
      assert d[k] == a[|a| - 1 - k];
    }
  }

  /** With the frame pointer preserved, `lea zsp, [zbp - count]` leaves the stack
      pointer on the last pushed register: `count` is the bytes the pushes took. */
  lemma PopAreaMatchesPushes(frame: FuncFrame)
    requires frame.Valid() && frame.SaveAreasSized()
    requires frame.HasAttr(HasPreservedFP) && IdBp in frame.SavedRegs(GroupGp)
    ensures PopAreaOffset(frame, frame.arch)
            == |Pushes(frame.arch, Ascending(PushedGp(frame)))| * GpSizeOf(frame.arch)
  {
    var saved := frame.SavedRegs(GroupGp);
    var g := GpSizeOf(frame.arch);
    AscendingCard(PushedGp(frame));
    assert PushedGp(frame) == saved - {IdBp};
    assert |saved - {IdBp}| == |saved| - 1;
    var n := |saved| - 1;
    assert |saved| * g == (n + 1) * g == n * g + g;
  }

  // ---------------------------------------------------------------------------
  // The non-GP slots fill the save area
  // ---------------------------------------------------------------------------

  /** The memory offset a save or restore addresses. */
  function SlotOffset(i: Inst): int {
    if |i.ops| == 2 && i.ops[0].Mem? then i.ops[0].offset
    else if |i.ops| == 2 && i.ops[1].Mem? then i.ops[1].offset
    else 0
  }

  /** The bytes a save or restore moves: its register's size. */
  function SlotSize(i: Inst): nat {
    if |i.ops| == 2 && i.ops[0].Reg? then RegTypeSize(i.ops[0].rt)
    else if |i.ops| == 2 && i.ops[1].Reg? then RegTypeSize(i.ops[1].rt)
    else 0
  }

  /** The instructions' slots lie back to back from `lo` up to `hi`: none
      overlaps another and together they cover exactly [lo, hi). */
  predicate Packed(s: seq<Inst>, lo: int, hi: int)
    decreases |s|
  {
    if s == [] then lo == hi
    else SlotOffset(s[0]) == lo && Packed(s[1..], lo + SlotSize(s[0]), hi)
  }

  lemma {:induction false} PackedConcat(a: seq<Inst>, b: seq<Inst>, lo: int, mid: int, hi: int)
    requires Packed(a, lo, mid) && Packed(b, mid, hi)
    ensures Packed(a + b, lo, hi)
    decreases |a|
  {
    if a == [] {
      assert a + b == b;
    } else {
      assert (a + b)[1..] == a[1..] + b;
      PackedConcat(a[1..], b, lo + SlotSize(a[0]), mid, hi);
    }
  }

  lemma {:induction false} SaveSeqPacked(ids: seq<RegId>, info: SaveInfo, offset: int, store: bool)
    requires info.size == RegTypeSize(info.rt)
    ensures Packed(SaveSeq(ids, info, offset, store), offset, offset + AreaSize(|ids|, info.size))
    decreases |ids|
  {
    if ids != [] {
      SaveSeqPacked(ids[1..], info, offset + info.size, store);
      assert SaveSeq(ids, info, offset, store)[1..] == SaveSeq(ids[1..], info, offset + info.size, store);
    }
  }

  /** The bytes the groups' slots take. */
  function GroupsSize(gs: seq<SaveGroup>): nat {
    if gs == [] then 0 else AreaSize(|Ascending(gs[0].regs)|, gs[0].info.size) + GroupsSize(gs[1..])
  }

  predicate SlotsSized(gs: seq<SaveGroup>) {
    forall i :: 0 <= i < |gs| ==> gs[i].info.size == RegTypeSize(gs[i].info.rt)
  }

  lemma SlotsSizedTail(gs: seq<SaveGroup>)
    requires gs != [] && SlotsSized(gs)
    ensures SlotsSized(gs[1..])
  {
    forall i | 0 <= i < |gs| - 1
      ensures gs[1..][i].info.size == RegTypeSize(gs[1..][i].info.rt)
    {
      assert gs[1..][i] == gs[i + 1];
    }
  }

  lemma {:induction false} NonGpPacked(gs: seq<SaveGroup>, offset: int, store: bool)
    requires SlotsSized(gs)
    ensures Packed(NonGpSeq(gs, offset, store), offset, offset + GroupsSize(gs))
    decreases |gs|
  {
    if gs != [] {
      var ids := Ascending(gs[0].regs);
      var next := offset + AreaSize(|ids|, gs[0].info.size);
      assert gs[0].info.size == RegTypeSize(gs[0].info.rt);
      SaveSeqPacked(ids, gs[0].info, offset, store);
      SlotsSizedTail(gs);
      NonGpPacked(gs[1..], next, store);
      PackedConcat(SaveSeq(ids, gs[0].info, offset, store), NonGpSeq(gs[1..], next, store), offset, next,
                   offset + GroupsSize(gs));
    }
  }

  /** The frame's groups take 16 bytes per vector register and 8 per MMX or mask
      register, the size finalizeFuncFrame gives the non-GP save area. */
  lemma NonGpAreaSize(frame: FuncFrame)
    requires frame.Valid()
    ensures SlotsSized(SaveGroups(frame))
    ensures GroupsSize(SaveGroups(frame))
            == NonGpSaveSize(frame.SavedRegs(GroupVec), frame.SavedRegs(GroupMm), frame.SavedRegs(GroupK))
  {
    var gs := SaveGroups(frame);
    AscendingCard(frame.SavedRegs(GroupVec));
    AscendingCard(frame.SavedRegs(GroupMm));
    AscendingCard(frame.SavedRegs(GroupK));
    var g1 := gs[1..];
    var g2 := g1[1..];
    assert g2[1..] == [];
    assert g1[0] == gs[1] && g2[0] == gs[2];
    assert gs[0].info.size == 16 && gs[1].info.size == 8 && gs[2].info.size == 8;
    assert GroupsSize(g2) == |Ascending(gs[2].regs)| * 8;
    assert GroupsSize(g1) == |Ascending(gs[1].regs)| * 8 + GroupsSize(g2);
    assert GroupsSize(gs) == |Ascending(gs[0].regs)| * 16 + GroupsSize(g1);
  }

  /** The prolog's saves (and the epilog's restores) fill the non-GP save area of a
      finalized frame slot after slot, from its start to its end. */
  lemma NonGpSavesFillArea(frame: FuncFrame, store: bool)
    requires frame.Valid() && frame.SaveAreasSized()
    ensures Packed(NonGpOf(frame, store), frame.offsets.nonGpSaveOffset,
                   frame.offsets.nonGpSaveOffset + frame.offsets.nonGpSaveSize)
  {
    NonGpAreaSize(frame);
    NonGpPacked(SaveGroups(frame), frame.offsets.nonGpSaveOffset, store);
  }
}
