/** The stack frame of a function (FuncFrame) and its layout
    (X86Internal::initFuncFrame and X86Internal::finalizeFuncFrame). From the
    stack pointer after the prolog upwards the frame holds: the call stack
    (outgoing arguments), the local stack, the non-GP save area, the optional
    dynamic-alignment slot, padding, the GP save area and the return address. */
module Frames {
  import opened Defs
  import opened CallConvs
  import opened FuncDetails

  /** FuncFrame attributes. */
  datatype FrameAttr = HasPreservedFP | HasFuncCalls | AlignedVecSR | AvxEnabled | AvxCleanup | MmxCleanup

  /** `FuncFrame::kTagInvalidOffset`. */
  const InvalidOffset: nat := 0xFFFF_FFFF

  /** Vector registers are saved in 16-byte slots. */
  const VecSaveSize: nat := 16

  // ---------------------------------------------------------------------------
  // The layout, as a function of the frame's inputs
  // ---------------------------------------------------------------------------

  /** What finalizeFuncFrame reads from the frame. */
  datatype LayoutInput = LayoutInput(
    gpSize: nat,
    stackAlignment: nat,
    hasFP: bool,
    hasDA: bool,
    hasFuncCalls: bool,
    saRegId: nat,
    dirtyRegs: seq<RegMask>,
    preservedRegs: seq<RegMask>,
    callStackSize: nat,
    localStackSize: nat)
  {
    predicate Valid() {
      (gpSize == 4 || gpSize == 8) && IsPowerOf2(stackAlignment)
      && (saRegId == IdBad || saRegId < 32)
      && |dirtyRegs| == 4 && |preservedRegs| == 4
    }
  }

  /** The sizes and offsets finalizeFuncFrame stores, all relative to the stack
      pointer after the prolog except `saOffsetFromSA`. */
  datatype Offsets = Offsets(
    gpSaveSize: nat,
    nonGpSaveSize: nat,
    localStackOffset: nat,
    nonGpSaveOffset: nat,
    daOffset: nat,
    gpSaveOffset: nat,
    stackAdjustment: nat,
    saOffsetFromSP: nat,
    saOffsetFromSA: nat)

  /** The offsets of a frame after FuncFrame::reset(). */
  const ResetOffsets := Offsets(0, 0, 0, 0, InvalidOffset, 0, 0, 0, 0)

  /** What finalizeFuncFrame computes. */
  datatype Layout = Layout(dirtyRegs: seq<RegMask>, saRegId: RegId, alignedVecSR: bool, offsets: Offsets)

  /** The alignments a frame keeps (8-bit fields in the source). */
  datatype Alignments = Alignments(natural: nat, minimumDynamic: nat, call: nat, local: nat, final: nat)

  lemma PowerOf2Positive(a: nat)
    requires IsPowerOf2(a)
    ensures a >= 1
  {
  }

  /** The register that addresses the stack arguments: the requested one, or the
      stack pointer when none was requested; the frame pointer replaces the stack
      pointer under dynamic alignment. */
  function SaRegOf(requested: nat, hasDA: bool): (r: RegId)
    requires requested == IdBad || requested < 32
    ensures requested != IdBad && requested != IdSp ==> r == requested
    ensures (requested == IdBad || requested == IdSp) ==> r == (if hasDA then IdBp else IdSp)
  {
    var sa: RegId := if requested == IdBad then IdSp else requested;
    if hasDA && sa == IdSp then IdBp else sa
  }

  /** The dirty GP mask after finalization: the frame pointer when it is
      preserved, and the stack-arguments register unless it is the stack pointer. */
  function FinalDirtyGp(dirty: RegMask, hasFP: bool, saRegId: RegId): (m: RegMask)
    ensures dirty <= m
    ensures forall r :: r in m <==> (r in dirty || (hasFP && r == IdBp) || (saRegId != IdSp && r == saRegId))
  {
    var d := if hasFP then dirty + {IdBp} else dirty;
    if saRegId != IdSp then d + {saRegId} else d
  }

  /** Bytes of the GP save area: one GP slot per saved register. */
  function GpSaveSize(saved: RegMask, gpSize: nat): nat {
    |saved| * gpSize
  }

  /** Bytes of the non-GP save area: 16 per saved vector register, 8 per saved
      MMX or mask register. */
  function NonGpSaveSize(vec: RegMask, mm: RegMask, k: RegMask): nat {
    |vec| * VecSaveSize + |mm| * 8 + |k| * 8
  }

  /** Where the local stack and the non-GP save area start: the local stack at
      the first offset past the call stack aligned to the stack alignment; the
      save area right after the local stack, rounded up to 16 when vector
      registers are saved with aligned moves, which happens exactly when the stack
      alignment allows it and something is saved there. */
  function LocalAreas(align: nat, callStackSize: nat, localStackSize: nat, nonGpSaveSize: nat)
    : (r: (nat, bool, nat))
    requires align > 0
    ensures var (localStackOffset, alignedVecSR, nonGpSaveOffset) := r;
      && Aligned(localStackOffset, align)
      && callStackSize <= localStackOffset < callStackSize + align
      && (alignedVecSR <==> align >= VecSaveSize && nonGpSaveSize != 0)
      && (alignedVecSR ==> Aligned(nonGpSaveOffset, VecSaveSize)
                           && nonGpSaveOffset < localStackOffset + localStackSize + VecSaveSize)
      && localStackOffset + localStackSize <= nonGpSaveOffset
      && (!alignedVecSR ==> nonGpSaveOffset == localStackOffset + localStackSize)
  {
    var localStackOffset := AlignUp(callStackSize, align);
    var localEnd := localStackOffset + localStackSize;
    var alignedVecSR := align >= VecSaveSize && nonGpSaveSize != 0;
    (localStackOffset, alignedVecSR, if alignedVecSR then AlignUp(localEnd, VecSaveSize) else localEnd)
  }

  /** Where the GP save area starts, given the bytes below it (`base`): padding
      makes the stack aligned at the call site, counting the saved GP registers
      and the return address, unless the frame is empty and makes no calls. */
  function GpSaveOffsetOf(align: nat, base: nat, gpSaveSize: nat, gpSize: nat, hasFuncCalls: bool): (r: nat)
    requires align > 0
    ensures base <= r < base + align
    ensures base != 0 || hasFuncCalls ==> Aligned(r + gpSaveSize + gpSize, align)
    ensures base == 0 && !hasFuncCalls ==> r == 0
  {
    if base != 0 || hasFuncCalls then base + AlignDiff(base + gpSaveSize + gpSize, align) else base
  }

  /** The stack adjustment: the bytes below the GP save area, rounded up to the
      stack alignment under dynamic alignment. */
  function StackAdjustmentOf(align: nat, gpSaveOffset: nat, hasDA: bool): (r: nat)
    requires align > 0
    ensures !hasDA ==> r == gpSaveOffset
    ensures hasDA ==> Aligned(r, align) && gpSaveOffset <= r < gpSaveOffset + align
  {
    if hasDA then AlignUp(gpSaveOffset, align) else gpSaveOffset
  }

  /** The offsets finalizeFuncFrame computes once the save-area sizes are known,
      and whether vector registers are saved with aligned moves. */
  function FrameOffsets(align: nat, gpSize: nat, hasDA: bool, hasFP: bool, hasFuncCalls: bool,
                        callStackSize: nat, localStackSize: nat,
                        gpSaveSize: nat, nonGpSaveSize: nat): (r: (bool, Offsets))
    requires IsPowerOf2(align)
    ensures var (alignedVecSR, o) := r;
      && o.gpSaveSize == gpSaveSize && o.nonGpSaveSize == nonGpSaveSize
      && (o.localStackOffset, alignedVecSR, o.nonGpSaveOffset) ==
           LocalAreas(align, callStackSize, localStackSize, nonGpSaveSize)
      // The dynamic-alignment slot follows the non-GP save area when the stack is
      // realigned without a frame pointer; otherwise there is none.
      && var slot := hasDA && !hasFP;
      && o.daOffset == (if slot then o.nonGpSaveOffset + nonGpSaveSize else InvalidOffset)
      && o.gpSaveOffset ==
           GpSaveOffsetOf(align, o.nonGpSaveOffset + nonGpSaveSize + (if slot then gpSize else 0),
                          gpSaveSize, gpSize, hasFuncCalls)
      && o.stackAdjustment == StackAdjustmentOf(align, o.gpSaveOffset, hasDA)
      // Stack arguments lie past the return address: relative to the stack
      // pointer (unknown under dynamic alignment), or to the stack-arguments
      // register (past the frame pointer, or past all saved GP registers).
      && o.saOffsetFromSP == (if hasDA then InvalidOffset else o.gpSaveOffset + gpSaveSize + gpSize)
      && o.saOffsetFromSA == (if hasFP then 2 * gpSize else gpSize + gpSaveSize)
  {
    PowerOf2Positive(align);
    var (localStackOffset, alignedVecSR, nonGpSaveOffset) :=
      LocalAreas(align, callStackSize, localStackSize, nonGpSaveSize);
    var slot := hasDA && !hasFP;
    var daOffset := if slot then nonGpSaveOffset + nonGpSaveSize else InvalidOffset;
    var base := nonGpSaveOffset + nonGpSaveSize + (if slot then gpSize else 0);
    var gpSaveOffset := GpSaveOffsetOf(align, base, gpSaveSize, gpSize, hasFuncCalls);
    var stackAdjustment := StackAdjustmentOf(align, gpSaveOffset, hasDA);
    var saOffsetFromSP := if hasDA then InvalidOffset else gpSaveOffset + gpSaveSize + gpSize;
    var saOffsetFromSA := if hasFP then 2 * gpSize else gpSize + gpSaveSize;
    (alignedVecSR,
     Offsets(gpSaveSize, nonGpSaveSize, localStackOffset, nonGpSaveOffset, daOffset, gpSaveOffset,
             stackAdjustment, saOffsetFromSP, saOffsetFromSA))
  }

  /** The layout finalizeFuncFrame computes: the stack-arguments register, the
      dirty masks with it and the frame pointer added, the save-area sizes of the
      registers both dirty and preserved, and the offsets placed from them. */
  function ComputeLayout(inp: LayoutInput): (l: Layout)
    requires inp.Valid()
    ensures l.saRegId == SaRegOf(inp.saRegId, inp.hasDA)
    ensures |l.dirtyRegs| == 4
    ensures l.dirtyRegs[GroupGp] == FinalDirtyGp(inp.dirtyRegs[GroupGp], inp.hasFP, l.saRegId)
    ensures forall g: Group :: g != GroupGp ==> l.dirtyRegs[g] == inp.dirtyRegs[g]
    ensures l.offsets.gpSaveSize == GpSaveSize(l.dirtyRegs[GroupGp] * inp.preservedRegs[GroupGp], inp.gpSize)
    ensures l.offsets.nonGpSaveSize == NonGpSaveSize(l.dirtyRegs[GroupVec] * inp.preservedRegs[GroupVec],
                                                     l.dirtyRegs[GroupMm] * inp.preservedRegs[GroupMm],
                                                     l.dirtyRegs[GroupK] * inp.preservedRegs[GroupK])
    ensures (l.alignedVecSR, l.offsets) ==
              FrameOffsets(inp.stackAlignment, inp.gpSize, inp.hasDA, inp.hasFP, inp.hasFuncCalls,
                           inp.callStackSize, inp.localStackSize, l.offsets.gpSaveSize, l.offsets.nonGpSaveSize)
  {
    var saRegId := SaRegOf(inp.saRegId, inp.hasDA);
    var dirty := inp.dirtyRegs[GroupGp := FinalDirtyGp(inp.dirtyRegs[GroupGp], inp.hasFP, saRegId)];
    var gpSaveSize := GpSaveSize(dirty[GroupGp] * inp.preservedRegs[GroupGp], inp.gpSize);
    var nonGpSaveSize := NonGpSaveSize(dirty[GroupVec] * inp.preservedRegs[GroupVec],
                                       dirty[GroupMm] * inp.preservedRegs[GroupMm],
                                       dirty[GroupK] * inp.preservedRegs[GroupK]);
    var r := FrameOffsets(inp.stackAlignment, inp.gpSize, inp.hasDA, inp.hasFP, inp.hasFuncCalls,
                          inp.callStackSize, inp.localStackSize, gpSaveSize, nonGpSaveSize);
    Layout(dirty, saRegId, r.0, r.1)
  }

  /** Truncation to an 8-bit field. */
  function Low8(x: nat): (r: nat)
    ensures r < 256 && (x < 256 ==> r == x)
  {
    x % 256
  }

  /** Truncation to a 16-bit field. */
  function Low16(x: nat): (r: nat)
    ensures r < 0x1_0000 && (x < 0x1_0000 ==> r == x)
  {
    x % 0x1_0000
  }

  /** initFuncFrame's minimum dynamic alignment: the natural alignment, at least
      16, doubled when it already is the natural one; stored in 8 bits. */
  function MinimumDynamicAlignment(natural: nat): (r: nat)
    ensures r < 256
    ensures natural < 128 ==> r > natural && r >= 16
    ensures natural < 128 && IsPowerOf2(natural) ==> IsPowerOf2(r)
  {
    var m := Max(natural, 16);
    Low8(if m == natural then 2 * m else m)
  }

  // ---------------------------------------------------------------------------
  // FuncFrame
  // ---------------------------------------------------------------------------

  class FuncFrame {
    var arch: Arch
    var attributes: set<FrameAttr>
    var spRegId: nat
    var saRegId: nat
    var alignment: Alignments
    var redZoneSize: nat
    var spillZoneSize: nat
    var calleeStackCleanup: nat
    var callStackSize: nat
    var localStackSize: nat
    var dirtyRegs: seq<RegMask>
    var preservedRegs: seq<RegMask>
    var offsets: Offsets

    predicate Valid()
      reads this
    {
      |dirtyRegs| == 4 && |preservedRegs| == 4 && (saRegId == IdBad || saRegId < 32)
    }

    /** A frame after FuncFrame::reset(). */
    constructor ()
      ensures Valid() && IsReset()
    {
      arch := ArchNone;
      attributes := {};
      spRegId := IdBad;
      saRegId := IdBad;
      alignment := Alignments(0, 0, 0, 0, 0);
      redZoneSize := 0;
      spillZoneSize := 0;
      calleeStackCleanup := 0;
      callStackSize := 0;
      localStackSize := 0;
      dirtyRegs := [{}, {}, {}, {}];
      preservedRegs := [{}, {}, {}, {}];
      offsets := ResetOffsets;
    }

    /** The state FuncFrame::reset() leaves: every field zero, no registers,
        invalid register ids and an invalid dynamic-alignment offset. */
    predicate IsReset()
      reads this
    {
      && arch == ArchNone && attributes == {} && spRegId == IdBad && saRegId == IdBad
      && alignment == Alignments(0, 0, 0, 0, 0)
      && redZoneSize == 0 && spillZoneSize == 0 && calleeStackCleanup == 0
      && callStackSize == 0 && localStackSize == 0
      && dirtyRegs == [{}, {}, {}, {}] && preservedRegs == [{}, {}, {}, {}]
      && offsets == ResetOffsets
    }

    /** FuncFrame::reset(). */
    method Reset()
      modifies this
      ensures Valid() && IsReset()
    {
      arch := ArchNone;
      attributes := {};
      spRegId := IdBad;
      saRegId := IdBad;
      alignment := Alignments(0, 0, 0, 0, 0);
      redZoneSize := 0;
      spillZoneSize := 0;
      calleeStackCleanup := 0;
      callStackSize := 0;
      localStackSize := 0;
      dirtyRegs := [{}, {}, {}, {}];
      preservedRegs := [{}, {}, {}, {}];
      offsets := ResetOffsets;
    }

    function GpSize(): nat reads this { GpSizeOf(arch) }
    predicate HasAttr(a: FrameAttr) reads this { a in attributes }
    /** Dynamic alignment happens once the final alignment reaches the minimum dynamic one. */
    predicate HasDynamicAlignment() reads this { alignment.final >= alignment.minimumDynamic }
    predicate HasDAOffset() reads this { offsets.daOffset != InvalidOffset }
    predicate HasStackAdjustment() reads this { offsets.stackAdjustment != 0 }
    predicate HasCalleeStackCleanup() reads this { calleeStackCleanup != 0 }

    /** Registers of group g that are both dirty and callee-saved. */
    function SavedRegs(g: Group): RegMask
      requires Valid()
      reads this
    {
      dirtyRegs[g] * preservedRegs[g]
    }

    /** The GP and non-GP save areas have room for exactly the registers the
        frame saves, as finalizeFuncFrame leaves them. */
    predicate SaveAreasSized()
      requires Valid()
      reads this
    {
      && offsets.gpSaveSize == GpSaveSize(SavedRegs(GroupGp), GpSize())
      && offsets.nonGpSaveSize == NonGpSaveSize(SavedRegs(GroupVec), SavedRegs(GroupMm), SavedRegs(GroupK))
    }

    /** FuncFrame::addDirtyRegs: `regs` become dirty in group g. */
    method AddDirtyRegs(g: Group, regs: RegMask)
      requires Valid()
      modifies this`dirtyRegs
      ensures Valid() && dirtyRegs == old(dirtyRegs)[g := old(dirtyRegs)[g] + regs]
    {
      dirtyRegs := dirtyRegs[g := dirtyRegs[g] + regs];
    }

    /** FuncFrame::setSARegId: the id is kept in a byte. */
    method SetSARegId(id: nat)
      requires Valid()
      modifies this`saRegId
      ensures saRegId == Low8(id)
      ensures id < 32 ==> Valid()
    {
      saRegId := Low8(id);
    }

    /** The inputs finalizeFuncFrame reads. */
    function LayoutInputOf(): (inp: LayoutInput)
      requires Valid()
      reads this
      ensures inp.dirtyRegs == dirtyRegs && inp.preservedRegs == preservedRegs
    {
      LayoutInput(GpSize(), alignment.final, HasAttr(HasPreservedFP), HasDynamicAlignment(),
                  HasAttr(HasFuncCalls), saRegId, dirtyRegs, preservedRegs, callStackSize, localStackSize)
    }
  }

  /** X86Internal::initFuncFrame: resets the frame and copies the convention's
      properties from `func`; the stack pointer is never a saved register. */
  method InitFuncFrame(frame: FuncFrame, func: FuncDetail)
    requires func.Valid() && |func.usedRegs| == 4
    modifies frame
    ensures frame.Valid()
    ensures var cc := func.callConv; var natural := Low8(cc.naturalStackAlignment);
      && frame.arch == cc.arch && frame.spRegId == IdSp && frame.saRegId == IdBad
      && frame.alignment == Alignments(natural, MinimumDynamicAlignment(cc.naturalStackAlignment), 0, 0, natural)
      && frame.redZoneSize == Low8(cc.redZoneSize) && frame.spillZoneSize == Low8(cc.spillZoneSize)
      && frame.calleeStackCleanup == (if cc.HasFlag(CalleePopsStack) then Low16(func.argStackSize) else 0)
      && frame.dirtyRegs == func.usedRegs
      && frame.preservedRegs == cc.preservedRegs[GroupGp := cc.preservedRegs[GroupGp] - {IdSp}]
      && frame.attributes == {} && frame.callStackSize == 0 && frame.localStackSize == 0
      && frame.offsets == ResetOffsets
    ensures IdSp !in frame.preservedRegs[GroupGp]
    ensures func.callConv.naturalStackAlignment < 128 ==> !frame.HasDynamicAlignment()
  {
    var cc := func.callConv;
    frame.Reset();
    frame.arch := cc.arch;
    frame.spRegId := IdSp;
    frame.saRegId := IdBad;
    var natural := Low8(cc.naturalStackAlignment);
    frame.alignment := Alignments(natural, MinimumDynamicAlignment(cc.naturalStackAlignment), 0, 0, natural);
    frame.redZoneSize := Low8(cc.redZoneSize);
    frame.spillZoneSize := Low8(cc.spillZoneSize);
    if cc.HasFlag(CalleePopsStack) {
      frame.calleeStackCleanup := Low16(func.argStackSize);
    }
    frame.dirtyRegs := func.usedRegs;
    frame.preservedRegs := cc.preservedRegs[GroupGp := cc.preservedRegs[GroupGp] - {IdSp}];
  }

  /** X86Internal::finalizeFuncFrame: computes the layout of the frame from its
      alignment, its sizes and its dirty and preserved registers. The final
      stack alignment must be the largest of the natural, call and local ones. */
  method FinalizeFuncFrame(frame: FuncFrame)
    requires frame.Valid() && IsPowerOf2(frame.alignment.final)
    requires frame.alignment.final ==
               Max(frame.alignment.natural, Max(frame.alignment.call, frame.alignment.local))
    modifies frame`dirtyRegs, frame`spRegId, frame`saRegId, frame`attributes, frame`offsets
    ensures frame.Valid()
    ensures var l := ComputeLayout(old(frame.LayoutInputOf()));
      && frame.dirtyRegs == l.dirtyRegs && frame.saRegId == l.saRegId && frame.spRegId == IdSp
      && frame.offsets == l.offsets
      && frame.attributes == old(frame.attributes) + (if l.alignedVecSR then {AlignedVecSR} else {})
    ensures frame.SaveAreasSized()
  {
    var l := ComputeLayout(frame.LayoutInputOf());
    frame.dirtyRegs := l.dirtyRegs;
    frame.spRegId := IdSp;
    frame.saRegId := l.saRegId;
    if l.alignedVecSR {
      frame.attributes := frame.attributes + {AlignedVecSR};
    }
    frame.offsets := l.offsets;
  }

  /** After initFuncFrame, however many registers of whichever groups the
      function then marks dirty, the stack pointer is never among the GP
      registers the frame saves. */
  method StackPointerNeverSaved(frame: FuncFrame, func: FuncDetail, dirty: seq<(Group, RegMask)>)
    requires func.Valid() && |func.usedRegs| == 4
    modifies frame
    ensures frame.Valid() && IdSp !in frame.SavedRegs(GroupGp)
  {
    InitFuncFrame(frame, func);
    for k := 0 to |dirty|
      invariant frame.Valid() && IdSp !in frame.preservedRegs[GroupGp]
    {
      frame.AddDirtyRegs(dirty[k].0, dirty[k].1);
    }
  }
}
