/** Calling conventions of x86 and x86-64: which registers carry arguments and in
    which order, which registers the callee must preserve, stack alignment, the
    spill (shadow) zone and the red zone. The SysV64 values follow sections 3.2.2
    (red zone) and 3.2.3 (parameter passing) of the System V AMD64 psABI. */
module CallConvs {
  import opened Defs

  datatype Strategy = StrategyDefault | StrategyWin64

  datatype CcFlag = CalleePopsStack | PassFloatsByVec | IndirectVecArgs | VectorCall

  /** Convention ids the resolver knows, and `Unlisted(code)` for every other id
      (including the reset id 0). */
  datatype CallConvId =
    | X86StdCall | X86MsThisCall | X86MsFastCall | X86GccFastCall
    | X86GccRegParm1 | X86GccRegParm2 | X86GccRegParm3 | X86CDecl
    | X86Win64 | X86SysV64
    | X86LightCall2 | X86LightCall3 | X86LightCall4
    | X64LightCall2 | X64LightCall3 | X64LightCall4
    | Unlisted(code: nat)

  /** CallConv: `passedOrder[g]` lists the argument registers of group g in order
      (an index past the list reads as kIdBad); `preservedRegs[g]` is the
      callee-saved mask of group g. */
  datatype CallConv = CallConv(
    id: CallConvId,
    arch: Arch,
    strategy: Strategy,
    flags: set<CcFlag>,
    naturalStackAlignment: nat,
    spillZoneSize: nat,
    redZoneSize: nat,
    passedOrder: seq<seq<RegId>>,
    preservedRegs: seq<RegMask>)
  {
    predicate WellFormed() {
      |passedOrder| == 4 && |preservedRegs| == 4
    }

    predicate HasFlag(f: CcFlag) { f in flags }

    /** `_passedOrder[g].id[k]` with kIdBad read as None. */
    function PassedId(g: Group, k: nat): (r: Option<RegId>)
      requires WellFormed()
      ensures r.Some? <==> k < |passedOrder[g]|
      ensures r.Some? ==> r.value == passedOrder[g][k]
    {
      if k < |passedOrder[g]| then Some(passedOrder[g][k]) else None
    }
  }

  /** A convention record after `CallConv::reset()`. */
  const ResetCallConv := CallConv(Unlisted(0), ArchNone, StrategyDefault, {}, 0, 0, 0,
                                  [[], [], [], []], [{}, {}, {}, {}])

  predicate Listed(id: CallConvId) { !id.Unlisted? }

  /** The ids of the "light" conventions and their vector-register arity n. */
  function LightArity(id: CallConvId): nat {
    match id
    case X86LightCall2 => 2 case X64LightCall2 => 2
    case X86LightCall3 => 3 case X64LightCall3 => 3
    case X86LightCall4 => 4 case X64LightCall4 => 4
    case _ => 0
  }

  predicate IsX86Light(id: CallConvId) { id in {X86LightCall2, X86LightCall3, X86LightCall4} }
  predicate IsX64Light(id: CallConvId) { id in {X64LightCall2, X64LightCall3, X64LightCall4} }

  /** The 32-bit conventions that share the tail of the switch (label X86CallConv). */
  predicate IsX86Classic(id: CallConvId) {
    id in {X86StdCall, X86MsThisCall, X86MsFastCall, X86GccFastCall,
           X86GccRegParm1, X86GccRegParm2, X86GccRegParm3, X86CDecl}
  }

  const X86ClassicPreserved: RegMask := {IdBx, IdSp, IdBp, IdSi, IdDi}

  /** GP passed order of the 32-bit conventions. */
  function X86ClassicGpOrder(id: CallConvId): seq<RegId> {
    match id
    case X86MsThisCall => [IdCx]
    case X86MsFastCall => [IdCx, IdDx]
    case X86GccFastCall => [IdCx, IdDx]
    case X86GccRegParm1 => [IdAx]
    case X86GccRegParm2 => [IdAx, IdDx]
    case X86GccRegParm3 => [IdAx, IdDx, IdCx]
    case _ => []
  }

  function Seq8(): seq<RegId> { [0, 1, 2, 3, 4, 5, 6, 7] }

  /** X86Internal::initCallConv on a reset record. */
  function InitCallConv(ccId: CallConvId): (r: Result<CallConv>)
    ensures r.Err? <==> !Listed(ccId)
    ensures r.Err? ==> r.error == InvalidArgument
    ensures r.Ok? ==> r.value.id == ccId && r.value.WellFormed()
  {
    var cc := ResetCallConv;
    if IsX86Classic(ccId) then
      var pops := ccId in {X86StdCall, X86MsThisCall, X86MsFastCall, X86GccFastCall};
      Ok(cc.(id := ccId,
             flags := if pops then {CalleePopsStack} else {},
             passedOrder := cc.passedOrder[GroupGp := X86ClassicGpOrder(ccId)],
             naturalStackAlignment := 4,
             arch := X86,
             preservedRegs := cc.preservedRegs[GroupGp := X86ClassicPreserved]))
    else if ccId == X86Win64 then
      Ok(cc.(id := ccId,
             arch := X64,
             strategy := StrategyWin64,
             flags := {PassFloatsByVec, IndirectVecArgs},
             naturalStackAlignment := 16,
             spillZoneSize := 32,
             passedOrder := [[IdCx, IdDx, 8, 9], [0, 1, 2, 3], [], []],
             preservedRegs := [{IdBx, IdSp, IdBp, IdSi, IdDi, 12, 13, 14, 15},
                               {6, 7, 8, 9, 10, 11, 12, 13, 14, 15}, {}, {}]))
    else if ccId == X86SysV64 then
      Ok(cc.(id := ccId,
             arch := X64,
             flags := {PassFloatsByVec},
             naturalStackAlignment := 16,
             redZoneSize := 128,
             passedOrder := [[IdDi, IdSi, IdDx, IdCx, 8, 9], Seq8(), [], []],
             preservedRegs := [{IdBx, IdSp, IdBp, 12, 13, 14, 15}, {}, {}, {}]))
    else if IsX86Light(ccId) || IsX64Light(ccId) then
      Ok(LightCallConv(ccId))
    else
      Err(InvalidArgument)
  }

  /** The light conventions (shared label of the switch): GP arguments in eax,
      edx, ecx, esi, edi and vector arguments in the first eight registers;
      every GP register is preserved, and so is every vector register beyond
      the arity. */
  function LightCallConv(ccId: CallConvId): CallConv
    requires IsX86Light(ccId) || IsX64Light(ccId)
  {
    var n := LightArity(ccId);
    var x86 := IsX86Light(ccId);
    ResetCallConv.(id := ccId,
           arch := if x86 then X86 else X64,
           flags := {PassFloatsByVec},
           naturalStackAlignment := 16,
           passedOrder := [[IdAx, IdDx, IdCx, IdSi, IdDi], Seq8(), Seq8(), []],
           preservedRegs := if x86 then [Bits(8), Bits(8) - Bits(n), Bits(8), Bits(8)]
                            else [Bits(16), Complement(Bits(n)), Bits(8), Bits(8)])
  }

  /** Number of registers the architecture provides in group 0 and 1 (8 on x86, 16 on x86-64). */
  function ArchRegCount(arch: Arch): nat {
    if arch == X86 then 8 else 16
  }

  /** The System V AMD64 convention: GP arguments in rdi, rsi, rdx, rcx, r8, r9,
      vector arguments in xmm0-xmm7, a 128-byte red zone, no spill zone, 16-byte
      natural alignment, callee-saved rbx, rsp, rbp, r12-r15. */
  lemma SysV64Convention()
    ensures InitCallConv(X86SysV64).Ok?
    ensures var cc := InitCallConv(X86SysV64).value;
      && cc.passedOrder[GroupGp] == [IdDi, IdSi, IdDx, IdCx, 8, 9]
      && cc.passedOrder[GroupVec] == [0, 1, 2, 3, 4, 5, 6, 7]
      && cc.redZoneSize == 128 && cc.spillZoneSize == 0
      && cc.naturalStackAlignment == 16
      && cc.preservedRegs[GroupGp] == {IdBx, IdSp, IdBp, 12, 13, 14, 15}
      && cc.strategy == StrategyDefault && cc.arch == X64
      && cc.flags == {PassFloatsByVec}
  {
  }

  /** The Windows x64 convention: positional GP rcx, rdx, r8, r9 and xmm0-xmm3, a
      32-byte spill zone, fixed-positional strategy. */
  lemma Win64Convention()
    ensures InitCallConv(X86Win64).Ok?
    ensures var cc := InitCallConv(X86Win64).value;
      && cc.passedOrder[GroupGp] == [IdCx, IdDx, 8, 9]
      && cc.passedOrder[GroupVec] == [0, 1, 2, 3]
      && cc.spillZoneSize == 32 && cc.redZoneSize == 0
      && cc.naturalStackAlignment == 16
      && cc.strategy == StrategyWin64 && cc.arch == X64
      && cc.flags == {PassFloatsByVec, IndirectVecArgs}
      && cc.preservedRegs[GroupVec] == {6, 7, 8, 9, 10, 11, 12, 13, 14, 15}
  {
  }

  /** Every 32-bit classic convention aligns to 4, preserves ebx, esp, ebp, esi,
      edi, and has the callee pop the stack exactly for stdcall, thiscall and
      both fastcalls. */
  lemma X86ClassicConventions(ccId: CallConvId)
    requires IsX86Classic(ccId)
    ensures InitCallConv(ccId).Ok?
    ensures var cc := InitCallConv(ccId).value;
      && cc.arch == X86 && cc.naturalStackAlignment == 4
      && cc.preservedRegs[GroupGp] == X86ClassicPreserved
      && cc.passedOrder[GroupGp] == X86ClassicGpOrder(ccId)
      && cc.passedOrder[GroupVec] == []
      && (cc.HasFlag(CalleePopsStack) <==>
            ccId in {X86StdCall, X86MsThisCall, X86MsFastCall, X86GccFastCall})
  {
  }

  /** A light convention of arity n leaves exactly the first n vector registers
      unpreserved (within xmm0-xmm7 on x86, within all 32 on x86-64). */
  lemma {:induction false} LightConventionVecPreserved(ccId: CallConvId, r: RegId)
    requires IsX86Light(ccId) || IsX64Light(ccId)
    ensures InitCallConv(ccId).Ok?
    ensures 2 <= LightArity(ccId) <= 4
    ensures var cc := InitCallConv(ccId).value;
      r in cc.preservedRegs[GroupVec] <==>
        (LightArity(ccId) <= r && (IsX64Light(ccId) || r < 8))
  {
    assert InitCallConv(ccId) == Ok(LightCallConv(ccId));
    LightVecMask(ccId, r);
  }

  lemma LightVecMask(ccId: CallConvId, r: RegId)
    requires IsX86Light(ccId) || IsX64Light(ccId)
    ensures r in LightCallConv(ccId).preservedRegs[GroupVec] <==>
              (LightArity(ccId) <= r && (IsX64Light(ccId) || r < 8))
  {
    var n := LightArity(ccId);
    if IsX86Light(ccId) {
      assert LightCallConv(ccId).preservedRegs[GroupVec] == Bits(8) - Bits(n);
    } else {
      assert LightCallConv(ccId).preservedRegs[GroupVec] == Complement(Bits(n));
    }
  }

  /** Argument registers of every convention lie within the architecture's
      register file of their group, the stack pointer never carries an argument,
      and no register is listed twice. */
  lemma PassedOrderWellFormed(ccId: CallConvId, g: Group)
    requires InitCallConv(ccId).Ok?
    ensures var cc := InitCallConv(ccId).value;
      && (forall k :: 0 <= k < |cc.passedOrder[g]| ==>
            cc.passedOrder[g][k] < (if g <= GroupVec then ArchRegCount(cc.arch) else 8))
      && (g == GroupGp ==> IdSp !in cc.passedOrder[g])
      && (forall j, k :: 0 <= j < k < |cc.passedOrder[g]| ==> cc.passedOrder[g][j] != cc.passedOrder[g][k])
  {
    var cc := InitCallConv(ccId).value;
    var bound := if g <= GroupVec then ArchRegCount(cc.arch) else 8;
    if IsX86Classic(ccId) {
      ClassicOrdersOk(ccId);
      assert cc.passedOrder[g] == if g == GroupGp then X86ClassicGpOrder(ccId) else [];
    } else if ccId == X86Win64 {
      Win64OrdersOk();
      assert cc.passedOrder == [[IdCx, IdDx, 8, 9], [0, 1, 2, 3], [], []];
    } else if ccId == X86SysV64 {
      SysV64OrdersOk();
      assert cc.passedOrder == [[IdDi, IdSi, IdDx, IdCx, 8, 9], Seq8(), [], []];
    } else {
      LightOrdersOk();
      assert cc.passedOrder == [[IdAx, IdDx, IdCx, IdSi, IdDi], Seq8(), Seq8(), []];
    }
    assert OrderOk(cc.passedOrder[g], bound, g == GroupGp);
  }

  /** A passed order whose registers are below `bound`, distinct, and (for the
      GP group) never the stack pointer. */
  predicate OrderOk(s: seq<RegId>, bound: nat, gp: bool) {
    && (forall k :: 0 <= k < |s| ==> s[k] < bound)
    && (gp ==> IdSp !in s)
    && (forall j, k :: 0 <= j < k < |s| ==> s[j] != s[k])
  }

  lemma ClassicOrdersOk(ccId: CallConvId)
    ensures OrderOk(X86ClassicGpOrder(ccId), 8, true) && OrderOk([], 8, false)
  {
  }

  lemma Win64OrdersOk()
    ensures OrderOk([IdCx, IdDx, 8, 9], 16, true) && OrderOk([0, 1, 2, 3], 16, false) && OrderOk([], 8, false)
  {
  }

  lemma SysV64OrdersOk()
    ensures OrderOk([IdDi, IdSi, IdDx, IdCx, 8, 9], 16, true) && OrderOk(Seq8(), 16, false) && OrderOk([], 8, false)
  {
  }

  lemma LightOrdersOk()
    ensures OrderOk([IdAx, IdDx, IdCx, IdSi, IdDi], 8, true) && OrderOk([IdAx, IdDx, IdCx, IdSi, IdDi], 16, true)
    ensures OrderOk(Seq8(), 8, false) && OrderOk(Seq8(), 16, false) && OrderOk([], 8, false)
  {
  }
}
