/** The values X86FuncArgsContext works on, and what initWorkData computes from
    its inputs, stated declaratively: the variables it builds, the registers each
    group offers, the first error it reports, the register it picks for the
    stack-arguments pointer, and which variables its swap detection counts. */
module ArgVars {
  import opened Defs
  import opened Moves
  import opened WorkDatas

  /** `kFuncArgCountLoHi`: argument slots, each 64-bit argument split into a low and a high half. */
  const ArgCountLoHi: nat := 32

  /** `_vars[kFuncArgCountLoHi + 1]`: one variable per argument slot, and one for the SA register. */
  const VarCapacity: nat := ArgCountLoHi + 1

  /** X86FuncArgsContext::Var: where a value is now (`cur`, whose flag records
      that the value has reached its target) and where it must go (`out`). */
  datatype Var = Var(cur: FuncValue, out: FuncValue) {
    predicate IsDone() { cur.done }
  }

  const NoVar := Var(NoValue, NoValue)

  /** FuncArgsAssignment: the target of each argument slot (unlisted slots are
      unassigned) and the register requested for the stack-arguments pointer. */
  datatype ArgsAssignment = ArgsAssignment(args: seq<FuncValue>, saRegId: nat) {
    predicate WellFormed() { saRegId == IdBad || saRegId < 32 }
    function Arg(i: nat): FuncValue { if i < |args| then args[i] else NoValue }
  }

  /** FuncDetail::getArg: the placement of argument slot `i`. */
  function SrcOf(srcs: seq<FuncValue>, i: nat): FuncValue {
    if i < |srcs| then srcs[i] else NoValue
  }

  /** What initWorkData reads from the frame. */
  datatype FrameView = FrameView(
    preservedFP: bool,
    dynamicAlignment: bool,
    saRegId: nat,
    dirty: seq<RegMask>,
    preserved: seq<RegMask>)
  {
    predicate WellFormed() { |dirty| == 4 && |preserved| == 4 && (saRegId == IdBad || saRegId < 32) }
  }

  // ---------------------------------------------------------------------------
  // Registers per group
  // ---------------------------------------------------------------------------

  /** `_archRegs`: 8 GP and vector registers on 32-bit x86 and 16 otherwise,
      without the stack pointer, and without the frame pointer when the frame
      keeps it; 8 MMX and 8 mask registers. */
  function ArchRegs(arch: Arch, preservedFP: bool, g: Group): RegMask {
    var n := if arch == X86 then 8 else 16;
    if g == GroupGp then Bits(n) - {IdSp} - (if preservedFP then {IdBp} else {})
    else if g == GroupVec then Bits(n)
    else Bits(8)
  }

  lemma ArchRegsProps(arch: Arch, preservedFP: bool)
    ensures IdSp !in ArchRegs(arch, preservedFP, GroupGp)
    ensures preservedFP ==> IdBp !in ArchRegs(arch, preservedFP, GroupGp)
    ensures !preservedFP ==> IdBp in ArchRegs(arch, preservedFP, GroupGp)
    ensures forall g: Group, r :: r in ArchRegs(arch, preservedFP, g) ==> r < (if arch == X86 || g >= 2 then 8 else 16)
    ensures forall g: Group, r: RegId :: g != GroupGp && r < (if arch == X86 || g >= 2 then 8 else 16) ==> r in ArchRegs(arch, preservedFP, g)
  {
  }

  /** `_workRegs` before the SA register: the group's registers that are dirty
      already or not callee-saved, plus every target and every occupied register. */
  function WorkRegsOf(arch: RegMask, dirty: RegMask, preserved: RegMask, dst: RegMask, occupied: RegMask): RegMask {
    (arch * (dirty + Complement(preserved))) + dst + occupied
  }

  // ---------------------------------------------------------------------------
  // The variables of the arguments
  // ---------------------------------------------------------------------------

  /** Two placements in the same register of the same group. */
  predicate SameReg(a: FuncValue, b: FuncValue) {
    a.IsReg() && b.IsReg() && GroupOf(a.loc.regType) == GroupOf(b.loc.regType) && a.loc.regId == b.loc.regId
  }

  /** The target with its type id filled in: from the register type for a
      register target, from the source for a stack target. */
  function OutOf(src: FuncValue, dst: FuncValue): (out: FuncValue)
    ensures out.loc == dst.loc && out.done == dst.done
    ensures dst.HasTypeId() ==> out == dst
    ensures !dst.HasTypeId() && dst.IsReg() ==> out.typeId == TypeIdOfRegType(dst.loc.regType)
    ensures !dst.HasTypeId() && !dst.IsReg() ==> out.typeId == src.typeId
  {
    if dst.HasTypeId() then dst
    else if dst.IsReg() then dst.(typeId := TypeIdOfRegType(dst.loc.regType))
    else dst.(typeId := src.typeId)
  }

  /** The variable of one argument: it is done from the start when it already
      sits in its target register. */
  function ArgVar(src: FuncValue, dst: FuncValue): Var {
    Var(src.(done := src.done || SameReg(src, dst)), OutOf(src, dst))
  }

  /** The variables of the assigned slots below `n`, in slot order. */
  function SlotVars(srcs: seq<FuncValue>, a: ArgsAssignment, n: nat): seq<Var> {
    if n == 0 then []
    else SlotVars(srcs, a, n - 1) + (if a.Arg(n - 1).IsAssigned() then [ArgVar(SrcOf(srcs, n - 1), a.Arg(n - 1))] else [])
  }

  /** A placement in register group g with an id a 32-bit mask can hold. */
  predicate RegIn(v: FuncValue, g: Group) {
    v.IsReg() && GroupOf(v.loc.regType) == g && v.loc.regId < 32
  }

  /** Target registers of group g among the slots below `n`. */
  function DstIds(a: ArgsAssignment, n: nat, g: Group): RegMask {
    if n == 0 then {}
    else DstIds(a, n - 1, g) + (if RegIn(a.Arg(n - 1), g) then {a.Arg(n - 1).loc.regId as RegId} else {})
  }

  /** Source registers of group g of the assigned slots below `n`. */
  function SrcIds(srcs: seq<FuncValue>, a: ArgsAssignment, n: nat, g: Group): RegMask {
    if n == 0 then {}
    else SrcIds(srcs, a, n - 1, g)
         + (if a.Arg(n - 1).IsAssigned() && RegIn(SrcOf(srcs, n - 1), g) then {SrcOf(srcs, n - 1).loc.regId as RegId} else {})
  }

  /** Some assigned slot below `n` is passed on the stack. */
  predicate StackSrc(srcs: seq<FuncValue>, a: ArgsAssignment, n: nat) {
    n > 0 && (StackSrc(srcs, a, n - 1) || (a.Arg(n - 1).IsAssigned() && !SrcOf(srcs, n - 1).IsReg()))
  }

  /** Assigned slots below `n` with a register target of group g and a stack source. */
  function StackLoads(srcs: seq<FuncValue>, a: ArgsAssignment, n: nat, g: Group): nat {
    if n == 0 then 0
    else StackLoads(srcs, a, n - 1, g) + (if RegIn(a.Arg(n - 1), g) && !SrcOf(srcs, n - 1).IsReg() then 1 else 0)
  }

  /** The group a stack-to-stack move of this argument goes through. */
  function MemMoveGroup(arch: Arch, src: FuncValue, dst: FuncValue): Option<Group> {
    var ri := RegForMemToMemMove(arch, OutOf(src, dst).typeId, src.typeId);
    if ri.Some? && GroupOf(ri.value) < 4 then Some(GroupOf(ri.value) as Group) else None
  }

  /** The group of the register a stack target of this slot moves through. */
  function StackDstOf(arch: Arch, src: FuncValue, dst: FuncValue): set<Group> {
    var mg := MemMoveGroup(arch, src, dst);
    if dst.IsStack() && mg.Some? then {mg.value} else {}
  }

  /** `_stackDstMask`: the groups stack targets below `n` move through. */
  function StackDstGroups(arch: Arch, srcs: seq<FuncValue>, a: ArgsAssignment, n: nat): set<Group> {
    if n == 0 then {}
    else StackDstGroups(arch, srcs, a, n - 1) + StackDstOf(arch, SrcOf(srcs, n - 1), a.Arg(n - 1))
  }

  /** A group's masks and counters after the slots below `i` were extracted. */
  function ExtractedView(arch: Arch, fp: bool, srcs: seq<FuncValue>, a: ArgsAssignment, i: nat, g: Group): WorkView {
    var d := DstIds(a, i, g);
    WorkView(ArchRegs(arch, fp, g), {}, d, SrcIds(srcs, a, i, g), d, d, 0, StackLoads(srcs, a, i, g))
  }

  /** The target of a slot is recorded as used, as a destination and as one to shuffle. */
  function TargetView(v: WorkView, g: Group, dst: FuncValue): WorkView {
    if RegIn(dst, g) then
      var d: RegMask := {dst.loc.regId as RegId};
      v.(usedRegs := v.usedRegs + d, dstRegs := v.dstRegs + d, dstShuf := v.dstShuf + d)
    else v
  }

  /** The source of a slot occupies its register, or counts as a stack load of the target's group. */
  function SourceView(v: WorkView, g: Group, dst: FuncValue, src: FuncValue): WorkView {
    if RegIn(src, g) then v.(assignedRegs := v.assignedRegs + {src.loc.regId as RegId})
    else if RegIn(dst, g) && !src.IsReg() then v.(numStackArgs := v.numStackArgs + 1)
    else v
  }

  /** Extracting an assigned slot records its target and then its source. */
  lemma ExtractedViewStep(arch: Arch, fp: bool, srcs: seq<FuncValue>, a: ArgsAssignment, i: nat, g: Group)
    requires a.Arg(i).IsAssigned()
    ensures ExtractedView(arch, fp, srcs, a, i + 1, g)
            == SourceView(TargetView(ExtractedView(arch, fp, srcs, a, i, g), g, a.Arg(i)), g, a.Arg(i), SrcOf(srcs, i))
  {
  }

  /** An unassigned slot changes nothing. */
  lemma ExtractedSkip(arch: Arch, fp: bool, srcs: seq<FuncValue>, a: ArgsAssignment, i: nat)
    requires !a.Arg(i).IsAssigned()
    ensures forall g: Group :: ExtractedView(arch, fp, srcs, a, i + 1, g) == ExtractedView(arch, fp, srcs, a, i, g)
    ensures SlotVars(srcs, a, i + 1) == SlotVars(srcs, a, i)
    ensures StackSrc(srcs, a, i + 1) == StackSrc(srcs, a, i)
    ensures StackDstGroups(arch, srcs, a, i + 1) == StackDstGroups(arch, srcs, a, i)
  {
    forall g: Group
      ensures ExtractedView(arch, fp, srcs, a, i + 1, g) == ExtractedView(arch, fp, srcs, a, i, g)
    {
      assert !RegIn(a.Arg(i), g);
    }
  }

  // ---------------------------------------------------------------------------
  // Errors
  // ---------------------------------------------------------------------------

  /** Some slot below `i` targets register `id` of group g. */
  predicate TargetTaken(a: ArgsAssignment, i: nat, g: Group, id: nat) {
    exists j :: 0 <= j < i && a.Arg(j).IsReg() && GroupOf(a.Arg(j).loc.regType) == g && a.Arg(j).loc.regId == id
  }

  function SrcError(src: FuncValue): Option<Error> {
    if src.IsReg() && GroupOf(src.loc.regType) >= 4 then Some(InvalidState) else None
  }

  /** The error initWorkData reports for the register target of slot `i`: a
      type outside the table, a group without work area, an id outside the
      architecture's registers, or a register an earlier slot already targets. */
  function RegTargetError(arch: Arch, preservedFP: bool, a: ArgsAssignment, i: nat): Option<Error>
    requires a.Arg(i).IsReg()
  {
    var rt := a.Arg(i).loc.regType;
    var id := a.Arg(i).loc.regId;
    if rt == BadType then Some(InvalidRegType)
    else if GroupOf(rt) >= 4 then Some(InvalidRegGroup)
    else if id >= 32 || id !in ArchRegs(arch, preservedFP, GroupOf(rt) as Group) then Some(InvalidPhysId)
    else if TargetTaken(a, i, GroupOf(rt) as Group, id) then Some(OverlappedRegs)
    else None
  }

  /** The error initWorkData reports for the target of slot `i`; a stack target
      fails only when no register can carry the value between stack slots. */
  function TargetError(arch: Arch, preservedFP: bool, a: ArgsAssignment, i: nat, src: FuncValue): Option<Error> {
    var dst := a.Arg(i);
    if dst.IsReg() then RegTargetError(arch, preservedFP, a, i)
    else if MemMoveGroup(arch, src, dst).None? then Some(InvalidState)
    else None
  }

  /** The error initWorkData reports for slot `i`, when no earlier slot failed. */
  function ArgError(arch: Arch, preservedFP: bool, srcs: seq<FuncValue>, a: ArgsAssignment, i: nat): Option<Error> {
    var dst := a.Arg(i);
    var src := SrcOf(srcs, i);
    if !dst.IsAssigned() then None
    else if !src.IsAssigned() then Some(InvalidState)
    else
      var t := TargetError(arch, preservedFP, a, i, src);
      if t.Some? then t else SrcError(src)
  }

  /** The first error among the slots below `n`. */
  function FirstArgError(arch: Arch, preservedFP: bool, srcs: seq<FuncValue>, a: ArgsAssignment, n: nat): Option<Error> {
    if n == 0 then None
    else
      var e := FirstArgError(arch, preservedFP, srcs, a, n - 1);
      if e.Some? then e else ArgError(arch, preservedFP, srcs, a, n - 1)
  }

  // ---------------------------------------------------------------------------
  // The stack-arguments (SA) register
  // ---------------------------------------------------------------------------

  /** The register the SA variable starts in, None when no SA variable is needed:
      the frame's choice, else the requested target when it is free, else the
      lowest free working register, else the lowest register that is not a working
      one. A frame choice that is occupied, or a request that is some argument's
      target, is an overlap. */
  function SaPlan(saCur: nat, saOut: nat, required: bool, arch: RegMask, work: RegMask,
                  occupied: RegMask, dst: RegMask): Result<Option<RegId>>
    requires saCur == IdBad || saCur < 32
    requires saOut == IdBad || saOut < 32
  {
    if saCur != IdBad && saCur in occupied then Err(OverlappedRegs)
    else if saOut != IdBad && saOut in dst then Err(OverlappedRegs)
    else if !required && saOut == IdBad then Ok(None)
    else if saCur != IdBad then Ok(Some(saCur as RegId))
    else if saOut != IdBad && saOut !in occupied then Ok(Some(saOut as RegId))
    else
      var avail := if work - occupied != {} then work - occupied else arch - work;
      if avail == {} then Err(NoMorePhysRegs) else Ok(Some(LowestId(avail)))
  }

  /** The SA register is chosen among the free ones; with no frame choice and no
      usable request it is the lowest free working register when there is one. */
  lemma SaPlanProps(saCur: nat, saOut: nat, required: bool, arch: RegMask, work: RegMask,
                    occupied: RegMask, dst: RegMask)
    requires saCur == IdBad || saCur < 32
    requires saOut == IdBad || saOut < 32
    requires occupied <= work
    ensures var p := SaPlan(saCur, saOut, required, arch, work, occupied, dst);
      && (p.Ok? && p.value.Some? ==> p.value.value !in occupied)
      && (p.Ok? && p.value.None? <==> !required && saOut == IdBad && (saCur == IdBad || saCur !in occupied))
      && (p == Err(NoMorePhysRegs) <==>
            && (saCur == IdBad || saCur !in occupied) && (saOut == IdBad || saOut !in dst)
            && (required || saOut != IdBad) && saCur == IdBad && (saOut == IdBad || saOut in occupied)
            && work <= occupied && arch <= work)
      && (p.Ok? && p.value.Some? && saCur == IdBad && (saOut == IdBad || saOut in occupied) && work - occupied != {} ==>
            p.value.value in work - occupied && forall q :: q in work - occupied ==> p.value.value <= q)
  {
    var p := SaPlan(saCur, saOut, required, arch, work, occupied, dst);
    if work - occupied == {} && arch - work == {} {
      forall r | r in arch ensures r in work { assert r !in arch - work; }
      forall r | r in work ensures r in occupied { assert r !in work - occupied; }
    }
    if work <= occupied && arch <= work {
      assert work - occupied == {} && arch - work == {};
    }
  }

  // ---------------------------------------------------------------------------
  // The outcome of initWorkData
  // ---------------------------------------------------------------------------

  /** The pointer-sized register type and type id. */
  function PtrRegType(arch: Arch): RegType { if arch == X86 then Gpd else Gpq }
  function PtrTypeId(arch: Arch): TypeId { if arch == X86 then U32 else U64 }

  /** The SA variable: in `cur`, a pointer-sized GP register; done at once
      when no target register is requested. */
  function SaVar(arch: Arch, cur: RegId, out: nat): Var {
    Var(FuncValue(InReg(PtrRegType(arch), cur), PtrTypeId(arch), out == IdBad),
        if out == IdBad then NoValue else FuncValue(InReg(PtrRegType(arch), out), PtrTypeId(arch), false))
  }

  /** An SA variable is needed for stack arguments under a dynamically aligned
      frame that does not keep the frame pointer. */
  predicate SaRequired(fv: FrameView, srcs: seq<FuncValue>, a: ArgsAssignment) {
    StackSrc(srcs, a, ArgCountLoHi) && fv.dynamicAlignment && !fv.preservedFP
  }

  function GpWorkRegs(arch: Arch, fv: FrameView, srcs: seq<FuncValue>, a: ArgsAssignment): RegMask
    requires fv.WellFormed()
  {
    WorkRegsOf(ArchRegs(arch, fv.preservedFP, GroupGp), fv.dirty[GroupGp], fv.preserved[GroupGp],
               DstIds(a, ArgCountLoHi, GroupGp), SrcIds(srcs, a, ArgCountLoHi, GroupGp))
  }

  function SaPlanOf(arch: Arch, fv: FrameView, srcs: seq<FuncValue>, a: ArgsAssignment): Result<Option<RegId>>
    requires fv.WellFormed() && a.WellFormed()
  {
    SaPlan(fv.saRegId, a.saRegId, SaRequired(fv, srcs, a), ArchRegs(arch, fv.preservedFP, GroupGp),
           GpWorkRegs(arch, fv, srcs, a), SrcIds(srcs, a, ArgCountLoHi, GroupGp), DstIds(a, ArgCountLoHi, GroupGp))
  }

  /** initWorkData's result: the first failing slot's error, else the SA register's. */
  function InitOutcome(arch: Arch, fv: FrameView, srcs: seq<FuncValue>, a: ArgsAssignment): Result<()>
    requires fv.WellFormed() && a.WellFormed()
  {
    var e := FirstArgError(arch, fv.preservedFP, srcs, a, ArgCountLoHi);
    if e.Some? then Err(e.value)
    else
      var p := SaPlanOf(arch, fv, srcs, a);
      if p.Err? then Err(p.error) else Ok(())
  }

  // ---------------------------------------------------------------------------
  // Swap detection
  // ---------------------------------------------------------------------------

  predicate TablesShaped(tables: seq<seq<nat>>) {
    |tables| == 4 && forall g :: 0 <= g < 4 ==> |tables[g]| == 32
  }

  /** The group of a register-to-register variable that stays in its group. */
  predicate RegToReg(x: Var) {
    && x.cur.IsReg() && x.out.IsReg()
    && GroupOf(x.cur.loc.regType) == GroupOf(x.out.loc.regType) < 4
    && x.cur.loc.regId < 32 && x.out.loc.regId < 32
  }

  /** The variable occupying the target of `vars[v]`, when it has one. */
  function Occupant(vars: seq<Var>, tables: seq<seq<nat>>, v: nat): Option<nat>
    requires v < |vars| && TablesShaped(tables) && RegToReg(vars[v])
  {
    var t := tables[GroupOf(vars[v].out.loc.regType)][vars[v].out.loc.regId];
    if t != VarIdNone && t < |vars| then Some(t) else None
  }

  /** The swap test as initWorkData writes it: the target of `vars[v]` is held by
      a variable whose own target, in the same group, is where `vars[v]` is now. */
  predicate SwapAsWritten(vars: seq<Var>, tables: seq<seq<nat>>, v: nat)
    requires v < |vars| && TablesShaped(tables)
  {
    && RegToReg(vars[v])
    && var o := Occupant(vars, tables, v);
    && o.Some?
    && vars[o.value].out.IsReg()
    && GroupOf(vars[o.value].out.loc.regType) == GroupOf(vars[v].out.loc.regType)
    && vars[o.value].out.loc.regId == vars[v].cur.loc.regId
  }

  /** The swap test as intended: only a variable that is not yet in place can be
      half of a swap. */
  predicate Swap(vars: seq<Var>, tables: seq<seq<nat>>, v: nat)
    requires v < |vars| && TablesShaped(tables)
  {
    SwapAsWritten(vars, tables, v) && vars[v].cur.loc.regId != vars[v].out.loc.regId
  }

  /** `_numSwaps` of group g after visiting the first `n` variables. */
  function SwapCount(vars: seq<Var>, tables: seq<seq<nat>>, n: nat, g: Group): nat
    requires n <= |vars| && TablesShaped(tables)
  {
    if n == 0 then 0
    else SwapCount(vars, tables, n - 1, g)
         + (if Swap(vars, tables, n - 1) && GroupOf(vars[n - 1].cur.loc.regType) == g then 1 else 0)
  }

  /** `_regSwapsMask` after visiting the first `n` variables. */
  function SwapGroups(vars: seq<Var>, tables: seq<seq<nat>>, n: nat): set<Group>
    requires n <= |vars| && TablesShaped(tables)
  {
    if n == 0 then {}
    else SwapGroups(vars, tables, n - 1)
         + (if Swap(vars, tables, n - 1) then {GroupOf(vars[n - 1].cur.loc.regType) as Group} else {})
  }

  /** initWorkData counts a swap as written for every variable visited, and as
      intended only for those not yet in place. */
  function SwapCountAsWritten(vars: seq<Var>, tables: seq<seq<nat>>, n: nat, g: Group): nat
    requires n <= |vars| && TablesShaped(tables)
  {
    if n == 0 then 0
    else SwapCountAsWritten(vars, tables, n - 1, g)
         + (if SwapAsWritten(vars, tables, n - 1) && GroupOf(vars[n - 1].cur.loc.regType) == g then 1 else 0)
  }

  /** A register-to-register variable already in its target, named by its
      group's table, passes the swap test as written, though it swaps with nothing. */
  lemma InPlaceIsSwapAsWritten(vars: seq<Var>, tables: seq<seq<nat>>, v: nat)
    requires v < |vars| && v < VarCapacity && TablesShaped(tables) && RegToReg(vars[v])
    requires vars[v].cur.loc.regId == vars[v].out.loc.regId
    requires tables[GroupOf(vars[v].cur.loc.regType)][vars[v].cur.loc.regId] == v
    ensures SwapAsWritten(vars, tables, v) && !Swap(vars, tables, v)
  {
  }

  /** One xmm0 argument that is to stay in xmm0: the count as written records
      one vector swap, the intended count none. */
  lemma InPlaceVecArgCounted()
    ensures var vars := [Var(RegValue(Xmm, 0, F64), RegValue(Xmm, 0, F64))];
            var none := seq(32, _ => VarIdNone);
            var tables := [none, none[0 := 0], none, none];
            && SwapCountAsWritten(vars, tables, 1, GroupVec) == 1
            && SwapCount(vars, tables, 1, GroupVec) == 0
            && SwapGroups(vars, tables, 1) == {}
  {
    var vars := [Var(RegValue(Xmm, 0, F64), RegValue(Xmm, 0, F64))];
    var none := seq(32, _ => VarIdNone);
    var tables := [none, none[0 := 0], none, none];
    InPlaceIsSwapAsWritten(vars, tables, 0);
  }

  /** With tables that agree with the variables, the intended swap test holds of
      `vars[v]` exactly when another variable sits in its target register and is
      to go, within the same group, where `vars[v]` is now: a true 2-cycle. */
  lemma SwapIsTwoCycle(vars: seq<Var>, tables: seq<seq<nat>>, n: nat, v: nat)
    requires TablesShaped(tables) && n <= |vars| && n <= VarCapacity && v < n
    requires forall g: Group :: TableMatches(tables[g], vars, n, g)
    ensures Swap(vars, tables, v) <==>
              && RegToReg(vars[v])
              && exists o :: 0 <= o < n && o != v && PairsWith(vars[o], vars[v])
  {
    var x := vars[v];
    if RegToReg(x) {
      var g: Group := GroupOf(x.cur.loc.regType);
      assert TableMatches(tables[g], vars, n, g);
      assert Occupies(x, g);
      if Swap(vars, tables, v) {
        var o := Occupant(vars, tables, v).value;
        assert o < n && vars[o].cur.loc.regId == x.out.loc.regId;
        assert o != v;
        assert PairsWith(vars[o], x);
      }
      if o :| 0 <= o < n && o != v && PairsWith(vars[o], x) {
        assert tables[g][x.out.loc.regId] == o;
        assert x.cur.loc.regId != x.out.loc.regId by {
          assert tables[g][x.cur.loc.regId] == v;
        }
        assert Occupant(vars, tables, v) == Some(o);
      }
    }
  }

  /** `y` occupies the target register of `x` and is to go, within the same
      group, to the register `x` occupies. */
  predicate PairsWith(y: Var, x: Var)
    requires RegToReg(x)
  {
    var g := GroupOf(x.cur.loc.regType);
    && Occupies(y, g) && y.cur.loc.regId == x.out.loc.regId
    && y.out.IsReg() && GroupOf(y.out.loc.regType) == g && y.out.loc.regId == x.cur.loc.regId
  }

  // ---------------------------------------------------------------------------
  // The variable table of a group
  // ---------------------------------------------------------------------------

  /** A variable occupies a register of group g while its value sits there and
      has not been stored to a stack target yet. */
  predicate Occupies(x: Var, g: Group) {
    && x.cur.IsReg() && GroupOf(x.cur.loc.regType) == g && x.cur.loc.regId < 32
    && !(x.cur.done && x.out.IsStack())
  }

  /** `_physToVarId` of group g agrees with the first `n` variables: every entry
      names a variable occupying that register, and every occupying variable is
      named by the entry of its register. */
  predicate TableMatches(table: seq<nat>, vars: seq<Var>, n: nat, g: Group)
    requires |table| == 32 && n <= |vars|
  {
    && (forall r: RegId :: table[r] != VarIdNone ==>
          table[r] < n && Occupies(vars[table[r]], g) && vars[table[r]].cur.loc.regId == r)
    && (forall v :: 0 <= v < n && Occupies(vars[v], g) ==> table[vars[v].cur.loc.regId] == v)
  }

  /** An empty table agrees with no variables. */
  lemma EmptyTableMatches(table: seq<nat>, vars: seq<Var>, g: Group)
    requires |table| == 32 && forall r :: 0 <= r < 32 ==> table[r] == VarIdNone
    ensures TableMatches(table, vars, 0, g)
  {
  }

  /** Appending a variable that occupies the free register r of group g, and
      naming it in the table, keeps the table in agreement. */
  lemma AddOccupantMatches(table: seq<nat>, vars: seq<Var>, vars': seq<Var>, n: nat, g: Group, r: RegId)
    requires |table| == 32 && n < |vars| && |vars'| == |vars| && n < VarIdNone
    requires TableMatches(table, vars, n, g)
    requires table[r] == VarIdNone
    requires forall k :: 0 <= k < n ==> vars'[k] == vars[k]
    requires Occupies(vars'[n], g) && vars'[n].cur.loc.regId == r
    ensures TableMatches(table[r := n], vars', n + 1, g)
  {
    var t := table[r := n];
    forall v | 0 <= v < n + 1 && Occupies(vars'[v], g)
      ensures t[vars'[v].cur.loc.regId] == v
    {
      if v < n {
        assert vars'[v] == vars[v];
        assert table[vars[v].cur.loc.regId] == v != VarIdNone;
        assert vars[v].cur.loc.regId != r;
      }
    }
  }

  /** Appending a variable that occupies no register of group g leaves the table in agreement. */
  lemma AddOtherMatches(table: seq<nat>, vars: seq<Var>, vars': seq<Var>, n: nat, g: Group)
    requires |table| == 32 && n < |vars| && |vars'| == |vars|
    requires TableMatches(table, vars, n, g)
    requires forall k :: 0 <= k < n ==> vars'[k] == vars[k]
    requires !Occupies(vars'[n], g)
    ensures TableMatches(table, vars', n + 1, g)
  {
    forall v | 0 <= v < n + 1 && Occupies(vars'[v], g)
      ensures table[vars'[v].cur.loc.regId] == v
    {
      assert v < n && vars'[v] == vars[v];
    }
  }

  // ---------------------------------------------------------------------------
  // Facts about the declarative definitions
  // ---------------------------------------------------------------------------

  /** The placements initFuncDetail produces: register ids a 32-bit mask can
      hold, no register used twice within a group, and nothing done yet. */
  predicate SourcesWellFormed(srcs: seq<FuncValue>) {
    && (forall i :: 0 <= i < |srcs| && srcs[i].IsReg() ==> srcs[i].loc.regId < 32)
    && (forall i, j :: 0 <= i < j < |srcs| ==> !SameReg(srcs[i], srcs[j]))
    && (forall i :: 0 <= i < |srcs| ==> !srcs[i].done)
  }

  /** No earlier slot holds the source register of slot i. */
  lemma {:induction false} SrcIdFresh(srcs: seq<FuncValue>, a: ArgsAssignment, n: nat, i: nat, g: Group)
    requires SourcesWellFormed(srcs) && n <= i && RegIn(SrcOf(srcs, i), g)
    ensures SrcOf(srcs, i).loc.regId !in SrcIds(srcs, a, n, g)
  {
    if n > 0 {
      SrcIdFresh(srcs, a, n - 1, i, g);
      if a.Arg(n - 1).IsAssigned() && RegIn(SrcOf(srcs, n - 1), g) {
        assert SrcOf(srcs, n - 1).loc.regId != SrcOf(srcs, i).loc.regId;
      }
    }
  }

  /** With no error below `i`, the targets recorded so far are exactly the ones
      an earlier slot takes. */
  lemma {:induction false} DstIdsTaken(a: ArgsAssignment, i: nat, g: Group, id: RegId)
    ensures id in DstIds(a, i, g) <==> TargetTaken(a, i, g, id)
  {
    if i > 0 {
      DstIdsTaken(a, i - 1, g, id);
      var d := a.Arg(i - 1);
      if d.IsReg() && GroupOf(d.loc.regType) == g && d.loc.regId == id {
        assert RegIn(d, g);
      }
      if TargetTaken(a, i, g, id) && !TargetTaken(a, i - 1, g, id) {
        var j :| 0 <= j < i && a.Arg(j).IsReg() && GroupOf(a.Arg(j).loc.regType) == g && a.Arg(j).loc.regId == id;
        assert j == i - 1;
      }
      if TargetTaken(a, i - 1, g, id) {
        var j :| 0 <= j < i - 1 && a.Arg(j).IsReg() && GroupOf(a.Arg(j).loc.regType) == g && a.Arg(j).loc.regId == id;
        assert 0 <= j < i;
      }
    }
  }

  /** At most one variable per slot. */
  lemma {:induction false} SlotVarsLength(srcs: seq<FuncValue>, a: ArgsAssignment, n: nat)
    ensures |SlotVars(srcs, a, n)| <= n
  {
    if n > 0 {
      SlotVarsLength(srcs, a, n - 1);
    }
  }

  // ---------------------------------------------------------------------------
  // The state of an ArgsContext during extraction
  // ---------------------------------------------------------------------------

  /** The fields of an ArgsContext, its four work areas and its variables, as a value. */
  datatype Snap = Snap(
    archType: Arch, hasStackSrc: bool, hasPreservedFP: bool, stackDstMask: set<Group>,
    regSwapsMask: set<Group>, saVarId: nat, varCount: nat,
    views: seq<WorkView>, tables: seq<seq<nat>>, vars: seq<Var>)
  {
    predicate Shaped() { |views| == 4 && TablesShaped(tables) && |vars| == VarCapacity }
  }

  /** Group g after the slots below `i` were extracted into `n` variables: its
      masks follow from the slots, and its table agrees with its mask and names
      exactly the variables occupying its registers. */
  predicate GroupExtracted(s: Snap, arch: Arch, fp: bool, srcs: seq<FuncValue>, a: ArgsAssignment, i: nat, n: nat, g: Group)
    requires s.Shaped() && n <= VarCapacity
  {
    && s.views[g] == ExtractedView(arch, fp, srcs, a, i, g)
    && MaskAgrees(s.views[g].assignedRegs, s.tables[g])
    && TableMatches(s.tables[g], s.vars, n, g)
  }

  /** The variables and the context's own fields after the slots below `i`
      were extracted into `n` variables. */
  predicate HeadExtracted(s: Snap, arch: Arch, srcs: seq<FuncValue>, a: ArgsAssignment, i: nat, n: nat)
    requires s.Shaped()
  {
    && n == |SlotVars(srcs, a, i)| && n <= ArgCountLoHi
    && s.vars[..n] == SlotVars(srcs, a, i)
    && s.archType == arch && !s.hasPreservedFP && s.regSwapsMask == {} && s.saVarId == VarIdNone && s.varCount == 0
    && s.hasStackSrc == StackSrc(srcs, a, i) && s.stackDstMask == StackDstGroups(arch, srcs, a, i)
  }

  /** The state after the slots below `i` were extracted into `n` variables. */
  predicate Extracted(s: Snap, arch: Arch, fp: bool, srcs: seq<FuncValue>, a: ArgsAssignment, i: nat, n: nat)
    requires s.Shaped()
  {
    && HeadExtracted(s, arch, srcs, a, i, n)
    && forall g: Group :: GroupExtracted(s, arch, fp, srcs, a, i, n, g)
  }

  /** The extracted masks of every group, field by field. */
  lemma ExtractedMasks(s: Snap, arch: Arch, fp: bool, srcs: seq<FuncValue>, a: ArgsAssignment, i: nat, n: nat)
    requires s.Shaped() && Extracted(s, arch, fp, srcs, a, i, n)
    ensures TargetMasks(s.views, arch, fp, a, i) && SourceMasks(s.views, srcs, a, i) && ViewsAgree(s.views, s.tables)
  {
    forall g: Group
      ensures && s.views[g].archRegs == ArchRegs(arch, fp, g) && s.views[g].dstRegs == DstIds(a, i, g)
              && s.views[g].assignedRegs == SrcIds(srcs, a, i, g) && MaskAgrees(s.views[g].assignedRegs, s.tables[g])
    {
      assert GroupExtracted(s, arch, fp, srcs, a, i, n, g);
    }
  }

  /** Nothing is extracted before the first slot. */
  lemma ExtractedStart(s: Snap, arch: Arch, fp: bool, srcs: seq<FuncValue>, a: ArgsAssignment)
    requires s.Shaped()
    requires s.archType == arch && !s.hasStackSrc && !s.hasPreservedFP && s.stackDstMask == {}
    requires s.regSwapsMask == {} && s.saVarId == VarIdNone && s.varCount == 0
    requires s.views == StartViews(arch, fp)
    requires forall g: Group, r: RegId :: s.tables[g][r] == VarIdNone
    ensures Extracted(s, arch, fp, srcs, a, 0, 0)
  {
    forall g: Group
      ensures GroupExtracted(s, arch, fp, srcs, a, 0, 0, g)
    {
      assert s.views[g] == WorkView(ArchRegs(arch, fp, g), {}, {}, {}, {}, {}, 0, 0) by {
        if g == 0 {} else if g == 1 {} else if g == 2 {} else {}
      }
      EmptyTableMatches(s.tables[g], s.vars, g);
    }
  }

  /** The four groups before the first slot: only the architecture's registers. */
  function StartViews(arch: Arch, fp: bool): (vs: seq<WorkView>)
    ensures |vs| == 4
  {
    [WorkView(ArchRegs(arch, fp, 0), {}, {}, {}, {}, {}, 0, 0), WorkView(ArchRegs(arch, fp, 1), {}, {}, {}, {}, {}, 0, 0),
     WorkView(ArchRegs(arch, fp, 2), {}, {}, {}, {}, {}, 0, 0), WorkView(ArchRegs(arch, fp, 3), {}, {}, {}, {}, {}, 0, 0)]
  }

  /** An unassigned slot leaves the extracted state as it is. */
  lemma ExtractedSkipStep(s: Snap, arch: Arch, fp: bool, srcs: seq<FuncValue>, a: ArgsAssignment, i: nat, n: nat)
    requires s.Shaped() && Extracted(s, arch, fp, srcs, a, i, n) && !a.Arg(i).IsAssigned()
    ensures Extracted(s, arch, fp, srcs, a, i + 1, n)
  {
    ExtractedSkip(arch, fp, srcs, a, i);
    SlotVarsLength(srcs, a, i + 1);
    var i1 := i + 1;
    forall g: Group
      ensures GroupExtracted(s, arch, fp, srcs, a, i1, n, g)
    {
      assert GroupExtracted(s, arch, fp, srcs, a, i, n, g);
    }
  }

  // The four groups at once. The work areas of an ArgsContext are shown as a
  // sequence of four views and four tables, and one slot changes all four by
  // the per-group functions above.

  /** Every group's target is recorded. */
  function TargetViews(vs: seq<WorkView>, dst: FuncValue): (ws: seq<WorkView>)
    requires |vs| == 4
    ensures |ws| == 4
  {
    [TargetView(vs[0], 0, dst), TargetView(vs[1], 1, dst), TargetView(vs[2], 2, dst), TargetView(vs[3], 3, dst)]
  }

  /** Every group's source is recorded. */
  function SourceViews(vs: seq<WorkView>, dst: FuncValue, src: FuncValue): (ws: seq<WorkView>)
    requires |vs| == 4
    ensures |ws| == 4
  {
    [SourceView(vs[0], 0, dst, src), SourceView(vs[1], 1, dst, src),
     SourceView(vs[2], 2, dst, src), SourceView(vs[3], 3, dst, src)]
  }

  /** The table of group g names variable `n` at its source register, if the source is in g. */
  function SourceTable(t: seq<nat>, g: Group, src: FuncValue, n: nat): seq<nat> {
    if RegIn(src, g) && src.loc.regId < |t| then t[src.loc.regId := n] else t
  }

  function SourceTables(ts: seq<seq<nat>>, src: FuncValue, n: nat): (us: seq<seq<nat>>)
    requires |ts| == 4
    ensures |us| == 4
  {
    [SourceTable(ts[0], 0, src, n), SourceTable(ts[1], 1, src, n),
     SourceTable(ts[2], 2, src, n), SourceTable(ts[3], 3, src, n)]
  }

  /** Each group's table agrees with its mask of occupied registers. */
  predicate ViewsAgree(vs: seq<WorkView>, ts: seq<seq<nat>>) {
    |vs| == 4 && |ts| == 4 && forall g: Group :: MaskAgrees(vs[g].assignedRegs, ts[g])
  }

  /** The masks the target checks of slot i consult. */
  predicate TargetMasks(vs: seq<WorkView>, arch: Arch, fp: bool, a: ArgsAssignment, i: nat) {
    |vs| == 4 && forall g: Group :: vs[g].archRegs == ArchRegs(arch, fp, g) && vs[g].dstRegs == DstIds(a, i, g)
  }

  /** The masks the source check of slot i consults. */
  predicate SourceMasks(vs: seq<WorkView>, srcs: seq<FuncValue>, a: ArgsAssignment, i: nat) {
    |vs| == 4 && forall g: Group :: vs[g].assignedRegs == SrcIds(srcs, a, i, g)
  }

  /** Recording targets leaves the occupied registers as they are. */
  lemma TargetViewsKeepSources(vs: seq<WorkView>, ts: seq<seq<nat>>, srcs: seq<FuncValue>, a: ArgsAssignment, i: nat, dst: FuncValue)
    requires SourceMasks(vs, srcs, a, i) && ViewsAgree(vs, ts)
    ensures SourceMasks(TargetViews(vs, dst), srcs, a, i) && ViewsAgree(TargetViews(vs, dst), ts)
  {
    var ws := TargetViews(vs, dst);
    assert forall g: Group :: ws[g].assignedRegs == vs[g].assignedRegs by {
      forall g: Group ensures ws[g].assignedRegs == vs[g].assignedRegs {
        assert ws[g] == TargetView(vs[g], g, dst) by { TargetViewsAt(vs, dst, g); }
      }
    }
  }

  lemma TargetViewsAt(vs: seq<WorkView>, dst: FuncValue, g: Group)
    requires |vs| == 4
    ensures TargetViews(vs, dst)[g] == TargetView(vs[g], g, dst)
  {
    if g == 0 {} else if g == 1 {} else if g == 2 {} else {}
  }

  lemma SourceViewsAt(vs: seq<WorkView>, dst: FuncValue, src: FuncValue, g: Group)
    requires |vs| == 4
    ensures SourceViews(vs, dst, src)[g] == SourceView(vs[g], g, dst, src)
  {
    if g == 0 {} else if g == 1 {} else if g == 2 {} else {}
  }

  lemma SourceTablesAt(ts: seq<seq<nat>>, src: FuncValue, n: nat, g: Group)
    requires |ts| == 4
    ensures SourceTables(ts, src, n)[g] == SourceTable(ts[g], g, src, n)
  {
    if g == 0 {} else if g == 1 {} else if g == 2 {} else {}
  }

  /** Slot i's variable is stored as variable `n`. */
  function VarSnap(s: Snap, n: nat, x: Var): (t: Snap)
    requires s.Shaped() && n < VarCapacity
    ensures t.Shaped()
  {
    s.(vars := s.vars[n := x])
  }

  /** Slot i's target is recorded: a register in its group's masks, a stack
      slot by the group it moves through. */
  function TargetSnap(s: Snap, arch: Arch, src: FuncValue, dst: FuncValue): (t: Snap)
    requires s.Shaped()
    ensures t.Shaped()
  {
    s.(views := TargetViews(s.views, dst), stackDstMask := s.stackDstMask + StackDstOf(arch, src, dst))
  }

  /** Slot i's source is recorded as variable `n`. */
  function SourceSnap(s: Snap, dst: FuncValue, src: FuncValue, n: nat): (t: Snap)
    requires s.Shaped()
    ensures t.Shaped()
  {
    SourceTablesShaped(s.tables, src, n);
    s.(views := SourceViews(s.views, dst, src), tables := SourceTables(s.tables, src, n),
       hasStackSrc := s.hasStackSrc || !src.IsReg())
  }

  lemma SourceTablesShaped(ts: seq<seq<nat>>, src: FuncValue, n: nat)
    requires TablesShaped(ts)
    ensures TablesShaped(SourceTables(ts, src, n))
  {
    forall g: Group ensures |SourceTables(ts, src, n)[g]| == 32 {
      SourceTablesAt(ts, src, n, g);
    }
  }

  /** A stack source leaves the tables as they are. */
  lemma StackSourceTables(ts: seq<seq<nat>>, src: FuncValue, n: nat)
    requires |ts| == 4 && !src.IsReg()
    ensures SourceTables(ts, src, n) == ts
  {
  }

  /** A stack source with a register target counts one load in the target's group. */
  lemma StackSourceViews(vs: seq<WorkView>, dst: FuncValue, src: FuncValue, g: Group)
    requires |vs| == 4 && !src.IsReg() && RegIn(dst, g)
    ensures SourceViews(vs, dst, src) == vs[g := vs[g].(numStackArgs := vs[g].numStackArgs + 1)]
  {
    assert forall h: Group :: RegIn(dst, h) <==> h == g;
  }

  /** A stack source with a stack target changes no group. */
  lemma StackSourceToStack(vs: seq<WorkView>, dst: FuncValue, src: FuncValue)
    requires |vs| == 4 && !src.IsReg() && !dst.IsReg()
    ensures SourceViews(vs, dst, src) == vs
  {
  }

  /** How one assigned slot changes the state: its variable is stored as
      variable `n`, its target and source are recorded in their groups, and the
      source register's table entry names the new variable, which keeps every
      table in agreement with its mask. */
  predicate AddStep(s0: Snap, s1: Snap, arch: Arch, srcs: seq<FuncValue>, a: ArgsAssignment, i: nat, n: nat)
    requires s0.Shaped() && n < VarCapacity
  {
    var src, dst := SrcOf(srcs, i), a.Arg(i);
    && s1 == SourceSnap(TargetSnap(VarSnap(s0, n, ArgVar(src, dst)), arch, src, dst), dst, src, n)
    && ViewsAgree(s1.views, s1.tables)
  }

  /** An assigned slot whose target and source were recorded, and whose variable
      was stored and entered in its source group's table, extends the extracted state. */
  lemma ExtractedAddStep(s0: Snap, s1: Snap, arch: Arch, fp: bool, srcs: seq<FuncValue>, a: ArgsAssignment, i: nat, n: nat)
    requires s0.Shaped() && s1.Shaped() && Extracted(s0, arch, fp, srcs, a, i, n)
    requires i < ArgCountLoHi && SourcesWellFormed(srcs) && a.Arg(i).IsAssigned() && SrcOf(srcs, i).IsAssigned()
    requires AddStep(s0, s1, arch, srcs, a, i, n)
    ensures Extracted(s1, arch, fp, srcs, a, i + 1, n + 1)
  {
    assert s1.vars == s0.vars[n := ArgVar(SrcOf(srcs, i), a.Arg(i))];
    HeadAddStep(s0, s1, arch, srcs, a, i, n);
    assert !SrcOf(srcs, i).done;
    var i1, n1 := i + 1, n + 1;
    forall g: Group
      ensures GroupExtracted(s1, arch, fp, srcs, a, i1, n1, g)
    {
      TargetViewsAt(s0.views, a.Arg(i), g);
      SourceViewsAt(TargetViews(s0.views, a.Arg(i)), a.Arg(i), SrcOf(srcs, i), g);
      SourceTablesAt(s0.tables, SrcOf(srcs, i), n, g);
      GroupAddStep(s0, s1, arch, fp, srcs, a, i, n, g);
    }
  }

  /** ExtractedAddStep for the variables and the context's own fields. */
  lemma HeadAddStep(s0: Snap, s1: Snap, arch: Arch, srcs: seq<FuncValue>, a: ArgsAssignment, i: nat, n: nat)
    requires s0.Shaped() && s1.Shaped() && HeadExtracted(s0, arch, srcs, a, i, n)
    requires i < ArgCountLoHi && a.Arg(i).IsAssigned()
    requires s1.vars == s0.vars[n := ArgVar(SrcOf(srcs, i), a.Arg(i))]
    requires s1.archType == s0.archType && s1.hasPreservedFP == s0.hasPreservedFP
    requires s1.regSwapsMask == s0.regSwapsMask && s1.saVarId == s0.saVarId && s1.varCount == s0.varCount
    requires s1.hasStackSrc == (s0.hasStackSrc || !SrcOf(srcs, i).IsReg())
    requires s1.stackDstMask == s0.stackDstMask + StackDstOf(arch, SrcOf(srcs, i), a.Arg(i))
    ensures HeadExtracted(s1, arch, srcs, a, i + 1, n + 1) && n < ArgCountLoHi
  {
    SlotVarsLength(srcs, a, i + 1);
    assert s1.vars[..n + 1] == SlotVars(srcs, a, i + 1) by {
      assert s1.vars[..n] == s0.vars[..n];
    }
  }

  /** ExtractedAddStep for one group. */
  lemma GroupAddStep(s0: Snap, s1: Snap, arch: Arch, fp: bool, srcs: seq<FuncValue>, a: ArgsAssignment,
                     i: nat, n: nat, g: Group)
    requires s0.Shaped() && s1.Shaped() && n < ArgCountLoHi && GroupExtracted(s0, arch, fp, srcs, a, i, n, g)
    requires SourcesWellFormed(srcs) && a.Arg(i).IsAssigned() && SrcOf(srcs, i).IsAssigned() && !SrcOf(srcs, i).done
    requires s1.vars == s0.vars[n := ArgVar(SrcOf(srcs, i), a.Arg(i))]
    requires s1.views[g] == SourceView(TargetView(s0.views[g], g, a.Arg(i)), g, a.Arg(i), SrcOf(srcs, i))
    requires MaskAgrees(s1.views[g].assignedRegs, s1.tables[g])
    requires s1.tables[g] == SourceTable(s0.tables[g], g, SrcOf(srcs, i), n)
    ensures GroupExtracted(s1, arch, fp, srcs, a, i + 1, n + 1, g)
  {
    var src := SrcOf(srcs, i);
    var x := ArgVar(src, a.Arg(i));
    ExtractedViewStep(arch, fp, srcs, a, i, g);
    assert Occupies(x, g) <==> RegIn(src, g);
    if RegIn(src, g) {
      SrcIdFresh(srcs, a, i, i, g);
      AddOccupantMatches(s0.tables[g], s0.vars, s1.vars, n, g, src.loc.regId);
    } else {
      AddOtherMatches(s0.tables[g], s0.vars, s1.vars, n, g);
    }
  }

  // ---------------------------------------------------------------------------
  // After extraction: working registers, the SA variable, swaps
  // ---------------------------------------------------------------------------

  /** `_workRegs` of a group computed from its masks. */
  function WorkRegsView(v: WorkView, dirty: RegMask, preserved: RegMask): WorkView {
    v.(workRegs := WorkRegsOf(v.archRegs, dirty, preserved, v.dstRegs, v.assignedRegs))
  }

  /** Group h once the first k groups have their working registers. */
  function WorkRegsAt(vs: seq<WorkView>, fv: FrameView, k: nat, h: Group): WorkView
    requires |vs| == 4 && fv.WellFormed()
  {
    if h < k then WorkRegsView(vs[h], fv.dirty[h], fv.preserved[h]) else vs[h]
  }

  function WorkRegsViews(vs: seq<WorkView>, fv: FrameView, k: nat): (ws: seq<WorkView>)
    requires |vs| == 4 && fv.WellFormed()
    ensures |ws| == 4
  {
    [WorkRegsAt(vs, fv, k, 0), WorkRegsAt(vs, fv, k, 1), WorkRegsAt(vs, fv, k, 2), WorkRegsAt(vs, fv, k, 3)]
  }

  lemma WorkRegsViewsAt(vs: seq<WorkView>, fv: FrameView, k: nat, g: Group)
    requires |vs| == 4 && fv.WellFormed()
    ensures WorkRegsViews(vs, fv, k)[g] == WorkRegsAt(vs, fv, k, g)
  {
    if g == 0 {} else if g == 1 {} else if g == 2 {} else {}
  }

  /** The GP group once the SA variable occupies `cur` and, when requested, targets `out`. */
  function SaView(v: WorkView, cur: RegId, out: nat): WorkView {
    if out < 32 then
      v.(assignedRegs := v.assignedRegs + {cur}, workRegs := v.workRegs + {cur} + {out as RegId},
         dstRegs := v.dstRegs + {out as RegId})
    else v.(assignedRegs := v.assignedRegs + {cur}, workRegs := v.workRegs + {cur})
  }

  /** The SA variable is stored as variable `n` and occupies `cur`; the frame's
      preserved-FP flag is recorded with it. */
  function SaSnap(s: Snap, arch: Arch, fp: bool, cur: RegId, out: nat, n: nat): (t: Snap)
    requires s.Shaped() && n < VarCapacity
    ensures t.Shaped()
  {
    var t: seq<nat> := s.tables[GroupGp][cur := n];
    s.(vars := s.vars[n := SaVar(arch, cur, out)], saVarId := n, hasPreservedFP := fp,
       views := s.views[GroupGp := SaView(s.views[GroupGp], cur, out)],
       tables := s.tables[GroupGp := t])
  }

  /** Group h with the swaps among the first `v` variables counted. */
  function SwapsAt(vs: seq<WorkView>, vars: seq<Var>, tables: seq<seq<nat>>, v: nat, h: Group): WorkView
    requires |vs| == 4 && v <= |vars| && TablesShaped(tables)
  {
    vs[h].(numSwaps := vs[h].numSwaps + SwapCount(vars, tables, v, h))
  }

  function SwapViews(vs: seq<WorkView>, vars: seq<Var>, tables: seq<seq<nat>>, v: nat): (ws: seq<WorkView>)
    requires |vs| == 4 && v <= |vars| && TablesShaped(tables)
    ensures |ws| == 4
  {
    [SwapsAt(vs, vars, tables, v, 0), SwapsAt(vs, vars, tables, v, 1),
     SwapsAt(vs, vars, tables, v, 2), SwapsAt(vs, vars, tables, v, 3)]
  }

  lemma SwapViewsAt(vs: seq<WorkView>, vars: seq<Var>, tables: seq<seq<nat>>, v: nat, g: Group)
    requires |vs| == 4 && v <= |vars| && TablesShaped(tables)
    ensures SwapViews(vs, vars, tables, v)[g] == SwapsAt(vs, vars, tables, v, g)
  {
    if g == 0 {} else if g == 1 {} else if g == 2 {} else {}
  }

  /** The state after the swaps among the first `v` variables were counted. */
  function SwapSnap(s: Snap, v: nat): (t: Snap)
    requires s.Shaped() && v <= VarCapacity
    ensures t.Shaped()
  {
    s.(views := SwapViews(s.views, s.vars, s.tables, v), regSwapsMask := s.regSwapsMask + SwapGroups(s.vars, s.tables, v))
  }

  /** Whether initWorkData creates an SA variable, and in which register. */
  function SaReg(arch: Arch, fv: FrameView, srcs: seq<FuncValue>, a: ArgsAssignment): Option<RegId>
    requires fv.WellFormed() && a.WellFormed()
  {
    var p := SaPlanOf(arch, fv, srcs, a);
    if p.Ok? then p.value else None
  }

  /** The number of variables initWorkData creates. */
  function BuiltCount(arch: Arch, fv: FrameView, srcs: seq<FuncValue>, a: ArgsAssignment): nat
    requires fv.WellFormed() && a.WellFormed()
  {
    |SlotVars(srcs, a, ArgCountLoHi)| + (if SaReg(arch, fv, srcs, a).Some? then 1 else 0)
  }

  /** A group's masks and counters after initWorkData, before swaps are counted. */
  function BuiltView(arch: Arch, fv: FrameView, srcs: seq<FuncValue>, a: ArgsAssignment, g: Group): WorkView
    requires fv.WellFormed() && a.WellFormed()
  {
    var w := WorkRegsView(ExtractedView(arch, fv.preservedFP, srcs, a, ArgCountLoHi, g), fv.dirty[g], fv.preserved[g]);
    var sa := SaReg(arch, fv, srcs, a);
    if g == GroupGp && sa.Some? then SaView(w, sa.value, a.saRegId) else w
  }

  /** The state initWorkData leaves when it succeeds: one variable per assigned
      slot in slot order, then the SA variable when there is one; each group's
      masks follow from the slots, the frame and the SA register; each table
      agrees with its mask and names exactly the variables occupying its
      registers; and the swaps among the variables are counted per group. */
  predicate Built(s: Snap, arch: Arch, fv: FrameView, srcs: seq<FuncValue>, a: ArgsAssignment)
    requires s.Shaped() && fv.WellFormed() && a.WellFormed()
  {
    && BuiltHead(s, arch, fv, srcs, a)
    && forall g: Group :: BuiltGroupOf(s, arch, fv, srcs, a, g)
  }

  /** The variables and the context's own fields after initWorkData. */
  predicate BuiltHead(s: Snap, arch: Arch, fv: FrameView, srcs: seq<FuncValue>, a: ArgsAssignment)
    requires s.Shaped() && fv.WellFormed() && a.WellFormed()
  {
    var n := |SlotVars(srcs, a, ArgCountLoHi)|;
    var sa := SaReg(arch, fv, srcs, a);
    var m := BuiltCount(arch, fv, srcs, a);
    && m <= VarCapacity && s.varCount == m
    && s.vars[..n] == SlotVars(srcs, a, ArgCountLoHi)
    && (sa.Some? ==> s.vars[n] == SaVar(arch, sa.value, a.saRegId))
    && s.saVarId == (if sa.Some? then n else VarIdNone)
    && s.hasPreservedFP == (sa.Some? && fv.preservedFP)
    && s.archType == arch && s.hasStackSrc == StackSrc(srcs, a, ArgCountLoHi)
    && s.stackDstMask == StackDstGroups(arch, srcs, a, ArgCountLoHi)
    && s.regSwapsMask == SwapGroups(s.vars, s.tables, m)
  }

  /** Group g after initWorkData. */
  predicate BuiltGroupOf(s: Snap, arch: Arch, fv: FrameView, srcs: seq<FuncValue>, a: ArgsAssignment, g: Group)
    requires s.Shaped() && fv.WellFormed() && a.WellFormed()
  {
    var m := BuiltCount(arch, fv, srcs, a);
    && m <= VarCapacity
    && s.views[g] == BuiltView(arch, fv, srcs, a, g).(numSwaps := SwapCount(s.vars, s.tables, m, g))
    && MaskAgrees(s.views[g].assignedRegs, s.tables[g])
    && TableMatches(s.tables[g], s.vars, m, g)
  }

  /** The extracted state, with working registers, the SA variable and the
      counted swaps added, is the built state. */
  lemma BuiltByChain(s1: Snap, s3: Snap, arch: Arch, fv: FrameView, srcs: seq<FuncValue>, a: ArgsAssignment)
    requires s1.Shaped() && s3.Shaped() && fv.WellFormed() && a.WellFormed()
    requires Extracted(s1, arch, fv.preservedFP, srcs, a, ArgCountLoHi, |SlotVars(srcs, a, ArgCountLoHi)|)
    requires SaPlanOf(arch, fv, srcs, a).Ok?
    requires var s2 := s1.(views := WorkRegsViews(s1.views, fv, 4));
             var sa := SaReg(arch, fv, srcs, a);
             s3 == if sa.Some? then SaSnap(s2, arch, fv.preservedFP, sa.value, a.saRegId, |SlotVars(srcs, a, ArgCountLoHi)|)
                   else s2
    ensures BuiltCount(arch, fv, srcs, a) <= VarCapacity
    ensures var m := BuiltCount(arch, fv, srcs, a); Built(SwapSnap(s3.(varCount := m), m), arch, fv, srcs, a)
  {
    var m := BuiltCount(arch, fv, srcs, a);
    var s4 := SwapSnap(s3.(varCount := m), m);
    BuiltHeadByChain(s1, s3, arch, fv, srcs, a);
    forall g: Group
      ensures BuiltGroupOf(s4, arch, fv, srcs, a, g)
    {
      BuiltGroup(s1, s3, arch, fv, srcs, a, g);
    }
  }

  /** BuiltByChain for the variables and the context's own fields. */
  lemma BuiltHeadByChain(s1: Snap, s3: Snap, arch: Arch, fv: FrameView, srcs: seq<FuncValue>, a: ArgsAssignment)
    requires s1.Shaped() && s3.Shaped() && fv.WellFormed() && a.WellFormed()
    requires HeadExtracted(s1, arch, srcs, a, ArgCountLoHi, |SlotVars(srcs, a, ArgCountLoHi)|)
    requires var s2 := s1.(views := WorkRegsViews(s1.views, fv, 4));
             var sa := SaReg(arch, fv, srcs, a);
             s3 == if sa.Some? then SaSnap(s2, arch, fv.preservedFP, sa.value, a.saRegId, |SlotVars(srcs, a, ArgCountLoHi)|)
                   else s2
    ensures BuiltCount(arch, fv, srcs, a) <= VarCapacity
    ensures var m := BuiltCount(arch, fv, srcs, a); BuiltHead(SwapSnap(s3.(varCount := m), m), arch, fv, srcs, a)
  {
    var n := |SlotVars(srcs, a, ArgCountLoHi)|;
    var m := BuiltCount(arch, fv, srcs, a);
    var s4 := SwapSnap(s3.(varCount := m), m);
    SlotVarsLength(srcs, a, ArgCountLoHi);
    assert s4.vars[..n] == SlotVars(srcs, a, ArgCountLoHi) by {
      assert s4.vars[..n] == s1.vars[..n];
    }
  }

  /** BuiltByChain for one group. */
  lemma BuiltGroup(s1: Snap, s3: Snap, arch: Arch, fv: FrameView, srcs: seq<FuncValue>, a: ArgsAssignment, g: Group)
    requires s1.Shaped() && s3.Shaped() && fv.WellFormed() && a.WellFormed()
    requires |SlotVars(srcs, a, ArgCountLoHi)| <= ArgCountLoHi
    requires GroupExtracted(s1, arch, fv.preservedFP, srcs, a, ArgCountLoHi, |SlotVars(srcs, a, ArgCountLoHi)|, g)
    requires var s2 := s1.(views := WorkRegsViews(s1.views, fv, 4));
             var sa := SaReg(arch, fv, srcs, a);
             s3 == if sa.Some? then SaSnap(s2, arch, fv.preservedFP, sa.value, a.saRegId, |SlotVars(srcs, a, ArgCountLoHi)|)
                   else s2
    ensures var m := BuiltCount(arch, fv, srcs, a);
            var s4 := SwapSnap(s3.(varCount := m), m);
            BuiltGroupOf(s4, arch, fv, srcs, a, g)
  {
    SlotVarsLength(srcs, a, ArgCountLoHi);
    var n := |SlotVars(srcs, a, ArgCountLoHi)|;
    var m := BuiltCount(arch, fv, srcs, a);
    var sa := SaReg(arch, fv, srcs, a);
    var s2 := s1.(views := WorkRegsViews(s1.views, fv, 4));
    WorkRegsViewsAt(s1.views, fv, 4, g);
    if sa.Some? && g == GroupGp {
      SaBuiltGp(s1, s2, s3, arch, fv, srcs, a);
    } else if sa.Some? {
      AddOtherMatches(s1.tables[g], s1.vars, s3.vars, n, g);
    }
    SwapsCounted(s3, arch, fv, srcs, a, g);
  }

  /** Counting the swaps completes a group whose masks and table are built. */
  lemma SwapsCounted(s3: Snap, arch: Arch, fv: FrameView, srcs: seq<FuncValue>, a: ArgsAssignment, g: Group)
    requires s3.Shaped() && fv.WellFormed() && a.WellFormed() && BuiltCount(arch, fv, srcs, a) <= VarCapacity
    requires s3.views[g] == BuiltView(arch, fv, srcs, a, g)
    requires MaskAgrees(s3.views[g].assignedRegs, s3.tables[g])
    requires TableMatches(s3.tables[g], s3.vars, BuiltCount(arch, fv, srcs, a), g)
    ensures var m := BuiltCount(arch, fv, srcs, a); BuiltGroupOf(SwapSnap(s3.(varCount := m), m), arch, fv, srcs, a, g)
  {
    var m := BuiltCount(arch, fv, srcs, a);
    SwapViewsAt(s3.views, s3.vars, s3.tables, m, g);
  }

  /** The GP group once the SA variable is added. */
  lemma SaBuiltGp(s1: Snap, s2: Snap, s3: Snap, arch: Arch, fv: FrameView, srcs: seq<FuncValue>, a: ArgsAssignment)
    requires s1.Shaped() && s2.Shaped() && fv.WellFormed() && a.WellFormed()
    requires |SlotVars(srcs, a, ArgCountLoHi)| <= ArgCountLoHi
    requires GroupExtracted(s1, arch, fv.preservedFP, srcs, a, ArgCountLoHi, |SlotVars(srcs, a, ArgCountLoHi)|, GroupGp)
    requires SaReg(arch, fv, srcs, a).Some?
    requires s2 == s1.(views := WorkRegsViews(s1.views, fv, 4))
    requires s3 == SaSnap(s2, arch, fv.preservedFP, SaReg(arch, fv, srcs, a).value, a.saRegId, |SlotVars(srcs, a, ArgCountLoHi)|)
    ensures MaskAgrees(s3.views[GroupGp].assignedRegs, s3.tables[GroupGp])
    ensures TableMatches(s3.tables[GroupGp], s3.vars, |SlotVars(srcs, a, ArgCountLoHi)| + 1, GroupGp)
    ensures s3.views[GroupGp] == BuiltView(arch, fv, srcs, a, GroupGp)
  {
    var n := |SlotVars(srcs, a, ArgCountLoHi)|;
    var cur := SaReg(arch, fv, srcs, a).value;
    var occupied := SrcIds(srcs, a, ArgCountLoHi, GroupGp);
    SaPlanProps(fv.saRegId, a.saRegId, SaRequired(fv, srcs, a), ArchRegs(arch, fv.preservedFP, GroupGp),
                GpWorkRegs(arch, fv, srcs, a), occupied, DstIds(a, ArgCountLoHi, GroupGp));
    assert cur !in occupied;
    AddOccupantMatches(s1.tables[GroupGp], s1.vars, s3.vars, n, GroupGp, cur);
  }

  /** An error at slot i, with none before it, is the first error of every longer prefix. */
  lemma {:induction false} FirstArgErrorFrom(arch: Arch, fp: bool, srcs: seq<FuncValue>, a: ArgsAssignment, i: nat, n: nat)
    requires i < n && FirstArgError(arch, fp, srcs, a, i).None? && ArgError(arch, fp, srcs, a, i).Some?
    ensures FirstArgError(arch, fp, srcs, a, n) == ArgError(arch, fp, srcs, a, i)
    decreases n
  {
    if n > i + 1 {
      FirstArgErrorFrom(arch, fp, srcs, a, i, n - 1);
    }
  }

  /** One more group gets its working registers. */
  lemma WorkRegsViewsStep(vs: seq<WorkView>, fv: FrameView, g: Group)
    requires |vs| == 4 && fv.WellFormed()
    ensures WorkRegsViews(vs, fv, g + 1) == WorkRegsViews(vs, fv, g)[g := WorkRegsView(vs[g], fv.dirty[g], fv.preserved[g])]
  {
  }

  /** Each table agrees with the first `m` variables. */
  predicate TablesMatch(ts: seq<seq<nat>>, vars: seq<Var>, m: nat)
    requires TablesShaped(ts) && m <= |vars|
  {
    forall g: Group :: TableMatches(ts[g], vars, m, g)
  }

  /** The SA register chosen from the GP group's built masks is initWorkData's
      choice, and the group's occupied registers are working registers. */
  lemma SaPlanByViews(s1: Snap, arch: Arch, fv: FrameView, srcs: seq<FuncValue>, a: ArgsAssignment)
    requires s1.Shaped() && fv.WellFormed() && a.WellFormed()
    requires Extracted(s1, arch, fv.preservedFP, srcs, a, ArgCountLoHi, |SlotVars(srcs, a, ArgCountLoHi)|)
    ensures var v := WorkRegsViews(s1.views, fv, 4)[GroupGp];
            && SaPlan(fv.saRegId, a.saRegId, s1.hasStackSrc && fv.dynamicAlignment && !fv.preservedFP,
                      v.archRegs, v.workRegs, v.assignedRegs, v.dstRegs) == SaPlanOf(arch, fv, srcs, a)
            && v.assignedRegs <= v.workRegs
            && ViewsAgree(WorkRegsViews(s1.views, fv, 4), s1.tables)
  {
    var ws := WorkRegsViews(s1.views, fv, 4);
    WorkRegsViewsAt(s1.views, fv, 4, GroupGp);
    assert GroupExtracted(s1, arch, fv.preservedFP, srcs, a, ArgCountLoHi, |SlotVars(srcs, a, ArgCountLoHi)|, GroupGp);
    forall g: Group ensures ws[g].assignedRegs == s1.views[g].assignedRegs {
      WorkRegsViewsAt(s1.views, fv, 4, g);
    }
    ExtractedMasks(s1, arch, fv.preservedFP, srcs, a, ArgCountLoHi, |SlotVars(srcs, a, ArgCountLoHi)|);
  }

  /** One more swap in group g. */
  function SwapBump(t: Snap, g: Group): (u: Snap)
    requires t.Shaped()
    ensures u.Shaped()
  {
    t.(views := t.views[g := t.views[g].(numSwaps := t.views[g].numSwaps + 1)], regSwapsMask := t.regSwapsMask + {g})
  }

  /** Visiting a variable that is no swap changes nothing. */
  lemma SwapSnapSkip(s: Snap, v: nat)
    requires s.Shaped() && v < VarCapacity && !Swap(s.vars, s.tables, v)
    ensures SwapSnap(s, v + 1) == SwapSnap(s, v)
  {
    var t := SwapSnap(s, v);
    var t1 := SwapSnap(s, v + 1);
    forall h: Group ensures t1.views[h] == t.views[h] {
      SwapViewsAt(s.views, s.vars, s.tables, v, h);
      SwapViewsAt(s.views, s.vars, s.tables, v + 1, h);
    }
    assert t1.views == t.views;
  }

  /** Visiting a swap counts it in its group. */
  lemma SwapSnapCount(s: Snap, v: nat)
    requires s.Shaped() && v < VarCapacity && Swap(s.vars, s.tables, v)
    ensures SwapSnap(s, v + 1) == SwapBump(SwapSnap(s, v), GroupOf(s.vars[v].cur.loc.regType) as Group)
  {
    var g: Group := GroupOf(s.vars[v].cur.loc.regType) as Group;
    var t := SwapSnap(s, v);
    var t1 := SwapSnap(s, v + 1);
    var u := SwapBump(t, g);
    forall h: Group ensures t1.views[h] == u.views[h] {
      SwapViewsAt(s.views, s.vars, s.tables, v, h);
      SwapViewsAt(s.views, s.vars, s.tables, v + 1, h);
    }
    assert t1.views == u.views;
  }

  /** Each group with its architectural registers set. */
  function ArchViews(vs: seq<WorkView>, arch: Arch, fp: bool): (ws: seq<WorkView>)
    requires |vs| == 4
    ensures |ws| == 4
  {
    [vs[0].(archRegs := ArchRegs(arch, fp, 0)), vs[1].(archRegs := ArchRegs(arch, fp, 1)),
     vs[2].(archRegs := ArchRegs(arch, fp, 2)), vs[3].(archRegs := ArchRegs(arch, fp, 3))]
  }

  /** Counting swaps leaves every group's occupied registers as they were. */
  lemma SwapSnapKeepsAgreement(s: Snap, v: nat)
    requires s.Shaped() && v <= VarCapacity
    ensures ViewsAgree(SwapSnap(s, v).views, s.tables) <==> ViewsAgree(s.views, s.tables)
  {
    forall g: Group ensures SwapSnap(s, v).views[g].assignedRegs == s.views[g].assignedRegs {
      SwapViewsAt(s.views, s.vars, s.tables, v, g);
    }
  }

  /** A reset work area. */
  const EmptyView: WorkView := WorkView({}, {}, {}, {}, {}, {}, 0, 0)

  /** Setting the architectural registers of reset work areas starts the extraction. */
  lemma ArchViewsStart(arch: Arch, fp: bool)
    ensures ArchViews([EmptyView, EmptyView, EmptyView, EmptyView], arch, fp) == StartViews(arch, fp)
  {
  }

  /** Built tables agree with their masks. */
  lemma BuiltAgrees(s: Snap, arch: Arch, fv: FrameView, srcs: seq<FuncValue>, a: ArgsAssignment)
    requires s.Shaped() && fv.WellFormed() && a.WellFormed() && Built(s, arch, fv, srcs, a)
    ensures ViewsAgree(s.views, s.tables)
  {
    forall g: Group ensures MaskAgrees(s.views[g].assignedRegs, s.tables[g]) {
      assert BuiltGroupOf(s, arch, fv, srcs, a, g);
    }
  }

  /** After initWorkData, the SA variable is recorded exactly when an SA
      register is needed, and it starts in that register. */
  lemma BuiltSaVar(s: Snap, arch: Arch, fv: FrameView, srcs: seq<FuncValue>, a: ArgsAssignment)
    requires s.Shaped() && fv.WellFormed() && a.WellFormed() && Built(s, arch, fv, srcs, a)
    ensures var sa := SaReg(arch, fv, srcs, a);
      && (s.saVarId != VarIdNone <==> sa.Some?)
      && (sa.Some? ==> && s.saVarId < VarCapacity && s.vars[s.saVarId].cur.IsReg()
                       && s.vars[s.saVarId].cur.loc.regId == sa.value)
      && s.hasPreservedFP == (sa.Some? && fv.preservedFP)
  {
    SlotVarsLength(srcs, a, ArgCountLoHi);
  }

  /** After initWorkData, a group's targets and registers to shuffle are
      exactly the target registers of the slots in that group. */
  lemma BuiltTargets(s: Snap, arch: Arch, fv: FrameView, srcs: seq<FuncValue>, a: ArgsAssignment, g: Group)
    requires s.Shaped() && fv.WellFormed() && a.WellFormed() && Built(s, arch, fv, srcs, a)
    ensures s.views[g].usedRegs == DstIds(a, ArgCountLoHi, g) && s.views[g].dstShuf == DstIds(a, ArgCountLoHi, g)
    ensures s.stackDstMask == StackDstGroups(arch, srcs, a, ArgCountLoHi)
  {
    assert BuiltGroupOf(s, arch, fv, srcs, a, g);
  }
}
