/** X86FuncArgsContext: the state the argument shuffler builds before it emits
    anything, and the frame updates argsToFuncFrame derives from it. */
module ArgsContexts {
  import opened Defs
  import opened Moves
  import opened Frames
  import opened FuncDetails
  import opened WorkDatas
  import opened ArgVars
  import opened Marks

  /** Four fresh, reset work areas with distinct tables. */
  method NewWorkAreas() returns (ws: seq<WorkData>)
    ensures |ws| == 4
    ensures forall g: Group :: fresh(ws[g]) && fresh(ws[g].physToVarId) && ws[g].IsReset()
    ensures forall g: Group, h: Group :: g != h ==> ws[g] != ws[h] && ws[g].physToVarId != ws[h].physToVarId
  {
    var w0 := new WorkData();
    var w1 := new WorkData();
    var w2 := new WorkData();
    var w3 := new WorkData();
    ws := [w0, w1, w2, w3];
  }

  class ArgsContext {
    var archType: Arch
    var hasStackSrc: bool
    var hasPreservedFP: bool
    var stackDstMask: set<Group>
    var regSwapsMask: set<Group>
    var saVarId: nat
    var varCount: nat
    /** `_workData[kGroupVirt]`: one per register group. */
    const workData: seq<WorkData>
    const vars: array<Var>
    ghost const Repr: set<object>

    /** Four distinct work areas with distinct tables, and room for every variable. */
    ghost predicate Valid() {
      && |workData| == 4 && vars.Length == VarCapacity
      && (forall g: Group :: workData[g].physToVarId.Length == 32)
      && (forall g: Group, h: Group :: g != h ==>
            workData[g] != workData[h] && workData[g].physToVarId != workData[h].physToVarId)
      && this in Repr && vars in Repr
      && (forall g: Group :: workData[g] in Repr && workData[g].physToVarId in Repr)
    }

    /** The masks and counters of the four work areas, as values. */
    function Views(): (vs: seq<WorkView>)
      requires |workData| == 4
      reads workData
      ensures |vs| == 4
    {
      [workData[0].View(), workData[1].View(), workData[2].View(), workData[3].View()]
    }

    /** The four tables, as values. */
    function Tables(): (ts: seq<seq<nat>>)
      requires Valid()
      reads workData[0].physToVarId, workData[1].physToVarId, workData[2].physToVarId, workData[3].physToVarId
      ensures TablesShaped(ts)
    {
      [workData[0].physToVarId[..], workData[1].physToVarId[..], workData[2].physToVarId[..], workData[3].physToVarId[..]]
    }

    /** The state the constructor leaves. */
    predicate IsInitial()
      requires Valid()
      reads Repr
    {
      && archType == ArchNone && varCount == 0 && !hasStackSrc && !hasPreservedFP
      && stackDstMask == {} && regSwapsMask == {} && saVarId == VarIdNone
      && workData[0].IsReset() && workData[1].IsReset() && workData[2].IsReset() && workData[3].IsReset()
    }

    constructor ()
      ensures Valid() && IsInitial() && fresh(Repr)
    {
      archType := ArchNone;
      varCount := 0;
      hasStackSrc := false;
      hasPreservedFP := false;
      stackDstMask := {};
      regSwapsMask := {};
      saVarId := VarIdNone;
      var ws := NewWorkAreas();
      workData := ws;
      vars := new Var[VarCapacity](_ => NoVar);
      Repr := {this, vars, ws[0], ws[1], ws[2], ws[3], ws[0].physToVarId, ws[1].physToVarId, ws[2].physToVarId, ws[3].physToVarId};
    }

    // -------------------------------------------------------------------------
    // initWorkData
    // -------------------------------------------------------------------------

    /** The context's state, as a value. */
    ghost function Snapshot(): (s: Snap)
      requires Valid()
      reads Repr
      ensures s.Shaped()
    {
      Snap(archType, hasStackSrc, hasPreservedFP, stackDstMask, regSwapsMask, saVarId, varCount,
           Views(), Tables(), vars[..])
    }

    /** One iteration of initWorkData's extraction loop: slot `i` becomes
        variable `n`, or the slot's error is reported. */
    method AddArg(arch: Arch, fp: bool, srcs: seq<FuncValue>, a: ArgsAssignment, i: nat, n: nat)
      returns (r: Result<()>)
      requires Valid() && i < ArgCountLoHi && Extracted(Snapshot(), arch, fp, srcs, a, i, n)
      requires FirstArgError(arch, fp, srcs, a, i).None? && SourcesWellFormed(srcs)
      modifies Repr
      ensures r.Err? <==> ArgError(arch, fp, srcs, a, i).Some?
      ensures r.Err? ==> r.error == ArgError(arch, fp, srcs, a, i).value
      ensures r.Ok? ==> Extracted(Snapshot(), arch, fp, srcs, a, i + 1, |SlotVars(srcs, a, i + 1)|)
    {
      var dst := a.Arg(i);
      var src := SrcOf(srcs, i);
      if !dst.IsAssigned() {
        ExtractedSkipStep(Snapshot(), arch, fp, srcs, a, i, n);
        return Ok(());
      }
      if !src.IsAssigned() {
        return Err(InvalidState);
      }
      ghost var s0 := Snapshot();
      ExtractedMasks(s0, arch, fp, srcs, a, i, n);
      SlotVarsLength(srcs, a, i);
      r := AddAssignedArg(arch, fp, srcs, a, i, n);
      if r.Ok? {
        ExtractedAddStep(s0, Snapshot(), arch, fp, srcs, a, i, n);
      }
    }

    /** An assigned slot: its variable is stored, then its target and its source
        are recorded, each after its own checks. */
    method AddAssignedArg(arch: Arch, fp: bool, srcs: seq<FuncValue>, a: ArgsAssignment, i: nat, n: nat)
      returns (r: Result<()>)
      requires Valid() && n < ArgCountLoHi && SourcesWellFormed(srcs)
      requires a.Arg(i).IsAssigned() && SrcOf(srcs, i).IsAssigned()
      requires TargetMasks(Views(), arch, fp, a, i) && SourceMasks(Views(), srcs, a, i) && ViewsAgree(Views(), Tables())
      modifies Repr
      ensures var t := TargetError(arch, fp, a, i, SrcOf(srcs, i));
              var e := if t.Some? then t else SrcError(SrcOf(srcs, i));
              r == if e.Some? then Err(e.value) else Ok(())
      ensures r.Ok? ==> AddStep(old(Snapshot()), Snapshot(), arch, srcs, a, i, n)
    {
      var dst := a.Arg(i);
      var src := SrcOf(srcs, i);
      ghost var s0 := Snapshot();
      vars[n] := ArgVar(src, dst);
      assert Snapshot() == VarSnap(s0, n, ArgVar(src, dst));
      r := AddTarget(arch, fp, srcs, a, i);
      if r.Err? {
        return;
      }
      TargetViewsKeepSources(old(Views()), Tables(), srcs, a, i, dst);
      r := AddSource(srcs, a, i, n);
    }

    /** The target half of one slot: the target register must be a valid,
        unclaimed register of its group and is then claimed; a stack target must
        have a register to move through, whose group is recorded. */
    method AddTarget(arch: Arch, fp: bool, srcs: seq<FuncValue>, a: ArgsAssignment, i: nat)
      returns (r: Result<()>)
      requires Valid() && a.Arg(i).IsAssigned() && TargetMasks(Views(), arch, fp, a, i)
      modifies workData[0], workData[1], workData[2], workData[3], this`stackDstMask
      ensures var e := TargetError(arch, fp, a, i, SrcOf(srcs, i)); r == if e.Some? then Err(e.value) else Ok(())
      ensures r.Ok? ==> Snapshot() == TargetSnap(old(Snapshot()), arch, SrcOf(srcs, i), a.Arg(i))
      ensures r.Ok? && a.Arg(i).IsReg() ==> GroupOf(a.Arg(i).loc.regType) < 4 && a.Arg(i).loc.regId < 32
    {
      var src := SrcOf(srcs, i);
      var out := OutOf(src, a.Arg(i));
      if out.IsReg() {
        var e := CheckRegTarget(arch, fp, a, i);
        if e.Some? {
          return Err(e.value);
        }
        AddRegTarget(arch, src, a.Arg(i));
      } else {
        r := AddStackTarget(arch, src, a.Arg(i));
        if r.Err? {
          return;
        }
      }
      return Ok(());
    }

    /** A stack target needs a register to carry the value between stack slots;
        that register's group is recorded. */
    method AddStackTarget(arch: Arch, src: FuncValue, dst: FuncValue) returns (r: Result<()>)
      requires Valid() && dst.IsStack()
      modifies this`stackDstMask
      ensures r.Ok? <==> MemMoveGroup(arch, src, dst).Some?
      ensures r.Err? ==> r.error == InvalidState
      ensures r.Ok? ==> Snapshot() == TargetSnap(old(Snapshot()), arch, src, dst)
    {
      ghost var s0 := Snapshot();
      assert TargetViews(s0.views, dst) == s0.views by {
        assert forall h: Group :: !RegIn(dst, h);
      }
      var out := OutOf(src, dst);
      var ri := RegForMemToMemMove(arch, out.typeId, src.typeId);
      if ri.None? {
        return Err(InvalidState);
      }
      assert MemMoveGroup(arch, src, dst) == Some(GroupOf(ri.value) as Group);
      stackDstMask := stackDstMask + {GroupOf(ri.value) as Group};
      return Ok(());
    }

    /** The checks initWorkData makes of a register target, against the work
        area of the target's group. */
    method CheckRegTarget(arch: Arch, fp: bool, a: ArgsAssignment, i: nat) returns (e: Option<Error>)
      requires Valid() && a.Arg(i).IsReg() && TargetMasks(Views(), arch, fp, a, i)
      ensures e == RegTargetError(arch, fp, a, i)
      ensures e.None? ==> GroupOf(a.Arg(i).loc.regType) < 4 && a.Arg(i).loc.regId < 32
    {
      var rt := a.Arg(i).loc.regType;
      if rt == BadType {
        return Some(InvalidRegType);
      }
      if GroupOf(rt) >= 4 {
        return Some(InvalidRegGroup);
      }
      var g: Group := GroupOf(rt);
      var wd := workData[g];
      assert wd.View() == Views()[g];
      var id := a.Arg(i).loc.regId;
      if id >= 32 || id !in wd.archRegs {
        return Some(InvalidPhysId);
      }
      DstIdsTaken(a, i, g, id);
      if id in wd.dstRegs {
        return Some(OverlappedRegs);
      }
      return None;
    }

    /** A register target is claimed in its group. */
    method AddRegTarget(arch: Arch, src: FuncValue, dst: FuncValue)
      requires Valid() && dst.IsReg() && GroupOf(dst.loc.regType) < 4 && dst.loc.regId < 32
      modifies workData[0], workData[1], workData[2], workData[3]
      ensures Snapshot() == TargetSnap(old(Snapshot()), arch, src, dst)
    {
      ghost var s0 := Snapshot();
      assert StackDstOf(arch, src, dst) == {};
      var g: Group := GroupOf(dst.loc.regType);
      workData[g].AddDst(dst.loc.regId);
      assert forall h: Group :: RegIn(dst, h) <==> h == g;
      assert Views() == TargetViews(s0.views, dst);
    }

    /** The source half of one slot: a register source occupies its register in
        its own group (whether or not that is the target's group); a stack
        source counts as a load of the target's group. */
    method AddSource(srcs: seq<FuncValue>, a: ArgsAssignment, i: nat, n: nat)
      returns (r: Result<()>)
      requires Valid() && n < VarCapacity && SourcesWellFormed(srcs)
      requires a.Arg(i).IsAssigned() && SrcOf(srcs, i).IsAssigned()
      requires a.Arg(i).IsReg() ==> GroupOf(a.Arg(i).loc.regType) < 4 && a.Arg(i).loc.regId < 32
      requires SourceMasks(Views(), srcs, a, i) && ViewsAgree(Views(), Tables())
      modifies workData[0], workData[1], workData[2], workData[3]
      modifies workData[0].physToVarId, workData[1].physToVarId, workData[2].physToVarId, workData[3].physToVarId
      modifies this`hasStackSrc
      ensures var e := SrcError(SrcOf(srcs, i)); r == if e.Some? then Err(e.value) else Ok(())
      ensures r.Ok? ==> Snapshot() == SourceSnap(old(Snapshot()), a.Arg(i), SrcOf(srcs, i), n)
      ensures r.Ok? ==> ViewsAgree(Views(), Tables())
    {
      var src := SrcOf(srcs, i);
      if src.IsReg() {
        if GroupOf(src.loc.regType) >= 4 {
          return Err(InvalidState);
        }
        var sg: Group := GroupOf(src.loc.regType);
        SrcIdFresh(srcs, a, i, i, sg);
        assert Views()[sg].assignedRegs == SrcIds(srcs, a, i, sg);
        AddRegSource(a.Arg(i), src, n);
      } else {
        AddStackSource(a.Arg(i), src, n);
      }
      return Ok(());
    }

    /** A register source: its register in its own group becomes occupied by variable `n`. */
    method AddRegSource(dst: FuncValue, src: FuncValue, n: nat)
      requires Valid() && n < VarCapacity && src.IsReg() && GroupOf(src.loc.regType) < 4 && src.loc.regId < 32
      requires ViewsAgree(Views(), Tables())
      requires src.loc.regId !in Views()[GroupOf(src.loc.regType)].assignedRegs
      modifies workData[0], workData[1], workData[2], workData[3]
      modifies workData[0].physToVarId, workData[1].physToVarId, workData[2].physToVarId, workData[3].physToVarId
      ensures Snapshot() == SourceSnap(old(Snapshot()), dst, src, n)
      ensures ViewsAgree(Views(), Tables())
    {
      var sg: Group := GroupOf(src.loc.regType);
      var id := src.loc.regId;
      ghost var s0 := Snapshot();
      ghost var vs, ts := s0.views, s0.tables;
      assert workData[sg].Valid() by {
        assert MaskAgrees(vs[sg].assignedRegs, ts[sg]);
      }
      workData[sg].Assign(n, id);
      assert forall h: Group :: RegIn(src, h) <==> h == sg;
      assert Views() == SourceViews(vs, dst, src);
      assert Tables() == SourceTables(ts, src, n);
      assert forall h: Group :: MaskAgrees(Views()[h].assignedRegs, Tables()[h]) by {
        forall h: Group ensures MaskAgrees(Views()[h].assignedRegs, Tables()[h]) {
          if h != sg {
            assert MaskAgrees(vs[h].assignedRegs, ts[h]);
          }
        }
      }
    }

    /** A stack source: one more stack load for the target's group. */
    method AddStackSource(dst: FuncValue, src: FuncValue, n: nat)
      requires Valid() && !src.IsReg() && ViewsAgree(Views(), Tables())
      requires dst.IsReg() ==> GroupOf(dst.loc.regType) < 4 && dst.loc.regId < 32
      modifies workData[0], workData[1], workData[2], workData[3], this`hasStackSrc
      ensures Snapshot() == SourceSnap(old(Snapshot()), dst, src, n)
      ensures ViewsAgree(Views(), Tables())
    {
      ghost var s0 := Snapshot();
      StackSourceTables(s0.tables, src, n);
      if dst.IsReg() {
        var g: Group := GroupOf(dst.loc.regType);
        StackSourceViews(s0.views, dst, src, g);
        workData[g].numStackArgs := workData[g].numStackArgs + 1;
        assert Views() == s0.views[g := s0.views[g].(numStackArgs := s0.views[g].numStackArgs + 1)];
      } else {
        StackSourceToStack(s0.views, dst, src);
      }
      hasStackSrc := true;
    }
  
    /** The architecture and each group's architectural registers. */
    method InitArchRegs(arch: Arch, fp: bool)
      requires Valid()
      modifies this`archType, workData[0], workData[1], workData[2], workData[3]
      ensures archType == arch && Views() == ArchViews(old(Views()), arch, fp)
    {
      ghost var s0 := Views();
      var count := if arch == X86 then 8 else 16;
      var gp := Bits(count) - {IdSp};
      if fp {
        gp := gp - {IdBp};
      }
      assert gp == ArchRegs(arch, fp, GroupGp);
      var w0, w1, w2, w3 := workData[0], workData[1], workData[2], workData[3];
      assert w0 != w1 && w0 != w2 && w0 != w3 && w1 != w2 && w1 != w3 && w2 != w3;
      archType := arch;
      w0.archRegs := gp;
      w1.archRegs := Bits(count);
      w2.archRegs := Bits(8);
      w3.archRegs := Bits(8);
      assert Views() == ArchViews(s0, arch, fp);
    }

    /** initWorkData: the variables of the assigned slots, each group's masks
        and table, the SA variable when one is needed, and the swaps; or the
        first error, in the order the source checks for them. */
    method InitWorkData(arch: Arch, fv: FrameView, srcs: seq<FuncValue>, a: ArgsAssignment) returns (r: Result<()>)
      requires Valid() && IsInitial() && fv.WellFormed() && a.WellFormed() && SourcesWellFormed(srcs)
      modifies Repr
      ensures r == InitOutcome(arch, fv, srcs, a)
      ensures r.Ok? ==> Built(Snapshot(), arch, fv, srcs, a)
    {
      var fp := fv.preservedFP;
      StartExtraction(arch, fp, srcs, a);
      var n;
      r, n := ExtractArgs(arch, fp, srcs, a);
      if r.Err? {
        return;
      }
      r := FinishWorkData(arch, fv, srcs, a, n);
    }

    /** The steps of initWorkData after the extraction loop: working registers,
        the SA variable, the variable count, and the swaps. */
    method FinishWorkData(arch: Arch, fv: FrameView, srcs: seq<FuncValue>, a: ArgsAssignment, n: nat) returns (r: Result<()>)
      requires Valid() && fv.WellFormed() && a.WellFormed()
      requires n == |SlotVars(srcs, a, ArgCountLoHi)| && Extracted(Snapshot(), arch, fv.preservedFP, srcs, a, ArgCountLoHi, n)
      modifies Repr
      ensures var p := SaPlanOf(arch, fv, srcs, a); r == if p.Err? then Err(p.error) else Ok(())
      ensures r.Ok? ==> Built(Snapshot(), arch, fv, srcs, a)
    {
      ghost var s1 := Snapshot();
      var m;
      r, m := PrepareVars(arch, fv, srcs, a, n);
      if r.Err? {
        return;
      }
      ghost var s3 := Snapshot();
      BuiltByChain(s1, s3, arch, fv, srcs, a);
      BuiltAgrees(SwapSnap(s3.(varCount := m), m), arch, fv, srcs, a);
      SwapSnapKeepsAgreement(s3.(varCount := m), m);
      CountVarsAndSwaps(m);
    }

    /** Working registers for every group, then the SA variable when one is
        needed; `m` counts the variables. */
    method PrepareVars(arch: Arch, fv: FrameView, srcs: seq<FuncValue>, a: ArgsAssignment, n: nat)
      returns (r: Result<()>, m: nat)
      requires Valid() && fv.WellFormed() && a.WellFormed()
      requires n == |SlotVars(srcs, a, ArgCountLoHi)| && Extracted(Snapshot(), arch, fv.preservedFP, srcs, a, ArgCountLoHi, n)
      modifies workData[0], workData[1], workData[2], workData[3], workData[GroupGp].physToVarId
      modifies this`saVarId, this`hasPreservedFP, vars
      ensures var p := SaPlanOf(arch, fv, srcs, a); r == if p.Err? then Err(p.error) else Ok(())
      ensures r.Ok? ==> m == BuiltCount(arch, fv, srcs, a)
      ensures r.Ok? ==>
                var s2 := old(Snapshot()).(views := WorkRegsViews(old(Views()), fv, 4));
                var sa := SaReg(arch, fv, srcs, a);
                Snapshot() == if sa.Some? then SaSnap(s2, arch, fv.preservedFP, sa.value, a.saRegId, n) else s2
    {
      ghost var s1 := Snapshot();
      SaPlanByViews(s1, arch, fv, srcs, a);
      SlotVarsLength(srcs, a, ArgCountLoHi);
      InitWorkRegs(fv);
      assert Snapshot() == s1.(views := WorkRegsViews(s1.views, fv, 4));
      r, m := AddSaVar(arch, fv, a, n);
    }

    /** The variable count is recorded and the swaps among the variables are counted. */
    method CountVarsAndSwaps(m: nat)
      requires Valid() && m <= VarCapacity && ViewsAgree(Views(), Tables())
      modifies workData[0], workData[1], workData[2], workData[3], this`regSwapsMask, this`varCount
      ensures Snapshot() == SwapSnap(old(Snapshot()).(varCount := m), m)
    {
      ghost var s3 := Snapshot();
      varCount := m;
      assert Snapshot() == s3.(varCount := m);
      DetectSwaps();
    }

    /** The SA variable, as variable `n`, when one is needed: its register is
        chosen from the GP group's masks and then occupied; `m` counts the
        variables. */
    method AddSaVar(arch: Arch, fv: FrameView, a: ArgsAssignment, n: nat) returns (r: Result<()>, m: nat)
      requires Valid() && fv.WellFormed() && a.WellFormed() && n < VarCapacity
      requires Views()[GroupGp].assignedRegs <= Views()[GroupGp].workRegs
      modifies this`saVarId, this`hasPreservedFP, vars, workData[GroupGp], workData[GroupGp].physToVarId
      ensures var v := old(Views())[GroupGp];
              var p := SaPlan(fv.saRegId, a.saRegId, old(hasStackSrc) && fv.dynamicAlignment && !fv.preservedFP,
                              v.archRegs, v.workRegs, v.assignedRegs, v.dstRegs);
              && r == (if p.Err? then Err(p.error) else Ok(()))
              && (r.Ok? && p.value.None? ==> m == n && Snapshot() == old(Snapshot()))
              && (r.Ok? && p.value.Some? ==>
                    m == n + 1 && Snapshot() == SaSnap(old(Snapshot()), arch, fv.preservedFP, p.value.value, a.saRegId, n))
    {
      ghost var v := Views()[GroupGp];
      var p := ChooseSaReg(fv, a);
      if p.Err? {
        return Err(p.error), n;
      }
      m := n;
      if p.value.Some? {
        SaPlanProps(fv.saRegId, a.saRegId, hasStackSrc && fv.dynamicAlignment && !fv.preservedFP,
                    v.archRegs, v.workRegs, v.assignedRegs, v.dstRegs);
        PlaceSaVar(arch, fv.preservedFP, p.value.value, a.saRegId, n);
        m := n + 1;
      }
      r := Ok(());
    }

    /** The architecture's registers in each reset work area: nothing is
        extracted yet. */
    method StartExtraction(arch: Arch, fp: bool, srcs: seq<FuncValue>, a: ArgsAssignment)
      requires Valid() && IsInitial()
      modifies this`archType, workData[0], workData[1], workData[2], workData[3]
      ensures Extracted(Snapshot(), arch, fp, srcs, a, 0, 0)
    {
      assert Views() == [EmptyView, EmptyView, EmptyView, EmptyView];
      ghost var ts := Tables();
      assert forall g: Group, r: RegId :: ts[g][r] == VarIdNone by {
        forall g: Group, r: RegId ensures ts[g][r] == VarIdNone {
          assert workData[g].IsReset();
        }
      }
      InitArchRegs(arch, fp);
      ArchViewsStart(arch, fp);
      assert Tables() == ts;
      ExtractedStart(Snapshot(), arch, fp, srcs, a);
    }

    /** initWorkData's extraction loop: one variable per assigned slot, in slot
        order, or the first failing slot's error. */
    method ExtractArgs(arch: Arch, fp: bool, srcs: seq<FuncValue>, a: ArgsAssignment) returns (r: Result<()>, n: nat)
      requires Valid() && SourcesWellFormed(srcs) && Extracted(Snapshot(), arch, fp, srcs, a, 0, 0)
      modifies Repr
      ensures r.Err? <==> FirstArgError(arch, fp, srcs, a, ArgCountLoHi).Some?
      ensures r.Err? ==> r.error == FirstArgError(arch, fp, srcs, a, ArgCountLoHi).value
      ensures r.Ok? ==> n == |SlotVars(srcs, a, ArgCountLoHi)| && Extracted(Snapshot(), arch, fp, srcs, a, ArgCountLoHi, n)
    {
      n := 0;
      var i := 0;
      while i < ArgCountLoHi
        invariant 0 <= i <= ArgCountLoHi
        invariant FirstArgError(arch, fp, srcs, a, i).None?
        invariant n == |SlotVars(srcs, a, i)|
        invariant Extracted(Snapshot(), arch, fp, srcs, a, i, n)
      {
        r := AddArg(arch, fp, srcs, a, i, n);
        if r.Err? {
          FirstArgErrorFrom(arch, fp, srcs, a, i, ArgCountLoHi);
          return;
        }
        if a.Arg(i).IsAssigned() {
          n := n + 1;
        }
        i := i + 1;
      }
      r := Ok(());
    }

    /** Each group's working registers, from its masks and the frame. */
    method InitWorkRegs(fv: FrameView)
      requires Valid() && fv.WellFormed()
      modifies workData[0], workData[1], workData[2], workData[3]
      ensures Views() == WorkRegsViews(old(Views()), fv, 4)
    {
      ghost var s0 := Views();
      var g := 0;
      while g < 4
        invariant 0 <= g <= 4
        invariant Views() == WorkRegsViews(s0, fv, g)
      {
        var wd := workData[g];
        WorkRegsViewsAt(s0, fv, g, g);
        assert wd.View() == s0[g];
        wd.workRegs := WorkRegsOf(wd.archRegs, fv.dirty[g], fv.preserved[g], wd.dstRegs, wd.assignedRegs);
        WorkRegsViewsStep(s0, fv, g);
        g := g + 1;
      }
    }
  
    /** The register the SA variable starts in, chosen from the GP group's
        masks; the frame's choice and the requested target are checked for
        overlaps first. */
    method ChooseSaReg(fv: FrameView, a: ArgsAssignment) returns (r: Result<Option<RegId>>)
      requires Valid() && fv.WellFormed() && a.WellFormed()
      ensures var v := Views()[GroupGp];
              r == SaPlan(fv.saRegId, a.saRegId, hasStackSrc && fv.dynamicAlignment && !fv.preservedFP,
                          v.archRegs, v.workRegs, v.assignedRegs, v.dstRegs)
    {
      var gp := workData[GroupGp];
      var saCur := fv.saRegId;
      var saOut := a.saRegId;
      var required := hasStackSrc && fv.dynamicAlignment && !fv.preservedFP;
      if saCur != IdBad && gp.IsAssigned(saCur) {
        return Err(OverlappedRegs);
      }
      if saOut != IdBad {
        if saOut in gp.dstRegs {
          return Err(OverlappedRegs);
        }
        required := true;
      }
      if !required {
        return Ok(None);
      }
      if saCur != IdBad {
        return Ok(Some(saCur));
      }
      if saOut != IdBad && !gp.IsAssigned(saOut) {
        return Ok(Some(saOut));
      }
      var avail := gp.AvailableRegs();
      if avail == {} {
        avail := gp.archRegs - gp.workRegs;
      }
      if avail == {} {
        return Err(NoMorePhysRegs);
      }
      return Ok(Some(LowestId(avail)));
    }

    /** The SA variable becomes variable `n`: it occupies `cur`, which becomes a
        working register, and a requested target `out` becomes a target and a
        working register. */
    method PlaceSaVar(arch: Arch, fp: bool, cur: RegId, out: nat, n: nat)
      requires Valid() && n < VarCapacity && (out == IdBad || out < 32)
      requires cur !in Views()[GroupGp].assignedRegs
      modifies this`saVarId, this`hasPreservedFP, vars, workData[GroupGp], workData[GroupGp].physToVarId
      ensures Snapshot() == SaSnap(old(Snapshot()), arch, fp, cur, out, n)
    {
      saVarId := n;
      hasPreservedFP := fp;
      vars[n] := SaVar(arch, cur, out);
      OccupySaReg(cur, out, n);
    }

    /** The GP group's part of PlaceSaVar. */
    method OccupySaReg(cur: RegId, out: nat, n: nat)
      requires Valid() && n < VarCapacity && (out == IdBad || out < 32)
      requires cur !in Views()[GroupGp].assignedRegs
      modifies workData[GroupGp], workData[GroupGp].physToVarId
      ensures Views() == old(Views())[GroupGp := SaView(old(Views())[GroupGp], cur, out)]
      ensures var t: seq<nat> := old(Tables())[GroupGp][cur := n]; Tables() == old(Tables())[GroupGp := t]
    {
      var gp := workData[GroupGp];
      gp.Assign(n, cur);
      gp.workRegs := gp.workRegs + {cur};
      if out != IdBad {
        gp.dstRegs := gp.dstRegs + {out};
        gp.workRegs := gp.workRegs + {out};
      }
    }

    /** initWorkData's swap detection: each variable that is one half of a swap
        is counted in its group. */
    method DetectSwaps()
      requires Valid() && varCount <= VarCapacity && ViewsAgree(Views(), Tables())
      modifies workData[0], workData[1], workData[2], workData[3], this`regSwapsMask
      ensures Snapshot() == SwapSnap(old(Snapshot()), old(varCount))
    {
      ghost var s0 := Snapshot();
      var v := 0;
      while v < varCount
        invariant 0 <= v <= varCount
        invariant Snapshot() == SwapSnap(s0, v)
      {
        SwapStep(s0, v);
        v := v + 1;
      }
    }

    /** One variable of the swap detection. */
    method SwapStep(ghost s0: Snap, v: nat)
      requires Valid() && v < VarCapacity && s0.Shaped() && ViewsAgree(s0.views, s0.tables)
      requires Snapshot() == SwapSnap(s0, v)
      modifies workData[0], workData[1], workData[2], workData[3], this`regSwapsMask
      ensures Snapshot() == SwapSnap(s0, v + 1)
    {
      SwapSnapKeepsAgreement(s0, v);
      var swap, group := IsSwap(v);
      if swap {
        SwapSnapCount(s0, v);
        CountSwap(group);
      } else {
        SwapSnapSkip(s0, v);
      }
    }

    /** One more swap in `group`. */
    method CountSwap(group: Group)
      requires Valid()
      modifies workData[group], this`regSwapsMask
      ensures Snapshot() == SwapBump(old(Snapshot()), group)
    {
      ghost var vs := Views();
      workData[group].numSwaps := workData[group].numSwaps + 1;
      regSwapsMask := regSwapsMask + {group};
      assert Views() == vs[group := vs[group].(numSwaps := vs[group].numSwaps + 1)];
    }

    /** The swap test for one variable: its target, in the group of its current
        register, is held by a variable whose target is that current register.
        The group and the register ids are checked before they index anything. */
    method IsSwap(v: nat) returns (swap: bool, group: Group)
      requires Valid() && v < VarCapacity && ViewsAgree(Views(), Tables())
      ensures swap == Swap(vars[..], Tables(), v)
      ensures swap ==> group == GroupOf(vars[v].cur.loc.regType)
    {
      group := 0;
      var x := vars[v];
      if !(x.cur.IsReg() && x.out.IsReg()) {
        return false, group;
      }
      var srcId := x.cur.loc.regId;
      var dstId := x.out.loc.regId;
      if GroupOf(x.cur.loc.regType) != GroupOf(x.out.loc.regType) || GroupOf(x.cur.loc.regType) >= 4 || srcId >= 32 || dstId >= 32 {
        return false, group;
      }
      group := GroupOf(x.cur.loc.regType);
      var wd := workData[group];
      assert MaskAgrees(Views()[group].assignedRegs, Tables()[group]);
      if !wd.IsAssigned(dstId) {
        return false, group;
      }
      var o := wd.physToVarId[dstId];
      if o >= vars.Length {
        return false, group;
      }
      var other := vars[o];
      swap := other.out.IsReg() && GroupOf(other.out.loc.regType) == group && other.out.loc.regId == srcId && srcId != dstId;
    }
  
    // -------------------------------------------------------------------------
    // markDstRegsDirty, markScratchRegs, markStackArgsReg
    // -------------------------------------------------------------------------

    /** markDstRegsDirty: in every group the targets and the registers still to
        be shuffled become working registers and dirty registers of the frame. */
    method MarkDstRegsDirty(frame: FuncFrame)
      requires Valid() && frame.Valid()
      modifies workData[0], workData[1], workData[2], workData[3], frame`dirtyRegs
      ensures frame.Valid()
      ensures Views() == DstMarkedViews(old(Views()), 4)
      ensures frame.dirtyRegs == DstDirtyRegs(old(frame.dirtyRegs), old(Views()), 4)
    {
      ghost var vs := Views();
      ghost var ds := frame.dirtyRegs;
      var g := 0;
      while g < 4
        invariant 0 <= g <= 4 && frame.Valid()
        invariant Views() == DstMarkedViews(vs, g)
        invariant frame.dirtyRegs == DstDirtyRegs(ds, vs, g)
      {
        var wd := workData[g];
        DstMarkedAtLemma(vs, ds, g, g);
        assert wd.View() == vs[g];
        var regs := wd.usedRegs + wd.dstShuf;
        wd.workRegs := wd.workRegs + regs;
        frame.AddDirtyRegs(g, regs);
        DstMarkedStep(vs, ds, g);
        g := g + 1;
      }
    }

    /** markScratchRegs: every group a stack-to-stack move goes through, and
        every group with a swap except GP, gets its scratch register as a
        working register and a dirty register of the frame, when it has one. */
    method MarkScratchRegs(frame: FuncFrame)
      requires Valid() && frame.Valid()
      modifies workData[0], workData[1], workData[2], workData[3], frame`dirtyRegs
      ensures frame.Valid()
      ensures Views() == ScratchViews(old(Views()), ScratchGroups(stackDstMask, regSwapsMask), 4)
      ensures frame.dirtyRegs == ScratchDirtyRegs(old(frame.dirtyRegs), old(Views()), ScratchGroups(stackDstMask, regSwapsMask), 4)
    {
      ghost var vs := Views();
      ghost var ds := frame.dirtyRegs;
      var groupMask := stackDstMask + (regSwapsMask - {GroupGp});
      if groupMask == {} {
        ScratchNone(vs, ds);
        return;
      }
      var g := 0;
      while g < 4
        invariant 0 <= g <= 4 && frame.Valid()
        invariant Views() == ScratchViews(vs, groupMask, g)
        invariant frame.dirtyRegs == ScratchDirtyRegs(ds, vs, groupMask, g)
      {
        ScratchAtLemma(vs, ds, groupMask, g, g);
        ScratchStep(vs, ds, groupMask, g);
        if g in groupMask {
          MarkScratchReg(frame, g);
        }
        g := g + 1;
      }
    }

    /** One group of markScratchRegs: its scratch register, if it has one,
        becomes a working register and dirty. */
    method MarkScratchReg(frame: FuncFrame, g: Group)
      requires Valid() && frame.Valid()
      modifies workData[g], frame`dirtyRegs
      ensures frame.Valid()
      ensures Views() == old(Views())[g := ScratchView(old(Views())[g], true)]
      ensures frame.dirtyRegs == old(frame.dirtyRegs)[g := ScratchDirty(old(frame.dirtyRegs)[g], old(Views())[g], true)]
    {
      ghost var vs := Views();
      var wd := workData[g];
      assert wd.View() == vs[g];
      var work := wd.workRegs;
      var regs := work - (wd.usedRegs + wd.dstShuf);
      if regs == {} {
        regs := work - wd.usedRegs;
      }
      if regs == {} {
        regs := wd.archRegs - work;
      }
      if regs != {} {
        var id := LowestId(regs);
        wd.workRegs := wd.workRegs + {id};
        frame.AddDirtyRegs(g, {id});
      }
    }

    /** markStackArgsReg: the frame's SA register is the SA variable's register
        when there is one, else the frame pointer when the frame keeps it. */
    method MarkStackArgsReg(frame: FuncFrame)
      requires Valid() && frame.Valid()
      requires saVarId != VarIdNone ==> saVarId < VarCapacity && vars[saVarId].cur.IsReg() && vars[saVarId].cur.loc.regId < 32
      modifies frame`saRegId
      ensures frame.Valid()
      ensures frame.saRegId == if saVarId != VarIdNone then vars[saVarId].cur.loc.regId
                               else if frame.HasAttr(HasPreservedFP) then IdBp
                               else old(frame.saRegId)
    {
      if saVarId != VarIdNone {
        var x := vars[saVarId];
        frame.SetSARegId(x.cur.loc.regId);
      } else if frame.HasAttr(HasPreservedFP) {
        frame.SetSARegId(IdBp);
      }
    }

    /** The three marking passes of argsToFuncFrame. */
    method MarkFrame(frame: FuncFrame)
      requires Valid() && frame.Valid()
      requires saVarId != VarIdNone ==> saVarId < VarCapacity && vars[saVarId].cur.IsReg() && vars[saVarId].cur.loc.regId < 32
      modifies workData[0], workData[1], workData[2], workData[3], frame`dirtyRegs, frame`saRegId
      ensures frame.Valid()
      ensures frame.dirtyRegs == MarkedDirtyRegs(old(frame.dirtyRegs), old(Views()), stackDstMask, regSwapsMask)
      ensures frame.saRegId == MarkedSaReg(saVarId, vars[..], frame.HasAttr(HasPreservedFP), old(frame.saRegId))
    {
      MarkDstRegsDirty(frame);
      MarkScratchRegs(frame);
      MarkStackArgsReg(frame);
    }

    /** The marking passes on the context initWorkData has built from `frame`. */
    method MarkBuilt(ghost arch: Arch, ghost fv: FrameView, ghost srcs: seq<FuncValue>, ghost a: ArgsAssignment, frame: FuncFrame)
      requires Valid() && frame.Valid() && fv.WellFormed() && a.WellFormed() && Built(Snapshot(), arch, fv, srcs, a)
      requires fv == FrameViewOf(frame)
      modifies workData[0], workData[1], workData[2], workData[3], frame`dirtyRegs, frame`saRegId
      ensures frame.Valid() && FrameMarked(arch, fv, srcs, a, frame.dirtyRegs, frame.saRegId)
    {
      ghost var s := Snapshot();
      MarkedSaRegIs(s, arch, fv, srcs, a, fv.saRegId);
      MarkFrame(frame);
      MarkedFrame(s, arch, fv, srcs, a, frame.dirtyRegs, frame.saRegId);
    }
  }

  /** The frame as initWorkData reads it. */
  function FrameViewOf(frame: FuncFrame): (fv: FrameView)
    requires frame.Valid()
    reads frame
    ensures fv.WellFormed()
  {
    FrameView(frame.HasAttr(HasPreservedFP), frame.HasDynamicAlignment(), frame.saRegId, frame.dirtyRegs, frame.preservedRegs)
  }

  /** A new context on which initWorkData has run. */
  method NewContext(arch: Arch, fv: FrameView, srcs: seq<FuncValue>, a: ArgsAssignment)
    returns (ctx: ArgsContext, r: Result<()>)
    requires fv.WellFormed() && a.WellFormed() && SourcesWellFormed(srcs)
    ensures fresh(ctx.Repr) && ctx.Valid()
    ensures r == InitOutcome(arch, fv, srcs, a)
    ensures r.Ok? ==> Built(ctx.Snapshot(), arch, fv, srcs, a)
  {
    ctx := new ArgsContext();
    r := ctx.InitWorkData(arch, fv, srcs, a);
  }

  /** X86Internal::argsToFuncFrame: the argument shuffle's needs recorded in the
      frame. It fails exactly as initWorkData does, and then leaves the frame
      alone; otherwise the frame is marked as FrameMarked describes. */
  method ArgsToFuncFrame(func: FuncDetail, a: ArgsAssignment, frame: FuncFrame) returns (r: Result<()>)
    requires frame.Valid() && a.WellFormed() && SourcesWellFormed(func.args)
    modifies frame`dirtyRegs, frame`saRegId
    ensures frame.Valid()
    ensures r == InitOutcome(func.callConv.arch, old(FrameViewOf(frame)), func.args, a)
    ensures r.Err? ==> frame.dirtyRegs == old(frame.dirtyRegs) && frame.saRegId == old(frame.saRegId)
    ensures r.Ok? ==> FrameMarked(func.callConv.arch, old(FrameViewOf(frame)), func.args, a, frame.dirtyRegs, frame.saRegId)
  {
    var fv := FrameViewOf(frame);
    var ctx;
    ctx, r := NewContext(func.callConv.arch, fv, func.args, a);
    if r.Err? {
      return;
    }
    ctx.MarkBuilt(func.callConv.arch, fv, func.args, a, frame);
  }
}
