/** X86Internal::emitArgsAssignment as the source runs it: an ArgsContext built
    by initWorkData, its variables and work areas updated in place phase by
    phase, and an emitter the moves are appended to. Each step is proved to
    leave exactly the stage the value model of the same step computes, so
    what is proved about the model holds of the method. */
module ArgsEmission {
  import opened Defs
  import opened Emit
  import opened Moves
  import opened WorkDatas
  import opened ArgVars
  import opened ArgsContexts
  import opened ShuffleCases
  import opened Shuffles
  import opened Assignments
  import Frames
  import opened FuncDetails

  /** The context and the emitter's trace, as a stage. */
  ghost function Now(ctx: ArgsContext, e: Emitter): (t: Stage)
    requires ctx.Valid()
    reads ctx.Repr, e
    ensures t.Shaped()
  {
    Stage(ctx.vars[..], ctx.Tables(), ctx.Views(), e.trace)
  }

  /** The emitter is not part of the context. */
  ghost predicate Apart(ctx: ArgsContext, e: Emitter) {
    ctx.Valid() && e !in ctx.Repr
  }

  // ---------------------------------------------------------------------------
  // The WorkData operations and variable updates, in place
  // ---------------------------------------------------------------------------

  method UnassignIn(ctx: ArgsContext, e: Emitter, g: Group, varId: nat, r: RegId)
    requires Apart(ctx, e)
    modifies ctx.workData[g], ctx.workData[g].physToVarId
    ensures Now(ctx, e) == Unassign(old(Now(ctx, e)), g, r)
  {
    ctx.workData[g].Unassign(varId, r);
  }

  method AssignIn(ctx: ArgsContext, e: Emitter, g: Group, varId: nat, r: RegId)
    requires Apart(ctx, e)
    modifies ctx.workData[g], ctx.workData[g].physToVarId
    ensures Now(ctx, e) == Assign(old(Now(ctx, e)), g, varId, r)
  {
    ctx.workData[g].Assign(varId, r);
  }

  method ReassignIn(ctx: ArgsContext, e: Emitter, g: Group, varId: nat, newId: RegId, oldId: RegId)
    requires Apart(ctx, e)
    modifies ctx.workData[g], ctx.workData[g].physToVarId
    ensures Now(ctx, e) == Reassign(old(Now(ctx, e)), g, varId, newId, oldId)
  {
    ctx.workData[g].Reassign(varId, newId, oldId);
  }

  method SwapInPlace(ctx: ArgsContext, e: Emitter, g: Group, aVar: nat, aReg: RegId, bVar: nat, bReg: RegId)
    requires Apart(ctx, e)
    modifies ctx.workData[g].physToVarId
    ensures Now(ctx, e) == SwapIn(old(Now(ctx, e)), g, aVar, aReg, bVar, bReg)
  {
    ctx.workData[g].Swap(aVar, aReg, bVar, bReg);
  }

  method SetCur(ctx: ArgsContext, e: Emitter, v: nat, cur: FuncValue)
    requires Apart(ctx, e) && v < VarCapacity
    modifies ctx.vars
    ensures Now(ctx, e) == MoveCur(old(Now(ctx, e)), v, cur)
  {
    ctx.vars[v] := ctx.vars[v].(cur := cur);
  }

  /** emitArgMove on the context's emitter. */
  method ArgMoveIn(ctx: ArgsContext, e: Emitter, dst: Operand, dstT: TypeId, src: Operand, srcT: TypeId, avx: bool)
    returns (r: Result<()>)
    requires Apart(ctx, e) && dst.Reg?
    modifies e
    ensures var m := ArgMove(dst, dstT, src, srcT, avx);
            && (r.Ok? <==> m.Ok?) && (m.Ok? ==> Now(ctx, e) == Emitted(old(Now(ctx, e)), m.value))
            && (m.Err? ==> r.error == m.error)
  {
    r := EmitArgMove(e, dst, dstT, src, srcT, avx);
  }

  /** emitRegMove on the context's emitter. */
  method RegMoveIn(ctx: ArgsContext, e: Emitter, dst: Operand, src: Operand, t: TypeId, avx: bool)
    requires Apart(ctx, e) && IsValidType(t)
    modifies e
    ensures Now(ctx, e) == Emitted(old(Now(ctx, e)), RegMove(dst, src, t, avx))
  {
    EmitRegMove(e, dst, src, t, avx);
  }

  /** An instruction emitted directly. */
  method EmitIn(ctx: ArgsContext, e: Emitter, id: InstId, ops: seq<Operand>)
    requires Apart(ctx, e)
    modifies e
    ensures Now(ctx, e) == Emitted(old(Now(ctx, e)), Inst(id, ops))
  {
    e.Emit(id, ops);
  }

  // ---------------------------------------------------------------------------
  // Phase 1
  // ---------------------------------------------------------------------------

  /** One iteration of the stack-target loop, for variable v. */
  method StackDstStep(ctx: ArgsContext, e: Emitter, v: nat, arch: Arch, base: Operand, avx: bool)
    returns (r: Result<()>)
    requires Apart(ctx, e) && v < VarCapacity && base.Mem?
    modifies ctx.Repr - {ctx}, e
    ensures var m := StackDstVar(old(Now(ctx, e)), v, arch, base, avx);
            && (r.Ok? <==> m.Ok?) && (m.Ok? ==> Now(ctx, e) == m.value) && (m.Err? ==> r.error == m.error)
  {
    ghost var t := Now(ctx, e);
    var x := ctx.vars[v];
    assert x == t.vars[v];
    if !x.out.IsStack() {
      return Ok(());
    }
    if x.cur.IsReg() {
      r := RegToStack(ctx, e, v, arch, base, avx);
    } else if !x.cur.IsStack() {
      return Err(InvalidState);
    } else {
      r := StackToStack(ctx, e, v, arch, base, avx);
    }
  }

  /** The register case of the stack-target loop: the register is released
      and stored. */
  method RegToStack(ctx: ArgsContext, e: Emitter, v: nat, arch: Arch, base: Operand, avx: bool)
    returns (r: Result<()>)
    requires Apart(ctx, e) && v < VarCapacity && base.Mem?
    requires ctx.vars[v].out.IsStack() && ctx.vars[v].cur.IsReg()
    modifies ctx.Repr - {ctx}, e
    ensures var m := StackDstVar(old(Now(ctx, e)), v, arch, base, avx);
            && (r.Ok? <==> m.Ok?) && (m.Ok? ==> Now(ctx, e) == m.value) && (m.Err? ==> r.error == m.error)
  {
    ghost var t := Now(ctx, e);
    var x := ctx.vars[v];
    assert x == t.vars[v];
    var store := Mem(IdSp, x.out.loc.offset, 0);
    var g := GroupOf(x.cur.loc.regType);
    var id := x.cur.loc.regId;
    RegToStackIs(t, v, arch, base, avx);
    if g >= 4 || id >= 32 || !IsValidType(x.cur.typeId) {
      return Err(InvalidState);
    }
    UnassignIn(ctx, e, g, v, id);
    RegMoveIn(ctx, e, store, Reg(x.cur.loc.regType, id), x.cur.typeId, avx);
    SetCur(ctx, e, v, x.cur.(done := true));
    return Ok(());
  }

  /** The stack-to-stack case of the stack-target loop: the value is loaded
      into a free working register and stored from there. */
  method StackToStack(ctx: ArgsContext, e: Emitter, v: nat, arch: Arch, base: Operand, avx: bool)
    returns (r: Result<()>)
    requires Apart(ctx, e) && v < VarCapacity && base.Mem?
    requires ctx.vars[v].out.IsStack() && ctx.vars[v].cur.IsStack()
    modifies ctx.vars, e
    ensures var m := StackDstVar(old(Now(ctx, e)), v, arch, base, avx);
            && (r.Ok? <==> m.Ok?) && (m.Ok? ==> Now(ctx, e) == m.value) && (m.Err? ==> r.error == m.error)
  {
    ghost var t := Now(ctx, e);
    var x := ctx.vars[v];
    assert x == t.vars[v];
    var store := Mem(IdSp, x.out.loc.offset, 0);
    var ri := RegForMemToMemMove(arch, x.out.typeId, x.cur.typeId);
    if ri.None? {
      return Err(InvalidState);
    }
    var g: Group := GroupOf(ri.value);
    var avail := ctx.workData[g].AvailableRegs();
    assert avail == t.views[g].workRegs - t.views[g].assignedRegs;
    if avail == {} {
      return Err(InvalidState);
    }
    var reg := Reg(ri.value, LowestId(avail));
    var src := Mem(base.baseId, base.offset + x.cur.loc.offset, 0);
    ghost var m := ArgMove(reg, x.out.typeId, src, x.cur.typeId, avx);
    StackToStackIs(t, v, arch, base, avx, reg, m);
    r := ArgMoveIn(ctx, e, reg, x.out.typeId, src, x.cur.typeId, avx);
    if r.Err? {
      return;
    }
    if !IsValidType(x.cur.typeId) {
      return Err(InvalidState);
    }
    StoreLoaded(ctx, e, v, store, reg, avx);
  }

  /** The store half of the stack-to-stack case: the loaded register is stored
      into the target slot and the variable is done. */
  method StoreLoaded(ctx: ArgsContext, e: Emitter, v: nat, store: Operand, reg: Operand, avx: bool)
    requires Apart(ctx, e) && v < VarCapacity && IsValidType(ctx.vars[v].cur.typeId)
    modifies ctx.vars, e
    ensures var t := old(Now(ctx, e));
            Now(ctx, e) == MoveCur(Emitted(t, RegMove(store, reg, t.vars[v].cur.typeId, avx)), v,
                                   t.vars[v].cur.(done := true))
  {
    var cur := ctx.vars[v].cur;
    RegMoveIn(ctx, e, store, reg, cur.typeId, avx);
    SetCur(ctx, e, v, cur.(done := true));
  }

  /** The stack-target loop over the variables below `n`. */
  method StackDstsLoop(ctx: ArgsContext, e: Emitter, n: nat, arch: Arch, base: Operand, avx: bool)
    returns (r: Result<()>)
    requires Apart(ctx, e) && n <= VarCapacity && base.Mem?
    modifies ctx.Repr - {ctx}, e
    ensures var m := StackDsts(old(Now(ctx, e)), n, arch, base, avx);
            && (r.Ok? <==> m.Ok?) && (m.Ok? ==> Now(ctx, e) == m.value) && (m.Err? ==> r.error == m.error)
  {
    ghost var t0 := Now(ctx, e);
    for v := 0 to n
      invariant StackDsts(t0, v, arch, base, avx).Ok?
      invariant Now(ctx, e) == StackDsts(t0, v, arch, base, avx).value
    {
      r := StackDstsNext(ctx, e, t0, v, n, arch, base, avx);
      if r.Err? {
        return;
      }
    }
    return Ok(());
  }

  /** The body of the stack-target loop, for variable v. */
  method StackDstsNext(ctx: ArgsContext, e: Emitter, ghost t0: Stage, v: nat, n: nat, arch: Arch, base: Operand, avx: bool)
    returns (r: Result<()>)
    requires Apart(ctx, e) && t0.Shaped() && v < n <= VarCapacity && base.Mem?
    requires StackDsts(t0, v, arch, base, avx).Ok? && Now(ctx, e) == StackDsts(t0, v, arch, base, avx).value
    modifies ctx.Repr - {ctx}, e
    ensures r.Ok? ==> StackDsts(t0, v + 1, arch, base, avx).Ok? && Now(ctx, e) == StackDsts(t0, v + 1, arch, base, avx).value
    ensures r.Err? ==> StackDsts(t0, n, arch, base, avx) == Err(r.error)
  {
    r := StackDstStep(ctx, e, v, arch, base, avx);
    if r.Err? {
      StackDstsErrStays(t0, v + 1, n, arch, base, avx);
    }
  }

  // ---------------------------------------------------------------------------
  // Phase 2
  // ---------------------------------------------------------------------------

  /** The `EmitMove` label: variable v moves from `curId` into register `to`. */
  method MoveToStep(ctx: ArgsContext, e: Emitter, v: nat, g: Group, curType: RegType, curId: RegId, to: RegId,
                    f: Flags, avx: bool)
    returns (r: Result<()>, f1: Flags)
    requires Apart(ctx, e) && v < VarCapacity
    modifies ctx.Repr - {ctx}, e
    ensures var m := MoveTo(old(Now(ctx, e)), v, g, curType, curId, to, f, avx);
            && (r.Ok? <==> m.Ok?) && (m.Ok? ==> (Now(ctx, e), f1) == m.value) && (m.Err? ==> r.error == m.error)
  {
    var x := ctx.vars[v];
    var outType := RegTypeOf(x.out);
    r := ArgMoveIn(ctx, e, Reg(outType, to), x.out.typeId, Reg(curType, curId), x.cur.typeId, avx);
    if r.Err? {
      return r, f;
    }
    ReassignIn(ctx, e, g, v, to, curId);
    SetCur(ctx, e, v, FuncValue(InReg(outType, to), x.out.typeId, to == RegIdOf(x.out)));
    f1 := f.(didSome := true, pending := true);
  }

  /** Two GP variables trade registers with `xchg`. */
  method ExchangeStep(ctx: ArgsContext, e: Emitter, v: nat, curType: RegType, curId: RegId, outId: RegId, altId: nat,
                      f: Flags)
    returns (f1: Flags)
    requires Apart(ctx, e) && v < VarCapacity && altId < VarCapacity
    modifies ctx.workData[GroupGp].physToVarId, ctx.vars, e
    ensures (Now(ctx, e), f1) == Exchange(old(Now(ctx, e)), v, curType, curId, outId, altId, f)
  {
    ghost var t := Now(ctx, e);
    var y := ctx.vars[altId];
    var rt := if curType == Gpq || RegTypeOf(y.cur) == Gpq then Gpq else Gpd;
    ExchangeIs(t, v, curType, curId, outId, altId, f, rt);
    EmitIn(ctx, e, Xchg, [Reg(rt, outId), Reg(rt, curId)]);
    SwapInPlace(ctx, e, GroupGp, v, curId, altId, outId);
    TradeCurs(ctx, e, v, curId, outId, altId);
    f1 := f.(didSome := true);
  }

  /** After the `xchg`: variable v is done in `outId`, the other variable is
      in `curId`, done when it has a target. */
  method TradeCurs(ctx: ArgsContext, e: Emitter, v: nat, curId: RegId, outId: RegId, altId: nat)
    requires Apart(ctx, e) && v < VarCapacity && altId < VarCapacity
    modifies ctx.vars
    ensures Now(ctx, e) == Traded(old(Now(ctx, e)), v, curId, outId, altId)
  {
    var x := ctx.vars[v];
    SetCur(ctx, e, v, WithRegId(x.cur, outId).(done := true));
    var c := ctx.vars[altId];
    SetCur(ctx, e, altId, WithRegId(c.cur, curId).(done := c.cur.done || c.out.IsInitialized()));
  }

  /** One visit of variable v in a shuffle pass. */
  method ShuffleVarStep(ctx: ArgsContext, e: Emitter, v: nat, f: Flags, avx: bool)
    returns (r: Result<()>, f1: Flags)
    requires Apart(ctx, e) && v < VarCapacity
    modifies ctx.Repr - {ctx}, e
    ensures var m := ShuffleVar(old(Now(ctx, e)), v, f, avx);
            && (r.Ok? <==> m.Ok?) && (m.Ok? ==> (Now(ctx, e), f1) == m.value) && (m.Err? ==> r.error == m.error)
  {
    ghost var t := Now(ctx, e);
    var x := ctx.vars[v];
    assert x == t.vars[v];
    if x.IsDone() || !x.cur.IsReg() {
      return Ok(()), f;
    }
    var curType := x.cur.loc.regType;
    var g := GroupOf(curType);
    var curId := x.cur.loc.regId;
    var outId := RegIdOf(x.out);
    if g != GroupOf(RegTypeOf(x.out)) {
      return Ok(()), f.(pending := true);
    }
    if g >= 4 || curId >= 32 || outId >= 32 {
      return Err(InvalidState), f;
    }
    assert ctx.workData[g].View() == t.views[g];
    if !ctx.workData[g].IsAssigned(outId) {
      r, f1 := MoveToStep(ctx, e, v, g, curType, curId, outId, f, avx);
    } else {
      r, f1 := OccupiedStep(ctx, e, v, g, curType, curId, outId, f, avx);
    }
  }

  /** The visit of variable v when its target register `outId` is occupied. */
  method OccupiedStep(ctx: ArgsContext, e: Emitter, v: nat, g: Group, curType: RegType, curId: RegId, outId: RegId,
                      f: Flags, avx: bool)
    returns (r: Result<()>, f1: Flags)
    requires Apart(ctx, e) && v < VarCapacity
    requires var x := ctx.vars[v];
             && !x.IsDone() && x.cur.IsReg() && curType == x.cur.loc.regType && g == GroupOf(curType)
             && curId == x.cur.loc.regId && outId == RegIdOf(x.out) && g == GroupOf(RegTypeOf(x.out))
             && ctx.workData[g].IsAssigned(outId)
    modifies ctx.Repr - {ctx}, e
    ensures var m := ShuffleVar(old(Now(ctx, e)), v, f, avx);
            && (r.Ok? <==> m.Ok?) && (m.Ok? ==> (Now(ctx, e), f1) == m.value) && (m.Err? ==> r.error == m.error)
  {
    ghost var t := Now(ctx, e);
    assert ctx.vars[v] == t.vars[v];
    assert ctx.workData[g].View() == t.views[g];
    var altId := ctx.workData[g].physToVarId[outId];
    assert altId == t.tables[g][outId];
    if altId >= VarCapacity {
      return Err(InvalidState), f;
    }
    var y := ctx.vars[altId];
    assert y == t.vars[altId];
    if !(!y.out.IsInitialized() || (y.out.IsReg() && y.out.loc.regId == curId)) {
      return Ok(()), f.(pending := true);
    }
    if g == GroupGp {
      f1 := ExchangeStep(ctx, e, v, curType, curId, outId, altId, f);
      return Ok(()), f1;
    }
    var avail := ctx.workData[g].AvailableRegs();
    if avail == {} {
      return Ok(()), f.(pending := true);
    }
    var free := avail - ctx.workData[g].dstRegs;
    r, f1 := MoveToStep(ctx, e, v, g, curType, curId, LowestId(if free != {} then free else avail), f, avx);
  }

  /** One shuffle pass over the variables below `n`. */
  method ShufflePassLoop(ctx: ArgsContext, e: Emitter, n: nat, f: Flags, avx: bool)
    returns (r: Result<()>, f1: Flags)
    requires Apart(ctx, e) && n <= VarCapacity
    modifies ctx.Repr - {ctx}, e
    ensures var m := ShufflePass(old(Now(ctx, e)), n, f, avx);
            && (r.Ok? <==> m.Ok?) && (m.Ok? ==> (Now(ctx, e), f1) == m.value) && (m.Err? ==> r.error == m.error)
  {
    ghost var t0 := Now(ctx, e);
    f1 := f;
    for v := 0 to n
      invariant ShufflePass(t0, v, f, avx).Ok?
      invariant (Now(ctx, e), f1) == ShufflePass(t0, v, f, avx).value
    {
      r, f1 := ShufflePassNext(ctx, e, t0, v, n, f, f1, avx);
      if r.Err? {
        return;
      }
    }
    return Ok(()), f1;
  }

  /** The body of a shuffle pass, for variable v. */
  method ShufflePassNext(ctx: ArgsContext, e: Emitter, ghost t0: Stage, v: nat, n: nat, ghost f: Flags, fv: Flags,
                         avx: bool)
    returns (r: Result<()>, f1: Flags)
    requires Apart(ctx, e) && t0.Shaped() && v < n <= VarCapacity
    requires ShufflePass(t0, v, f, avx).Ok? && (Now(ctx, e), fv) == ShufflePass(t0, v, f, avx).value
    modifies ctx.Repr - {ctx}, e
    ensures r.Ok? ==> ShufflePass(t0, v + 1, f, avx).Ok? && (Now(ctx, e), f1) == ShufflePass(t0, v + 1, f, avx).value
    ensures r.Err? ==> ShufflePass(t0, n, f, avx) == Err(r.error)
  {
    r, f1 := ShuffleVarStep(ctx, e, v, fv, avx);
    if r.Err? {
      ShufflePassErrStays(t0, v + 1, n, f, avx);
    }
  }

  /** The shuffle loop: passes until nothing is pending, failing after two
      passes in a row that moved nothing; at most `passes` of them. Its second
      result says whether it settled. */
  method ShuffleLoop(ctx: ArgsContext, e: Emitter, n: nat, avx: bool, passes: nat)
    returns (r: Result<()>, settled: bool)
    requires Apart(ctx, e) && n <= VarCapacity
    modifies ctx.Repr - {ctx}, e
    ensures var m := Shuffle(old(Now(ctx, e)), n, NoFlags, avx, passes);
            && (m.Settled? <==> r.Ok? && settled) && (m.Settled? ==> Now(ctx, e) == m.stage)
            && (m.Failed? <==> r.Err?) && (m.Failed? ==> r.error == m.error)
  {
    ghost var t0 := Now(ctx, e);
    var flags := NoFlags;
    for pass := 0 to passes
      invariant Shuffle(t0, n, NoFlags, avx, passes) == Shuffle(Now(ctx, e), n, flags, avx, passes - pass)
    {
      var f1;
      r, f1 := ShufflePassLoop(ctx, e, n, flags, avx);
      if r.Err? {
        return r, false;
      }
      if !f1.pending {
        return Ok(()), true;
      }
      if f1.postponed && !f1.didSome {
        return Err(InvalidState), false;
      }
      flags := if f1.didSome then NoFlags else Flags(false, false, true);
    }
    return Ok(()), false;
  }

  // ---------------------------------------------------------------------------
  // Phase 3
  // ---------------------------------------------------------------------------

  /** One visit of variable v in a load pass with `iterCount` passes planned;
      its second result is the passes planned after it. */
  method StackSrcStep(ctx: ArgsContext, e: Emitter, v: nat, iterCount: nat, saRegId: nat, base: Operand, avx: bool)
    returns (r: Result<()>, c1: nat)
    requires Apart(ctx, e) && v < VarCapacity && base.Mem?
    modifies ctx.Repr - {ctx}, e
    ensures var m := StackSrcVar(old(Now(ctx, e)), v, iterCount, saRegId, base, avx);
            && (r.Ok? <==> m.Ok?) && (m.Ok? ==> (Now(ctx, e), c1) == m.value) && (m.Err? ==> r.error == m.error)
  {
    ghost var t := Now(ctx, e);
    var x := ctx.vars[v];
    assert x == t.vars[v];
    if x.IsDone() || !x.cur.IsStack() {
      return Ok(()), iterCount;
    }
    if !x.out.IsReg() {
      return Err(InvalidState), iterCount;
    }
    var outType := x.out.loc.regType;
    var outId := x.out.loc.regId;
    var g := GroupOf(outType);
    if g >= 4 || outId >= 32 {
      return Err(InvalidState), iterCount;
    }
    if outId == saRegId && g == GroupGp {
      if iterCount == 1 {
        return Ok(()), 2;
      }
      UnassignIn(ctx, e, g, ctx.workData[g].physToVarId[outId], outId);
    }
    ghost var t1 := Now(ctx, e);
    var dst := Reg(outType, outId);
    var src := Mem(base.baseId, base.offset + x.cur.loc.offset, 0);
    ghost var m := ArgMove(dst, x.out.typeId, src, x.cur.typeId, avx);
    StackSrcVarIs(t, v, iterCount, saRegId, base, avx, t1, dst, src, m);
    r := LoadStep(ctx, e, v, g, outId, dst, src, m, avx);
    c1 := iterCount;
  }

  /** A load from the stack argument area into register `dst` of group g,
      which the variable then occupies, done. */
  method LoadStep(ctx: ArgsContext, e: Emitter, v: nat, g: Group, outId: RegId, dst: Operand, src: Operand,
                  ghost m: Result<Inst>, avx: bool)
    returns (r: Result<()>)
    requires Apart(ctx, e) && v < VarCapacity && dst.Reg? && dst.id == outId
    requires m == ArgMove(dst, ctx.vars[v].out.typeId, src, ctx.vars[v].cur.typeId, avx)
    modifies ctx.Repr - {ctx}, e
    ensures (r.Ok? <==> m.Ok?) && (m.Err? ==> r.error == m.error)
    ensures m.Ok? ==> var t := old(Now(ctx, e));
                      Now(ctx, e) == MoveCur(Assign(Emitted(t, m.value), g, v, outId), v,
                                             FuncValue(InReg(dst.rt, outId), t.vars[v].cur.typeId, true))
  {
    ghost var t := Now(ctx, e);
    var x := ctx.vars[v];
    assert x == t.vars[v];
    r := ArgMoveIn(ctx, e, dst, x.out.typeId, src, x.cur.typeId, avx);
    if r.Err? {
      return;
    }
    AssignIn(ctx, e, g, v, outId);
    SetCur(ctx, e, v, FuncValue(InReg(dst.rt, outId), x.cur.typeId, true));
  }

  /** One load pass over the variables below `n` with `c` passes planned. */
  method StackSrcPassLoop(ctx: ArgsContext, e: Emitter, n: nat, c: nat, saRegId: nat, base: Operand, avx: bool)
    returns (r: Result<()>, c1: nat)
    requires Apart(ctx, e) && n <= VarCapacity && base.Mem?
    modifies ctx.Repr - {ctx}, e
    ensures var m := StackSrcPass(old(Now(ctx, e)), n, c, saRegId, base, avx);
            && (r.Ok? <==> m.Ok?) && (m.Ok? ==> (Now(ctx, e), c1) == m.value) && (m.Err? ==> r.error == m.error)
  {
    ghost var t0 := Now(ctx, e);
    c1 := c;
    for v := 0 to n
      invariant StackSrcPass(t0, v, c, saRegId, base, avx).Ok?
      invariant (Now(ctx, e), c1) == StackSrcPass(t0, v, c, saRegId, base, avx).value
    {
      r, c1 := StackSrcPassNext(ctx, e, t0, v, n, c, c1, saRegId, base, avx);
      if r.Err? {
        return;
      }
    }
    return Ok(()), c1;
  }

  /** The body of a load pass, for variable v. */
  method StackSrcPassNext(ctx: ArgsContext, e: Emitter, ghost t0: Stage, v: nat, n: nat, ghost c: nat, cv: nat,
                          saRegId: nat, base: Operand, avx: bool)
    returns (r: Result<()>, c1: nat)
    requires Apart(ctx, e) && t0.Shaped() && v < n <= VarCapacity && base.Mem?
    requires StackSrcPass(t0, v, c, saRegId, base, avx).Ok?
    requires (Now(ctx, e), cv) == StackSrcPass(t0, v, c, saRegId, base, avx).value
    modifies ctx.Repr - {ctx}, e
    ensures r.Ok? ==> StackSrcPass(t0, v + 1, c, saRegId, base, avx).Ok?
                      && (Now(ctx, e), c1) == StackSrcPass(t0, v + 1, c, saRegId, base, avx).value
    ensures r.Err? ==> StackSrcPass(t0, n, c, saRegId, base, avx) == Err(r.error)
  {
    r, c1 := StackSrcStep(ctx, e, v, cv, saRegId, base, avx);
    if r.Err? {
      StackSrcPassErrStays(t0, v + 1, n, c, saRegId, base, avx);
    }
  }

  /** Phase 3: load passes while the planned count allows, one planned at
      first and a second one when a load into the SA register was put off. */
  method StackSrcsLoop(ctx: ArgsContext, e: Emitter, n: nat, saRegId: nat, base: Operand, avx: bool)
    returns (r: Result<()>)
    requires Apart(ctx, e) && n <= VarCapacity && base.Mem?
    modifies ctx.Repr - {ctx}, e
    ensures var m := StackSrcs(old(Now(ctx, e)), n, saRegId, base, avx);
            && (r.Ok? <==> m.Ok?) && (m.Ok? ==> Now(ctx, e) == m.value) && (m.Err? ==> r.error == m.error)
  {
    ghost var t0 := Now(ctx, e);
    var iterCount := 1;
    var iter := 0;
    while iter < iterCount
      invariant iter <= iterCount <= 2
      invariant iter == 0 ==> iterCount == 1 && Now(ctx, e) == t0
      invariant iter >= 1 ==> var p := StackSrcPass(t0, n, 1, saRegId, base, avx);
                              && p.Ok? && p.value.1 == iterCount
                              && (iter == 1 ==> Now(ctx, e) == p.value.0)
                              && (iter == 2 ==> var q := StackSrcPass(p.value.0, n, 2, saRegId, base, avx);
                                                q.Ok? && Now(ctx, e) == q.value.0)
      decreases 2 - iter
    {
      ghost var p0 := Now(ctx, e);
      r, iterCount := StackSrcPassLoop(ctx, e, n, iterCount, saRegId, base, avx);
      if r.Err? {
        return;
      }
      StackSrcPassVars(p0, n, if iter == 0 then 1 else 2, saRegId, base, avx);
      iter := iter + 1;
    }
    return Ok(());
  }

  // ---------------------------------------------------------------------------
  // emitArgsAssignment
  // ---------------------------------------------------------------------------

  /** What emitArgsAssignment reads from the frame. */
  function FrameInfoOf(frame: Frames.FuncFrame): FrameInfo
    reads frame
  {
    FrameInfo(frame.HasAttr(Frames.AvxEnabled), frame.HasDynamicAlignment(), frame.HasAttr(Frames.HasPreservedFP),
              frame.saRegId, frame.spRegId, frame.offsets.saOffsetFromSP, frame.offsets.saOffsetFromSA)
  }

  /** The three phases on the context initWorkData built: the SA register, the
      stack targets when there are any, the shuffle, and the stack sources when
      there are any, with the SA register worked out again. The second result
      says whether the shuffle settled within `passes` passes. */
  method AssignPhases(ctx: ArgsContext, e: Emitter, arch: Arch, info: FrameInfo, passes: nat)
    returns (r: Result<()>, settled: bool)
    requires Apart(ctx, e) && ctx.varCount <= VarCapacity
    modifies ctx.Repr - {ctx}, e
    ensures var m := AssignArgs(old(Now(ctx, e)), ctx.varCount, ctx.saVarId, ctx.stackDstMask != {}, ctx.hasStackSrc,
                                arch, info, passes);
            && (m.Settled? <==> r.Ok? && settled) && (m.Settled? ==> Now(ctx, e) == m.stage)
            && (m.Failed? <==> r.Err?) && (m.Failed? ==> r.error == m.error)
  {
    var saRegId := SaRegister(ctx, e, info);
    r := StoresRun(ctx, e, arch, info, saRegId);
    if r.Err? {
      return r, true;
    }
    r, settled := ShuffleThenLoadRun(ctx, e, saRegId, info, passes);
  }

  /** The SA register before phase 1. */
  method SaRegister(ctx: ArgsContext, e: Emitter, info: FrameInfo) returns (saRegId: nat)
    requires Apart(ctx, e) && ctx.varCount <= VarCapacity
    ensures saRegId == SaRegOf(info, ctx.saVarId, Now(ctx, e).vars, ctx.varCount)
  {
    saRegId := IdSp;
    if info.hasDA {
      if info.hasFP {
        saRegId := IdBp;
      } else {
        saRegId := if ctx.saVarId < ctx.varCount then RegIdOf(ctx.vars[ctx.saVarId].cur) else info.saRegId;
      }
    }
  }

  /** Phase 1 when some target is on the stack. */
  method StoresRun(ctx: ArgsContext, e: Emitter, arch: Arch, info: FrameInfo, saRegId: nat) returns (r: Result<()>)
    requires Apart(ctx, e) && ctx.varCount <= VarCapacity
    modifies ctx.Repr - {ctx}, e
    ensures var m := if ctx.stackDstMask != {} then StackDsts(old(Now(ctx, e)), ctx.varCount, arch, ArgBase(info, saRegId), info.avx)
                     else Ok(old(Now(ctx, e)));
            && (r.Ok? <==> m.Ok?) && (m.Ok? ==> Now(ctx, e) == m.value) && (m.Err? ==> r.error == m.error)
  {
    r := Ok(());
    if ctx.stackDstMask != {} {
      r := StackDstsLoop(ctx, e, ctx.varCount, arch, ArgBase(info, saRegId), info.avx);
    }
  }

  /** The shuffle, and phase 3 once it settled, starting with `saRegId` as the
      SA register. */
  method ShuffleThenLoadRun(ctx: ArgsContext, e: Emitter, saRegId: nat, info: FrameInfo, passes: nat)
    returns (r: Result<()>, settled: bool)
    requires Apart(ctx, e) && ctx.varCount <= VarCapacity
    requires !info.hasDA ==> saRegId == IdSp
    requires info.hasDA && info.hasFP ==> saRegId == IdBp
    modifies ctx.Repr - {ctx}, e
    ensures var m := ShuffleThenLoad(old(Now(ctx, e)), ctx.varCount, ctx.saVarId, ctx.hasStackSrc, info, passes);
            && (m.Settled? <==> r.Ok? && settled) && (m.Settled? ==> Now(ctx, e) == m.stage)
            && (m.Failed? <==> r.Err?) && (m.Failed? ==> r.error == m.error)
  {
    var varCount := ctx.varCount;
    var saVarId := ctx.saVarId;
    r, settled := ShuffleLoop(ctx, e, varCount, info.avx, passes);
    if r.Err? || !settled || !ctx.hasStackSrc {
      return;
    }
    var sa := saRegId;
    if info.hasDA && !info.hasFP {
      sa := if saVarId < varCount then RegIdOf(ctx.vars[saVarId].cur) else info.saRegId;
    }
    r := StackSrcsLoop(ctx, e, varCount, sa, ArgBase(info, sa), info.avx);
  }

  /** What the phases of emitArgsAssignment did, from the context `s` with the
      instructions `code0` emitted before, to the instructions `code`: they
      failed, settled or ran out of passes as AssignArgs does, emitting what it
      emits; and when they settled, every variable is done, and every argument
      is in its target when no slot asks for a move between register groups. */
  ghost predicate PhasesDid(s: Snap, code0: seq<Inst>, code: seq<Inst>, r: Result<()>, settled: bool, arch: Arch,
                            srcs: seq<FuncValue>, a: ArgsAssignment, info: FrameInfo, passes: nat)
    requires s.Shaped() && s.varCount <= VarCapacity
  {
    var m := AssignArgs(StageOf(s, code0), s.varCount, s.saVarId, s.stackDstMask != {}, s.hasStackSrc, arch, info, passes);
    && (m.Settled? <==> r.Ok? && settled) && (m.Settled? ==> code == m.stage.code)
    && (m.Failed? <==> r.Err?) && (m.Failed? ==> r.error == m.error)
    && (m.Settled? ==> forall w :: 0 <= w < s.varCount ==> m.stage.vars[w].IsDone())
    && (m.Settled? && NoCrossGroup(srcs, a) ==> forall w :: 0 <= w < s.varCount ==> AtTarget(m.stage.vars[w]))
  }

  /** X86Internal::emitArgsAssignment: initWorkData's error, or the three phases
      on the context it built, emitting into `e`, with the shuffle allowed
      `passes` passes. The ghost result is the context initWorkData built.
      When the phases succeed, every variable is done, and every argument is in
      its target when no slot asks for a move between register groups. */
  method EmitArgsAssignment(e: Emitter, frame: Frames.FuncFrame, func: FuncDetail, a: ArgsAssignment, passes: nat)
    returns (r: Result<()>, settled: bool, ghost s: Snap)
    requires frame.Valid() && a.WellFormed() && SourcesWellFormed(func.args)
    modifies e
    ensures var init := InitOutcome(func.callConv.arch, ArgsContexts.FrameViewOf(frame), func.args, a);
            init.Err? ==> r == init && settled && e.trace == old(e.trace)
    ensures var arch := func.callConv.arch;
            var fv := ArgsContexts.FrameViewOf(frame);
            InitOutcome(arch, fv, func.args, a).Ok? ==>
              && s.Shaped() && Built(s, arch, fv, func.args, a) && s.varCount <= VarCapacity
              && PhasesDid(s, old(e.trace), e.trace, r, settled, arch, func.args, a, FrameInfoOf(frame), passes)
  {
    var arch := func.callConv.arch;
    ghost var fv := ArgsContexts.FrameViewOf(frame);
    var ctx;
    ctx, r := NewContext(arch, ArgsContexts.FrameViewOf(frame), func.args, a);
    s := ctx.Snapshot();
    if r.Err? {
      return r, true, s;
    }
    r, settled := RunPhases(ctx, e, s, arch, fv, func.args, a, FrameInfoOf(frame), passes);
  }

  /** The phases of emitArgsAssignment on the context `s` initWorkData built. */
  method RunPhases(ctx: ArgsContext, e: Emitter, ghost s: Snap, arch: Arch, ghost fv: FrameView,
                   ghost srcs: seq<FuncValue>, ghost a: ArgsAssignment, info: FrameInfo, passes: nat)
    returns (r: Result<()>, settled: bool)
    requires Apart(ctx, e) && s == ctx.Snapshot()
    requires fv.WellFormed() && a.WellFormed() && SourcesWellFormed(srcs)
    requires InitOutcome(arch, fv, srcs, a).Ok? && Built(s, arch, fv, srcs, a)
    modifies ctx.Repr - {ctx}, e
    ensures s.varCount <= VarCapacity
    ensures PhasesDid(s, old(e.trace), e.trace, r, settled, arch, srcs, a, info, passes)
  {
    BuiltStarts(s, arch, fv, srcs, a, e.trace);
    assert Now(ctx, e) == StageOf(s, e.trace);
    r, settled := AssignPhases(ctx, e, arch, info, passes);
    ghost var m := AssignArgs(StageOf(s, old(e.trace)), s.varCount, s.saVarId, s.stackDstMask != {},
                              s.hasStackSrc, arch, info, passes);
    if m.Settled? {
      ArgsAssigned(s, arch, fv, srcs, a, info, passes, old(e.trace));
    }
  }
}
