/** The cases of emitArgsAssignment's steps that load through ArgMove, with
    the move named, so that the methods performing them can match their
    emitted instruction against the value model. */
module ShuffleCases {
  import opened Defs
  import opened Emit
  import opened Moves
  import opened WorkDatas
  import opened ArgVars
  import opened Shuffles

  /** The stack-to-stack case of the stack-target step, with its load `m`
      through register `reg` named. */
  lemma {:induction false} StackToStackIs(t: Stage, v: nat, arch: Arch, base: Operand, avx: bool, reg: Operand, m: Result<Inst>)
    requires t.Shaped() && v < VarCapacity && base.Mem?
    requires t.vars[v].out.IsStack() && t.vars[v].cur.IsStack()
    requires RegForMemToMemMove(arch, t.vars[v].out.typeId, t.vars[v].cur.typeId).Some?
    requires var ri := RegForMemToMemMove(arch, t.vars[v].out.typeId, t.vars[v].cur.typeId).value;
             var g: Group := GroupOf(ri);
             var avail := t.views[g].workRegs - t.views[g].assignedRegs;
             avail != {} && reg == Reg(ri, LowestId(avail))
    requires m == ArgMove(reg, t.vars[v].out.typeId, Mem(base.baseId, base.offset + t.vars[v].cur.loc.offset, 0),
                          t.vars[v].cur.typeId, avx)
    ensures StackDstVar(t, v, arch, base, avx) == LoadStore(t, v, reg, m, avx)
  {
    StackToStackPicks(t, v, arch, base, avx, reg);
    StackToStackLoads(t, v, reg, base, avx, m);
  }

  /** The stack-to-stack case goes through the lowest free work register. */
  lemma {:induction false} StackToStackPicks(t: Stage, v: nat, arch: Arch, base: Operand, avx: bool, reg: Operand)
    requires t.Shaped() && v < VarCapacity && base.Mem?
    requires t.vars[v].out.IsStack() && t.vars[v].cur.IsStack()
    requires RegForMemToMemMove(arch, t.vars[v].out.typeId, t.vars[v].cur.typeId).Some?
    requires var ri := RegForMemToMemMove(arch, t.vars[v].out.typeId, t.vars[v].cur.typeId).value;
             var g: Group := GroupOf(ri);
             var avail := t.views[g].workRegs - t.views[g].assignedRegs;
             avail != {} && reg == Reg(ri, LowestId(avail))
    ensures StackDstVar(t, v, arch, base, avx) == StackToStackThrough(t, v, reg, base, avx)
  {
    assert StackDstVar(t, v, arch, base, avx) == StackToStackVar(t, v, arch, base, avx);
  }

  /** The load through `reg` is ArgMove's move `m`. */
  lemma {:induction false} StackToStackLoads(t: Stage, v: nat, reg: Operand, base: Operand, avx: bool, m: Result<Inst>)
    requires t.Shaped() && v < VarCapacity && base.Mem? && reg.Reg?
    requires t.vars[v].out.IsStack() && t.vars[v].cur.IsStack()
    requires m == ArgMove(reg, t.vars[v].out.typeId, Mem(base.baseId, base.offset + t.vars[v].cur.loc.offset, 0),
                          t.vars[v].cur.typeId, avx)
    ensures StackToStackThrough(t, v, reg, base, avx) == LoadStore(t, v, reg, m, avx)
  {
  }

  /** The load case of the load step, with its move `m` into `dst` from `src`
      named, after `t1` released the SA register when that was due. */
  lemma StackSrcVarIs(t: Stage, v: nat, c: nat, saRegId: nat, base: Operand, avx: bool,
                      t1: Stage, dst: Operand, src: Operand, m: Result<Inst>)
    requires t.Shaped() && v < VarCapacity && base.Mem?
    requires var x := t.vars[v];
             && !x.IsDone() && x.cur.IsStack() && x.out.IsReg()
             && GroupOf(x.out.loc.regType) < 4 && x.out.loc.regId < 32
             && !(x.out.loc.regId == saRegId && GroupOf(x.out.loc.regType) == GroupGp && c == 1)
             && t1 == (if x.out.loc.regId == saRegId && GroupOf(x.out.loc.regType) == GroupGp
                       then Unassign(t, GroupGp, x.out.loc.regId) else t)
             && dst == Reg(x.out.loc.regType, x.out.loc.regId)
             && src == Mem(base.baseId, base.offset + x.cur.loc.offset, 0)
             && m == ArgMove(dst, x.out.typeId, src, x.cur.typeId, avx)
    ensures var x := t.vars[v];
            StackSrcVar(t, v, c, saRegId, base, avx)
            == if m.Err? then Err(m.error)
               else Ok((MoveCur(Assign(Emitted(t1, m.value), GroupOf(x.out.loc.regType), v, x.out.loc.regId), v,
                                FuncValue(InReg(x.out.loc.regType, x.out.loc.regId), x.cur.typeId, true)), c))
  {
    assert StackSrcVar(t, v, c, saRegId, base, avx) == StackLoadFrom(t, v, c, saRegId, base, avx);
    StackSrcVarLoads(t, v, c, saRegId, base, avx, m);
    StackLoadVarIs(t, v, c, saRegId, t1, m);
  }

  /** The load by ArgMove is the load of its move `m`. */
  lemma {:induction false} StackSrcVarLoads(t: Stage, v: nat, c: nat, saRegId: nat, base: Operand, avx: bool, m: Result<Inst>)
    requires t.Shaped() && v < VarCapacity && base.Mem?
    requires var x := t.vars[v];
             && x.cur.IsStack() && x.out.IsReg()
             && GroupOf(x.out.loc.regType) < 4 && x.out.loc.regId < 32
             && m == ArgMove(Reg(x.out.loc.regType, x.out.loc.regId), x.out.typeId,
                             Mem(base.baseId, base.offset + x.cur.loc.offset, 0), x.cur.typeId, avx)
    ensures StackLoadFrom(t, v, c, saRegId, base, avx) == StackLoadVar(t, v, c, saRegId, m)
  {
  }

  /** The load `m` assigns the target register and marks the variable done. */
  lemma StackLoadVarIs(t: Stage, v: nat, c: nat, saRegId: nat, t1: Stage, m: Result<Inst>)
    requires t.Shaped() && v < VarCapacity
    requires var x := t.vars[v];
             && x.cur.IsStack() && x.out.IsReg()
             && GroupOf(x.out.loc.regType) < 4 && x.out.loc.regId < 32
             && t1 == (if x.out.loc.regId == saRegId && GroupOf(x.out.loc.regType) == GroupGp
                       then Unassign(t, GroupGp, x.out.loc.regId) else t)
    ensures var x := t.vars[v];
            StackLoadVar(t, v, c, saRegId, m)
            == if m.Err? then Err(m.error)
               else Ok((MoveCur(Assign(Emitted(t1, m.value), GroupOf(x.out.loc.regType), v, x.out.loc.regId), v,
                                FuncValue(InReg(x.out.loc.regType, x.out.loc.regId), x.cur.typeId, true)), c))
  {
  }
}
