/** X86Internal::emitArgsAssignment on values: the three phases that move every
    argument from where the calling convention put it to where the function body
    wants it. A Stage holds the variables, the four variable tables, the four
    work areas and the instructions emitted so far; each phase is a function of
    the stage it starts from, and its lemmas say what the phase leaves behind. */
module Shuffles {
  import opened Defs
  import opened Emit
  import opened Moves
  import opened WorkDatas
  import opened ArgVars
  import Frames

  /** The state emitArgsAssignment works on. */
  datatype Stage = Stage(vars: seq<Var>, tables: seq<seq<nat>>, views: seq<WorkView>, code: seq<Inst>) {
    predicate Shaped() { |vars| == VarCapacity && TablesShaped(tables) && |views| == 4 }
  }

  /** What emitArgsAssignment reads from the finalized frame. */
  datatype FrameInfo = FrameInfo(
    avx: bool, hasDA: bool, hasFP: bool, saRegId: nat, spRegId: nat,
    saOffsetFromSP: nat, saOffsetFromSA: nat)

  /** FuncValue::getRegType / getRegId: a value outside the registers has no
      register type and the invalid id. */
  function RegTypeOf(f: FuncValue): RegType { if f.IsReg() then f.loc.regType else RegNone }
  function RegIdOf(f: FuncValue): nat { if f.IsReg() then f.loc.regId else IdBad }

  /** The register the stack arguments are addressed through: the stack pointer
      without dynamic alignment, else the frame pointer when the frame keeps it,
      else the SA variable's current register, else the frame's SA register. */
  function SaRegOf(info: FrameInfo, saVarId: nat, vars: seq<Var>, varCount: nat): nat
    requires varCount <= |vars|
  {
    if !info.hasDA then IdSp
    else if info.hasFP then IdBp
    else if saVarId < varCount then RegIdOf(vars[saVarId].cur)
    else info.saRegId
  }

  /** A value of the 32-bit signed displacement the source converts offsets to. */
  function Int32Of(x: nat): (r: int)
    ensures -0x8000_0000 <= r < 0x8000_0000
    ensures x < 0x8000_0000 ==> r == x
  {
    var w := x % 0x1_0000_0000;
    if w >= 0x8000_0000 then w - 0x1_0000_0000 else w
  }

  /** FuncFrame::getSAOffset: the offset of the stack arguments from register `id`. */
  function SaOffsetOf(info: FrameInfo, id: nat): nat {
    if id == info.spRegId then info.saOffsetFromSP else info.saOffsetFromSA
  }

  /** `baseArgPtr`: the stack arguments through SA register `id`. */
  function ArgBase(info: FrameInfo, id: nat): (m: Operand)
    ensures m.Mem?
  {
    Mem(id, Int32Of(SaOffsetOf(info, id)), 0)
  }

  // ---------------------------------------------------------------------------
  // The WorkData operations and variable updates on a stage
  // ---------------------------------------------------------------------------

  /** WorkData::unassign on group g. */
  function Unassign(t: Stage, g: Group, r: RegId): (u: Stage)
    requires t.Shaped()
    ensures u.Shaped()
  {
    var row: seq<nat> := t.tables[g][r := VarIdNone];
    t.(views := t.views[g := t.views[g].(assignedRegs := Toggle(t.views[g].assignedRegs, r))],
       tables := t.tables[g := row])
  }

  /** WorkData::assign on group g. */
  function Assign(t: Stage, g: Group, v: nat, r: RegId): (u: Stage)
    requires t.Shaped()
    ensures u.Shaped()
  {
    var row: seq<nat> := t.tables[g][r := Frames.Low8(v)];
    t.(views := t.views[g := t.views[g].(assignedRegs := Toggle(t.views[g].assignedRegs, r))],
       tables := t.tables[g := row])
  }

  /** WorkData::reassign on group g. */
  function Reassign(t: Stage, g: Group, v: nat, newId: RegId, oldId: RegId): (u: Stage)
    requires t.Shaped()
    ensures u.Shaped()
  {
    var row: seq<nat> := t.tables[g][oldId := VarIdNone][newId := Frames.Low8(v)];
    t.(views := t.views[g := t.views[g].(assignedRegs := Toggle(Toggle(t.views[g].assignedRegs, newId), oldId))],
       tables := t.tables[g := row])
  }

  /** WorkData::swap on group g. */
  function SwapIn(t: Stage, g: Group, aVar: nat, aReg: RegId, bVar: nat, bReg: RegId): (u: Stage)
    requires t.Shaped()
    ensures u.Shaped()
  {
    var row: seq<nat> := t.tables[g][aReg := Frames.Low8(bVar)][bReg := Frames.Low8(aVar)];
    t.(tables := t.tables[g := row])
  }

  /** One more instruction. */
  function Emitted(t: Stage, inst: Inst): Stage {
    t.(code := t.code + [inst])
  }

  /** Var::markDone. */
  function MarkDone(t: Stage, v: nat): (u: Stage)
    requires t.Shaped() && v < VarCapacity
    ensures u.Shaped()
  {
    t.(vars := t.vars[v := t.vars[v].(cur := t.vars[v].cur.(done := true))])
  }

  /** A new current placement of variable v. */
  function MoveCur(t: Stage, v: nat, cur: FuncValue): (u: Stage)
    requires t.Shaped() && v < VarCapacity
    ensures u.Shaped()
  {
    t.(vars := t.vars[v := t.vars[v].(cur := cur)])
  }

  /** FuncValue::setRegId: the value stays in a register of its type under a new id. */
  function WithRegId(f: FuncValue, id: nat): FuncValue {
    match f.loc
    case InReg(rt, _) => f.(loc := InReg(rt, id))
    case _ => f
  }

  // ---------------------------------------------------------------------------
  // Tables that agree with the variables
  // ---------------------------------------------------------------------------

  /** Every group's mask agrees with its table, and its table names exactly the
      variables below `n` that occupy its registers. */
  predicate Agrees(t: Stage, n: nat)
    requires t.Shaped() && n <= VarCapacity
  {
    forall g: Group :: MaskAgrees(t.views[g].assignedRegs, t.tables[g]) && TableMatches(t.tables[g], t.vars, n, g)
  }

  // ---------------------------------------------------------------------------
  // Phase 1: arguments whose target is on the stack
  // ---------------------------------------------------------------------------

  /** The stack-target step for variable v: a register source is released and
      stored; a stack source is loaded into the lowest free working register of
      the class x86GetRegForMemToMemMove picks, then stored. Either way the store
      has the source's type and the variable is done. A source the source's
      debug assertions exclude (not a register or stack slot, out of the four
      groups, of no valid type) is InvalidState here. */
  function StackDstVar(t: Stage, v: nat, arch: Arch, base: Operand, avx: bool): (r: Result<Stage>)
    requires t.Shaped() && v < VarCapacity && base.Mem?
    ensures r.Ok? ==> r.value.Shaped()
  {
    var x := t.vars[v];
    if !x.out.IsStack() then Ok(t)
    else
      var store := Mem(IdSp, x.out.loc.offset, 0);
      if x.cur.IsReg() then
        var g := GroupOf(x.cur.loc.regType);
        var id := x.cur.loc.regId;
        if g >= 4 || id >= 32 || !IsValidType(x.cur.typeId) then Err(InvalidState)
        else
          var reg := Reg(x.cur.loc.regType, id);
          Ok(MarkDone(Emitted(Unassign(t, g, id), RegMove(store, reg, x.cur.typeId, avx)), v))
      else if !x.cur.IsStack() then Err(InvalidState)
      else StackToStackVar(t, v, arch, base, avx)
  }

  /** The stack-to-stack case: the value is loaded into the lowest free work
      register of the group RegForMemToMemMove picks, and stored from there. */
  function StackToStackVar(t: Stage, v: nat, arch: Arch, base: Operand, avx: bool): (r: Result<Stage>)
    requires t.Shaped() && v < VarCapacity && base.Mem? && t.vars[v].out.IsStack() && t.vars[v].cur.IsStack()
    ensures r.Ok? ==> r.value.Shaped()
  {
    var x := t.vars[v];
    var ri := RegForMemToMemMove(arch, x.out.typeId, x.cur.typeId);
    if ri.None? then Err(InvalidState)
    else
      var g: Group := GroupOf(ri.value);
      var avail := t.views[g].workRegs - t.views[g].assignedRegs;
      if avail == {} then Err(InvalidState)
      else
        StackToStackThrough(t, v, Reg(ri.value, LowestId(avail)), base, avx)
  }

  /** The stack-to-stack case through register `reg`: ArgMove loads it, then
      it is stored into the target slot. */
  function StackToStackThrough(t: Stage, v: nat, reg: Operand, base: Operand, avx: bool): (r: Result<Stage>)
    requires t.Shaped() && v < VarCapacity && base.Mem? && reg.Reg?
    requires t.vars[v].out.IsStack() && t.vars[v].cur.IsStack()
    ensures r.Ok? ==> r.value.Shaped()
  {
    var x := t.vars[v];
    LoadStore(t, v, reg, ArgMove(reg, x.out.typeId, Mem(base.baseId, base.offset + x.cur.loc.offset, 0), x.cur.typeId, avx), avx)
  }

  /** The tail of the stack-to-stack case: the load `m` into `reg`, then the
      store of `reg` into the target slot; the variable is done. */
  function LoadStore(t: Stage, v: nat, reg: Operand, m: Result<Inst>, avx: bool): (r: Result<Stage>)
    requires t.Shaped() && v < VarCapacity && t.vars[v].out.IsStack()
    ensures r.Ok? ==> r.value.Shaped()
  {
    var x := t.vars[v];
    if m.Err? then Err(m.error)
    else if !IsValidType(x.cur.typeId) then Err(InvalidState)
    else Ok(MoveCur(Emitted(Emitted(t, m.value), RegMove(Mem(IdSp, x.out.loc.offset, 0), reg, x.cur.typeId, avx)),
                    v, x.cur.(done := true)))
  }

  /** The register case of the stack-target step. */
  lemma RegToStackIs(t: Stage, v: nat, arch: Arch, base: Operand, avx: bool)
    requires t.Shaped() && v < VarCapacity && base.Mem?
    requires t.vars[v].out.IsStack() && t.vars[v].cur.IsReg()
    ensures var x := t.vars[v];
            var g := GroupOf(x.cur.loc.regType);
            var id := x.cur.loc.regId;
            StackDstVar(t, v, arch, base, avx)
            == if g >= 4 || id >= 32 || !IsValidType(x.cur.typeId) then Err(InvalidState)
               else Ok(MoveCur(Emitted(Unassign(t, g as Group, id as RegId),
                                       RegMove(Mem(IdSp, x.out.loc.offset, 0), Reg(x.cur.loc.regType, id), x.cur.typeId, avx)),
                               v, x.cur.(done := true)))
  {
  }

  /** Phase 1 over the variables below `n`, in order, stopping at the first error. */
  function StackDsts(t: Stage, n: nat, arch: Arch, base: Operand, avx: bool): (r: Result<Stage>)
    requires t.Shaped() && n <= VarCapacity && base.Mem?
    ensures r.Ok? ==> r.value.Shaped()
  {
    if n == 0 then Ok(t)
    else
      var p := StackDsts(t, n - 1, arch, base, avx);
      if p.Err? then p else StackDstVar(p.value, n - 1, arch, base, avx)
  }

  /** Phase 1 stops at its first error. */
  lemma {:induction false} StackDstsErrStays(t: Stage, i: nat, n: nat, arch: Arch, base: Operand, avx: bool)
    requires t.Shaped() && i <= n <= VarCapacity && base.Mem?
    requires StackDsts(t, i, arch, base, avx).Err?
    ensures StackDsts(t, n, arch, base, avx) == StackDsts(t, i, arch, base, avx)
  {
    if n > i {
      StackDstsErrStays(t, i, n - 1, arch, base, avx);
    }
  }

  /** A variable after phase 1: done when its target is on the stack, else untouched. */
  function StoredVar(x: Var): Var {
    if x.out.IsStack() then x.(cur := x.cur.(done := true)) else x
  }

  /** No variable below `n` with a stack target is done yet. */
  predicate NoneStored(t: Stage, n: nat)
    requires t.Shaped() && n <= VarCapacity
  {
    forall v :: 0 <= v < n && t.vars[v].out.IsStack() ==> !t.vars[v].cur.done
  }

  /** The stack-target step touches variable v alone, and makes it StoredVar. */
  lemma StackDstVarVars(t: Stage, v: nat, arch: Arch, base: Operand, avx: bool)
    requires t.Shaped() && v < VarCapacity && base.Mem?
    requires StackDstVar(t, v, arch, base, avx).Ok?
    ensures StackDstVar(t, v, arch, base, avx).value.vars == t.vars[v := StoredVar(t.vars[v])]
  {
  }

  /** The stack-target step keeps the tables in agreement: a register source
      leaves its table exactly when it becomes done. */
  lemma StackDstVarAgrees(t: Stage, v: nat, n: nat, arch: Arch, base: Operand, avx: bool)
    requires t.Shaped() && v < n <= VarCapacity && base.Mem?
    requires Agrees(t, n) && (t.vars[v].out.IsStack() ==> !t.vars[v].cur.done)
    requires StackDstVar(t, v, arch, base, avx).Ok?
    ensures Agrees(StackDstVar(t, v, arch, base, avx).value, n)
  {
    var u := StackDstVar(t, v, arch, base, avx).value;
    var x := t.vars[v];
    StackDstVarVars(t, v, arch, base, avx);
    if x.out.IsStack() && x.cur.IsReg() {
      var g: Group := GroupOf(x.cur.loc.regType);
      var id: RegId := x.cur.loc.regId;
      ReleasedAgrees(t, u, v, n, g, id);
    } else if x.out.IsStack() {
      forall h: Group
        ensures MaskAgrees(u.views[h].assignedRegs, u.tables[h]) && TableMatches(u.tables[h], u.vars, n, h)
      {
        assert MaskAgrees(t.views[h].assignedRegs, t.tables[h]) && TableMatches(t.tables[h], t.vars, n, h);
        assert u.tables[h] == t.tables[h] && u.views[h] == t.views[h];
        assert !Occupies(u.vars[v], h) && !Occupies(t.vars[v], h);
        forall w | 0 <= w < n && Occupies(u.vars[w], h)
          ensures u.tables[h][u.vars[w].cur.loc.regId] == w
        {
          assert w != v && u.vars[w] == t.vars[w];
        }
      }
    }
  }

  /** Variable v, occupying register `id` of group g, stops occupying any
      register while its table entry is cleared: the tables still agree. */
  lemma ReleasedAgrees(t: Stage, u: Stage, v: nat, n: nat, g: Group, id: RegId)
    requires t.Shaped() && u.Shaped() && v < n <= VarCapacity && Agrees(t, n)
    requires Occupies(t.vars[v], g) && t.vars[v].cur.loc.regId == id
    requires forall h: Group :: !Occupies(u.vars[v], h)
    requires forall w :: 0 <= w < VarCapacity && w != v ==> u.vars[w] == t.vars[w]
    requires u.tables == Unassign(t, g, id).tables && u.views == Unassign(t, g, id).views
    ensures Agrees(u, n)
  {
    assert t.tables[g][id] == v by { assert TableMatches(t.tables[g], t.vars, n, g); }
    forall h: Group
      ensures MaskAgrees(u.views[h].assignedRegs, u.tables[h]) && TableMatches(u.tables[h], u.vars, n, h)
    {
      assert MaskAgrees(t.views[h].assignedRegs, t.tables[h]) && TableMatches(t.tables[h], t.vars, n, h);
      forall w | 0 <= w < n && Occupies(u.vars[w], h)
        ensures u.tables[h][u.vars[w].cur.loc.regId] == w
      {
        assert w != v && u.vars[w] == t.vars[w];
      }
    }
  }

  /** Phase 1 over the variables below `n` makes each of them StoredVar, leaves
      the others alone, and keeps tables that agreed with the first `m`
      variables in agreement. */
  lemma {:induction false} StackDstsProps(t: Stage, n: nat, m: nat, arch: Arch, base: Operand, avx: bool)
    requires t.Shaped() && n <= m <= VarCapacity && base.Mem?
    requires StackDsts(t, n, arch, base, avx).Ok?
    ensures var u := StackDsts(t, n, arch, base, avx).value;
            && (forall w :: 0 <= w < n ==> u.vars[w] == StoredVar(t.vars[w]))
            && (forall w :: n <= w < VarCapacity ==> u.vars[w] == t.vars[w])
            && (Agrees(t, m) && NoneStored(t, m) ==> Agrees(u, m))
  {
    if n > 0 {
      var p := StackDsts(t, n - 1, arch, base, avx);
      StackDstsProps(t, n - 1, m, arch, base, avx);
      var u := StackDstVar(p.value, n - 1, arch, base, avx).value;
      StackDstVarVars(p.value, n - 1, arch, base, avx);
      if Agrees(t, m) && NoneStored(t, m) {
        assert p.value.vars[n - 1] == t.vars[n - 1];
        StackDstVarAgrees(p.value, n - 1, m, arch, base, avx);
      }
    }
  }

  // ---------------------------------------------------------------------------
  // Phase 2: the register shuffle
  // ---------------------------------------------------------------------------

  /** The work flags of the shuffle: something was moved in this pass, something
      is left for another pass, the previous pass moved nothing. */
  datatype Flags = Flags(didSome: bool, pending: bool, postponed: bool)

  const NoFlags := Flags(false, false, false)

  /** The shuffle's result: settled, failed, or still pending after the passes
      the model allows. */
  datatype Settle = Settled(stage: Stage) | Failed(error: Error) | OutOfPasses

  /** The `EmitMove` label: variable v moves from `curId` into the free register
      `to` of its group g, taking its target's register type and type id; it is
      done when `to` is its target, and another pass is due. */
  function MoveTo(t: Stage, v: nat, g: Group, curType: RegType, curId: RegId, to: RegId, f: Flags, avx: bool)
    : (r: Result<(Stage, Flags)>)
    requires t.Shaped() && v < VarCapacity
    ensures r.Ok? ==> r.value.0.Shaped()
  {
    var x := t.vars[v];
    var outType := RegTypeOf(x.out);
    var m := ArgMove(Reg(outType, to), x.out.typeId, Reg(curType, curId), x.cur.typeId, avx);
    if m.Err? then Err(m.error)
    else
      var t1 := Reassign(Emitted(t, m.value), g, v, to, curId);
      Ok((MoveCur(t1, v, FuncValue(InReg(outType, to), x.out.typeId, to == RegIdOf(x.out))),
          f.(didSome := true, pending := true)))
  }

  /** Two GP variables trade registers with one `xchg`, 64-bit when either is:
      variable v reaches its target and is done; the other is done when it has
      a target at all. */
  function Exchange(t: Stage, v: nat, curType: RegType, curId: RegId, outId: RegId, altId: nat, f: Flags)
    : (r: (Stage, Flags))
    requires t.Shaped() && v < VarCapacity && altId < VarCapacity
    ensures r.0.Shaped()
  {
    var x := t.vars[v];
    var y := t.vars[altId];
    var rt := if curType == Gpq || RegTypeOf(y.cur) == Gpq then Gpq else Gpd;
    var t1 := SwapIn(Emitted(t, Inst(Xchg, [Reg(rt, outId), Reg(rt, curId)])), GroupGp, v, curId, altId, outId);
    var t2 := MoveCur(t1, v, WithRegId(x.cur, outId).(done := true));
    var c := t2.vars[altId].cur;
    (MoveCur(t2, altId, WithRegId(c, curId).(done := c.done || y.out.IsInitialized())), f.(didSome := true))
  }

  /** The variable updates of an exchange: variable v is done in `outId`, the
      other is in `curId`, done when it has a target. */
  function Traded(t: Stage, v: nat, curId: RegId, outId: RegId, altId: nat): (u: Stage)
    requires t.Shaped() && v < VarCapacity && altId < VarCapacity
    ensures u.Shaped()
  {
    var t2 := MoveCur(t, v, WithRegId(t.vars[v].cur, outId).(done := true));
    var c := t2.vars[altId].cur;
    MoveCur(t2, altId, WithRegId(c, curId).(done := c.done || t.vars[altId].out.IsInitialized()))
  }

  /** An exchange is the `xchg`, the table swap, and the variable updates. */
  lemma ExchangeIs(t: Stage, v: nat, curType: RegType, curId: RegId, outId: RegId, altId: nat, f: Flags, rt: RegType)
    requires t.Shaped() && v < VarCapacity && altId < VarCapacity
    requires rt == if curType == Gpq || RegTypeOf(t.vars[altId].cur) == Gpq then Gpq else Gpd
    ensures Exchange(t, v, curType, curId, outId, altId, f)
         == (Traded(SwapIn(Emitted(t, Inst(Xchg, [Reg(rt, outId), Reg(rt, curId)])), GroupGp, v, curId, altId, outId),
                    v, curId, outId, altId),
             f.(didSome := true))
  {
  }

  /** One visit of variable v in a shuffle pass. A variable that is done or not
      in a register is skipped; one whose target is in another group stays
      pending (that conversion is not implemented). A free target is moved
      into. An occupied target held by a variable that wants v's register (or
      wants nothing) is exchanged with it in the GP group, or else v moves
      aside into a free working register, preferring one no variable targets;
      with no free register, or any other occupant, v stays pending. Indices
      beyond the tables, which agreeing tables exclude, are InvalidState. */
  function ShuffleVar(t: Stage, v: nat, f: Flags, avx: bool): (r: Result<(Stage, Flags)>)
    requires t.Shaped() && v < VarCapacity
    ensures r.Ok? ==> r.value.0.Shaped()
  {
    var x := t.vars[v];
    if x.IsDone() || !x.cur.IsReg() then Ok((t, f))
    else
      var curType := x.cur.loc.regType;
      var g := GroupOf(curType);
      var curId := x.cur.loc.regId;
      var outId := RegIdOf(x.out);
      if g != GroupOf(RegTypeOf(x.out)) then Ok((t, f.(pending := true)))
      else if g >= 4 || curId >= 32 || outId >= 32 then Err(InvalidState)
      else if outId !in t.views[g].assignedRegs then MoveTo(t, v, g, curType, curId, outId, f, avx)
      else
        var altId := t.tables[g][outId];
        if altId >= VarCapacity then Err(InvalidState)
        else
          var y := t.vars[altId];
          if !y.out.IsInitialized() || (y.out.IsReg() && y.out.loc.regId == curId) then
            if g == GroupGp then Ok(Exchange(t, v, curType, curId, outId, altId, f))
            else
              var avail := t.views[g].workRegs - t.views[g].assignedRegs;
              if avail == {} then Ok((t, f.(pending := true)))
              else
                var free := avail - t.views[g].dstRegs;
                MoveTo(t, v, g, curType, curId, LowestId(if free != {} then free else avail), f, avx)
          else Ok((t, f.(pending := true)))
  }

  /** One shuffle pass over the variables below `n`, in order. */
  function ShufflePass(t: Stage, n: nat, f: Flags, avx: bool): (r: Result<(Stage, Flags)>)
    requires t.Shaped() && n <= VarCapacity
    ensures r.Ok? ==> r.value.0.Shaped()
  {
    if n == 0 then Ok((t, f))
    else
      var p := ShufflePass(t, n - 1, f, avx);
      if p.Err? then p else ShuffleVar(p.value.0, n - 1, p.value.1, avx)
  }

  /** A shuffle pass stops at its first error. */
  lemma {:induction false} ShufflePassErrStays(t: Stage, i: nat, n: nat, f: Flags, avx: bool)
    requires t.Shaped() && i <= n <= VarCapacity
    requires ShufflePass(t, i, f, avx).Err?
    ensures ShufflePass(t, n, f, avx) == ShufflePass(t, i, f, avx)
  {
    if n > i {
      ShufflePassErrStays(t, i, n - 1, f, avx);
    }
  }

  /** The shuffle loop with at most `passes` passes: it settles after a pass with
      nothing pending, and fails with InvalidState after two passes in a row in
      which nothing moved. */
  function Shuffle(t: Stage, n: nat, f: Flags, avx: bool, passes: nat): (r: Settle)
    requires t.Shaped() && n <= VarCapacity
    ensures r.Settled? ==> r.stage.Shaped()
    decreases passes
  {
    if passes == 0 then OutOfPasses
    else
      var p := ShufflePass(t, n, f, avx);
      if p.Err? then Failed(p.error)
      else
        var (t1, f1) := p.value;
        if !f1.pending then Settled(t1)
        else if f1.postponed && !f1.didSome then Failed(InvalidState)
        else Shuffle(t1, n, if f1.didSome then NoFlags else Flags(false, false, true), avx, passes - 1)
  }

  /** Variable v, occupying register `oldId` of group g, moves into the free
      register `newId` of the same group as reassign updates the table and the
      mask: the tables still agree. */
  lemma MovedAgrees(t: Stage, u: Stage, v: nat, n: nat, g: Group, oldId: RegId, newId: RegId)
    requires t.Shaped() && u.Shaped() && v < n <= VarCapacity && Agrees(t, n)
    requires Occupies(t.vars[v], g) && t.vars[v].cur.loc.regId == oldId && newId !in t.views[g].assignedRegs
    requires Occupies(u.vars[v], g) && u.vars[v].cur.loc.regId == newId
    requires forall w :: 0 <= w < VarCapacity && w != v ==> u.vars[w] == t.vars[w]
    requires u.tables == Reassign(t, g, v, newId, oldId).tables && u.views == Reassign(t, g, v, newId, oldId).views
    ensures Agrees(u, n)
  {
    assert MaskAgrees(t.views[g].assignedRegs, t.tables[g]) && TableMatches(t.tables[g], t.vars, n, g);
    assert t.tables[g][oldId] == v;
    assert oldId != newId;
    assert u.views[g].assignedRegs == t.views[g].assignedRegs - {oldId} + {newId};
    forall h: Group
      ensures MaskAgrees(u.views[h].assignedRegs, u.tables[h]) && TableMatches(u.tables[h], u.vars, n, h)
    {
      assert MaskAgrees(t.views[h].assignedRegs, t.tables[h]) && TableMatches(t.tables[h], t.vars, n, h);
      forall w | 0 <= w < n && Occupies(u.vars[w], h)
        ensures u.tables[h][u.vars[w].cur.loc.regId] == w
      {
        if w != v {
          assert u.vars[w] == t.vars[w];
        }
      }
      forall r: RegId | u.tables[h][r] != VarIdNone
        ensures u.tables[h][r] < n && Occupies(u.vars[u.tables[h][r]], h) && u.vars[u.tables[h][r]].cur.loc.regId == r
      {
        if h != g || r != newId {
          assert u.tables[h][r] == t.tables[h][r];
          assert t.tables[h][r] != v;
        }
      }
    }
  }

  /** Variables v and `alt`, occupying registers `aId` and `bId` of group g,
      trade registers as swap updates the table: the tables still agree. */
  lemma ExchangedAgrees(t: Stage, u: Stage, v: nat, alt: nat, n: nat, g: Group, aId: RegId, bId: RegId)
    requires t.Shaped() && u.Shaped() && v < n <= VarCapacity && alt < n && Agrees(t, n)
    requires Occupies(t.vars[v], g) && t.vars[v].cur.loc.regId == aId
    requires Occupies(t.vars[alt], g) && t.vars[alt].cur.loc.regId == bId
    requires Occupies(u.vars[v], g) && u.vars[v].cur.loc.regId == bId
    requires Occupies(u.vars[alt], g) && u.vars[alt].cur.loc.regId == aId
    requires forall w :: 0 <= w < VarCapacity && w != v && w != alt ==> u.vars[w] == t.vars[w]
    requires u.tables == SwapIn(t, g, v, aId, alt, bId).tables && u.views == t.views
    ensures Agrees(u, n)
  {
    assert MaskAgrees(t.views[g].assignedRegs, t.tables[g]) && TableMatches(t.tables[g], t.vars, n, g);
    assert t.tables[g][aId] == v && t.tables[g][bId] == alt;
    assert alt == v <==> aId == bId;
    forall h: Group
      ensures MaskAgrees(u.views[h].assignedRegs, u.tables[h]) && TableMatches(u.tables[h], u.vars, n, h)
    {
      assert MaskAgrees(t.views[h].assignedRegs, t.tables[h]) && TableMatches(t.tables[h], t.vars, n, h);
      forall w | 0 <= w < n && Occupies(u.vars[w], h)
        ensures u.tables[h][u.vars[w].cur.loc.regId] == w
      {
        if w != v && w != alt {
          assert u.vars[w] == t.vars[w];
        }
      }
      forall r: RegId | u.tables[h][r] != VarIdNone
        ensures u.tables[h][r] < n && Occupies(u.vars[u.tables[h][r]], h) && u.vars[u.tables[h][r]].cur.loc.regId == r
      {
        if h != g || (r != aId && r != bId) {
          assert u.tables[h][r] == t.tables[h][r];
          assert t.tables[h][r] != v && t.tables[h][r] != alt;
        }
      }
    }
  }

  /** What a shuffle step keeps of every variable: its target, its done flag once
      set, the whole variable when it is not in a register, and a register
      placement as a register placement. */
  predicate Keeps(t: Stage, u: Stage)
    requires t.Shaped() && u.Shaped()
  {
    forall w :: 0 <= w < VarCapacity ==>
      && u.vars[w].out == t.vars[w].out
      && (t.vars[w].IsDone() ==> u.vars[w].IsDone())
      && (!t.vars[w].cur.IsReg() ==> u.vars[w] == t.vars[w])
      && (t.vars[w].cur.IsReg() ==> u.vars[w].cur.IsReg())
  }

  lemma KeepsTrans(t: Stage, u: Stage, w: Stage)
    requires t.Shaped() && u.Shaped() && w.Shaped() && Keeps(t, u) && Keeps(u, w)
    ensures Keeps(t, w)
  {
  }

  /** A variable in a register whose target is a register: both in one group. */
  predicate SameGroup(x: Var) {
    x.cur.IsReg() && x.out.IsReg() ==> GroupOf(x.cur.loc.regType) == GroupOf(x.out.loc.regType)
  }

  /** No variable below `n` needs a move between register groups. */
  predicate SameGroups(t: Stage, n: nat)
    requires t.Shaped() && n <= VarCapacity
  {
    forall w :: 0 <= w < n ==> SameGroup(t.vars[w])
  }

  /** A variable with a register target sits in that register. */
  predicate AtTarget(x: Var) {
    x.out.IsReg() ==>
      && x.cur.IsReg() && GroupOf(x.cur.loc.regType) == GroupOf(x.out.loc.regType)
      && x.cur.loc.regId == x.out.loc.regId
  }

  /** Every done variable below `n` with a register target sits in it. */
  predicate DoneAtTarget(t: Stage, n: nat)
    requires t.Shaped() && n <= VarCapacity
  {
    forall w :: 0 <= w < n && t.vars[w].IsDone() ==> AtTarget(t.vars[w])
  }

  /** The move to a free register keeps the tables in agreement and every
      variable but v; v stays in its group, and is done exactly when it reached
      its target. */
  lemma MoveToProps(t: Stage, v: nat, n: nat, g: Group, curType: RegType, curId: RegId, to: RegId, f: Flags, avx: bool)
    requires t.Shaped() && v < n <= VarCapacity && Agrees(t, n)
    requires !t.vars[v].IsDone() && t.vars[v].cur.IsReg()
    requires curType == t.vars[v].cur.loc.regType && curId == t.vars[v].cur.loc.regId
    requires g == GroupOf(curType) == GroupOf(RegTypeOf(t.vars[v].out)) && to !in t.views[g].assignedRegs
    requires MoveTo(t, v, g, curType, curId, to, f, avx).Ok?
    ensures var (u, f1) := MoveTo(t, v, g, curType, curId, to, f, avx).value;
            && Agrees(u, n) && Keeps(t, u) && f1 == f.(didSome := true, pending := true)
            && (SameGroups(t, n) ==> SameGroups(u, n))
            && (DoneAtTarget(t, n) ==> DoneAtTarget(u, n))
  {
    var x := t.vars[v];
    var u := MoveTo(t, v, g, curType, curId, to, f, avx).value.0;
    assert x.out.IsReg();
    assert u.vars == t.vars[v := x.(cur := FuncValue(InReg(x.out.loc.regType, to), x.out.typeId, to == x.out.loc.regId))];
    assert Occupies(x, g);
    MovedAgrees(t, u, v, n, g, curId, to);
    assert forall w :: 0 <= w < VarCapacity && w != v ==> u.vars[w] == t.vars[w];
  }

  /** The exchange keeps the tables in agreement and every variable but the two;
      v is done. */
  lemma ExchangeProps(t: Stage, v: nat, n: nat, curType: RegType, curId: RegId, outId: RegId, f: Flags)
    requires t.Shaped() && v < n <= VarCapacity && Agrees(t, n)
    requires !t.vars[v].IsDone() && t.vars[v].cur.IsReg()
    requires curType == t.vars[v].cur.loc.regType && curId == t.vars[v].cur.loc.regId
    requires GroupOf(curType) == GroupGp == GroupOf(RegTypeOf(t.vars[v].out)) && RegIdOf(t.vars[v].out) == outId
    requires outId in t.views[GroupGp].assignedRegs
    requires var altId := t.tables[GroupGp][outId]; var y := t.vars[altId];
             altId < VarCapacity && (!y.out.IsInitialized() || (y.out.IsReg() && y.out.loc.regId == curId))
    ensures var (u, f1) := Exchange(t, v, curType, curId, outId, t.tables[GroupGp][outId], f);
            && Agrees(u, n) && Keeps(t, u) && f1 == f.(didSome := true) && u.vars[v].IsDone()
            && (SameGroups(t, n) ==> SameGroups(u, n))
            && (SameGroups(t, n) && DoneAtTarget(t, n) ==> DoneAtTarget(u, n))
  {
    var g := GroupGp;
    var x := t.vars[v];
    var altId := t.tables[g][outId];
    var y := t.vars[altId];
    var u := Exchange(t, v, curType, curId, outId, altId, f).0;
    assert MaskAgrees(t.views[g].assignedRegs, t.tables[g]) && TableMatches(t.tables[g], t.vars, n, g);
    assert Occupies(x, g) && t.tables[g][curId] == v;
    assert altId < n && Occupies(y, g) && y.cur.loc.regId == outId;
    assert x.out.IsReg();
    if altId == v {
      assert u.vars[v] == x.(cur := WithRegId(x.cur, outId).(done := true));
    } else {
      assert u.vars[v] == x.(cur := WithRegId(x.cur, outId).(done := true));
      assert u.vars[altId] == y.(cur := WithRegId(y.cur, curId).(done := y.cur.done || y.out.IsInitialized()));
    }
    assert forall w :: 0 <= w < VarCapacity && w != v && w != altId ==> u.vars[w] == t.vars[w];
    ExchangedAgrees(t, u, v, altId, n, g, curId, outId);
    if SameGroups(t, n) && DoneAtTarget(t, n) {
      assert SameGroup(y);
    }
  }

  /** The flags only gain bits within a pass, and `postponed` never changes. */
  predicate FlagsGrow(f: Flags, f1: Flags) {
    (f.didSome ==> f1.didSome) && (f.pending ==> f1.pending) && f1.postponed == f.postponed
  }

  /** One visit keeps the tables in agreement and keeps every variable as Keeps
      says; when it leaves nothing pending, v is done or outside the registers;
      what it moves stays in its group, and lands done only in its target. */
  lemma ShuffleVarProps(t: Stage, v: nat, n: nat, f: Flags, avx: bool)
    requires t.Shaped() && v < n <= VarCapacity && Agrees(t, n)
    requires ShuffleVar(t, v, f, avx).Ok?
    ensures var (u, f1) := ShuffleVar(t, v, f, avx).value;
            && Agrees(u, n) && Keeps(t, u) && FlagsGrow(f, f1)
            && (!f1.pending ==> (u.vars[v].cur.IsReg() ==> u.vars[v].IsDone()))
            && (f1.didSome && !f.didSome ==> f1.pending || u.vars[v].IsDone())
            && (SameGroups(t, n) ==> SameGroups(u, n))
            && (SameGroups(t, n) && DoneAtTarget(t, n) ==> DoneAtTarget(u, n))
  {
    var x := t.vars[v];
    if x.IsDone() || !x.cur.IsReg() {
    } else {
      var curType := x.cur.loc.regType;
      var g := GroupOf(curType);
      var curId := x.cur.loc.regId;
      var outId := RegIdOf(x.out);
      if g != GroupOf(RegTypeOf(x.out)) {
      } else if outId !in t.views[g].assignedRegs {
        MoveToProps(t, v, n, g, curType, curId, outId, f, avx);
      } else {
        var altId := t.tables[g][outId];
        var y := t.vars[altId];
        if !y.out.IsInitialized() || (y.out.IsReg() && y.out.loc.regId == curId) {
          if g == GroupGp {
            ExchangeProps(t, v, n, curType, curId, outId, f);
          } else {
            var avail := t.views[g].workRegs - t.views[g].assignedRegs;
            if avail != {} {
              var free := avail - t.views[g].dstRegs;
              MoveToProps(t, v, n, g, curType, curId, LowestId(if free != {} then free else avail), f, avx);
            }
          }
        }
      }
    }
  }

  /** Every variable below `n` in a register is done. */
  predicate RegsDone(t: Stage, n: nat)
    requires t.Shaped() && n <= VarCapacity
  {
    forall w :: 0 <= w < n && t.vars[w].cur.IsReg() ==> t.vars[w].IsDone()
  }

  /** One variable's step composed onto the pass before it. */
  lemma PassStep(t: Stage, p: Stage, u: Stage, n: nat, m: nat, f: Flags, fp: Flags, f1: Flags)
    requires t.Shaped() && p.Shaped() && u.Shaped() && 0 < n <= m <= VarCapacity
    requires Keeps(t, p) && FlagsGrow(f, fp) && (!fp.pending ==> RegsDone(p, n - 1))
    requires Keeps(p, u) && FlagsGrow(fp, f1)
    requires !f1.pending ==> (u.vars[n - 1].cur.IsReg() ==> u.vars[n - 1].IsDone())
    ensures Keeps(t, u) && FlagsGrow(f, f1) && (!f1.pending ==> RegsDone(u, n))
  {
    KeepsTrans(t, p, u);
    if !f1.pending {
      forall w | 0 <= w < n && u.vars[w].cur.IsReg()
        ensures u.vars[w].IsDone()
      {
        if w < n - 1 {
          assert p.vars[w].cur.IsReg();
        }
      }
    }
  }

  /** A pass over the variables below `n` keeps agreement with the first `m`
      variables and every variable as Keeps says; a pass that leaves nothing
      pending leaves every visited variable in a register done. */
  lemma {:induction false} ShufflePassProps(t: Stage, n: nat, m: nat, f: Flags, avx: bool)
    requires t.Shaped() && n <= m <= VarCapacity && Agrees(t, m)
    requires ShufflePass(t, n, f, avx).Ok?
    ensures var (u, f1) := ShufflePass(t, n, f, avx).value;
            && Agrees(u, m) && Keeps(t, u) && FlagsGrow(f, f1)
            && (!f1.pending ==> RegsDone(u, n))
            && (SameGroups(t, m) ==> SameGroups(u, m))
            && (SameGroups(t, m) && DoneAtTarget(t, m) ==> DoneAtTarget(u, m))
  {
    if n > 0 {
      ShufflePassProps(t, n - 1, m, f, avx);
      var (p, fp) := ShufflePass(t, n - 1, f, avx).value;
      ShuffleVarProps(p, n - 1, m, fp, avx);
      var (u, f1) := ShuffleVar(p, n - 1, fp, avx).value;
      PassStep(t, p, u, n, m, f, fp, f1);
    }
  }

  /** The shuffle, when it settles, keeps agreement and every variable as Keeps
      says, and leaves every variable below `n` in a register done. */
  lemma {:induction false} ShuffleProps(t: Stage, n: nat, f: Flags, avx: bool, passes: nat)
    requires t.Shaped() && n <= VarCapacity && Agrees(t, n)
    requires Shuffle(t, n, f, avx, passes).Settled?
    ensures var u := Shuffle(t, n, f, avx, passes).stage;
            && Agrees(u, n) && Keeps(t, u) && RegsDone(u, n)
            && (SameGroups(t, n) ==> SameGroups(u, n))
            && (SameGroups(t, n) && DoneAtTarget(t, n) ==> DoneAtTarget(u, n))
    decreases passes
  {
    ShufflePassProps(t, n, n, f, avx);
    var (t1, f1) := ShufflePass(t, n, f, avx).value;
    if f1.pending {
      var u := Shuffle(t1, n, if f1.didSome then NoFlags else Flags(false, false, true), avx, passes - 1).stage;
      ShuffleProps(t1, n, if f1.didSome then NoFlags else Flags(false, false, true), avx, passes - 1);
      KeepsTrans(t, t1, u);
    }
  }

  // ---------------------------------------------------------------------------
  // Phase 3: arguments passed on the stack, loaded into their target registers
  // ---------------------------------------------------------------------------

  /** The load step for variable v with `iterCount` passes planned: a variable
      not done whose value is on the stack is loaded into its target register
      and done, with the source's type id. A GP target in the SA register is
      put off to a second pass the first time one is met; when its turn comes
      the register's occupant is released first. A target the source's debug
      assertion excludes (not a register, out of the four groups) is InvalidState here. */
  function StackSrcVar(t: Stage, v: nat, iterCount: nat, saRegId: nat, base: Operand, avx: bool)
    : (r: Result<(Stage, nat)>)
    requires t.Shaped() && v < VarCapacity && base.Mem?
    ensures r.Ok? ==> r.value.0.Shaped()
  {
    var x := t.vars[v];
    if x.IsDone() || !x.cur.IsStack() then Ok((t, iterCount))
    else if !x.out.IsReg() then Err(InvalidState)
    else
      var outType := x.out.loc.regType;
      var outId := x.out.loc.regId;
      var g := GroupOf(outType);
      if g >= 4 || outId >= 32 then Err(InvalidState)
      else if outId == saRegId && g == GroupGp && iterCount == 1 then Ok((t, 2))
      else StackLoadFrom(t, v, iterCount, saRegId, base, avx)
  }

  /** The load of stack variable `v` into its target register by ArgMove. */
  function StackLoadFrom(t: Stage, v: nat, iterCount: nat, saRegId: nat, base: Operand, avx: bool)
    : (r: Result<(Stage, nat)>)
    requires t.Shaped() && v < VarCapacity && base.Mem?
    requires t.vars[v].cur.IsStack() && t.vars[v].out.IsReg()
    requires GroupOf(t.vars[v].out.loc.regType) < 4 && t.vars[v].out.loc.regId < 32
    ensures r.Ok? ==> r.value.0.Shaped()
  {
    var x := t.vars[v];
    StackLoadVar(t, v, iterCount, saRegId,
                 ArgMove(Reg(x.out.loc.regType, x.out.loc.regId), x.out.typeId,
                         Mem(base.baseId, base.offset + x.cur.loc.offset, 0), x.cur.typeId, avx))
  }

  /** The load `m` of stack variable `v` into its target register, releasing
      the SA register first when the target is the SA register. */
  function StackLoadVar(t: Stage, v: nat, iterCount: nat, saRegId: nat, m: Result<Inst>)
    : (r: Result<(Stage, nat)>)
    requires t.Shaped() && v < VarCapacity
    requires t.vars[v].cur.IsStack() && t.vars[v].out.IsReg()
    requires GroupOf(t.vars[v].out.loc.regType) < 4 && t.vars[v].out.loc.regId < 32
    ensures r.Ok? ==> r.value.0.Shaped()
  {
    var x := t.vars[v];
    var outType := x.out.loc.regType;
    var outId := x.out.loc.regId;
    var g := GroupOf(outType);
    var t1 := if outId == saRegId && g == GroupGp then Unassign(t, g, outId) else t;
    if m.Err? then Err(m.error)
    else
      var t2 := Assign(Emitted(t1, m.value), g, v, outId);
      Ok((MoveCur(t2, v, FuncValue(InReg(outType, outId), x.cur.typeId, true)), iterCount))
  }

  /** One load pass over the variables below `n`, in order. */
  function StackSrcPass(t: Stage, n: nat, iterCount: nat, saRegId: nat, base: Operand, avx: bool)
    : (r: Result<(Stage, nat)>)
    requires t.Shaped() && n <= VarCapacity && base.Mem?
    ensures r.Ok? ==> r.value.0.Shaped()
  {
    if n == 0 then Ok((t, iterCount))
    else
      var p := StackSrcPass(t, n - 1, iterCount, saRegId, base, avx);
      if p.Err? then p else StackSrcVar(p.value.0, n - 1, p.value.1, saRegId, base, avx)
  }

  /** A load pass stops at its first error. */
  lemma {:induction false} StackSrcPassErrStays(t: Stage, i: nat, n: nat, c: nat, saRegId: nat, base: Operand, avx: bool)
    requires t.Shaped() && i <= n <= VarCapacity && base.Mem?
    requires StackSrcPass(t, i, c, saRegId, base, avx).Err?
    ensures StackSrcPass(t, n, c, saRegId, base, avx) == StackSrcPass(t, i, c, saRegId, base, avx)
  {
    if n > i {
      StackSrcPassErrStays(t, i, n - 1, c, saRegId, base, avx);
    }
  }

  /** Phase 3: one pass, and a second one when a load was put off. */
  function StackSrcs(t: Stage, n: nat, saRegId: nat, base: Operand, avx: bool): (r: Result<Stage>)
    requires t.Shaped() && n <= VarCapacity && base.Mem?
    ensures r.Ok? ==> r.value.Shaped()
  {
    var p := StackSrcPass(t, n, 1, saRegId, base, avx);
    if p.Err? then Err(p.error)
    else if p.value.1 == 1 then Ok(p.value.0)
    else
      var q := StackSrcPass(p.value.0, n, p.value.1, saRegId, base, avx);
      if q.Err? then Err(q.error) else Ok(q.value.0)
  }

  /** A variable after phase 3: one not done whose value is on the stack sits
      in its target register, done. */
  function LoadedVar(x: Var): Var {
    if !x.IsDone() && x.cur.IsStack() && x.out.IsReg() then
      Var(FuncValue(InReg(x.out.loc.regType, x.out.loc.regId), x.cur.typeId, true), x.out)
    else x
  }

  /** The load step touches variable v alone: it is loaded, or put off with the
      second pass newly planned; a variable on the stack not done has a register target. */
  lemma StackSrcVarVars(t: Stage, v: nat, c: nat, saRegId: nat, base: Operand, avx: bool)
    requires t.Shaped() && v < VarCapacity && base.Mem?
    requires StackSrcVar(t, v, c, saRegId, base, avx).Ok?
    ensures var (u, c1) := StackSrcVar(t, v, c, saRegId, base, avx).value;
            && (!t.vars[v].IsDone() && t.vars[v].cur.IsStack() ==> t.vars[v].out.IsReg())
            && ((c1 == c && u.vars == t.vars[v := LoadedVar(t.vars[v])])
                || (c == 1 && c1 == 2 && u.vars == t.vars))
  {
  }

  /** A load pass leaves every variable below `n` loaded, or untouched when it
      was put off to a second pass; and only the first pass can put one off. */
  lemma {:induction false} StackSrcPassVars(t: Stage, n: nat, c: nat, saRegId: nat, base: Operand, avx: bool)
    requires t.Shaped() && n <= VarCapacity && base.Mem?
    requires StackSrcPass(t, n, c, saRegId, base, avx).Ok?
    ensures var (u, c1) := StackSrcPass(t, n, c, saRegId, base, avx).value;
            && (c1 == c || (c == 1 && c1 == 2))
            && (forall w :: n <= w < VarCapacity ==> u.vars[w] == t.vars[w])
            && (forall w :: 0 <= w < n ==>
                  && (!t.vars[w].IsDone() && t.vars[w].cur.IsStack() ==> t.vars[w].out.IsReg())
                  && (u.vars[w] == LoadedVar(t.vars[w]) || (c == 1 && c1 == 2 && u.vars[w] == t.vars[w])))
  {
    if n > 0 {
      StackSrcPassVars(t, n - 1, c, saRegId, base, avx);
      var (p, cp) := StackSrcPass(t, n - 1, c, saRegId, base, avx).value;
      StackSrcVarVars(p, n - 1, cp, saRegId, base, avx);
    }
  }

  /** Phase 3 leaves every variable below `n` loaded, and every one that was
      on the stack and not done is done in its target register. */
  lemma StackSrcsVars(t: Stage, n: nat, saRegId: nat, base: Operand, avx: bool)
    requires t.Shaped() && n <= VarCapacity && base.Mem?
    requires StackSrcs(t, n, saRegId, base, avx).Ok?
    ensures var u := StackSrcs(t, n, saRegId, base, avx).value;
            forall w :: 0 <= w < n ==>
              && u.vars[w] == LoadedVar(t.vars[w])
              && (!t.vars[w].IsDone() && t.vars[w].cur.IsStack() ==> u.vars[w].IsDone() && AtTarget(u.vars[w]))
  {
    StackSrcPassVars(t, n, 1, saRegId, base, avx);
    var (p, c1) := StackSrcPass(t, n, 1, saRegId, base, avx).value;
    if c1 != 1 {
      StackSrcPassVars(p, n, c1, saRegId, base, avx);
    }
  }

  // ---------------------------------------------------------------------------
  // The three phases together
  // ---------------------------------------------------------------------------

  /** emitArgsAssignment after initWorkData, from the stage it built with `n`
      variables: phase 1 when some target is on the stack, the shuffle, and
      phase 3 when some source is on the stack. The SA register is worked out
      from the variables before phase 1 and again before phase 3, where the SA
      variable may have moved. */
  function AssignArgs(t: Stage, n: nat, saVarId: nat, stackDsts: bool, stackSrcs: bool, arch: Arch,
                      info: FrameInfo, passes: nat): (r: Settle)
    requires t.Shaped() && n <= VarCapacity
    ensures r.Settled? ==> r.stage.Shaped()
  {
    var saRegId := SaRegOf(info, saVarId, t.vars, n);
    var p1 := if stackDsts then StackDsts(t, n, arch, ArgBase(info, saRegId), info.avx) else Ok(t);
    if p1.Err? then Failed(p1.error)
    else ShuffleThenLoad(p1.value, n, saVarId, stackSrcs, info, passes)
  }

  /** The shuffle and, once it settled, phase 3 when some source is on the
      stack, through the SA register worked out again from the variables. */
  function ShuffleThenLoad(t: Stage, n: nat, saVarId: nat, stackSrcs: bool, info: FrameInfo, passes: nat): (r: Settle)
    requires t.Shaped() && n <= VarCapacity
    ensures r.Settled? ==> r.stage.Shaped()
  {
    var p2 := Shuffle(t, n, NoFlags, info.avx, passes);
    if !p2.Settled? || !stackSrcs then p2
    else
      var sa := SaRegOf(info, saVarId, p2.stage.vars, n);
      var p3 := StackSrcs(p2.stage, n, sa, ArgBase(info, sa), info.avx);
      if p3.Err? then Failed(p3.error) else Settled(p3.value)
  }

  /** Every variable below `n` is in a register or on the stack. */
  predicate Placed(t: Stage, n: nat)
    requires t.Shaped() && n <= VarCapacity
  {
    forall w :: 0 <= w < n ==> t.vars[w].cur.IsReg() || t.vars[w].cur.IsStack()
  }

  /** What phase 1 leaves for the shuffle: agreeing tables, every variable still
      placed, and the placements in one group and done ones at their targets
      when they were before. */
  lemma StoredProps(t: Stage, n: nat, stackDsts: bool, arch: Arch, base: Operand, avx: bool)
    requires t.Shaped() && n <= VarCapacity && base.Mem?
    requires Agrees(t, n) && NoneStored(t, n) && Placed(t, n)
    requires !stackDsts ==> forall w :: 0 <= w < n ==> !t.vars[w].out.IsStack()
    requires (if stackDsts then StackDsts(t, n, arch, base, avx) else Ok(t)).Ok?
    ensures var u := (if stackDsts then StackDsts(t, n, arch, base, avx) else Ok(t)).value;
            && u.Shaped() && Agrees(u, n) && Placed(u, n)
            && (forall w :: 0 <= w < n ==> u.vars[w] == StoredVar(t.vars[w]))
            && (SameGroups(t, n) ==> SameGroups(u, n))
            && (SameGroups(t, n) && DoneAtTarget(t, n) ==> DoneAtTarget(u, n))
  {
    if stackDsts {
      StackDstsProps(t, n, n, arch, base, avx);
    }
  }

  /** A successful emitArgsAssignment leaves every variable done, provided the
      built stage agrees with its tables, has every variable placed and none
      with a stack target done, and its two flags are set whenever some target,
      or some source, is on the stack. When no variable needs a move between
      register groups and the variables done from the start sit in their
      targets, every variable ends in its target register. */
  lemma AssignArgsDone(t: Stage, n: nat, saVarId: nat, stackDsts: bool, stackSrcs: bool, arch: Arch,
                       info: FrameInfo, passes: nat)
    requires t.Shaped() && n <= VarCapacity
    requires Agrees(t, n) && NoneStored(t, n) && Placed(t, n)
    requires !stackDsts ==> forall w :: 0 <= w < n ==> !t.vars[w].out.IsStack()
    requires !stackSrcs ==> forall w :: 0 <= w < n ==> t.vars[w].cur.IsReg()
    requires AssignArgs(t, n, saVarId, stackDsts, stackSrcs, arch, info, passes).Settled?
    ensures var u := AssignArgs(t, n, saVarId, stackDsts, stackSrcs, arch, info, passes).stage;
            && (forall w :: 0 <= w < n ==> u.vars[w].IsDone())
            && (SameGroups(t, n) && DoneAtTarget(t, n) ==> forall w :: 0 <= w < n ==> AtTarget(u.vars[w]))
  {
    var saRegId := SaRegOf(info, saVarId, t.vars, n);
    var base := ArgBase(info, saRegId);
    StoredProps(t, n, stackDsts, arch, base, info.avx);
    var t1 := (if stackDsts then StackDsts(t, n, arch, base, info.avx) else Ok(t)).value;
    ShuffleProps(t1, n, NoFlags, info.avx, passes);
    var t2 := Shuffle(t1, n, NoFlags, info.avx, passes).stage;
    if stackSrcs {
      var sa := SaRegOf(info, saVarId, t2.vars, n);
      StackSrcsVars(t2, n, sa, ArgBase(info, sa), info.avx);
      LoadsFinish(t1, t2, StackSrcs(t2, n, sa, ArgBase(info, sa), info.avx).value, n);
    } else {
      RegsFinish(t, t1, t2, n);
    }
  }

  /** No phase 3 after a settled shuffle of variables that all started in
      registers: every variable below `n` is done, and in its target when the
      shuffle left the done ones there. */
  lemma RegsFinish(t: Stage, t1: Stage, t2: Stage, n: nat)
    requires t.Shaped() && t1.Shaped() && t2.Shaped() && n <= VarCapacity
    requires forall w :: 0 <= w < n ==> t.vars[w].cur.IsReg() && t1.vars[w] == StoredVar(t.vars[w])
    requires Keeps(t1, t2) && RegsDone(t2, n)
    ensures forall w :: 0 <= w < n ==> t2.vars[w].IsDone()
    ensures DoneAtTarget(t2, n) ==> forall w :: 0 <= w < n ==> AtTarget(t2.vars[w])
  {
    forall w | 0 <= w < n
      ensures t2.vars[w].IsDone()
    {
      assert t1.vars[w].cur.IsReg();
    }
  }

  /** Phase 3 after a settled shuffle: every variable below `n` is done, and
      in its target when the shuffle left the done ones there. */
  lemma LoadsFinish(t1: Stage, t2: Stage, u: Stage, n: nat)
    requires t1.Shaped() && t2.Shaped() && u.Shaped() && n <= VarCapacity
    requires Placed(t1, n) && Keeps(t1, t2) && RegsDone(t2, n)
    requires forall w :: 0 <= w < n ==>
               && u.vars[w] == LoadedVar(t2.vars[w])
               && (!t2.vars[w].IsDone() && t2.vars[w].cur.IsStack() ==> u.vars[w].IsDone() && AtTarget(u.vars[w]))
    ensures forall w :: 0 <= w < n ==> u.vars[w].IsDone()
    ensures DoneAtTarget(t2, n) ==> forall w :: 0 <= w < n ==> AtTarget(u.vars[w])
  {
    forall w | 0 <= w < n
      ensures u.vars[w].IsDone() && (DoneAtTarget(t2, n) ==> AtTarget(u.vars[w]))
    {
      if !t2.vars[w].cur.IsReg() {
        assert t2.vars[w] == t1.vars[w];
      }
    }
  }
}
