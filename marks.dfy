/** What argsToFuncFrame marks in the frame once the work areas are built:
    markDstRegsDirty marks every target register dirty, and markScratchRegs
    dirties one scratch register per group that needs one. */
module Marks {
  import opened Defs
  import opened WorkDatas
  import opened ArgVars

  // ---------------------------------------------------------------------------
  // markDstRegsDirty
  // ---------------------------------------------------------------------------

  /** The registers markDstRegsDirty marks in a group: the targets, and the
      registers still to be shuffled. */
  function DstDirty(v: WorkView): RegMask {
    v.usedRegs + v.dstShuf
  }

  /** A group after markDstRegsDirty: its marked registers become working registers. */
  function DstMarkedView(v: WorkView): (w: WorkView)
    ensures w.workRegs == v.workRegs + DstDirty(v)
    ensures w.(workRegs := v.workRegs) == v
  {
    v.(workRegs := v.workRegs + DstDirty(v))
  }

  // ---------------------------------------------------------------------------
  // markScratchRegs
  // ---------------------------------------------------------------------------

  /** The groups that need a scratch register: those a stack-to-stack move goes
      through, and those with a register swap except GP, which swaps with xchg. */
  function ScratchGroups(stackDstMask: set<Group>, regSwapsMask: set<Group>): set<Group> {
    stackDstMask + (regSwapsMask - {GroupGp})
  }

  /** The scratch register of a group: the lowest working register that is
      neither a target nor still to be shuffled, else the lowest working register
      that is no target, else the lowest register of the architecture that is no
      working register (one more register gets dirty); None when none is left. */
  function ScratchReg(v: WorkView): Option<RegId> {
    var first := v.workRegs - (v.usedRegs + v.dstShuf);
    var second := v.workRegs - v.usedRegs;
    var third := v.archRegs - v.workRegs;
    if first != {} then Some(LowestId(first))
    else if second != {} then Some(LowestId(second))
    else if third != {} then Some(LowestId(third))
    else None
  }

  /** The scratch register is never a target; it is a working register unless
      every working register is a target; it avoids registers still to be
      shuffled when it can; and there is none only when every register of the
      architecture is a working register and every working register is a target. */
  lemma ScratchRegProps(v: WorkView)
    requires v.usedRegs <= v.workRegs
    ensures var s := ScratchReg(v);
      && (s.Some? ==> s.value !in v.usedRegs && (s.value in v.workRegs || s.value in v.archRegs))
      && (s.Some? && s.value !in v.workRegs ==> v.workRegs <= v.usedRegs)
      && (s.Some? && s.value in v.dstShuf ==> v.workRegs <= v.usedRegs + v.dstShuf)
      && (s.Some? && s.value in v.workRegs ==> forall q :: q in v.workRegs - v.usedRegs ==> s.value <= q || q in v.dstShuf)
      && (s.None? <==> v.workRegs <= v.usedRegs && v.archRegs <= v.workRegs)
  {
    var first := v.workRegs - (v.usedRegs + v.dstShuf);
    var second := v.workRegs - v.usedRegs;
    var third := v.archRegs - v.workRegs;
    if first == {} {
      assert v.workRegs <= v.usedRegs + v.dstShuf by {
        forall q | q in v.workRegs ensures q in v.usedRegs + v.dstShuf {
          assert q !in first;
        }
      }
    }
    if second == {} {
      assert v.workRegs <= v.usedRegs by {
        forall q | q in v.workRegs ensures q in v.usedRegs {
          assert q !in second;
        }
      }
    }
    if third == {} {
      assert v.archRegs <= v.workRegs by {
        forall q | q in v.archRegs ensures q in v.workRegs {
          assert q !in third;
        }
      }
    }
    if v.workRegs <= v.usedRegs {
      assert second == {};
    }
    if first != {} {
      forall q | q in v.workRegs - v.usedRegs && q !in v.dstShuf ensures LowestId(first) <= q {
        assert q in first;
      }
    }
    if v.archRegs <= v.workRegs {
      assert third == {};
    }
  }

  /** A group after markScratchRegs: its scratch register, if it needs and has
      one, becomes a working register. */
  function ScratchView(v: WorkView, needed: bool): WorkView {
    var s := ScratchReg(v);
    if needed && s.Some? then v.(workRegs := v.workRegs + {s.value}) else v
  }

  /** The dirty registers of a group after markScratchRegs. */
  function ScratchDirty(dirty: RegMask, v: WorkView, needed: bool): RegMask {
    var s := ScratchReg(v);
    if needed && s.Some? then dirty + {s.value} else dirty
  }

  /** What the two passes together add to a group's dirty registers: all its
      targets, and besides them at most one register, only in a group that needs
      a scratch register. */
  lemma DirtyMarks(d0: RegMask, v: WorkView, needed: bool, targets: RegMask)
    requires v.usedRegs == targets && v.dstShuf == targets
    ensures var d := ScratchDirty(d0 + DstDirty(v), DstMarkedView(v), needed);
      && d0 <= d && targets <= d
      && AtMostOne(d - d0 - targets)
      && (!needed ==> d - d0 - targets == {})
  {
    var w := DstMarkedView(v);
    var d := ScratchDirty(d0 + DstDirty(v), w, needed);
    assert DstDirty(v) == targets;
    var s := ScratchReg(w);
    if needed && s.Some? {
      assert d == d0 + targets + {s.value};
      assert d - d0 - targets <= {s.value};
    } else {
      assert d == d0 + targets;
    }
  }

  /** A set with at most one element. */
  predicate AtMostOne(m: RegMask) {
    forall p, q :: p in m && q in m ==> p == q
  }

  // ---------------------------------------------------------------------------
  // The four groups, one pass at a time
  // ---------------------------------------------------------------------------

  /** Group h once markDstRegsDirty has visited the groups below k. */
  function DstMarkedAt(vs: seq<WorkView>, k: nat, h: Group): WorkView
    requires |vs| == 4
  {
    if h < k then DstMarkedView(vs[h]) else vs[h]
  }

  function DstMarkedViews(vs: seq<WorkView>, k: nat): (ws: seq<WorkView>)
    requires |vs| == 4
    ensures |ws| == 4
  {
    [DstMarkedAt(vs, k, 0), DstMarkedAt(vs, k, 1), DstMarkedAt(vs, k, 2), DstMarkedAt(vs, k, 3)]
  }

  /** The dirty registers of group h once markDstRegsDirty has visited the groups below k. */
  function DstDirtyAt(ds: seq<RegMask>, vs: seq<WorkView>, k: nat, h: Group): RegMask
    requires |ds| == 4 && |vs| == 4
  {
    if h < k then ds[h] + DstDirty(vs[h]) else ds[h]
  }

  function DstDirtyRegs(ds: seq<RegMask>, vs: seq<WorkView>, k: nat): (es: seq<RegMask>)
    requires |ds| == 4 && |vs| == 4
    ensures |es| == 4
  {
    [DstDirtyAt(ds, vs, k, 0), DstDirtyAt(ds, vs, k, 1), DstDirtyAt(ds, vs, k, 2), DstDirtyAt(ds, vs, k, 3)]
  }

  lemma DstMarkedAtLemma(vs: seq<WorkView>, ds: seq<RegMask>, k: nat, h: Group)
    requires |vs| == 4 && |ds| == 4
    ensures DstMarkedViews(vs, k)[h] == DstMarkedAt(vs, k, h)
    ensures DstDirtyRegs(ds, vs, k)[h] == DstDirtyAt(ds, vs, k, h)
  {
    if h == 0 {} else if h == 1 {} else if h == 2 {} else {}
  }

  /** markDstRegsDirty visits one more group. */
  lemma DstMarkedStep(vs: seq<WorkView>, ds: seq<RegMask>, g: Group)
    requires |vs| == 4 && |ds| == 4
    ensures DstMarkedViews(vs, g + 1) == DstMarkedViews(vs, g)[g := DstMarkedView(vs[g])]
    ensures DstDirtyRegs(ds, vs, g + 1) == DstDirtyRegs(ds, vs, g)[g := ds[g] + DstDirty(vs[g])]
  {
  }

  /** Group h once markScratchRegs has visited the groups below k. */
  function ScratchAt(vs: seq<WorkView>, needed: set<Group>, k: nat, h: Group): WorkView
    requires |vs| == 4
  {
    if h < k then ScratchView(vs[h], h in needed) else vs[h]
  }

  function ScratchViews(vs: seq<WorkView>, needed: set<Group>, k: nat): (ws: seq<WorkView>)
    requires |vs| == 4
    ensures |ws| == 4
  {
    [ScratchAt(vs, needed, k, 0), ScratchAt(vs, needed, k, 1), ScratchAt(vs, needed, k, 2), ScratchAt(vs, needed, k, 3)]
  }

  /** The dirty registers of group h once markScratchRegs has visited the groups below k. */
  function ScratchDirtyAt(ds: seq<RegMask>, vs: seq<WorkView>, needed: set<Group>, k: nat, h: Group): RegMask
    requires |ds| == 4 && |vs| == 4
  {
    if h < k then ScratchDirty(ds[h], vs[h], h in needed) else ds[h]
  }

  function ScratchDirtyRegs(ds: seq<RegMask>, vs: seq<WorkView>, needed: set<Group>, k: nat): (es: seq<RegMask>)
    requires |ds| == 4 && |vs| == 4
    ensures |es| == 4
  {
    [ScratchDirtyAt(ds, vs, needed, k, 0), ScratchDirtyAt(ds, vs, needed, k, 1),
     ScratchDirtyAt(ds, vs, needed, k, 2), ScratchDirtyAt(ds, vs, needed, k, 3)]
  }

  lemma ScratchAtLemma(vs: seq<WorkView>, ds: seq<RegMask>, needed: set<Group>, k: nat, h: Group)
    requires |vs| == 4 && |ds| == 4
    ensures ScratchViews(vs, needed, k)[h] == ScratchAt(vs, needed, k, h)
    ensures ScratchDirtyRegs(ds, vs, needed, k)[h] == ScratchDirtyAt(ds, vs, needed, k, h)
  {
    if h == 0 {} else if h == 1 {} else if h == 2 {} else {}
  }

  /** markScratchRegs visits one more group. */
  lemma ScratchStep(vs: seq<WorkView>, ds: seq<RegMask>, needed: set<Group>, g: Group)
    requires |vs| == 4 && |ds| == 4
    ensures ScratchViews(vs, needed, g + 1) == ScratchViews(vs, needed, g)[g := ScratchView(vs[g], g in needed)]
    ensures ScratchDirtyRegs(ds, vs, needed, g + 1) == ScratchDirtyRegs(ds, vs, needed, g)[g := ScratchDirty(ds[g], vs[g], g in needed)]
  {
  }

  /** A pass over no group needing a scratch register changes nothing. */
  lemma ScratchNone(vs: seq<WorkView>, ds: seq<RegMask>)
    requires |vs| == 4 && |ds| == 4
    ensures ScratchViews(vs, {}, 4) == vs && ScratchDirtyRegs(ds, vs, {}, 4) == ds
  {
  }

  // ---------------------------------------------------------------------------
  // The frame's dirty registers after both passes
  // ---------------------------------------------------------------------------

  /** The frame's dirty registers after markDstRegsDirty and markScratchRegs. */
  function MarkedDirtyRegs(ds: seq<RegMask>, vs: seq<WorkView>, stackDstMask: set<Group>, regSwapsMask: set<Group>): (es: seq<RegMask>)
    requires |ds| == 4 && |vs| == 4
    ensures |es| == 4
  {
    ScratchDirtyRegs(DstDirtyRegs(ds, vs, 4), DstMarkedViews(vs, 4), ScratchGroups(stackDstMask, regSwapsMask), 4)
  }

  /** After both passes over a built context, every group's targets are dirty,
      the dirty registers only grow, besides the targets at most one register
      gets dirty per group, and none in a group that needs no scratch register. */
  lemma MarkedDirty(s: Snap, d0: seq<RegMask>, arch: Arch, fv: FrameView, srcs: seq<FuncValue>, a: ArgsAssignment, g: Group)
    requires s.Shaped() && |d0| == 4 && fv.WellFormed() && a.WellFormed() && Built(s, arch, fv, srcs, a)
    ensures var needed := ScratchGroups(s.stackDstMask, s.regSwapsMask);
            var d := MarkedDirtyRegs(d0, s.views, s.stackDstMask, s.regSwapsMask)[g];
            var t := DstIds(a, ArgCountLoHi, g);
            && d0[g] <= d && t <= d && AtMostOne(d - d0[g] - t)
            && (g !in needed ==> d - d0[g] - t == {})
            && (g == GroupGp && GroupGp !in StackDstGroups(arch, srcs, a, ArgCountLoHi) ==> d - d0[g] - t == {})
  {
    var needed := ScratchGroups(s.stackDstMask, s.regSwapsMask);
    var d1 := DstDirtyRegs(d0, s.views, 4);
    var vs1 := DstMarkedViews(s.views, 4);
    DstMarkedAtLemma(s.views, d0, 4, g);
    ScratchAtLemma(vs1, d1, needed, 4, g);
    BuiltTargets(s, arch, fv, srcs, a, g);
    DirtyMarks(d0[g], s.views[g], g in needed, DstIds(a, ArgCountLoHi, g));
  }

  /** MarkedDirty for every group, about the frame's final dirty registers `d`. */
  lemma MarkedDirtyAll(s: Snap, d0: seq<RegMask>, d: seq<RegMask>, arch: Arch, fv: FrameView, srcs: seq<FuncValue>, a: ArgsAssignment)
    requires s.Shaped() && |d0| == 4 && fv.WellFormed() && a.WellFormed() && Built(s, arch, fv, srcs, a)
    requires d == MarkedDirtyRegs(d0, s.views, s.stackDstMask, s.regSwapsMask)
    ensures forall g: Group ::
              var t := DstIds(a, ArgCountLoHi, g);
              && d0[g] <= d[g] && t <= d[g] && AtMostOne(d[g] - d0[g] - t)
              && (g == GroupGp && GroupGp !in StackDstGroups(arch, srcs, a, ArgCountLoHi) ==> d[g] - d0[g] - t == {})
  {
    forall g: Group
      ensures var t := DstIds(a, ArgCountLoHi, g);
              && d0[g] <= d[g] && t <= d[g] && AtMostOne(d[g] - d0[g] - t)
              && (g == GroupGp && GroupGp !in StackDstGroups(arch, srcs, a, ArgCountLoHi) ==> d[g] - d0[g] - t == {})
    {
      MarkedDirty(s, d0, arch, fv, srcs, a, g);
    }
  }

  /** The frame's SA register after markStackArgsReg: the SA variable's
      register, else the frame pointer of a frame that keeps it, else unchanged. */
  function MarkedSaReg(saVarId: nat, vars: seq<Var>, preservedFP: bool, saRegId: nat): nat
    requires saVarId != VarIdNone ==> saVarId < |vars| && vars[saVarId].cur.IsReg()
  {
    if saVarId != VarIdNone then vars[saVarId].cur.loc.regId
    else if preservedFP then IdBp
    else saRegId
  }

  /** After initWorkData, markStackArgsReg picks the SA register initWorkData chose. */
  lemma MarkedSaRegIs(s: Snap, arch: Arch, fv: FrameView, srcs: seq<FuncValue>, a: ArgsAssignment, saRegId: nat)
    requires s.Shaped() && fv.WellFormed() && a.WellFormed() && Built(s, arch, fv, srcs, a)
    ensures s.saVarId != VarIdNone ==> s.saVarId < VarCapacity && s.vars[s.saVarId].cur.IsReg() && s.vars[s.saVarId].cur.loc.regId < 32
    ensures var sa := SaReg(arch, fv, srcs, a);
            MarkedSaReg(s.saVarId, s.vars, fv.preservedFP, saRegId) ==
              if sa.Some? then sa.value else if fv.preservedFP then IdBp else saRegId
  {
    BuiltSaVar(s, arch, fv, srcs, a);
  }

  /** What argsToFuncFrame promises of the frame it has marked: from the dirty
      masks `fv.dirty` it has reached `d`, where every target register is dirty,
      at most one other register per group has been added (the scratch
      register), none at all in the general purpose group when no argument goes
      to the stack; and its SA register is the one initWorkData chose for the
      stack arguments, else the frame pointer of a frame that keeps it. */
  predicate FrameMarked(arch: Arch, fv: FrameView, srcs: seq<FuncValue>, a: ArgsAssignment, d: seq<RegMask>, saRegId: nat)
    requires fv.WellFormed() && a.WellFormed()
  {
    && |d| == 4
    && (forall g: Group ::
          var t := DstIds(a, ArgCountLoHi, g);
          && fv.dirty[g] <= d[g] && t <= d[g] && AtMostOne(d[g] - fv.dirty[g] - t)
          && (g == GroupGp && GroupGp !in StackDstGroups(arch, srcs, a, ArgCountLoHi) ==> d[g] - fv.dirty[g] - t == {}))
    && var sa := SaReg(arch, fv, srcs, a);
       saRegId == if sa.Some? then sa.value else if fv.preservedFP then IdBp else fv.saRegId
  }

  /** The three marking passes, applied to a built context, give a marked frame. */
  lemma MarkedFrame(s: Snap, arch: Arch, fv: FrameView, srcs: seq<FuncValue>, a: ArgsAssignment, d: seq<RegMask>, saRegId: nat)
    requires s.Shaped() && fv.WellFormed() && a.WellFormed() && Built(s, arch, fv, srcs, a)
    requires s.saVarId != VarIdNone ==> s.saVarId < |s.vars| && s.vars[s.saVarId].cur.IsReg()
    requires d == MarkedDirtyRegs(fv.dirty, s.views, s.stackDstMask, s.regSwapsMask)
    requires saRegId == MarkedSaReg(s.saVarId, s.vars, fv.preservedFP, fv.saRegId)
    ensures FrameMarked(arch, fv, srcs, a, d, saRegId)
  {
    MarkedDirtyAll(s, fv.dirty, d, arch, fv, srcs, a);
    MarkedSaRegIs(s, arch, fv, srcs, a, fv.saRegId);
  }
}
