/** X86Internal::emitArgsAssignment from its start: initWorkData's state is
    where the three phases begin, and what initWorkData guarantees about it is
    what the phases need to leave every argument in its place. */
module Assignments {
  import opened Defs
  import opened Emit
  import opened WorkDatas
  import opened ArgVars
  import opened Shuffles

  /** The stage an ArgsContext holds, with the instructions `code` emitted before it. */
  function StageOf(s: Snap, code: seq<Inst>): (t: Stage)
    requires s.Shaped()
    ensures t.Shaped() && t.vars == s.vars && t.code == code
  {
    Stage(s.vars, s.tables, s.views, code)
  }

  /** No assigned slot asks for a move from a register of one group into a
      register of another: the source's shuffle leaves that case unimplemented. */
  predicate NoCrossGroup(srcs: seq<FuncValue>, a: ArgsAssignment) {
    forall i :: 0 <= i < ArgCountLoHi && a.Arg(i).IsAssigned() ==> SameGroup(ArgVar(SrcOf(srcs, i), a.Arg(i)))
  }

  /** What a slot variable looks like when its slot reported no error: placed,
      not done when its target is on the stack, in its target when done, and a
      stack target or source shows up in the context's flags. */
  predicate SlotVarStarts(x: Var, stackDsts: set<Group>, stackSrc: bool) {
    && (x.cur.IsReg() || x.cur.IsStack())
    && (x.out.IsStack() ==> !x.cur.done && stackDsts != {})
    && (x.cur.done ==> AtTarget(x))
    && (!stackSrc ==> x.cur.IsReg())
  }

  /** The variables of error-free slots below `n` all start as SlotVarStarts says,
      and in one group each when the slots ask for no cross-group move. */
  lemma {:induction false} SlotVarsStart(arch: Arch, fp: bool, srcs: seq<FuncValue>, a: ArgsAssignment, n: nat)
    requires SourcesWellFormed(srcs) && n <= ArgCountLoHi
    requires FirstArgError(arch, fp, srcs, a, n).None?
    ensures forall k :: 0 <= k < |SlotVars(srcs, a, n)| ==>
              && SlotVarStarts(SlotVars(srcs, a, n)[k], StackDstGroups(arch, srcs, a, n), StackSrc(srcs, a, n))
              && (NoCrossGroup(srcs, a) ==> SameGroup(SlotVars(srcs, a, n)[k]))
  {
    if n > 0 {
      SlotVarsStart(arch, fp, srcs, a, n - 1);
      var prev := SlotVars(srcs, a, n - 1);
      var vs := SlotVars(srcs, a, n);
      var d := a.Arg(n - 1);
      var src := SrcOf(srcs, n - 1);
      var sd := StackDstGroups(arch, srcs, a, n);
      var ss := StackSrc(srcs, a, n);
      assert ArgError(arch, fp, srcs, a, n - 1).None?;
      forall k | 0 <= k < |vs|
        ensures SlotVarStarts(vs[k], sd, ss) && (NoCrossGroup(srcs, a) ==> SameGroup(vs[k]))
      {
        if k < |prev| {
          assert vs[k] == prev[k];
          assert StackDstGroups(arch, srcs, a, n - 1) <= sd;
          assert StackSrc(srcs, a, n - 1) ==> ss;
        } else {
          assert d.IsAssigned() && vs[k] == ArgVar(src, d);
          assert src.IsAssigned() && !src.done;
          if d.IsStack() {
            assert MemMoveGroup(arch, src, d).Some?;
            assert StackDstOf(arch, src, d) <= sd;
          }
        }
      }
    }
  }

  /** The SA variable starts as SlotVarStarts says, in one group. */
  lemma SaVarStarts(arch: Arch, cur: RegId, out: nat, stackDsts: set<Group>, stackSrc: bool)
    ensures SlotVarStarts(SaVar(arch, cur, out), stackDsts, stackSrc) && SameGroup(SaVar(arch, cur, out))
  {
  }

  /** Every variable initWorkData built starts as SlotVarStarts says, and in one
      group when no slot asks for a cross-group move. */
  lemma BuiltVarsStart(s: Snap, arch: Arch, fv: FrameView, srcs: seq<FuncValue>, a: ArgsAssignment)
    requires s.Shaped() && fv.WellFormed() && a.WellFormed() && SourcesWellFormed(srcs)
    requires InitOutcome(arch, fv, srcs, a).Ok? && Built(s, arch, fv, srcs, a)
    ensures s.varCount <= VarCapacity
    ensures forall w :: 0 <= w < s.varCount ==>
              && SlotVarStarts(s.vars[w], s.stackDstMask, s.hasStackSrc)
              && (NoCrossGroup(srcs, a) ==> SameGroup(s.vars[w]))
  {
    var vs := SlotVars(srcs, a, ArgCountLoHi);
    var sa := SaReg(arch, fv, srcs, a);
    assert BuiltHead(s, arch, fv, srcs, a);
    SlotVarsStart(arch, fv.preservedFP, srcs, a, ArgCountLoHi);
    forall w | 0 <= w < s.varCount
      ensures SlotVarStarts(s.vars[w], s.stackDstMask, s.hasStackSrc)
      ensures NoCrossGroup(srcs, a) ==> SameGroup(s.vars[w])
    {
      if w < |vs| {
        assert s.vars[w] == s.vars[..|vs|][w] == vs[w];
      } else {
        assert sa.Some? && w == |vs|;
        SaVarStarts(arch, sa.value, a.saRegId, s.stackDstMask, s.hasStackSrc);
      }
    }
  }

  /** initWorkData's state, when it succeeded, is a stage every phase lemma
      applies to: its tables agree with its variables, every variable is
      placed, none with a stack target is done, the done ones sit in their
      targets, and the context's two flags are set whenever some target, or
      some source, is on the stack. Without cross-group slots, every variable
      is in one group. */
  lemma BuiltStarts(s: Snap, arch: Arch, fv: FrameView, srcs: seq<FuncValue>, a: ArgsAssignment, code: seq<Inst>)
    requires s.Shaped() && fv.WellFormed() && a.WellFormed() && SourcesWellFormed(srcs)
    requires InitOutcome(arch, fv, srcs, a).Ok? && Built(s, arch, fv, srcs, a)
    ensures var t := StageOf(s, code);
            var n := s.varCount;
            && n <= VarCapacity && Agrees(t, n) && NoneStored(t, n) && Placed(t, n) && DoneAtTarget(t, n)
            && (s.stackDstMask == {} ==> forall w :: 0 <= w < n ==> !t.vars[w].out.IsStack())
            && (!s.hasStackSrc ==> forall w :: 0 <= w < n ==> t.vars[w].cur.IsReg())
            && (NoCrossGroup(srcs, a) ==> SameGroups(t, n))
  {
    var t := StageOf(s, code);
    var n := s.varCount;
    BuiltVarsStart(s, arch, fv, srcs, a);
    forall g: Group
      ensures MaskAgrees(t.views[g].assignedRegs, t.tables[g]) && TableMatches(t.tables[g], t.vars, n, g)
    {
      assert BuiltGroupOf(s, arch, fv, srcs, a, g);
    }
  }

  /** emitArgsAssignment, when it succeeds, leaves every variable initWorkData
      built done; and when no slot asks for a cross-group move, every argument
      with a register target ends in that register. */
  lemma ArgsAssigned(s: Snap, arch: Arch, fv: FrameView, srcs: seq<FuncValue>, a: ArgsAssignment,
                     info: FrameInfo, passes: nat, code: seq<Inst>)
    requires s.Shaped() && fv.WellFormed() && a.WellFormed() && SourcesWellFormed(srcs)
    requires InitOutcome(arch, fv, srcs, a).Ok? && Built(s, arch, fv, srcs, a)
    requires s.varCount <= VarCapacity
    requires AssignArgs(StageOf(s, code), s.varCount, s.saVarId, s.stackDstMask != {}, s.hasStackSrc, arch, info, passes).Settled?
    ensures var u := AssignArgs(StageOf(s, code), s.varCount, s.saVarId, s.stackDstMask != {}, s.hasStackSrc, arch, info, passes).stage;
            && (forall w :: 0 <= w < s.varCount ==> u.vars[w].IsDone())
            && (NoCrossGroup(srcs, a) ==> forall w :: 0 <= w < s.varCount ==> AtTarget(u.vars[w]))
  {
    BuiltStarts(s, arch, fv, srcs, a, code);
    AssignArgsDone(StageOf(s, code), s.varCount, s.saVarId, s.stackDstMask != {}, s.hasStackSrc, arch, info, passes);
  }
}
