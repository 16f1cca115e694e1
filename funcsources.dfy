/** The arguments initFuncDetail places, seen as the sources of the argument
    assignment (X86FuncArgsContext::initWorkData): every register one of them
    takes comes from its group's passed order, and no register is taken twice. */
module FuncDetailSources {
  import opened Defs
  import opened CallConvs
  import opened FuncDetails
  import opened FuncDetailProps
  import opened ArgVars

  /** No passed order lists a register twice. */
  predicate OrdersDistinct(cc: CallConv)
    requires cc.WellFormed()
  {
    forall g: Group, j, k :: 0 <= j < k < |cc.passedOrder[g]| ==> cc.passedOrder[g][j] != cc.passedOrder[g][k]
  }

  predicate NoneDone(vals: seq<FuncValue>) {
    forall i :: 0 <= i < |vals| ==> !vals[i].done
  }

  /** In a list without repeats, an entry is not among the ones before it. */
  lemma NotBefore(s: seq<RegId>, k: nat)
    requires k < |s| && forall i, j :: 0 <= i < j < |s| ==> s[i] != s[j]
    ensures s[k] !in s[..k]
  {
  }

  /** Default strategy: every register value of group GP or vector holds one of
      the passed-order entries its group's cursor has gone past, and no register
      is taken twice. */
  lemma {:induction false} DefaultSources(cc: CallConv, gpSize: nat, args: seq<FuncValue>)
    requires cc.WellFormed() && OrdersDistinct(cc) && AllUnassigned(args) && NoneDone(args)
    ensures var r := LowerDefault(cc, gpSize, args);
      && r.1.gpzPos <= |cc.passedOrder[GroupGp]| && r.1.vecPos <= |cc.passedOrder[GroupVec]|
      && (forall i :: 0 <= i < |r.0| && r.0[i].IsReg() ==>
            || (GroupOf(r.0[i].loc.regType) == GroupGp && r.0[i].loc.regId in cc.passedOrder[GroupGp][..r.1.gpzPos])
            || (GroupOf(r.0[i].loc.regType) == GroupVec && r.0[i].loc.regId in cc.passedOrder[GroupVec][..r.1.vecPos]))
      && SourcesWellFormed(r.0)
    decreases |args|
  {
    if args != [] {
      var front := args[..|args| - 1];
      DefaultSources(cc, gpSize, front);
      var p := LowerDefault(cc, gpSize, front);
      var step := DefaultStep(cc, gpSize, p.1, args[|args| - 1]);
      var r := LowerDefault(cc, gpSize, args);
      assert r.0 == p.0 + [step.0] && r.1 == step.1;
      var gp := cc.passedOrder[GroupGp];
      var vec := cc.passedOrder[GroupVec];
      if p.1.gpzPos < |gp| {
        NotBefore(gp, p.1.gpzPos);
        assert gp[..p.1.gpzPos + 1] == gp[..p.1.gpzPos] + [gp[p.1.gpzPos]];
      }
      if p.1.vecPos < |vec| {
        NotBefore(vec, p.1.vecPos);
        assert vec[..p.1.vecPos + 1] == vec[..p.1.vecPos] + [vec[p.1.vecPos]];
      }
      forall i | 0 <= i < |p.0| && p.0[i].IsReg()
        ensures !SameReg(p.0[i], step.0)
      {
      }
    }
  }

  /** Win64 strategy: argument i, when in a register, holds entry i of its
      group's passed order (GP or vector), and stays not done. */
  lemma {:induction false} Win64Sources(cc: CallConv, gpSize: nat, args: seq<FuncValue>)
    requires cc.WellFormed() && AllUnassigned(args) && NoneDone(args)
    ensures var r := LowerWin64(cc, gpSize, args).0;
      && NoneDone(r)
      && (forall i :: 0 <= i < |r| && r[i].IsReg() ==>
            || (GroupOf(r[i].loc.regType) == GroupGp && i < |cc.passedOrder[GroupGp]|
                && r[i].loc.regId == cc.passedOrder[GroupGp][i])
            || (GroupOf(r[i].loc.regType) == GroupVec && i < |cc.passedOrder[GroupVec]|
                && r[i].loc.regId == cc.passedOrder[GroupVec][i]))
    decreases |args|
  {
    if args != [] {
      var front := args[..|args| - 1];
      Win64Sources(cc, gpSize, front);
      var p := LowerWin64(cc, gpSize, front);
      var step := Win64Step(cc, gpSize, |args| - 1, p.1, args[|args| - 1]);
      assert LowerWin64(cc, gpSize, args).0 == p.0 + [step.0];
    }
  }

  /** The arguments initFuncDetail places under any convention the resolver
      produces meet what initWorkData expects of its sources: ids a 32-bit mask
      holds, no register shared by two arguments, none done. */
  lemma LoweredSourcesWellFormed(ccId: CallConvId, gpSize: nat, args: seq<FuncValue>)
    requires InitCallConv(ccId).Ok? && AllUnassigned(args) && NoneDone(args)
    ensures SourcesWellFormed(LowerArgs(InitCallConv(ccId).value, gpSize, args).0)
  {
    var cc := InitCallConv(ccId).value;
    PassedOrderWellFormed(ccId, 0);
    PassedOrderWellFormed(ccId, 1);
    PassedOrderWellFormed(ccId, 2);
    PassedOrderWellFormed(ccId, 3);
    assert OrdersDistinct(cc);
    if cc.strategy == StrategyDefault {
      DefaultSources(cc, gpSize, args);
    } else {
      Win64Sources(cc, gpSize, args);
      var r := LowerWin64(cc, gpSize, args).0;
      forall i, j | 0 <= i < j < |r|
        ensures !SameReg(r[i], r[j])
      {
      }
    }
  }
}
