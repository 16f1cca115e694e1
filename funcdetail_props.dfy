/** Properties of signature lowering: which passed-order entry an argument
    receives, how the stack cursor advances, which registers are used, and the
    placement of return values. */
module FuncDetailProps {
  import opened Defs
  import opened CallConvs
  import opened FuncDetails

  /** The arguments before lowering carry only their type id. */
  predicate AllUnassigned(args: seq<FuncValue>) {
    forall i :: 0 <= i < |args| ==> args[i].loc == Unassigned
  }

  /** How many of `vals` sit in a register of group `g`. */
  function CountInGroup(vals: seq<FuncValue>, g: Group): nat {
    if vals == [] then 0
    else CountInGroup(vals[..|vals| - 1], g)
         + (if vals[|vals| - 1].IsReg() && GroupOf(vals[|vals| - 1].loc.regType) == g then 1 else 0)
  }

  /** The ids of the registers of group `g` that `vals` occupy. */
  function RegsInGroup(vals: seq<FuncValue>, g: Group): set<nat> {
    set i | 0 <= i < |vals| && vals[i].IsReg() && GroupOf(vals[i].loc.regType) == g :: vals[i].loc.regId
  }

  /** Stack bytes the default strategy reserves for the stack-placed values among `vals`. */
  function DefaultStackBytes(vals: seq<FuncValue>, gpSize: nat): nat {
    if vals == [] then 0
    else DefaultStackBytes(vals[..|vals| - 1], gpSize)
         + (if vals[|vals| - 1].IsStack() then DefaultStackSize(vals[|vals| - 1].typeId, gpSize) else 0)
  }

  /** Stack bytes the Win64 strategy reserves: a GP slot for an integer or MMX
      value, always 8 bytes for a float or vector value. */
  function Win64StackBytes(vals: seq<FuncValue>, gpSize: nat): nat {
    if vals == [] then 0
    else Win64StackBytes(vals[..|vals| - 1], gpSize)
         + (if vals[|vals| - 1].IsStack() then
              (if IsInt(vals[|vals| - 1].typeId) || IsMmx(vals[|vals| - 1].typeId) then gpSize else 8)
            else 0)
  }

  // ---------------------------------------------------------------------------
  // Prefix stability: the placement of argument k depends only on args[..k+1]
  // ---------------------------------------------------------------------------

  lemma {:induction false} DefaultPrefix(cc: CallConv, gpSize: nat, args: seq<FuncValue>, k: nat)
    requires cc.WellFormed() && k <= |args|
    ensures LowerDefault(cc, gpSize, args[..k]).0 == LowerDefault(cc, gpSize, args).0[..k]
    decreases |args|
  {
    if k < |args| {
      var front := args[..|args| - 1];
      assert front[..k] == args[..k];
      DefaultPrefix(cc, gpSize, front, k);
    } else {
      assert args[..k] == args;
    }
  }

  lemma {:induction false} Win64Prefix(cc: CallConv, gpSize: nat, args: seq<FuncValue>, k: nat)
    requires cc.WellFormed() && k <= |args|
    ensures LowerWin64(cc, gpSize, args[..k]).0 == LowerWin64(cc, gpSize, args).0[..k]
    decreases |args|
  {
    if k < |args| {
      var front := args[..|args| - 1];
      assert front[..k] == args[..k];
      Win64Prefix(cc, gpSize, front, k);
    } else {
      assert args[..k] == args;
    }
  }

  // ---------------------------------------------------------------------------
  // The default strategy
  // ---------------------------------------------------------------------------

  /** The group cursors of the default strategy count the register-placed values
      of their group; the stack cursor is the spill-zone size plus the bytes of
      the stack-placed values; the used masks are the registers taken. */
  lemma {:induction false} DefaultCursor(cc: CallConv, gpSize: nat, args: seq<FuncValue>)
    requires cc.WellFormed() && AllUnassigned(args)
    ensures var r := LowerDefault(cc, gpSize, args);
      && r.1.gpzPos == CountInGroup(r.0, GroupGp)
      && r.1.vecPos == CountInGroup(r.0, GroupVec)
      && r.1.stackOffset == cc.spillZoneSize + DefaultStackBytes(r.0, gpSize)
      && r.1.usedGp == RegsInGroup(r.0, GroupGp)
      && r.1.usedVec == RegsInGroup(r.0, GroupVec)
    decreases |args|
  {
    if args != [] {
      var front := args[..|args| - 1];
      DefaultCursor(cc, gpSize, front);
      var r := LowerDefault(cc, gpSize, args);
      var p := LowerDefault(cc, gpSize, front);
      assert r.0[..|r.0| - 1] == p.0;
      var v := r.0[|r.0| - 1];
      assert RegsInGroup(r.0, GroupGp) ==
        RegsInGroup(p.0, GroupGp) + (if v.IsReg() && GroupOf(v.loc.regType) == GroupGp then {v.loc.regId} else {});
      assert RegsInGroup(r.0, GroupVec) ==
        RegsInGroup(p.0, GroupVec) + (if v.IsReg() && GroupOf(v.loc.regType) == GroupVec then {v.loc.regId} else {});
    }
  }

  /** Default strategy, integer argument k: it takes a register exactly when fewer
      GP registers than the passed order holds went to earlier arguments, and then
      it takes the passed-order entry at that count (not at its own position);
      otherwise it is placed at the current stack cursor. */
  lemma DefaultIntArg(cc: CallConv, gpSize: nat, args: seq<FuncValue>, k: nat)
    requires cc.WellFormed() && AllUnassigned(args) && k < |args|
    requires IsInt(args[k].typeId)
    ensures var r := LowerDefault(cc, gpSize, args).0;
      var pos := CountInGroup(r[..k], GroupGp);
      && (r[k].IsReg() <==> pos < |cc.passedOrder[GroupGp]|)
      && (r[k].IsReg() ==> r[k].loc == InReg(if IsIntUpTo32(args[k].typeId) then Gpd else Gpq,
                                                cc.passedOrder[GroupGp][pos]))
      && (r[k].IsStack() ==> r[k].loc.offset == cc.spillZoneSize + DefaultStackBytes(r[..k], gpSize))
      && r[k].typeId == args[k].typeId
  {
    var pre := args[..k + 1];
    DefaultPrefix(cc, gpSize, args, k + 1);
    assert pre[..k] == args[..k];
    DefaultPrefix(cc, gpSize, args, k);
    DefaultCursor(cc, gpSize, args[..k]);
  }

  /** Default strategy, float or vector argument k: a float goes to the stack
      whenever the convention lacks PassFloatsByVec; otherwise the value takes the
      vector passed-order entry at the count of earlier vector-register values. */
  lemma DefaultVecArg(cc: CallConv, gpSize: nat, args: seq<FuncValue>, k: nat)
    requires cc.WellFormed() && AllUnassigned(args) && k < |args|
    requires IsFloat(args[k].typeId) || IsVec(args[k].typeId)
    ensures var r := LowerDefault(cc, gpSize, args).0;
      var pos := CountInGroup(r[..k], GroupVec);
      && (IsFloat(args[k].typeId) && !cc.HasFlag(PassFloatsByVec) ==> r[k].IsStack())
      && (r[k].IsReg() <==>
            (pos < |cc.passedOrder[GroupVec]| && (IsVec(args[k].typeId) || cc.HasFlag(PassFloatsByVec))))
      && (r[k].IsReg() ==> r[k].loc == InReg(VecRegTypeOf(args[k].typeId), cc.passedOrder[GroupVec][pos]))
      && (r[k].IsStack() ==> r[k].loc.offset == cc.spillZoneSize + DefaultStackBytes(r[..k], gpSize))
  {
    var pre := args[..k + 1];
    DefaultPrefix(cc, gpSize, args, k + 1);
    assert pre[..k] == args[..k];
    DefaultPrefix(cc, gpSize, args, k);
    DefaultCursor(cc, gpSize, args[..k]);
  }

  // ---------------------------------------------------------------------------
  // The Win64 strategy
  // ---------------------------------------------------------------------------

  lemma {:induction false} Win64Cursor(cc: CallConv, gpSize: nat, args: seq<FuncValue>)
    requires cc.WellFormed() && AllUnassigned(args)
    ensures var r := LowerWin64(cc, gpSize, args);
      && r.1.stackOffset == cc.spillZoneSize + Win64StackBytes(r.0, gpSize)
      && r.1.usedGp == RegsInGroup(r.0, GroupGp)
      && r.1.usedVec == RegsInGroup(r.0, GroupVec)
    decreases |args|
  {
    if args != [] {
      var front := args[..|args| - 1];
      Win64Cursor(cc, gpSize, front);
      var r := LowerWin64(cc, gpSize, args);
      var p := LowerWin64(cc, gpSize, front);
      assert r.0[..|r.0| - 1] == p.0;
      var v := r.0[|r.0| - 1];
      assert RegsInGroup(r.0, GroupGp) ==
        RegsInGroup(p.0, GroupGp) + (if v.IsReg() && GroupOf(v.loc.regType) == GroupGp then {v.loc.regId} else {});
      assert RegsInGroup(r.0, GroupVec) ==
        RegsInGroup(p.0, GroupVec) + (if v.IsReg() && GroupOf(v.loc.regType) == GroupVec then {v.loc.regId} else {});
    }
  }

  /** Win64 strategy, argument k: the register, if any, is entry k of its group's
      passed order, whatever the earlier arguments took; a vector (non-float)
      value needs the VectorCall flag for a register; every stack-placed value
      sits at the spill-zone size plus the slots of the earlier stack values. */
  lemma Win64Arg(cc: CallConv, gpSize: nat, args: seq<FuncValue>, k: nat)
    requires cc.WellFormed() && AllUnassigned(args) && k < |args|
    ensures var r := LowerWin64(cc, gpSize, args).0; var t := args[k].typeId;
      && (IsInt(t) || IsMmx(t) ==>
            (r[k].IsReg() <==> k < |cc.passedOrder[GroupGp]|)
            && (r[k].IsReg() ==> r[k].loc.regId == cc.passedOrder[GroupGp][k]
                                 && r[k].loc.regType == (if SizeOf(t) <= 4 && !IsMmx(t) then Gpd else Gpq)))
      && (IsFloat(t) || IsVec(t) ==>
            (r[k].IsReg() <==> k < |cc.passedOrder[GroupVec]| && (IsFloat(t) || cc.HasFlag(VectorCall)))
            && (r[k].IsReg() ==> r[k].loc == InReg(VecRegTypeOf(t), cc.passedOrder[GroupVec][k])))
      && (r[k].IsStack() ==> r[k].loc.offset == cc.spillZoneSize + Win64StackBytes(r[..k], gpSize))
  {
    var pre := args[..k + 1];
    Win64Prefix(cc, gpSize, args, k + 1);
    assert pre[..k] == args[..k];
    Win64Prefix(cc, gpSize, args, k);
    Win64Cursor(cc, gpSize, args[..k]);
  }

  // ---------------------------------------------------------------------------
  // Used registers
  // ---------------------------------------------------------------------------

  /** Every register the lowering marks used comes from the convention's passed
      order of its group. */
  lemma {:induction false} UsedRegsFromPassedOrder(cc: CallConv, gpSize: nat, args: seq<FuncValue>)
    requires cc.WellFormed()
    ensures var c := LowerArgs(cc, gpSize, args).1;
      && (forall id :: id in c.usedGp ==> id in cc.passedOrder[GroupGp])
      && (forall id :: id in c.usedVec ==> id in cc.passedOrder[GroupVec])
    decreases |args|
  {
    if args != [] {
      UsedRegsFromPassedOrder(cc, gpSize, args[..|args| - 1]);
    }
  }

  /** For every convention the resolver produces, the lowered arguments use only
      registers of the architecture's file and never the stack pointer. */
  lemma UsedRegsWithinArch(ccId: CallConvId, gpSize: nat, args: seq<FuncValue>)
    requires InitCallConv(ccId).Ok?
    ensures var cc := InitCallConv(ccId).value; var c := LowerArgs(cc, gpSize, args).1;
      && IdSp !in c.usedGp
      && (forall id :: id in c.usedGp ==> id < ArchRegCount(cc.arch))
      && (forall id :: id in c.usedVec ==> id < ArchRegCount(cc.arch))
  {
    var cc := InitCallConv(ccId).value;
    UsedRegsFromPassedOrder(cc, gpSize, args);
    PassedOrderWellFormed(ccId, GroupGp);
    PassedOrderWellFormed(ccId, GroupVec);
  }

  // ---------------------------------------------------------------------------
  // Return values
  // ---------------------------------------------------------------------------

  /** A 64-bit integer return on 32-bit x86 becomes two 32-bit halves in EAX and
      EDX; on x86-64 it stays one GPQ value in RAX. An 80-bit float always returns
      in FP0. */
  lemma RetPlacement(cc: CallConv, t: TypeId)
    ensures (t == I64 || t == U64) && cc.arch == X86 ==>
      var h := if t == I64 then I32 else U32;
      LowerRet(cc, t) == [RegValue(Gpd, IdAx, h), RegValue(Gpd, IdDx, h)]
    ensures (t == I64 || t == U64) && cc.arch != X86 ==> LowerRet(cc, t) == [RegValue(Gpq, IdAx, t)]
    ensures t == F80 ==> LowerRet(cc, t) == [RegValue(Fp, 0, F80)]
    ensures |LowerRet(cc, t)| == 2 <==> (t == I64 || t == U64) && cc.arch == X86
  {
  }

  // ---------------------------------------------------------------------------
  // Two concrete signatures
  // ---------------------------------------------------------------------------

  function IntArgs(n: nat): (s: seq<FuncValue>)
    ensures |s| == n && AllUnassigned(s)
    ensures forall i :: 0 <= i < n ==> s[i].typeId == I64
  {
    seq(n, i => FuncValue(Unassigned, I64, false))
  }

  /** SysV64 with three 64-bit integer arguments: rdi, rsi, rdx, and no stack bytes. */
  lemma SysV64ThreeInts()
    ensures InitCallConv(X86SysV64).Ok?
    ensures var r := LowerArgs(InitCallConv(X86SysV64).value, 8, IntArgs(3));
      && r.0[0].loc == InReg(Gpq, IdDi) && r.0[1].loc == InReg(Gpq, IdSi) && r.0[2].loc == InReg(Gpq, IdDx)
      && r.1.stackOffset == 0
  {
    SysV64Convention();
    var cc := InitCallConv(X86SysV64).value;
    var a := IntArgs(3);
    var v := FuncValue(Unassigned, I64, false);
    assert a[..1] == [v] && a[..2] == [v, v] && a == [v, v, v];
    assert [v][..0] == [] && [v, v][..1] == [v] && [v, v, v][..2] == [v, v];
    var c0 := StartCursor(cc);
    assert LowerDefault(cc, 8, []) == ([], c0);
    var s1 := LowerDefault(cc, 8, [v]);
    assert s1.0 == [v.(loc := InReg(Gpq, IdDi))] && s1.1.gpzPos == 1 && s1.1.stackOffset == 0;
    var s2 := LowerDefault(cc, 8, [v, v]);
    assert s2.0 == s1.0 + [v.(loc := InReg(Gpq, IdSi))] && s2.1.gpzPos == 2 && s2.1.stackOffset == 0;
    var s3 := LowerDefault(cc, 8, [v, v, v]);
    assert s3.0 == s2.0 + [v.(loc := InReg(Gpq, IdDx))] && s3.1.stackOffset == 0;
  }

  /** Win64 with five 64-bit integer arguments: the first four in rcx, rdx, r8, r9;
      the fifth at offset 32, the end of the spill zone; 40 bytes in all. */
  lemma Win64FiveInts()
    ensures InitCallConv(X86Win64).Ok?
    ensures var r := LowerArgs(InitCallConv(X86Win64).value, 8, IntArgs(5));
      && r.0[0].loc == InReg(Gpq, IdCx) && r.0[1].loc == InReg(Gpq, IdDx)
      && r.0[2].loc == InReg(Gpq, 8) && r.0[3].loc == InReg(Gpq, 9)
      && r.0[4].loc == OnStack(32)
      && r.1.stackOffset == 40
  {
    Win64Convention();
    var cc := InitCallConv(X86Win64).value;
    var a := IntArgs(5);
    var v := FuncValue(Unassigned, I64, false);
    assert a == [v, v, v, v, v];
    assert [v, v, v, v, v][..4] == [v, v, v, v] && [v, v, v, v][..3] == [v, v, v]
        && [v, v, v][..2] == [v, v] && [v, v][..1] == [v] && [v][..0] == [];
    var c0 := StartCursor(cc);
    assert LowerWin64(cc, 8, []) == ([], c0);
    var s1 := LowerWin64(cc, 8, [v]);
    assert s1.0 == [v.(loc := InReg(Gpq, IdCx))] && s1.1.stackOffset == 32;
    var s2 := LowerWin64(cc, 8, [v, v]);
    assert s2.0 == s1.0 + [v.(loc := InReg(Gpq, IdDx))] && s2.1.stackOffset == 32;
    var s3 := LowerWin64(cc, 8, [v, v, v]);
    assert s3.0 == s2.0 + [v.(loc := InReg(Gpq, 8))] && s3.1.stackOffset == 32;
    var s4 := LowerWin64(cc, 8, [v, v, v, v]);
    assert s4.0 == s3.0 + [v.(loc := InReg(Gpq, 9))] && s4.1.stackOffset == 32;
    var s5 := LowerWin64(cc, 8, [v, v, v, v, v]);
    assert s5.0 == s4.0 + [v.(loc := OnStack(32))] && s5.1.stackOffset == 40;
  }
}
