/** Lowering of a function signature under a calling convention
    (X86Internal::initFuncDetail): every argument and the return value get a
    register or a stack offset. Two placement strategies exist: the default one
    with one running cursor per register group, and the Win64 one where argument
    i may only use entry i of its group's passed order. */
module FuncDetails {
  import opened Defs
  import opened CallConvs

  // ---------------------------------------------------------------------------
  // Specification
  // ---------------------------------------------------------------------------

  /** Placement state threaded through the argument list. */
  datatype Cursor = Cursor(gpzPos: nat, vecPos: nat, stackOffset: nat, usedGp: RegMask, usedVec: RegMask)

  function StartCursor(cc: CallConv): Cursor {
    Cursor(0, 0, cc.spillZoneSize, {}, {})
  }

  /** Placement of the return value(s) of type `t`. */
  function LowerRet(cc: CallConv, t: TypeId): (rets: seq<FuncValue>)
    ensures 1 <= |rets| <= 2
  {
    match t
    case I64 =>
      if cc.arch == X86 then [RegValue(Gpd, IdAx, I32), RegValue(Gpd, IdDx, I32)]
      else [RegValue(Gpq, IdAx, I64)]
    case U64 =>
      if cc.arch == X86 then [RegValue(Gpd, IdAx, U32), RegValue(Gpd, IdDx, U32)]
      else [RegValue(Gpq, IdAx, U64)]
    case I8 => [RegValue(Gpd, IdAx, I32)]
    case I16 => [RegValue(Gpd, IdAx, I32)]
    case I32 => [RegValue(Gpd, IdAx, I32)]
    case U8 => [RegValue(Gpd, IdAx, U32)]
    case U16 => [RegValue(Gpd, IdAx, U32)]
    case U32 => [RegValue(Gpd, IdAx, U32)]
    case F32 => [RegValue(if cc.arch == X86 then Fp else Xmm, 0, t)]
    case F64 => [RegValue(if cc.arch == X86 then Fp else Xmm, 0, t)]
    case F80 => [RegValue(Fp, 0, t)]
    case Mmx32 => [RegValue(MmxRetType(cc), 0, t)]
    case Mmx64 => [RegValue(MmxRetType(cc), 0, t)]
    case _ => [RegValue(VecRegTypeOf(t), 0, t)]
  }

  /** MMX values return in MM0 on x86, in XMM0 (default strategy) or RAX (Win64) on x86-64. */
  function MmxRetType(cc: CallConv): RegType {
    if cc.arch == X86 then Mm
    else if cc.strategy == StrategyDefault then Xmm else Gpq
  }

  /** Bytes the default strategy reserves for one stack-passed argument. */
  function DefaultStackSize(t: TypeId, gpSize: nat): nat {
    if IsInt(t) then Max(SizeOf(t), gpSize) else SizeOf(t)
  }

  /** One step of the default strategy. */
  function DefaultStep(cc: CallConv, gpSize: nat, c: Cursor, arg: FuncValue): (FuncValue, Cursor)
    requires cc.WellFormed()
  {
    var t := arg.typeId;
    if IsInt(t) then
      match cc.PassedId(GroupGp, c.gpzPos)
      case Some(id) =>
        (arg.(loc := InReg(if IsIntUpTo32(t) then Gpd else Gpq, id)),
         c.(gpzPos := c.gpzPos + 1, usedGp := c.usedGp + {id}))
      case None =>
        (arg.(loc := OnStack(c.stackOffset)),
         c.(stackOffset := c.stackOffset + Max(SizeOf(t), gpSize)))
    else if IsFloat(t) || IsVec(t) then
      var reg := if IsFloat(t) && !cc.HasFlag(PassFloatsByVec) then None
                 else cc.PassedId(GroupVec, c.vecPos);
      match reg
      case Some(id) =>
        (arg.(loc := InReg(VecRegTypeOf(t), id)),
         c.(vecPos := c.vecPos + 1, usedVec := c.usedVec + {id}))
      case None =>
        (arg.(loc := OnStack(c.stackOffset)),
         c.(stackOffset := c.stackOffset + SizeOf(t)))
    else
      (arg, c)
  }

  /** The default strategy over a whole argument list. */
  function LowerDefault(cc: CallConv, gpSize: nat, args: seq<FuncValue>): (r: (seq<FuncValue>, Cursor))
    requires cc.WellFormed()
    ensures |r.0| == |args|
  {
    if args == [] then ([], StartCursor(cc))
    else
      var prev := LowerDefault(cc, gpSize, args[..|args| - 1]);
      var step := DefaultStep(cc, gpSize, prev.1, args[|args| - 1]);
      (prev.0 + [step.0], step.1)
  }

  /** One step of the Win64 strategy for the argument at position `i`. */
  function Win64Step(cc: CallConv, gpSize: nat, i: nat, c: Cursor, arg: FuncValue): (FuncValue, Cursor)
    requires cc.WellFormed()
  {
    var t := arg.typeId;
    if IsInt(t) || IsMmx(t) then
      match cc.PassedId(GroupGp, i)
      case Some(id) =>
        (arg.(loc := InReg(if SizeOf(t) <= 4 && !IsMmx(t) then Gpd else Gpq, id)),
         c.(usedGp := c.usedGp + {id}))
      case None =>
        (arg.(loc := OnStack(c.stackOffset)), c.(stackOffset := c.stackOffset + gpSize))
    else if IsFloat(t) || IsVec(t) then
      match cc.PassedId(GroupVec, i)
      case Some(id) =>
        if IsFloat(t) || cc.HasFlag(VectorCall) then
          (arg.(loc := InReg(VecRegTypeOf(t), id)), c.(usedVec := c.usedVec + {id}))
        else
          (arg.(loc := OnStack(c.stackOffset)), c.(stackOffset := c.stackOffset + 8))
      case None =>
        (arg.(loc := OnStack(c.stackOffset)), c.(stackOffset := c.stackOffset + 8))
    else
      (arg, c)
  }

  /** The Win64 strategy over a whole argument list. */
  function LowerWin64(cc: CallConv, gpSize: nat, args: seq<FuncValue>): (r: (seq<FuncValue>, Cursor))
    requires cc.WellFormed()
    ensures |r.0| == |args|
  {
    if args == [] then ([], StartCursor(cc))
    else
      var prev := LowerWin64(cc, gpSize, args[..|args| - 1]);
      var step := Win64Step(cc, gpSize, |args| - 1, prev.1, args[|args| - 1]);
      (prev.0 + [step.0], step.1)
  }

  function LowerArgs(cc: CallConv, gpSize: nat, args: seq<FuncValue>): (r: (seq<FuncValue>, Cursor))
    requires cc.WellFormed()
    ensures |r.0| == |args|
  {
    if cc.strategy == StrategyDefault then LowerDefault(cc, gpSize, args)
    else LowerWin64(cc, gpSize, args)
  }

  // ---------------------------------------------------------------------------
  // The lowering itself
  // ---------------------------------------------------------------------------

  /** FuncDetail: the convention, the arguments and return values (each placed by
      the lowering), the registers the arguments use, and the bytes of stack they take. */
  class FuncDetail {
    var callConv: CallConv
    var args: seq<FuncValue>
    var rets: seq<FuncValue>
    var usedRegs: seq<RegMask>
    var argStackSize: nat

    ghost predicate Valid()
      reads this
    {
      callConv.WellFormed() && |usedRegs| == 4 && |rets| <= 2
    }

    constructor (cc: CallConv, argTypes: seq<TypeId>, retType: TypeId)
      requires cc.WellFormed()
      ensures Valid()
      ensures callConv == cc && argStackSize == 0 && usedRegs == [{}, {}, {}, {}]
      ensures |args| == |argTypes| && forall i :: 0 <= i < |args| ==> args[i] == FuncValue(Unassigned, argTypes[i], false)
      ensures rets == if retType == Void then [] else [FuncValue(Unassigned, retType, false)]
    {
      callConv := cc;
      args := seq(|argTypes|, i requires 0 <= i < |argTypes| => FuncValue(Unassigned, argTypes[i], false));
      rets := if retType == Void then [] else [FuncValue(Unassigned, retType, false)];
      usedRegs := [{}, {}, {}, {}];
      argStackSize := 0;
    }
  }

  /** X86Internal::initFuncDetail: places the return value and every argument in
      place; the registers the arguments take are added to `usedRegs`. */
  method InitFuncDetail(func: FuncDetail, gpSize: nat)
    requires func.Valid() && |func.rets| <= 1
    modifies func
    ensures func.Valid() && func.callConv == old(func.callConv)
    ensures func.rets == if old(func.rets) == [] then [] else LowerRet(func.callConv, old(func.rets)[0].typeId)
    ensures var r := LowerArgs(func.callConv, gpSize, old(func.args));
      && func.args == r.0
      && func.argStackSize == r.1.stackOffset
      && func.usedRegs == old(func.usedRegs)[GroupGp := old(func.usedRegs)[GroupGp] + r.1.usedGp]
                                            [GroupVec := old(func.usedRegs)[GroupVec] + r.1.usedVec]
  {
    var cc := func.callConv;
    if |func.rets| != 0 {
      func.rets := LowerRet(cc, func.rets[0].typeId);
    }
    var c: Cursor;
    if cc.strategy == StrategyDefault {
      c := PlaceArgsDefault(func, gpSize);
    } else {
      c := PlaceArgsWin64(func, gpSize);
    }
    func.usedRegs := func.usedRegs[GroupGp := func.usedRegs[GroupGp] + c.usedGp]
                                  [GroupVec := func.usedRegs[GroupVec] + c.usedVec];
    func.argStackSize := c.stackOffset;
  }

  /** The default-strategy loop of initFuncDetail over `func.args`. */
  method PlaceArgsDefault(func: FuncDetail, gpSize: nat) returns (c: Cursor)
    requires func.callConv.WellFormed()
    modifies func`args
    ensures (func.args, c) == LowerDefault(func.callConv, gpSize, old(func.args))
  {
    var cc := func.callConv;
    ghost var args0 := func.args;
    c := StartCursor(cc);
    var i := 0;
    var n := |func.args|;
    while i < n
      invariant 0 <= i <= n == |func.args| == |args0|
      invariant func.args[i..] == args0[i..]
      invariant (func.args[..i], c) == LowerDefault(cc, gpSize, args0[..i])
    {
      assert args0[..i + 1][..i] == args0[..i];
      assert func.args[i] == args0[i] == args0[..i + 1][i];
      ghost var done := func.args[..i];
      var step := DefaultStep(cc, gpSize, c, func.args[i]);
      func.args := func.args[i := step.0];
      assert func.args[..i + 1] == done + [step.0];
      assert func.args[i + 1..] == args0[i + 1..];
      c := step.1;
      i := i + 1;
    }
    assert args0[..n] == args0;
    assert func.args[..n] == func.args;
  }

  /** The Win64-strategy loop of initFuncDetail over `func.args`. */
  method PlaceArgsWin64(func: FuncDetail, gpSize: nat) returns (c: Cursor)
    requires func.callConv.WellFormed()
    modifies func`args
    ensures (func.args, c) == LowerWin64(func.callConv, gpSize, old(func.args))
  {
    var cc := func.callConv;
    ghost var args0 := func.args;
    c := StartCursor(cc);
    var i := 0;
    var n := |func.args|;
    while i < n
      invariant 0 <= i <= n == |func.args| == |args0|
      invariant func.args[i..] == args0[i..]
      invariant (func.args[..i], c) == LowerWin64(cc, gpSize, args0[..i])
    {
      assert args0[..i + 1][..i] == args0[..i];
      assert func.args[i] == args0[i] == args0[..i + 1][i];
      ghost var done := func.args[..i];
      var step := Win64Step(cc, gpSize, i, c, func.args[i]);
      func.args := func.args[i := step.0];
      assert func.args[..i + 1] == done + [step.0];
      assert func.args[i + 1..] == args0[i + 1..];
      c := step.1;
      i := i + 1;
    }
    assert args0[..n] == args0;
    assert func.args[..n] == func.args;
  }
}
