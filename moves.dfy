/** Instruction selection for single moves: x86GetRegForMemToMemMove,
    X86Internal::emitRegMove (a move of one value between a register and a
    register or memory, same type on both sides) and X86Internal::emitArgMove
    (a move into a register that may convert between types). */
module Moves {
  import opened Defs
  import opened Emit

  // ---------------------------------------------------------------------------
  // Memory-to-memory moves
  // ---------------------------------------------------------------------------

  /** The register class a stack-to-stack move goes through; None stands for an
      invalid signature. Integer-to-integer and pointer-sized moves use a GP
      register, wider ones the narrowest vector register that holds the value. */
  function RegForMemToMemMove(arch: Arch, dstT: TypeId, srcT: TypeId): (r: Option<RegType>)
    ensures r.Some? ==> r.value in {Gpd, Gpq, Xmm, Ymm, Zmm}
  {
    var dstSize := SizeOf(dstT);
    var srcSize := SizeOf(srcT);
    var maxSize := Max(dstSize, srcSize);
    var gpSize := GpSizeOf(arch);
    if maxSize <= gpSize || (IsInt(dstT) && IsInt(srcT)) then Some(if maxSize <= 4 then Gpd else Gpq)
    else if maxSize <= 16 then Some(Xmm)
    else if maxSize <= 32 then Some(Ymm)
    else if maxSize <= 64 then Some(Zmm)
    else None
  }

  /** The move fails only for a non-integer value wider than 64 bytes; it goes
      through a GP register exactly when the value fits one or both sides are
      integers; a vector register (or a 64-bit GP one) holds the whole value, and
      the register is the narrowest of its kind that does. */
  lemma RegForMemToMemMoveProps(arch: Arch, dstT: TypeId, srcT: TypeId)
    ensures var r := RegForMemToMemMove(arch, dstT, srcT);
      var maxSize := Max(SizeOf(dstT), SizeOf(srcT));
      && (r.None? <==> maxSize > 64 && !(IsInt(dstT) && IsInt(srcT)))
      && (r.Some? ==> (GroupOf(r.value) == GroupGp <==> maxSize <= GpSizeOf(arch) || (IsInt(dstT) && IsInt(srcT))))
      && (r.Some? && (arch == X64 || GroupOf(r.value) == GroupVec) ==> RegTypeSize(r.value) >= maxSize)
      && (r.Some? && r.value in {Gpq, Ymm, Zmm} ==> maxSize > RegTypeSize(r.value) / 2)
  {
  }

  /** Every pair of valid type ids has a register for a stack-to-stack move. */
  lemma MemToMemMoveAlwaysValid(arch: Arch, dstT: TypeId, srcT: TypeId)
    requires IsValidType(dstT) && IsValidType(srcT)
    ensures RegForMemToMemMove(arch, dstT, srcT).Some?
  {
  }

  // ---------------------------------------------------------------------------
  // emitRegMove
  // ---------------------------------------------------------------------------

  function Pick(avx: bool, sse: InstId, vex: InstId): InstId {
    if avx then vex else sse
  }

  /** `X86Inst::kmovIdFromSize`. */
  function KmovBySize(size: nat): InstId {
    if size <= 1 then Kmovb else if size <= 2 then Kmovw else if size <= 4 then Kmovd else Kmovq
  }

  /** emitRegMove with the instruction of an 8- or 16-bit load from memory as a
      parameter: the source writes `movzx` there and then falls through to the
      next case, which replaces it by `mov`. */
  function RegMoveWith(narrowLoad: InstId, dst: Operand, src: Operand, t: TypeId, avx: bool): (inst: Inst)
    requires IsValidType(t)
    ensures |inst.ops| == 2
  {
    var memD := dst.Mem?;
    var memS := src.Mem?;
    // Memory operands take the size of the other operand.
    var dst1 := if memD then dst.(size := OpSize(src)) else dst;
    var src1 := if memS then src.(size := OpSize(dst1)) else src;
    if t in {I8, U8, I16, U16} then
      if memS then Inst(narrowLoad, [WithType(dst1, Gpd), src1])
      else if !memD then Inst(Mov, [WithType(dst1, Gpd), WithType(src1, Gpd)])
      else Inst(Mov, [dst1, src1])
    else if IsInt(t) then Inst(Mov, [dst1, src1])
    else if IsMmx(t) || IsMask(t) then Inst(MmxMaskMoveId(t, memD || memS), [dst1, src1])
    else Inst(VecMoveId(t, memD || memS, avx), [dst1, src1])
  }

  /** The move of an MMX or mask value. */
  function MmxMaskMoveId(t: TypeId, mem: bool): InstId
    requires IsMmx(t) || IsMask(t)
  {
    if t == Mmx32 then (if mem then Movd else Movq)
    else if t == Mmx64 then Movq
    else KmovBySize(SizeOf(t))
  }

  /** The move of a float or vector value; `mem` tells whether one side is memory. */
  function VecMoveId(t: TypeId, mem: bool, avx: bool): InstId {
    var e := ElementOf(t);
    if IsVec32(t) && mem then
      (if e == F32 then Pick(avx, Movss, Vmovss) else Pick(avx, Movd, Vmovd))
    else if IsVec64(t) && mem then
      (if e == F64 then Pick(avx, Movsd, Vmovsd) else Pick(avx, Movq, Vmovq))
    else if e == F32 then Pick(avx, Movaps, Vmovaps)
    else if e == F64 then Pick(avx, Movapd, Vmovapd)
    else if !(t.Vec? && t.bytes > 32) then Pick(avx, Movdqa, Vmovdqa)
    else if IsIntUpTo32(e) then Vmovdqa32
    else Vmovdqa64
  }

  /** emitRegMove as written: an 8- or 16-bit load from memory becomes `mov`. */
  function RegMoveAsWritten(dst: Operand, src: Operand, t: TypeId, avx: bool): Inst
    requires IsValidType(t)
  {
    RegMoveWith(Mov, dst, src, t, avx)
  }

  /** emitRegMove as intended: an 8- or 16-bit load from memory zero-extends
      with `movzx`. */
  function RegMove(dst: Operand, src: Operand, t: TypeId, avx: bool): Inst
    requires IsValidType(t)
  {
    RegMoveWith(Movzx, dst, src, t, avx)
  }

  /** Bytes an instruction transfers from or to its memory operand, by the
      instruction set: `mov` moves as many bytes as its register operand holds,
      `movzx` and `movsx` as many as the memory operand is declared with, the
      scalar moves 4 or 8, the packed moves a whole vector register. */
  function MemAccessBytes(inst: Inst): nat
    requires |inst.ops| == 2
  {
    var reg := if inst.ops[0].Reg? then inst.ops[0] else inst.ops[1];
    var mem := if inst.ops[0].Mem? then inst.ops[0] else inst.ops[1];
    var id := inst.id;
    if id in {Movzx, Movsx} then OpSize(mem)
    else if id in {Movsxd, Movd, Vmovd, Movss, Vmovss, Kmovd} then 4
    else if id in {Movq, Vmovq, Movsd, Vmovsd, Kmovq} then 8
    else if id == Kmovb then 1
    else if id == Kmovw then 2
    else OpSize(reg)
  }

  /** The register type a value of type `t` lives in. */
  predicate RegFits(rt: RegType, t: TypeId) {
    if IsInt(t) then GroupOf(rt) == GroupGp && RegTypeSize(rt) == SizeOf(t)
    else if IsMmx(t) then rt == Mm
    else if IsMask(t) then rt == K
    else if IsVec(t) then rt == VecRegTypeOf(t)
    else false
  }

  /** A load into a register that fits the type transfers exactly the value's
      bytes, for integer, mask, MMX and vector types. */
  lemma RegMoveLoadWidth(dst: Operand, src: Operand, t: TypeId, avx: bool)
    requires IsValidType(t) && dst.Reg? && src.Mem? && RegFits(dst.rt, t)
    ensures MemAccessBytes(RegMove(dst, src, t, avx)) == SizeOf(t)
  {
    if IsInt(t) {
      IntLoadWidth(dst, src, t, avx);
    } else if IsMmx(t) || IsMask(t) {
      MmxMaskLoadWidth(dst, src, t, avx);
    } else {
      VecLoadWidth(dst, src, t, avx);
    }
  }

  lemma IntLoadWidth(dst: Operand, src: Operand, t: TypeId, avx: bool)
    requires IsValidType(t) && dst.Reg? && src.Mem? && RegFits(dst.rt, t) && IsInt(t)
    ensures MemAccessBytes(RegMove(dst, src, t, avx)) == SizeOf(t)
  {
  }

  lemma MmxMaskLoadWidth(dst: Operand, src: Operand, t: TypeId, avx: bool)
    requires IsValidType(t) && dst.Reg? && src.Mem? && RegFits(dst.rt, t) && (IsMmx(t) || IsMask(t))
    ensures MemAccessBytes(RegMove(dst, src, t, avx)) == SizeOf(t)
  {
  }

  lemma VecLoadWidth(dst: Operand, src: Operand, t: TypeId, avx: bool)
    requires IsValidType(t) && dst.Reg? && src.Mem? && RegFits(dst.rt, t) && !IsInt(t) && !IsMmx(t) && !IsMask(t)
    ensures MemAccessBytes(RegMove(dst, src, t, avx)) == SizeOf(t)
  {
    if IsVec32(t) {
    } else if IsVec64(t) {
    }
  }

  /** A store from a register that fits the type transfers exactly the value's bytes. */
  lemma RegMoveStoreWidth(dst: Operand, src: Operand, t: TypeId, avx: bool)
    requires IsValidType(t) && dst.Mem? && src.Reg? && RegFits(src.rt, t)
    ensures MemAccessBytes(RegMove(dst, src, t, avx)) == SizeOf(t)
  {
    if IsInt(t) {
      IntStoreWidth(dst, src, t, avx);
    } else if IsMmx(t) || IsMask(t) {
      MmxMaskStoreWidth(dst, src, t, avx);
    } else {
      VecStoreWidth(dst, src, t, avx);
    }
  }

  lemma IntStoreWidth(dst: Operand, src: Operand, t: TypeId, avx: bool)
    requires IsValidType(t) && dst.Mem? && src.Reg? && RegFits(src.rt, t) && IsInt(t)
    ensures MemAccessBytes(RegMove(dst, src, t, avx)) == SizeOf(t)
  {
  }

  lemma MmxMaskStoreWidth(dst: Operand, src: Operand, t: TypeId, avx: bool)
    requires IsValidType(t) && dst.Mem? && src.Reg? && RegFits(src.rt, t) && (IsMmx(t) || IsMask(t))
    ensures MemAccessBytes(RegMove(dst, src, t, avx)) == SizeOf(t)
  {
  }

  lemma VecStoreWidth(dst: Operand, src: Operand, t: TypeId, avx: bool)
    requires IsValidType(t) && dst.Mem? && src.Reg? && RegFits(src.rt, t) && !IsInt(t) && !IsMmx(t) && !IsMask(t)
    ensures MemAccessBytes(RegMove(dst, src, t, avx)) == SizeOf(t)
  {
    if IsVec32(t) {
    } else if IsVec64(t) {
    }
  }

  /** The code as written and as intended differ only on 8- and 16-bit loads
      from memory. */
  lemma RegMoveVersionsAgree(dst: Operand, src: Operand, t: TypeId, avx: bool)
    requires IsValidType(t)
    ensures RegMoveAsWritten(dst, src, t, avx) == RegMove(dst, src, t, avx)
            <==> !(src.Mem? && t in {I8, U8, I16, U16})
  {
  }

  /** As written, loading an unsigned byte into AL reads four bytes. */
  lemma RegMoveNarrowLoadOverreads()
    ensures var inst := RegMoveAsWritten(Reg(GpbLo, IdAx), Mem(IdSp, 0, 0), U8, false);
      && inst == Inst(Mov, [Reg(Gpd, IdAx), Mem(IdSp, 0, 1)])
      && MemAccessBytes(inst) == 4 && SizeOf(U8) == 1
  {
  }

  /** Register and memory operands keep their register ids, base and offset; a
      register-to-register move of a value narrower than 32 bits renames both
      sides to 32-bit registers. */
  lemma RegMoveShape(dst: Operand, src: Operand, t: TypeId, avx: bool)
    requires IsValidType(t) && (dst.Reg? || dst.Mem?) && (src.Reg? || src.Mem?)
    ensures var inst := RegMove(dst, src, t, avx);
      && (dst.Reg? ==> inst.ops[0].Reg? && inst.ops[0].id == dst.id)
      && (dst.Mem? ==> inst.ops[0] == dst.(size := OpSize(src)))
      && (src.Reg? ==> inst.ops[1].Reg? && inst.ops[1].id == src.id)
      && (src.Mem? ==> inst.ops[1].Mem? && inst.ops[1].baseId == src.baseId && inst.ops[1].offset == src.offset)
      && (t in {I8, U8, I16, U16} && dst.Reg? && src.Reg? ==> inst == Inst(Mov, [Reg(Gpd, dst.id), Reg(Gpd, src.id)]))
  {
  }

  /** The VEX forms are chosen exactly for float and vector types under AVX, and
      for 512-bit integer vectors in any case. */
  lemma RegMoveVex(dst: Operand, src: Operand, t: TypeId, avx: bool)
    requires IsValidType(t)
    ensures IsVexForm(RegMove(dst, src, t, avx).id) <==>
            (avx && !IsInt(t) && !IsMask(t) && !IsMmx(t))
            || (t.Vec? && t.bytes > 32 && ElementOf(t) != F32 && ElementOf(t) != F64)
  {
    var id := RegMove(dst, src, t, avx).id;
    if IsInt(t) {
      assert id in {Mov, Movzx};
    } else if IsMmx(t) || IsMask(t) {
      assert id == MmxMaskMoveId(t, dst.Mem? || src.Mem?);
    } else {
      assert id == VecMoveId(t, dst.Mem? || src.Mem?, avx);
      VecMoveIdVex(t, dst.Mem? || src.Mem?, avx);
    }
  }

  lemma VecMoveIdVex(t: TypeId, mem: bool, avx: bool)
    ensures IsVexForm(VecMoveId(t, mem, avx)) <==>
            avx || (t.Vec? && t.bytes > 32 && ElementOf(t) != F32 && ElementOf(t) != F64)
  {
    var e := ElementOf(t);
    if IsVec32(t) && mem {
    } else if IsVec64(t) && mem {
    } else if e == F32 || e == F64 {
    } else if !(t.Vec? && t.bytes > 32) {
    }
  }

  // ---------------------------------------------------------------------------
  // emitArgMove
  // ---------------------------------------------------------------------------

  /** Sign extension is needed exactly when a signed value goes to a wider signed type. */
  predicate IsSigned(t: TypeId) { t in {I8, I16, I32, I64} }

  predicate SignedWidening(dstT: TypeId, srcT: TypeId) {
    IsSigned(dstT) && IsSigned(srcT) && SizeOf(dstT) > SizeOf(srcT)
  }

  /** The element type a conversion instruction produces and the one it reads. */
  function ConvertsTo(id: InstId): TypeId {
    if id in {Cvtss2sd, Vcvtss2sd, Cvtps2pd, Vcvtps2pd} then F64
    else if id in {Cvtsd2ss, Vcvtsd2ss, Cvtpd2ps, Vcvtpd2ps} then F32
    else Void
  }

  function ConvertsFrom(id: InstId): TypeId {
    if id in {Cvtss2sd, Vcvtss2sd, Cvtps2pd, Vcvtps2pd} then F32
    else if id in {Cvtsd2ss, Vcvtsd2ss, Cvtpd2ps, Vcvtpd2ps} then F64
    else Void
  }

  /** The (scalar, packed) conversions between float and double the code picks;
      `swapped` selects the pairing the source writes. */
  function NarrowingCvt(swapped: bool, avx: bool, scalar: bool): InstId {
    if swapped then (if scalar then Pick(avx, Cvtss2sd, Vcvtss2sd) else Pick(avx, Cvtps2pd, Vcvtps2pd))
    else (if scalar then Pick(avx, Cvtsd2ss, Vcvtsd2ss) else Pick(avx, Cvtpd2ps, Vcvtpd2ps))
  }

  function WideningCvt(swapped: bool, avx: bool, scalar: bool): InstId {
    if swapped then (if scalar then Pick(avx, Cvtsd2ss, Vcvtsd2ss) else Pick(avx, Cvtpd2ps, Vcvtpd2ps))
    else (if scalar then Pick(avx, Cvtss2sd, Vcvtss2sd) else Pick(avx, Cvtps2pd, Vcvtps2pd))
  }

  /** The type of the destination: the given one, or the default type of the
      destination register when none is given. */
  function DstTypeOf(dst: Operand, dstT: TypeId): TypeId
    requires dst.Reg?
  {
    if dstT == Void then TypeIdOfRegType(dst.rt) else dstT
  }

  /** An instruction whose memory source (if any) is sized `srcSize`. */
  function Finish(id: InstId, dst: Operand, src: Operand, srcSize: nat): Result<Inst> {
    Ok(Inst(id, [dst, if src.Mem? then src.(size := srcSize) else src]))
  }

  /** The integer-destination part of emitArgMove; `asWritten` selects the
      source's `mov` for a zero extension into a 64-bit register and for a
      narrow destination, which it sizes by the narrower side. */
  function ArgMoveToInt(asWritten: bool, dst: Operand, dT: TypeId, src: Operand, srcT: TypeId, avx: bool)
    : Result<Inst>
    requires dst.Reg? && IsInt(dT)
  {
    var dstSize := SizeOf(dT);
    var srcSize := SizeOf(srcT);
    if IsInt(srcT) && SignedWidening(dT, srcT) && !(dT == I64 && srcT == I32) then
      Finish(Movsx, dst, src, srcSize)
    else if IsInt(srcT) && dT == I64 && srcT == I32 then
      Finish(Movsxd, dst, src, srcSize)
    else if IsInt(srcT) || src.Mem? then
      if dstSize <= 4 && srcSize < 4 then Finish(Movzx, WithType(dst, Gpd), src, srcSize)
      else if asWritten then
        var s := Min(srcSize, dstSize);
        var rt := if s == 4 then Gpd else Gpq;
        Finish(Mov, WithType(dst, rt), WithType(src, rt), s)
      else if srcSize < 4 then
        // A 32-bit destination zero-extends into the whole 64-bit register.
        Finish(Movzx, WithType(dst, Gpd), src, srcSize)
      else
        // A narrow destination takes the low 32 bits.
        var s := Max(Min(srcSize, dstSize), 4);
        var rt := if s == 4 then Gpd else Gpq;
        Finish(Mov, WithType(dst, rt), WithType(src, rt), s)
    else
      // Register to register from here on.
      var s := Min(srcSize, dstSize);
      if IsMmx(srcT) then
        if s == 8 then Finish(Movq, dst, src, s) else Finish(Movd, WithType(dst, Gpd), src, s)
      else if IsMask(srcT) then
        Finish(KmovBySize(s), WithType(dst, if s <= 4 then Gpd else Gpq), src, s)
      else if IsVec(srcT) then
        if s == 8 then Finish(Pick(avx, Movq, Vmovq), dst, src, s)
        else Finish(Pick(avx, Movd, Vmovd), WithType(dst, Gpd), src, s)
      else Err(InvalidState)
  }

  /** The MMX-destination part of emitArgMove. */
  function ArgMoveToMmx(dst: Operand, dT: TypeId, src: Operand, srcT: TypeId): Result<Inst>
    requires dst.Reg? && IsMmx(dT)
  {
    var s := Min(SizeOf(srcT), SizeOf(dT));
    if IsInt(srcT) || src.Mem? then
      if s == 8 then Finish(Movq, dst, src, s)
      else Finish(Movd, dst, if src.Reg? then WithType(src, Gpd) else src, s)
    else if IsMmx(srcT) then Finish(Movq, dst, src, s)
    else if IsVec(srcT) then Finish(Movdq2q, dst, src, s)
    else Err(InvalidState)
  }

  /** The mask-destination part of emitArgMove. */
  function ArgMoveToMask(dst: Operand, dT: TypeId, src: Operand, srcT: TypeId): Result<Inst>
    requires dst.Reg? && IsMask(dT)
  {
    var s := Min(SizeOf(srcT), SizeOf(dT));
    if IsInt(srcT) || IsMask(srcT) || src.Mem? then
      Finish(KmovBySize(s), dst, if IsGpReg(src) && s <= 4 then WithType(src, Gpd) else src, s)
    else Err(InvalidState)
  }

  /** The vector-destination part of emitArgMove; `swapped` selects the
      conversion instructions the source writes. */
  function ArgMoveToVec(swapped: bool, dst: Operand, dT: TypeId, src: Operand, srcT: TypeId, avx: bool)
    : Result<Inst>
    requires dst.Reg? && IsVec(dT)
  {
    var dstSize := SizeOf(dT);
    var srcSize := SizeOf(srcT);
    var xdst := WithType(dst, Xmm);
    var dE := ElementOf(dT);
    var sE := ElementOf(srcT);
    if IsMmReg(src) then Finish(Movq2dq, xdst, src, srcSize)
    else if dE == F32 && sE == F64 then
      var s := Min(dstSize * 2, srcSize);
      var d := s / 2;
      Finish(NarrowingCvt(swapped, avx, s <= 8), if d == 32 then WithType(dst, Ymm) else xdst,
             if src.Reg? then WithType(src, VecRegTypeBySize(s)) else src, s)
    else if dE == F64 && sE == F32 then
      var s := Min(dstSize, srcSize * 2) / 2;
      var d := s * 2;
      Finish(WideningCvt(swapped, avx, s <= 4), WithType(dst, VecRegTypeBySize(d)),
             if src.Reg? && s >= 32 then WithType(src, Ymm) else src, s)
    else
      var s := Min(srcSize, dstSize);
      if (IsGpReg(src) || src.Mem?) && s <= 4 then
        Finish(Pick(avx, Movd, Vmovd), xdst, if src.Reg? then WithType(src, Gpd) else src, s)
      else if (IsGpReg(src) || src.Mem?) && s == 8 then
        Finish(Pick(avx, Movq, Vmovq), xdst, src, s)
      else if IsVecReg(src) || src.Mem? then
        var rt := VecRegTypeBySize(s);
        Finish(Pick(avx, Movaps, Vmovaps), WithType(dst, rt), WithType(src, rt), s)
      else Err(InvalidState)
  }

  /** emitArgMove with the choice between the code as written and as intended
      as a parameter: the destination class picks the part; a combination no
      part handles is InvalidState. */
  function ArgMoveWith(asWritten: bool, dst: Operand, dstT: TypeId, src: Operand, srcT: TypeId, avx: bool)
    : Result<Inst>
    requires dst.Reg?
  {
    var dT := DstTypeOf(dst, dstT);
    if IsInt(dT) then ArgMoveToInt(asWritten, dst, dT, src, srcT, avx)
    else if IsMmx(dT) then ArgMoveToMmx(dst, dT, src, srcT)
    else if IsMask(dT) then ArgMoveToMask(dst, dT, src, srcT)
    else if IsVec(dT) then ArgMoveToVec(asWritten, dst, dT, src, srcT, avx)
    else Err(InvalidState)
  }

  /** emitArgMove as written: a double-to-float conversion picks float-to-double
      instructions and the other way round, and a zero extension into a 64-bit
      register or a move into an 8- or 16-bit one is a `mov` with a 64-bit
      register. */
  function ArgMoveAsWritten(dst: Operand, dstT: TypeId, src: Operand, srcT: TypeId, avx: bool): Result<Inst>
    requires dst.Reg?
  {
    ArgMoveWith(true, dst, dstT, src, srcT, avx)
  }

  /** emitArgMove as intended: conversions go from the source element type to
      the destination element type, every zero extension of an 8- or 16-bit
      value is a `movzx`, and a move into an 8- or 16-bit register is a 32-bit
      `mov`. */
  function ArgMove(dst: Operand, dstT: TypeId, src: Operand, srcT: TypeId, avx: bool): Result<Inst>
    requires dst.Reg?
  {
    ArgMoveWith(false, dst, dstT, src, srcT, avx)
  }

  /** The source combinations emitArgMove handles, by destination class. */
  predicate IntSrcSupported(src: Operand, srcT: TypeId) {
    IsInt(srcT) || src.Mem? || IsMmx(srcT) || IsMask(srcT) || IsVec(srcT)
  }

  predicate MmxSrcSupported(src: Operand, srcT: TypeId) {
    IsInt(srcT) || src.Mem? || IsMmx(srcT) || IsVec(srcT)
  }

  predicate MaskSrcSupported(src: Operand, srcT: TypeId) {
    IsInt(srcT) || IsMask(srcT) || src.Mem?
  }

  predicate VecSrcSupported(dT: TypeId, src: Operand, srcT: TypeId) {
    var s := Min(SizeOf(srcT), SizeOf(dT));
    || IsMmReg(src) || src.Mem? || IsVecReg(src)
    || (ElementOf(dT) == F32 && ElementOf(srcT) == F64)
    || (ElementOf(dT) == F64 && ElementOf(srcT) == F32)
    || (IsGpReg(src) && (s <= 4 || s == 8))
  }

  predicate ArgMoveSupported(dT: TypeId, src: Operand, srcT: TypeId) {
    if IsInt(dT) then IntSrcSupported(src, srcT)
    else if IsMmx(dT) then MmxSrcSupported(src, srcT)
    else if IsMask(dT) then MaskSrcSupported(src, srcT)
    else if IsVec(dT) then VecSrcSupported(dT, src, srcT)
    else false
  }

  /** A selected move writes the requested destination register and reads the
      given source register or memory location, whose declared size is at most
      the source type's. */
  predicate OperandsPreserved(r: Result<Inst>, dst: Operand, src: Operand, srcT: TypeId)
    requires dst.Reg? && (r.Ok? ==> |r.value.ops| == 2)
  {
    r.Ok? ==>
      && r.value.ops[0].Reg? && r.value.ops[0].id == dst.id
      && (src.Reg? ==> r.value.ops[1].Reg? && r.value.ops[1].id == src.id)
      && (src.Mem? ==>
            && r.value.ops[1].Mem? && r.value.ops[1].baseId == src.baseId
            && r.value.ops[1].offset == src.offset && r.value.ops[1].size <= SizeOf(srcT))
  }

  lemma IntPartProps(dst: Operand, dT: TypeId, src: Operand, srcT: TypeId, avx: bool)
    requires dst.Reg? && IsInt(dT) && (src.Reg? || src.Mem?)
    ensures var r := ArgMoveToInt(false, dst, dT, src, srcT, avx);
      && (r.Ok? <==> IntSrcSupported(src, srcT))
      && (r.Ok? ==> |r.value.ops| == 2)
      && OperandsPreserved(r, dst, src, srcT)
  {
    if IsInt(srcT) {
    } else if src.Mem? {
    } else if IsMmx(srcT) {
    } else if IsMask(srcT) {
    } else if IsVec(srcT) {
    }
  }

  lemma MmxPartProps(dst: Operand, dT: TypeId, src: Operand, srcT: TypeId)
    requires dst.Reg? && IsMmx(dT) && (src.Reg? || src.Mem?)
    ensures var r := ArgMoveToMmx(dst, dT, src, srcT);
      && (r.Ok? <==> MmxSrcSupported(src, srcT))
      && (r.Ok? ==> |r.value.ops| == 2)
      && OperandsPreserved(r, dst, src, srcT)
  {
  }

  lemma MaskPartProps(dst: Operand, dT: TypeId, src: Operand, srcT: TypeId)
    requires dst.Reg? && IsMask(dT) && (src.Reg? || src.Mem?)
    ensures var r := ArgMoveToMask(dst, dT, src, srcT);
      && (r.Ok? <==> MaskSrcSupported(src, srcT))
      && (r.Ok? ==> |r.value.ops| == 2)
      && OperandsPreserved(r, dst, src, srcT)
  {
  }

  lemma VecPartProps(dst: Operand, dT: TypeId, src: Operand, srcT: TypeId, avx: bool)
    requires dst.Reg? && IsVec(dT) && (src.Reg? || src.Mem?)
    ensures var r := ArgMoveToVec(false, dst, dT, src, srcT, avx);
      && (r.Ok? <==> VecSrcSupported(dT, src, srcT))
      && (r.Ok? ==> |r.value.ops| == 2)
      && OperandsPreserved(r, dst, src, srcT)
  {
    var dE := ElementOf(dT);
    var sE := ElementOf(srcT);
    if IsMmReg(src) {
    } else if dE == F32 && sE == F64 {
    } else if dE == F64 && sE == F32 {
    } else if src.Mem? {
    } else if IsGpReg(src) {
    }
  }

  /** emitArgMove fails (with InvalidState) exactly on the unsupported
      combinations; otherwise the move writes the requested register and reads
      the given source, a memory source declared no wider than the source type. */
  lemma ArgMoveOperands(dst: Operand, dstT: TypeId, src: Operand, srcT: TypeId, avx: bool)
    requires dst.Reg? && (src.Reg? || src.Mem?)
    ensures var r := ArgMove(dst, dstT, src, srcT, avx);
      && (r.Ok? <==> ArgMoveSupported(DstTypeOf(dst, dstT), src, srcT))
      && (r.Err? ==> r.error == InvalidState)
      && (r.Ok? ==> |r.value.ops| == 2)
      && OperandsPreserved(r, dst, src, srcT)
  {
    var dT := DstTypeOf(dst, dstT);
    var r := ArgMove(dst, dstT, src, srcT, avx);
    if IsInt(dT) {
      assert r == ArgMoveToInt(false, dst, dT, src, srcT, avx);
      IntPartProps(dst, dT, src, srcT, avx);
    } else if IsMmx(dT) {
      assert r == ArgMoveToMmx(dst, dT, src, srcT);
      MmxPartProps(dst, dT, src, srcT);
    } else if IsMask(dT) {
      assert r == ArgMoveToMask(dst, dT, src, srcT);
      MaskPartProps(dst, dT, src, srcT);
    } else if IsVec(dT) {
      assert r == ArgMoveToVec(false, dst, dT, src, srcT, avx);
      VecPartProps(dst, dT, src, srcT, avx);
    } else {
      assert r == Err(InvalidState);
    }
  }

  /** Between integer types, sign extension (movsx, movsxd) is used exactly for a
      signed value going to a wider signed type. */
  lemma ArgMoveIntExtension(dst: Operand, dstT: TypeId, src: Operand, srcT: TypeId, avx: bool)
    requires dst.Reg? && IsInt(dstT) && IsInt(srcT)
    ensures ArgMove(dst, dstT, src, srcT, avx).Ok?
    ensures var id := ArgMove(dst, dstT, src, srcT, avx).value.id;
      && (id in {Movsx, Movsxd} <==> SignedWidening(dstT, srcT))
      && (id == Movzx <==> !SignedWidening(dstT, srcT) && SizeOf(srcT) < 4)
  {
    assert DstTypeOf(dst, dstT) == dstT;
    assert ArgMove(dst, dstT, src, srcT, avx) == ArgMoveToInt(false, dst, dstT, src, srcT, avx);
    if SignedWidening(dstT, srcT) {
    } else if SizeOf(srcT) < 4 {
    }
  }

  /** A load from memory into an integer register reads no more bytes than
      the source type has, and exactly as many when the destination type is at
      least as wide. */
  lemma ArgMoveIntLoadWidth(dst: Operand, dstT: TypeId, src: Operand, srcT: TypeId, avx: bool)
    requires dst.Reg? && src.Mem? && IsInt(DstTypeOf(dst, dstT)) && IsValidType(srcT)
    ensures var r := ArgMove(dst, dstT, src, srcT, avx);
      && r.Ok?
      && MemAccessBytes(r.value) <= SizeOf(srcT)
      && (SizeOf(srcT) <= SizeOf(DstTypeOf(dst, dstT)) ==> MemAccessBytes(r.value) == SizeOf(srcT))
  {
    var dT := DstTypeOf(dst, dstT);
    assert ArgMove(dst, dstT, src, srcT, avx) == ArgMoveToInt(false, dst, dT, src, srcT, avx);
  }

  /** As written, a byte in memory loaded into RAX, and a dword in memory
      loaded into AL, are both a `mov` into RAX with a one-byte memory operand,
      which reads eight bytes. */
  lemma ArgMoveWideMovOverreads()
    ensures var r := ArgMoveAsWritten(Reg(Gpq, IdAx), U64, Mem(IdSp, 0, 0), U8, false);
      && r == Ok(Inst(Mov, [Reg(Gpq, IdAx), Mem(IdSp, 0, 1)]))
      && MemAccessBytes(r.value) == 8 && SizeOf(U8) == 1
    ensures var r := ArgMoveAsWritten(Reg(GpbLo, IdAx), U8, Mem(IdSp, 0, 0), U32, false);
      && r == Ok(Inst(Mov, [Reg(Gpq, IdAx), Mem(IdSp, 0, 1)]))
      && MemAccessBytes(r.value) == 8 && SizeOf(U32) == 4
  {
  }

  /** A conversion between float and double vectors reads the source element
      type and produces the destination element type. */
  lemma ArgMoveConversion(dst: Operand, dstT: TypeId, src: Operand, srcT: TypeId, avx: bool)
    requires dst.Reg? && IsVec(DstTypeOf(dst, dstT)) && !IsMmReg(src)
    requires var dE := ElementOf(DstTypeOf(dst, dstT));
      (dE == F32 && ElementOf(srcT) == F64) || (dE == F64 && ElementOf(srcT) == F32)
    ensures var r := ArgMove(dst, dstT, src, srcT, avx);
      && r.Ok?
      && ConvertsTo(r.value.id) == ElementOf(DstTypeOf(dst, dstT))
      && ConvertsFrom(r.value.id) == ElementOf(srcT)
      && (IsVexForm(r.value.id) <==> avx)
  {
  }

  /** As written, converting one double in XMM1 to a float in XMM0 picks
      cvtss2sd, which produces a double from a float. */
  lemma ArgMoveConversionSwapped()
    ensures var r := ArgMoveAsWritten(Reg(Xmm, 0), Vec(EF32, 4), Reg(Xmm, 1), Vec(EF64, 8), false);
      && r == Ok(Inst(Cvtss2sd, [Reg(Xmm, 0), Reg(Xmm, 1)]))
      && ConvertsTo(r.value.id) == F64 && ConvertsFrom(r.value.id) == F32
  {
  }

  // ---------------------------------------------------------------------------
  // The emitting wrappers
  // ---------------------------------------------------------------------------

  /** X86Internal::emitRegMove: emits the selected move. */
  method EmitRegMove(e: Emitter, dst: Operand, src: Operand, t: TypeId, avx: bool)
    requires IsValidType(t)
    modifies e
    ensures e.trace == old(e.trace) + [RegMove(dst, src, t, avx)]
  {
    var inst := RegMove(dst, src, t, avx);
    e.Emit(inst.id, inst.ops);
  }

  /** X86Internal::emitArgMove: emits the selected move, or emits nothing and
      fails with InvalidState. */
  method EmitArgMove(e: Emitter, dst: Operand, dstT: TypeId, src: Operand, srcT: TypeId, avx: bool)
    returns (r: Result<()>)
    requires dst.Reg?
    modifies e
    ensures var m := ArgMove(dst, dstT, src, srcT, avx);
      && (r.Ok? <==> m.Ok?)
      && (m.Ok? ==> e.trace == old(e.trace) + [m.value])
      && (m.Err? ==> r.error == m.error && e.trace == old(e.trace))
  {
    var m := ArgMove(dst, dstT, src, srcT, avx);
    if m.Err? {
      return Err(m.error);
    }
    e.Emit(m.value.id, m.value.ops);
    return Ok(());
  }
}
