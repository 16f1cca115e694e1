/** The instruction stream the function-ABI code produces. The emitter is
    modelled by the list of instructions it has been asked to emit; encoding,
    code buffers and inline comments are outside this model. */
module Emit {
  import opened Defs

  /** The x86 instructions the prolog, the epilog and the move helpers emit. */
  datatype InstId =
    | Mov | Movzx | Movsx | Movsxd | Xchg | Lea
    | Push | Pop | And | Sub | Add | Ret | Emms | Vzeroupper
    | Movd | Movq | Vmovd | Vmovq
    | Movss | Movsd | Vmovss | Vmovsd
    | Movaps | Movapd | Movups | Movdqa
    | Vmovaps | Vmovapd | Vmovups | Vmovdqa | Vmovdqa32 | Vmovdqa64
    | Kmovb | Kmovw | Kmovd | Kmovq
    | Movdq2q | Movq2dq
    | Cvtss2sd | Vcvtss2sd | Cvtps2pd | Vcvtps2pd
    | Cvtsd2ss | Vcvtsd2ss | Cvtpd2ps | Vcvtpd2ps

  /** VEX/EVEX-encoded forms, the ones the code picks when AVX is enabled. */
  predicate IsVexForm(id: InstId) {
    id in {Vmovd, Vmovq, Vmovss, Vmovsd, Vmovaps, Vmovapd, Vmovups, Vmovdqa, Vmovdqa32, Vmovdqa64,
           Vcvtss2sd, Vcvtps2pd, Vcvtsd2ss, Vcvtpd2ps}
  }

  /** An operand: a register of some type, a memory location `[base + offset]`
      of `size` bytes addressed through a native-size GP register, or an immediate. */
  datatype Operand =
    | Reg(rt: RegType, id: nat)
    | Mem(baseId: nat, offset: int, size: nat)
    | Imm(value: int)

  /** Bytes an operand stands for (0 for an immediate). */
  function OpSize(op: Operand): nat {
    match op
    case Reg(rt, _) => RegTypeSize(rt)
    case Mem(_, _, size) => size
    case Imm(_) => 0
  }

  predicate IsGpReg(op: Operand) { op.Reg? && GroupOf(op.rt) == GroupGp }
  predicate IsVecReg(op: Operand) { op.Reg? && GroupOf(op.rt) == GroupVec }
  predicate IsMmReg(op: Operand) { op.Reg? && op.rt == Mm }

  /** `setSignature` on a register operand; other operands are left alone. */
  function WithType(op: Operand, rt: RegType): (r: Operand)
    ensures op.Reg? ==> r == Reg(rt, op.id)
    ensures !op.Reg? ==> r == op
  {
    if op.Reg? then Reg(rt, op.id) else op
  }

  datatype Inst = Inst(id: InstId, ops: seq<Operand>)

  /** The native-size GP register with the given id (zsp, zbp, gpz(id)). */
  function Gpz(arch: Arch, id: nat): (r: Operand)
    ensures r.Reg? && r.id == id && GroupOf(r.rt) == GroupGp && RegTypeSize(r.rt) == GpSizeOf(arch)
  {
    Reg(if arch == X86 then Gpd else Gpq, id)
  }

  /** X86Emitter: every request appends one instruction; emitting never fails. */
  class Emitter {
    const arch: Arch
    var trace: seq<Inst>

    constructor (arch: Arch)
      ensures this.arch == arch && trace == []
    {
      this.arch := arch;
      trace := [];
    }

    /** The native GP register size (getGpSize). */
    function GpSize(): nat { GpSizeOf(arch) }


    method Emit(id: InstId, ops: seq<Operand>)
      modifies this
      ensures trace == old(trace) + [Inst(id, ops)]
    {
      trace := trace + [Inst(id, ops)];
    }
  }
}
