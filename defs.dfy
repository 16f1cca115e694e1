/** Shared vocabulary of the x86 function-ABI code: error codes, register ids and
    register masks, type ids with their sizes and classes, register types and
    register groups, and the integer helpers (alignUp, alignDiff) the frame code uses.

    A 32-bit register mask of the source is modelled as the set of the ids whose bit
    is set: OR is union, AND is intersection, `~m` is the complement within 0..31,
    popcnt is the cardinality, ctz is the least element. */
module Defs {

  // ---------------------------------------------------------------------------
  // Errors
  // ---------------------------------------------------------------------------

  datatype Error =
    | InvalidArgument
    | InvalidState
    | InvalidRegType
    | InvalidRegGroup
    | InvalidPhysId
    | OverlappedRegs
    | NoMorePhysRegs
    | NoHeapMemory

  datatype Result<T> = Ok(value: T) | Err(error: Error)

  datatype Option<T> = None | Some(value: T)

  // ---------------------------------------------------------------------------
  // Register ids and masks
  // ---------------------------------------------------------------------------

  type RegId = r: nat | r < 32

  type RegMask = set<RegId>

  /** `Reg::kIdBad`: the byte used where no register is assigned. */
  const IdBad: nat := 0xFF

  // General-purpose register ids of x86 (`X86Gp::kIdAx` ...).
  const IdAx: RegId := 0
  const IdCx: RegId := 1
  const IdDx: RegId := 2
  const IdBx: RegId := 3
  const IdSp: RegId := 4
  const IdBp: RegId := 5
  const IdSi: RegId := 6
  const IdDi: RegId := 7

  /** IntUtils::bits(n): the ids 0 .. n-1. */
  function Bits(n: nat): (m: RegMask)
    ensures forall r: RegId :: r in m <==> r < n
  {
    if n == 0 then {}
    else if n > 32 then Bits(32)
    else Bits(n - 1) + {(n - 1) as RegId}
  }

  /** The full 32-bit mask (`~0u`). */
  function AllRegs(): (m: RegMask)
    ensures forall r: RegId :: r in m
  {
    Bits(32)
  }

  /** `~m` on a 32-bit mask. */
  function Complement(m: RegMask): (c: RegMask)
    ensures forall r: RegId :: r in c <==> r !in m
  {
    AllRegs() - m
  }

  /** IntUtils::ctz: the lowest id of a non-empty mask. */
  function LowestId(m: RegMask): (r: RegId)
    requires m != {}
    ensures r in m
    ensures forall q :: q in m ==> r <= q
  {
    LowestIdFrom(m, 0)
  }

  function LowestIdFrom(m: RegMask, from: nat): (r: RegId)
    requires from < 32
    requires exists q :: q in m && q >= from
    requires forall q :: q in m ==> q >= from
    ensures r in m
    ensures forall q :: q in m ==> r <= q
    decreases 32 - from
  {
    if from in m then from as RegId else LowestIdFrom(m, from + 1)
  }

  /** The ids of a mask in ascending order, as a bit iterator visits them.
      Its properties are stated by AscendingProps. */
  function Ascending(m: RegMask): seq<RegId> {
    AscendingFrom(m, 0)
  }

  /** The ids of `m` that are at least `from`, ascending. */
  function AscendingFrom(m: RegMask, from: nat): seq<RegId>
    requires from <= 32
    decreases 32 - from
  {
    if from == 32 then []
    else if from in m then [from as RegId] + AscendingFrom(m, from + 1)
    else AscendingFrom(m, from + 1)
  }

  lemma {:induction false} AscendingFromProps(m: RegMask, from: nat)
    requires from <= 32
    ensures Increasing(AscendingFrom(m, from))
    ensures forall i :: 0 <= i < |AscendingFrom(m, from)| ==> AscendingFrom(m, from)[i] >= from
    ensures forall r :: (r in m && r >= from) <==> r in AscendingFrom(m, from)
    ensures m == {} ==> AscendingFrom(m, from) == []
    decreases 32 - from
  {
    if from < 32 {
      AscendingFromProps(m, from + 1);
    }
  }

  /** A bit iterator visits every id of the mask, each once, lowest first. */
  lemma AscendingProps(m: RegMask)
    ensures Increasing(Ascending(m))
    ensures forall r :: r in m <==> r in Ascending(m)
    ensures m == {} ==> Ascending(m) == []
  {
    AscendingFromProps(m, 0);
  }

  function Reverse<T>(s: seq<T>): (r: seq<T>)
    ensures |r| == |s|
    ensures forall i :: 0 <= i < |s| ==> r[i] == s[|s| - 1 - i]
  {
    if s == [] then [] else Reverse(s[1..]) + [s[0]]
  }

  /** The ids of `m` below `n` in descending order, as a loop from `n - 1`
      down to 0 testing each bit visits them. */
  function Descending(m: RegMask, n: nat): seq<RegId>
    requires n <= 32
  {
    if n == 0 then []
    else if (n - 1) in m then [(n - 1) as RegId] + Descending(m, n - 1)
    else Descending(m, n - 1)
  }

  /** The top-down visit is decreasing and sees exactly the ids below `n`. */
  lemma {:induction false} DescendingProps(m: RegMask, n: nat)
    requires n <= 32
    ensures forall i, j :: 0 <= i < j < |Descending(m, n)| ==> Descending(m, n)[i] > Descending(m, n)[j]
    ensures forall i :: 0 <= i < |Descending(m, n)| ==> Descending(m, n)[i] < n
    ensures forall r :: (r in m && r < n) <==> r in Descending(m, n)
  {
    if n > 0 {
      DescendingProps(m, n - 1);
    }
  }

  predicate Increasing(s: seq<RegId>) {
    forall i, j :: 0 <= i < j < |s| ==> s[i] < s[j]
  }

  lemma EmptyIffNoElements(s: seq<RegId>)
    ensures s == [] <==> forall r :: r !in s
  {
    if s != [] {
      assert s[0] in s;
    }
  }

  /** Two increasing sequences with the same elements are equal. */
  lemma {:induction false} IncreasingUnique(a: seq<RegId>, b: seq<RegId>)
    requires Increasing(a) && Increasing(b)
    requires forall r :: r in a <==> r in b
    ensures a == b
  {
    if a != [] && b != [] {
      assert a[0] in b && b[0] in a;
      var ka :| 0 <= ka < |b| && b[ka] == a[0];
      var kb :| 0 <= kb < |a| && a[kb] == b[0];
      assert b[0] <= b[ka];
      assert a[0] <= a[kb];
      assert a[0] == b[0];
      forall r
        ensures r in a[1..] <==> r in b[1..]
      {
        if r in a[1..] {
          var k :| 1 <= k < |a| && a[k] == r;
          assert a[0] < r && r in a;
          var j :| 0 <= j < |b| && b[j] == r;
          assert j != 0;
          assert b[1..][j - 1] == r;
        }
        if r in b[1..] {
          var k :| 1 <= k < |b| && b[k] == r;
          assert b[0] < r && r in b;
          var j :| 0 <= j < |a| && a[j] == r;
          assert j != 0;
          assert a[1..][j - 1] == r;
        }
      }
      IncreasingUnique(a[1..], b[1..]);
      assert a == [a[0]] + a[1..] && b == [b[0]] + b[1..];
    } else {
      EmptyIffNoElements(a);
      EmptyIffNoElements(b);
    }
  }

  /** A bit iterator visits the lowest id first, then the rest. */
  lemma AscendingSplit(m: RegMask)
    requires m != {}
    ensures Ascending(m) == [LowestId(m)] + Ascending(m - {LowestId(m)})
  {
    var low := LowestId(m);
    var rest := Ascending(m - {low});
    var s := [low] + rest;
    AscendingProps(m);
    AscendingProps(m - {low});
    forall i, j | 0 <= i < j < |s|
      ensures s[i] < s[j]
    {
      assert s[j] == rest[j - 1] && rest[j - 1] in m - {low};
      if i > 0 {
        assert s[i] == rest[i - 1];
      }
    }
    forall r
      ensures r in Ascending(m) <==> r in s
    {
      assert r in s <==> r == low || r in rest;
    }
    IncreasingUnique(Ascending(m), s);
  }

  /** A mask has as many ids as a bit iterator visits. */
  lemma {:induction false} AscendingCard(m: RegMask)
    ensures |Ascending(m)| == |m|
    decreases |m|
  {
    if m != {} {
      var low := LowestId(m);
      AscendingSplit(m);
      AscendingCard(m - {low});
      assert m == (m - {low}) + {low} && low !in m - {low};
      assert |m| == |m - {low}| + 1;
      assert |Ascending(m)| == 1 + |Ascending(m - {low})|;
    } else {
      AscendingProps(m);
    }
  }

  /** A decreasing sequence reversed is increasing, with the same elements. */
  lemma ReverseOfDecreasing(d: seq<RegId>)
    requires forall i, j :: 0 <= i < j < |d| ==> d[i] > d[j]
    ensures Increasing(Reverse(d))
    ensures forall r :: r in d <==> r in Reverse(d)
  {
    var rd := Reverse(d);
    forall i, j | 0 <= i < j < |rd|
      ensures rd[i] < rd[j]
    {
      assert rd[i] == d[|d| - 1 - i] && rd[j] == d[|d| - 1 - j];
    }
    forall r
      ensures r in d <==> r in rd
    {
      if r in rd {
        var i :| 0 <= i < |rd| && rd[i] == r;
        assert d[|d| - 1 - i] == r;
      }
      if r in d {
        var i :| 0 <= i < |d| && d[i] == r;
        assert rd[|d| - 1 - i] == r;
      }
    }
  }

  /** Visiting the ids below `n` from the top down is the bottom-up visit
      reversed, when the mask has no id of `n` or more. */
  lemma DescendingReversesAscending(m: RegMask, n: nat)
    requires n <= 32 && forall r :: r in m ==> r < n
    ensures Descending(m, n) == Reverse(Ascending(m))
  {
    var d := Descending(m, n);
    var a := Ascending(m);
    var rd := Reverse(d);
    DescendingProps(m, n);
    ReverseOfDecreasing(d);
    AscendingProps(m);
    IncreasingUnique(a, rd);
    ReverseTwice(d);
  }

  lemma ConcatAssoc<T>(a: seq<T>, b: seq<T>, c: seq<T>)
    ensures (a + b) + c == a + (b + c)
  {
  }

  lemma ReverseTwice<T>(s: seq<T>)
    ensures Reverse(Reverse(s)) == s
  {
    var r := Reverse(Reverse(s));
    forall i | 0 <= i < |s|
      ensures r[i] == s[i]
    {
      assert r[i] == Reverse(s)[|s| - 1 - i];
    }
  }

  // ---------------------------------------------------------------------------
  // Integer helpers
  // ---------------------------------------------------------------------------

  predicate IsPowerOf2(a: nat) {
    if a == 1 then true else a >= 2 && a % 2 == 0 && IsPowerOf2(a / 2)
  }

  /** `x` is a multiple of `a`. */
  predicate Aligned(x: nat, a: nat)
    requires a > 0
    decreases x
  {
    x == 0 || (x >= a && Aligned(x - a, a))
  }

  /** IntUtils::alignUp: the least multiple of `a` that is not below `x`. */
  function AlignUp(x: nat, a: nat): (r: nat)
    requires a > 0
    ensures Aligned(r, a)
    ensures x <= r < x + a
    decreases x
  {
    if x == 0 then 0
    else if x <= a then (assert Aligned(a - a, a); a)
    else a + AlignUp(x - a, a)
  }

  /** IntUtils::alignDiff: how much `x` must grow to become aligned to `a`. */
  function AlignDiff(x: nat, a: nat): (d: nat)
    requires a > 0
    ensures Aligned(x + d, a)
    ensures d < a
  {
    AlignUp(x, a) - x
  }

  function Max(a: nat, b: nat): (m: nat)
    ensures m >= a && m >= b && (m == a || m == b)
  {
    if a >= b then a else b
  }

  function Min(a: nat, b: nat): (m: nat)
    ensures m <= a && m <= b && (m == a || m == b)
  {
    if a <= b then a else b
  }

  // ---------------------------------------------------------------------------
  // Architectures
  // ---------------------------------------------------------------------------

  datatype Arch = ArchNone | X86 | X64

  /** The native general-purpose register width the code derives from the architecture. */
  function GpSizeOf(arch: Arch): (n: nat)
    ensures n == 4 || n == 8
  {
    if arch == X86 then 4 else 8
  }

  // ---------------------------------------------------------------------------
  // Type ids
  // ---------------------------------------------------------------------------

  /** Element type of a vector type id. */
  datatype VecElem = EI8 | EU8 | EI16 | EU16 | EI32 | EU32 | EI64 | EU64 | EF32 | EF64

  /** TypeId: the concrete value types of the source (abstract pointer-sized ids
      are resolved before this code and are not modelled). `Vec(e, bytes)` is a
      vector of `bytes` total bytes (4, 8, 16, 32 or 64) with elements `e`. */
  datatype TypeId =
    | Void
    | I8 | U8 | I16 | U16 | I32 | U32 | I64 | U64
    | F32 | F64 | F80
    | Mask8 | Mask16 | Mask32 | Mask64
    | Mmx32 | Mmx64
    | Vec(elem: VecElem, bytes: nat)

  function ElemSize(e: VecElem): (n: nat)
    ensures n in {1, 2, 4, 8}
  {
    match e
    case EI8 => 1 case EU8 => 1
    case EI16 => 2 case EU16 => 2
    case EI32 => 4 case EU32 => 4 case EF32 => 4
    case EI64 => 8 case EU64 => 8 case EF64 => 8
  }

  /** The type ids that exist in the source's table. */
  predicate IsValidType(t: TypeId) {
    t != Void && (t.Vec? ==> t.bytes in {4, 8, 16, 32, 64} && ElemSize(t.elem) <= t.bytes)
  }

  function SizeOf(t: TypeId): nat {
    match t
    case Void => 0
    case I8 => 1 case U8 => 1 case I16 => 2 case U16 => 2
    case I32 => 4 case U32 => 4 case I64 => 8 case U64 => 8
    case F32 => 4 case F64 => 8 case F80 => 10
    case Mask8 => 1 case Mask16 => 2 case Mask32 => 4 case Mask64 => 8
    case Mmx32 => 4 case Mmx64 => 8
    case Vec(_, b) => b
  }

  predicate IsInt(t: TypeId) { t in {I8, U8, I16, U16, I32, U32, I64, U64} }
  predicate IsFloat(t: TypeId) { t in {F32, F64, F80} }
  predicate IsMask(t: TypeId) { t in {Mask8, Mask16, Mask32, Mask64} }
  predicate IsMmx(t: TypeId) { t in {Mmx32, Mmx64} }
  predicate IsVec(t: TypeId) { t.Vec? }
  predicate IsVec32(t: TypeId) { t.Vec? && t.bytes == 4 }
  predicate IsVec64(t: TypeId) { t.Vec? && t.bytes == 8 }

  /** `typeId <= TypeId::kU32` on an integer type id. */
  predicate IsIntUpTo32(t: TypeId) { t in {I8, U8, I16, U16, I32, U32} }

  /** TypeId::elementOf: the scalar element of a vector, a scalar itself otherwise. */
  function ElementOf(t: TypeId): (e: TypeId)
    ensures !e.Vec?
  {
    match t
    case Vec(e, _) =>
      (match e
       case EI8 => I8 case EU8 => U8 case EI16 => I16 case EU16 => U16
       case EI32 => I32 case EU32 => U32 case EI64 => I64 case EU64 => U64
       case EF32 => F32 case EF64 => F64)
    case _ => t
  }

  // ---------------------------------------------------------------------------
  // Register types and groups
  // ---------------------------------------------------------------------------

  /** X86Reg register types; `BadType` stands for every code at or beyond kRegCount. */
  datatype RegType =
    | RegNone | GpbLo | GpbHi | Gpw | Gpd | Gpq
    | Xmm | Ymm | Zmm | Mm | K | Fp | Seg
    | BadType

  /** Groups allocated independently: 0 GP, 1 vector, 2 MMX, 3 mask. */
  type Group = g: nat | g < 4

  const GroupGp: Group := 0
  const GroupVec: Group := 1
  const GroupMm: Group := 2
  const GroupK: Group := 3

  /** `Reg::kGroupVirt`: the number of groups the argument code works with. */
  const GroupVirt: nat := 4

  /** X86Reg::groupOf; register types outside the four groups map to 4 or more. */
  function GroupOf(rt: RegType): (g: nat)
    ensures rt in {GpbLo, GpbHi, Gpw, Gpd, Gpq} <==> g == 0
    ensures rt in {Xmm, Ymm, Zmm} <==> g == 1
    ensures rt == Mm <==> g == 2
    ensures rt == K <==> g == 3
  {
    match rt
    case GpbLo => 0 case GpbHi => 0 case Gpw => 0 case Gpd => 0 case Gpq => 0
    case Xmm => 1 case Ymm => 1 case Zmm => 1
    case Mm => 2
    case K => 3
    case Seg => 4
    case Fp => 5
    case RegNone => 6
    case BadType => 7
  }

  function RegTypeSize(rt: RegType): nat {
    match rt
    case GpbLo => 1 case GpbHi => 1 case Gpw => 2 case Gpd => 4 case Gpq => 8
    case Xmm => 16 case Ymm => 32 case Zmm => 64
    case Mm => 8 case K => 8 case Fp => 10 case Seg => 2
    case RegNone => 0 case BadType => 0
  }

  /** X86Reg::typeIdOf: the type id a register type holds by default. */
  function TypeIdOfRegType(rt: RegType): TypeId {
    match rt
    case GpbLo => U8 case GpbHi => U8 case Gpw => U16 case Gpd => U32 case Gpq => U64
    case Xmm => Vec(EI32, 16) case Ymm => Vec(EI32, 32) case Zmm => Vec(EI32, 64)
    case Mm => Mmx64 case K => Mask64
    case _ => Void
  }

  /** x86VecTypeIdToRegType: the vector register class that holds a type. */
  function VecRegTypeOf(t: TypeId): (rt: RegType)
    ensures GroupOf(rt) == GroupVec
    ensures t.Vec? && t.bytes > 32 ==> rt == Zmm
    ensures t.Vec? && 16 < t.bytes <= 32 ==> rt == Ymm
    ensures !(t.Vec? && t.bytes > 16) ==> rt == Xmm
  {
    if t.Vec? && t.bytes > 32 then Zmm
    else if t.Vec? && t.bytes > 16 then Ymm
    else Xmm
  }

  /** X86Reg::signatureOfVecBySize. */
  function VecRegTypeBySize(size: nat): (rt: RegType)
    ensures GroupOf(rt) == GroupVec
  {
    if size <= 16 then Xmm else if size <= 32 then Ymm else Zmm
  }

  // ---------------------------------------------------------------------------
  // Values placed in registers or on the stack (FuncValue)
  // ---------------------------------------------------------------------------

  datatype Loc = Unassigned | InReg(regType: RegType, regId: nat) | OnStack(offset: int)

  /** FuncValue: a placement, the value's type id, and the solver's "done" flag. */
  datatype FuncValue = FuncValue(loc: Loc, typeId: TypeId, done: bool) {
    predicate IsReg() { loc.InReg? }
    predicate IsStack() { loc.OnStack? }
    predicate IsAssigned() { loc != Unassigned }
    predicate HasTypeId() { typeId != Void }
    predicate IsInitialized() { loc != Unassigned || typeId != Void || done }
  }

  /** A FuncValue after `reset()`. */
  const NoValue := FuncValue(Unassigned, Void, false)

  function RegValue(rt: RegType, id: nat, t: TypeId): FuncValue {
    FuncValue(InReg(rt, id), t, false)
  }

  function StackValue(offset: int, t: TypeId): FuncValue {
    FuncValue(OnStack(offset), t, false)
  }
}
