/** The register allocator's stack slots and the allocator that records them
    (RAStackSlot and RAStackAllocator). Fields keep the widths of the source's
    integer fields: stores into them truncate or wrap as C++ conversions do. */
module RAStacks {
  /** Values of a `uint8_t`, `uint32_t` and `int32_t` field. */
  type U8 = x: nat | x < 0x100
  type U32 = x: nat | x < 0x1_0000_0000
  type I32 = x: int | -0x8000_0000 <= x < 0x8000_0000

  /** `uint8_t(x)`. */
  function ToU8(x: int): (r: U8)
    ensures 0 <= x < 0x100 ==> r == x
    ensures (r - x) % 0x100 == 0
  {
    x % 0x100
  }

  /** `uint32_t(x)`. */
  function ToU32(x: int): (r: U32)
    ensures 0 <= x < 0x1_0000_0000 ==> r == x
    ensures (r - x) % 0x1_0000_0000 == 0
  {
    x % 0x1_0000_0000
  }

  const FlagRegHome: bv32 := 0x1
  const FlagStackArg: bv32 := 0x2
  const NoArgIndex: nat := 0xFF

  /** The slot flags, as the two tests read them. */
  predicate HasRegHome(flags: bv32) { flags & FlagRegHome != 0 }
  predicate HasStackArg(flags: bv32) { flags & FlagStackArg != 0 }

  /** Adding flags keeps every flag already set, and sets those added. */
  lemma AddedFlags(flags: bv32, added: bv32)
    ensures HasRegHome(flags | added) <==> HasRegHome(flags) || HasRegHome(added)
    ensures HasStackArg(flags | added) <==> HasStackArg(flags) || HasStackArg(added)
  {
  }

  /** A slot; newSlot, which creates and registers slots, is not part of this model. */
  class RAStackSlot {
    var baseRegId: U8
    var alignment: U8
    var size: U32
    var flags: bv32
    var useCount: U32
    var weight: U32
    var offset: I32

    function GetBaseRegId(): U8 reads this { baseRegId }
    function GetSize(): U32 reads this { size }
    function GetAlignment(): U8 reads this { alignment }
    function GetFlags(): bv32 reads this { flags }
    function GetUseCount(): U32 reads this { useCount }
    function GetWeight(): U32 reads this { weight }
    function GetOffset(): I32 reads this { offset }

    function IsRegHome(): bool reads this { HasRegHome(flags) }
    function IsStackArg(): bool reads this { HasStackArg(flags) }

    /** setBaseRegId: the id is stored into an 8-bit field. */
    method SetBaseRegId(id: U32)
      modifies this`baseRegId
      ensures GetBaseRegId() == ToU8(id)
      ensures id < 0x100 ==> GetBaseRegId() == id
    {
      baseRegId := ToU8(id);
    }

    /** addFlags: the new flags are or-ed in. */
    method AddFlags(added: bv32)
      modifies this`flags
      ensures GetFlags() == old(flags) | added
      ensures IsRegHome() <==> old(IsRegHome()) || HasRegHome(added)
      ensures IsStackArg() <==> old(IsStackArg()) || HasStackArg(added)
    {
      AddedFlags(flags, added);
      flags := flags | added;
    }

    /** addUseCount: `n` more uses (by default one); the 32-bit
        counter wraps. */
    method AddUseCount(n: U32 := 1)
      modifies this`useCount
      ensures GetUseCount() == ToU32(old(useCount) + n)
      ensures old(useCount) + n < 0x1_0000_0000 ==> GetUseCount() == old(useCount) + n
    {
      useCount := ToU32(useCount + n);
    }

    /** setWeight: the signed argument is stored into the unsigned field. */
    method SetWeight(w: I32)
      modifies this`weight
      ensures GetWeight() == ToU32(w)
      ensures w >= 0 ==> GetWeight() == w
      ensures w < 0 ==> GetWeight() == w + 0x1_0000_0000
    {
      weight := ToU32(w);
    }

    method SetOffset(o: I32)
      modifies this`offset
      ensures GetOffset() == o
    {
      offset := o;
    }
  }

  /** A use counted with the default increment of one, then `n` more: the
      counter grows by their sum, modulo 2^32. */
  method UseCountsAdd(slot: RAStackSlot, n: U32)
    modifies slot`useCount
    ensures slot.GetUseCount() == ToU32(old(slot.GetUseCount()) + 1 + n)
  {
    slot.AddUseCount();
    slot.AddUseCount(n);
  }

  /** A weight set through the `int32_t` setter reads back unchanged when it is
      not negative, and as its 32-bit two's complement when it is. */
  method WeightReadsBack(slot: RAStackSlot, w: I32) returns (r: U32)
    modifies slot`weight
    ensures w >= 0 ==> r == w
    ensures w < 0 ==> r == w + 0x1_0000_0000
  {
    slot.SetWeight(w);
    r := slot.GetWeight();
  }

  /** The zone allocator the slot vector allocates from; its workings are not
      part of this model. */
  class ZoneAllocator {
    constructor () {}
  }

  class RAStackAllocator {
    var allocator: ZoneAllocator?
    var bytesUsed: U32
    var stackSize: U32
    var alignment: U32
    var slots: seq<RAStackSlot>

    /** A new allocator: no allocator, nothing used, alignment 1, no slots. */
    constructor ()
      ensures allocator == null && IsEmpty()
    {
      allocator := null;
      bytesUsed := 0;
      stackSize := 0;
      alignment := 1;
      slots := [];
    }

    /** Nothing used or computed yet, byte alignment, and no slots. */
    predicate IsEmpty()
      reads this
    {
      bytesUsed == 0 && stackSize == 0 && alignment == 1 && GetSlotCount() == 0
    }

    /** reset: the allocator is recorded and everything else starts over. */
    method Reset(a: ZoneAllocator?)
      modifies this
      ensures GetAllocator() == a && IsEmpty()
    {
      allocator := a;
      bytesUsed := 0;
      stackSize := 0;
      alignment := 1;
      slots := [];
    }

    function GetAllocator(): ZoneAllocator? reads this { allocator }
    function GetBytesUsed(): U32 reads this { bytesUsed }
    function GetStackSize(): U32 reads this { stackSize }
    function GetAlignment(): U32 reads this { alignment }
    function GetSlots(): seq<RAStackSlot> reads this { slots }

    /** getSlotCount: the length of the slot vector. */
    function GetSlotCount(): (n: nat)
      reads this
      ensures n == |GetSlots()|
    {
      |slots|
    }
  }
}
