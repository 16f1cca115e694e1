/** X86FuncArgsContext::WorkData: the per-group bookkeeping of the argument
    shuffler. `physToVarId[r]` names the variable that currently occupies
    physical register `r` of the group, and `assignedRegs` is the mask of the
    occupied registers. The source keeps the two in step with debug assertions
    only; here every operation does exactly what the release build does (the
    table writes, and an exclusive-or on the mask), and the agreement of mask and
    table is proved to survive each operation whenever its assertions hold. */
module WorkDatas {
  import opened Defs
  import Frames

  /** `kVarIdNone`: the table entry of a register no variable occupies. */
  const VarIdNone: nat := 0xFF

  /** `mask ^ IntUtils::mask(r)`. */
  function Toggle(m: RegMask, r: RegId): RegMask {
    if r in m then m - {r} else m + {r}
  }

  /** The masks and counters of a WorkData, as a value. */
  datatype WorkView = WorkView(
    archRegs: RegMask, workRegs: RegMask, usedRegs: RegMask, assignedRegs: RegMask,
    dstRegs: RegMask, dstShuf: RegMask, numSwaps: nat, numStackArgs: nat)

  /** The occupied registers of a mask are exactly those whose table entry names a variable. */
  predicate MaskAgrees(occupied: RegMask, table: seq<nat>) {
    |table| == 32 && forall r: RegId :: r in occupied <==> table[r] != VarIdNone
  }

  class WorkData {
    var archRegs: RegMask
    var workRegs: RegMask
    var usedRegs: RegMask
    var assignedRegs: RegMask
    var dstRegs: RegMask
    var dstShuf: RegMask
    var numSwaps: nat
    var numStackArgs: nat
    /** The 32-entry byte table `_physToVarId`. */
    const physToVarId: array<nat>

    /** The occupied registers are exactly those whose table entry names a variable. */
    predicate Valid()
      reads this, physToVarId
    {
      physToVarId.Length == 32 && MaskAgrees(assignedRegs, physToVarId[..])
    }

    /** The state `reset()` leaves. */
    predicate IsReset()
      reads this, physToVarId
    {
      && archRegs == {} && workRegs == {} && usedRegs == {} && assignedRegs == {}
      && dstRegs == {} && dstShuf == {} && numSwaps == 0 && numStackArgs == 0
      && physToVarId.Length == 32
      && forall r: RegId :: physToVarId[r] == VarIdNone
    }

    constructor ()
      ensures IsReset() && Valid() && fresh(physToVarId)
    {
      archRegs, workRegs, usedRegs, assignedRegs, dstRegs, dstShuf := {}, {}, {}, {}, {}, {};
      numSwaps, numStackArgs := 0, 0;
      physToVarId := new nat[32](_ => VarIdNone);
    }

    /** WorkData::reset(): no registers, no counts, an empty table. */
    method Reset()
      requires physToVarId.Length == 32
      modifies this, physToVarId
      ensures IsReset() && Valid()
    {
      var r := 0;
      while r < 32
        invariant 0 <= r <= 32
        invariant forall q :: 0 <= q < r ==> physToVarId[q] == VarIdNone
      {
        physToVarId[r] := VarIdNone;
        r := r + 1;
      }
      archRegs, workRegs, usedRegs, assignedRegs, dstRegs, dstShuf := {}, {}, {}, {}, {}, {};
      numSwaps, numStackArgs := 0, 0;
    }

    function View(): WorkView
      reads this
    {
      WorkView(archRegs, workRegs, usedRegs, assignedRegs, dstRegs, dstShuf, numSwaps, numStackArgs)
    }

    function IsAssigned(regId: RegId): bool
      reads this
    {
      regId in assignedRegs
    }

    /** getAvailableRegs(): the working registers no variable occupies. */
    function AvailableRegs(): RegMask
      reads this
    {
      workRegs - assignedRegs
    }

    /** A register becomes an argument's target: it is used, a destination, and to be shuffled. */
    method AddDst(regId: RegId)
      modifies this`usedRegs, this`dstRegs, this`dstShuf
      ensures View() == old(View()).(usedRegs := old(usedRegs) + {regId}, dstRegs := old(dstRegs) + {regId},
                                     dstShuf := old(dstShuf) + {regId})
    {
      dstRegs := dstRegs + {regId};
      dstShuf := dstShuf + {regId};
      usedRegs := usedRegs + {regId};
    }

    /** assign(): `varId` moves into the free register `regId`. */
    method Assign(varId: nat, regId: RegId)
      requires physToVarId.Length == 32
      modifies this`assignedRegs, physToVarId
      ensures physToVarId[..] == old(physToVarId[..])[regId := Frames.Low8(varId)]
      ensures assignedRegs == Toggle(old(assignedRegs), regId)
      ensures old(Valid()) && !old(IsAssigned(regId)) ==> assignedRegs == old(assignedRegs) + {regId}
      ensures old(Valid()) && !old(IsAssigned(regId)) && Frames.Low8(varId) != VarIdNone ==> Valid()
    {
      physToVarId[regId] := Frames.Low8(varId);
      assignedRegs := Toggle(assignedRegs, regId);
    }

    /** reassign(): `varId` moves from the occupied `oldId` into the free `newId`. */
    method Reassign(varId: nat, newId: RegId, oldId: RegId)
      requires physToVarId.Length == 32
      modifies this`assignedRegs, physToVarId
      ensures physToVarId[..] == old(physToVarId[..])[oldId := VarIdNone][newId := Frames.Low8(varId)]
      ensures assignedRegs == Toggle(Toggle(old(assignedRegs), newId), oldId)
      ensures old(Valid()) && old(IsAssigned(oldId)) && !old(IsAssigned(newId)) ==>
                assignedRegs == old(assignedRegs) - {oldId} + {newId}
      ensures old(Valid()) && old(IsAssigned(oldId)) && !old(IsAssigned(newId)) && Frames.Low8(varId) != VarIdNone ==> Valid()
    {
      physToVarId[oldId] := VarIdNone;
      physToVarId[newId] := Frames.Low8(varId);
      assignedRegs := Toggle(Toggle(assignedRegs, newId), oldId);
    }

    /** swap(): the variables in the occupied registers `aRegId` and `bRegId` trade places. */
    method Swap(aVarId: nat, aRegId: RegId, bVarId: nat, bRegId: RegId)
      requires physToVarId.Length == 32
      modifies physToVarId
      ensures physToVarId[..] == old(physToVarId[..])[aRegId := Frames.Low8(bVarId)][bRegId := Frames.Low8(aVarId)]
      ensures (&& old(Valid()) && old(IsAssigned(aRegId)) && old(IsAssigned(bRegId))
               && Frames.Low8(aVarId) != VarIdNone && Frames.Low8(bVarId) != VarIdNone) ==> Valid()
    {
      physToVarId[aRegId] := Frames.Low8(bVarId);
      physToVarId[bRegId] := Frames.Low8(aVarId);
    }

    /** unassign(): the occupied register `regId` becomes free. */
    method Unassign(varId: nat, regId: RegId)
      requires physToVarId.Length == 32
      modifies this`assignedRegs, physToVarId
      ensures physToVarId[..] == old(physToVarId[..])[regId := VarIdNone]
      ensures assignedRegs == Toggle(old(assignedRegs), regId)
      ensures old(Valid()) && old(IsAssigned(regId)) ==> Valid() && assignedRegs == old(assignedRegs) - {regId}
    {
      physToVarId[regId] := VarIdNone;
      assignedRegs := Toggle(assignedRegs, regId);
    }
  }
}
