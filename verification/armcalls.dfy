/** Whole ARM VFP calls: where every argument goes, on the caller's and on the closure's side. */
module ArmCalls {
  import opened FfiTypes
  import opened ByteAreas
  import opened Layout
  import opened ArmVfp
  import opened ArmRegs
  import opened ArmArgs

  datatype ArmCall = ArmCall(rtype: Type, args: seq<Type>)

  predicate ValidCall(c: ArmCall) {
    ArmType(c.rtype) && ArmTypes(c.args)
  }

  /** ARM_TYPE_STRUCT: the result is returned in memory, and its address goes before the arguments. */
  predicate StructReturn(c: ArmCall)
    requires ValidCall(c)
  {
    Aggregate(c.rtype.code) && VfpType(c.rtype).NotVfp? && c.rtype.size > 4
  }

  lemma {:induction false} ArmTypeAligned(t: Type)
    requires ArmType(t)
    ensures t.size == SizeOf(t) > 0 && t.alignment == AlignOf(t) && ArmAlign(t.alignment)
    decreases t, |t.elements| + 1
  {
    if t.code == STRUCT {
      ArmMaxAlign(t, |t.elements|);
      InhabitedPositive(t);
    }
  }

  lemma {:induction false} ArmMaxAlign(t: Type, k: nat)
    requires ArmType(t) && t.code == STRUCT && 0 < k <= |t.elements|
    ensures ArmAlign(MaxAlign(t, k))
    decreases t, k
  {
    var e := t.elements[k - 1];
    assert e in t.elements;
    ArmTypeAligned(e);
    if k > 1 { ArmMaxAlign(t, k - 1); }
  }

  predicate Plain(t: Type) {
    t.size > 0 && ArmAlign(t.alignment)
  }

  lemma ArgPlain(c: ArmCall, k: nat)
    requires ValidCall(c) && k < |c.args|
    ensures Plain(c.args[k])
  {
    assert c.args[k] in c.args;
    ArmTypeAligned(c.args[k]);
  }

  ghost function Placements(c: ArmCall): seq<Placed>
    requires ValidCall(c)
  {
    CodesAre(c.args);
    Allocate(Codes(c.args), |c.args|).placed
  }

  /** The argument goes in floating-point registers. */
  ghost predicate InRegisters(c: ArmCall, k: nat)
    requires ValidCall(c) && k < |c.args|
  {
    Codes(c.args)[k].Vfp? && VfpIndex(Codes(c.args), k) < |Placements(c)|
  }

  function Start(c: ArmCall): Books
    requires ValidCall(c)
  {
    Books(if StructReturn(c) then 4 else 0, CORE, false, false)
  }

  /** The books of both sides before argument k. */
  ghost function CallerAt(c: ArmCall, k: nat): Books
    requires ValidCall(c) && k <= |c.args|
  {
    if k == 0 then Start(c)
    else if InRegisters(c, k - 1) then CallerAt(c, k - 1)
    else
      ArgPlain(c, k - 1);
      CallerStep(CallerAt(c, k - 1), c.args[k - 1].size, c.args[k - 1].alignment, Codes(c.args)[k - 1].Vfp?).0
  }

  ghost function ClosureAt(c: ArmCall, k: nat): Books
    requires ValidCall(c) && k <= |c.args|
  {
    if k == 0 then Start(c)
    else if InRegisters(c, k - 1) then ClosureAt(c, k - 1)
    else
      ArgPlain(c, k - 1);
      ClosureStep(ClosureAt(c, k - 1), c.args[k - 1].size, c.args[k - 1].alignment, Codes(c.args)[k - 1].Vfp?).0
  }

  datatype Slot = InVfp(at: nat) | OnStack(at: nat)

  ghost function CallerSlot(c: ArmCall, k: nat): Slot
    requires ValidCall(c) && k < |c.args|
  {
    ArgPlain(c, k);
    var t := c.args[k];
    if InRegisters(c, k) then InVfp(4 * Placements(c)[VfpIndex(Codes(c.args), k)].reg)
    else OnStack(CallerStep(CallerAt(c, k), t.size, t.alignment, Codes(c.args)[k].Vfp?).1)
  }

  ghost function ClosureSlot(c: ArmCall, k: nat): Slot
    requires ValidCall(c) && k < |c.args|
  {
    ArgPlain(c, k);
    var t := c.args[k];
    if InRegisters(c, k) then InVfp(4 * Placements(c)[VfpIndex(Codes(c.args), k)].reg)
    else OnStack(ClosureStep(ClosureAt(c, k), t.size, t.alignment, Codes(c.args)[k].Vfp?).1)
  }

  lemma {:induction false} BooksAgree(c: ArmCall, k: nat)
    requires ValidCall(c) && k <= |c.args|
    ensures CallerOk(CallerAt(c, k)) && Agree(CallerAt(c, k), ClosureAt(c, k))
  {
    hide CallerStep, ClosureStep, InRegisters, Codes;
    if k > 0 {
      BooksAgree(c, k - 1);
      ArgPlain(c, k - 1);
      var t := c.args[k - 1];
      CallerKeeps(CallerAt(c, k - 1), t.size, t.alignment, Codes(c.args)[k - 1].Vfp?);
      StepAgrees(CallerAt(c, k - 1), ClosureAt(c, k - 1), t.size, t.alignment, Codes(c.args)[k - 1].Vfp?);
    }
  }

  /** The closure looks for every argument where the caller has put it. */
  lemma SlotsAgree(c: ArmCall, k: nat)
    requires ValidCall(c) && k < |c.args|
    ensures CallerSlot(c, k) == ClosureSlot(c, k)
  {
    hide CallerStep, ClosureStep, InRegisters, Codes;
    BooksAgree(c, k);
    ArgPlain(c, k);
    StepAgrees(CallerAt(c, k), ClosureAt(c, k), c.args[k].size, c.args[k].alignment, Codes(c.args)[k].Vfp?);
  }

  // No two arguments share a byte

  /** The bytes that ffi_put_arg writes for argument k. */
  ghost function SlotEnd(c: ArmCall, k: nat): nat
    requires ValidCall(c) && k < |c.args|
  {
    CallerSlot(c, k).at + Pad4(c.args[k].size)
  }

  /** A part of the stack that is behind the caller. */
  predicate Below(b: Books, at: nat, end: nat) {
    end <= b.regp || (end <= b.argp && (at >= CORE || b.done))
  }

  lemma StepBelow(b: Books, size: nat, a: nat, vfp: bool, at: nat, end: nat)
    requires CallerOk(b) && ArmAlign(a) && size > 0 && at < end && Below(b, at, end)
    ensures var (b', at') := CallerStep(b, size, a, vfp);
      Below(b', at, end) && (end <= at' || at' + Pad4(size) <= at)
  {
    hide Pad4, AlignPtr, Word;
    AlignIs(b.regp, a);
    AlignIs(b.argp, a);
    PadIs(size);
    PadSum(AlignPtr(b.regp, a), size);
    StepFacts(b.regp, b.regp, size, a);
  }

  lemma StepNew(b: Books, size: nat, a: nat, vfp: bool)
    requires CallerOk(b) && ArmAlign(a) && size > 0
    ensures var (b', at') := CallerStep(b, size, a, vfp);
      Below(b', at', at' + Pad4(size)) && at' < at' + Pad4(size)
  {
    hide Pad4, AlignPtr, Word;
    AlignIs(b.argp, a);
    PadIs(size);
  }

  lemma {:induction false} StackBelow(c: ArmCall, i: nat, k: nat)
    requires ValidCall(c) && i < k <= |c.args| && !InRegisters(c, i)
    ensures CallerSlot(c, i).at < SlotEnd(c, i) && Below(CallerAt(c, k), CallerSlot(c, i).at, SlotEnd(c, i))
    decreases k
  {
    hide CallerStep, Below, InRegisters, Codes, Pad4;
    BooksAgree(c, k - 1);
    ArgPlain(c, k - 1);
    var t := c.args[k - 1];
    if i == k - 1 {
      StepNew(CallerAt(c, i), t.size, t.alignment, Codes(c.args)[i].Vfp?);
    } else {
      StackBelow(c, i, k - 1);
      StepBelow(CallerAt(c, k - 1), t.size, t.alignment, Codes(c.args)[k - 1].Vfp?, CallerSlot(c, i).at, SlotEnd(c, i));
    }
  }

  lemma StackApart(c: ArmCall, i: nat, k: nat)
    requires ValidCall(c) && i < k < |c.args| && !InRegisters(c, i) && !InRegisters(c, k)
    ensures Apart(CallerSlot(c, i).at, SlotEnd(c, i), CallerSlot(c, k).at, SlotEnd(c, k))
  {
    hide CallerStep, Below, InRegisters, Codes, Pad4;
    StackBelow(c, i, k);
    BooksAgree(c, k);
    ArgPlain(c, k);
    var t := c.args[k];
    StepBelow(CallerAt(c, k), t.size, t.alignment, Codes(c.args)[k].Vfp?, CallerSlot(c, i).at, SlotEnd(c, i));
  }

  lemma HfaSize(t: Type)
    requires ArmType(t) && VfpType(t).Vfp?
    ensures IsCode(VfpType(t)) && t.size == 4 * Regs(VfpType(t))
  {
    hide SizeOf, AlignOf, VfpType;
    VfpTypeIs(t);
    var s := Scalars(t);
    UniformSize(t, s[0]);
    ArmTypeAligned(t);
  }

  lemma {:induction false} VfpIndexGrows(hs: seq<Hfa>, i: nat, k: nat)
    requires i < k <= |hs|
    ensures VfpIndex(hs, i) + (if hs[i].Vfp? then 1 else 0) <= VfpIndex(hs, k)
    decreases k
  {
    if i < k - 1 { VfpIndexGrows(hs, i, k - 1); }
  }

  lemma RunsApart(r1: nat, n1: nat, r2: nat, n2: nat)
    requires n1 > 0 && n2 > 0 && Run(r1, n1) !! Run(r2, n2)
    ensures r1 + n1 <= r2 || r2 + n2 <= r1
  {
    hide Run;
    assert r1 in Run(r1, n1) && r2 in Run(r2, n2);
    assert r2 in Run(r1, n1) <==> r1 <= r2 < r1 + n1;
    assert r1 in Run(r2, n2) <==> r2 <= r1 < r2 + n2;
  }

  /** An argument in registers has the lowest ones it could have, for all its bytes. */
  lemma RegisterSlot(c: ArmCall, k: nat)
    requires ValidCall(c) && k < |c.args| && InRegisters(c, k)
    ensures AllCodes(Codes(c.args)) && IsCode(Codes(c.args)[k])
    ensures var p := Placements(c)[VfpIndex(Codes(c.args), k)];
      && p.h == Codes(c.args)[k] && CallerSlot(c, k) == InVfp(4 * p.reg)
      && SlotEnd(c, k) == 4 * (p.reg + Regs(p.h)) <= 64
      && Lowest(Allocate(Codes(c.args), k).used, p.h, p.reg)
  {
    hide Run, VfpType, CallerStep, Pad4, Fits;
    CodesAre(c.args);
    assert c.args[k] in c.args;
    EntryIsLowest(Codes(c.args), k);
    HfaSize(c.args[k]);
    var p := Placements(c)[VfpIndex(Codes(c.args), k)];
    assert Fits(Allocate(Codes(c.args), k).used, p.h, p.reg);
    FitsEnds(Allocate(Codes(c.args), k).used, p.h, p.reg);
    FourPadded(Regs(p.h));
  }

  lemma FitsEnds(used: set<nat>, h: Hfa, reg: nat)
    requires IsCode(h) && Fits(used, h, reg)
    ensures reg + Regs(h) <= NREGS
  {
  }

  lemma FourPadded(n: nat)
    ensures Pad4(4 * n) == 4 * n
  {
  }

  lemma RegistersApart(c: ArmCall, i: nat, k: nat)
    requires ValidCall(c) && i < k < |c.args| && InRegisters(c, i) && InRegisters(c, k)
    ensures Apart(CallerSlot(c, i).at, SlotEnd(c, i), CallerSlot(c, k).at, SlotEnd(c, k))
  {
    hide Run, VfpType, CallerStep, Pad4, Fits, CallerSlot, SlotEnd, Lowest, Codes;
    var hs := Codes(c.args);
    RegisterSlot(c, i);
    RegisterSlot(c, k);
    VfpIndexGrows(hs, i, k);
    AllocationSound(hs, |c.args|);
    var p, q := Placements(c)[VfpIndex(hs, i)], Placements(c)[VfpIndex(hs, k)];
    assert RunOf(p) !! RunOf(q);
    RunsApart(p.reg, Regs(p.h), q.reg, Regs(q.h));
  }

  /** The slots of different arguments do not overlap. */
  lemma SlotsApart(c: ArmCall, i: nat, k: nat)
    requires ValidCall(c) && i < k < |c.args|
    ensures CallerSlot(c, i).InVfp? == CallerSlot(c, k).InVfp?
        ==> Apart(CallerSlot(c, i).at, SlotEnd(c, i), CallerSlot(c, k).at, SlotEnd(c, k))
  {
    if InRegisters(c, i) && InRegisters(c, k) {
      RegistersApart(c, i, k);
    } else if !InRegisters(c, i) && !InRegisters(c, k) {
      StackApart(c, i, k);
    }
  }
}
