/** Floating-point registers for the arguments of an ARM VFP call: place_vfp_arg and layout_vfp_args. */
module ArmRegs {
  import opened FfiTypes
  import opened ArmVfp

  const NREGS := 16

  predicate IsCode(h: Hfa) {
    h.Vfp? && Floating(h.code) && 0 < h.count <= 4
  }

  /** Doubles take two registers, of which the first is even. */
  function Align(h: Hfa): (a: nat)
    requires IsCode(h)
    ensures a == 1 || a == 2
  {
    if h.code == DOUBLE then 2 else 1
  }

  function Regs(h: Hfa): (n: nat)
    requires IsCode(h)
    ensures 0 < n <= 8
  {
    h.count * Align(h)
  }

  function Run(reg: nat, n: nat): (r: set<nat>)
    ensures forall s: nat :: s in r <==> reg <= s < reg + n
  {
    if n == 0 then {} else Run(reg, n - 1) + {reg + n - 1}
  }

  /** Registers that an argument could have. */
  predicate Fits(used: set<nat>, h: Hfa, reg: nat)
    requires IsCode(h)
  {
    reg % Align(h) == 0 && reg + Regs(h) <= NREGS && Run(reg, Regs(h)) !! used
  }

  /** The lowest ones, whether or not higher ones are in use (back-filling). */
  ghost predicate Lowest(used: set<nat>, h: Hfa, reg: nat)
    requires IsCode(h)
  {
    Fits(used, h, reg) && forall r :: 0 <= r < reg ==> !Fits(used, h, r)
  }

  ghost predicate NoneFits(used: set<nat>, h: Hfa)
    requires IsCode(h)
  {
    forall r: nat :: !Fits(used, h, r)
  }

  const ALL := Run(0, NREGS)

  predicate LeastUnused(used: set<nat>, reg: nat) {
    reg <= NREGS && reg !in used && forall s: nat :: s < reg ==> s in used
  }

  /** No run starts below the first register that is free. */
  lemma NoFitBelow(used: set<nat>, free: nat, h: Hfa, reg: nat)
    requires IsCode(h) && LeastUnused(used, free) && reg == if free % 2 == 1 && Align(h) == 2 then free + 1 else free
    ensures reg % Align(h) == 0 && forall r: nat :: r < reg ==> !Fits(used, h, r)
  {
    forall r: nat | r < free ensures !Fits(used, h, r) {
      assert r in used && r in Run(r, Regs(h));
    }
  }

  lemma NoFitBetween(used: set<nat>, h: Hfa, reg: nat)
    requires IsCode(h) && reg % Align(h) == 0 && !Fits(used, h, reg)
    ensures forall r: nat :: reg <= r < reg + Align(h) ==> !Fits(used, h, r)
  {
    hide Run;
    forall r: nat | reg <= r < reg + Align(h) ensures !Fits(used, h, r) {
      if r == reg + 1 { OddAfterEven(reg); }
    }
  }

  lemma NoFitAbove(used: set<nat>, h: Hfa, reg: nat)
    requires IsCode(h) && reg + Regs(h) > NREGS && forall r: nat :: r < reg ==> !Fits(used, h, r)
    ensures NoneFits(used, h)
  {
    hide Run;
  }

  lemma OddAfterEven(reg: nat)
    requires reg % 2 == 0
    ensures (reg + 1) % 2 != 0
  {
  }

  lemma {:induction false} RunSize(reg: nat, n: nat)
    ensures |Run(reg, n)| == n
  {
    if n > 0 {
      RunSize(reg, n - 1);
      assert reg + n - 1 !in Run(reg, n - 1);
    }
  }

  lemma SubsetSize(a: set<nat>, b: set<nat>)
    requires a <= b
    ensures |a| <= |b|
  {
    assert b == a + (b - a);
  }

  /** There are not more entries than registers. */
  lemma RoomForEntry(used: set<nat>, h: Hfa, reg: nat, nargs: nat)
    requires IsCode(h) && Fits(used, h, reg) && nargs <= |used| && used <= ALL
    ensures nargs < NREGS && nargs + 1 <= |used + Run(reg, Regs(h))| && used + Run(reg, Regs(h)) <= ALL
  {
    RunSize(reg, Regs(h));
    RunSize(0, NREGS);
    var now := used + Run(reg, Regs(h));
    assert |now| == |used| + Regs(h);
    SubsetSize(now, ALL);
  }

  /** The fields of ffi_cif for the VFP. */
  class VfpCif {
    const args: seq<Type>
    const vfpArgs: array<int>
    var vfpUsed: set<nat>
    var vfpRegFree: nat
    var vfpNargs: nat

    constructor (args: seq<Type>)
      ensures this.args == args && fresh(vfpArgs) && vfpArgs.Length == NREGS
    {
      this.args := args;
      vfpArgs := new int[NREGS];
      vfpUsed, vfpRegFree, vfpNargs := {}, 0, 0;
    }

    ghost predicate Valid()
      reads this
    {
      vfpArgs.Length == NREGS && vfpUsed <= ALL && LeastUnused(vfpUsed, vfpRegFree) && vfpNargs <= |vfpUsed|
    }

    method PlaceVfpArg(h: Hfa) returns (failed: bool)
      requires Valid() && IsCode(h)
      modifies this, vfpArgs
      ensures Valid()
      ensures failed <==> NoneFits(old(vfpUsed), h)
      ensures failed ==> vfpUsed == ALL && vfpNargs == old(vfpNargs) && vfpArgs[..] == old(vfpArgs[..])
      ensures !failed ==> old(vfpNargs) < NREGS && vfpNargs == old(vfpNargs) + 1
      ensures !failed ==> vfpArgs[old(vfpNargs)] >= 0
      ensures !failed ==> var reg := vfpArgs[old(vfpNargs)];
        && Lowest(old(vfpUsed), h, reg) && vfpUsed == old(vfpUsed) + Run(reg, Regs(h))
        && vfpArgs[..] == old(vfpArgs[..])[old(vfpNargs) := reg]
    {
      var found, reg := FindRun(h);
      if found {
        Take(h, reg);
        return false;
      }
      GiveUp();
      return true;
    }

    /** The search: from the lowest free register up. */
    method FindRun(h: Hfa) returns (found: bool, reg: nat)
      requires Valid() && IsCode(h)
      ensures found ==> Lowest(vfpUsed, h, reg)
      ensures !found ==> NoneFits(vfpUsed, h)
    {
      hide Run;
      reg := vfpRegFree;
      var align, nregs := Align(h), Regs(h);
      if reg % 2 == 1 && align == 2 {
        reg := reg + 1;
      }
      NoFitBelow(vfpUsed, vfpRegFree, h, reg);
      while reg + nregs <= NREGS
        invariant reg % align == 0
        invariant forall r: nat :: r < reg ==> !Fits(vfpUsed, h, r)
      {
        var free := AllFree(reg, nregs);
        if free {
          return true, reg;
        }
        NoFitBetween(vfpUsed, h, reg);
        reg := reg + align;
      }
      NoFitAbove(vfpUsed, h, reg);
      found := false;
    }

    method GiveUp()
      requires Valid()
      modifies `vfpUsed, `vfpRegFree
      ensures Valid() && vfpUsed == ALL && vfpRegFree == NREGS
    {
      SubsetSize(vfpUsed, ALL);
      vfpRegFree := NREGS;
      vfpUsed := ALL;
    }

    method AllFree(reg: nat, nregs: nat) returns (free: bool)
      ensures free <==> Run(reg, nregs) !! vfpUsed
    {
      for s := reg to reg + nregs
        invariant forall k: nat :: reg <= k < s ==> k !in vfpUsed
      {
        if s in vfpUsed {
          assert s in Run(reg, nregs);
          return false;
        }
      }
      return true;
    }

    method Take(h: Hfa, reg: nat)
      requires Valid() && IsCode(h) && Fits(vfpUsed, h, reg)
      modifies this, vfpArgs
      ensures Valid() && vfpUsed == old(vfpUsed) + Run(reg, Regs(h))
      ensures old(vfpNargs) < NREGS && vfpNargs == old(vfpNargs) + 1
      ensures vfpArgs[..] == old(vfpArgs[..])[old(vfpNargs) := reg]
    {
      hide Run;
      var nregs := Regs(h);
      RoomForEntry(vfpUsed, h, reg, vfpNargs);
      vfpUsed := vfpUsed + Run(reg, nregs);
      vfpArgs[vfpNargs] := reg;
      vfpNargs := vfpNargs + 1;
      if vfpRegFree in vfpUsed {
        var free := reg + nregs;
        while free in vfpUsed
          invariant free <= NREGS && forall k: nat :: k < free ==> k in vfpUsed
          decreases NREGS - free
        {
          free := free + 1;
        }
        vfpRegFree := free;
      }
    }

    /** layout_vfp_args: stops at the first argument that finds no registers. */
    method LayoutVfpArgs()
      requires vfpArgs.Length == NREGS && ArmTypes(args)
      modifies this, vfpArgs
      ensures Valid() && AllCodes(Codes(args)) && Shows(Allocate(Codes(args), |args|))
    {
      hide Run, Next, LeastUnused, ArmTypes, AllCodes, VfpType;
      CodesAre(args);
      ghost var hs := Codes(args);
      Start();
      var i := 0;
      while i < |args|
        invariant i <= |args| && Valid() && Shows(Allocate(hs, i)) && !Allocate(hs, i).stopped
      {
        var h := VfpType(args[i]);
        CodeAt(hs, i);
        var failed := LayoutOne(h, Allocate(hs, i));
        if failed {
          StoppedStays(hs, i + 1, |args|);
          break;
        }
        i := i + 1;
      }
    }

    method LayoutOne(h: Hfa, ghost a: Allocation) returns (failed: bool)
      requires Valid() && Shows(a) && !a.stopped && (h.Vfp? ==> IsCode(h))
      modifies this, vfpArgs
      ensures Valid() && Shows(Next(a, h)) && failed == Next(a, h).stopped
    {
      hide Run, Next, LeastUnused, Lowest, NoneFits;
      failed := false;
      if h.Vfp? {
        NextIs(a, h);
        failed := PlaceVfpArg(h);
      } else {
        NextNone(a, h);
      }
    }

    method Start()
      requires vfpArgs.Length == NREGS
      modifies this, vfpArgs
      ensures Valid() && Shows(Allocation({}, [], false))
    {
      vfpUsed, vfpNargs, vfpRegFree := {}, 0, 0;
      for i := 0 to NREGS
        invariant vfpNargs == 0 && vfpUsed == {} && vfpRegFree == 0 && forall j :: 0 <= j < i ==> vfpArgs[j] == -1
      {
        vfpArgs[i] := -1;
      }
    }

    /** The fields say what the allocation is; entries that are not in use are -1. */
    ghost predicate Shows(a: Allocation)
      reads this, vfpArgs
    {
      && vfpUsed == a.used && vfpNargs == |a.placed| <= vfpArgs.Length
      && (forall i :: 0 <= i < vfpNargs ==> vfpArgs[i] == a.placed[i].reg)
      && (forall i :: vfpNargs <= i < vfpArgs.Length ==> vfpArgs[i] == -1)
    }
  }

  predicate ArmTypes(ts: seq<Type>) {
    forall t :: t in ts ==> ArmType(t)
  }

  function Codes(ts: seq<Type>): (hs: seq<Hfa>)
    requires ArmTypes(ts)
    ensures |hs| == |ts| && forall i :: 0 <= i < |ts| ==> ArmType(ts[i]) && hs[i] == VfpType(ts[i])
  {
    if ts == [] then [] else
      assert ts[0] in ts;
      [VfpType(ts[0])] + Codes(ts[1..])
  }

  lemma CodesAre(ts: seq<Type>)
    requires ArmTypes(ts)
    ensures AllCodes(Codes(ts))
  {
    hide VfpType, Scalars;
    var hs := Codes(ts);
    forall h | h in hs && h.Vfp? ensures IsCode(h) {
      var i :| 0 <= i < |hs| && hs[i] == h;
      VfpTypeIs(ts[i]);
    }
  }

  // The allocation as a whole

  datatype Placed = Placed(reg: nat, h: Hfa)

  /** Registers in use, who has them, and whether an argument has found none. */
  datatype Allocation = Allocation(used: set<nat>, placed: seq<Placed>, stopped: bool)

  function LowestReg(used: set<nat>, h: Hfa, from: nat): (r: nat)
    requires IsCode(h) && from <= NREGS && exists reg :: from <= reg && Fits(used, h, reg)
    ensures from <= r && Fits(used, h, r) && forall k: nat :: from <= k < r ==> !Fits(used, h, k)
    decreases NREGS - from
  {
    if Fits(used, h, from) then from else LowestReg(used, h, from + 1)
  }

  /** One argument more. */
  ghost function Next(a: Allocation, h: Hfa): Allocation
    requires h.Vfp? ==> IsCode(h)
  {
    if h.NotVfp? || a.stopped then a
    else if NoneFits(a.used, h) then Allocation(ALL, a.placed, true)
    else
      var reg := LowestReg(a.used, h, 0);
      Allocation(a.used + Run(reg, Regs(h)), a.placed + [Placed(reg, h)], false)
  }

  predicate AllCodes(hs: seq<Hfa>) {
    forall h :: h in hs && h.Vfp? ==> IsCode(h)
  }

  ghost function Allocate(hs: seq<Hfa>, k: nat): Allocation
    requires AllCodes(hs) && k <= |hs|
  {
    if k == 0 then Allocation({}, [], false) else
      assert hs[k - 1] in hs;
      Next(Allocate(hs, k - 1), hs[k - 1])
  }

  /** Nobody has a register of somebody else, and all registers are within s0 to s15. */
  ghost predicate WellPlaced(a: Allocation) {
    && a.used <= ALL && |a.placed| <= |a.used|
    && (forall i :: 0 <= i < |a.placed| ==> IsCode(a.placed[i].h) && RunOf(a.placed[i]) <= a.used)
    && (forall i :: 0 <= i < |a.placed| ==> a.placed[i].reg % Align(a.placed[i].h) == 0)
    && (forall i, j :: 0 <= i < j < |a.placed| ==> RunOf(a.placed[i]) !! RunOf(a.placed[j]))
  }

  function RunOf(p: Placed): set<nat> {
    if IsCode(p.h) then Run(p.reg, Regs(p.h)) else {}
  }

  lemma {:induction false} AllocationSound(hs: seq<Hfa>, k: nat)
    requires AllCodes(hs) && k <= |hs|
    ensures WellPlaced(Allocate(hs, k)) && |Allocate(hs, k).placed| <= NREGS
  {
    hide Next, Run, NoneFits, AllCodes;
    RunSize(0, NREGS);
    if k > 0 {
      AllocationSound(hs, k - 1);
      CodeAt(hs, k - 1);
      NextSound(Allocate(hs, k - 1), hs[k - 1]);
    }
    SubsetSize(Allocate(hs, k).used, ALL);
  }

  lemma NextSound(a: Allocation, h: Hfa)
    requires WellPlaced(a) && (h.Vfp? ==> IsCode(h))
    ensures WellPlaced(Next(a, h))
  {
    hide Run;
    if h.Vfp? && !a.stopped {
      if NoneFits(a.used, h) {
        SubsetSize(a.used, ALL);
      } else {
        var reg := LowestReg(a.used, h, 0);
        SubsetSize(a.used, a.used + Run(reg, Regs(h)));
        RoomForEntry(a.used, h, reg, |a.placed|);
      }
    }
  }

  lemma CodeAt(hs: seq<Hfa>, i: nat)
    requires AllCodes(hs) && i < |hs|
    ensures (hs[i].Vfp? ==> IsCode(hs[i])) && Allocate(hs, i + 1) == Next(Allocate(hs, i), hs[i])
  {
    hide Next;
    assert hs[i] in hs;
  }

  lemma NextIs(a: Allocation, h: Hfa)
    requires IsCode(h) && !a.stopped
    ensures NoneFits(a.used, h) ==> Next(a, h) == Allocation(ALL, a.placed, true)
    ensures forall reg: nat :: Lowest(a.used, h, reg) ==>
      Next(a, h) == Allocation(a.used + Run(reg, Regs(h)), a.placed + [Placed(reg, h)], false)
  {
    hide Run, Fits;
    forall reg: nat | Lowest(a.used, h, reg)
      ensures Next(a, h) == Allocation(a.used + Run(reg, Regs(h)), a.placed + [Placed(reg, h)], false)
    {
      assert Fits(a.used, h, reg);
    }
  }

  lemma NextNone(a: Allocation, h: Hfa)
    requires h.NotVfp?
    ensures Next(a, h) == a
  {
  }

  /** After the first failure nothing more is placed. */
  lemma {:induction false} StoppedStays(hs: seq<Hfa>, i: nat, k: nat)
    requires AllCodes(hs) && i <= k <= |hs| && Allocate(hs, i).stopped
    ensures Allocate(hs, k) == Allocate(hs, i)
    decreases k
  {
    if i < k { StoppedStays(hs, i, k - 1); }
  }

  /** The number of arguments for floating-point registers before argument k, which both sides count as vi. */
  function VfpIndex(hs: seq<Hfa>, k: nat): nat
    requires k <= |hs|
  {
    if k == 0 then 0 else VfpIndex(hs, k - 1) + if hs[k - 1].Vfp? then 1 else 0
  }

  lemma {:induction false} PlacedCount(hs: seq<Hfa>, k: nat)
    requires AllCodes(hs) && k <= |hs|
    ensures var a := Allocate(hs, k); if a.stopped then |a.placed| < VfpIndex(hs, k) else |a.placed| == VfpIndex(hs, k)
  {
    hide NoneFits, Run;
    if k > 0 { PlacedCount(hs, k - 1); }
  }

  lemma {:induction false} PlacedGrows(hs: seq<Hfa>, k: nat, n: nat)
    requires AllCodes(hs) && k <= n <= |hs|
    ensures Allocate(hs, k).placed <= Allocate(hs, n).placed
    decreases n
  {
    hide NoneFits, Run;
    if k < n { PlacedGrows(hs, k, n - 1); }
  }

  /** The entry that both sides read for an argument, if there is one, is the lowest run that was free when it was the
      argument's turn; and there is none only if then no run was free, or an argument before had found none. */
  lemma EntryIsLowest(hs: seq<Hfa>, k: nat)
    requires AllCodes(hs) && k < |hs| && hs[k].Vfp?
    ensures hs[k] in hs
    ensures var all, before, vi := Allocate(hs, |hs|).placed, Allocate(hs, k), VfpIndex(hs, k);
      if before.stopped || NoneFits(before.used, hs[k]) then |all| <= vi
      else vi < |all| && all[vi].h == hs[k] && Lowest(before.used, hs[k], all[vi].reg)
  {
    hide Run, Fits;
    assert hs[k] in hs;
    var before, after := Allocate(hs, k), Allocate(hs, k + 1);
    PlacedCount(hs, k);
    PlacedCount(hs, k + 1);
    PlacedGrows(hs, k + 1, |hs|);
    if after.stopped {
      StoppedStays(hs, k + 1, |hs|);
    } else {
      var vi := VfpIndex(hs, k);
      assert after.placed[vi] == Allocate(hs, |hs|).placed[vi];
    }
  }
}
