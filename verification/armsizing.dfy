/** cif->bytes is enough for what the caller of an ARM VFP call puts on the stack. */
module ArmSizing {
  import opened FfiTypes
  import opened ArmVfp
  import opened ArmRegs
  import opened ArmArgs
  import opened ArmCalls

  /** The sizing loop of ffi_prep_cif_core: all arguments one after the other, wherever they will go. */
  function BytesAt(c: ArmCall, k: nat): nat
    requires ValidCall(c) && k <= |c.args|
  {
    if k == 0 then if c.rtype.code == STRUCT then 4 else 0
    else
      ArgPlain(c, k - 1);
      AlignUp(BytesAt(c, k - 1), c.args[k - 1].alignment) + AlignUp(c.args[k - 1].size, 4)
  }

  /** What ffi_prep_cif_machdep makes of it. */
  function Bytes(c: ArmCall): nat
    requires ValidCall(c)
  {
    var bytes := AlignUp(BytesAt(c, |c.args|) + (if StructReturn(c) then 4 else 0), 8);
    if bytes < CORE then CORE else bytes
  }

  /** Both roundings are the same on multiples of four. */
  lemma AlignsAlike(x: nat, a: nat, n: nat)
    requires ArmAlign(a) && Word(x)
    ensures AlignUp(x, a) == AlignPtr(x, a) && AlignUp(n, 4) == Pad4(n)
  {
    if a == 2 { ModUnique(x, 2 * (x / 4), 0, 2); }
  }

  lemma AlignMonotone(x: nat, y: nat, a: nat)
    requires ArmAlign(a) && x <= y
    ensures AlignPtr(x, a) <= AlignPtr(y, a)
  {
    hide Pad4, Pad8;
    PadShape(x);
    PadShape(y);
    MulLe(x / 8, y / 8, 8);
  }

  // Registers are filled from below

  /** Twice as many registers as are in use are enough for all of them. */
  predicate Low(used: set<nat>) {
    used <= ALL && forall s: nat :: s >= 2 * |used| ==> s !in used
  }

  lemma FitsAtTop(used: set<nat>, h: Hfa)
    requires IsCode(h) && Low(used) && 2 * |used| + Regs(h) <= NREGS
    ensures Fits(used, h, 2 * |used|)
  {
    hide Run;
  }

  lemma StaysLow(a: Allocation, h: Hfa)
    requires WellPlaced(a) && Low(a.used) && !a.stopped && (h.Vfp? ==> IsCode(h))
    ensures Next(a, h).stopped ==> |a.used| >= 5
    ensures !Next(a, h).stopped ==>
      Low(Next(a, h).used) && |Next(a, h).used| == |a.used| + if h.Vfp? then Regs(h) else 0
  {
    hide Run, Fits;
    if h.Vfp? {
      if 2 * |a.used| + Regs(h) <= NREGS { FitsAtTop(a.used, h); }
      if !NoneFits(a.used, h) {
        var reg := LowestReg(a.used, h, 0);
        RunSize(reg, Regs(h));
        FitsApart(a.used, h, reg);
        assert |a.used + Run(reg, Regs(h))| == |a.used| + Regs(h);
      }
    }
  }

  lemma FitsApart(used: set<nat>, h: Hfa, reg: nat)
    requires IsCode(h) && Fits(used, h, reg)
    ensures Run(reg, Regs(h)) !! used && reg + Regs(h) <= NREGS && Run(reg, Regs(h)) <= ALL
  {
  }

  /** How far the caller has come. */
  function Cur(b: Books): nat {
    if b.done || b.stackUsed then b.argp else b.regp
  }

  /** The sizing loop is at least as far as the caller; and if the caller has not yet run out of floating-point
      registers, it has counted them. */
  ghost predicate Ahead(c: ArmCall, k: nat)
    requires ValidCall(c) && k <= |c.args|
  {
    CodesAre(c.args);
    var a := Allocate(Codes(c.args), k);
    && Word(BytesAt(c, k)) && Cur(CallerAt(c, k)) <= BytesAt(c, k)
    && (if a.stopped then BytesAt(c, k) >= 20 else Low(a.used) && 4 * |a.used| <= BytesAt(c, k))
  }

  lemma SizingStep(c: ArmCall, k: nat)
    requires ValidCall(c) && k < |c.args| && Word(BytesAt(c, k))
    ensures Plain(c.args[k])
    ensures BytesAt(c, k + 1) == AlignPtr(BytesAt(c, k), c.args[k].alignment) + Pad4(c.args[k].size)
    ensures Word(BytesAt(c, k + 1)) && BytesAt(c, k + 1) >= BytesAt(c, k) + c.args[k].size
  {
    hide Pad4, Pad8, AlignUp;
    ArgPlain(c, k);
    var t := c.args[k];
    AlignsAlike(BytesAt(c, k), t.alignment, t.size);
    AlignIs(BytesAt(c, k), t.alignment);
    PadSum(AlignPtr(BytesAt(c, k), t.alignment), t.size);
    PadIs(t.size);
  }

  /** An argument on the stack; when it is the first one that found no registers, all those have been counted. */
  lemma CallerStaysBehind(b: Books, size: nat, a: nat, vfp: bool, bytes: nat)
    requires CallerOk(b) && ArmAlign(a) && size > 0 && Cur(b) <= bytes && (vfp ==> bytes >= 16)
    requires b.stackUsed && !b.done ==> bytes >= b.argp
    ensures Cur(CallerStep(b, size, a, vfp).0) <= AlignPtr(bytes, a) + Pad4(size)
  {
    hide Pad4, Pad8, AlignPtr, Word;
    AlignMonotone(Cur(b), bytes, a);
    AlignIs(bytes, a);
    AlignIs(b.argp, a);
    AlignIs(b.regp, a);
    AlignMonotone(b.regp, b.argp, a);
    if vfp { AlignMonotone(CORE, bytes, a); }
    PadIs(size);
    StepFacts(b.regp, b.regp, size, a);
  }

  lemma WhereItGoes(c: ArmCall, k: nat)
    requires ValidCall(c) && k < |c.args|
    ensures AllCodes(Codes(c.args))
    ensures Allocate(Codes(c.args), k + 1) == Next(Allocate(Codes(c.args), k), Codes(c.args)[k])
    ensures InRegisters(c, k) <==> Codes(c.args)[k].Vfp? && !Allocate(Codes(c.args), k + 1).stopped
  {
    hide VfpType, Run, Fits;
    CodesAre(c.args);
    var hs := Codes(c.args);
    CodeAt(hs, k);
    if hs[k].Vfp? {
      EntryIsLowest(hs, k);
    }
  }

  /** What the registers of argument k add. */
  lemma RegistersCounted(c: ArmCall, k: nat)
    requires ValidCall(c) && k < |c.args| && AllCodes(Codes(c.args))
    requires var a := Allocate(Codes(c.args), k); !a.stopped ==> Low(a.used)
    ensures var hs, t := Codes(c.args), c.args[k];
      var a, a' := Allocate(hs, k), Allocate(hs, k + 1);
      && (a.stopped ==> a'.stopped) && (a'.stopped && !a.stopped ==> |a.used| >= 5)
      && (!a'.stopped ==> Low(a'.used) && 4 * |a'.used| <= 4 * |a.used| + t.size && (hs[k].NotVfp? ==> a' == a))
  {
    hide VfpType, Run, Fits, Next, Low, AllCodes, WellPlaced, Codes, Allocate;
    var hs, t := Codes(c.args), c.args[k];
    var a := Allocate(hs, k);
    CodeAt(hs, k);
    AllocationSound(hs, k);
    if a.stopped {
      StoppedStays(hs, k, k + 1);
    } else {
      StaysLow(a, hs[k]);
      if hs[k].Vfp? {
        assert t in c.args;
        HfaSize(t);
      } else {
        NextNone(a, hs[k]);
      }
    }
  }

  lemma AheadStep(c: ArmCall, k: nat)
    requires ValidCall(c) && k < |c.args| && Ahead(c, k)
    ensures Ahead(c, k + 1)
  {
    hide VfpType, Run, Fits, Next, Allocate, BytesAt, Low, CallerStep, AlignPtr, Pad4, Word, InRegisters, AllCodes;
    WhereItGoes(c, k);
    SizingStep(c, k);
    BooksAgree(c, k);
    var hs, t := Codes(c.args), c.args[k];
    RegistersCounted(c, k);
    if !InRegisters(c, k) {
      CallerStaysBehind(CallerAt(c, k), t.size, t.alignment, hs[k].Vfp?, BytesAt(c, k));
    }
    AlignIs(BytesAt(c, k), t.alignment);
    PadIs(t.size);
  }

  lemma {:induction false} SizingAhead(c: ArmCall, k: nat)
    requires ValidCall(c) && k <= |c.args|
    ensures Ahead(c, k)
  {
    hide Ahead;
    if k == 0 {
      AheadAtStart(c);
    } else {
      SizingAhead(c, k - 1);
      AheadStep(c, k - 1);
    }
  }

  /** A complex result is never returned in memory. */
  lemma AheadAtStart(c: ArmCall)
    requires ValidCall(c)
    ensures Ahead(c, 0)
  {
    hide Run;
    CodesAre(c.args);
  }

  /** So nothing is written outside the stack area of the call. */
  lemma StackSuffices(c: ArmCall)
    requires ValidCall(c)
    ensures CORE <= CallerAt(c, |c.args|).argp <= Bytes(c) && CallerAt(c, |c.args|).regp <= Bytes(c)
  {
    hide CallerAt, BytesAt, AlignUp, Allocate;
    SizingAhead(c, |c.args|);
    BooksAgree(c, |c.args|);
  }
}
