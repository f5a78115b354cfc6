/** Core registers and stack of an ARM VFP call: ffi_prep_args_VFP and ffi_prep_incoming_args_VFP keep different
    books. */
module ArmArgs {
  import opened FfiTypes

  /** The end of the area for r0 to r3, with which the stack begins. */
  const CORE := 16

  /** regp and argp, as offsets from the stack pointer, which is a multiple of 8; stack_used and done_with_regs. */
  datatype Books = Books(regp: nat, argp: nat, stackUsed: bool, done: bool)

  predicate ArmAlign(a: nat) {
    a == 1 || a == 2 || a == 4 || a == 8
  }

  predicate Word(x: nat) {
    x % 4 == 0
  }

  function Pad8(n: nat): nat {
    if n % 8 == 0 then n else n - n % 8 + 8
  }

  /** ffi_align. */
  function AlignPtr(p: nat, a: nat): nat
    requires ArmAlign(a)
  {
    if a == 8 then Pad8(p) else Pad4(p)
  }

  /** What ffi_put_arg reports to have used. */
  function Pad4(n: nat): nat {
    if n % 4 == 0 then n else n - n % 4 + 4
  }

  function Widen(n: nat): nat {
    if n < 4 then 4 else n
  }

  /** Where the caller puts an argument that has no floating-point registers, and its books afterwards. */
  function CallerStep(b: Books, size: nat, a: nat, vfp: bool): (Books, nat)
    requires ArmAlign(a)
  {
    var tregp := AlignPtr(b.regp, a);
    if !b.done && !vfp && tregp + Widen(size) <= CORE then
      var regp := tregp + Pad4(size);
      (b.(regp := regp, done := regp == b.argp), tregp)
    else if !b.done && !vfp && !b.stackUsed then
      (b.(argp := tregp + Pad4(size), stackUsed := true, done := true), tregp)
    else
      var at := AlignPtr(b.argp, a);
      (b.(argp := at + Pad4(size), stackUsed := true), at)
  }

  /** Where the closure looks for it. */
  function ClosureStep(b: Books, size: nat, a: nat, vfp: bool): (Books, nat)
    requires ArmAlign(a)
  {
    var tregp := AlignPtr(b.regp, a);
    var core := !b.done && !vfp;
    var z := if core then Widen(size) else size;
    if core && (tregp + z <= CORE || !b.stackUsed) then
      var regp := tregp + z;
      (Books(regp, if regp > CORE then regp else b.argp, b.stackUsed || regp >= CORE, b.done || regp >= CORE), tregp)
    else
      var at := AlignPtr(b.argp, a);
      (b.(argp := at + z, stackUsed := true), at)
  }

  /** What the caller's books keep. */
  predicate CallerOk(b: Books) {
    && Word(b.regp) && b.regp <= CORE && Word(b.argp) && b.argp >= CORE
    && (!b.stackUsed ==> b.argp == CORE) && (b.regp == CORE && !b.stackUsed ==> b.done)
  }

  /** How the closure's books go with the caller's.  It does not round its pointers up; it finds out that the
      registers are used up one argument later, or earlier when the stack has been in use. */
  predicate Agree(c: Books, d: Books) {
    && Pad4(d.argp) == c.argp && d.argp >= CORE
    && (if !c.done && c.regp < CORE then !d.done && Pad4(d.regp) == c.regp && d.stackUsed == c.stackUsed
        else d.done || (d.regp <= CORE && Pad4(d.regp) == CORE && d.stackUsed == c.stackUsed))
    && (!d.stackUsed ==> d.argp == CORE)
  }

  lemma Mod4(x: nat)
    ensures x % 4 == if x % 8 >= 4 then x % 8 - 4 else x % 8
  {
    var k, r := x / 8, x % 8;
    if r >= 4 { ModUnique(x, 2 * k + 1, r - 4, 4); } else { ModUnique(x, 2 * k, r, 4); }
  }

  /** Rounding up, by the remainder. */
  lemma PadShape(x: nat)
    ensures var b, r := x - x % 8, x % 8;
      && Pad8(x) == (if r == 0 then b else b + 8) && Pad4(x) == if r == 0 then b else if r <= 4 then b + 4 else b + 8
    ensures Pad8(x) % 8 == 0 && Pad4(x) % 8 == (if 0 < x % 8 <= 4 then 4 else 0)
  {
    Mod4(x);
    var k := x / 8;
    ModUnique(8 * k, k, 0, 8);
    ModUnique(8 * k + 4, k, 4, 8);
    ModUnique(8 * k + 8, k + 1, 0, 8);
  }

  lemma AlignPadded(x: nat, a: nat)
    requires ArmAlign(a)
    ensures AlignPtr(Pad4(x), a) == AlignPtr(x, a)
  {
    hide Pad4, Pad8;
    PadShape(x);
    PadShape(Pad4(x));
  }

  lemma AlignIs(p: nat, a: nat)
    requires ArmAlign(a)
    ensures p <= AlignPtr(p, a) && Word(AlignPtr(p, a)) && (p <= CORE ==> AlignPtr(p, a) <= CORE)
    ensures Word(p) && a != 8 ==> AlignPtr(p, a) == p
  {
    hide Pad4, Pad8;
    PadShape(p);
    Mod4(p);
    Mod4(AlignPtr(p, a));
    Small(p);
  }

  lemma Small(p: nat)
    ensures p <= CORE ==> p - p % 8 <= 8 || (p == 16 && p % 8 == 0)
  {
    if 8 <= p < 16 { ModUnique(p, 1, p - 8, 8); }
  }

  /** At most three bytes more. */
  lemma PadIs(n: nat)
    ensures n <= Pad4(n) && Word(Pad4(n)) && (n > 0 ==> Widen(n) <= Pad4(n)) && (n >= 4 ==> Widen(n) == n)
    ensures Pad4(n) <= CORE <==> n <= CORE
    ensures Pad4(Widen(n)) == if n == 0 then 4 else Pad4(n)
  {
    Small4(n);
  }

  lemma Small4(n: nat)
    ensures n <= CORE ==> n - n % 4 <= 12 || (n == 16 && n % 4 == 0)
    ensures 0 < n < 4 ==> n % 4 == n
  {
  }

  lemma PadSum(x: nat, n: nat)
    requires Word(x)
    ensures Pad4(x + n) == x + Pad4(n) && (Word(n) ==> Word(x + n)) && Word(x + Pad4(n))
  {
    var i, k, r := x / 4, n / 4, n % 4;
    ModUnique(x + n, i + k, r, 4);
    ModUnique(x + 4 * k, i + k, 0, 4);
    ModUnique(x + 4 * k + 4, i + k + 1, 0, 4);
  }

  lemma CallerKeeps(b: Books, size: nat, a: nat, vfp: bool)
    requires CallerOk(b) && ArmAlign(a) && size > 0
    ensures CallerOk(CallerStep(b, size, a, vfp).0)
    ensures b.argp <= CallerStep(b, size, a, vfp).0.argp && b.regp <= CallerStep(b, size, a, vfp).0.regp
  {
    hide AlignPtr, Pad4, Word;
    AlignIs(b.regp, a);
    AlignIs(b.argp, a);
    PadIs(size);
    PadSum(AlignPtr(b.regp, a), size);
    PadSum(AlignPtr(b.argp, a), size);
    PadIs(AlignPtr(b.regp, a) + size);
  }

  /** Both sides come to the same address, and stay in agreement. */
  lemma StepAgrees(c: Books, d: Books, size: nat, a: nat, vfp: bool)
    requires CallerOk(c) && Agree(c, d) && ArmAlign(a) && size > 0
    ensures CallerStep(c, size, a, vfp).1 == ClosureStep(d, size, a, vfp).1
    ensures Agree(CallerStep(c, size, a, vfp).0, ClosureStep(d, size, a, vfp).0)
  {
    hide AlignPtr, Pad4, Word;
    StepFacts(c.regp, d.regp, size, a);
    StepFacts(c.argp, d.argp, size, a);
    StepFacts(CORE, d.regp, size, a);
  }

  /** A pointer and the same one rounded up are aligned alike, and advance alike. */
  lemma StepFacts(p: nat, q: nat, size: nat, a: nat)
    requires ArmAlign(a) && size > 0
    ensures Pad4(q) == p ==> AlignPtr(p, a) == AlignPtr(q, a)
    ensures var at := AlignPtr(q, a);
      && Pad4(at + size) == at + Pad4(size) == Pad4(at + Widen(size))
      && (at + Widen(size) <= CORE <==> at + Pad4(size) <= CORE)
      && (at + Widen(size) >= CORE ==> at + Pad4(size) >= CORE) && p <= AlignPtr(p, a) && AlignPtr(CORE, a) == CORE
  {
    hide AlignPtr, Pad4, Word;
    AlignPadded(q, a);
    AlignIs(q, a);
    AlignIs(p, a);
    AlignIs(CORE, a);
    PadIs(size);
    var at := AlignPtr(q, a);
    PadSum(at, size);
    PadSum(at, Widen(size));
    PadIs(at + Widen(size));
    PadIs(at + size);
  }
}
