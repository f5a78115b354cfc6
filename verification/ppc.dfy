/** PowerPC SYSV: the sizing pass, the caller and the closure each keep their own counts of registers and stack words.
    */
module PpcSysv {
  import opened FfiTypes

  const GPRS := 8
  const FPRS := 8
  const UINT128 := 15

  /** The bits of the ABI number. */
  datatype Abi = Abi(softFloat: bool, structRet: bool, ibmLongDouble: bool, longDouble128: bool)

  /** translate_float. */
  function TranslateFloat(abi: Abi, code: int): int {
    var t := if code == LONGDOUBLE && !abi.longDouble128 then DOUBLE else code;
    if abi.softFloat then
      if t == FLOAT then UINT32 else if t == DOUBLE then UINT64 else if t == LONGDOUBLE then UINT128 else t
    else if !abi.ibmLongDouble && t == LONGDOUBLE then STRUCT
    else t
  }

  /** The cases of the three switches. */
  datatype Kind = LongDoubles | Doubles | Floats | Quad | Pair | ByCopy | Single | Unknown

  function KindOf(code: int): Kind {
    if code == LONGDOUBLE then LongDoubles
    else if code == DOUBLE then Doubles
    else if code == FLOAT then Floats
    else if code == UINT128 then Quad
    else if code == UINT64 || code == SINT64 then Pair
    else if code == STRUCT then ByCopy
    else if UINT8 <= code <= SINT32 || code == DATA_PTR then Single
    else Unknown
  }

  predicate Floating(k: Kind) {
    k.LongDoubles? || k.Doubles? || k.Floats?
  }

  /** Without floating-point registers no argument is treated as floating-point. */
  lemma SoftFloatHasNone(abi: Abi, code: int)
    requires abi.softFloat
    ensures !Floating(KindOf(TranslateFloat(abi, code)))
  {
  }

  /** fpr_count, gpr_count and stack_count. */
  datatype Counts = Counts(fpr: nat, gpr: nat, stack: nat)

  function Even(n: nat): (r: nat)
    ensures n <= r <= n + 1 && r % 2 == 0 && (n % 2 == 0 ==> r == n)
  {
    n + n % 2
  }

  /** ffi_prep_cif_sysv_core. */
  function SizingStep(c: Counts, k: Kind): Counts {
    match k
    case LongDoubles => if c.fpr >= FPRS - 1 then c.(fpr := FPRS, stack := Even(c.stack) + 4) else c.(fpr := c.fpr + 2)
    case Doubles => if c.fpr >= FPRS then c.(stack := Even(c.stack) + 2) else c.(fpr := c.fpr + 1)
    case Floats => if c.fpr >= FPRS then c.(stack := c.stack + 1) else c.(fpr := c.fpr + 1)
    case Quad =>
      var g := if c.gpr >= GPRS - 3 then GPRS else c.gpr;
      if g >= GPRS then c.(gpr := g, stack := c.stack + 4) else c.(gpr := g + 4)
    case Pair =>
      var g := Even(c.gpr);
      if g >= GPRS then c.(gpr := g, stack := Even(c.stack) + 2) else c.(gpr := g + 2)
    case ByCopy => if c.gpr >= GPRS then c.(stack := c.stack + 1) else c.(gpr := c.gpr + 1)
    case Single => if c.gpr >= GPRS then c.(stack := c.stack + 1) else c.(gpr := c.gpr + 1)
    case Unknown => c
  }

  datatype Place = Fpr(i: nat) | Gpr(i: nat) | Mem(i: nat)

  /** ffi_prep_args_SYSV: registers as far as fpr_base and gpr_base have come, words as far as next_arg has. */
  function CallerStep(c: Counts, k: Kind): (Counts, Place) {
    match k
    case LongDoubles =>
      if c.fpr >= FPRS - 1 then (c.(fpr := FPRS, stack := Even(c.stack) + 4), Mem(Even(c.stack)))
        else (c.(fpr := c.fpr + 2), Fpr(c.fpr))
    case Doubles => if c.fpr >= FPRS then (c.(stack := Even(c.stack) + 2), Mem(Even(c.stack)))
      else (c.(fpr := c.fpr + 1), Fpr(c.fpr))
    case Floats => if c.fpr >= FPRS then (c.(stack := c.stack + 1), Mem(c.stack))
      else (c.(fpr := c.fpr + 1), Fpr(c.fpr))
    case Quad =>
      if c.gpr >= GPRS - 3 then (c.(gpr := GPRS, stack := c.stack + 4), Mem(c.stack))
        else (c.(gpr := c.gpr + 4), Gpr(c.gpr))
    case Pair =>
      if c.gpr >= GPRS - 1 then (c.(gpr := GPRS, stack := Even(c.stack) + 2), Mem(Even(c.stack)))
      else
        var g := if (GPRS - c.gpr) % 2 != 0 then c.gpr + 1 else c.gpr;
        (c.(gpr := g + 2), Gpr(g))
    case ByCopy => if c.gpr >= GPRS then (c.(stack := c.stack + 1), Mem(c.stack))
      else (c.(gpr := c.gpr + 1), Gpr(c.gpr))
    case Single => if c.gpr >= GPRS then (c.(stack := c.stack + 1), Mem(c.stack))
      else (c.(gpr := c.gpr + 1), Gpr(c.gpr))
    case Unknown => (c, Mem(c.stack))
  }

  /** nf, ng, and how far pfr, pgr and pst have come. */
  datatype Closure = Closure(nf: nat, ng: nat, pfr: nat, pgr: nat, pst: nat)

  /** ffi_closure_helper_SYSV. */
  function ClosureStep(c: Closure, k: Kind): (Closure, Place) {
    match k
    case Floats => if c.nf < FPRS then (c.(nf := c.nf + 1, pfr := c.pfr + 1), Fpr(c.pfr))
      else (c.(pst := c.pst + 1), Mem(c.pst))
    case Doubles =>
      if c.nf < FPRS then (c.(nf := c.nf + 1, pfr := c.pfr + 1), Fpr(c.pfr))
        else (c.(pst := Even(c.pst) + 2), Mem(Even(c.pst)))
    case LongDoubles =>
      if c.nf < FPRS - 1 then (c.(nf := c.nf + 2, pfr := c.pfr + 2), Fpr(c.pfr))
        else (c.(pst := Even(c.pst) + 4, nf := 8), Mem(Even(c.pst)))
    case Quad =>
      if c.ng < GPRS - 3 then (c.(ng := c.ng + 4, pgr := c.pgr + 4), Gpr(c.pgr))
        else (c.(pst := c.pst + 4, ng := 8 + 4), Mem(c.pst))
    case Single => if c.ng < GPRS then (c.(ng := c.ng + 1, pgr := c.pgr + 1), Gpr(c.pgr))
      else (c.(pst := c.pst + 1), Mem(c.pst))
    case ByCopy => if c.ng < GPRS then (c.(ng := c.ng + 1, pgr := c.pgr + 1), Gpr(c.pgr))
      else (c.(pst := c.pst + 1), Mem(c.pst))
    case Pair =>
      if c.ng < GPRS - 1 then
        var skip := c.ng % 2;
        (c.(ng := c.ng + skip + 2, pgr := c.pgr + skip + 2), Gpr(c.pgr + skip))
      else (c.(pst := Even(c.pst) + 2, ng := GPRS), Mem(Even(c.pst)))
    case Unknown => (c, Mem(c.pst))
  }

  predicate CountsOk(c: Counts) {
    c.fpr <= FPRS && c.gpr <= GPRS
  }

  /** The closure counts past the end of the registers in its own way. */
  predicate Agree(c: Counts, d: Closure) {
    && d.pst == c.stack
    && (if c.fpr < FPRS then d.nf == d.pfr == c.fpr else d.nf >= FPRS)
    && (if c.gpr < GPRS then d.ng == d.pgr == c.gpr else d.ng >= GPRS)
  }

  /** The three passes stay together: same counts, same place. */
  lemma StepAgrees(c: Counts, d: Closure, k: Kind)
    requires CountsOk(c) && Agree(c, d)
    ensures CallerStep(c, k).0 == SizingStep(c, k) && CountsOk(SizingStep(c, k))
    ensures Agree(SizingStep(c, k), ClosureStep(d, k).0) && CallerStep(c, k).1 == ClosureStep(d, k).1
  {
    hide Even;
    EvenGpr(c.gpr);
  }

  lemma EvenGpr(g: nat)
    requires g <= GPRS
    ensures Even(g) <= GPRS && (Even(g) >= GPRS <==> g >= GPRS - 1) && Even(g) == g + g % 2
    ensures g < GPRS ==> ((GPRS - g) % 2 != 0 <==> g % 2 == 1)
  {
  }

  /** Words of the place that an argument takes. */
  function Words(k: Kind): nat {
    match k
    case LongDoubles => 4
    case Doubles => 2
    case Floats => 1
    case Quad => 4
    case Pair => 2
    case ByCopy => 1
    case Single => 1
    case Unknown => 0
  }

  /** Registers of eight bytes for floating-point arguments, of four bytes for the others. */
  function Units(p: Place, k: Kind): nat {
    if p.Fpr? then if k.LongDoubles? then 2 else 1 else Words(k)
  }

  /** Doublewords are aligned where they have to be; the place is new, and behind the pass afterwards. */
  predicate FreshPlace(c: Counts, k: Kind, p: Place, c': Counts) {
    && c.fpr <= c'.fpr && c.gpr <= c'.gpr && c.stack <= c'.stack
    && match p
       case Fpr(i) => Floating(k) && c.fpr <= i && i + Units(p, k) <= c'.fpr
       case Gpr(i) => !Floating(k) && c.gpr <= i && i + Units(p, k) <= c'.gpr && (k.Pair? ==> i % 2 == 0)
       case Mem(w) =>
         c.stack <= w && w + Units(p, k) <= c'.stack && (k.Pair? || k.Doubles? || k.LongDoubles? ==> w % 2 == 0)
  }

  lemma PlaceIsFresh(c: Counts, k: Kind)
    requires CountsOk(c)
    ensures FreshPlace(c, k, CallerStep(c, k).1, CallerStep(c, k).0)
  {
    hide Even;
    EvenGpr(c.gpr);
    if c.gpr % 2 == 1 { ModUnique(c.gpr + 1, c.gpr / 2 + 1, 0, 2); }
  }
}
