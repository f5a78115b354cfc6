/** The loops of ffi_sysv.c, against the three passes. */
module PpcLoops {
  import opened FfiTypes
  import opened ByteAreas
  import opened PpcSysv
  import opened PpcCalls
  import opened PpcPass

  /** FLAG_FP_ARGUMENTS, FLAG_4_GPR_ARGUMENTS, FLAG_ARG_NEEDS_COPY and FLAG_RETVAL_REFERENCE. */
  datatype Flags = Flags(fpArguments: bool, fourGprs: bool, needsCopy: bool, retvalReference: bool)

  predicate FlagsOf(c: Call, flags: Flags) {
    && flags.fpArguments == (Final(c).fpr != 0) && flags.fourGprs == (Final(c).gpr > 4)
    && flags.needsCopy == (Copies(c, |c.args|) != 0) && flags.retvalReference == ReturnsReference(c)
  }

  /** The switch of the sizing loop. */
  method Count(kind: Kind, fpr: nat, gpr: nat, stack: nat) returns (fprCount: nat, gprCount: nat, stackCount: nat)
    ensures Counts(fprCount, gprCount, stackCount) == SizingStep(Counts(fpr, gpr, stack), kind)
  {
    fprCount, gprCount, stackCount := fpr, gpr, stack;
    match kind {
      case LongDoubles =>
        if fprCount >= FPRS - 1 {
          fprCount := FPRS;
          stackCount := stackCount + stackCount % 2;
          stackCount := stackCount + 4;
        } else {
          fprCount := fprCount + 2;
        }
      case Doubles =>
        if fprCount >= FPRS {
          stackCount := stackCount + stackCount % 2;
          stackCount := stackCount + 2;
        } else {
          fprCount := fprCount + 1;
        }
      case Floats =>
        if fprCount >= FPRS {
          stackCount := stackCount + 1;
        } else {
          fprCount := fprCount + 1;
        }
      case Quad =>
        if gprCount >= GPRS - 3 {
          gprCount := GPRS;
        }
        if gprCount >= GPRS {
          stackCount := stackCount + 4;
        } else {
          gprCount := gprCount + 4;
        }
      case Pair =>
        gprCount := gprCount + gprCount % 2;
        if gprCount >= GPRS {
          stackCount := stackCount + stackCount % 2;
          stackCount := stackCount + 2;
        } else {
          gprCount := gprCount + 2;
        }
      case Unknown =>
      case _ =>
        if gprCount >= GPRS {
          stackCount := stackCount + 1;
        } else {
          gprCount := gprCount + 1;
        }
    }
  }

  /** ffi_prep_cif_sysv_core: cif->bytes and cif->flags. */
  method FfiPrepCifSysvCore(c: Call) returns (bytes: nat, flags: Flags)
    ensures bytes == Bytes(c) && FlagsOf(c, flags)
  {
    hide Pad16, ReturnsReference, ArgKind, SizingStep;
    var fprCount: nat, gprCount: nat, stackCount: nat, structCopySize: nat := 0, 0, 0, 0;
    if ReturnsReference(c) {
      gprCount := gprCount + 1;
    }
    var i := 0;
    while i < |c.args|
      invariant i <= |c.args| && CountsAt(c, i) == Counts(fprCount, gprCount, stackCount)
      invariant structCopySize == Copies(c, i)
    {
      if ArgKind(c, i).ByCopy? {
        structCopySize := structCopySize + Pad16(c.args[i].size);
      }
      fprCount, gprCount, stackCount := Count(ArgKind(c, i), fprCount, gprCount, stackCount);
      i := i + 1;
    }
    bytes := (2 + 6) * 4 + GPRS * 4;
    if fprCount != 0 {
      bytes := bytes + FPRS * 8;
    }
    bytes := bytes + stackCount * 4;
    bytes := Pad16(bytes);
    bytes := bytes + structCopySize;
    flags := Flags(fprCount != 0, gprCount > 4, structCopySize != 0, ReturnsReference(c));
  }

  /** fpr_base, gpr_base and next_arg, as offsets in the block. */
  datatype Pointers = Pointers(fpr: int, gpr: int, next: int)

  predicate PointsTo(c: Call, n: Counts, p: Pointers) {
    p.fpr == GprBase(c) - 8 * FPRS + 8 * n.fpr && p.gpr == GprBase(c) + 4 * n.gpr && p.next == MEM + 4 * n.stack
  }

  /** Where the address of a place is when floating-point registers have been reserved. */
  function AddressOf(c: Call, p: Place): int {
    match p
    case Fpr(i) => GprBase(c) - 8 * FPRS + 8 * i
    case Gpr(i) => GprBase(c) + 4 * i
    case Mem(w) => MEM + 4 * w
  }

  lemma WordParity(w: nat)
    ensures ((MEM + 4 * w) / 4) % 2 == w % 2
  {
    ModUnique(MEM + 4 * w, 2 + w, 0, 4);
    ModUnique(2 + w, 1 + w / 2, w % 2, 2);
  }

  /** The caller's choice for one argument: where it goes, and the pointers behind it. */
  method Advance(kind: Kind, p: Pointers, gprEnd: int, ghost c: Call, ghost n: Counts) returns (p': Pointers, at: int)
    requires CountsOk(n) && PointsTo(c, n, p) && gprEnd == GprBase(c) + 4 * GPRS
    ensures PointsTo(c, CallerStep(n, kind).0, p') && at == AddressOf(c, CallerStep(n, kind).1)
  {
    hide GprBase;
    WordParity(n.stack);
    var fprEnd := gprEnd - 4 * GPRS;
    var Pointers(fpr, gpr, next) := p;
    match kind {
      case LongDoubles =>
        if fpr >= fprEnd - 8 {
          fpr := fprEnd;
          if (next / 4) % 2 != 0 {
            next := next + 4;
          }
          at := next;
          next := next + 16;
        } else {
          at := fpr;
          fpr := fpr + 16;
        }
      case Doubles =>
        if fpr >= fprEnd {
          if (next / 4) % 2 != 0 {
            next := next + 4;
          }
          at := next;
          next := next + 8;
        } else {
          at := fpr;
          fpr := fpr + 8;
        }
      case Floats =>
        if fpr >= fprEnd {
          at := next;
          next := next + 4;
        } else {
          at := fpr;
          fpr := fpr + 8;
        }
      case Quad =>
        if gpr >= gprEnd - 12 {
          gpr := gprEnd;
          at := next;
          next := next + 16;
        } else {
          at := gpr;
          gpr := gpr + 16;
        }
      case Pair =>
        if gpr >= gprEnd - 4 {
          gpr := gprEnd;
          if (next / 4) % 2 != 0 {
            next := next + 4;
          }
          at := next;
          next := next + 8;
        } else {
          if ((gprEnd - gpr) / 4) % 2 != 0 {
            gpr := gpr + 4;
          }
          at := gpr;
          gpr := gpr + 8;
        }
      case Unknown =>
        at := next;
      case _ =>
        if gpr >= gprEnd {
          at := next;
          next := next + 4;
        } else {
          at := gpr;
          gpr := gpr + 4;
        }
    }
    p' := Pointers(fpr, gpr, next);
  }

  lemma PlaceAddress(c: Call, k: nat)
    requires ValidCall(c) && k < |c.args|
    ensures AddressOf(c, CallerPlace(c, k)) == Lo(c, k) && CountsOk(CallerAt(c, k))
    ensures CallerStep(CallerAt(c, k), ArgKind(c, k)) == (CallerAt(c, k + 1), CallerPlace(c, k))
  {
    hide CallerStep, SizingStep, Bytes, CountsAt, ReturnsReference, GprBase, FprBase;
    PassesAgree(c, k);
    PlaceInside(c, k);
    CountsGrow(c, k + 1, |c.args|);
    Areas(c);
  }

  lemma FloatPlace(n: Counts)
    ensures CallerStep(n, Floats).1.Fpr? <==> CallerStep(n, Floats).0.fpr != n.fpr
  {
  }

  /** The bytes for a place. */
  method ImageOf(c: Call, k: nat, value: seq<Byte>, address: nat, inFpr: bool, ghost base: nat) returns (b: seq<Byte>)
    requires ValidCall(c) && k < |c.args| && |value| == c.args[k].size && BlockAt(c, base)
    requires (ArgKind(c, k).Floats? ==> inFpr == CallerPlace(c, k).Fpr?)
    requires (ArgKind(c, k).ByCopy? ==> address == base + CopyAt(c, k))
    ensures b == Image(c, k, base, value)
  {
    match ArgKind(c, k) {
      case ByCopy =>
        CopiesApart(c, k, k);
        b := BigEndian(address);
      case Single => b := Extended(c.args[k].code, value);
      case Floats => b := if inFpr then value + Fill(4, 0) else value;
      case _ => b := value;
    }
  }

  /** The copy of a struct; its address is passed instead. */
  method PutCopy(c: Call, k: nat, copySpace: int, value: seq<Byte>, base: nat, block: array<Byte>)
      returns (copySpace': int, address: nat)
    requires ValidCall(c) && k < |c.args| && |value| == c.args[k].size && BlockAt(c, base) && block.Length == Bytes(c)
    requires copySpace == FprBase(c) - Copies(c, k)
    modifies block
    ensures copySpace' == FprBase(c) - Copies(c, k + 1)
    ensures ArgKind(c, k).ByCopy? ==> address == base + CopyAt(c, k) && CopyAt(c, k) + |value| <= block.Length
    ensures block[..] == if ArgKind(c, k).ByCopy? then Over(old(block[..]), CopyAt(c, k), value) else old(block[..])
  {
    hide Bytes, FprBase, Over, CopyAt, Copies, ArgKind, CallerPlace;
    CopySpace(c, k);
    copySpace', address := copySpace, 0;
    if ArgKind(c, k).ByCopy? {
      CopiesApart(c, k, k);
      Areas(c);
      copySpace' := copySpace - Pad16(c.args[k].size);
      Write(block, copySpace', value);
      address := base + copySpace';
    }
  }

  /** One turn of the caller's loop. */
  method PutArg(c: Call, k: nat, p: Pointers, gprEnd: int, copySpace: int, value: seq<Byte>, base: nat,
                block: array<Byte>)
      returns (p': Pointers, copySpace': int)
    requires ValidCall(c) && k < |c.args| && |value| == c.args[k].size && BlockAt(c, base) && block.Length == Bytes(c)
    requires PointsTo(c, CallerAt(c, k), p) && copySpace == FprBase(c) - Copies(c, k) && gprEnd == GprBase(c) + 4 * GPRS
    modifies block
    ensures PointsTo(c, CallerAt(c, k + 1), p') && copySpace' == FprBase(c) - Copies(c, k + 1)
    ensures block[..] == AfterArg(c, k, base, value, old(block[..]))
  {
    hide Bytes, Image, CallerStep, SizingStep, ReturnsReference, GprBase, FprBase, Over, CountsAt, Lo, Hi, CopyAt,
      Copies, ArgKind;
    PlaceAddress(c, k);
    FloatPlace(CallerAt(c, k));
    PlaceInside(c, k);
    Areas(c);
    var address, at;
    copySpace', address := PutCopy(c, k, copySpace, value, base, block);
    p', at := Advance(ArgKind(c, k), p, gprEnd, c, CallerAt(c, k));
    var b := ImageOf(c, k, value, address, p'.fpr != p.fpr, base);
    Write(block, at, b);
  }

  lemma CopySpace(c: Call, k: nat)
    requires k < |c.args|
    ensures CopyAt(c, k) == FprBase(c) - Copies(c, k + 1)
    ensures Copies(c, k + 1) == Copies(c, k) + if ArgKind(c, k).ByCopy? then Pad16(c.args[k].size) else 0
  {
    hide FprBase, Pad16;
  }

  /** ffi_prep_args_SYSV, for a block at the address base. */
  method FfiPrepArgsSysv(c: Call, bytes: nat, flags: Flags, rvalue: nat, avalue: seq<seq<Byte>>, base: nat,
                         block: array<Byte>)
    requires ValidCall(c) && ValuesOf(c, avalue) && BlockAt(c, base) && rvalue < ADDRESSES
    requires bytes == Bytes(c) == block.Length && FlagsOf(c, flags)
    modifies block
    ensures Passed(c, |c.args|, base, rvalue, avalue, block[..])
  {
    hide Bytes, Image, PassedArg, AfterArg, CallerStep, SizingStep, ReturnsReference, GprBase, FprBase, Over, BigEndian,
      CountsAt;
    Bases(c);
    var gprEnd := bytes - 4 * 6;
    var p := Pointers(gprEnd - 4 * GPRS - 8 * FPRS, gprEnd - 4 * GPRS, MEM);
    var copySpace := if flags.fpArguments then gprEnd - 4 * GPRS - 8 * FPRS else gprEnd - 4 * GPRS;
    if flags.retvalReference {
      WriteHere(block[..], p.gpr, BigEndian(rvalue));
      Write(block, p.gpr, BigEndian(rvalue));
      p := p.(gpr := p.gpr + 4);
    }
    var i := 0;
    while i < |c.args|
      invariant i <= |c.args| && PointsTo(c, CallerAt(c, i), p) && copySpace == FprBase(c) - Copies(c, i)
      invariant Passed(c, i, base, rvalue, avalue, block[..])
    {
      PassedOn(c, i, base, rvalue, avalue, block[..]);
      p, copySpace := PutArg(c, i, p, gprEnd, copySpace, avalue[i], base, block);
      i := i + 1;
    }
    FinalChecks(c);
    assert copySpace >= p.next && p.gpr <= gprEnd && p.fpr <= gprEnd - 4 * GPRS;
    assert flags.fourGprs == ((gprEnd - p.gpr) / 4 < 4);
  }

  lemma Bases(c: Call)
    ensures GprBase(c) == Bytes(c) - 4 * 6 - 4 * GPRS && GprBase(c) >= 8
    ensures FprBase(c) == if Final(c).fpr != 0 then GprBase(c) - 8 * FPRS else GprBase(c)
    ensures PointsTo(c, Start(c), Pointers(GprBase(c) - 8 * FPRS, GprBase(c) + 4 * Start(c).gpr, MEM))
  {
    hide CountsAt, Copies, Pad16, ReturnsReference;
    Room(c, |c.args|);
  }

  /** The checks at the end of ffi_prep_args_SYSV hold. */
  lemma FinalChecks(c: Call)
    ensures var n := CallerAt(c, |c.args|);
      && n == Final(c) && n.gpr <= GPRS && n.fpr <= FPRS && FprBase(c) - Copies(c, |c.args|) >= MEM + 4 * n.stack
  {
    hide CountsAt, Copies, CallerStep, SizingStep, Bytes;
    Room(c, |c.args|);
    PassesAgree(c, |c.args|);
  }

  // The closure

  /** What the closure puts into avalue: an address in the saved registers or in the caller's parameters, or the
      address of a struct that it has read there. */
  datatype Found = InFpr(at: nat) | InGpr(at: nat) | InMem(at: nat) | ByAddress(address: nat)

  /** Where in its word a small integer is. */
  function Within(k: Kind, size: nat): nat
    requires Sized(k, size)
  {
    if k.Single? then 4 - size else 0
  }

  predicate InReach(p: Place, pgr: seq<Byte>, pst: seq<Byte>) {
    match p
    case Fpr(_) => true
    case Gpr(i) => 4 * i + 4 <= |pgr|
    case Mem(w) => 4 * w + 4 <= |pst|
  }

  function FoundAt(k: Kind, size: nat, p: Place, pgr: seq<Byte>, pst: seq<Byte>): Found
    requires Sized(k, size) && InReach(p, pgr, pst)
  {
    match p
    case Fpr(i) => InFpr(8 * i)
    case Gpr(i) => if k.ByCopy? then ByAddress(WordOf(pgr[4 * i..4 * i + 4])) else InGpr(4 * i + Within(k, size))
    case Mem(w) => if k.ByCopy? then ByAddress(WordOf(pst[4 * w..4 * w + 4])) else InMem(4 * w + Within(k, size))
  }

  /** One turn of the closure's loop. */
  method Find(kind: Kind, size: nat, d: Closure, pgr: seq<Byte>, pst: seq<Byte>) returns (d': Closure, found: Found)
    requires Sized(kind, size) && InReach(ClosureStep(d, kind).1, pgr, pst)
    ensures d' == ClosureStep(d, kind).0 && found == FoundAt(kind, size, ClosureStep(d, kind).1, pgr, pst)
  {
    hide WordOf;
    var Closure(nf, ng, pf, pg, ps) := d;
    match kind {
      case Floats =>
        if nf < FPRS {
          found := InFpr(8 * pf);
          nf, pf := nf + 1, pf + 1;
        } else {
          found := InMem(4 * ps);
          ps := ps + 1;
        }
      case Doubles =>
        if nf < FPRS {
          found := InFpr(8 * pf);
          nf, pf := nf + 1, pf + 1;
        } else {
          if ps % 2 == 1 {
            ps := ps + 1;
          }
          found := InMem(4 * ps);
          ps := ps + 2;
        }
      case LongDoubles =>
        if nf < FPRS - 1 {
          found := InFpr(8 * pf);
          nf, pf := nf + 2, pf + 2;
        } else {
          if ps % 2 == 1 {
            ps := ps + 1;
          }
          found := InMem(4 * ps);
          ps := ps + 4;
          nf := 8;
        }
      case Quad =>
        if ng < GPRS - 3 {
          found := InGpr(4 * pg);
          ng, pg := ng + 4, pg + 4;
        } else {
          found := InMem(4 * ps);
          ps := ps + 4;
          ng := 8 + 4;
        }
      case Single =>
        var within := if size == 1 then 3 else if size == 2 then 2 else 0;
        if ng < GPRS {
          found := InGpr(4 * pg + within);
          ng, pg := ng + 1, pg + 1;
        } else {
          found := InMem(4 * ps + within);
          ps := ps + 1;
        }
      case ByCopy =>
        if ng < GPRS {
          found := ByAddress(WordOf(pgr[4 * pg..4 * pg + 4]));
          ng, pg := ng + 1, pg + 1;
        } else {
          found := ByAddress(WordOf(pst[4 * ps..4 * ps + 4]));
          ps := ps + 1;
        }
      case Pair =>
        if ng < GPRS - 1 {
          if ng % 2 == 1 {
            ng, pg := ng + 1, pg + 1;
          }
          found := InGpr(4 * pg);
          ng, pg := ng + 2, pg + 2;
        } else {
          if ps % 2 == 1 {
            ps := ps + 1;
          }
          found := InMem(4 * ps);
          ps := ps + 2;
          ng := GPRS;
        }
    }
    d' := Closure(nf, ng, pf, pg, ps);
  }

  lemma PlaceInReach(c: Call, k: nat, pgr: seq<Byte>, pst: seq<Byte>)
    requires ValidCall(c) && k < |c.args| && |pgr| == 4 * GPRS && |pst| >= 4 * Final(c).stack
    ensures InReach(ClosurePlace(c, k), pgr, pst)
  {
    hide CallerStep, ClosureStep, SizingStep, Bytes, CountsAt, ReturnsReference, GprBase, FprBase;
    PassesAgree(c, k);
    PlaceInside(c, k);
    UnitsPositive(CallerPlace(c, k), ArgKind(c, k), c.args[k].size);
  }

  /** What the closure has for argument k. */
  predicate FindsAt(c: Call, k: nat, pgr: seq<Byte>, pst: seq<Byte>, found: Found)
    requires ValidCall(c) && k < |c.args|
  {
    InReach(ClosurePlace(c, k), pgr, pst) &&
    found == FoundAt(ArgKind(c, k), c.args[k].size, ClosurePlace(c, k), pgr, pst)
  }

  lemma ClosureNext(c: Call, k: nat)
    requires k < |c.args|
    ensures ClosureStep(ClosureAt(c, k), ArgKind(c, k)) == (ClosureAt(c, k + 1), ClosurePlace(c, k))
  {
    hide ClosureStep;
  }

  lemma ClosureStarts(c: Call)
    ensures ClosureAt(c, 0) == if ReturnsReference(c) then Closure(0, 1, 0, 1, 0) else Closure(0, 0, 0, 0, 0)
  {
  }

  /** ffi_closure_helper_SYSV up to the callback; rvalue is the address of a result in memory. */
  method FfiClosureHelperSysv(c: Call, pgr: seq<Byte>, pst: seq<Byte>) returns (avalue: array<Found>, rvalue: nat)
    requires ValidCall(c) && |pgr| == 4 * GPRS && |pst| >= 4 * Final(c).stack
    ensures fresh(avalue) && avalue.Length == |c.args|
    ensures forall k :: 0 <= k < |c.args| ==> FindsAt(c, k, pgr, pst, avalue[k])
    ensures ReturnsReference(c) ==> rvalue == WordOf(pgr[..4])
  {
    hide ClosureStep, FoundAt, ReturnsReference, WordOf, InReach, CountsAt, ClosureAt, ClosurePlace, ArgKind;
    ClosureStarts(c);
    var d := Closure(0, 0, 0, 0, 0);
    rvalue := 0;
    if ReturnsReference(c) {
      rvalue := WordOf(pgr[..4]);
      d := d.(ng := 1, pgr := 1);
    }
    avalue := new Found[|c.args|](_ => InMem(0));
    var i := 0;
    while i < |c.args|
      invariant i <= |c.args| == avalue.Length && fresh(avalue) && d == ClosureAt(c, i)
      invariant forall k :: 0 <= k < i ==> FindsAt(c, k, pgr, pst, avalue[k])
    {
      PlaceInReach(c, i, pgr, pst);
      ClosureNext(c, i);
      d, avalue[i] := Find(ArgKind(c, i), c.args[i].size, d, pgr, pst);
      i := i + 1;
    }
  }

  // What was passed is what is found

  /** The value is where the closure has found it: in the saved registers, in the parameters, or, for a struct, at the
      address it has read, which is the address of a copy in the caller's block. */
  predicate Finds(block: seq<Byte>, base: nat, pgr: seq<Byte>, pfr: seq<Byte>, pst: seq<Byte>, found: Found,
                  value: seq<Byte>) {
    match found
    case InFpr(at) => Holds(pfr, at, value)
    case InGpr(at) => Holds(pgr, at, value)
    case InMem(at) => Holds(pst, at, value)
    case ByAddress(a) => a >= base && Holds(block, a - base, value)
  }

  /** The registers hold what the caller has put into its block for them, and pst is where its parameters are. */
  predicate Handed(c: Call, block: seq<Byte>, pgr: seq<Byte>, pfr: seq<Byte>, pst: seq<Byte>) {
    && |block| == Bytes(c) && |pfr| == FprArea(c)
    && pgr == block[GprBase(c)..GprBase(c) + 4 * GPRS] && pfr == block[FprBase(c)..GprBase(c)] && pst == block[MEM..]
  }

  lemma HoldsSlice(block: seq<Byte>, lo: nat, hi: nat, at: nat, b: seq<Byte>)
    requires lo <= hi <= |block| && lo <= at && at + |b| <= hi && Holds(block, at, b)
    ensures Holds(block[lo..hi], at - lo, b)
  {
    forall k | 0 <= k < |b| ensures block[lo..hi][at - lo + k] == b[k] {
      assert block[at..at + |b|][k] == b[k];
    }
    assert block[lo..hi][at - lo..at - lo + |b|] == b;
  }

  lemma HoldsTail(s: seq<Byte>, at: nat, b: seq<Byte>, i: nat, n: nat)
    requires Holds(s, at, b) && i + n <= |b|
    ensures Holds(s, at + i, b[i..i + n])
  {
    var t, u := s[at + i..at + i + n], b[i..i + n];
    forall k | 0 <= k < n ensures t[k] == u[k] {
      assert s[at..at + |b|][i + k] == b[i + k];
    }
  }

  /** The value in what has been put into a place. */
  lemma ImageHolds(c: Call, k: nat, base: nat, value: seq<Byte>, s: seq<Byte>, at: nat)
    requires ValidCall(c) && k < |c.args| && |value| == c.args[k].size && BlockAt(c, base)
    requires Holds(s, at, Image(c, k, base, value))
    ensures !ArgKind(c, k).ByCopy? ==> Holds(s, at + Within(ArgKind(c, k), c.args[k].size), value)
    ensures ArgKind(c, k).ByCopy? ==> at + 4 <= |s| && WordOf(s[at..at + 4]) == base + CopyAt(c, k)
  {
    hide Bytes, FprBase, GprBase, CountsAt, CallerPlace, CopyAt, BigEndian, WordOf, ReturnsReference;
    var image, kind := Image(c, k, base, value), ArgKind(c, k);
    if kind.ByCopy? {
      CopiesApart(c, k, k);
      Areas(c);
      WordReturns(base + CopyAt(c, k));
    } else if kind.Single? {
      HoldsTail(s, at, image, 4 - |value|, |value|);
      assert image[4 - |value|..4 - |value| + |value|] == value;
    } else {
      HoldsTail(s, at, image, 0, |value|);
      assert image[0..|value|] == value;
    }
  }

  /** The bytes of a place, in the registers or parameters that the closure sees. */
  function AreaOf(p: Place, pgr: seq<Byte>, pfr: seq<Byte>, pst: seq<Byte>): (seq<Byte>, nat) {
    match p
    case Fpr(i) => (pfr, 8 * i)
    case Gpr(i) => (pgr, 4 * i)
    case Mem(w) => (pst, 4 * w)
  }

  lemma PlaceHanded(c: Call, k: nat, block: seq<Byte>, pgr: seq<Byte>, pfr: seq<Byte>, pst: seq<Byte>, b: seq<Byte>)
    requires ValidCall(c) && k < |c.args| && Handed(c, block, pgr, pfr, pst) && Holds(block, Lo(c, k), b)
    requires Lo(c, k) + |b| == Hi(c, k)
    ensures var (s, at) := AreaOf(ClosurePlace(c, k), pgr, pfr, pst); Holds(s, at, b)
    ensures ClosurePlace(c, k).Fpr? ==> Floating(ArgKind(c, k))
  {
    hide Bytes, FprBase, GprBase, CountsAt, ReturnsReference, ArgKind, Holds, Sized, CallerStep, ClosureStep,
      SizingStep;
    PassesAgree(c, k);
    PlaceInside(c, k);
    Areas(c);
    match CallerPlace(c, k)
    case Fpr(i) => HoldsSlice(block, FprBase(c), GprBase(c), Lo(c, k), b);
    case Gpr(i) => HoldsSlice(block, GprBase(c), GprBase(c) + 4 * GPRS, Lo(c, k), b);
    case Mem(w) =>
      HoldsSlice(block, MEM, |block|, Lo(c, k), b);
      assert block[MEM..|block|] == pst;
  }

  /** Every argument arrives. */
  lemma ArgumentArrives(c: Call, k: nat, base: nat, value: seq<Byte>, block: seq<Byte>, pgr: seq<Byte>, pfr: seq<Byte>,
                        pst: seq<Byte>, found: Found)
    requires ValidCall(c) && k < |c.args| && |value| == c.args[k].size && BlockAt(c, base)
    requires PassedArg(c, k, base, value, block) && Handed(c, block, pgr, pfr, pst) && FindsAt(c, k, pgr, pst, found)
    ensures Finds(block, base, pgr, pfr, pst, found, value)
  {
    hide Bytes, FprBase, GprBase, CountsAt, WordOf, ReturnsReference, ArgKind, Image, CopyAt, ClosurePlace, Holds, Lo,
      Hi, Handed, Sized;
    PlaceHanded(c, k, block, pgr, pfr, pst, Image(c, k, base, value));
    var (s, at) := AreaOf(ClosurePlace(c, k), pgr, pfr, pst);
    ImageHolds(c, k, base, value, s, at);
  }

  /** A call of a closure, with the registers loaded and saved in between: every argument is found, and so is the
      address of a result in memory. */
  method CallClosure(c: Call, rvalue: nat, values: seq<seq<Byte>>, base: nat)
      returns (avalue: array<Found>, rvalue': nat, block: array<Byte>, pgr: seq<Byte>, pfr: seq<Byte>, pst: seq<Byte>)
    requires ValidCall(c) && ValuesOf(c, values) && BlockAt(c, base) && rvalue < ADDRESSES
    ensures avalue.Length == |values| && Handed(c, block[..], pgr, pfr, pst)
    ensures forall k :: 0 <= k < |values| ==> Finds(block[..], base, pgr, pfr, pst, avalue[k], values[k])
    ensures ReturnsReference(c) ==> rvalue' == rvalue
  {
    hide PassedArg, Finds, FindsAt, Bytes, GprBase, FprBase, FprArea, CountsAt, Copies, BigEndian, WordOf,
      ReturnsReference;
    Areas(c);
    var bytes, flags := FfiPrepCifSysvCore(c);
    block := new Byte[bytes];
    FfiPrepArgsSysv(c, bytes, flags, rvalue, values, base, block);
    pgr, pfr, pst := block[GprBase(c)..GprBase(c) + 4 * GPRS], block[FprBase(c)..GprBase(c)], block[MEM..];
    ghost var now := block[..];
    if ReturnsReference(c) {
      HoldsSlice(now, GprBase(c), GprBase(c) + 4 * GPRS, GprBase(c), BigEndian(rvalue));
      WordReturns(rvalue);
    }
    avalue, rvalue' := FfiClosureHelperSysv(c, pgr, pst);
    forall k | 0 <= k < |values| ensures Finds(now, base, pgr, pfr, pst, avalue[k], values[k]) {
      ArgumentArrives(c, k, base, values[k], now, pgr, pfr, pst, avalue[k]);
    }
  }
}
