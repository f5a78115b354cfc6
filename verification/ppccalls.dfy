/** The stack block of a PowerPC SYSV call: parameters from below, copies of structs from above, then the registers. */
module PpcCalls {
  import opened FfiTypes
  import opened ByteAreas
  import opened PpcSysv

  datatype Call = Call(abi: Abi, rtype: Type, args: seq<Type>)

  function ArgKind(c: Call, k: nat): Kind
    requires k < |c.args|
  {
    KindOf(TranslateFloat(c.abi, c.args[k].code))
  }

  /** The sizes that go with the kinds. */
  predicate Sized(k: Kind, size: nat) {
    match k
    case Single => size == 1 || size == 2 || size == 4
    case ByCopy => size > 0
    case Unknown => false
    case _ => size == 4 * Words(k)
  }

  predicate ValidCall(c: Call) {
    forall k :: 0 <= k < |c.args| ==> Sized(ArgKind(c, k), c.args[k].size)
  }

  /** FLAG_RETVAL_REFERENCE: the result is returned in memory, and its address goes before the arguments. */
  predicate ReturnsReference(c: Call) {
    TranslateFloat(c.abi, c.rtype.code) == STRUCT && !(c.abi.structRet && c.rtype.size <= 8)
  }

  function Start(c: Call): Counts {
    Counts(0, if ReturnsReference(c) then 1 else 0, 0)
  }

  /** What the sizing pass has counted, where the caller has come, and where the closure has come, before argument k. */
  function CountsAt(c: Call, k: nat): Counts
    requires k <= |c.args|
  {
    if k == 0 then Start(c) else SizingStep(CountsAt(c, k - 1), ArgKind(c, k - 1))
  }

  function CallerAt(c: Call, k: nat): Counts
    requires k <= |c.args|
  {
    if k == 0 then Start(c) else CallerStep(CallerAt(c, k - 1), ArgKind(c, k - 1)).0
  }

  function ClosureAt(c: Call, k: nat): Closure
    requires k <= |c.args|
  {
    if k == 0 then Closure(0, Start(c).gpr, 0, Start(c).gpr, 0)
      else ClosureStep(ClosureAt(c, k - 1), ArgKind(c, k - 1)).0
  }

  function CallerPlace(c: Call, k: nat): Place
    requires k < |c.args|
  {
    CallerStep(CallerAt(c, k), ArgKind(c, k)).1
  }

  function ClosurePlace(c: Call, k: nat): Place
    requires k < |c.args|
  {
    ClosureStep(ClosureAt(c, k), ArgKind(c, k)).1
  }

  /** The three passes agree at every argument. */
  lemma {:induction false} PassesAgree(c: Call, k: nat)
    requires k <= |c.args|
    ensures CallerAt(c, k) == CountsAt(c, k) && CountsOk(CountsAt(c, k)) && Agree(CountsAt(c, k), ClosureAt(c, k))
    ensures k < |c.args| ==> CallerPlace(c, k) == ClosurePlace(c, k)
  {
    hide SizingStep, CallerStep, ClosureStep, ReturnsReference;
    if k > 0 {
      PassesAgree(c, k - 1);
      StepAgrees(CountsAt(c, k - 1), ClosureAt(c, k - 1), ArgKind(c, k - 1));
    }
    if k < |c.args| {
      StepAgrees(CountsAt(c, k), ClosureAt(c, k), ArgKind(c, k));
    }
  }

  lemma {:induction false} CountsGrow(c: Call, i: nat, k: nat)
    requires i <= k <= |c.args|
    ensures var a, b := CountsAt(c, i), CountsAt(c, k); a.fpr <= b.fpr && a.gpr <= b.gpr && a.stack <= b.stack
    decreases k
  {
    hide SizingStep, CallerStep, ReturnsReference;
    if i < k {
      CountsGrow(c, i, k - 1);
      PassesAgree(c, k - 1);
      StepAgrees(CountsAt(c, k - 1), ClosureAt(c, k - 1), ArgKind(c, k - 1));
      PlaceIsFresh(CountsAt(c, k - 1), ArgKind(c, k - 1));
    }
  }

  // The block

  /** Up to a multiple of sixteen. */
  function Pad16(n: nat): (r: nat)
    ensures n <= r < n + 16 && r % 16 == 0 && (n % 16 == 0 ==> r == n)
  {
    if n % 16 == 0 then n else n - n % 16 + 16
  }

  /** struct_copy_size for the first k arguments. */
  function Copies(c: Call, k: nat): nat
    requires k <= |c.args|
  {
    if k == 0 then 0 else Copies(c, k - 1) + if ArgKind(c, k - 1).ByCopy? then Pad16(c.args[k - 1].size) else 0
  }

  function Final(c: Call): Counts {
    CountsAt(c, |c.args|)
  }

  function FprArea(c: Call): nat {
    if Final(c).fpr != 0 then 8 * FPRS else 0
  }

  /** cif->bytes. */
  function Bytes(c: Call): nat {
    Pad16(4 * (2 + 6) + 4 * GPRS + FprArea(c) + 4 * Final(c).stack) + Copies(c, |c.args|)
  }

  const MEM := 8

  function GprBase(c: Call): nat {
    Bytes(c) - 4 * 6 - 4 * GPRS
  }

  function FprBase(c: Call): nat {
    GprBase(c) - FprArea(c)
  }

  lemma {:induction false} CopiesGrow(c: Call, i: nat, k: nat)
    requires i <= k <= |c.args|
    ensures Copies(c, i) <= Copies(c, k)
    ensures i < k && ArgKind(c, i).ByCopy? ==> Copies(c, i) + c.args[i].size <= Copies(c, i + 1) <= Copies(c, k)
    decreases k
  {
    if i < k { CopiesGrow(c, i, k - 1); }
  }

  /** Parameters growing up and copies growing down do not meet: there is room for all that is still to come. */
  lemma Room(c: Call, k: nat)
    requires k <= |c.args|
    ensures FprBase(c) == MEM + Pad16(4 * Final(c).stack) + Copies(c, |c.args|)
    ensures MEM + 4 * CountsAt(c, k).stack <= MEM + 4 * Final(c).stack <= FprBase(c) - Copies(c, |c.args|)
      <= FprBase(c) - Copies(c, k)
  {
    hide CountsAt, Copies, Pad16;
    CountsGrow(c, k, |c.args|);
    CopiesGrow(c, k, |c.args|);
    PadAfter(4 * Final(c).stack, 4 + FprArea(c) / 16);
  }

  lemma PadAfter(n: nat, m: nat)
    ensures Pad16(16 * m + n) == 16 * m + Pad16(n)
  {
    ModUnique(16 * m + n, m + n / 16, n % 16, 16);
  }

  /** The check after a struct has been copied is strict, and fails exactly for the last copy, if no stack word
      follows it and the parameters end on a sixteen-byte boundary: then the copy ends up right at next_arg. */
  lemma CopyCheck(c: Call, k: nat)
    requires k < |c.args| && ArgKind(c, k).ByCopy?
    ensures FprBase(c) - Copies(c, k + 1) > MEM + 4 * CountsAt(c, k).stack
        <==> !(Copies(c, k + 1) == Copies(c, |c.args|) && CountsAt(c, k).stack == Final(c).stack &&
               Final(c).stack % 4 == 0)
  {
    hide CountsAt, Copies, Pad16;
    Room(c, k);
    CountsGrow(c, k, |c.args|);
    CopiesGrow(c, k + 1, |c.args|);
    FourTimes(Final(c).stack);
  }

  lemma FourTimes(n: nat)
    ensures (4 * n) % 16 == 0 <==> n % 4 == 0
    ensures Pad16(4 * n) == 4 * n <==> n % 4 == 0
  {
    ModUnique(4 * n, n / 4, 4 * (n % 4), 16);
  }

  /** For instance for a function of a single struct. */
  lemma CopyCheckFails(size: nat)
    requires size > 0
    ensures var c := Call(Abi(false, true, true, true), Type(VOID, 1, 1, []), [Type(STRUCT, size, 4, [])]);
      ValidCall(c) && FprBase(c) - Copies(c, 1) == MEM + 4 * CountsAt(c, 0).stack
  {
    var c := Call(Abi(false, true, true, true), Type(VOID, 1, 1, []), [Type(STRUCT, size, 4, [])]);
    assert ArgKind(c, 0) == ByCopy && Final(c) == SizingStep(CountsAt(c, 0), ByCopy);
    Room(c, 1);
  }

  // Who has which bytes

  /** Where a place is in the block. */
  function Offset(c: Call, p: Place): nat {
    match p
    case Fpr(i) => FprBase(c) + 8 * i
    case Gpr(i) => GprBase(c) + 4 * i
    case Mem(w) => MEM + 4 * w
  }

  function Extent(p: Place, k: Kind): nat {
    if p.Fpr? then 8 * Units(p, k) else 4 * Units(p, k)
  }

  /** Argument k has the bytes from here to there for itself or its address. */
  function Lo(c: Call, k: nat): nat
    requires k < |c.args|
  {
    Offset(c, CallerPlace(c, k))
  }

  function Hi(c: Call, k: nat): nat
    requires k < |c.args|
  {
    Lo(c, k) + Extent(CallerPlace(c, k), ArgKind(c, k))
  }

  /** Where the copy of a struct is. */
  function CopyAt(c: Call, k: nat): nat
    requires k < |c.args|
  {
    CopiesGrow(c, k + 1, |c.args|);
    Room(c, k + 1);
    FprBase(c) - Copies(c, k + 1)
  }

  /** Places, by kind of register or memory, lie in ranges of their own. */
  predicate Inside(c: Call, k: nat)
    requires k < |c.args|
  {
    && Lo(c, k) < Hi(c, k)
    && match CallerPlace(c, k)
       case Fpr(i) => FprBase(c) <= Lo(c, k) && Hi(c, k) <= GprBase(c)
       case Gpr(i) => GprBase(c) + 4 * Start(c).gpr <= Lo(c, k) && Hi(c, k) <= GprBase(c) + 4 * GPRS
       case Mem(w) => MEM <= Lo(c, k) && Hi(c, k) <= MEM + 4 * Final(c).stack
  }

  lemma PlaceInside(c: Call, k: nat)
    requires k < |c.args| && ValidCall(c)
    ensures Inside(c, k) && FreshPlace(CountsAt(c, k), ArgKind(c, k), CallerPlace(c, k), CountsAt(c, k + 1))
  {
    hide ReturnsReference, Bytes, FprBase, GprBase, CountsAt, CallerPlace, Start, ValidCall, ArgKind, Units;
    ArgumentFresh(c, k);
    CountsWithin(c, k);
    Areas(c);
    KindSized(c, k);
    UnitsPositive(CallerPlace(c, k), ArgKind(c, k), c.args[k].size);
  }

  lemma KindSized(c: Call, k: nat)
    requires ValidCall(c) && k < |c.args|
    ensures Sized(ArgKind(c, k), c.args[k].size)
  {
  }

  lemma ArgumentFresh(c: Call, k: nat)
    requires k < |c.args|
    ensures FreshPlace(CountsAt(c, k), ArgKind(c, k), CallerPlace(c, k), CountsAt(c, k + 1))
  {
    hide SizingStep, CallerStep, ReturnsReference, FreshPlace;
    PassesAgree(c, k);
    StepAgrees(CountsAt(c, k), ClosureAt(c, k), ArgKind(c, k));
    PlaceIsFresh(CountsAt(c, k), ArgKind(c, k));
  }

  lemma CountsWithin(c: Call, k: nat)
    requires k < |c.args|
    ensures Start(c).gpr <= CountsAt(c, k).gpr && CountsOk(CountsAt(c, k + 1))
    ensures CountsAt(c, k + 1).fpr <= Final(c).fpr && CountsAt(c, k + 1).stack <= Final(c).stack
  {
    hide *;
    PassesAgree(c, k + 1);
    CountsGrow(c, 0, k);
    CountsGrow(c, k + 1, |c.args|);
    CountsEnds(c);
  }

  lemma CountsEnds(c: Call)
    ensures CountsAt(c, 0) == Start(c) && CountsAt(c, |c.args|) == Final(c)
  {
    hide Start, SizingStep;
  }

  lemma UnitsPositive(p: Place, k: Kind, size: nat)
    requires Sized(k, size)
    ensures Units(p, k) > 0
  {
  }

  /** Floating-point registers have their area exactly when they are used. */
  lemma Areas(c: Call)
    ensures GprBase(c) == FprBase(c) + FprArea(c) && Final(c).fpr * 8 <= (if Final(c).fpr == 0 then 0 else 8 * FPRS)
    ensures FprArea(c) == if Final(c).fpr == 0 then 0 else 8 * FPRS
    ensures GprBase(c) + 4 * GPRS <= Bytes(c) && MEM + 4 * Final(c).stack + Copies(c, |c.args|) <= FprBase(c)
  {
    hide CountsAt, Copies, Pad16;
    PassesAgree(c, |c.args|);
    Room(c, |c.args|);
  }

  /** Two arguments never share a byte of registers or parameters. */
  lemma PlacesApart(c: Call, i: nat, k: nat)
    requires i < k < |c.args| && ValidCall(c)
    ensures Apart(Lo(c, i), Hi(c, i), Lo(c, k), Hi(c, k))
  {
    hide SizingStep, CallerStep, ReturnsReference, Bytes, FprBase, GprBase, CountsAt, CallerPlace, Copies;
    PlaceInside(c, i);
    PlaceInside(c, k);
    CountsGrow(c, i + 1, k);
    Areas(c);
  }

  /** A copy shares none with another copy, nor with any register or parameter. */
  lemma CopiesApart(c: Call, i: nat, k: nat)
    requires i < |c.args| && k < |c.args| && ValidCall(c) && ArgKind(c, k).ByCopy?
    ensures i != k && ArgKind(c, i).ByCopy? ==>
      Apart(CopyAt(c, i), CopyAt(c, i) + c.args[i].size, CopyAt(c, k), CopyAt(c, k) + c.args[k].size)
    ensures Apart(Lo(c, i), Hi(c, i), CopyAt(c, k), CopyAt(c, k) + c.args[k].size)
    ensures MEM <= CopyAt(c, k) && CopyAt(c, k) + c.args[k].size <= FprBase(c)
  {
    hide SizingStep, CallerStep, ReturnsReference, Bytes, FprBase, GprBase, CountsAt, CallerPlace, Copies, ArgKind;
    PlaceInside(c, i);
    Areas(c);
    CopiesGrow(c, k, |c.args|);
    CopiesGrow(c, k, k + 1);
    CopiesGrow(c, k + 1, |c.args|);
    CopiesGrow(c, i, i + 1);
    if i < k { CopiesGrow(c, i + 1, k); }
    if k < i { CopiesGrow(c, k + 1, i); }
  }
}
