/** Whole calls on RISC-V. */
module RiscVCalls {
  import opened FfiTypes
  import opened Layout
  import opened RiscV
  import opened RiscVSlots

  /** What both sides read from the ffi_cif. */
  datatype Cif = Cif(rtype: Type, args: seq<Type>, nfixed: nat)

  predicate ValidCif(cif: Cif) {
    Natural(cif.rtype) && forall t :: t in cif.args ==> Natural(t)
  }

  const FRESH := Cursor(0, 0, 0)

  /** The address for a big result goes before the arguments. */
  function Start(cif: Cif): Cursor {
    if PassedByRef(FRESH, cif.rtype, false) then PlanOf(FRESH, PTR_TYPE, false).next else FRESH
  }

  /** The cursor before argument k, and where the argument goes. */
  function CursorAt(cif: Cif, k: nat): Cursor
    requires k <= |cif.args|
    decreases k, 0
  {
    if k == 0 then Start(cif) else PlanAt(cif, k - 1).next
  }

  function PlanAt(cif: Cif, k: nat): Plan
    requires k < |cif.args|
    decreases k, 1
  {
    PlanOf(CursorAt(cif, k), cif.args[k], k >= cif.nfixed)
  }

  /** The words of the stack that ffi_call_int reserves: its estimate for the number of arguments. */
  function StackWords(n: nat): nat {
    if n <= 3 then 0 else AlignUp(2 * XLEN * (n - 3), 16) / XLEN
  }

  /** All registers that the call asks for are in call_context: no more than sixteen float registers. */
  predicate InContext(cif: Cif) {
    InReach(CursorAt(cif, |cif.args|))
  }

  /** No register is given away twice. */
  predicate SlotsFit(cif: Cif) {
    CursorOk(CursorAt(cif, |cif.args|))
  }

  /** The registers, and the words of the stack that are reserved. */
  function SlotCount(cif: Cif): nat {
    StackSlot(StackWords(|cif.args|))
  }

  /** After k arguments: two registers for each and for the result, then two words of the stack for each after the
      third. */
  predicate Within(d: Cursor, k: nat) {
    d.ints <= NARGREG && d.ints <= 2 * k + 2 && d.stack <= 2 * (if k <= 3 then 0 else k - 3)
  }

  lemma StepBound(c: Cursor, t: Type, variadic: bool, k: nat)
    requires Within(c, k)
    ensures Within(PlanOf(c, t, variadic).next, k + 1)
  {
    hide ElementsOf, Natural, AlignUp, CopyPlan, FieldsPlan;
    CopyBound(c, t, variadic, k);
    if ElementsOf(c, t, variadic) != Whole { FieldsBound(c, t, variadic, k); }
  }

  lemma CopyBound(c: Cursor, t: Type, variadic: bool, k: nat)
    requires Within(c, k)
    ensures Within(CopyPlan(c, t, variadic).next, k + 1)
  {
  }

  /** At least one of the fields of a struct that goes by its fields is a float. */
  lemma FieldsBound(c: Cursor, t: Type, variadic: bool, k: nat)
    requires Within(c, k) && ElementsOf(c, t, variadic) != Whole
    ensures Within(FieldsPlan(c, ElementsOf(c, t, variadic)).next, k + 1)
  {
    hide Flatten, AlignUp;
  }

  /** The estimate is enough, whatever the types are: with the address of the result, and with arguments aligned to even
      registers. */
  lemma {:induction false} StackEstimate(cif: Cif, k: nat)
    requires k <= |cif.args|
    ensures Within(CursorAt(cif, k), k)
  {
    hide PlanOf, ElementsOf;
    if k == 0 {
      StartBound(cif);
    } else {
      StackEstimate(cif, k - 1);
      StepBound(CursorAt(cif, k - 1), cif.args[k - 1], k - 1 >= cif.nfixed, k - 1);
    }
  }

  lemma StartBound(cif: Cif)
    ensures Start(cif) == FRESH || Start(cif) == FRESH.(ints := 1)
  {
  }

  lemma StackWordsIs(n: nat)
    ensures StackWords(n) == 2 * (if n <= 3 then 0 else n - 3)
  {
    if n > 3 { MultipleMod(n - 3, 16); }
  }

  lemma {:induction false} CursorsGrow(cif: Cif, i: nat, k: nat)
    requires i <= k <= |cif.args|
    ensures Before(Start(cif), CursorAt(cif, i)) && Before(CursorAt(cif, i), CursorAt(cif, k))
    ensures CursorAt(cif, k).ints <= NARGREG
    decreases k
  {
    hide PlanOf;
    StartBound(cif);
    if k > 0 {
      CursorsGrow(cif, if i < k then i else k - 1, k - 1);
      PlanAdvances(CursorAt(cif, k - 1), cif.args[k - 1], k - 1 >= cif.nfixed);
    }
  }

  /** Arguments and slots of a call; junk is what the copies in realign hold behind the argument. */
  datatype Call = Call(cif: Cif, values: seq<Datum>, junk: seq<seq<Byte>>)

  predicate ValidCall(call: Call) {
    && ValidCif(call.cif) && |call.values| == |call.junk| == |call.cif.args|
    && forall i :: 0 <= i < |call.values| ==> DatumOf(call.cif.args[i], call.values[i]) && |call.junk[i]| == 2 * XLEN
  }

  predicate Roomy(cif: Cif, n: nat) {
    n >= SlotCount(cif) && InContext(cif)
  }

  /** Argument k goes where there is room, its pieces to different slots. */
  predicate Ready(cif: Cif, k: nat, n: nat)
    requires k < |cif.args|
  {
    var p := PlanAt(cif, k);
    && InReach(CursorAt(cif, k)) && InReach(p.next) && Cuttable(p, cif.args[k]) && Distinct(p.pieces)
    && (forall q :: q in p.pieces ==> q.slot < n)
  }

  lemma PlanReady(cif: Cif, k: nat, n: nat)
    requires ValidCif(cif) && Roomy(cif, n) && k < |cif.args|
    ensures Ready(cif, k, n)
  {
    hide PlanOf, Natural;
    CursorsGrow(cif, k, k + 1);
    CursorsGrow(cif, k + 1, |cif.args|);
    assert cif.args[k] in cif.args;
    NaturalCuttable(CursorAt(cif, k), cif.args[k], k >= cif.nfixed);
    PlanAdvances(CursorAt(cif, k), cif.args[k], k >= cif.nfixed);
    StackEstimate(cif, |cif.args|);
    StackWordsIs(|cif.args|);
  }

  predicate AllReady(cif: Cif, n: nat) {
    forall k :: 0 <= k < |cif.args| ==> Ready(cif, k, n)
  }

  lemma RoomyReady(cif: Cif, n: nat)
    requires ValidCif(cif) && Roomy(cif, n)
    ensures AllReady(cif, n)
  {
    hide Ready, Roomy;
    forall k | 0 <= k < |cif.args| ensures Ready(cif, k, n) {
      PlanReady(cif, k, n);
    }
  }

  ghost function ImageAt(call: Call, k: nat): (r: seq<Byte>)
    requires ValidCall(call) && k < |call.values| && Cuttable(PlanAt(call.cif, k), call.cif.args[k])
    ensures forall q :: q in PlanAt(call.cif, k).pieces ==> PieceFits(q, |r|)
  {
    Image(PlanAt(call.cif, k).how, call.cif.args[k], call.values[k], call.junk[k])
  }

  /** The caller marshals argument k. */
  ghost function MarshalArgument(call: Call, s: seq<nat>, k: nat): (r: seq<nat>)
    requires ValidCall(call) && k < |call.values| && Ready(call.cif, k, |s|)
    ensures |r| == |s|
  {
    Marshalled(s, PlanAt(call.cif, k), call.cif.args[k], call.values[k], call.junk[k])
  }

  /** The slots after the caller has marshalled the first k arguments. */
  ghost function SlotsAfter(call: Call, s: seq<nat>, k: nat): (r: seq<nat>)
    requires ValidCall(call) && AllReady(call.cif, |s|) && k <= |call.values|
    ensures |r| == |s|
  {
    if k == 0 then s else MarshalArgument(call, SlotsAfter(call, s, k - 1), k - 1)
  }

  ghost predicate HoldsArgument(call: Call, s: seq<nat>, i: nat)
    requires ValidCall(call) && i < |call.values| && Ready(call.cif, i, |s|)
  {
    Holds(s, PlanAt(call.cif, i).pieces, ImageAt(call, i))
  }

  /** Argument j has a piece in the slot. */
  ghost predicate TakesSlot(cif: Cif, j: nat, slot: nat) {
    j < |cif.args| && exists q :: q in PlanAt(cif, j).pieces && q.slot == slot
  }

  /** Marshalling puts the argument into its slots and changes no others. */
  lemma MarshalEffect(call: Call, s: seq<nat>, k: nat)
    requires ValidCall(call) && k < |call.values| && Ready(call.cif, k, |s|)
    ensures HoldsArgument(call, MarshalArgument(call, s, k), k)
    ensures forall slot ::
      0 <= slot < |s| && !TakesSlot(call.cif, k, slot) ==> MarshalArgument(call, s, k)[slot] == s[slot]
  {
    hide PlanOf, Image, Natural, Written;
    WrittenHolds(s, PlanAt(call.cif, k).pieces, ImageAt(call, k));
  }

  /** A slot keeps its word as long as no argument takes it. */
  lemma {:induction false} SlotKept(call: Call, s: seq<nat>, i: nat, k: nat, slot: nat)
    requires ValidCall(call) && AllReady(call.cif, |s|) && i <= k <= |call.values| && slot < |s|
    requires forall j :: i <= j < k ==> !TakesSlot(call.cif, j, slot)
    ensures SlotsAfter(call, s, k)[slot] == SlotsAfter(call, s, i)[slot]
    decreases k
  {
    hide PlanOf, MarshalArgument, HoldsArgument, Natural, Ready, TakesSlot;
    if i < k {
      SlotKept(call, s, i, k - 1, slot);
      MarshalEffect(call, SlotsAfter(call, s, k - 1), k - 1);
    }
  }

  /** A later argument takes a slot of argument k. */
  ghost predicate Overwritten(cif: Cif, k: nat) {
    exists j, slot :: k < j && TakesSlot(cif, k, slot) && TakesSlot(cif, j, slot)
  }

  /** In the end the slots hold all the arguments that are not overwritten. */
  lemma AllHeld(call: Call, s: seq<nat>, k: nat)
    requires ValidCall(call) && AllReady(call.cif, |s|) && k < |call.values| && !Overwritten(call.cif, k)
    ensures HoldsArgument(call, SlotsAfter(call, s, |call.values|), k)
  {
    hide *;
    var after, end := SlotsAfter(call, s, k + 1), SlotsAfter(call, s, |call.values|);
    ArgumentReady(call, k, |s|);
    AfterOne(call, s, k);
    MarshalEffect(call, SlotsAfter(call, s, k), k);
    forall q | q in PlanAt(call.cif, k).pieces ensures q.slot < |s| && end[q.slot] == after[q.slot] {
      PieceTakes(call.cif, k, q, |s|);
      NotTakenLater(call.cif, k, q.slot);
      SlotKept(call, s, k + 1, |call.values|, q.slot);
    }
    HoldsStill(call, after, end, k);
  }

  lemma ArgumentReady(call: Call, k: nat, n: nat)
    requires ValidCall(call) && AllReady(call.cif, n) && k < |call.values|
    ensures k < |call.cif.args| && Ready(call.cif, k, n)
  {
    hide Ready, Natural;
  }

  lemma PieceTakes(cif: Cif, k: nat, q: Piece, n: nat)
    requires k < |cif.args| && Ready(cif, k, n) && q in PlanAt(cif, k).pieces
    ensures q.slot < n && TakesSlot(cif, k, q.slot)
  {
    hide PlanAt;
  }

  lemma NotTakenLater(cif: Cif, k: nat, slot: nat)
    requires !Overwritten(cif, k) && TakesSlot(cif, k, slot)
    ensures forall j :: k < j ==> !TakesSlot(cif, j, slot)
  {
    hide TakesSlot;
  }

  lemma HoldsStill(call: Call, s: seq<nat>, s': seq<nat>, k: nat)
    requires ValidCall(call) && k < |call.values| && Ready(call.cif, k, |s|) && |s| == |s'|
    requires HoldsArgument(call, s, k)
    requires forall q :: q in PlanAt(call.cif, k).pieces ==> q.slot < |s| && s'[q.slot] == s[q.slot]
    ensures HoldsArgument(call, s', k)
  {
    hide AtomWord, Cut, ImageAt, PlanAt, Ready, Natural;
  }

  lemma AfterOne(call: Call, s: seq<nat>, k: nat)
    requires ValidCall(call) && AllReady(call.cif, |s|) && k < |call.values|
    ensures SlotsAfter(call, s, k + 1) == MarshalArgument(call, SlotsAfter(call, s, k), k)
  {
  }

  /** The closure unmarshals argument k. */
  ghost function UnmarshalArgument(cif: Cif, s: seq<nat>, k: nat, data: seq<Byte>, junk: seq<Byte>): Received
    requires k < |cif.args| && Ready(cif, k, |s|) && |data| == |junk| == 2 * XLEN
  {
    Unmarshalled(s, PlanAt(cif, k), cif.args[k], data, junk)
  }

  /** It has got argument k. */
  ghost predicate Got(call: Call, k: nat, n: nat, r: Received)
    requires ValidCall(call) && k < |call.values| && Ready(call.cif, k, n)
  {
    Delivered(PlanAt(call.cif, k), call.cif.args[k], call.values[k], r)
  }

  /** A call, and what the slots and the closure's storage hold before. */
  ghost predicate Trial(cif: Cif, call: Call, s: seq<nat>, data: seq<Byte>, junk: seq<Byte>) {
    ValidCall(call) && call.cif == cif && |s| == SlotCount(cif) && |data| == |junk| == 2 * XLEN
  }

  /** Argument k arrives: read with the cursor of argument k from what the caller has left in the slots, it is the same
      pointer or the same bytes. */
  ghost predicate Arrives(call: Call, s: seq<nat>, k: nat, data: seq<Byte>, junk: seq<Byte>) {
    && ValidCall(call) && AllReady(call.cif, |s|) && k < |call.values| && |data| == |junk| == 2 * XLEN
    && Got(call, k, |s|, UnmarshalArgument(call.cif, SlotsAfter(call, s, |call.values|), k, data, junk))
  }

  lemma RoundTrip(call: Call, s: seq<nat>, k: nat, data: seq<Byte>, junk: seq<Byte>)
    requires ValidCall(call) && AllReady(call.cif, |s|) && k < |call.values| && |data| == |junk| == 2 * XLEN
    requires !Overwritten(call.cif, k)
    ensures Arrives(call, s, k, data, junk)
  {
    hide PlanOf, Image, Natural, SlotsAfter, Delivered, Unmarshalled, Holds, Overwritten;
    AllHeld(call, s, k);
    assert HoldsArgument(call, SlotsAfter(call, s, |call.values|), k);
    ArgumentReturns(SlotsAfter(call, s, |call.values|), PlanAt(call.cif, k), call.cif.args[k], call.values[k],
                    call.junk[k], data, junk);
  }

  // What is overwritten does not always arrive

  function Zeros(n: nat): (r: seq<Byte>)
    ensures |r| == n && forall i :: 0 <= i < n ==> r[i] == 0
  {
    seq(n, _ => 0)
  }

  /** Two data of the same type, with different addresses, and different bytes at a place. */
  function Blank(t: Type): (d: Datum)
    ensures DatumOf(t, d)
  {
    Datum(0, Zeros(t.size))
  }

  function Nudged(t: Type, at: nat): (d: Datum)
    requires at < t.size
    ensures DatumOf(t, d)
  {
    Datum(1, Zeros(t.size)[at := 1])
  }

  lemma PieceInside(c: Cursor, t: Type, variadic: bool, q: Piece)
    requires Natural(t) && q in PlanOf(c, t, variadic).pieces
    ensures q.at < t.size
  {
    hide AlignUp, SizeOf, AlignOf, Leaves, AfterAtom, AtomSlot, Aligned, ElementsOf;
    ElementsInside(c, t, variadic);
  }

  lemma ReadPiece(s: seq<nat>, p: Plan, t: Type, d: Datum, q: Piece, data: seq<Byte>, junk: seq<Byte>)
    requires Cuttable(p, t) && DatumOf(t, d) && |data| == |junk| == 2 * XLEN && InRange(p, s)
    requires q in p.pieces && q.at < t.size && !p.how.Reference?
    requires Delivered(p, t, d, Unmarshalled(s, p, t, data, junk))
    ensures d.bytes[q.at] == AtomBytes(q.code, s[q.slot])[0]
  {
    hide Stored, AtomBytes;
    var into := if p.how.Own? then data else junk;
    StoredReads(into, p.pieces, s);
    var r := Stored(into, p.pieces, s);
    assert Cut(r, q)[0] == r[q.at];
    if p.how.Own? {
      assert Cut(d.bytes, q)[0] == d.bytes[q.at];
    } else {
      assert r[..t.size][q.at] == r[q.at];
    }
  }

  /** One word in a slot of an argument cannot stand for both. */
  lemma NotBoth(s: seq<nat>, s': seq<nat>, p: Plan, t: Type, q: Piece, data: seq<Byte>, junk: seq<Byte>)
    requires Cuttable(p, t) && |data| == |junk| == 2 * XLEN && InRange(p, s) && InRange(p, s')
    requires q in p.pieces && q.at < t.size && s[q.slot] == s'[q.slot]
    requires Delivered(p, t, Blank(t), Unmarshalled(s, p, t, data, junk))
    ensures !Delivered(p, t, Nudged(t, q.at), Unmarshalled(s', p, t, data, junk))
  {
    hide Stored, AtomBytes;
    if Delivered(p, t, Nudged(t, q.at), Unmarshalled(s', p, t, data, junk)) && !p.how.Reference? {
      ReadPiece(s, p, t, Blank(t), q, data, junk);
      ReadPiece(s', p, t, Nudged(t, q.at), q, data, junk);
    }
  }

  /** Two calls with the same arguments after argument i. */
  predicate SameAfter(call: Call, call': Call, i: int) {
    && call.cif == call'.cif && call.junk == call'.junk && |call.values| == |call'.values|
    && forall j :: i < j < |call.values| && 0 <= j ==> call.values[j] == call'.values[j]
  }

  lemma SameWord(call: Call, call': Call, s: seq<nat>, s': seq<nat>, j: nat, slot: nat)
    requires ValidCall(call) && ValidCall(call') && call.cif == call'.cif && call.junk == call'.junk
    requires j < |call.values| && call.values[j] == call'.values[j] && |s| == |s'| && slot < |s|
    requires Ready(call.cif, j, |s|) && TakesSlot(call.cif, j, slot)
    ensures MarshalArgument(call, s, j)[slot] == MarshalArgument(call', s', j)[slot]
  {
    hide PlanOf, Natural, MarshalArgument, Image;
    MarshalEffect(call, s, j);
    MarshalEffect(call', s', j);
    var q :| q in PlanAt(call.cif, j).pieces && q.slot == slot;
    assert ImageAt(call, j) == ImageAt(call', j);
  }

  /** The last argument to take a slot leaves the same word there, whatever was there before. */
  lemma {:induction false} LastWord(call: Call, call': Call, s: seq<nat>, s': seq<nat>, i: int, k: nat, slot: nat)
    requires ValidCall(call) && ValidCall(call') && SameAfter(call, call', i) && |s| == |s'| && slot < |s|
    requires AllReady(call.cif, |s|) && k <= |call.values| && -1 <= i
    requires exists j :: i < j < k && 0 <= j && TakesSlot(call.cif, j, slot)
    ensures SlotsAfter(call, s, k)[slot] == SlotsAfter(call', s', k)[slot]
    decreases k
  {
    hide PlanOf, MarshalArgument, HoldsArgument, Natural, Ready, TakesSlot, SlotsAfter, ValidCall;
    ValidArguments(call);
    AfterOne(call, s, k - 1);
    AfterOne(call', s', k - 1);
    if TakesSlot(call.cif, k - 1, slot) {
      SameWord(call, call', SlotsAfter(call, s, k - 1), SlotsAfter(call', s', k - 1), k - 1, slot);
    } else {
      LastWord(call, call', s, s', i, k - 1, slot);
      MarshalEffect(call, SlotsAfter(call, s, k - 1), k - 1);
      MarshalEffect(call', SlotsAfter(call', s', k - 1), k - 1);
    }
  }

  function BlankCall(cif: Cif): (call: Call)
    requires ValidCif(cif)
    ensures ValidCall(call) && call.cif == cif
  {
    Call(cif, seq(|cif.args|, i requires 0 <= i < |cif.args| => Blank(cif.args[i])),
         seq(|cif.args|, _ => Zeros(2 * XLEN)))
  }

  /** A call that differs from it in argument i only. */
  function NudgedCall(cif: Cif, i: nat, at: nat): (call: Call)
    requires ValidCif(cif) && i < |cif.args| && at < cif.args[i].size
    ensures ValidCall(call) && call.cif == cif && SameAfter(BlankCall(cif), call, i)
    ensures call.values[i] == Nudged(cif.args[i], at)
  {
    var call := BlankCall(cif);
    call.(values := call.values[i := Nudged(cif.args[i], at)])
  }

  /** So one of two calls goes wrong. */
  lemma LosesOne(cif: Cif, i: nat, s: seq<nat>, data: seq<Byte>, junk: seq<Byte>) returns (call: Call)
    requires ValidCif(cif) && AllReady(cif, |s|) && |data| == |junk| == 2 * XLEN && Overwritten(cif, i)
    ensures ValidCall(call) && call.cif == cif && i < |call.values| && !Arrives(call, s, i, data, junk)
  {
    hide PlanOf, Natural, SlotsAfter, Delivered, Unmarshalled;
    var j, slot :| i < j && TakesSlot(cif, i, slot) && TakesSlot(cif, j, slot);
    var q :| q in PlanAt(cif, i).pieces && q.slot == slot;
    assert cif.args[i] in cif.args;
    PieceInside(CursorAt(cif, i), cif.args[i], i >= cif.nfixed, q);
    var blank, nudged := BlankCall(cif), NudgedCall(cif, i, q.at);
    var n := |cif.args|;
    assert Ready(cif, i, |s|) && Ready(cif, j, |s|);
    LastWord(blank, nudged, s, s, i, n, slot);
    if Arrives(blank, s, i, data, junk) {
      NotBoth(SlotsAfter(blank, s, n), SlotsAfter(nudged, s, n), PlanAt(cif, i), cif.args[i], q, data, junk);
      call := nudged;
    } else {
      call := blank;
    }
  }

  /** An argument arrives in every call exactly if no later one takes a slot of it. */
  lemma ArrivesIff(cif: Cif, k: nat)
    requires ValidCif(cif) && InContext(cif) && k < |cif.args|
    ensures !Overwritten(cif, k) <==>
      forall call, s, data, junk :: Trial(cif, call, s, data, junk) ==> Arrives(call, s, k, data, junk)
  {
    hide Overwritten, Arrives, AllReady, ValidCif, ValidCall, InContext;
    RoomyReady(cif, SlotCount(cif));
    if Overwritten(cif, k) {
      var s, junk := seq(SlotCount(cif), _ => 0), Zeros(2 * XLEN);
      var call := LosesOne(cif, k, s, junk, junk);
      assert Trial(cif, call, s, junk, junk);
    } else {
      forall call, s, data, junk | Trial(cif, call, s, data, junk) ensures Arrives(call, s, k, data, junk) {
        ValidArguments(call);
        RoundTrip(call, s, k, data, junk);
      }
    }
  }

  lemma ValidArguments(call: Call)
    requires ValidCall(call)
    ensures |call.values| == |call.cif.args|
  {
  }

  /** The address for a big result is still in the first integer register when the call is made. */
  ghost predicate AddressArrives(call: Call, s: seq<nat>) {
    && ValidCall(call) && AllReady(call.cif, |s|) && |s| > IntSlot(0)
    && SlotsAfter(call, s, |call.values|)[IntSlot(0)] == s[IntSlot(0)]
  }

  /** Argument j has a piece in the first integer register. */
  ghost predicate TakesFirst(cif: Cif, j: nat) {
    TakesSlot(cif, j, IntSlot(0))
  }

  lemma AddressKept(call: Call, s: seq<nat>)
    requires ValidCall(call) && AllReady(call.cif, |s|) && |s| > IntSlot(0)
    requires forall j :: 0 <= j < |call.cif.args| ==> !TakesFirst(call.cif, j)
    ensures AddressArrives(call, s)
  {
    hide TakesSlot, Ready, Natural;
    forall j | 0 <= j < |call.cif.args| ensures !TakesSlot(call.cif, j, IntSlot(0)) {
      assert !TakesFirst(call.cif, j);
    }
    SlotKept(call, s, 0, |call.values|, IntSlot(0));
  }

  /** It is there in every call exactly if no argument takes that register. */
  lemma AddressIff(cif: Cif)
    requires ValidCif(cif) && InContext(cif)
    ensures (forall j :: 0 <= j < |cif.args| ==> !TakesFirst(cif, j)) <==>
      forall call, s, data, junk :: Trial(cif, call, s, data, junk) ==> AddressArrives(call, s)
  {
    hide AddressArrives, TakesSlot, AllReady, InContext, ValidCif, ValidCall, StackWords, SlotsAfter;
    RoomyReady(cif, SlotCount(cif));
    if j :| 0 <= j < |cif.args| && TakesFirst(cif, j) {
      var call, junk := BlankCall(cif), Zeros(2 * XLEN);
      var s := seq(SlotCount(cif), _ => 0);
      var s' := s[IntSlot(0) := 1];
      assert Trial(cif, call, s, junk, junk) && Trial(cif, call, s', junk, junk);
      AddressLost(call, s, s', j);
    } else {
      forall call, s, data, junk | Trial(cif, call, s, data, junk) ensures AddressArrives(call, s) {
        AddressKept(call, s);
      }
    }
  }

  lemma AddressLost(call: Call, s: seq<nat>, s': seq<nat>, j: nat)
    requires ValidCall(call) && AllReady(call.cif, |s|) && |s| == |s'| > IntSlot(0) && s[IntSlot(0)] != s'[IntSlot(0)]
    requires TakesFirst(call.cif, j)
    ensures !AddressArrives(call, s) || !AddressArrives(call, s')
  {
    hide TakesSlot, Ready, Natural, SlotsAfter;
    TakesOne(call.cif, j, IntSlot(0));
    LastWord(call, call, s, s', -1, |call.values|, IntSlot(0));
  }

  lemma TakesOne(cif: Cif, j: nat, slot: nat)
    requires TakesSlot(cif, j, slot)
    ensures j < |cif.args|
  {
  }

  // When the float registers suffice

  lemma FloatStep(c: Cursor, t: Type, variadic: bool)
    requires c.floats <= NARGREG
    ensures PlanOf(c, t, variadic).next.floats <= NARGREG <==> !(ElementsOf(c, t, variadic).One? && c.floats == NARGREG)
  {
    hide Flatten, AlignUp;
  }

  /** Exactly when no struct of a single float comes after the eighth float register has been used. */
  lemma {:induction false} FloatsFitIff(cif: Cif, n: nat)
    requires n <= |cif.args|
    ensures CursorAt(cif, n).floats <= NARGREG <==>
            forall k :: 0 <= k < n ==> !(CursorAt(cif, k).floats == NARGREG &&
                                         ElementsOf(CursorAt(cif, k), cif.args[k], k >= cif.nfixed).One?)
  {
    hide PlanOf, ElementsOf;
    if n == 0 {
      StartBound(cif);
    } else {
      FloatsFitIff(cif, n - 1);
      CursorsGrow(cif, n - 1, n);
      if CursorAt(cif, n - 1).floats <= NARGREG {
        FloatStep(CursorAt(cif, n - 1), cif.args[n - 1], n - 1 >= cif.nfixed);
      }
    }
  }

  /** Otherwise the ninth float takes the place of the first integer argument. */
  lemma NinthFloat(s: seq<nat>, c: Cursor, t: Type, d: Datum, junk: seq<Byte>)
    requires Natural(t) && DatumOf(t, d) && |junk| == 2 * XLEN && |s| >= 2 * NARGREG
    requires c.floats == NARGREG && ElementsOf(c, t, false).One?
    ensures var p := PlanOf(c, t, false);
      && p.how.Own? && p.pieces == [Piece(IntSlot(0), ElementsOf(c, t, false).code1, 0)]
      && Cuttable(p, t) && InRange(p, s) && t.size == AtomSize(ElementsOf(c, t, false).code1)
      && Marshalled(s, p, t, d, junk) == s[IntSlot(0) := AtomWord(ElementsOf(c, t, false).code1, d.bytes)]
  {
    hide ElementsOf, Natural, SizeOf, AlignOf, Leaves;
    NaturalCuttable(c, t, false);
    ElementsInside(c, t, false);
    var p := PlanOf(c, t, false);
    var q := p.pieces[0];
    assert q in p.pieces && p.pieces == [q] && Cut(d.bytes, q) == d.bytes;
    WrittenOne(s, q, d.bytes);
  }

  lemma FirstOf(p: Plan)
    ensures |p.pieces| > 0 ==> p.pieces[0] in p.pieces
    ensures |p.pieces| > 1 ==> p.pieces[1] in p.pieces
  {
  }

  /** Argument j has a piece there, and not as the ninth float. */
  ghost predicate FirstAsInteger(cif: Cif, j: nat) {
    TakesFirst(cif, j) && !ElementsOf(CursorAt(cif, j), cif.args[j], j >= cif.nfixed).One?
  }

  lemma TakesFirstInteger(c: Cursor, t: Type, variadic: bool)
    requires c.ints == 0 && PlanOf(c, t, variadic).next.ints > 0
    ensures exists q :: q in PlanOf(c, t, variadic).pieces && q.slot == IntSlot(0)
    ensures !ElementsOf(c, t, variadic).One?
  {
    hide Flatten, AlignUp;
    FirstOf(PlanOf(c, t, variadic));
  }

  /** An integer register is in use after k arguments because of the result, or of an argument with a piece in the
      first. */
  lemma {:induction false} FirstInUse(cif: Cif, k: nat)
    requires k <= |cif.args| && CursorAt(cif, k).ints > 0
    ensures Start(cif).ints > 0 || exists j :: 0 <= j < k && FirstAsInteger(cif, j)
  {
    hide PlanOf, ElementsOf;
    if k > 0 {
      if CursorAt(cif, k - 1).ints > 0 {
        FirstInUse(cif, k - 1);
      } else {
        TakesFirstInteger(CursorAt(cif, k - 1), cif.args[k - 1], k - 1 >= cif.nfixed);
        assert FirstAsInteger(cif, k - 1);
      }
    }
  }

  /** Argument k is the struct of one float that asks for the ninth float register. */
  predicate AsksNinth(cif: Cif, k: nat) {
    && k < |cif.args| && CursorAt(cif, k).floats == NARGREG
    && ElementsOf(CursorAt(cif, k), cif.args[k], k >= cif.nfixed).One?
  }

  /** It gets the first integer register, which another argument or the address of the result has as well. */
  ghost predicate FirstIsShared(cif: Cif) {
    exists k :: AsksNinth(cif, k) && (Start(cif).ints > 0 || exists j :: j != k && TakesFirst(cif, j))
  }

  /** Exactly then registers are given away twice. */
  lemma FitsIff(cif: Cif)
    requires InContext(cif)
    ensures SlotsFit(cif) <==> !FirstIsShared(cif)
  {
    hide PlanOf, ElementsOf, TakesFirst;
    var n := |cif.args|;
    StackEstimate(cif, n);
    if !SlotsFit(cif) {
      var k := NinthAsked(cif, n);
      FirstInUse(cif, n);
      if Start(cif).ints == 0 {
        var j :| 0 <= j < n && FirstAsInteger(cif, j);
        assert j != k;
      }
    } else if FirstIsShared(cif) {
      var k :| AsksNinth(cif, k) && (Start(cif).ints > 0 || exists j :: j != k && TakesFirst(cif, j));
      NinthLeavesNone(cif, k);
      if Start(cif).ints == 0 {
        var j :| j != k && TakesFirst(cif, j);
        OnlyNinth(cif, k, j);
      }
    }
  }

  lemma TakenBetween(cif: Cif, k: nat, slot: nat)
    requires TakesSlot(cif, k, slot)
    ensures k < |cif.args| && Between(CursorAt(cif, k), CursorAt(cif, k + 1), slot)
  {
    hide PlanOf;
    CursorsGrow(cif, k, k);
    PlanAdvances(CursorAt(cif, k), cif.args[k], k >= cif.nfixed);
  }

  /** Different arguments then never have the same slot. */
  lemma SlotsApart(cif: Cif, k: nat, j: nat, slot: nat)
    requires SlotsFit(cif) && k < j < |cif.args| && TakesSlot(cif, k, slot)
    ensures !TakesSlot(cif, j, slot)
  {
    hide CursorAt, TakesSlot;
    TakenBetween(cif, k, slot);
    CursorsGrow(cif, k, k + 1);
    CursorsGrow(cif, k + 1, j);
    CursorsGrow(cif, j, j + 1);
    CursorsGrow(cif, j + 1, |cif.args|);
    StartBound(cif);
    if TakesSlot(cif, j, slot) {
      TakenBetween(cif, j, slot);
    }
  }

  /** Nor is the first integer register taken when the address of the result is there. */
  lemma AddressApart(cif: Cif, j: nat)
    requires SlotsFit(cif) && Start(cif).ints > 0 && j < |cif.args|
    ensures !TakesFirst(cif, j)
  {
    hide CursorAt, TakesSlot;
    StartBound(cif);
    CursorsGrow(cif, j, j + 1);
    CursorsGrow(cif, j + 1, |cif.args|);
    if TakesFirst(cif, j) {
      TakenBetween(cif, j, IntSlot(0));
    }
  }

  lemma NinthTakesFirst(cif: Cif, k: nat)
    requires AsksNinth(cif, k)
    ensures TakesFirst(cif, k)
  {
    var p := PlanAt(cif, k);
    assert p.pieces[0] in p.pieces && p.pieces[0].slot == IntSlot(0);
  }

  /** The argument that loses its register is the one that had it first. */
  lemma SharedIff(cif: Cif)
    requires InContext(cif)
    ensures FirstIsShared(cif) <==>
      || (exists k :: 0 <= k < |cif.args| && Overwritten(cif, k))
      || (Start(cif).ints > 0 && exists j :: 0 <= j < |cif.args| && TakesFirst(cif, j))
  {
    hide TakesSlot, TakesFirst, PlanOf, AsksNinth;
    FitsIff(cif);
    if FirstIsShared(cif) {
      var k: nat :| AsksNinth(cif, k) && (Start(cif).ints > 0 || exists j :: j != k && TakesFirst(cif, j));
      NinthTakesFirst(cif, k);
      FirstTaken(cif, k);
      if Start(cif).ints == 0 {
        var j: nat :| j != k && TakesFirst(cif, j);
        FirstTaken(cif, j);
        assert Overwritten(cif, if k < j then k else j);
      }
    } else {
      if k :| 0 <= k < |cif.args| && Overwritten(cif, k) {
        var j, slot :| k < j && TakesSlot(cif, k, slot) && TakesSlot(cif, j, slot);
        TakesOne(cif, j, slot);
        SlotsApart(cif, k, j, slot);
      }
      if Start(cif).ints > 0 {
        forall j | 0 <= j < |cif.args| ensures !TakesFirst(cif, j) {
          AddressApart(cif, j);
        }
      }
    }
  }

  lemma FirstTaken(cif: Cif, j: nat)
    requires TakesFirst(cif, j)
    ensures j < |cif.args| && TakesSlot(cif, j, IntSlot(0))
  {
  }

  /** Everything that was passed arrives: all arguments, and the address for a big result. */
  ghost predicate AllArrive(call: Call, s: seq<nat>, data: seq<Byte>, junk: seq<Byte>) {
    && (forall k :: 0 <= k < |call.cif.args| ==> Arrives(call, s, k, data, junk))
    && (PassedByRef(FRESH, call.cif.rtype, false) ==> AddressArrives(call, s))
  }

  lemma AddressPassed(cif: Cif)
    ensures PassedByRef(FRESH, cif.rtype, false) <==> Start(cif).ints > 0
  {
    hide PassedByRef;
  }

  /** Every call of a function delivers all there is to deliver, exactly if the first integer register is not shared. */
  lemma DeliversIff(cif: Cif)
    requires ValidCif(cif) && InContext(cif)
    ensures !FirstIsShared(cif) <==>
      forall call, s, data, junk :: Trial(cif, call, s, data, junk) ==> AllArrive(call, s, data, junk)
  {
    hide Overwritten, Arrives, AddressArrives, FirstIsShared, InContext, ValidCif, PassedByRef, TakesFirst, ValidCall;
    SharedIff(cif);
    AddressPassed(cif);
    AddressIff(cif);
    if !FirstIsShared(cif) {
      forall call, s, data, junk | Trial(cif, call, s, data, junk) ensures AllArrive(call, s, data, junk) {
        forall k | 0 <= k < |cif.args| ensures Arrives(call, s, k, data, junk) {
          ArrivesIff(cif, k);
        }
      }
    } else if k :| 0 <= k < |cif.args| && Overwritten(cif, k) {
      ArrivesIff(cif, k);
      var call, s, data, junk :| Trial(cif, call, s, data, junk) && !Arrives(call, s, k, data, junk);
      assert !AllArrive(call, s, data, junk);
    } else {
      var call, s, data, junk :| Trial(cif, call, s, data, junk) && !AddressArrives(call, s);
      assert !AllArrive(call, s, data, junk);
    }
  }

  lemma {:induction false} NinthAsked(cif: Cif, n: nat) returns (k: nat)
    requires n <= |cif.args| && CursorAt(cif, n).floats > NARGREG
    ensures AsksNinth(cif, k)
  {
    hide PlanOf, ElementsOf;
    StartBound(cif);
    if CursorAt(cif, n - 1).floats > NARGREG {
      k := NinthAsked(cif, n - 1);
    } else {
      k := n - 1;
      FloatStep(CursorAt(cif, k), cif.args[k], k >= cif.nfixed);
    }
  }

  lemma NinthLeavesNone(cif: Cif, k: nat)
    requires SlotsFit(cif) && AsksNinth(cif, k)
    ensures CursorAt(cif, |cif.args|).ints == 0 && Start(cif).ints == 0
  {
    hide PlanOf, ElementsOf;
    FloatStep(CursorAt(cif, k), cif.args[k], k >= cif.nfixed);
    CursorsGrow(cif, k + 1, |cif.args|);
  }

  /** With no integer register in use, only one argument has the ninth float register. */
  lemma OnlyNinth(cif: Cif, k: nat, j: nat)
    requires AsksNinth(cif, k) && TakesFirst(cif, j) && CursorAt(cif, |cif.args|).ints == 0 && SlotsFit(cif)
    ensures j == k
  {
    hide PlanOf, ElementsOf;
    var n := |cif.args|;
    CursorsGrow(cif, j, j + 1);
    CursorsGrow(cif, j + 1, n);
    PlanAdvances(CursorAt(cif, j), cif.args[j], j >= cif.nfixed);
    var q :| q in PlanAt(cif, j).pieces && q.slot == IntSlot(0);
    assert CursorAt(cif, j).floats <= NARGREG < CursorAt(cif, j + 1).floats;
    FloatStep(CursorAt(cif, k), cif.args[k], k >= cif.nfixed);
    if j < k { CursorsGrow(cif, j + 1, k); }
    if k < j { CursorsGrow(cif, k + 1, j); }
  }

  const INT_ARGUMENT := Type(SINT64, 8, 8, [])
  const DOUBLE_ARGUMENT := Type(DOUBLE, 8, 8, [])
  const FLOAT_STRUCT := Type(STRUCT, 4, 4, [Type(FLOAT, 4, 4, [])])

  /** An integer, eight doubles, and a struct of one float. */
  function NineFloats(): Cif {
    var d := DOUBLE_ARGUMENT;
    Cif(INT_ARGUMENT, [INT_ARGUMENT, d, d, d, d, d, d, d, d, FLOAT_STRUCT], 10)
  }

  lemma ScalarSteps(c: Cursor)
    requires c.floats < NARGREG && c.ints == 1
    ensures PlanOf(c, DOUBLE_ARGUMENT, false) ==
      Plan(c.(floats := c.floats + 1), Own, [Piece(FloatSlot(c.floats), DOUBLE, 0)])
    ensures PlanOf(FRESH, INT_ARGUMENT, false) == Plan(Cursor(1, 0, 0), Own, [Piece(IntSlot(0), SINT64, 0)])
  {
  }

  lemma {:induction false} DoublesPlaced(k: nat)
    requires 1 <= k <= 9
    ensures CursorAt(NineFloats(), k) == Cursor(1, k - 1, 0)
  {
    hide PlanOf;
    ScalarSteps(Cursor(1, if k >= 2 then k - 2 else 0, 0));
    if k == 1 {
      assert Start(NineFloats()) == FRESH;
      assert CursorAt(NineFloats(), 0) == FRESH;
    } else {
      DoublesPlaced(k - 1);
      assert NineFloats().args[k - 1] == DOUBLE_ARGUMENT;
    }
  }

  lemma FloatStructFlat(c: Cursor)
    ensures ElementsOf(c, FLOAT_STRUCT, false) == One(FLOAT)
  {
    var e := Type(FLOAT, 4, 4, []);
    assert FLOAT_STRUCT.elements == [e] && Flatten(e, 3) == [e];
    assert FlattenAll(FLOAT_STRUCT, 1, 2) == [];
    assert FlattenAll(FLOAT_STRUCT, 0, 3) == [e];
    assert Flatten(FLOAT_STRUCT, 3) == [e];
  }

  lemma NineFloatsPlaced()
    ensures var cif := NineFloats();
      && ValidCif(cif) && InContext(cif) && AsksNinth(cif, 9)
      && PlanAt(cif, 0) == Plan(Cursor(1, 0, 0), Own, [Piece(IntSlot(0), SINT64, 0)])
      && PlanAt(cif, 9) == Plan(Cursor(1, 9, 0), Own, [Piece(IntSlot(0), FLOAT, 0)])
  {
    hide PlanOf, ElementsOf;
    DoublesPlaced(9);
    ScalarSteps(Cursor(1, 0, 0));
    assert CursorAt(NineFloats(), 0) == FRESH by { assert Start(NineFloats()) == FRESH; }
    FloatStructFlat(Cursor(1, 8, 0));
    OneFloatPlan(Cursor(1, 8, 0), FLOAT_STRUCT);
    FloatStructNatural();
  }

  lemma FloatStructNatural()
    ensures Natural(INT_ARGUMENT) && Natural(DOUBLE_ARGUMENT) && Natural(FLOAT_STRUCT)
  {
    hide Offset, End, MaxAlign;
    var e := Type(FLOAT, 4, 4, []);
    assert Natural(e) && Inhabited(e) && SizeOf(e) == 4 && AlignOf(e) == 4;
    var t := FLOAT_STRUCT;
    assert t.elements == [e] && t.elements[0] == e;
    FirstField(t, 0);
    assert Inhabited(t) && SizeOf(t) == 4 && AlignOf(t) == 4;
  }

  /** Such a call: the caller's float goes where the integer is, and the closure reads the float's word as the integer,
      which therefore arrives only if it happens to be that word. */
  lemma NinthFloatSpoils(call: Call, s: seq<nat>, data: seq<Byte>, junk: seq<Byte>)
    requires Trial(NineFloats(), call, s, data, junk)
    ensures AllReady(call.cif, |s|) && |call.values[9].bytes| == 4
    ensures var word := AtomWord(FLOAT, call.values[9].bytes);
      && UnmarshalArgument(call.cif, SlotsAfter(call, s, 10), 0, data, junk)
         == Here(AtomBytes(SINT64, word) + data[8..])
      && (Arrives(call, s, 0, data, junk) <==> Decode(call.values[0].bytes) == word)
  {
    hide *;
    TrialReady(call, s, data, junk);
    AfterOne(call, s, 9);
    FloatWritten(call, SlotsAfter(call, s, 9));
    IntegerRead(call, SlotsAfter(call, s, 10), data, junk);
    WordRead(call.values[9].bytes, call.values[0].bytes);
    ArrivesIs(call, s, 0, data, junk);
  }

  lemma TrialReady(call: Call, s: seq<nat>, data: seq<Byte>, junk: seq<Byte>)
    requires Trial(NineFloats(), call, s, data, junk)
    ensures ValidCall(call) && call.cif == NineFloats() && |call.values| == |call.cif.args| == 10
    ensures |data| == |junk| == 2 * XLEN
    ensures AllReady(call.cif, |s|) && Ready(call.cif, 0, |s|) && Ready(call.cif, 9, |s|)
  {
    hide Ready, CursorAt, PlanAt, Natural;
    NineFloatsPlaced();
    RoomyReady(NineFloats(), |s|);
  }

  lemma ArrivesIs(call: Call, s: seq<nat>, k: nat, data: seq<Byte>, junk: seq<Byte>)
    requires ValidCall(call) && AllReady(call.cif, |s|) && k < |call.values| && |data| == |junk| == 2 * XLEN
    ensures Ready(call.cif, k, |s|)
    ensures Arrives(call, s, k, data, junk) <==>
      Got(call, k, |s|, UnmarshalArgument(call.cif, SlotsAfter(call, s, |call.values|), k, data, junk))
  {
    hide Ready, Got, UnmarshalArgument, SlotsAfter, Natural;
  }

  lemma WordRead(float: seq<Byte>, number: seq<Byte>)
    requires |float| == 4 && |number| == 8
    ensures AtomBytes(SINT64, AtomWord(FLOAT, float)) == number <==> Decode(number) == AtomWord(FLOAT, float)
  {
    WordBack(AtomWord(FLOAT, float), float);
    AtomRoundTrip(SINT64, number);
  }

  lemma FloatWritten(call: Call, s: seq<nat>)
    requires ValidCall(call) && call.cif == NineFloats() && Ready(call.cif, 9, |s|)
    ensures |call.values[9].bytes| == 4 && |s| > IntSlot(0)
    ensures MarshalArgument(call, s, 9)[IntSlot(0)] == AtomWord(FLOAT, call.values[9].bytes)
  {
    hide PlanOf, ElementsOf, Natural, AtomWord;
    NineFloatsPlaced();
    var q := Piece(IntSlot(0), FLOAT, 0);
    var b := call.values[9].bytes;
    assert q in PlanAt(call.cif, 9).pieces && Cut(b, q) == b;
    WrittenOne(s, q, b);
  }

  lemma IntegerRead(call: Call, s: seq<nat>, data: seq<Byte>, junk: seq<Byte>)
    requires ValidCall(call) && call.cif == NineFloats() && Ready(call.cif, 0, |s|) && |data| == |junk| == 2 * XLEN
    ensures |s| > IntSlot(0) && |call.values[0].bytes| == 8
    ensures var r := UnmarshalArgument(call.cif, s, 0, data, junk);
      && r == Here(AtomBytes(SINT64, s[IntSlot(0)]) + data[8..])
      && (Got(call, 0, |s|, r) <==> AtomBytes(SINT64, s[IntSlot(0)]) == call.values[0].bytes)
  {
    hide PlanOf, ElementsOf, Natural, AtomBytes;
    NineFloatsPlaced();
    var q := Piece(IntSlot(0), SINT64, 0);
    var b := call.values[0].bytes;
    assert q in PlanAt(call.cif, 0).pieces && Cut(b, q) == b;
    StoredOne(data, q, s);
    assert data[..0] == [];
  }

  lemma OneFloatPlan(c: Cursor, t: Type)
    requires ElementsOf(c, t, false) == One(FLOAT)
    ensures PlanOf(c, t, false) == Plan(c.(floats := c.floats + 1), Own, [Piece(FloatSlot(c.floats), FLOAT, 0)])
  {
  }

  lemma WordBack(w: nat, float: seq<Byte>)
    requires |float| == 4 && w == AtomWord(FLOAT, float)
    ensures Decode(AtomBytes(SINT64, w)) == w
  {
    DecodeEncode(w, 8);
  }

  // The way back

  /** The registers that carry results: fa0, fa1, a0 and a1. */
  predicate ResultSlot(slot: nat) {
    FloatSlot(0) <= slot <= FloatSlot(1) || IntSlot(0) <= slot <= IntSlot(1)
  }

  /** With the register counters reset, the place of a result does not depend on the stack. */
  lemma ResultPlace(t: Type, w: nat, w': nat)
    requires !PassedByRef(FRESH, t, false)
    ensures var p, p' := PlanOf(Cursor(0, 0, w), t, false), PlanOf(Cursor(0, 0, w'), t, false);
            p.how == p'.how && !p.how.Reference? && p.pieces == p'.pieces && forall q :: q in p.pieces ==>
              ResultSlot(q.slot)
  {
    hide Flatten, AlignUp;
    assert PassedAsElements(Cursor(0, 0, w), t) == PassedAsElements(FRESH, t) == PassedAsElements(Cursor(0, 0, w'), t);
  }

  lemma ResultHeld(s: seq<nat>, s': seq<nat>, p: Plan, t: Type, d: Datum, junk: seq<Byte>)
    requires Cuttable(p, t) && DatumOf(t, d) && |junk| == 2 * XLEN && |s| >= 2 * NARGREG && |s'| >= 2 * NARGREG
    requires Distinct(p.pieces) && forall q :: q in p.pieces ==> ResultSlot(q.slot)
    requires InRange(p, s)
    requires forall k :: 0 <= k < 2 * NARGREG && ResultSlot(k) ==> s'[k] == Marshalled(s, p, t, d, junk)[k]
    ensures Holds(s', p.pieces, Image(p.how, t, d, junk))
  {
    hide Natural, Image, Written;
    WrittenHolds(s, p.pieces, Image(p.how, t, d, junk));
  }

  /** What the closure marshals as its result is what the caller unmarshals, if the four registers are passed on; the
      stack pointers, which neither side resets, may differ. */
  lemma ResultReturns(s: seq<nat>, s': seq<nat>, t: Type, w: nat, w': nat, d: Datum, junk: seq<Byte>, data: seq<Byte>,
                      junk': seq<Byte>)
    requires Natural(t) && DatumOf(t, d) && |data| == |junk| == |junk'| == 2 * XLEN && |s| >= 2 * NARGREG
    requires |s'| >= 2 * NARGREG
    requires !PassedByRef(FRESH, t, false)
    ensures var p, p' := PlanOf(Cursor(0, 0, w), t, false), PlanOf(Cursor(0, 0, w'), t, false);
      && Cuttable(p, t) && InRange(p, s) && Cuttable(p', t) && InRange(p', s')
      && ((forall k :: 0 <= k < 2 * NARGREG && ResultSlot(k) ==> s'[k] == Marshalled(s, p, t, d, junk)[k])
          ==> Delivered(p', t, d, Unmarshalled(s', p', t, data, junk')))
  {
    hide PlanOf, Natural, Image, Written, Delivered, Unmarshalled, Cuttable;
    ResultPlace(t, w, w');
    var p, p' := PlanOf(Cursor(0, 0, w), t, false), PlanOf(Cursor(0, 0, w'), t, false);
    NaturalCuttable(Cursor(0, 0, w), t, false);
    NaturalCuttable(Cursor(0, 0, w'), t, false);
    PlanAdvances(Cursor(0, 0, w), t, false);
    FloatStep(Cursor(0, 0, w), t, false);
    if forall k :: 0 <= k < 2 * NARGREG && ResultSlot(k) ==> s'[k] == Marshalled(s, p, t, d, junk)[k] {
      ResultHeld(s, s', p, t, d, junk);
      ArgumentReturns(s', p', t, d, junk, data, junk');
    }
  }
}
