/** ffi_prep_args_VFP writes the arguments, ffi_prep_incoming_args_VFP finds them. */
module ArmPass {
  import opened FfiTypes
  import opened ByteAreas
  import opened ArmVfp
  import opened ArmRegs
  import opened ArmArgs
  import opened ArmCalls
  import opened ArmSizing

  const VFP_SPACE := 64

  /** ffi_put_arg extends small integers to a word and copies everything else. */
  function PutBytes(t: Type, src: seq<Byte>): (r: seq<Byte>)
    requires |src| == t.size > 0
    ensures t.size <= |r| <= Pad4(t.size) && r[..t.size] == src
  {
    PadIs(t.size);
    Small4(t.size);
    if (t.code == SINT8 || t.code == SINT16 || t.code == UINT8 || t.code == UINT16) && t.size < 4 then
      src + Fill(4 - t.size, SignByte(t, src[t.size - 1]))
    else src
  }

  function SignByte(t: Type, top: Byte): Byte {
    if (t.code == SINT8 || t.code == SINT16) && top >= 128 then 255 else 0
  }

  predicate SmallInt(t: Type) {
    (t.code == SINT8 || t.code == UINT8 || t.code == SINT16 || t.code == UINT16) && (t.size == 1 || t.size == 2)
  }

  lemma PutIs(t: Type, src: seq<Byte>)
    requires SmallInt(t) && |src| == t.size
    ensures t.size == 1 ==> PutBytes(t, src) == [src[0], SignByte(t, src[0]), SignByte(t, src[0]), SignByte(t, src[0])]
    ensures t.size == 2 ==> PutBytes(t, src) == [src[0], src[1], SignByte(t, src[1]), SignByte(t, src[1])]
  {
    hide Pad4;
    var fill := SignByte(t, src[t.size - 1]);
    assert Fill(2, fill) == [fill, fill] && Fill(3, fill) == [fill, fill, fill];
  }

  /** The word has the value of the small integer, as a 32-bit number in two's complement if it is signed. */
  lemma PutKeepsValue(t: Type, src: seq<Byte>)
    requires SmallInt(t) && |src| == t.size
    ensures var v, w := Decode(src), Pow256(t.size);
      Decode(PutBytes(t, src)) == if (t.code == SINT8 || t.code == SINT16) && 2 * v >= w then Pow256(4) - w + v else v
  {
    hide Decode, PutBytes;
    PutIs(t, src);
    if t.size == 1 {
      assert src == [src[0]];
      DecodeOne(src[0]);
      DecodeFour(src[0], SignByte(t, src[0]), SignByte(t, src[0]), SignByte(t, src[0]));
    } else {
      assert src == [src[0], src[1]];
      DecodeTwo(src[0], src[1]);
      DecodeFour(src[0], src[1], SignByte(t, src[1]), SignByte(t, src[1]));
    }
  }

  lemma DecodeOne(b: Byte)
    ensures Decode([b]) == b
  {
    assert [b][1..] == [];
  }

  lemma DecodeTwo(b0: Byte, b1: Byte)
    ensures var x0: nat, x1: nat := b0, b1; Decode([b0, b1]) == x0 + 256 * x1
  {
    assert [b0, b1][1..] == [b1];
    DecodeOne(b1);
  }

  lemma DecodeFour(b0: Byte, b1: Byte, b2: Byte, b3: Byte)
    ensures var x0: nat, x1: nat, x2: nat, x3: nat := b0, b1, b2, b3;
      Decode([b0, b1, b2, b3]) == x0 + 256 * x1 + 0x1_0000 * x2 + 0x100_0000 * x3
  {
    assert [b0, b1, b2, b3][1..] == [b1, b2, b3] && [b1, b2, b3][1..] == [b2, b3];
    DecodeTwo(b2, b3);
    assert Decode([b1, b2, b3]) == [b1, b2, b3][0] + 256 * Decode([b2, b3]);
  }

  method FfiPutArg(t: Type, src: seq<Byte>, dst: array<Byte>, at: nat) returns (z: nat)
    requires |src| == t.size > 0 && at + Pad4(t.size) <= dst.Length
    modifies dst
    ensures dst[..] == Over(old(dst[..]), at, PutBytes(t, src)) && z == Pad4(t.size)
  {
    var b := PutBytes(t, src);
    Write(dst, at, b);
    z := Pad4(t.size);
  }

  predicate ValuesOf(c: ArmCall, values: seq<seq<Byte>>) {
    |values| == |c.args| && forall k :: 0 <= k < |values| ==> |values[k]| == c.args[k].size
  }

  predicate HoldsIn(stack: seq<Byte>, vfp: seq<Byte>, slot: Slot, value: seq<Byte>) {
    match slot
    case InVfp(at) => Holds(vfp, at, value)
    case OnStack(at) => Holds(stack, at, value)
  }

  lemma PutHere(area: seq<Byte>, at: nat, t: Type, value: seq<Byte>)
    requires |value| == t.size > 0 && at + |PutBytes(t, value)| <= |area|
    ensures Holds(Over(area, at, PutBytes(t, value)), at, value)
  {
    var b := PutBytes(t, value);
    var now := Over(area, at, b);
    assert now[at..at + |value|] == now[at..at + |b|][..|value|];
  }

  lemma {:induction false} BooksGrow(c: ArmCall, i: nat, k: nat)
    requires ValidCall(c) && i <= k <= |c.args|
    ensures CallerAt(c, i).regp <= CallerAt(c, k).regp && CallerAt(c, i).argp <= CallerAt(c, k).argp
    decreases k
  {
    hide CallerStep, InRegisters, Codes, CallerOk, CallerAt, ValidCall;
    if i < k {
      BooksGrow(c, i, k - 1);
      BookGrows(c, k - 1);
    }
  }

  lemma BookGrows(c: ArmCall, k: nat)
    requires ValidCall(c) && k < |c.args|
    ensures CallerAt(c, k).regp <= CallerAt(c, k + 1).regp && CallerAt(c, k).argp <= CallerAt(c, k + 1).argp
  {
    hide CallerStep, InRegisters, Codes, CallerOk;
    BooksAgree(c, k);
    ArgPlain(c, k);
    CallerKeeps(CallerAt(c, k), c.args[k].size, c.args[k].alignment, Codes(c.args)[k].Vfp?);
  }

  /** Every slot lies in its area, behind the address of the result. */
  lemma SlotInside(c: ArmCall, k: nat)
    requires ValidCall(c) && k < |c.args|
    ensures SlotEnd(c, k) <= if CallerSlot(c, k).InVfp? then VFP_SPACE else Bytes(c)
    ensures CallerSlot(c, k).OnStack? && StructReturn(c) ==> CallerSlot(c, k).at >= 4
  {
    hide CallerStep, Codes, CallerOk, Bytes, StructReturn;
    if InRegisters(c, k) {
      RegisterSlot(c, k);
    } else {
      StackBelow(c, k, k + 1);
      BooksGrow(c, k + 1, |c.args|);
      StackSuffices(c);
      BooksGrow(c, 0, k);
      BooksAgree(c, k);
      ArgPlain(c, k);
      SlotAbove(CallerAt(c, k), c.args[k].size, c.args[k].alignment, Codes(c.args)[k].Vfp?);
    }
  }

  lemma SlotAbove(b: Books, size: nat, a: nat, vfp: bool)
    requires CallerOk(b) && ArmAlign(a)
    ensures CallerStep(b, size, a, vfp).1 >= b.regp
  {
    hide AlignPtr, Pad4, Word;
    AlignIs(b.regp, a);
    AlignIs(b.argp, a);
  }

  /** The entries that have been used up before argument k, as both loops count them. */
  ghost predicate CountsEntries(c: ArmCall, k: nat, vi: nat)
    requires ValidCall(c) && k <= |c.args|
  {
    var n := |Placements(c)|;
    vi == if VfpIndex(Codes(c.args), k) < n then VfpIndex(Codes(c.args), k) else n
  }

  lemma NextEntry(c: ArmCall, k: nat, vi: nat)
    requires ValidCall(c) && k < |c.args| && CountsEntries(c, k, vi)
    ensures InRegisters(c, k) <==> vi < |Placements(c)| && VfpType(c.args[k]).Vfp?
    ensures CountsEntries(c, k + 1, if InRegisters(c, k) then vi + 1 else vi)
    ensures InRegisters(c, k) ==> CallerSlot(c, k) == ClosureSlot(c, k) == InVfp(4 * Placements(c)[vi].reg)
  {
    hide VfpType, CallerStep, ClosureStep, Placements;
    VfpIndexGrows(Codes(c.args), k, k + 1);
  }

  lemma NextBooks(c: ArmCall, k: nat)
    requires ValidCall(c) && k < |c.args|
    ensures Plain(c.args[k]) && ArmType(c.args[k])
    ensures var t, v := c.args[k], Codes(c.args)[k].Vfp?;
      if InRegisters(c, k) then CallerAt(c, k + 1) == CallerAt(c, k) && ClosureAt(c, k + 1) == ClosureAt(c, k)
      else
        && CallerStep(CallerAt(c, k), t.size, t.alignment, v) == (CallerAt(c, k + 1), CallerSlot(c, k).at)
        && CallerSlot(c, k).OnStack?
        && ClosureStep(ClosureAt(c, k), t.size, t.alignment, v) == (ClosureAt(c, k + 1), ClosureSlot(c, k).at)
        && ClosureSlot(c, k).OnStack?
  {
    hide VfpType, CallerStep, ClosureStep, InRegisters;
    ArgPlain(c, k);
  }

  /** The first k arguments are in their slots, and the address of the result in r0. */
  ghost predicate Passed(c: ArmCall, k: nat, values: seq<seq<Byte>>, rvalue: seq<Byte>, stack: seq<Byte>,
                         vfp: seq<Byte>)
    requires ValidCall(c) && k <= |c.args| && |values| == |c.args|
  {
    && (forall i :: 0 <= i < k ==> HoldsIn(stack, vfp, CallerSlot(c, i), values[i]))
    && (StructReturn(c) ==> Holds(stack, 0, rvalue))
  }

  /** The area that a slot is in, after its bytes have been written. */
  ghost function Put(s: Slot, own: bool, area: seq<Byte>, b: seq<Byte>): (r: seq<Byte>)
    requires own ==> s.at + |b| <= |area|
    ensures |r| == |area|
  {
    if own then Over(area, s.at, b) else area
  }

  lemma SlotExtent(c: ArmCall, k: nat, values: seq<seq<Byte>>)
    requires ValidCall(c) && k < |c.args| && ValuesOf(c, values)
    ensures c.args[k].size > 0 && |values[k]| == c.args[k].size
    ensures CallerSlot(c, k).at + |values[k]| <= CallerSlot(c, k).at + |PutBytes(c.args[k], values[k])| <= SlotEnd(c, k)
    ensures SlotEnd(c, k) <= if CallerSlot(c, k).InVfp? then VFP_SPACE else Bytes(c)
  {
    hide CallerSlot, Pad4;
    ArgPlain(c, k);
    PadIs(c.args[k].size);
    SlotInside(c, k);
  }

  lemma KeepsArgument(c: ArmCall, i: nat, k: nat, values: seq<seq<Byte>>, stack: seq<Byte>, vfp: seq<Byte>,
                      b: seq<Byte>)
    requires ValidCall(c) && i < k < |c.args| && ValuesOf(c, values) && |stack| >= Bytes(c) && |vfp| == VFP_SPACE
    requires HoldsIn(stack, vfp, CallerSlot(c, i), values[i]) && CallerSlot(c, k).at + |b| <= SlotEnd(c, k)
    ensures var s := CallerSlot(c, k); s.at + |b| <= if s.InVfp? then VFP_SPACE else |stack|
    ensures var s := CallerSlot(c, k);
      HoldsIn(Put(s, s.OnStack?, stack, b), Put(s, s.InVfp?, vfp, b), CallerSlot(c, i), values[i])
  {
    hide CallerSlot, SlotEnd, Bytes, Over;
    SlotExtent(c, i, values);
    SlotExtent(c, k, values);
    SlotsApart(c, i, k);
    var s, s' := CallerSlot(c, i), CallerSlot(c, k);
    if s.InVfp? && s'.InVfp? {
      WriteElsewhere(vfp, s.at, values[i], SlotEnd(c, i), s'.at, b, SlotEnd(c, k));
    } else if s.OnStack? && s'.OnStack? {
      WriteElsewhere(stack, s.at, values[i], SlotEnd(c, i), s'.at, b, SlotEnd(c, k));
    }
  }

  /** Writing argument k leaves the ones before it alone. */
  lemma PassedOn(c: ArmCall, k: nat, values: seq<seq<Byte>>, rvalue: seq<Byte>, stack: seq<Byte>, vfp: seq<Byte>)
    requires ValidCall(c) && k < |c.args| && ValuesOf(c, values) && |rvalue| == 4 && |stack| >= Bytes(c)
    requires |vfp| == VFP_SPACE
    requires Passed(c, k, values, rvalue, stack, vfp)
    ensures c.args[k].size > 0 && |values[k]| == c.args[k].size
    ensures var s := CallerSlot(c, k); s.at + Pad4(c.args[k].size) <= if s.InVfp? then VFP_SPACE else |stack|
    ensures var s, b := CallerSlot(c, k), PutBytes(c.args[k], values[k]);
      Passed(c, k + 1, values, rvalue, Put(s, s.OnStack?, stack, b), Put(s, s.InVfp?, vfp, b))
  {
    hide CallerSlot, Bytes, Over, PutBytes, StructReturn, HoldsIn, Holds;
    SlotExtent(c, k, values);
    SlotInside(c, k);
    var s, b := CallerSlot(c, k), PutBytes(c.args[k], values[k]);
    var stack', vfp' := Put(s, s.OnStack?, stack, b), Put(s, s.InVfp?, vfp, b);
    forall i | 0 <= i < k + 1 ensures HoldsIn(stack', vfp', CallerSlot(c, i), values[i]) {
      if i < k {
        KeepsArgument(c, i, k, values, stack, vfp, b);
      } else {
        HoldsNew(s, stack, vfp, c.args[k], values[k]);
      }
    }
    if StructReturn(c) && s.OnStack? {
      WriteElsewhere(stack, 0, rvalue, 4, s.at, b, SlotEnd(c, k));
    }
  }

  lemma HoldsNew(s: Slot, stack: seq<Byte>, vfp: seq<Byte>, t: Type, value: seq<Byte>)
    requires |value| == t.size > 0 && s.at + |PutBytes(t, value)| <= if s.InVfp? then |vfp| else |stack|
    ensures var b := PutBytes(t, value); HoldsIn(Put(s, s.OnStack?, stack, b), Put(s, s.InVfp?, vfp, b), s, value)
  {
    hide Over, PutBytes;
    PutHere(if s.InVfp? then vfp else stack, s.at, t, value);
  }

  // The two loops

  /** An argument that has no floating-point registers: core registers, both, or the stack. */
  method PutInCore(b: Books, t: Type, src: seq<Byte>, vfp: bool, stack: array<Byte>) returns (b': Books)
    requires Plain(t) && |src| == t.size && CallerStep(b, t.size, t.alignment, vfp).1 + Pad4(t.size) <= stack.Length
    modifies stack
    ensures b' == CallerStep(b, t.size, t.alignment, vfp).0
    ensures stack[..] == Over(old(stack[..]), CallerStep(b, t.size, t.alignment, vfp).1, PutBytes(t, src))
  {
    hide AlignPtr, Pad4, PutBytes, Over;
    var Books(regp, argp, stackUsed, done) := b;
    if !done && !vfp {
      var tregp := AlignPtr(regp, t.alignment);
      if tregp + Widen(t.size) <= CORE {
        var z := FfiPutArg(t, src, stack, tregp);
        regp := tregp + z;
        done := regp == argp;
        return Books(regp, argp, stackUsed, done);
      } else if !stackUsed {
        stackUsed, done := true, true;
        var z := FfiPutArg(t, src, stack, tregp);
        argp := tregp + z;
        return Books(regp, argp, stackUsed, done);
      }
    }
    stackUsed := true;
    argp := AlignPtr(argp, t.alignment);
    var z := FfiPutArg(t, src, stack, argp);
    argp := argp + z;
    b' := Books(regp, argp, stackUsed, done);
  }

  /** The same on the closure's side. */
  method FindInCore(b: Books, t: Type, vfp: bool) returns (b': Books, at: nat)
    requires Plain(t)
    ensures (b', at) == ClosureStep(b, t.size, t.alignment, vfp)
  {
    hide AlignPtr;
    var Books(regp, argp, stackUsed, done) := b;
    var z := t.size;
    if !done && !vfp {
      var tregp := AlignPtr(regp, t.alignment);
      z := Widen(z);
      if tregp + z <= CORE || !stackUsed {
        at := tregp;
        regp := tregp + z;
        if regp > CORE {
          argp := regp;
        }
        if regp >= CORE {
          done, stackUsed := true, true;
        }
        return Books(regp, argp, stackUsed, done), at;
      }
    }
    stackUsed := true;
    argp := AlignPtr(argp, t.alignment);
    at := argp;
    argp := argp + z;
    b' := Books(regp, argp, stackUsed, done);
  }

  /** The layout pass has been made for these arguments. */
  ghost predicate Laid(cif: VfpCif, c: ArmCall)
    requires ValidCall(c)
    reads cif, cif.vfpArgs
  {
    && cif.args == c.args && cif.vfpArgs.Length == NREGS && cif.vfpNargs == |Placements(c)| <= NREGS
    && forall i :: 0 <= i < cif.vfpNargs ==> cif.vfpArgs[i] == Placements(c)[i].reg
  }

  /** One turn of the caller's loop. */
  method PassArg(cif: VfpCif, i: nat, b: Books, vi: nat, value: seq<Byte>, stack: array<Byte>, vfpSpace: array<Byte>,
                 ghost c: ArmCall, ghost values: seq<seq<Byte>>, ghost rvalue: seq<Byte>)
      returns (b': Books, vi': nat)
    requires ValidCall(c) && i < |c.args| && Laid(cif, c) && |rvalue| == 4 && ValuesOf(c, values) && value == values[i]
    requires stack != vfpSpace && stack.Length >= Bytes(c) && vfpSpace.Length == VFP_SPACE
    requires b == CallerAt(c, i) && CountsEntries(c, i, vi) && Passed(c, i, values, rvalue, stack[..], vfpSpace[..])
    modifies stack, vfpSpace
    ensures b' == CallerAt(c, i + 1) && CountsEntries(c, i + 1, vi')
    ensures Passed(c, i + 1, values, rvalue, stack[..], vfpSpace[..])
  {
    hide VfpType, CallerStep, ClosureStep, ClosureSlot, CallerSlot, PutBytes, Over, Pad4, InRegisters, Bytes,
      StructReturn, Placements, Passed, CountsEntries;
    NextEntry(c, i, vi);
    NextBooks(c, i);
    PassedOn(c, i, values, rvalue, stack[..], vfpSpace[..]);
    b', vi' := b, vi;
    var t := cif.args[i];
    var vfp := VfpType(t).Vfp?;
    if vi < cif.vfpNargs && vfp {
      var z := FfiPutArg(t, value, vfpSpace, cif.vfpArgs[vi] * 4);
      vi' := vi + 1;
    } else {
      b' := PutInCore(b, t, value, vfp, stack);
    }
  }

  lemma NothingPassed(c: ArmCall, values: seq<seq<Byte>>, rvalue: seq<Byte>, stack: seq<Byte>, vfp: seq<Byte>)
    requires ValidCall(c) && |values| == |c.args| && (StructReturn(c) ==> Holds(stack, 0, rvalue))
    ensures Passed(c, 0, values, rvalue, stack, vfp) && CountsEntries(c, 0, 0)
    ensures CallerAt(c, 0) == Books(if StructReturn(c) then 4 else 0, CORE, false, false) == ClosureAt(c, 0)
  {
    hide StructReturn, Placements;
  }

  method FfiPrepArgsVfp(cif: VfpCif, structReturn: bool, rvalue: seq<Byte>, avalue: seq<seq<Byte>>,
                        stack: array<Byte>, vfpSpace: array<Byte>, ghost c: ArmCall)
    requires ValidCall(c) && Laid(cif, c) && structReturn == StructReturn(c) && |rvalue| == 4 && ValuesOf(c, avalue)
    requires stack != vfpSpace && stack.Length >= Bytes(c) && vfpSpace.Length == VFP_SPACE
    modifies stack, vfpSpace
    ensures Passed(c, |c.args|, avalue, rvalue, stack[..], vfpSpace[..])
  {
    hide CallerAt, Over, Placements, Bytes, StructReturn, Holds, Passed, CountsEntries, ArmTypes, ArmType, CallerStep,
      Codes;
    BytesAtLeast(c);
    if structReturn {
      WriteHere(stack[..], 0, rvalue);
      Write(stack, 0, rvalue);
    }
    NothingPassed(c, avalue, rvalue, stack[..], vfpSpace[..]);
    var vi, b := 0, Books(if structReturn then 4 else 0, CORE, false, false);
    var i := 0;
    while i < |cif.args|
      invariant i <= |c.args| && b == CallerAt(c, i) && CountsEntries(c, i, vi)
      invariant Passed(c, i, avalue, rvalue, stack[..], vfpSpace[..])
    {
      b, vi := PassArg(cif, i, b, vi, avalue[i], stack, vfpSpace, c, avalue, rvalue);
      i := i + 1;
    }
  }

  lemma BytesAtLeast(c: ArmCall)
    requires ValidCall(c)
    ensures Bytes(c) >= CORE
  {
  }

  method FfiPrepIncomingArgsVfp(cif: VfpCif, structReturn: bool, stack: array<Byte>, ghost c: ArmCall)
      returns (avalue: array<Slot>, rvalue: seq<Byte>)
    requires ValidCall(c) && Laid(cif, c) && structReturn == StructReturn(c) && stack.Length >= CORE
    ensures fresh(avalue) && avalue.Length == |c.args|
    ensures forall k :: 0 <= k < avalue.Length ==> avalue[k] == ClosureSlot(c, k)
    ensures structReturn ==> rvalue == stack[..4]
  {
    hide VfpType, CallerStep, ClosureStep, Pad4, Allocate, InRegisters, CallerSlot, ClosureSlot, StructReturn, Codes;
    rvalue := if structReturn then stack[..4] else [];
    avalue := new Slot[|cif.args|](_ => InVfp(0));
    var vi, b := 0, Books(if structReturn then 4 else 0, CORE, false, false);
    var i := 0;
    while i < |cif.args|
      invariant i <= |c.args| == avalue.Length && fresh(avalue) && b == ClosureAt(c, i) && CountsEntries(c, i, vi)
      invariant forall k :: 0 <= k < i ==> avalue[k] == ClosureSlot(c, k)
    {
      NextEntry(c, i, vi);
      NextBooks(c, i);
      var t := cif.args[i];
      var vfp := VfpType(t).Vfp?;
      if vi < cif.vfpNargs && vfp {
        avalue[i] := InVfp(cif.vfpArgs[vi] * 4);
        vi := vi + 1;
      } else {
        var at;
        b, at := FindInCore(b, t, vfp);
        avalue[i] := OnStack(at);
      }
      i := i + 1;
    }
  }

  /** A call of a closure: the closure finds the value of every argument, and the address of the result. */
  method CallClosure(c: ArmCall, rvalue: seq<Byte>, values: seq<seq<Byte>>)
      returns (avalue: array<Slot>, stack: array<Byte>, vfpSpace: array<Byte>, rvalue': seq<Byte>)
    requires ValidCall(c) && |rvalue| == 4 && ValuesOf(c, values)
    ensures avalue.Length == |values|
    ensures forall k :: 0 <= k < avalue.Length ==> HoldsIn(stack[..], vfpSpace[..], avalue[k], values[k])
    ensures StructReturn(c) ==> rvalue' == rvalue
  {
    hide VfpType, Allocate, CallerSlot, ClosureSlot, Bytes, HoldsIn;
    BytesAtLeast(c);
    var cif := new VfpCif(c.args);
    cif.LayoutVfpArgs();
    stack, vfpSpace := new Byte[Bytes(c)], new Byte[VFP_SPACE];
    var structReturn := StructReturn(c);
    FfiPrepArgsVfp(cif, structReturn, rvalue, values, stack, vfpSpace, c);
    avalue, rvalue' := FfiPrepIncomingArgsVfp(cif, structReturn, stack, c);
    forall k | 0 <= k < avalue.Length ensures HoldsIn(stack[..], vfpSpace[..], avalue[k], values[k]) {
      SlotsAgree(c, k);
    }
    if structReturn { assert stack[..][0..4] == stack[..4]; }
  }
}
