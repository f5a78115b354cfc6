/** call_builder of riscv/ffi.c, ffi_call_int up to the call, and ffi_closure_inner up to the callback. */
module RiscVBuilder {
  import opened FfiTypes
  import opened RiscV
  import opened RiscVSlots
  import opened RiscVCalls

  /** flatten_struct. */
  method FlattenStruct(t: Type, out: array<Type>, start: nat) returns (next: nat)
    requires start <= out.Length
    modifies out
    ensures start <= next <= out.Length
    ensures out[..next] == old(out[..start]) + Flatten(t, out.Length - start)
    decreases t
  {
    next := start;
    if next == out.Length {
      return;
    }
    if t.code != STRUCT {
      out[next] := t;
      next := next + 1;
    } else {
      var i := 0;
      ghost var room := out.Length - start;
      while i < |t.elements|
        invariant i <= |t.elements| && start <= next <= out.Length
        invariant out[..next] + FlattenAll(t, i, out.Length - next) == old(out[..start]) + Flatten(t, room)
      {
        FlattenNext(t, i, out.Length - next, out[..next]);
        assert t.elements[i] in t.elements;
        next := FlattenStruct(t.elements[i], out, next);
        i := i + 1;
      }
    }
  }

  lemma FlattenNext(t: Type, i: nat, room: nat, before: seq<Type>)
    requires i < |t.elements|
    ensures var first := Flatten(t.elements[i], room);
            before + FlattenAll(t, i, room) == before + first + FlattenAll(t, i + 1, room - |first|)
  {
  }

  class CallBuilder {
    const aregs: array<nat>
    const stack: array<nat>
    var usedInteger: nat
    var usedFloat: nat
    var usedStack: nat

    constructor (aregs: array<nat>, stack: array<nat>)
      ensures this.aregs == aregs && this.stack == stack && Used() == FRESH
    {
      this.aregs, this.stack := aregs, stack;
      usedInteger, usedFloat, usedStack := 0, 0, 0;
    }

    ghost predicate Valid() {
      aregs.Length == 2 * NARGREG && aregs != stack
    }

    function Used(): Cursor
      reads this
    {
      Cursor(usedInteger, usedFloat, usedStack)
    }

    ghost function Slots(): (s: seq<nat>)
      requires Valid()
      reads aregs, stack
      ensures |s| == StackSlot(stack.Length)
    {
      aregs[..] + stack[..]
    }

    /** There is a register or a word of the stack left. */
    ghost predicate Left(c: Cursor, code: int)
      requires Valid()
    {
      if IsFloat(code) then c.floats < 2 * NARGREG else c.ints <= NARGREG && AtomSlot(c, code) < StackSlot(stack.Length)
    }

    method MarshalAtom(code: int, data: seq<Byte>)
      requires Valid() && Left(Used(), code) && |data| == AtomSize(code)
      modifies this, aregs, stack
      ensures Used() == AfterAtom(old(Used()), code)
      ensures Slots() == old(Slots())[AtomSlot(old(Used()), code) := AtomWord(code, data)]
    {
      hide AtomWord;
      if IsFloat(code) {
        aregs[usedFloat] := AtomWord(code, data);
        usedFloat := usedFloat + 1;
        return;
      }
      var value := AtomWord(code, data);
      if usedInteger == NARGREG {
        stack[usedStack] := value;
        usedStack := usedStack + 1;
      } else {
        aregs[NARGREG + usedInteger] := value;
        usedInteger := usedInteger + 1;
      }
    }

    method UnmarshalAtom(code: int) returns (data: seq<Byte>)
      requires Valid() && Left(Used(), code)
      modifies this
      ensures Used() == AfterAtom(old(Used()), code)
      ensures data == AtomBytes(code, Slots()[AtomSlot(old(Used()), code)])
    {
      if IsFloat(code) {
        data := AtomBytes(code, aregs[usedFloat]);
        usedFloat := usedFloat + 1;
        return;
      }
      var value;
      if usedInteger == NARGREG {
        value := stack[usedStack];
        usedStack := usedStack + 1;
      } else {
        value := aregs[NARGREG + usedInteger];
        usedInteger := usedInteger + 1;
      }
      data := AtomBytes(code, value);
    }

    method StructPassedAsElements(top: Type) returns (e: Elements)
      ensures e == PassedAsElements(Used(), top)
    {
      var fields := new Type[3](_ => top);
      var numFields := FlattenStruct(top, fields, 0);
      assert fields[..numFields] == Flatten(top, 3);
      if numFields == 1 {
        if IsFloat(fields[0].code) {
          return One(fields[0].code);
        }
      } else if numFields == 2 {
        var numFloats := Count(IsFloat(fields[0].code)) + Count(IsFloat(fields[1].code));
        var numInts := Count(IsInt(fields[0].code)) + Count(IsInt(fields[1].code));
        if numFloats == 0 || numFloats + numInts != 2 {
          return Whole;
        }
        if usedFloat + numFloats > NARGREG || usedInteger + (2 - numFloats) > NARGREG {
          return Whole;
        }
        return Two(fields[0].code, Offset2(fields[0], fields[1]), fields[1].code);
      }
      return Whole;
    }

    /** There is room for all of the argument. */
    ghost predicate Takes(p: Plan, t: Type)
      requires Valid()
      reads this
    {
      InReach(Used()) && InReach(p.next) && Cuttable(p, t) && forall q :: q in p.pieces ==>
        q.slot < StackSlot(stack.Length)
    }

    method Marshal(t: Type, variadic: bool, d: Datum, junk: seq<Byte>)
      requires Valid() && DatumOf(t, d) && |junk| == 2 * XLEN && Takes(PlanOf(Used(), t, variadic), t)
      modifies this, aregs, stack
      ensures Used() == PlanOf(old(Used()), t, variadic).next
      ensures Slots() == Marshalled(old(Slots()), PlanOf(old(Used()), t, variadic), t, d, junk)
    {
      hide Marshalled, AtomWord, AlignUp, Flatten;
      if !variadic && t.code == STRUCT {
        var e := StructPassedAsElements(t);
        if e != Whole {
          MarshalFields(e, t, d, junk);
          return;
        }
      }
      if !variadic && usedFloat < NARGREG && IsFloat(t.code) {
        AtomEffect(Slots(), Used(), Own, t.code, t, d, junk);
        MarshalAtom(t.code, d.bytes[..AtomSize(t.code)]);
      } else if t.size > 2 * XLEN {
        AtomEffect(Slots(), Used(), Reference, DATA_PTR, t, d, junk);
        assert Encode(d.address, XLEN)[..XLEN] == Encode(d.address, XLEN);
        MarshalAtom(DATA_PTR, Encode(d.address, XLEN));
      } else if IsInt(t.code) || t.code == DATA_PTR {
        AtomEffect(Slots(), Used(), Own, t.code, t, d, junk);
        MarshalAtom(t.code, d.bytes[..AtomSize(t.code)]);
      } else {
        MarshalCopy(t, variadic, d, junk);
      }
    }

    /** Variadic arguments are aligned even in registers. */
    method Align(t: Type, variadic: bool)
      modifies this
      ensures Used() == Aligned(old(Used()), t, variadic)
    {
      if t.alignment > XLEN {
        if variadic {
          usedInteger := AlignUp(usedInteger, 2);
        }
        usedStack := AlignUp(usedStack, 2);
      }
    }

    method MarshalFields(e: Elements, t: Type, d: Datum, ghost junk: seq<Byte>)
      requires Valid() && DatumOf(t, d) && |junk| == 2 * XLEN
      requires e != Whole && Takes(FieldsPlan(Used(), e), t)
      modifies this, aregs, stack
      ensures Used() == FieldsPlan(old(Used()), e).next
      ensures Slots() == Marshalled(old(Slots()), FieldsPlan(old(Used()), e), t, d, junk)
    {
      hide Marshalled, AtomWord;
      if e.One? || e.offset2 == 0 {
        AtomEffect(Slots(), Used(), Own, e.code1, t, d, junk);
      } else {
        PairEffect(Slots(), Used(), Own, e.code1, e.offset2, e.code2, t, d, junk);
      }
      MarshalAtom(e.code1, d.bytes[..AtomSize(e.code1)]);
      if e.Two? && e.offset2 != 0 {
        MarshalAtom(e.code2, d.bytes[e.offset2..e.offset2 + AtomSize(e.code2)]);
      }
    }

    method MarshalCopy(t: Type, variadic: bool, d: Datum, junk: seq<Byte>)
      requires Valid() && DatumOf(t, d) && |junk| == 2 * XLEN
      requires t.size <= 2 * XLEN && Takes(CopyPlan(Used(), t, variadic), t)
      modifies this, aregs, stack
      ensures Used() == CopyPlan(old(Used()), t, variadic).next
      ensures Slots() == Marshalled(old(Slots()), CopyPlan(old(Used()), t, variadic), t, d, junk)
    {
      hide Marshalled, AtomWord, AlignUp, Aligned;
      ghost var c1 := Aligned(Used(), t, variadic);
      ghost var s := Slots();
      var realign := d.bytes + junk[t.size..];
      Align(t, variadic);
      if t.size > XLEN {
        PairEffect(s, c1, Copy, DATA_PTR, XLEN, DATA_PTR, t, d, junk);
      } else if t.size > 0 {
        AtomEffect(s, c1, Copy, DATA_PTR, t, d, junk);
      } else {
        NoEffect(s, c1, t, d, junk);
      }
      if t.size > 0 {
        MarshalAtom(DATA_PTR, realign[..XLEN]);
      }
      if t.size > XLEN {
        MarshalAtom(DATA_PTR, realign[XLEN..2 * XLEN]);
      }
    }

    method Unmarshal(t: Type, variadic: bool, data: seq<Byte>, junk: seq<Byte>) returns (r: Received)
      requires Valid() && |data| == |junk| == 2 * XLEN && Takes(PlanOf(Used(), t, variadic), t)
      modifies this
      ensures Used() == PlanOf(old(Used()), t, variadic).next
      ensures r == Unmarshalled(Slots(), PlanOf(old(Used()), t, variadic), t, data, junk)
    {
      hide Unmarshalled, AtomBytes, AlignUp, Flatten;
      if !variadic && t.code == STRUCT {
        var e := StructPassedAsElements(t);
        if e != Whole {
          r := UnmarshalFields(e, t, data, junk);
          return;
        }
      }
      if !variadic && usedFloat < NARGREG && IsFloat(t.code) {
        AtomRead(Slots(), Used(), Own, t.code, t, data, junk);
        var b := UnmarshalAtom(t.code);
        r := Here(b + data[|b|..]);
      } else if t.size > 2 * XLEN {
        AtomRead(Slots(), Used(), Reference, DATA_PTR, t, data, junk);
        var pointer := UnmarshalAtom(DATA_PTR);
        r := At(Decode(pointer));
      } else if IsInt(t.code) || t.code == DATA_PTR {
        AtomRead(Slots(), Used(), Own, t.code, t, data, junk);
        var b := UnmarshalAtom(t.code);
        r := Here(b + data[|b|..]);
      } else {
        r := UnmarshalCopy(t, variadic, data, junk);
      }
    }

    method UnmarshalFields(e: Elements, t: Type, data: seq<Byte>, ghost junk: seq<Byte>) returns (r: Received)
      requires Valid() && |data| == |junk| == 2 * XLEN
      requires e != Whole && Takes(FieldsPlan(Used(), e), t)
      modifies this
      ensures Used() == FieldsPlan(old(Used()), e).next
      ensures r == Unmarshalled(Slots(), FieldsPlan(old(Used()), e), t, data, junk)
    {
      hide Unmarshalled, AtomBytes;
      if e.One? || e.offset2 == 0 {
        AtomRead(Slots(), Used(), Own, e.code1, t, data, junk);
        var b := UnmarshalAtom(e.code1);
        return Here(b + data[|b|..]);
      }
      r := UnmarshalPair(e, t, data, junk);
    }

    method UnmarshalPair(e: Elements, t: Type, data: seq<Byte>, ghost junk: seq<Byte>) returns (r: Received)
      requires Valid() && |data| == |junk| == 2 * XLEN
      requires e.Two? && e.offset2 != 0 && Takes(FieldsPlan(Used(), e), t)
      modifies this
      ensures Used() == FieldsPlan(old(Used()), e).next
      ensures r == Unmarshalled(Slots(), FieldsPlan(old(Used()), e), t, data, junk)
    {
      hide Unmarshalled, AtomBytes;
      PairRead(Slots(), Used(), Own, e.code1, e.offset2, e.code2, t, data, junk);
      var b1 := UnmarshalAtom(e.code1);
      var data1 := b1 + data[|b1|..];
      var b2 := UnmarshalAtom(e.code2);
      TailStays(b1, data, e.offset2 + |b2|);
      r := Here(data1[..e.offset2] + b2 + data1[e.offset2 + |b2|..]);
    }

    method UnmarshalCopy(t: Type, variadic: bool, data: seq<Byte>, junk: seq<Byte>) returns (r: Received)
      requires Valid() && |data| == |junk| == 2 * XLEN
      requires t.size <= 2 * XLEN && Takes(CopyPlan(Used(), t, variadic), t)
      modifies this
      ensures Used() == CopyPlan(old(Used()), t, variadic).next
      ensures r == Unmarshalled(Slots(), CopyPlan(old(Used()), t, variadic), t, data, junk)
    {
      hide Unmarshalled, AtomBytes, AlignUp, Aligned;
      ghost var c1 := Aligned(Used(), t, variadic);
      var realign := junk;
      Align(t, variadic);
      if t.size > XLEN {
        PairRead(Slots(), c1, Copy, DATA_PTR, XLEN, DATA_PTR, t, data, junk);
      } else if t.size > 0 {
        AtomRead(Slots(), c1, Copy, DATA_PTR, t, data, junk);
      } else {
        NoRead(Slots(), c1, t, data, junk);
      }
      if t.size > 0 {
        var low := UnmarshalAtom(DATA_PTR);
        realign := low + realign[XLEN..];
      }
      if t.size > XLEN {
        var high := UnmarshalAtom(DATA_PTR);
        realign := realign[..XLEN] + high;
      }
      r := Here(realign[..t.size] + data[t.size..]);
    }
  }

  lemma TailStays(b: seq<Byte>, data: seq<Byte>, k: nat)
    requires |b| <= k <= |data|
    ensures (b + data[|b|..])[k..] == data[k..]
  {
  }

  /** The address for the result, as it is marshalled. */
  function AddressDatum(address: nat): Datum {
    Datum(0, Encode(address, XLEN))
  }

  lemma AddressPlan()
    ensures PlanOf(FRESH, PTR_TYPE, false) == AtomPlan(FRESH, Own, DATA_PTR)
    ensures DatumOf(PTR_TYPE, AddressDatum(0)) && Natural(PTR_TYPE)
  {
  }

  /** Where ffi_call_int starts with the arguments: the address for a big result is in a0. */
  ghost predicate ResultAddressed(cif: Cif, s: seq<nat>, rvalue: nat) {
    PassedByRef(FRESH, cif.rtype, false) ==> |s| > IntSlot(0) && s[IntSlot(0)] == rvalue
  }

  lemma AddressWritten(s: seq<nat>, rvalue: nat, junk: seq<Byte>)
    requires rvalue < WORDS && |junk| == 2 * XLEN && |s| >= 2 * NARGREG
    ensures var p := PlanOf(FRESH, PTR_TYPE, false);
      && DatumOf(PTR_TYPE, AddressDatum(rvalue)) && Cuttable(p, PTR_TYPE) && InRange(p, s)
      && Marshalled(s, p, PTR_TYPE, AddressDatum(rvalue), junk) == s[IntSlot(0) := rvalue]
  {
    AddressPlan();
    NaturalCuttable(FRESH, PTR_TYPE, false);
    var d := AddressDatum(rvalue);
    AtomEffect(s, FRESH, Own, DATA_PTR, PTR_TYPE, d, junk);
    assert d.bytes[..XLEN] == d.bytes;
    DecodeEncode(rvalue, XLEN);
  }

  lemma AddressRead(s: seq<nat>, data: seq<Byte>, junk: seq<Byte>)
    requires |data| == |junk| == 2 * XLEN && |s| >= 2 * NARGREG
    ensures var p := PlanOf(FRESH, PTR_TYPE, false);
      && Cuttable(p, PTR_TYPE) && InRange(p, s)
      && var r := Unmarshalled(s, p, PTR_TYPE, data, junk);
      && r.Here? && |r.data| >= XLEN && (s[IntSlot(0)] < WORDS ==> Decode(r.data[..XLEN]) == s[IntSlot(0)])
  {
    AddressPlan();
    NaturalCuttable(FRESH, PTR_TYPE, false);
    AtomRead(s, FRESH, Own, DATA_PTR, PTR_TYPE, data, junk);
    var b := AtomBytes(DATA_PTR, s[IntSlot(0)]);
    assert (b + data[|b|..])[..XLEN] == b;
    if s[IntSlot(0)] < WORDS { DecodeEncode(s[IntSlot(0)], XLEN); }
  }

  /** ffi_call_int up to the call: start is what the slots hold before the arguments. */
  method FfiCallInt(call: Call, rvalue: nat, junk: seq<Byte>) returns (cb: CallBuilder, ghost start: seq<nat>)
    requires ValidCall(call) && InContext(call.cif) && rvalue < WORDS && |junk| == 2 * XLEN
    ensures fresh(cb) && cb.Valid() && fresh(cb.aregs) && fresh(cb.stack)
    ensures cb.stack.Length == StackWords(|call.cif.args|)
    ensures |start| == SlotCount(call.cif) && AllReady(call.cif, |start|)
    ensures ResultAddressed(call.cif, start, rvalue)
    ensures cb.Slots() == SlotsAfter(call, start, |call.cif.args|)
  {
    hide PlanOf, Natural, Marshalled, Ready, PassedByRef, ValidCif, StackWords, AtomWord;
    var n := |call.cif.args|;
    var aregs := new nat[2 * NARGREG];
    var stack := new nat[StackWords(n)];
    cb := new CallBuilder(aregs, stack);
    if PassedByRef(FRESH, call.cif.rtype, false) {
      AddressWritten(cb.Slots(), rvalue, junk);
      AddressTakes(StackSlot(stack.Length));
      cb.Marshal(PTR_TYPE, false, AddressDatum(rvalue), junk);
    }
    start := cb.Slots();
    RoomyReady(call.cif, |start|);
    var i := 0;
    while i < n
      invariant i <= n && cb.Used() == CursorAt(call.cif, i)
      invariant cb.Slots() == SlotsAfter(call, start, i)
    {
      ReadyTakes(call.cif, i, |start|);
      cb.Marshal(call.cif.args[i], i >= call.cif.nfixed, call.values[i], call.junk[i]);
      i := i + 1;
    }
  }

  /** ffi_closure_inner up to the callback: the addresses of the arguments and of a big result. */
  method FfiClosureInner(cif: Cif, aregs: array<nat>, stack: array<nat>, astorage: seq<seq<Byte>>, junk: seq<Byte>)
      returns (avalue: array<Received>, rvalue: nat)
    requires aregs.Length == 2 * NARGREG && aregs != stack && AllReady(cif, StackSlot(stack.Length))
    requires |astorage| == |cif.args| && (forall a :: a in astorage ==> |a| == 2 * XLEN) && |junk| == 2 * XLEN
    ensures fresh(avalue) && avalue.Length == |cif.args|
    ensures forall k ::
      0 <= k < avalue.Length ==> avalue[k] == UnmarshalArgument(cif, aregs[..] + stack[..], k, astorage[k], junk)
    ensures PassedByRef(FRESH, cif.rtype, false) && aregs[NARGREG] < WORDS ==> rvalue == aregs[NARGREG]
  {
    hide PlanOf, Natural, Unmarshalled, Ready, PassedByRef;
    var n := |cif.args|;
    var cb := new CallBuilder(aregs, stack);
    rvalue := 0;
    if PassedByRef(FRESH, cif.rtype, false) {
      AddressRead(cb.Slots(), junk, junk);
      AddressTakes(StackSlot(stack.Length));
      var r := cb.Unmarshal(PTR_TYPE, false, junk, junk);
      rvalue := Decode(r.data[..XLEN]);
    }
    avalue := new Received[n](_ => At(0));
    var i := 0;
    while i < n
      invariant i <= n == avalue.Length && fresh(avalue) && cb.Used() == CursorAt(cif, i)
      invariant aregs[..] + stack[..] == old(aregs[..] + stack[..])
      invariant forall k ::
        0 <= k < i ==> avalue[k] == UnmarshalArgument(cif, aregs[..] + stack[..], k, astorage[k], junk)
    {
      ReadyTakes(cif, i, StackSlot(stack.Length));
      assert astorage[i] in astorage;
      avalue[i] := cb.Unmarshal(cif.args[i], i >= cif.nfixed, astorage[i], junk);
      i := i + 1;
    }
  }

  lemma AddressTakes(n: nat)
    requires n >= 2 * NARGREG
    ensures var p := PlanOf(FRESH, PTR_TYPE, false);
      InReach(FRESH) && InReach(p.next) && Cuttable(p, PTR_TYPE) && forall q :: q in p.pieces ==> q.slot < n
  {
    AddressPlan();
    NaturalCuttable(FRESH, PTR_TYPE, false);
  }

  lemma ReadyTakes(cif: Cif, k: nat, n: nat)
    requires k < |cif.args| && Ready(cif, k, n)
    ensures var c := CursorAt(cif, k);
      var p := PlanOf(c, cif.args[k], k >= cif.nfixed);
      && InReach(c) && InReach(p.next) && Cuttable(p, cif.args[k]) && (forall q :: q in p.pieces ==> q.slot < n)
      && CursorAt(cif, k + 1) == p.next && PlanAt(cif, k) == p
  {
    hide PlanOf, Cuttable;
  }

  /** A call of a closure: every argument arrives that no later one overwrites, and so does the address for a big
      result.  That is all of them, unless the first integer register is shared. */
  method CallClosure(call: Call, rvalue: nat, astorage: seq<seq<Byte>>, junk: seq<Byte>, junk': seq<Byte>)
      returns (avalue: array<Received>, rvalue': nat, ghost start: seq<nat>)
    requires ValidCall(call) && InContext(call.cif) && rvalue < WORDS && |junk| == |junk'| == 2 * XLEN
    requires |astorage| == |call.cif.args| && forall a :: a in astorage ==> |a| == 2 * XLEN
    ensures avalue.Length == |call.cif.args| && |start| == SlotCount(call.cif) && AllReady(call.cif, |start|)
    ensures ResultAddressed(call.cif, start, rvalue)
    ensures forall k :: 0 <= k < avalue.Length ==>
      avalue[k] == UnmarshalArgument(call.cif, SlotsAfter(call, start, |call.cif.args|), k, astorage[k], junk')
    ensures forall k :: 0 <= k < avalue.Length && !Overwritten(call.cif, k) ==>
      Ready(call.cif, k, |start|) && Got(call, k, |start|, avalue[k])
    ensures PassedByRef(FRESH, call.cif.rtype, false) && AddressArrives(call, start) ==> rvalue' == rvalue
    ensures !FirstIsShared(call.cif) ==>
      && (forall k :: 0 <= k < avalue.Length ==> Ready(call.cif, k, |start|) && Got(call, k, |start|, avalue[k]))
      && (PassedByRef(FRESH, call.cif.rtype, false) ==> rvalue' == rvalue)
  {
    hide PlanOf, Natural, Ready, PassedByRef, StackWords, SlotsAfter, UnmarshalArgument, Got, Overwritten,
      FirstIsShared, InContext, AddressArrives, TakesFirst;
    var cb;
    cb, start := FfiCallInt(call, rvalue, junk);
    ghost var s := cb.aregs[..] + cb.stack[..];
    avalue, rvalue' := FfiClosureInner(call.cif, cb.aregs, cb.stack, astorage, junk');
    forall k | 0 <= k < avalue.Length && !Overwritten(call.cif, k)
      ensures Ready(call.cif, k, |s|) && Got(call, k, |s|, avalue[k])
    {
      assert astorage[k] in astorage;
      RoundTrip(call, start, k, astorage[k], junk');
      ArrivesIs(call, start, k, astorage[k], junk');
    }
    AddressRegister(call, start, rvalue);
    if !FirstIsShared(call.cif) {
      SharedIff(call.cif);
      AddressPassed(call.cif);
      if PassedByRef(FRESH, call.cif.rtype, false) {
        AddressKept(call, start);
      }
    }
  }

  lemma AddressRegister(call: Call, start: seq<nat>, rvalue: nat)
    requires ValidCall(call) && AllReady(call.cif, |start|) && ResultAddressed(call.cif, start, rvalue)
    ensures AddressArrives(call, start) ==>
      ResultAddressed(call.cif, SlotsAfter(call, start, |call.cif.args|), rvalue)
  {
    hide Ready, Natural, SlotsAfter;
  }
}
