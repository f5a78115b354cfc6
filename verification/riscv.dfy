/** Passing arguments on RISC-V (lp64d): what marshal and unmarshal of riscv/ffi.c have to agree on. */
module RiscV {
  import opened FfiTypes

  const NARGREG := 8
  const XLEN := 8
  const WORDS: int := 0x1_0000_0000_0000_0000

  predicate IsInt(code: int) {
    UINT8 <= code <= SINT64
  }

  predicate IsFloat(code: int) {
    FLOAT <= code <= DOUBLE
  }

  // One datum in one register or stack word

  /** The bytes of a datum that an atom moves. */
  function AtomSize(code: int): (n: nat)
    ensures n == 1 || n == 2 || n == 4 || n == 8
  {
    if code == UINT8 || code == SINT8 then 1
    else if code == UINT16 || code == SINT16 then 2
    else if code == UINT32 || code == SINT32 || code == FLOAT then 4
    else 8
  }

  /** Sign extension of an n-byte value to a word. */
  function SignExtend(v: nat, n: nat): nat
    requires (n == 1 || n == 2 || n == 4) && v < Pow256(n)
  {
    if 2 * v >= Pow256(n) then v + WORDS - Pow256(n) else v
  }

  /** What marshal_atom puts into the register or stack word; 32-bit integers are sign-extended even when they are
      unsigned, and floats are boxed in a register of ones. */
  function AtomWord(code: int, b: seq<Byte>): nat
    requires |b| == AtomSize(code)
  {
    if code == SINT8 || code == SINT16 || code == SINT32 || code == UINT32 then SignExtend(Decode(b), |b|)
    else if code == FLOAT then Decode(b) + 0xFFFF_FFFF * Pow256(4)
    else Decode(b)
  }

  /** What unmarshal_atom stores. */
  function AtomBytes(code: int, w: nat): (b: seq<Byte>)
    ensures |b| == AtomSize(code)
  {
    Encode(w, AtomSize(code))
  }

  lemma AtomRoundTrip(code: int, b: seq<Byte>)
    requires |b| == AtomSize(code)
    ensures AtomBytes(code, AtomWord(code, b)) == b
  {
    EncodeDecode(b);
    if code == FLOAT {
      EncodeLow(Decode(b), 0xFFFF_FFFF, 4);
    } else if |b| < 8 && AtomWord(code, b) != Decode(b) {
      var n := |b|;
      var k := if n == 1 then 0xFF_FFFF_FFFF_FFFF else if n == 2 then 0xFFFF_FFFF_FFFF else 0xFFFF_FFFF;
      assert WORDS - Pow256(n) == k * Pow256(n);
      EncodeLow(Decode(b), k, n);
    }
  }

  /** The word holds the value that was sent: as a 64-bit two's complement number it is the n-byte one. */
  lemma ExtensionKeepsValue(v: nat, n: nat)
    requires (n == 1 || n == 2 || n == 4) && v < Pow256(n)
    ensures var w := SignExtend(v, n); w < WORDS && w % Pow256(n) == v
    ensures (if 2 * SignExtend(v, n) >= WORDS then SignExtend(v, n) - WORDS else SignExtend(v, n))
            == (if 2 * v >= Pow256(n) then v - Pow256(n) else v)
  {
  }

  // Placement

  /** used_integer, used_float and used_stack. */
  datatype Cursor = Cursor(ints: nat, floats: nat, stack: nat)

  /** Slots in the order of call_context: the float registers, the integer registers right behind them; then the words
      of the stack. */
  function FloatSlot(i: nat): nat {
    i
  }

  function IntSlot(i: nat): nat {
    NARGREG + i
  }

  function StackSlot(w: nat): nat {
    2 * NARGREG + w
  }

  function NextInt(c: Cursor): nat {
    if c.ints == NARGREG then StackSlot(c.stack) else IntSlot(c.ints)
  }

  function AfterInt(c: Cursor): Cursor {
    if c.ints == NARGREG then c.(stack := c.stack + 1) else c.(ints := c.ints + 1)
  }

  function AtomSlot(c: Cursor, code: int): nat {
    if IsFloat(code) then FloatSlot(c.floats) else NextInt(c)
  }

  function AfterAtom(c: Cursor, code: int): Cursor {
    if IsFloat(code) then c.(floats := c.floats + 1) else AfterInt(c)
  }

  /** flatten_struct: the leaves of a type, as many as there is room for. */
  function Flatten(t: Type, room: nat): (r: seq<Type>)
    ensures |r| <= room
    decreases t, 1
  {
    if room == 0 then [] else if t.code != STRUCT then [t] else FlattenAll(t, 0, room)
  }

  function FlattenAll(t: Type, i: nat, room: nat): (r: seq<Type>)
    requires i <= |t.elements|
    ensures |r| <= room
    decreases t, 0, |t.elements| - i
  {
    if i == |t.elements| then [] else
      var first := Flatten(t.elements[i], room);
      first + FlattenAll(t, i + 1, room - |first|)
  }

  datatype Elements = Whole | One(code1: int) | Two(code1: int, offset2: nat, code2: int)

  function Count(b: bool): nat {
    if b then 1 else 0
  }

  /** offset2, a char; an alignment of zero, which no type has, counts as one. */
  function Offset2(first: Type, second: Type): (r: nat)
    ensures r < 256
  {
    AlignUp(first.size, if second.alignment > 0 then second.alignment else 1) % 256
  }

  /** struct_passed_as_elements: one float, or two fields at least one of which is a float, while registers last.
      Nothing checks that a register is left for one float. */
  function PassedAsElements(c: Cursor, t: Type): Elements {
    var f := Flatten(t, 3);
    if |f| == 1 then
      if IsFloat(f[0].code) then One(f[0].code) else Whole
    else if |f| == 2 then
      var floats := Count(IsFloat(f[0].code)) + Count(IsFloat(f[1].code));
      var ints := Count(IsInt(f[0].code)) + Count(IsInt(f[1].code));
      if floats == 0 || floats + ints != 2 then Whole
      else if c.floats + floats > NARGREG || c.ints + (2 - floats) > NARGREG then Whole
      else Two(f[0].code, Offset2(f[0], f[1]), f[1].code)
    else Whole
  }

  function ElementsOf(c: Cursor, t: Type, variadic: bool): Elements {
    if !variadic && t.code == STRUCT then PassedAsElements(c, t) else Whole
  }

  /** passed_by_ref. */
  predicate PassedByRef(c: Cursor, t: Type, variadic: bool) {
    ElementsOf(c, t, variadic).Whole? && t.size > 2 * XLEN
  }

  function Aligned(c: Cursor, t: Type, variadic: bool): Cursor {
    if t.alignment > XLEN then c.(ints := if variadic then AlignUp(c.ints, 2) else c.ints, stack := AlignUp(c.stack, 2))
      else c
  }

  /** A part of an argument: the atom at byte offset at of its image goes through the slot. */
  datatype Piece = Piece(slot: nat, code: int, at: nat)

  /** What the pieces are cut from: the argument's own bytes, its address, or the copy of it in realign. */
  datatype How = Own | Reference | Copy

  datatype Plan = Plan(next: Cursor, how: How, pieces: seq<Piece>)

  function AtomPlan(c: Cursor, how: How, code: int): Plan {
    Plan(AfterAtom(c, code), how, [Piece(AtomSlot(c, code), code, 0)])
  }

  function PairPlan(c: Cursor, how: How, code1: int, offset2: nat, code2: int): Plan {
    var c1 := AfterAtom(c, code1);
    Plan(AfterAtom(c1, code2), how, [Piece(AtomSlot(c, code1), code1, 0), Piece(AtomSlot(c1, code2), code2, offset2)])
  }

  /** The fields of a struct one by one. */
  function FieldsPlan(c: Cursor, e: Elements): Plan
    requires e != Whole
  {
    if e.One? || e.offset2 == 0 then AtomPlan(c, Own, e.code1) else PairPlan(c, Own, e.code1, e.offset2, e.code2)
  }

  /** Up to two words of a copy. */
  function CopyPlan(c: Cursor, t: Type, variadic: bool): Plan {
    var c1 := Aligned(c, t, variadic);
    if t.size > XLEN then PairPlan(c1, Copy, DATA_PTR, XLEN, DATA_PTR)
    else if t.size > 0 then AtomPlan(c1, Copy, DATA_PTR)
    else Plan(c1, Copy, [])
  }

  /** Where an argument goes, and where the next one starts. */
  function PlanOf(c: Cursor, t: Type, variadic: bool): Plan {
    var e := ElementsOf(c, t, variadic);
    if e != Whole then FieldsPlan(c, e)
    else if !variadic && c.floats < NARGREG && IsFloat(t.code) then AtomPlan(c, Own, t.code)
    else if t.size > 2 * XLEN then AtomPlan(c, Reference, DATA_PTR)
    else if IsInt(t.code) || t.code == DATA_PTR then AtomPlan(c, Own, t.code)
    else CopyPlan(c, t, variadic)
  }

  /** Every register that has been asked for is one of call_context, where the integer registers follow the float
      registers. */
  predicate InReach(c: Cursor) {
    c.ints <= NARGREG && c.floats <= 2 * NARGREG
  }

  /** And none has been given away twice: no float register past the last has been asked for, or no integer register. */
  predicate CursorOk(c: Cursor) {
    c.ints <= NARGREG && (c.floats <= NARGREG || (c.ints == 0 && c.floats <= 2 * NARGREG))
  }

  predicate Before(c: Cursor, d: Cursor) {
    c.ints <= d.ints && c.floats <= d.floats && c.stack <= d.stack
  }

  /** The slots handed out between two cursors. */
  predicate Between(c: Cursor, d: Cursor, slot: nat) {
    || FloatSlot(c.floats) <= slot < FloatSlot(d.floats)
    || IntSlot(c.ints) <= slot < IntSlot(d.ints)
    || StackSlot(c.stack) <= slot < StackSlot(d.stack)
  }

  predicate Advances(c: Cursor, p: Plan) {
    && Before(c, p.next) && p.next.ints <= NARGREG
    && (forall q :: q in p.pieces ==> Between(c, p.next, q.slot))
    && (forall i, j :: 0 <= i < j < |p.pieces| ==> p.pieces[i].slot != p.pieces[j].slot)
  }

  lemma AtomAdvances(c: Cursor, how: How, code: int)
    requires c.ints <= NARGREG
    ensures Advances(c, AtomPlan(c, how, code))
  {
  }

  lemma PairAdvances(c: Cursor, how: How, code1: int, offset2: nat, code2: int)
    requires c.ints <= NARGREG
    requires IsFloat(code1) || IsFloat(code2) ==> PairPlan(c, how, code1, offset2, code2).next.floats <= NARGREG
    ensures Advances(c, PairPlan(c, how, code1, offset2, code2))
  {
    AtomAdvances(c, how, code1);
    AtomAdvances(AfterAtom(c, code1), how, code2);
  }

  /** Two fields are passed separately only while registers last. */
  lemma TwoFit(c: Cursor, t: Type, variadic: bool)
    ensures var e := ElementsOf(c, t, variadic);
      e.Two? ==> PairPlan(c, Own, e.code1, e.offset2, e.code2).next.floats <= NARGREG
  {
    hide Flatten, Offset2;
  }

  lemma AlignedAdvances(c: Cursor, t: Type, variadic: bool)
    requires c.ints <= NARGREG
    ensures var d := Aligned(c, t, variadic); Before(c, d) && d.ints <= NARGREG && d.floats == c.floats
  {
  }

  /** An argument takes new slots only, and different ones for different pieces. */
  lemma PlanAdvances(c: Cursor, t: Type, variadic: bool)
    requires c.ints <= NARGREG
    ensures Advances(c, PlanOf(c, t, variadic))
  {
    hide AtomPlan, PairPlan, Aligned, ElementsOf, AfterAtom, AtomSlot;
    var e := ElementsOf(c, t, variadic);
    if e.One? || e.Two? { AtomAdvances(c, Own, e.code1); }
    if e.Two? {
      TwoFit(c, t, variadic);
      PairAdvances(c, Own, e.code1, e.offset2, e.code2);
    }
    AtomAdvances(c, Own, t.code);
    AtomAdvances(c, Reference, DATA_PTR);
    var c1 := Aligned(c, t, variadic);
    AlignedAdvances(c, t, variadic);
    AtomAdvances(c1, Copy, DATA_PTR);
    PairAdvances(c1, Copy, DATA_PTR, XLEN, DATA_PTR);
  }
}
