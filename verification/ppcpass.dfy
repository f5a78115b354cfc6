/** The three functions of ffi_sysv.c: the sizing loop, the caller's writes and the closure's finds. */
module PpcPass {
  import opened FfiTypes
  import opened ByteAreas
  import opened PpcSysv
  import opened PpcCalls

  const ADDRESSES: int := 0x1_0000_0000

  /** A word as it is in memory, the highest byte first. */
  function BigEndian(a: nat): (r: seq<Byte>)
    requires a < ADDRESSES
    ensures |r| == 4
  {
    var b: nat := a / 256;
    var c: nat := b / 256;
    [Low(c / 256), Low(c), Low(b), Low(a)]
  }

  function Low(n: nat): Byte {
    n % 256
  }

  function WordOf(b: seq<Byte>): nat
    requires |b| == 4
  {
    var b0: nat, b1: nat, b2: nat, b3: nat := b[0], b[1], b[2], b[3];
    b0 * 0x100_0000 + b1 * 0x1_0000 + b2 * 0x100 + b3
  }

  lemma WordReturns(a: nat)
    requires a < ADDRESSES
    ensures WordOf(BigEndian(a)) == a
  {
    var b, c, d := a / 256, a / 256 / 256, a / 256 / 256 / 256;
    assert a == 256 * b + Low(a) && b == 256 * c + Low(b) && c == 256 * d + Low(c) && d == Low(d);
  }

  /** A small integer in a word. */
  function Extended(code: int, value: seq<Byte>): (r: seq<Byte>)
    requires 0 < |value| <= 4
    ensures |r| == 4 && r[4 - |value|..] == value
  {
    var fill: Byte := if (code == SINT8 || code == SINT16) && value[0] >= 128 then 255 else 0;
    if |value| == 4 then value else Fill(4 - |value|, fill) + value
  }

  /** The word has the value of the small integer, as a 32-bit number in two's complement if it is signed. */
  lemma ExtendedKeepsValue(code: int, value: seq<Byte>)
    requires |value| == 1 || |value| == 2
    ensures var v: int := if |value| == 1 then value[0] else HalfOf(value);
      var w: int := if |value| == 1 then 0x100 else 0x1_0000;
      WordOf(Extended(code, value)) == if (code == SINT8 || code == SINT16) && 2 * v >= w then ADDRESSES - w + v else v
  {
    var fill: Byte := if (code == SINT8 || code == SINT16) && value[0] >= 128 then 255 else 0;
    assert Fill(2, fill) == [fill, fill] && Fill(3, fill) == [fill, fill, fill];
    assert Extended(code, value) == if |value| == 1 then [fill, fill, fill, value[0]]
      else [fill, fill, value[0], value[1]];
  }

  function HalfOf(b: seq<Byte>): nat
    requires |b| == 2
  {
    var b0: nat, b1: nat := b[0], b[1];
    b0 * 0x100 + b1
  }

  predicate ValuesOf(c: Call, values: seq<seq<Byte>>) {
    |values| == |c.args| && forall k :: 0 <= k < |values| ==> |values[k]| == c.args[k].size
  }

  /** The stack block is somewhere below the end of the address space. */
  predicate BlockAt(c: Call, base: nat) {
    base % 16 == 0 && base + Bytes(c) <= ADDRESSES
  }

  /** What goes to the place of an argument.  A float in a register is held as the closure stores it back, in the
      first half of the register. */
  ghost function Image(c: Call, k: nat, base: nat, value: seq<Byte>): (r: seq<Byte>)
    requires ValidCall(c) && k < |c.args| && |value| == c.args[k].size && BlockAt(c, base)
    ensures |r| == Hi(c, k) - Lo(c, k)
  {
    PlaceInside(c, k);
    var kind, p := ArgKind(c, k), CallerPlace(c, k);
    if kind.ByCopy? then
      CopiesApart(c, k, k);
      BigEndian(base + CopyAt(c, k))
    else if kind.Single? then Extended(c.args[k].code, value)
    else if kind.Floats? && p.Fpr? then value + Fill(4, 0)
    else value
  }

  /** Argument k has been passed. */
  ghost predicate PassedArg(c: Call, k: nat, base: nat, value: seq<Byte>, block: seq<Byte>)
    requires ValidCall(c) && k < |c.args| && |value| == c.args[k].size && BlockAt(c, base)
  {
    Holds(block, Lo(c, k), Image(c, k, base, value)) && (ArgKind(c, k).ByCopy? ==> Holds(block, CopyAt(c, k), value))
  }

  ghost predicate Passed(c: Call, k: nat, base: nat, rvalue: nat, values: seq<seq<Byte>>, block: seq<Byte>)
    requires ValidCall(c) && k <= |c.args| && ValuesOf(c, values) && BlockAt(c, base) && rvalue < ADDRESSES
  {
    && (forall i :: 0 <= i < k ==> PassedArg(c, i, base, values[i], block))
    && (ReturnsReference(c) ==> Holds(block, GprBase(c), BigEndian(rvalue)))
  }

  /** The block after argument k has been written. */
  ghost function AfterArg(c: Call, k: nat, base: nat, value: seq<Byte>, block: seq<Byte>): (r: seq<Byte>)
    requires ValidCall(c) && k < |c.args| && |value| == c.args[k].size && BlockAt(c, base) && |block| == Bytes(c)
    ensures |r| == |block|
  {
    PlaceInside(c, k);
    Areas(c);
    if ArgKind(c, k).ByCopy? then
      CopiesApart(c, k, k);
      Over(Over(block, CopyAt(c, k), value), Lo(c, k), Image(c, k, base, value))
    else Over(block, Lo(c, k), Image(c, k, base, value))
  }

  /** Bytes that argument k does not write. */
  lemma Keeps(c: Call, k: nat, base: nat, value: seq<Byte>, block: seq<Byte>, at: nat, b: seq<Byte>, end: nat)
    requires ValidCall(c) && k < |c.args| && |value| == c.args[k].size && BlockAt(c, base) && |block| == Bytes(c)
    requires Holds(block, at, b) && at + |b| <= end && Apart(at, end, Lo(c, k), Hi(c, k))
    requires ArgKind(c, k).ByCopy? ==> Apart(at, end, CopyAt(c, k), CopyAt(c, k) + c.args[k].size)
    ensures Holds(AfterArg(c, k, base, value, block), at, b)
  {
    hide Image, Bytes, FprBase, GprBase, CopyAt, Over, Lo, Hi, ArgKind, Holds;
    PlaceInside(c, k);
    Areas(c);
    var copied := block;
    if ArgKind(c, k).ByCopy? {
      CopiesApart(c, k, k);
      WriteElsewhere(block, at, b, end, CopyAt(c, k), value, CopyAt(c, k) + c.args[k].size);
      copied := Over(block, CopyAt(c, k), value);
    }
    WriteElsewhere(copied, at, b, end, Lo(c, k), Image(c, k, base, value), Hi(c, k));
  }

  lemma NewArg(c: Call, k: nat, base: nat, value: seq<Byte>, block: seq<Byte>)
    requires ValidCall(c) && k < |c.args| && |value| == c.args[k].size && BlockAt(c, base) && |block| == Bytes(c)
    ensures PassedArg(c, k, base, value, AfterArg(c, k, base, value, block))
  {
    hide Image, Bytes, FprBase, GprBase, CopyAt, Over, Lo, Hi, ArgKind;
    PlaceInside(c, k);
    Areas(c);
    var copied := block;
    if ArgKind(c, k).ByCopy? {
      CopiesApart(c, k, k);
      copied := Over(block, CopyAt(c, k), value);
      WriteHere(block, CopyAt(c, k), value);
      WriteElsewhere(copied, CopyAt(c, k), value, CopyAt(c, k) + c.args[k].size, Lo(c, k), Image(c, k, base, value),
                     Hi(c, k));
    }
    WriteHere(copied, Lo(c, k), Image(c, k, base, value));
  }

  lemma KeepsArg(c: Call, i: nat, k: nat, base: nat, values: seq<seq<Byte>>, block: seq<Byte>)
    requires ValidCall(c) && i < k < |c.args| && ValuesOf(c, values) && BlockAt(c, base) && |block| == Bytes(c)
    requires PassedArg(c, i, base, values[i], block)
    ensures PassedArg(c, i, base, values[i], AfterArg(c, k, base, values[k], block))
  {
    hide Image, Bytes, FprBase, GprBase, CopyAt, AfterArg, Lo, Hi, ArgKind, Holds;
    PlacesApart(c, i, k);
    if ArgKind(c, k).ByCopy? { CopiesApart(c, i, k); }
    Keeps(c, k, base, values[k], block, Lo(c, i), Image(c, i, base, values[i]), Hi(c, i));
    if ArgKind(c, i).ByCopy? {
      CopiesApart(c, k, i);
      Keeps(c, k, base, values[k], block, CopyAt(c, i), values[i], CopyAt(c, i) + c.args[i].size);
    }
  }

  lemma KeepsResult(c: Call, k: nat, base: nat, rvalue: nat, values: seq<seq<Byte>>, block: seq<Byte>)
    requires ValidCall(c) && k < |c.args| && ValuesOf(c, values) && BlockAt(c, base) && |block| == Bytes(c)
    requires rvalue < ADDRESSES
    requires ReturnsReference(c) && Holds(block, GprBase(c), BigEndian(rvalue))
    ensures Holds(AfterArg(c, k, base, values[k], block), GprBase(c), BigEndian(rvalue))
  {
    hide Image, Bytes, FprBase, GprBase, CopyAt, AfterArg, CallerPlace, ArgKind, Holds, BigEndian;
    PlaceInside(c, k);
    Areas(c);
    if ArgKind(c, k).ByCopy? { CopiesApart(c, k, k); }
    Keeps(c, k, base, values[k], block, GprBase(c), BigEndian(rvalue), GprBase(c) + 4);
  }

  /** Writing argument k, and its copy first, leaves the ones before it alone. */
  lemma PassedOn(c: Call, k: nat, base: nat, rvalue: nat, values: seq<seq<Byte>>, block: seq<Byte>)
    requires ValidCall(c) && k < |c.args| && ValuesOf(c, values) && BlockAt(c, base) && rvalue < ADDRESSES
    requires |block| == Bytes(c) && Passed(c, k, base, rvalue, values, block)
    ensures Passed(c, k + 1, base, rvalue, values, AfterArg(c, k, base, values[k], block))
  {
    hide AfterArg, ReturnsReference, PassedArg, GprBase, Bytes;
    var now := AfterArg(c, k, base, values[k], block);
    forall i | 0 <= i < k + 1 ensures PassedArg(c, i, base, values[i], now) {
      if i < k {
        KeepsArg(c, i, k, base, values, block);
      } else {
        NewArg(c, k, base, values[k], block);
      }
    }
    if ReturnsReference(c) {
      KeepsResult(c, k, base, rvalue, values, block);
    }
  }
}
