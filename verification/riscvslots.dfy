/** What goes through the slots on RISC-V: every argument that marshal writes is what unmarshal reads. */
module RiscVSlots {
  import opened FfiTypes
  import opened Layout
  import opened RiscV

  // The types that reach the machine-dependent code

  /** Scalars are as wide as they are aligned, and structs have been laid out. */
  predicate Natural(t: Type)
    decreases t
  {
    if t.code == STRUCT then
      Inhabited(t) && t.size == SizeOf(t) && t.alignment == AlignOf(t) && forall e :: e in t.elements ==> Natural(e)
    else
      && t.size > 0 && t.alignment > 0 && t.size % t.alignment == 0
      && (IsInt(t.code) || IsFloat(t.code) || t.code == DATA_PTR ==> t.size == t.alignment == AtomSize(t.code))
  }

  lemma {:induction false} FlattenFindsOne(t: Type, room: nat)
    requires Natural(t) && room > 0
    ensures |Flatten(t, room)| > 0
    decreases t
  {
    if t.code == STRUCT {
      var e := t.elements[0];
      assert e in t.elements;
      FlattenFindsOne(e, room);
    }
  }

  /** A type with a single scalar in it is that scalar in another guise. */
  lemma {:induction false} SingleLeaf(t: Type, room: nat, base: nat)
    requires Natural(t) && room >= 2 && |Flatten(t, room)| == 1
    ensures var a := Flatten(t, room)[0];
      Natural(a) && a.code != STRUCT && AlignOf(t) == a.alignment && SizeOf(t) == a.size &&
        Leaves(t, base) == [Leaf(base, a.size, a.alignment)]
    decreases t
  {
    if t.code == STRUCT {
      var e := t.elements[0];
      assert e in t.elements;
      FlattenFindsOne(e, room);
      var first := Flatten(e, room);
      OnlyElement(t, room);
      SingleLeaf(e, room, base);
      FirstField(t, base);
    }
  }

  lemma OnlyElement(t: Type, room: nat)
    requires Natural(t) && t.code == STRUCT && room > 0 && |Flatten(t, room)| < room
    requires |Flatten(t.elements[0], room)| == |Flatten(t, room)|
    ensures |t.elements| == 1
  {
    var first := Flatten(t.elements[0], room);
    var rest := FlattenAll(t, 1, room - |first|);
    assert Flatten(t, room) == first + rest;
    if |t.elements| > 1 {
      var e1 := t.elements[1];
      assert e1 in t.elements;
      assert rest == Flatten(e1, room - |first|) + FlattenAll(t, 2, room - |first| - |Flatten(e1, room - |first|)|);
      FlattenFindsOne(e1, room - |first|);
    }
  }

  lemma FirstField(t: Type, base: nat)
    requires t.code == STRUCT && |t.elements| > 0
    ensures Offset(t, 0) == 0 && MaxAlign(t, 1) == AlignOf(t.elements[0]) && End(t, 1) == SizeOf(t.elements[0])
    ensures LeavesTo(t, base, 1) == Leaves(t.elements[0], base)
  {
    assert LeavesTo(t, base, 1) == LeavesTo(t, base, 0) + Leaves(t.elements[0], base + Offset(t, 0));
  }

  lemma TwoElements(t: Type)
    requires Natural(t) && t.code == STRUCT && |Flatten(t, 3)| == 2 && |Flatten(t.elements[0], 3)| == 1
    ensures |t.elements| == 2
    ensures Flatten(t.elements[1], 2) == [Flatten(t, 3)[1]]
  {
    var first, rest := Flatten(t.elements[0], 3), FlattenAll(t, 1, 2);
    assert Flatten(t, 3) == first + rest;
    var e1 := t.elements[1];
    assert e1 in t.elements;
    FlattenFindsOne(e1, 2);
    var second := Flatten(e1, 2);
    assert rest == second + FlattenAll(t, 2, 2 - |second|);
    if |t.elements| > 2 {
      var e2 := t.elements[2];
      assert e2 in t.elements;
      FlattenFindsOne(e2, 1);
    }
  }

  /** offset2 is where the second scalar of the struct is. */
  lemma {:induction false} LeafPair(t: Type, base: nat)
    requires Natural(t) && |Flatten(t, 3)| == 2
    ensures var f := Flatten(t, 3);
      && Natural(f[0]) && Natural(f[1]) && f[0].code != STRUCT && f[1].code != STRUCT
      && Leaves(t, base) == [Leaf(base, f[0].size, f[0].alignment),
                             Leaf(base + AlignUp(f[0].size, f[1].alignment), f[1].size, f[1].alignment)]
      && AlignUp(f[0].size, f[1].alignment) + f[1].size <= SizeOf(t)
    decreases t
  {
    var e := t.elements[0];
    assert e in t.elements;
    FlattenFindsOne(e, 3);
    var first := Flatten(e, 3);
    var rest := FlattenAll(t, 1, 3 - |first|);
    assert Flatten(t, 3) == first + rest;
    FirstField(t, base);
    if |first| == 2 {
      OnlyElement(t, 3);
      LeafPair(e, base);
    } else {
      LeafEach(t, base);
    }
  }

  lemma LeafEach(t: Type, base: nat)
    requires Natural(t) && t.code == STRUCT && |Flatten(t, 3)| == 2 && |Flatten(t.elements[0], 3)| == 1
    ensures var f := Flatten(t, 3);
      && Natural(f[0]) && Natural(f[1]) && f[0].code != STRUCT && f[1].code != STRUCT
      && Leaves(t, base) == [Leaf(base, f[0].size, f[0].alignment),
                             Leaf(base + AlignUp(f[0].size, f[1].alignment), f[1].size, f[1].alignment)]
      && AlignUp(f[0].size, f[1].alignment) + f[1].size <= SizeOf(t)
  {
    hide Flatten, AlignUp;
    TwoElements(t);
    var e, e1 := t.elements[0], t.elements[1];
    assert e in t.elements && e1 in t.elements;
    SingleLeaf(e, 3, base);
    FirstOfTwo(t);
    FirstField(t, base);
    SingleLeaf(e1, 2, base + Offset(t, 1));
    assert Offset(t, 1) == AlignTo(End(t, 1), AlignOf(e1)) && End(t, 2) == Offset(t, 1) + SizeOf(e1);
    assert LeavesTo(t, base, 2) == LeavesTo(t, base, 1) + Leaves(e1, base + Offset(t, 1));
  }

  lemma FirstOfTwo(t: Type)
    requires Natural(t) && t.code == STRUCT && |Flatten(t.elements[0], 3)| == 1
    ensures |Flatten(t, 3)| > 0 && Flatten(t, 3)[0] == Flatten(t.elements[0], 3)[0]
  {
    assert Flatten(t, 3) == Flatten(t.elements[0], 3) + FlattenAll(t, 1, 2);
  }

  // One argument

  /** An argument value: where it is, and its bytes. */
  datatype Datum = Datum(address: nat, bytes: seq<Byte>)

  predicate DatumOf(t: Type, d: Datum) {
    |d.bytes| == t.size && d.address < WORDS
  }

  predicate PieceFits(q: Piece, n: nat) {
    q.at + AtomSize(q.code) <= n
  }

  /** Two pieces at most, which do not overlap in the storage. */
  predicate Apart(pieces: seq<Piece>) {
    |pieces| <= 2 && (|pieces| == 2 ==> pieces[0].at + AtomSize(pieces[0].code) <= pieces[1].at)
  }

  /** What an argument is cut from can be cut that way; storage for copies of arguments is 16 bytes each. */
  predicate Cuttable(p: Plan, t: Type) {
    && Apart(p.pieces)
    && (p.how.Own? ==> forall q :: q in p.pieces ==> PieceFits(q, t.size) && PieceFits(q, 2 * XLEN))
    && (p.how.Reference? ==> |p.pieces| == 1 && p.pieces[0].code == DATA_PTR && p.pieces[0].at == 0)
    && (p.how.Copy? ==> t.size <= XLEN * |p.pieces| && forall i :: 0 <= i < |p.pieces| ==>
        p.pieces[i].at == i * XLEN && p.pieces[i].code == DATA_PTR)
  }

  lemma SecondOffset(a: Type, b: Type)
    requires Natural(a) && Natural(b) && (IsInt(a.code) || IsFloat(a.code)) && (IsInt(b.code) || IsFloat(b.code))
    ensures a.size == AtomSize(a.code) && b.size == AtomSize(b.code)
    ensures Offset2(a, b) == AlignUp(a.size, b.alignment) && 0 < Offset2(a, b) <= 8
  {
    assert 8 % b.alignment == 0 && a.size <= 8;
  }

  /** The two fields that go separately are where the struct has them. */
  lemma ElementsInside(c: Cursor, t: Type, variadic: bool)
    requires Natural(t)
    ensures var e := ElementsOf(c, t, variadic);
      && (e.One? ==> IsFloat(e.code1) && t.size == AtomSize(e.code1) <= 8 && Leaves(t, 0) == [Leaf(0, t.size, t.size)])
      && (e.Two? ==> 0 < e.offset2 <= 8 && e.offset2 + AtomSize(e.code2) <= t.size && AtomSize(e.code1) <= e.offset2)
      && (e.Two? ==> Leaves(t, 0) == [Leaf(0, AtomSize(e.code1), AtomSize(e.code1)),
                                      Leaf(e.offset2, AtomSize(e.code2), AtomSize(e.code2))])
  {
    hide AlignUp, SizeOf, AlignOf, Flatten, Leaves;
    var e := ElementsOf(c, t, variadic);
    if e.One? {
      SingleLeaf(t, 3, 0);
    } else if e.Two? {
      LeafPair(t, 0);
      SecondOffset(Flatten(t, 3)[0], Flatten(t, 3)[1]);
    }
  }

  lemma NaturalCuttable(c: Cursor, t: Type, variadic: bool)
    requires Natural(t)
    ensures Cuttable(PlanOf(c, t, variadic), t)
  {
    hide AlignUp, SizeOf, AlignOf, Leaves, AfterAtom, AtomSlot, Aligned, ElementsOf;
    ElementsInside(c, t, variadic);
  }

  /** What the pieces are cut from; junk is what realign held before. */
  function Image(how: How, t: Type, d: Datum, junk: seq<Byte>): (r: seq<Byte>)
    requires DatumOf(t, d) && |junk| == 2 * XLEN && (how.Copy? ==> t.size <= 2 * XLEN)
    ensures |r| == match how case Own => t.size case Reference => XLEN case Copy => 2 * XLEN
  {
    match how
    case Own => d.bytes
    case Reference => Encode(d.address, XLEN)
    case Copy => d.bytes + junk[t.size..]
  }

  function Cut(image: seq<Byte>, q: Piece): (r: seq<Byte>)
    requires PieceFits(q, |image|)
    ensures |r| == AtomSize(q.code)
  {
    image[q.at..q.at + AtomSize(q.code)]
  }

  predicate Writable(s: seq<nat>, pieces: seq<Piece>, n: nat) {
    forall q :: q in pieces ==> q.slot < |s| && PieceFits(q, n)
  }

  /** The slots after the pieces have been written. */
  function Written(s: seq<nat>, pieces: seq<Piece>, image: seq<Byte>): (r: seq<nat>)
    requires Writable(s, pieces, |image|)
    ensures |r| == |s|
  {
    if pieces == [] then s else
      var q := pieces[|pieces| - 1];
      assert q in pieces;
      Written(s, pieces[..|pieces| - 1], image)[q.slot := AtomWord(q.code, Cut(image, q))]
  }

  /** Storage after the pieces have been read into it. */
  function Stored(data: seq<Byte>, pieces: seq<Piece>, s: seq<nat>): (r: seq<Byte>)
    requires Writable(s, pieces, |data|)
    ensures |r| == |data|
  {
    if pieces == [] then data else
      var q := pieces[|pieces| - 1];
      assert q in pieces;
      var r := Stored(data, pieces[..|pieces| - 1], s);
      r[..q.at] + AtomBytes(q.code, s[q.slot]) + r[q.at + AtomSize(q.code)..]
  }

  predicate InRange(p: Plan, s: seq<nat>) {
    forall q :: q in p.pieces ==> q.slot < |s|
  }

  /** What marshal does to the slots. */
  function Marshalled(s: seq<nat>, p: Plan, t: Type, d: Datum, junk: seq<Byte>): (r: seq<nat>)
    requires Cuttable(p, t) && InRange(p, s) && DatumOf(t, d) && |junk| == 2 * XLEN
    ensures |r| == |s|
  {
    Written(s, p.pieces, Image(p.how, t, d, junk))
  }

  /** What unmarshal returns: the address it got, or its storage with the bytes in it. */
  datatype Received = At(address: nat) | Here(data: seq<Byte>)

  function Unmarshalled(s: seq<nat>, p: Plan, t: Type, data: seq<Byte>, junk: seq<Byte>): Received
    requires Cuttable(p, t) && InRange(p, s) && |junk| == 2 * XLEN
    requires |data| >= (if p.how.Own? then 2 * XLEN else if p.how.Copy? then t.size else 0)
  {
    match p.how
    case Own => Here(Stored(data, p.pieces, s))
    case Reference => At(Decode(AtomBytes(DATA_PTR, s[p.pieces[0].slot])))
    case Copy => Here(Stored(junk, p.pieces, s)[..t.size] + data[t.size..])
  }

  /** The same pointer, or the same bytes: all of them, or those of the one or two fields of a struct. */
  predicate Delivered(p: Plan, t: Type, d: Datum, r: Received)
    requires Cuttable(p, t) && DatumOf(t, d)
  {
    match p.how
    case Own => r.Here? && forall q :: q in p.pieces ==> PieceFits(q, |r.data|) && Cut(r.data, q) == Cut(d.bytes, q)
    case Reference => r == At(d.address)
    case Copy => r.Here? && t.size <= |r.data| && r.data[..t.size] == d.bytes
  }

  /** The slots hold the pieces of the argument. */
  predicate Holds(s: seq<nat>, pieces: seq<Piece>, image: seq<Byte>) {
    Writable(s, pieces, |image|) && forall q :: q in pieces ==> s[q.slot] == AtomWord(q.code, Cut(image, q))
  }

  predicate Distinct(pieces: seq<Piece>) {
    forall i, j :: 0 <= i < j < |pieces| ==> pieces[i].slot != pieces[j].slot
  }

  lemma {:induction false} WrittenHolds(s: seq<nat>, pieces: seq<Piece>, image: seq<Byte>)
    requires Writable(s, pieces, |image|) && Distinct(pieces)
    ensures Holds(Written(s, pieces, image), pieces, image)
    ensures forall k ::
      0 <= k < |s| && (forall q :: q in pieces ==> q.slot != k) ==> Written(s, pieces, image)[k] == s[k]
  {
    if pieces != [] {
      var n := |pieces| - 1;
      var q := pieces[n];
      WrittenHolds(s, pieces[..n], image);
      assert pieces == pieces[..n] + [q];
      forall p | p in pieces[..n] ensures p.slot != q.slot {
        var i :| 0 <= i < n && pieces[..n][i] == p;
        assert pieces[i] == p;
      }
    }
  }

  lemma WrittenOne(s: seq<nat>, q: Piece, image: seq<Byte>)
    requires Writable(s, [q], |image|)
    ensures q in [q] && Written(s, [q], image) == s[q.slot := AtomWord(q.code, Cut(image, q))]
  {
    assert [q][..0] == [];
  }

  lemma WrittenTwo(s: seq<nat>, q0: Piece, q1: Piece, image: seq<Byte>)
    requires Writable(s, [q0, q1], |image|)
    ensures q0 in [q0, q1] && q1 in [q0, q1]
    ensures Written(s, [q0, q1], image) ==
      s[q0.slot := AtomWord(q0.code, Cut(image, q0))][q1.slot := AtomWord(q1.code, Cut(image, q1))]
  {
    assert [q0, q1][..1] == [q0] && q0 in [q0, q1] && q1 in [q0, q1];
    WrittenOne(s, q0, image);
  }

  lemma StoredOne(data: seq<Byte>, q: Piece, s: seq<nat>)
    requires Writable(s, [q], |data|)
    ensures Stored(data, [q], s) == data[..q.at] + AtomBytes(q.code, s[q.slot]) + data[q.at + AtomSize(q.code)..]
    ensures Cut(Stored(data, [q], s), q) == AtomBytes(q.code, s[q.slot])
  {
    assert [q][..0] == [] && q in [q];
  }

  lemma StoredTwo(data: seq<Byte>, q0: Piece, q1: Piece, s: seq<nat>)
    requires Writable(s, [q0, q1], |data|) && Apart([q0, q1])
    ensures var r := Stored(data, [q0, q1], s);
      Cut(r, q0) == AtomBytes(q0.code, s[q0.slot]) && Cut(r, q1) == AtomBytes(q1.code, s[q1.slot])
  {
    hide AtomBytes, Stored;
    assert [q0, q1][..1] == [q0] && q0 in [q0, q1] && q1 in [q0, q1];
    StoredOne(data, q0, s);
    StoredLast(data, [q0, q1], s);
  }

  lemma StoredLast(data: seq<Byte>, pieces: seq<Piece>, s: seq<nat>)
    requires Writable(s, pieces, |data|) && |pieces| > 0
    ensures var q := pieces[|pieces| - 1];
      var r := Stored(data, pieces[..|pieces| - 1], s);
      PieceFits(q, |data|) && q.slot < |s|
      && Stored(data, pieces, s) == r[..q.at] + AtomBytes(q.code, s[q.slot]) + r[q.at + AtomSize(q.code)..]
  {
    assert pieces[|pieces| - 1] in pieces;
  }

  lemma StoredReads(data: seq<Byte>, pieces: seq<Piece>, s: seq<nat>)
    requires Writable(s, pieces, |data|) && Apart(pieces)
    ensures forall q :: q in pieces ==> Cut(Stored(data, pieces, s), q) == AtomBytes(q.code, s[q.slot])
  {
    if |pieces| == 1 {
      assert pieces == [pieces[0]];
      StoredOne(data, pieces[0], s);
    } else if |pieces| == 2 {
      assert pieces == [pieces[0], pieces[1]];
      StoredTwo(data, pieces[0], pieces[1], s);
    }
  }

  lemma PieceReturns(s: seq<nat>, pieces: seq<Piece>, image: seq<Byte>, data: seq<Byte>)
    requires Holds(s, pieces, image) && Writable(s, pieces, |data|) && Apart(pieces)
    ensures forall q :: q in pieces ==> Cut(Stored(data, pieces, s), q) == Cut(image, q)
  {
    hide Stored, Cut, AtomWord, AtomBytes;
    StoredReads(data, pieces, s);
    forall q | q in pieces ensures Cut(Stored(data, pieces, s), q) == Cut(image, q) {
      AtomRoundTrip(q.code, Cut(image, q));
    }
  }

  lemma CopyReturns(s: seq<nat>, p: Plan, t: Type, d: Datum, junk: seq<Byte>, junk': seq<Byte>)
    requires Cuttable(p, t) && p.how.Copy? && DatumOf(t, d) && |junk| == |junk'| == 2 * XLEN
    requires Holds(s, p.pieces, Image(p.how, t, d, junk))
    ensures Stored(junk', p.pieces, s)[..t.size] == d.bytes
  {
    hide Stored, AtomWord;
    var image := Image(p.how, t, d, junk);
    PieceReturns(s, p.pieces, image, junk');
    var r := Stored(junk', p.pieces, s);
    forall i | 0 <= i < |p.pieces| ensures r[i * XLEN..i * XLEN + XLEN] == image[i * XLEN..i * XLEN + XLEN] {
      var q := p.pieces[i];
      assert q in p.pieces && Cut(r, q) == Cut(image, q);
    }
    forall k | 0 <= k < t.size ensures r[k] == image[k] {
      var i := k / XLEN;
      assert r[i * XLEN..i * XLEN + XLEN][k - i * XLEN] == image[i * XLEN..i * XLEN + XLEN][k - i * XLEN];
    }
    assert r[..t.size] == image[..t.size] == d.bytes;
  }

  lemma ReferenceReturns(s: seq<nat>, p: Plan, t: Type, d: Datum, junk: seq<Byte>)
    requires Cuttable(p, t) && p.how.Reference? && DatumOf(t, d) && |junk| == 2 * XLEN
    requires Holds(s, p.pieces, Image(p.how, t, d, junk))
    ensures Decode(AtomBytes(DATA_PTR, s[p.pieces[0].slot])) == d.address
  {
    var q := p.pieces[0];
    assert q in p.pieces;
    var b := Encode(d.address, XLEN);
    assert Cut(b, q) == b;
    AtomRoundTrip(q.code, b);
    DecodeEncode(d.address, XLEN);
  }

  /** As long as the slots hold the argument, unmarshal gives it back, whatever storage it uses. */
  lemma ArgumentReturns(s: seq<nat>, p: Plan, t: Type, d: Datum, junk: seq<Byte>, data: seq<Byte>, junk': seq<Byte>)
    requires Cuttable(p, t) && DatumOf(t, d) && |data| == |junk| == |junk'| == 2 * XLEN && InRange(p, s)
    requires Holds(s, p.pieces, Image(p.how, t, d, junk))
    ensures Delivered(p, t, d, Unmarshalled(s, p, t, data, junk'))
  {
    hide Stored, Holds;
    match p.how
    case Own => PieceReturns(s, p.pieces, d.bytes, data);
    case Reference => ReferenceReturns(s, p, t, d, junk);
    case Copy => CopyReturns(s, p, t, d, junk, junk');
  }

  /** A single scalar arrives whole. */
  lemma ScalarWhole(c: Cursor, t: Type, variadic: bool, d: Datum, r: Received)
    requires Natural(t) && DatumOf(t, d) && t.code != STRUCT
    requires Cuttable(PlanOf(c, t, variadic), t) && Delivered(PlanOf(c, t, variadic), t, d, r)
    ensures PlanOf(c, t, variadic).how.Own? ==> |r.data| >= t.size && r.data[..t.size] == d.bytes
  {
    var p := PlanOf(c, t, variadic);
    if p.how.Own? {
      var q := p.pieces[0];
      assert q in p.pieces && Cut(r.data, q) == r.data[..t.size] && Cut(d.bytes, q) == d.bytes;
    }
  }

  // What the plans come to, atom by atom

  lemma AtomEffect(s: seq<nat>, c: Cursor, how: How, code: int, t: Type, d: Datum, junk: seq<Byte>)
    requires DatumOf(t, d) && |junk| == 2 * XLEN && Cuttable(AtomPlan(c, how, code), t)
    requires InRange(AtomPlan(c, how, code), s)
    ensures AtomSlot(c, code) < |s| && AtomSize(code) <= |Image(how, t, d, junk)|
    ensures Marshalled(s, AtomPlan(c, how, code), t, d, junk)
            == s[AtomSlot(c, code) := AtomWord(code, Image(how, t, d, junk)[..AtomSize(code)])]
  {
    hide AtomWord, AtomSlot;
    var q := AtomPlan(c, how, code).pieces[0];
    assert q in AtomPlan(c, how, code).pieces;
    WrittenOne(s, q, Image(how, t, d, junk));
  }

  lemma PairEffect(s: seq<nat>, c: Cursor, how: How, code1: int, at: nat, code2: int, t: Type, d: Datum,
                   junk: seq<Byte>)
    requires DatumOf(t, d) && |junk| == 2 * XLEN && Cuttable(PairPlan(c, how, code1, at, code2), t)
    requires InRange(PairPlan(c, how, code1, at, code2), s)
    ensures AtomSlot(c, code1) < |s| && AtomSlot(AfterAtom(c, code1), code2) < |s|
    ensures AtomSize(code1) <= |Image(how, t, d, junk)| && at + AtomSize(code2) <= |Image(how, t, d, junk)|
    ensures Marshalled(s, PairPlan(c, how, code1, at, code2), t, d, junk)
            == s[AtomSlot(c, code1) := AtomWord(code1, Image(how, t, d, junk)[..AtomSize(code1)])]
                [AtomSlot(AfterAtom(c, code1), code2) := AtomWord(code2,
                                                                  Image(how, t, d, junk)[at..at + AtomSize(code2)])]
  {
    hide AtomWord, AtomSlot, AfterAtom;
    var ps := PairPlan(c, how, code1, at, code2).pieces;
    assert ps[0] in ps && ps[1] in ps;
    WrittenTwo(s, ps[0], ps[1], Image(how, t, d, junk));
  }

  lemma NoEffect(s: seq<nat>, c: Cursor, t: Type, d: Datum, junk: seq<Byte>)
    requires DatumOf(t, d) && |junk| == 2 * XLEN && t.size == 0
    ensures Marshalled(s, Plan(c, Copy, []), t, d, junk) == s
  {
  }

  lemma AtomRead(s: seq<nat>, c: Cursor, how: How, code: int, t: Type, data: seq<Byte>, junk: seq<Byte>)
    requires |data| == |junk| == 2 * XLEN && Cuttable(AtomPlan(c, how, code), t) && InRange(AtomPlan(c, how, code), s)
    requires how.Copy? ==> t.size <= 2 * XLEN
    ensures AtomSlot(c, code) < |s|
    ensures var b := AtomBytes(code, s[AtomSlot(c, code)]);
      Unmarshalled(s, AtomPlan(c, how, code), t, data, junk) ==
      match how
      case Own => Here(b + data[|b|..])
      case Reference => At(Decode(b))
      case Copy => Here((b + junk[|b|..])[..t.size] + data[t.size..])
  {
    hide AtomBytes, AtomSlot;
    var q := AtomPlan(c, how, code).pieces[0];
    assert q in AtomPlan(c, how, code).pieces;
    if !how.Reference? {
      var into := if how.Own? then data else junk;
      StoredOne(into, q, s);
      assert into[..0] == [];
    }
  }

  lemma PairRead(s: seq<nat>, c: Cursor, how: How, code1: int, at: nat, code2: int, t: Type, data: seq<Byte>,
                 junk: seq<Byte>)
    requires |data| == |junk| == 2 * XLEN && !how.Reference?
    requires Cuttable(PairPlan(c, how, code1, at, code2), t) && InRange(PairPlan(c, how, code1, at, code2), s)
    requires how.Copy? ==> t.size <= 2 * XLEN
    ensures AtomSlot(c, code1) < |s| && AtomSlot(AfterAtom(c, code1), code2) < |s| && at + AtomSize(code2) <= 2 * XLEN
    ensures AtomSize(code1) <= at
    ensures var b1 := AtomBytes(code1, s[AtomSlot(c, code1)]);
      var b2 := AtomBytes(code2, s[AtomSlot(AfterAtom(c, code1), code2)]);
      var into := if how.Own? then data else junk;
      var r := (b1 + into[|b1|..])[..at] + b2 + into[at + |b2|..];
      Unmarshalled(s, PairPlan(c, how, code1, at, code2), t, data, junk) ==
        Here(if how.Own? then r else r[..t.size] + data[t.size..])
  {
    hide AtomBytes, AtomSlot, AfterAtom;
    var ps := PairPlan(c, how, code1, at, code2).pieces;
    assert ps[0] in ps && ps[1] in ps;
    var into := if how.Own? then data else junk;
    StoredPair(into, ps[0], ps[1], s);
  }

  lemma StoredPair(data: seq<Byte>, q0: Piece, q1: Piece, s: seq<nat>)
    requires Writable(s, [q0, q1], |data|) && Apart([q0, q1]) && q0.at == 0
    ensures q0.slot < |s| && q1.slot < |s| && PieceFits(q1, |data|) && PieceFits(q0, q1.at)
    ensures var b0, b1 := AtomBytes(q0.code, s[q0.slot]), AtomBytes(q1.code, s[q1.slot]);
      Stored(data, [q0, q1], s) == (b0 + data[|b0|..])[..q1.at] + b1 + data[q1.at + |b1|..]
  {
    hide AtomBytes;
    assert [q0, q1][..1] == [q0] && q0 in [q0, q1] && q1 in [q0, q1];
    StoredOne(data, q0, s);
    var b0 := AtomBytes(q0.code, s[q0.slot]);
    assert data[..0] == [] && (b0 + data[|b0|..])[q1.at + AtomSize(q1.code)..] == data[q1.at + AtomSize(q1.code)..];
  }

  lemma NoRead(s: seq<nat>, c: Cursor, t: Type, data: seq<Byte>, junk: seq<Byte>)
    requires |data| == |junk| == 2 * XLEN && t.size == 0
    ensures Unmarshalled(s, Plan(c, Copy, []), t, data, junk) == Here(data)
  {
  }
}
