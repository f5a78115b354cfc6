/** lib/type.js: the ffi_type of a struct with arrays in it repeats the type of the array's elements. */
module JsTypes {
  import opened FfiTypes
  import opened Layout

  /** What the ref modules hand to Type: a type with an ffi_type of its own, a pointer, an array (fixedLength 0 when
      it has no fixed length), or a struct.  A pointer has its target as prototype. */
  datatype JsType =
    | Scalar(ffi: Type)
    | Pointer(target: JsType)
    | ArrayOf(elem: JsType, fixedLength: nat)
    | StructOf(fields: seq<JsType>)

  predicate FixedArray(t: JsType) {
    t.ArrayOf? && t.fixedLength > 0
  }

  /** The property fixedLength, which pointers inherit; 0 where there is none. */
  function FixedLength(t: JsType): (n: nat)
    ensures FixedArray(t) ==> n == t.fixedLength
  {
    match t
    case ArrayOf(_, n) => n
    case Pointer(target) => FixedLength(target)
    case _ => 0
  }

  /** The property type of what has a fixed length. */
  function ElemOf(t: JsType): (e: JsType)
    requires FixedLength(t) > 0
    ensures e < t
    ensures FixedArray(t) ==> e == t.elem
  {
    if t.ArrayOf? then t.elem else ElemOf(t.target)
  }

  /** The type whose ffi_type a field repeats. */
  function Unit(f: JsType): JsType {
    if FixedLength(f) > 0 then ElemOf(f) else f
  }

  function Repeat(t: Type, n: nat): (r: seq<Type>)
    ensures |r| == n && forall i :: 0 <= i < n ==> r[i] == t
  {
    if n == 0 then [] else Repeat(t, n - 1) + [t]
  }

  /** Type: arrays are passed as pointers. */
  function TypeOf(t: JsType): Type
    decreases t, 2
  {
    match t
    case Scalar(ffi) => ffi
    case Pointer(_) => PTR_TYPE
    case ArrayOf(_, _) => PTR_TYPE
    case StructOf(fields) => Type(STRUCT, 0, 0, Flattened(t, |fields|))
  }

  /** The elements that a field of a struct becomes. */
  function Elements(f: JsType): (r: seq<Type>)
    ensures |r| == Width(f)
    decreases f, 3
  {
    if FixedLength(f) > 0 then Repeat(TypeOf(ElemOf(f)), FixedLength(f)) else [TypeOf(f)]
  }

  function Width(f: JsType): (n: nat)
    ensures n > 0
  {
    if FixedLength(f) > 0 then FixedLength(f) else 1
  }

  function Flattened(t: JsType, k: nat): (r: seq<Type>)
    requires t.StructOf? && k <= |t.fields|
    ensures |r| == Start(t, k)
    decreases t, 1, k
  {
    if k == 0 then [] else Flattened(t, k - 1) + Elements(t.fields[k - 1])
  }

  /** The index of the first element of field k. */
  function Start(t: JsType, k: nat): nat
    requires t.StructOf? && k <= |t.fields|
  {
    if k == 0 then 0 else Start(t, k - 1) + Width(t.fields[k - 1])
  }

  datatype Entry = Null | Entry(ffi: Type)

  function Entries(s: seq<Type>): (r: seq<Entry>)
    ensures |r| == |s|
  {
    seq(|s|, i requires 0 <= i < |s| => Entry(s[i]))
  }

  lemma EntriesJoin(a: seq<Type>, b: seq<Type>)
    ensures Entries(a + b) == Entries(a) + Entries(b)
  {
  }

  method WriteRun(elements: array<Entry>, start: nat, ffi: Type, n: nat) returns (index: nat)
    requires start + n <= elements.Length
    modifies elements
    ensures index == start + n
    ensures elements[..index] == old(elements[..start]) + Entries(Repeat(ffi, n))
  {
    index := start;
    for j := 0 to n
      invariant index == start + j
      invariant elements[..index] == old(elements[..start]) + Entries(Repeat(ffi, j))
    {
      elements[index] := Entry(ffi);
      index := index + 1;
      assert elements[..index] == elements[..index - 1] + [Entry(ffi)];
    }
  }

  lemma NoElements(t: JsType)
    requires t.StructOf?
    ensures Start(t, 0) == 0 && Entries(Flattened(t, 0)) == []
  {
  }

  lemma NextElements(t: JsType, i: nat)
    requires t.StructOf? && i < |t.fields|
    ensures var f := t.fields[i];
            && Start(t, i + 1) == Start(t, i) + Width(f)
            && Entries(Flattened(t, i + 1)) == Entries(Flattened(t, i)) + Entries(Repeat(TypeOf(Unit(f)), Width(f)))
  {
    hide TypeOf;
    var f := t.fields[i];
    EntriesJoin(Flattened(t, i), Elements(f));
    assert Elements(f) == Repeat(TypeOf(Unit(f)), Width(f));
  }

  /** The loops of the struct branch: the buffer they count out is filled exactly, and the NULL comes last. */
  method StructElements(t: JsType) returns (elements: array<Entry>)
    requires t.StructOf?
    ensures fresh(elements) && elements[..] == Entries(Flattened(t, |t.fields|)) + [Null]
  {
    hide TypeOf, Flattened, Elements, Entries, Start, Repeat;
    NoElements(t);
    var fields := t.fields;
    var numElements := 0;
    for i := 0 to |fields|
      invariant numElements == Start(t, i)
    {
      NextElements(t, i);
      if FixedLength(fields[i]) > 0 {
        numElements := numElements + FixedLength(fields[i]);
      } else {
        numElements := numElements + 1;
      }
    }
    elements := new Entry[numElements + 1](_ => Null);
    var index := 0;
    for i := 0 to |fields|
      invariant elements.Length == Start(t, |fields|) + 1
      invariant index == Start(t, i) <= Start(t, |fields|)
      invariant elements[..index] == Entries(Flattened(t, i))
    {
      StartGrows(t, i + 1, |fields|);
      NextElements(t, i);
      if FixedLength(fields[i]) > 0 {
        index := WriteRun(elements, index, TypeOf(ElemOf(fields[i])), FixedLength(fields[i]));
      } else {
        index := WriteRun(elements, index, TypeOf(fields[i]), 1);
      }
    }
    elements[index] := Null;
    assert elements[..] == elements[..index] + [Null];
  }

  lemma {:induction false} StartGrows(t: JsType, k: nat, n: nat)
    requires t.StructOf? && k <= n <= |t.fields|
    ensures Start(t, k) <= Start(t, n)
  {
    if k < n { StartGrows(t, k, n - 1); }
  }

  // The layout a C compiler gives the struct, where a fixed array is one field

  function CAlign(t: JsType): nat
    decreases t, 1
  {
    match t
    case Scalar(ffi) => ffi.alignment
    case Pointer(_) => 8
    case ArrayOf(elem, n) => if n > 0 then CAlign(elem) else 8
    case StructOf(fields) => CMaxAlign(t, |fields|)
  }

  function CMaxAlign(t: JsType, k: nat): nat
    requires t.StructOf? && k <= |t.fields|
    decreases t, 0, k
  {
    if k == 0 then 0 else Max(CMaxAlign(t, k - 1), CAlign(t.fields[k - 1]))
  }

  function CSize(t: JsType): nat
    decreases t, 1
  {
    match t
    case Scalar(ffi) => ffi.size
    case Pointer(_) => 8
    case ArrayOf(elem, n) => if n > 0 then n * CSize(elem) else 8
    case StructOf(fields) => AlignTo(CEnd(t, |fields|), CAlign(t))
  }

  function CEnd(t: JsType, k: nat): nat
    requires t.StructOf? && k <= |t.fields|
    decreases t, 0, k, 0
  {
    if k == 0 then 0 else COffset(t, k - 1) + CSize(t.fields[k - 1])
  }

  function COffset(t: JsType, k: nat): nat
    requires t.StructOf? && k < |t.fields|
    decreases t, 0, k, 1
  {
    AlignTo(CEnd(t, k), CAlign(t.fields[k]))
  }

  /** As every C compiler has it: the size of a scalar is a multiple of its alignment; and no struct is empty. */
  predicate Proper(t: JsType)
    decreases t
  {
    match t
    case Scalar(ffi) => ffi.code != STRUCT && ffi.size > 0 && Multiple(ffi.size, ffi.alignment)
    case Pointer(target) => FixedLength(target) > 0 ==> Proper(target)
    case ArrayOf(elem, _) => Proper(elem)
    case StructOf(fields) => fields != [] && forall f :: f in fields ==> Proper(f)
  }

  predicate LikePointer(t: JsType) {
    CSize(t) == 8 && CAlign(t) == 8
  }

  /** No array has arrays as elements, and no field is a pointer to an array, except where the difference does not
      show. */
  predicate Flat(t: JsType)
    decreases t, 0
  {
    match t
    case Scalar(_) => true
    case Pointer(_) => true
    case ArrayOf(elem, n) => n > 0 ==> (if FixedArray(elem) then LikePointer(elem) else Flat(elem))
    case StructOf(fields) => forall f :: f in fields ==> FlatField(f)
  }

  predicate FlatField(f: JsType)
    decreases f, 1
  {
    if f.Pointer? && FixedLength(f) > 0 then
      FixedLength(f) == 1 && (FixedArray(ElemOf(f)) || (LikePointer(ElemOf(f)) && Flat(ElemOf(f))))
    else Flat(f)
  }

  lemma TimesMultiple(n: nat, x: nat, a: nat)
    requires Multiple(x, a)
    ensures Multiple(n * x, a)
  {
    assert x == (x / a) * a;
    assert n * x == (n * (x / a)) * a by { Assoc(n, x / a, a); }
    MultipleMod(n * (x / a), a);
  }

  lemma {:induction false} CSizeMultiple(t: JsType)
    requires Proper(t)
    ensures Multiple(CSize(t), CAlign(t))
    decreases t
  {
    match t
    case Scalar(_) =>
    case Pointer(_) =>
    case ArrayOf(elem, n) =>
      CSizeMultiple(elem);
      TimesMultiple(n, CSize(elem), CAlign(elem));
    case StructOf(fields) =>
      var last := fields[|fields| - 1];
      assert last in fields;
      CSizeMultiple(last);
  }

  // The two layouts agree

  lemma StayAligned(x: nat, s: nat, a: nat)
    requires Multiple(x, a) && Multiple(s, a)
    ensures AlignTo(x, a) == x && Multiple(x + s, a)
  {
    SumMultiple(x, s, a);
  }

  /** Repeated elements lie as an array does. */
  lemma {:induction false} RunOfElements(t: Type, e: Type, i: nat, n: nat)
    requires 0 < n && i + n <= |t.elements| && forall j :: i <= j < i + n ==> t.elements[j] == e
    requires Multiple(SizeOf(e), AlignOf(e))
    ensures End(t, i + n) == AlignTo(End(t, i), AlignOf(e)) + n * SizeOf(e)
    ensures Multiple(End(t, i + n), AlignOf(e))
    ensures MaxAlign(t, i + n) == Max(MaxAlign(t, i), AlignOf(e))
  {
    hide AlignTo, AlignUp, SizeOf, AlignOf;
    var s, a := SizeOf(e), AlignOf(e);
    var k := i + n - 1;
    assert End(t, i + n) == AlignTo(End(t, k), a) + s;
    if n == 1 {
      AlignedStart(End(t, i), a);
      StayAligned(AlignTo(End(t, i), a), s, a);
    } else {
      RunOfElements(t, e, i, n - 1);
      StayAligned(End(t, k), s, a);
      assert (n - 1) * s + s == n * s;
    }
  }

  lemma AlignedStart(x: nat, a: nat)
    requires a > 0
    ensures Multiple(AlignTo(x, a), a)
  {
  }

  /** The type and number of the elements for a field match the field in C. */
  predicate Matches(f: JsType) {
    var e := Elements(f)[0];
    Width(f) * SizeOf(e) == CSize(f) && AlignOf(e) == CAlign(f) && Multiple(SizeOf(e), AlignOf(e))
  }

  lemma {:induction false} ElementsAlike(f: JsType, i: nat)
    requires i < Width(f)
    ensures Elements(f)[i] == Elements(f)[0] == TypeOf(Unit(f))
  {
  }

  lemma {:induction false} FlattenedAt(t: JsType, k: nat, n: nat, i: nat)
    requires t.StructOf? && k < n <= |t.fields| && i < Width(t.fields[k])
    ensures Start(t, k) + i < Start(t, n) && Flattened(t, n)[Start(t, k) + i] == Elements(t.fields[k])[i]
  {
    if k < n - 1 { FlattenedAt(t, k, n - 1, i); }
  }

  lemma ElementsRun(t: JsType, k: nat)
    requires t.StructOf? && k < |t.fields|
    ensures Start(t, k + 1) <= |TypeOf(t).elements|
    ensures forall j :: Start(t, k) <= j < Start(t, k + 1) ==> TypeOf(t).elements[j] == Elements(t.fields[k])[0]
  {
    StartGrows(t, k + 1, |t.fields|);
    forall j | Start(t, k) <= j < Start(t, k + 1) ensures TypeOf(t).elements[j] == Elements(t.fields[k])[0] {
      FlattenedAt(t, k, |t.fields|, j - Start(t, k));
      ElementsAlike(t.fields[k], j - Start(t, k));
    }
  }

  /** So far as the first k fields match, the elements for them lie where C has the fields. */
  lemma {:induction false} FieldsAgree(t: JsType, k: nat)
    requires t.StructOf? && k <= |t.fields| && forall i :: 0 <= i < k ==> Matches(t.fields[i])
    ensures Start(t, k) <= |TypeOf(t).elements|
    ensures End(TypeOf(t), Start(t, k)) == CEnd(t, k) && MaxAlign(TypeOf(t), Start(t, k)) == CMaxAlign(t, k)
  {
    hide AlignTo, AlignUp, SizeOf, AlignOf, Multiple;
    var ffi := TypeOf(t);
    StartGrows(t, k, |t.fields|);
    if k > 0 {
      FieldsAgree(t, k - 1);
      var f := t.fields[k - 1];
      var e := Elements(f)[0];
      assert Matches(f);
      ElementsRun(t, k - 1);
      RunOfElements(ffi, e, Start(t, k - 1), Width(f));
    }
  }

  predicate Agrees(t: JsType) {
    SizeOf(TypeOf(t)) == CSize(t) && AlignOf(TypeOf(t)) == CAlign(t)
  }

  /** A field matches exactly if it is no array of arrays that differ from pointers, and no pointer to an array, other
      than an array of one element that looks like a pointer. */
  lemma MatchesIff(f: JsType)
    requires Proper(f) && (!FixedArray(Unit(f)) ==> Agrees(Unit(f)))
    ensures Matches(f) <==>
              && (FixedArray(f) && FixedArray(f.elem) ==> LikePointer(f.elem))
              && (f.Pointer? && FixedLength(f) > 0 ==>
                  FixedLength(f) == 1 && (FixedArray(ElemOf(f)) || LikePointer(ElemOf(f))))
  {
    hide Proper, CSize, CAlign, SizeOf, AlignOf, Multiple;
    ElementsAlike(f, 0);
    CSizeMultiple(f);
    ProperUnit(f);
    CSizeMultiple(Unit(f));
    if FixedArray(f) {
      ArrayC(f);
      ArrayMatches(f);
    } else if FixedLength(f) > 0 {
      PointerMatches(f);
    }
  }

  lemma {:induction false} ProperUnit(f: JsType)
    requires Proper(f)
    ensures Proper(Unit(f))
    decreases f
  {
    if f.Pointer? && FixedLength(f) > 0 { ProperUnit(f.target); }
  }

  lemma ArrayC(f: JsType)
    requires FixedArray(f)
    ensures CSize(f) == f.fixedLength * CSize(f.elem) && CAlign(f) == CAlign(f.elem)
  {
  }

  lemma PointerType(t: JsType)
    requires t.ArrayOf? || t.Pointer?
    ensures SizeOf(TypeOf(t)) == AlignOf(TypeOf(t)) == 8 && Multiple(8, 8)
  {
  }

  lemma ArrayMatches(f: JsType)
    requires FixedArray(f) && Multiple(CSize(f.elem), CAlign(f.elem)) && (!FixedArray(f.elem) ==> Agrees(f.elem))
    requires CSize(f) == f.fixedLength * CSize(f.elem) && CAlign(f) == CAlign(f.elem)
    ensures Matches(f) <==> (FixedArray(f.elem) ==> LikePointer(f.elem))
  {
    hide CSize, CAlign, SizeOf, AlignOf, Multiple;
    ElementsAlike(f, 0);
    if FixedArray(f.elem) {
      PointerType(f.elem);
      if f.fixedLength * 8 == f.fixedLength * CSize(f.elem) { SameFactor(f.fixedLength, 8, CSize(f.elem)); }
    }
  }

  lemma PointerMatches(f: JsType)
    requires f.Pointer? && FixedLength(f) > 0 && Multiple(CSize(ElemOf(f)), CAlign(ElemOf(f)))
    requires !FixedArray(ElemOf(f)) ==> Agrees(ElemOf(f))
    ensures Matches(f) <==> FixedLength(f) == 1 && (FixedArray(ElemOf(f)) || LikePointer(ElemOf(f)))
  {
    hide SizeOf, AlignOf, TypeOf;
    ElementsAlike(f, 0);
    PointerType(f);
    var e, n := ElemOf(f), FixedLength(f);
    if FixedArray(e) {
      PointerType(e);
    } else if CAlign(e) == 8 && n * CSize(e) == 8 {
      OnlyOne(n, CSize(e));
    }
  }

  lemma OnlyOne(n: nat, s: nat)
    requires n * s == 8 && s % 8 == 0
    ensures n == 1 && s == 8
  {
    if n > 0 && s > 0 {
      MulLe(1, n, s);
      if n > 1 { MulLe(2, n, s); }
    }
  }

  lemma SameFactor(n: nat, x: int, y: int)
    requires n > 0 && n * x == n * y
    ensures x == y
  {
    if x < y { MulLe(x + 1, y, n); }
    if y < x { MulLe(y + 1, x, n); }
  }

  /** A flat type has the size and alignment of C. */
  lemma {:induction false} TypeAgrees(t: JsType)
    requires Proper(t) && Flat(t) && !FixedArray(t)
    ensures Agrees(t)
    decreases t, 1
  {
    if t.StructOf? {
      forall i | 0 <= i < |t.fields| ensures Matches(t.fields[i]) {
        FieldMatches(t, i);
      }
      FieldsAgree(t, |t.fields|);
    }
  }

  lemma {:induction false} FieldMatches(t: JsType, i: nat)
    requires Proper(t) && Flat(t) && t.StructOf? && i < |t.fields|
    ensures Matches(t.fields[i])
    decreases t, 0
  {
    hide CSize, CAlign, SizeOf, AlignOf, Multiple;
    var f := t.fields[i];
    assert f in t.fields && FlatField(f);
    ProperUnit(f);
    if !FixedArray(Unit(f)) {
      if FixedLength(f) > 0 && f.Pointer? && !LikePointer(ElemOf(f)) { assert false; }
      TypeAgrees(Unit(f));
    }
    MatchesIff(f);
  }

  /** Every field of a flat struct, an array or not, starts where C puts it. */
  lemma LayoutAgrees(t: JsType, k: nat)
    requires Proper(t) && Flat(t) && t.StructOf? && k < |t.fields|
    ensures Start(t, k) < |TypeOf(t).elements|
    ensures Offset(TypeOf(t), Start(t, k)) == COffset(t, k)
    ensures SizeOf(TypeOf(t)) == CSize(t) && AlignOf(TypeOf(t)) == CAlign(t)
  {
    TypeAgrees(t);
    forall i | 0 <= i < |t.fields| ensures Matches(t.fields[i]) {
      FieldMatches(t, i);
    }
    FieldsAgree(t, k);
    FlattenedAt(t, k, |t.fields|, 0);
    ElementsAlike(t.fields[k], 0);
  }

  // Structs with one field

  lemma SingleElements(t: JsType, f: JsType)
    requires t.StructOf? && t.fields == [f]
    ensures TypeOf(t) == Type(STRUCT, 0, 0, Elements(f))
  {
    assert t.fields[0] == f;
    NoFields(t);
    assert Flattened(t, 1) == Flattened(t, 0) + Elements(f);
  }

  lemma NoFields(t: JsType)
    requires t.StructOf?
    ensures Flattened(t, 0) == [] && CEnd(t, 0) == 0 && CMaxAlign(t, 0) == 0
  {
  }

  lemma NoEnd(t: Type)
    ensures End(t, 0) == 0 && MaxAlign(t, 0) == 0
  {
  }

  lemma AlignZero(a: nat)
    ensures AlignTo(0, a) == 0
  {
  }

  /** The layout of equal elements in a row, and nothing else. */
  lemma SingleRun(t: JsType, f: JsType, s: nat, a: nat)
    requires t.StructOf? && t.fields == [f] && FixedLength(f) > 0
    requires SizeOf(TypeOf(ElemOf(f))) == s && AlignOf(TypeOf(ElemOf(f))) == a && Multiple(s, a)
    ensures SizeOf(TypeOf(t)) == FixedLength(f) * s
  {
    hide SizeOf, AlignOf, AlignTo, TypeOf, CSize, CAlign, Multiple, Max;
    var n := FixedLength(f);
    SingleElements(t, f);
    var ffi, e := TypeOf(t), TypeOf(ElemOf(f));
    RunOfElements(ffi, e, 0, n);
    NoEnd(ffi);
    AlignZero(a);
    RowSize(ffi, n, s, a);
  }

  lemma RowSize(ffi: Type, n: nat, s: nat, a: nat)
    requires ffi.code == STRUCT && |ffi.elements| == n > 0 && MaxAlign(ffi, n) == Max(0, a) && End(ffi, n) == n * s
    requires Multiple(s, a)
    ensures SizeOf(ffi) == n * s
  {
    hide MaxAlign, End;
    TimesMultiple(n, s, a);
    AlignedStays(n * s, a);
    assert AlignOf(ffi) == a;
  }

  lemma AlignedStays(x: nat, a: nat)
    requires Multiple(x, a)
    ensures AlignTo(x, a) == x
  {
  }

  lemma SingleField(t: JsType, f: JsType)
    requires t.StructOf? && t.fields == [f]
    ensures CSize(t) == AlignTo(CSize(f), CAlign(f))
  {
    hide AlignTo;
    assert t.fields[0] == f;
    NoFields(t);
    AlignZero(CAlign(f));
    assert COffset(t, 0) == 0;
    assert CEnd(t, 1) == CSize(f);
    assert CMaxAlign(t, 1) == CAlign(f);
  }

  /** An array of arrays becomes a row of pointers. */
  lemma NestedArray(t: JsType, inner: JsType, n: nat)
    requires t.StructOf? && t.fields == [ArrayOf(inner, n)] && FixedArray(inner) && n > 0
    ensures SizeOf(TypeOf(t)) == n * 8 && CSize(t) == AlignTo(n * CSize(inner), CAlign(inner))
  {
    hide SizeOf, AlignOf, AlignTo, TypeOf, CSize, CAlign;
    var f := ArrayOf(inner, n);
    PointerType(inner);
    SingleRun(t, f, 8, 8);
    SingleField(t, f);
    ArrayC(f);
  }

  /** So struct { int a[2][3]; } is given the layout of two pointers. */
  lemma NestedArrayDiffers()
    ensures var t := StructOf([ArrayOf(ArrayOf(Scalar(Type(SINT32, 4, 4, [])), 3), 2)]);
            CSize(t) == 24 && SizeOf(TypeOf(t)) == 16
  {
    hide SizeOf, TypeOf;
    var inner := ArrayOf(Scalar(Type(SINT32, 4, 4, [])), 3);
    NestedArray(StructOf([ArrayOf(inner, 2)]), inner, 2);
    assert CSize(inner) == 12;
  }

  /** A pointer to an array becomes the array. */
  lemma PointerToArray(t: JsType, elem: JsType, n: nat)
    requires t.StructOf? && t.fields == [Pointer(ArrayOf(elem, n))] && n > 0 && Proper(elem) && !FixedArray(elem)
    requires Agrees(elem)
    ensures SizeOf(TypeOf(t)) == n * CSize(elem) && CSize(t) == 8
  {
    hide SizeOf, AlignOf, TypeOf, CSize, CAlign;
    var f := Pointer(ArrayOf(elem, n));
    assert ElemOf(f) == elem;
    CSizeMultiple(elem);
    SingleRun(t, f, CSize(elem), CAlign(elem));
    SingleField(t, f);
    PointerC(f);
  }

  lemma PointerC(f: JsType)
    requires f.Pointer?
    ensures CSize(f) == CAlign(f) == AlignTo(8, 8) == 8
  {
  }

  /** So struct { int (*p)[3]; } is given the layout of three ints. */
  lemma PointerToArrayDiffers()
    ensures var t := StructOf([Pointer(ArrayOf(Scalar(Type(SINT32, 4, 4, [])), 3))]);
            CSize(t) == 8 && SizeOf(TypeOf(t)) == 12
  {
    hide SizeOf, AlignOf;
    var elem := Scalar(Type(SINT32, 4, 4, []));
    IntAgrees(elem);
    PointerToArray(StructOf([Pointer(ArrayOf(elem, 3))]), elem, 3);
  }

  lemma IntAgrees(t: JsType)
    requires t == Scalar(Type(SINT32, 4, 4, []))
    ensures Agrees(t) && Proper(t) && CSize(t) == 4
  {
  }
}
