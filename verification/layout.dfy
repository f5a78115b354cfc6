/** C struct layout: what initialize_aggregate of prep_cif.c computes. */
module Layout {
  import opened FfiTypes

  function Max(a: nat, b: nat): nat {
    if a > b then a else b
  }

  /** The alignment of a struct, and the largest one among its first k fields. */
  function AlignOf(t: Type): nat
    decreases t, 1
  {
    if t.code == STRUCT then MaxAlign(t, |t.elements|) else t.alignment
  }

  function MaxAlign(t: Type, k: nat): nat
    requires k <= |t.elements|
    decreases t, 0, k
  {
    if k == 0 then 0 else Max(MaxAlign(t, k - 1), AlignOf(t.elements[k - 1]))
  }

  /** Zero stands for the alignment of a struct without fields, which changes nothing. */
  function AlignTo(v: nat, a: nat): (r: nat)
    ensures v <= r
  {
    if a == 0 then v else AlignUp(v, a)
  }

  function SizeOf(t: Type): nat
    decreases t, 2
  {
    if t.code == STRUCT then AlignTo(End(t, |t.elements|), AlignOf(t)) else t.size
  }

  /** Where the first k fields end. */
  function End(t: Type, k: nat): nat
    requires k <= |t.elements|
    decreases t, 1, k, 0
  {
    if k == 0 then 0 else Offset(t, k - 1) + SizeOf(t.elements[k - 1])
  }

  /** The offset of field k. */
  function Offset(t: Type, k: nat): nat
    requires k < |t.elements|
    decreases t, 1, k, 1
  {
    AlignTo(End(t, k), AlignOf(t.elements[k]))
  }

  function Offsets(t: Type, k: nat): (r: seq<nat>)
    requires k <= |t.elements|
    ensures |r| == k
    ensures forall i :: 0 <= i < k ==> r[i] == Offset(t, i)
  {
    if k == 0 then [] else Offsets(t, k - 1) + [Offset(t, k - 1)]
  }

  /** Sizes and alignments of the scalars make sense, and no struct is empty. */
  predicate Inhabited(t: Type)
    decreases t
  {
    if t.code == STRUCT then t.elements != [] && forall e :: e in t.elements ==> Inhabited(e)
    else t.size > 0 && t.alignment > 0
  }

  lemma {:induction false} InhabitedPositive(t: Type)
    requires Inhabited(t)
    ensures SizeOf(t) > 0 && AlignOf(t) > 0
    decreases t
  {
    if t.code == STRUCT {
      var n := |t.elements|;
      var last := t.elements[n - 1];
      assert last in t.elements;
      InhabitedPositive(last);
    }
  }

  // What a layout is, without saying how it is found

  predicate Multiple(x: nat, a: nat) {
    a > 0 && x % a == 0
  }

  predicate LeastFrom(x: nat, lo: nat, a: nat) {
    lo <= x && Multiple(x, a) && forall y :: lo <= y && Multiple(y, a) ==> x <= y
  }

  /** Every field at the least multiple of its alignment after the field before it, the alignment is the largest, and
      the size is the least multiple of the alignment that holds everything. */
  predicate IsLayout(sizes: seq<nat>, aligns: seq<nat>, offsets: seq<nat>, size: nat, alignment: nat) {
    && |sizes| == |aligns| == |offsets| && |sizes| > 0
    && (forall k :: 0 <= k < |offsets| ==>
        LeastFrom(offsets[k], if k == 0 then 0 else offsets[k - 1] + sizes[k - 1], aligns[k]))
    && (forall a :: a in aligns ==> a <= alignment) && alignment in aligns
    && LeastFrom(size, offsets[|sizes| - 1] + sizes[|sizes| - 1], alignment)
  }

  function Sizes(t: Type): (r: seq<nat>)
    ensures |r| == |t.elements| && forall k :: 0 <= k < |r| ==> r[k] == SizeOf(t.elements[k])
  {
    seq(|t.elements|, k requires 0 <= k < |t.elements| => SizeOf(t.elements[k]))
  }

  function Aligns(t: Type): (r: seq<nat>)
    ensures |r| == |t.elements| && forall k :: 0 <= k < |r| ==> r[k] == AlignOf(t.elements[k])
  {
    seq(|t.elements|, k requires 0 <= k < |t.elements| => AlignOf(t.elements[k]))
  }

  lemma {:induction false} MaxAlignIsMax(t: Type, k: nat)
    requires 0 < k <= |t.elements|
    ensures MaxAlign(t, k) in Aligns(t)[..k] && forall a :: a in Aligns(t)[..k] ==> a <= MaxAlign(t, k)
  {
    var a := Aligns(t);
    assert a[..k] == a[..k - 1] + [a[k - 1]];
    if k > 1 { MaxAlignIsMax(t, k - 1); }
  }

  lemma AlignToLeast(v: nat, a: nat)
    requires a > 0
    ensures LeastFrom(AlignTo(v, a), v, a)
  {
  }

  lemma FieldLeast(t: Type, k: nat)
    requires t.code == STRUCT && Inhabited(t) && k < |t.elements|
    ensures var o := Offsets(t, |t.elements|);
            LeastFrom(o[k], if k == 0 then 0 else o[k - 1] + Sizes(t)[k - 1], Aligns(t)[k])
  {
    hide AlignTo, LeastFrom, MaxAlign;
    assert t.elements[k] in t.elements;
    InhabitedPositive(t.elements[k]);
    AlignToLeast(End(t, k), AlignOf(t.elements[k]));
  }

  lemma SizeLeast(t: Type)
    requires t.code == STRUCT && Inhabited(t)
    ensures var n := |t.elements|; n > 0 && LeastFrom(SizeOf(t), Offsets(t, n)[n - 1] + Sizes(t)[n - 1], AlignOf(t))
  {
    hide AlignTo, LeastFrom, MaxAlign;
    InhabitedPositive(t);
    AlignToLeast(End(t, |t.elements|), AlignOf(t));
  }

  /** A struct is laid out the way C lays it out. */
  lemma LayoutHolds(t: Type)
    requires t.code == STRUCT && Inhabited(t)
    ensures IsLayout(Sizes(t), Aligns(t), Offsets(t, |t.elements|), SizeOf(t), AlignOf(t))
  {
    hide AlignTo, AlignUp, LeastFrom, Multiple, End, Offset, Offsets, Sizes, Aligns, SizeOf, Inhabited, MaxAlign;
    var n := |t.elements|;
    SizeLeast(t);
    MaxAlignIsMax(t, n);
    assert Aligns(t)[..n] == Aligns(t);
    forall k | 0 <= k < n
      ensures LeastFrom(Offsets(t, n)[k], if k == 0 then 0 else Offsets(t, n)[k - 1] + Sizes(t)[k - 1], Aligns(t)[k]) {
      FieldLeast(t, k);
    }
  }

  lemma LeastUnique(x: nat, y: nat, lo: nat, a: nat)
    requires LeastFrom(x, lo, a) && LeastFrom(y, lo, a)
    ensures x == y
  {
    assert Multiple(x, a) && Multiple(y, a);
  }

  /** There is only one layout. */
  lemma {:induction false} LayoutUnique(sizes: seq<nat>, aligns: seq<nat>, o: seq<nat>, s: nat, a: nat, o': seq<nat>,
                                        s': nat, a': nat)
    requires IsLayout(sizes, aligns, o, s, a) && IsLayout(sizes, aligns, o', s', a')
    ensures o == o' && s == s' && a == a'
  {
    var k := 0;
    while k < |o|
      invariant k <= |o| && o[..k] == o'[..k]
    {
      assert k > 0 ==> o[k - 1] == o[..k][k - 1] == o'[..k][k - 1];
      LeastUnique(o[k], o'[k], if k == 0 then 0 else o[k - 1] + sizes[k - 1], aligns[k]);
      assert o[..k + 1] == o[..k] + [o[k]] == o'[..k + 1];
      k := k + 1;
    }
    assert o == o[..k] && o' == o'[..k];
    LeastUnique(s, s', o[k - 1] + sizes[k - 1], a);
  }

  // Every scalar inside, however deep, sits at a multiple of its own alignment

  datatype Leaf = Leaf(at: nat, size: nat, alignment: nat)

  function Leaves(t: Type, base: nat): seq<Leaf>
    decreases t, 1
  {
    if t.code == STRUCT then LeavesTo(t, base, |t.elements|) else [Leaf(base, t.size, t.alignment)]
  }

  function LeavesTo(t: Type, base: nat, k: nat): seq<Leaf>
    requires k <= |t.elements|
    decreases t, 0, k
  {
    if k == 0 then [] else LeavesTo(t, base, k - 1) + Leaves(t.elements[k - 1], base + Offset(t, k - 1))
  }

  predicate PowerOfTwo(a: nat) {
    a == 1 || (a > 1 && a % 2 == 0 && PowerOfTwo(a / 2))
  }

  predicate PowersOfTwo(t: Type)
    decreases t
  {
    if t.code == STRUCT then forall e :: e in t.elements ==> PowersOfTwo(e) else PowerOfTwo(t.alignment)
  }

  lemma {:induction false} SmallerDivides(a: nat, b: nat)
    requires PowerOfTwo(a) && PowerOfTwo(b) && a <= b
    ensures b % a == 0
    decreases b
  {
    if a <= b / 2 {
      SmallerDivides(a, b / 2);
      SumMultiple(b / 2, b / 2, a);
    } else {
      TwiceApart(a, b);
    }
  }

  /** Two powers of two have nothing between half and whole. */
  lemma {:induction false} TwiceApart(a: nat, b: nat)
    requires PowerOfTwo(a) && PowerOfTwo(b) && b / 2 < a <= b
    ensures a == b
    decreases b
  {
    if a > 1 { TwiceApart(a / 2, b / 2); }
  }

  lemma MultipleOf(x: nat, b: nat, a: nat)
    requires a > 0 && b > 0 && x % b == 0 && b % a == 0
    ensures x % a == 0
  {
    assert x == (x / b) * b && b == (b / a) * a;
    assert x == ((x / b) * (b / a)) * a by { Assoc(x / b, b / a, a); }
    MultipleMod((x / b) * (b / a), a);
  }

  lemma Assoc(x: int, y: int, z: int)
    ensures x * (y * z) == (x * y) * z
  {
  }

  lemma SumMultiple(x: nat, y: nat, a: nat)
    requires a > 0 && x % a == 0 && y % a == 0
    ensures (x + y) % a == 0
  {
    assert x == (x / a) * a && y == (y / a) * a;
    assert x + y == (x / a + y / a) * a;
    MultipleMod(x / a + y / a, a);
  }

  lemma {:induction false} MaxAlignPower(t: Type, k: nat)
    requires 0 < k <= |t.elements| && Inhabited(t) && PowersOfTwo(t) && t.code == STRUCT
    ensures PowerOfTwo(MaxAlign(t, k))
    decreases t, k
  {
    var e := t.elements[k - 1];
    assert e in t.elements;
    AlignPower(e);
    if k > 1 { MaxAlignPower(t, k - 1); }
  }

  lemma {:induction false} AlignPower(t: Type)
    requires Inhabited(t) && PowersOfTwo(t)
    ensures PowerOfTwo(AlignOf(t))
    decreases t, |t.elements| + 1
  {
    if t.code == STRUCT { MaxAlignPower(t, |t.elements|); }
  }

  predicate Fit(ls: seq<Leaf>, lo: nat, hi: nat) {
    && (forall i :: 0 <= i < |ls| ==>
        Multiple(ls[i].at, ls[i].alignment) && lo <= ls[i].at && ls[i].at + ls[i].size <= hi)
    && (forall i, j :: 0 <= i < j < |ls| ==> ls[i].at + ls[i].size <= ls[j].at)
  }

  lemma FitJoin(l1: seq<Leaf>, l2: seq<Leaf>, lo: nat, mid: nat, mid': nat, hi: nat)
    requires Fit(l1, lo, mid) && Fit(l2, mid', hi) && lo <= mid <= mid' <= hi
    ensures Fit(l1 + l2, lo, hi)
  {
  }

  /** The scalars of a struct, in order, do not overlap, lie inside it, and are all aligned. */
  lemma {:induction false} LeavesFit(t: Type, base: nat)
    requires Inhabited(t) && PowersOfTwo(t) && Multiple(base, AlignOf(t))
    ensures Fit(Leaves(t, base), base, base + SizeOf(t))
    decreases t, |t.elements| + 1
  {
    if t.code == STRUCT {
      LeavesToFit(t, base, |t.elements|);
      var ls := Leaves(t, base);
    }
  }

  lemma {:induction false} LeavesToFit(t: Type, base: nat, k: nat)
    requires t.code == STRUCT && k <= |t.elements| && Inhabited(t) && PowersOfTwo(t) && Multiple(base, AlignOf(t))
    ensures Fit(LeavesTo(t, base, k), base, base + End(t, k))
    decreases t, k
  {
    hide *;
    if k == 0 {
      NoLeaves(t, base);
    } else {
      var e, at := t.elements[k - 1], Offset(t, k - 1);
      EndAfter(t, k - 1);
      LeavesNext(t, base, k - 1);
      FieldSound(t, k - 1);
      LeavesToFit(t, base, k - 1);
      FieldAligned(t, base, k - 1);
      LeavesFit(e, base + at);
      FitJoin(LeavesTo(t, base, k - 1), Leaves(e, base + at), base, base + End(t, k - 1), base + at, base + End(t, k));
    }
  }

  lemma NoLeaves(t: Type, base: nat)
    ensures Fit(LeavesTo(t, base, 0), base, base + End(t, 0))
  {
  }

  lemma LeavesNext(t: Type, base: nat, k: nat)
    requires k < |t.elements|
    ensures LeavesTo(t, base, k + 1) == LeavesTo(t, base, k) + Leaves(t.elements[k], base + Offset(t, k))
  {
  }

  lemma EndAfter(t: Type, k: nat)
    requires k < |t.elements|
    ensures End(t, k) <= Offset(t, k) && End(t, k + 1) == Offset(t, k) + SizeOf(t.elements[k])
  {
  }

  lemma FieldSound(t: Type, k: nat)
    requires t.code == STRUCT && k < |t.elements| && Inhabited(t) && PowersOfTwo(t)
    ensures Inhabited(t.elements[k]) && PowersOfTwo(t.elements[k])
  {
    assert t.elements[k] in t.elements;
  }

  lemma FieldAligned(t: Type, base: nat, k: nat)
    requires t.code == STRUCT && k < |t.elements| && Inhabited(t) && PowersOfTwo(t) && Multiple(base, AlignOf(t))
    ensures Multiple(base + Offset(t, k), AlignOf(t.elements[k]))
  {
    var e := t.elements[k];
    assert e in t.elements;
    InhabitedPositive(e);
    AlignPower(e);
    AlignPower(t);
    MaxAlignIsMax(t, |t.elements|);
    assert Aligns(t)[..|t.elements|] == Aligns(t);
    assert AlignOf(e) == Aligns(t)[k] && Aligns(t)[k] in Aligns(t);
    SmallerDivides(AlignOf(e), AlignOf(t));
    MultipleOf(base, AlignOf(t), AlignOf(e));
    SumMultiple(base, Offset(t, k), AlignOf(e));
  }
}
