/** The VFP variant of the ARM calling convention: which arguments go in floating-point registers, and in which. */
module ArmVfp {
  import opened FfiTypes
  import opened Layout

  // Homogeneous aggregates

  /** The code that vfp_type_p returns: how many elements of which type. */
  datatype Hfa = NotVfp | Vfp(code: int, count: nat)

  predicate Aggregate(code: int) {
    code == STRUCT || code == COMPLEX
  }

  predicate Floating(code: int) {
    code == FLOAT || code == DOUBLE
  }

  function Width(code: int): nat
    requires Floating(code)
  {
    if code == FLOAT then 4 else 8
  }

  /** is_hfa0 from element i on: the code of the first scalar, -1 if there is none. */
  function FirstScalar(t: Type, i: nat): int
    requires i <= |t.elements|
    decreases t, |t.elements| - i
  {
    if i == |t.elements| then -1 else
      var e := t.elements[i];
      if !Aggregate(e.code) then e.code else
        var inner := FirstScalar(e, 0);
        if inner < 0 then FirstScalar(t, i + 1) else inner
  }

  /** is_hfa1 from element i on: all scalars have the code. */
  predicate AllScalars(t: Type, candidate: int, i: nat)
    requires i <= |t.elements|
    decreases t, |t.elements| - i
  {
    i < |t.elements| ==>
      var e := t.elements[i];
      (if Aggregate(e.code) then AllScalars(e, candidate, 0) else e.code == candidate) &&
        AllScalars(t, candidate, i + 1)
  }

  /** vfp_type_p. */
  function VfpType(t: Type): Hfa
    requires Aggregate(t.code) ==> t.elements != []
  {
    if Floating(t.code) then Vfp(t.code, 1)
    else if t.code == COMPLEX then
      var c := t.elements[0].code;
      if Floating(c) then Vfp(c, 2) else NotVfp
    else if t.code != STRUCT || t.size < 4 || t.size > 32 then NotVfp
    else
      var c := FirstScalar(t, 0);
      if !Floating(c) then NotVfp
      else
        var count := t.size / Width(c);
        if t.size != count * Width(c) || count > 4 || !AllScalars(t, c, 0) then NotVfp else Vfp(c, count)
  }

  /** Types as they are on ARM, laid out; a complex type has the type of its parts as its only element. */
  predicate ArmType(t: Type)
    decreases t
  {
    if t.code == STRUCT then
      Inhabited(t) && t.size == SizeOf(t) && t.alignment == AlignOf(t) && forall e :: e in t.elements ==> ArmType(e)
    else
      && t.size > 0 && (t.alignment == 1 || t.alignment == 2 || t.alignment == 4 || t.alignment == 8) && t.code >= 0
      && (Floating(t.code) ==> t.size == t.alignment == Width(t.code))
      && (t.code == COMPLEX ==>
            && |t.elements| == 1 && Floating(t.elements[0].code) && ArmType(t.elements[0])
            && t.size == 2 * t.elements[0].size && t.alignment == t.elements[0].alignment)
  }

  /** The codes of the scalars in a type. */
  function Scalars(t: Type): seq<int>
    decreases t, 1
  {
    if t.code == STRUCT then ScalarsTo(t, |t.elements|)
    else if t.code == COMPLEX && t.elements != [] then [t.elements[0].code, t.elements[0].code]
    else [t.code]
  }

  function ScalarsTo(t: Type, k: nat): seq<int>
    requires k <= |t.elements|
    decreases t, 0, k
  {
    if k == 0 then [] else ScalarsTo(t, k - 1) + Scalars(t.elements[k - 1])
  }

  predicate Uniform(s: seq<int>, c: int) {
    forall x :: x in s ==> x == c
  }

  /** One to four members of the same floating type. */
  predicate Homogeneous(s: seq<int>) {
    0 < |s| <= 4 && Floating(s[0]) && Uniform(s, s[0])
  }

  lemma {:induction false} SomeScalar(t: Type)
    requires ArmType(t)
    ensures |Scalars(t)| > 0 && Scalars(t)[0] >= 0
    decreases t
  {
    if t.code == STRUCT {
      SomeScalarTo(t, |t.elements|);
    }
  }

  lemma {:induction false} SomeScalarTo(t: Type, k: nat)
    requires ArmType(t) && t.code == STRUCT && 0 < k <= |t.elements|
    ensures |ScalarsTo(t, k)| > 0 && |Scalars(t.elements[0])| > 0
    ensures ScalarsTo(t, k)[0] == Scalars(t.elements[0])[0] >= 0
    decreases t, k
  {
    var e := t.elements[k - 1];
    assert e in t.elements;
    SomeScalar(e);
    if k > 1 { SomeScalarTo(t, k - 1); }
  }

  lemma {:induction false} FirstScalarIs(t: Type)
    requires ArmType(t) && Aggregate(t.code)
    ensures |Scalars(t)| > 0 && FirstScalar(t, 0) == Scalars(t)[0] >= 0
    decreases t
  {
    SomeScalar(t);
    if t.code == STRUCT {
      SomeScalarTo(t, |t.elements|);
      var e := t.elements[0];
      assert e in t.elements;
      if Aggregate(e.code) { FirstScalarIs(e); }
    }
  }

  lemma UniformJoin(a: seq<int>, b: seq<int>, c: int)
    ensures Uniform(a + b, c) <==> Uniform(a, c) && Uniform(b, c)
  {
    if Uniform(a + b, c) {
      forall x | x in a ensures x == c { assert x in a + b; }
      forall x | x in b ensures x == c { assert x in a + b; }
    }
  }

  lemma {:induction false} AllScalarsIs(t: Type, c: int, k: nat)
    requires ArmType(t) && Aggregate(t.code) && k <= |t.elements| && (t.code == COMPLEX ==> k == 0)
    ensures Uniform(Scalars(t), c) <==> (t.code == STRUCT ==> Uniform(ScalarsTo(t, k), c)) && AllScalars(t, c, k)
    decreases t, |t.elements| - k
  {
    if t.code == COMPLEX {
      var e := t.elements[0].code;
      assert Uniform([e, e], c) <==> e == c by { assert e in [e, e]; }
      assert AllScalars(t, c, 1);
    } else if k < |t.elements| {
      var e := t.elements[k];
      assert e in t.elements;
      AllScalarsIs(t, c, k + 1);
      UniformJoin(ScalarsTo(t, k), Scalars(e), c);
      if Aggregate(e.code) {
        AllScalarsIs(e, c, 0);
      } else {
        assert Uniform([e.code], c) <==> e.code == c by { assert e.code in [e.code]; }
      }
    }
  }

  /** Members of one floating type lie side by side. */
  lemma {:induction false} UniformSize(t: Type, c: int)
    requires ArmType(t) && Floating(c) && Uniform(Scalars(t), c)
    ensures SizeOf(t) == |Scalars(t)| * Width(c) && AlignOf(t) == Width(c)
    decreases t, |t.elements| + 1
  {
    if t.code == STRUCT {
      UniformEnd(t, c, |t.elements|);
      PackedAlign(|Scalars(t)|, Width(c));
    } else if t.code == COMPLEX {
      assert t.elements[0].code in Scalars(t);
    } else {
      assert t.code in Scalars(t);
    }
  }

  lemma PackedAlign(n: nat, w: nat)
    requires w > 0
    ensures AlignTo(n * w, w) == n * w
  {
    MultipleMod(n, w);
  }

  lemma Distribute(n: nat, m: nat, w: nat)
    ensures n * w + m * w == (n + m) * w
  {
  }

  lemma {:induction false} UniformEnd(t: Type, c: int, k: nat)
    requires ArmType(t) && t.code == STRUCT && 0 < k <= |t.elements| && Floating(c) && Uniform(ScalarsTo(t, k), c)
    ensures End(t, k) == |ScalarsTo(t, k)| * Width(c) && MaxAlign(t, k) == Width(c)
    decreases t, k
  {
    var e := t.elements[k - 1];
    assert e in t.elements;
    UniformJoin(ScalarsTo(t, k - 1), Scalars(e), c);
    UniformSize(e, c);
    var n, m := |ScalarsTo(t, k - 1)|, |Scalars(e)|;
    if k > 1 { UniformEnd(t, c, k - 1); }
    assert End(t, k - 1) == n * Width(c) && Max(MaxAlign(t, k - 1), Width(c)) == Width(c);
    PackedAlign(n, Width(c));
    Distribute(n, m, Width(c));
  }

  /** An argument goes in floating-point registers exactly if it consists of one to four members of one floating type.
      */
  lemma VfpTypeIs(t: Type)
    requires ArmType(t)
    ensures VfpType(t) == if Homogeneous(Scalars(t)) then Vfp(Scalars(t)[0], |Scalars(t)|) else NotVfp
  {
    hide SizeOf, AlignOf;
    var s := Scalars(t);
    SomeScalar(t);
    if Aggregate(t.code) {
      FirstScalarIs(t);
      AllScalarsIs(t, s[0], 0);
      if Floating(s[0]) && Uniform(s, s[0]) { UniformSize(t, s[0]); }
    }
  }
}
