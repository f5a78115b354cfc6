/** ffi_types as they lie in memory: a graph whose structs get their sizes one after the other. */
module TypeGraphs {
  import opened FfiTypes
  import opened Layout

  /** An ffi_type; elements, which scalars do not have, ends where the NULL is.  The shape is the tree it stands for. */
  class FfiType {
    var size: nat
    var alignment: nat
    const code: int
    const elements: seq<FfiType>
    ghost const shape: Type

    constructor (code: int, size: nat, alignment: nat, elements: seq<FfiType>)
      ensures this.code == code && this.size == size && this.alignment == alignment && this.elements == elements
      ensures Consistent()
      ensures shape.size == size && shape.alignment == alignment
    {
      this.code, this.size, this.alignment, this.elements := code, size, alignment, elements;
      this.shape := Type(code, size, alignment, seq(|elements|, i requires 0 <= i < |elements| => elements[i].shape));
    }

    ghost predicate Consistent() {
      && shape.code == code && |shape.elements| == |elements|
      && forall i :: 0 <= i < |elements| ==> elements[i].shape == shape.elements[i]
    }

    /** Scalars have their size from the start.  A struct with a size has a first field with a size; if no struct in
        it is empty, it is laid out, and so are its parts, as far as they are not being worked on. */
    ghost predicate Sound(open: set<FfiType>)
      reads this, elements
    {
      if code != STRUCT then size == shape.size > 0 && alignment == shape.alignment > 0
      else size != 0 ==>
        && alignment > 0 && StartsWithScalar(shape)
        && (Inhabited(shape) ==> IsLaidOut() && forall e :: e in elements && e !in open ==> e.size != 0)
    }

    ghost predicate IsLaidOut()
      reads this
    {
      size == SizeOf(shape) && alignment == AlignOf(shape)
    }
  }

  /** The chain of first fields ends in a scalar, not in a struct without fields. */
  predicate StartsWithScalar(t: Type)
    decreases t
  {
    t.code != STRUCT || (t.elements != [] && StartsWithScalar(t.elements[0]))
  }

  lemma StructInhabited(t: Type)
    requires t.code == STRUCT
    ensures Inhabited(t) <==> t.elements != [] && forall i :: 0 <= i < |t.elements| ==> Inhabited(t.elements[i])
  {
    if t.elements != [] && !Inhabited(t) {
      var e :| e in t.elements && !Inhabited(e);
    }
  }

  ghost predicate Closed(nodes: set<FfiType>) {
    forall n :: n in nodes ==> n.Consistent() && forall i :: 0 <= i < |n.elements| ==> n.elements[i] in nodes
  }

  /** Structs that are being worked on may have any size. */
  ghost predicate AllSound(nodes: set<FfiType>, open: set<FfiType>)
    requires Closed(nodes)
    reads nodes
  {
    forall n :: n in nodes && (n !in open || n.code != STRUCT) ==> n.Sound(open)
  }

  // What is part of what

  ghost predicate IsPart(m: FfiType, n: FfiType, nodes: set<FfiType>)
    requires Closed(nodes) && n in nodes
    decreases n.shape
  {
    m == n || exists i :: 0 <= i < |n.elements| && PartOfField(m, n, i, nodes)
  }

  ghost predicate PartOfField(m: FfiType, n: FfiType, i: nat, nodes: set<FfiType>)
    requires Closed(nodes) && n in nodes && i < |n.elements|
    decreases n.shape, 0, i
  {
    IsPart(m, n.elements[i], nodes)
  }

  lemma FieldsParts(m: FfiType, n: FfiType, i: nat, nodes: set<FfiType>)
    requires Closed(nodes) && n in nodes && i < |n.elements| && IsPart(m, n.elements[i], nodes)
    ensures IsPart(m, n, nodes)
  {
    assert PartOfField(m, n, i, nodes);
  }

  lemma {:induction false} PartsParts(l: FfiType, m: FfiType, n: FfiType, nodes: set<FfiType>)
    requires Closed(nodes) && n in nodes && m in nodes && IsPart(l, m, nodes) && IsPart(m, n, nodes)
    ensures IsPart(l, n, nodes)
    decreases n.shape
  {
    if m != n {
      var i :| 0 <= i < |n.elements| && PartOfField(m, n, i, nodes);
      PartsParts(l, m, n.elements[i], nodes);
      FieldsParts(l, n, i, nodes);
    }
  }

  function Height(t: Type): nat
    decreases t, 1
  {
    1 + HeightTo(t, |t.elements|)
  }

  function HeightTo(t: Type, k: nat): nat
    requires k <= |t.elements|
    decreases t, 0, k
  {
    if k == 0 then 0 else Max(HeightTo(t, k - 1), Height(t.elements[k - 1]))
  }

  lemma {:induction false} FieldsAreLower(t: Type, i: nat, k: nat)
    requires i < k <= |t.elements|
    ensures Height(t.elements[i]) <= HeightTo(t, k)
  {
    if i < k - 1 { FieldsAreLower(t, i, k - 1); }
  }

  lemma {:induction false} PartsAreLower(m: FfiType, n: FfiType, nodes: set<FfiType>)
    requires Closed(nodes) && n in nodes && IsPart(m, n, nodes)
    ensures m == n || Height(m.shape) < Height(n.shape)
    decreases n.shape
  {
    hide Height, HeightTo;
    if m != n {
      var i :| 0 <= i < |n.elements| && PartOfField(m, n, i, nodes);
      PartsAreLower(m, n.elements[i], nodes);
      LowerField(n.shape, i);
    }
  }

  lemma LowerField(t: Type, i: nat)
    requires i < |t.elements|
    ensures Height(t.elements[i]) < Height(t)
  {
    FieldsAreLower(t, i, |t.elements|);
  }

  /** No type is part of its own fields. */
  lemma NotInItself(n: FfiType, i: nat, nodes: set<FfiType>)
    requires Closed(nodes) && n in nodes && i < |n.elements|
    ensures !IsPart(n, n.elements[i], nodes)
  {
    LowerField(n.shape, i);
    if IsPart(n, n.elements[i], nodes) { PartsAreLower(n, n.elements[i], nodes); }
  }

  // Which types a check accepts, and what a refused check leaves behind

  ghost function Sized(nodes: set<FfiType>): set<FfiType>
    reads nodes
  {
    set n | n in nodes && n.size != 0
  }

  /** The check accepts the type, when those in sized have a size. */
  ghost predicate Passes(n: FfiType, sized: set<FfiType>, nodes: set<FfiType>)
    requires Closed(nodes) && n in nodes
    decreases n.shape, 1
  {
    n in sized || AllPass(n, sized, nodes)
  }

  /** It is a struct with fields, all of which are accepted. */
  ghost predicate AllPass(n: FfiType, sized: set<FfiType>, nodes: set<FfiType>)
    requires Closed(nodes) && n in nodes
    decreases n.shape, 0
  {
    && n.code == STRUCT && n.elements != []
    && forall i :: 0 <= i < |n.elements| ==> Passes(n.elements[i], sized, nodes)
  }

  /** The first field, from k on, that is refused. */
  ghost function FirstRefused(n: FfiType, k: nat, sized: set<FfiType>, nodes: set<FfiType>): (r: nat)
    requires Closed(nodes) && n in nodes && k <= |n.elements|
    ensures k <= r <= |n.elements|
    ensures forall i :: k <= i < r ==> Passes(n.elements[i], sized, nodes)
    ensures r < |n.elements| ==> !Passes(n.elements[r], sized, nodes)
    decreases |n.elements| - k
  {
    if k == |n.elements| || !Passes(n.elements[k], sized, nodes) then k else FirstRefused(n, k + 1, sized, nodes)
  }

  lemma FirstRefusedIs(n: FfiType, k: nat, sized: set<FfiType>, nodes: set<FfiType>)
    requires Closed(nodes) && n in nodes && k <= |n.elements|
    requires forall i :: 0 <= i < k ==> Passes(n.elements[i], sized, nodes)
    requires k < |n.elements| ==> !Passes(n.elements[k], sized, nodes)
    ensures FirstRefused(n, 0, sized, nodes) == k
    ensures AllPass(n, sized, nodes) <==> n.code == STRUCT && n.elements != [] && k == |n.elements|
  {
  }

  /** The structs that keep a size when the fields of n are refused: those on the way to the empty struct for which some
      field has been placed. */
  ghost function Kept(n: FfiType, sized: set<FfiType>, nodes: set<FfiType>): set<FfiType>
    requires Closed(nodes) && n in nodes
    decreases n.shape
  {
    var k := FirstRefused(n, 0, sized, nodes);
    if k == |n.elements| then {} else (if k > 0 then {n} else {}) + Kept(n.elements[k], sized, nodes)
  }

  lemma {:induction false} KeptAreParts(n: FfiType, sized: set<FfiType>, nodes: set<FfiType>)
    requires Closed(nodes) && n in nodes
    ensures forall m :: m in Kept(n, sized, nodes) ==> m in nodes && IsPart(m, n, nodes)
    decreases n.shape
  {
    var k := FirstRefused(n, 0, sized, nodes);
    if k < |n.elements| {
      assert n.elements[k].shape == n.shape.elements[k];
      KeptAreParts(n.elements[k], sized, nodes);
      forall m | m in Kept(n.elements[k], sized, nodes) ensures IsPart(m, n, nodes) {
        FieldsParts(m, n, k, nodes);
      }
    }
  }

  /** Of the parts of n, those in a are in b as well, and b has no others than such as pass in any case. */
  ghost predicate Grew(n: FfiType, a: set<FfiType>, b: set<FfiType>, nodes: set<FfiType>)
    requires Closed(nodes) && n in nodes
  {
    forall m :: m in nodes && IsPart(m, n, nodes) ==> (m in a ==> m in b) && (m in b ==> Passes(m, a, nodes))
  }

  lemma FieldGrew(n: FfiType, i: nat, a: set<FfiType>, b: set<FfiType>, nodes: set<FfiType>)
    requires Closed(nodes) && n in nodes && i < |n.elements| && Grew(n, a, b, nodes)
    ensures Grew(n.elements[i], a, b, nodes)
  {
    forall m | m in nodes && IsPart(m, n.elements[i], nodes)
      ensures (m in a ==> m in b) && (m in b ==> Passes(m, a, nodes))
    {
      FieldsParts(m, n, i, nodes);
    }
  }

  /** So what passes is the same. */
  lemma {:induction false} PassesAlike(n: FfiType, a: set<FfiType>, b: set<FfiType>, nodes: set<FfiType>)
    requires Closed(nodes) && n in nodes && Grew(n, a, b, nodes)
    ensures Passes(n, a, nodes) == Passes(n, b, nodes)
    decreases n.shape
  {
    assert IsPart(n, n, nodes);
    forall i | 0 <= i < |n.elements| ensures Passes(n.elements[i], a, nodes) == Passes(n.elements[i], b, nodes) {
      FieldGrew(n, i, a, b, nodes);
      PassesAlike(n.elements[i], a, b, nodes);
    }
  }

  lemma {:induction false} KeptAlike(n: FfiType, a: set<FfiType>, b: set<FfiType>, nodes: set<FfiType>)
    requires Closed(nodes) && n in nodes && Grew(n, a, b, nodes)
    ensures Kept(n, a, nodes) == Kept(n, b, nodes)
    decreases n.shape
  {
    forall i | 0 <= i < |n.elements|
      ensures Grew(n.elements[i], a, b, nodes) && Passes(n.elements[i], a, nodes) == Passes(n.elements[i], b, nodes)
    {
      FieldGrew(n, i, a, b, nodes);
      PassesAlike(n.elements[i], a, b, nodes);
    }
    var k := FirstRefused(n, 0, a, nodes);
    FirstRefusedIs(n, k, b, nodes);
    if k < |n.elements| { KeptAlike(n.elements[k], a, b, nodes); }
  }

  /** More sizes, more types that pass. */
  lemma {:induction false} PassesMore(n: FfiType, a: set<FfiType>, b: set<FfiType>, nodes: set<FfiType>)
    requires Closed(nodes) && n in nodes && a <= b && Passes(n, a, nodes)
    ensures Passes(n, b, nodes)
    decreases n.shape
  {
    if n !in a {
      forall i | 0 <= i < |n.elements| ensures Passes(n.elements[i], b, nodes) {
        PassesMore(n.elements[i], a, b, nodes);
      }
    }
  }

  // From the state to the type

  lemma ScalarSized(n: FfiType, open: set<FfiType>, nodes: set<FfiType>)
    requires Closed(nodes) && n in nodes && AllSound(nodes, open) && n.code != STRUCT
    ensures n in Sized(nodes)
  {
    assert n.Sound(open);
  }

  lemma {:induction false} InhabitedPasses(n: FfiType, sized: set<FfiType>, nodes: set<FfiType>)
    requires Closed(nodes) && n in nodes && Inhabited(n.shape)
    requires forall m :: m in nodes && m.code != STRUCT ==> m in sized
    ensures Passes(n, sized, nodes)
    decreases n.shape
  {
    if n.code == STRUCT {
      StructInhabited(n.shape);
      forall i | 0 <= i < |n.elements| ensures Passes(n.elements[i], sized, nodes) {
        assert n.elements[i].shape == n.shape.elements[i];
        InhabitedPasses(n.elements[i], sized, nodes);
      }
    }
  }

  lemma {:induction false} PassesStarts(n: FfiType, sized: set<FfiType>, nodes: set<FfiType>)
    requires Closed(nodes) && n in nodes && Passes(n, sized, nodes)
    requires forall m :: m in nodes && m in sized ==> StartsWithScalar(m.shape)
    ensures StartsWithScalar(n.shape)
    decreases n.shape
  {
    if n !in sized {
      assert n.elements[0].shape == n.shape.elements[0];
      PassesStarts(n.elements[0], sized, nodes);
    }
  }

  /** As the types are before any check: a struct with an empty one in it has no size. */
  ghost predicate Untouched(sized: set<FfiType>, nodes: set<FfiType>) {
    forall n :: n in nodes ==>
      if n.code != STRUCT then n in sized && Inhabited(n.shape) else n in sized ==> Inhabited(n.shape)
  }

  lemma {:induction false} PassesIffInhabited(n: FfiType, sized: set<FfiType>, nodes: set<FfiType>)
    requires Closed(nodes) && n in nodes && Untouched(sized, nodes)
    ensures Passes(n, sized, nodes) <==> Inhabited(n.shape)
    decreases n.shape
  {
    if n.code == STRUCT {
      StructInhabited(n.shape);
      forall i | 0 <= i < |n.elements| ensures Passes(n.elements[i], sized, nodes) <==> Inhabited(n.shape.elements[i]) {
        assert n.elements[i].shape == n.shape.elements[i];
        PassesIffInhabited(n.elements[i], sized, nodes);
      }
    }
  }

  /** How many structs, from n down the chain of first fields, have no size. */
  ghost function Gap(n: FfiType, sized: set<FfiType>, nodes: set<FfiType>): nat
    requires Closed(nodes) && n in nodes
    decreases n.shape
  {
    if n in sized || n.elements == [] then 0 else 1 + Gap(n.elements[0], sized, nodes)
  }

  function ChainLength(t: Type): nat {
    if t.elements == [] then 0 else 1 + ChainLength(t.elements[0])
  }

  lemma {:induction false} GapBound(n: FfiType, sized: set<FfiType>, nodes: set<FfiType>)
    requires Closed(nodes) && n in nodes
    ensures Gap(n, sized, nodes) <= ChainLength(n.shape)
    decreases n.shape
  {
    if n.elements != [] {
      assert n.elements[0].shape == n.shape.elements[0];
      GapBound(n.elements[0], sized, nodes);
    }
  }

  /** A refusal leaves one struct more on the chain with a size. */
  lemma {:induction false} GapCloses(n: FfiType, a: set<FfiType>, b: set<FfiType>, nodes: set<FfiType>)
    requires Closed(nodes) && n in nodes && !Passes(n, a, nodes) && StartsWithScalar(n.shape) && a <= b
    requires Kept(n, a, nodes) <= b
    requires forall m :: m in nodes && m.code != STRUCT ==> m in a
    ensures Gap(n, b, nodes) < Gap(n, a, nodes)
    decreases n.shape
  {
    if n !in b {
      assert n.elements[0].shape == n.shape.elements[0];
      assert FirstRefused(n, 0, a, nodes) == 0;
      GapCloses(n.elements[0], a, b, nodes);
    }
  }

  // Which refused types pass the very next check

  /** The first field with an empty struct in it. */
  ghost function FirstEmpty(t: Type, k: nat): (r: nat)
    requires k <= |t.elements|
    ensures k <= r <= |t.elements|
    decreases |t.elements| - k
  {
    if k == |t.elements| || !Inhabited(t.elements[k]) then k else FirstEmpty(t, k + 1)
  }

  lemma {:induction false} FirstEmptyRefused(n: FfiType, k: nat, sized: set<FfiType>, nodes: set<FfiType>)
    requires Closed(nodes) && n in nodes && Untouched(sized, nodes) && k <= |n.elements|
    ensures FirstRefused(n, k, sized, nodes) == FirstEmpty(n.shape, k)
    decreases |n.elements| - k
  {
    if k < |n.elements| {
      assert n.elements[k].shape == n.shape.elements[k];
      PassesIffInhabited(n.elements[k], sized, nodes);
      FirstEmptyRefused(n, k + 1, sized, nodes);
    }
  }

  /** What keeps a size: the structs on the way down to the first empty struct that it leaves by a later field than the
      first. */
  ghost function Leftover(n: FfiType, nodes: set<FfiType>): set<FfiType>
    requires Closed(nodes) && n in nodes
    decreases n.shape
  {
    var k := FirstEmpty(n.shape, 0);
    if k == |n.elements| then {}
    else
      assert n.elements[k].shape == n.shape.elements[k];
      (if k > 0 then {n} else {}) + Leftover(n.elements[k], nodes)
  }

  lemma {:induction false} KeptIsLeftover(n: FfiType, sized: set<FfiType>, nodes: set<FfiType>)
    requires Closed(nodes) && n in nodes && Untouched(sized, nodes)
    ensures Kept(n, sized, nodes) == Leftover(n, nodes)
    decreases n.shape
  {
    FirstEmptyRefused(n, 0, sized, nodes);
    var k := FirstEmpty(n.shape, 0);
    if k < |n.elements| {
      assert n.elements[k].shape == n.shape.elements[k];
      KeptIsLeftover(n.elements[k], sized, nodes);
    }
  }

  /** Every way from n down to an empty struct goes through one of these structs. */
  ghost predicate Guarded(n: FfiType, left: set<FfiType>, nodes: set<FfiType>)
    requires Closed(nodes) && n in nodes
    decreases n.shape
  {
    n in left || n.code != STRUCT
    || (n.elements != [] && forall i :: 0 <= i < |n.elements| ==> Guarded(n.elements[i], left, nodes))
  }

  /** What the next check after a refusal accepts: types in which every way down to an empty struct goes through a
      struct that has kept a size. */
  ghost predicate AcceptedNext(n: FfiType, nodes: set<FfiType>)
    requires Closed(nodes) && n in nodes
  {
    Guarded(n, Leftover(n, nodes), nodes)
  }

  lemma {:induction false} InhabitedGuarded(n: FfiType, left: set<FfiType>, nodes: set<FfiType>)
    requires Closed(nodes) && n in nodes && Inhabited(n.shape)
    ensures Guarded(n, left, nodes)
    decreases n.shape
  {
    if n.code == STRUCT {
      StructInhabited(n.shape);
      forall i | 0 <= i < |n.elements| ensures Guarded(n.elements[i], left, nodes) {
        assert n.elements[i].shape == n.shape.elements[i];
        InhabitedGuarded(n.elements[i], left, nodes);
      }
    }
  }

  lemma {:induction false} PassesIffGuarded(n: FfiType, sized: set<FfiType>, left: set<FfiType>, nodes: set<FfiType>)
    requires Closed(nodes) && n in nodes && Untouched(sized, nodes)
    ensures Passes(n, sized + left, nodes) <==> Guarded(n, left, nodes)
    decreases n.shape
  {
    if n in sized {
      InhabitedGuarded(n, left, nodes);
    } else {
      forall i | 0 <= i < |n.elements|
        ensures Passes(n.elements[i], sized + left, nodes) <==> Guarded(n.elements[i], left, nodes)
      {
        assert n.elements[i].shape == n.shape.elements[i];
        PassesIffGuarded(n.elements[i], sized, left, nodes);
      }
    }
  }

  /** Among types that nothing has been done to, whatever parts they share. */
  lemma NextPassesIff(n: FfiType, sized: set<FfiType>, nodes: set<FfiType>)
    requires Closed(nodes) && n in nodes && Untouched(sized, nodes)
    ensures Passes(n, sized + Kept(n, sized, nodes), nodes) <==> AcceptedNext(n, nodes)
  {
    hide Kept, Leftover, Passes, Guarded;
    KeptIsLeftover(n, sized, nodes);
    PassesIffGuarded(n, sized, Leftover(n, nodes), nodes);
  }

  // Without shared parts the tree alone decides

  /** The first field passes at once, or at the next check, all others at once. */
  predicate NextPasses(t: Type)
    decreases t
  {
    && t.code == STRUCT && t.elements != []
    && (Inhabited(t.elements[0]) ||
        (NextPasses(t.elements[0]) && forall i :: 1 <= i < |t.elements| ==> Inhabited(t.elements[i])))
  }

  /** Along the chain of first fields, what is refused in a first field is no part of the other fields. */
  ghost predicate Unshared(n: FfiType, nodes: set<FfiType>)
    requires Closed(nodes) && n in nodes
    decreases n.shape
  {
    n.elements != [] ==>
      && Unshared(n.elements[0], nodes)
      && forall i, m :: 1 <= i < |n.elements| && m in nodes && IsPart(m, n.elements[0], nodes) &&
                         IsPart(m, n.elements[i], nodes) ==>
        Inhabited(m.shape)
  }

  lemma {:induction false} KeptRefused(n: FfiType, sized: set<FfiType>, nodes: set<FfiType>)
    requires Closed(nodes) && n in nodes && !Passes(n, sized, nodes)
    ensures forall m :: m in Kept(n, sized, nodes) ==> m in nodes && !Passes(m, sized, nodes)
    decreases n.shape
  {
    var k := FirstRefused(n, 0, sized, nodes);
    if k < |n.elements| { KeptRefused(n.elements[k], sized, nodes); }
  }

  lemma OtherFieldsAlike(n: FfiType, i: nat, sized: set<FfiType>, nodes: set<FfiType>)
    requires Closed(nodes) && n in nodes && Untouched(sized, nodes) && Unshared(n, nodes) && 1 <= i < |n.elements|
    requires !Passes(n.elements[0], sized, nodes)
    ensures Passes(n.elements[i], sized + Kept(n.elements[0], sized, nodes), nodes) <==> Inhabited(n.shape.elements[i])
  {
    hide Passes, AllPass, Kept, Inhabited;
    var f, e := n.elements[0], n.elements[i];
    var kept := Kept(f, sized, nodes);
    KeptAreParts(f, sized, nodes);
    KeptRefused(f, sized, nodes);
    forall m | m in nodes && IsPart(m, e, nodes)
      ensures (m in sized ==> m in sized + kept) && (m in sized + kept ==> Passes(m, sized, nodes))
    {
      PassesIffInhabited(m, sized, nodes);
      if m in sized { assert Inhabited(m.shape); }
    }
    PassesAlike(e, sized, sized + kept, nodes);
    PassesIffInhabited(e, sized, nodes);
  }

  lemma FirstFieldStays(n: FfiType, sized: set<FfiType>, nodes: set<FfiType>)
    requires Closed(nodes) && n in nodes && Untouched(sized, nodes) && !Inhabited(n.shape)
    requires n.elements != [] && Inhabited(n.elements[0].shape)
    ensures n in Kept(n, sized, nodes)
  {
    hide Inhabited;
    PassesIffInhabited(n, sized, nodes);
    PassesIffInhabited(n.elements[0], sized, nodes);
    assert FirstRefused(n, 0, sized, nodes) > 0;
  }

  lemma FirstFieldRefused(n: FfiType, sized: set<FfiType>, nodes: set<FfiType>)
    requires Closed(nodes) && n in nodes && Untouched(sized, nodes) && !Inhabited(n.shape)
    requires n.elements != [] && !Inhabited(n.elements[0].shape)
    ensures Kept(n, sized, nodes) == Kept(n.elements[0], sized, nodes) && n !in sized && n !in Kept(n, sized, nodes)
    ensures n.code == STRUCT && !Passes(n.elements[0], sized, nodes)
  {
    hide Inhabited;
    var f := n.elements[0];
    PassesIffInhabited(f, sized, nodes);
    assert FirstRefused(n, 0, sized, nodes) == 0;
    KeptAreParts(f, sized, nodes);
    NotInItself(n, 0, nodes);
  }

  /** A type without such parts that is refused passes the next check exactly in this case. */
  lemma {:induction false} NextPassesUnshared(n: FfiType, sized: set<FfiType>, nodes: set<FfiType>)
    requires Closed(nodes) && n in nodes && Untouched(sized, nodes) && Unshared(n, nodes) && !Inhabited(n.shape)
    ensures Passes(n, sized + Kept(n, sized, nodes), nodes) <==> NextPasses(n.shape)
    decreases n.shape
  {
    hide Kept, Inhabited, Unshared;
    if n.elements == [] {
      assert Kept(n, sized, nodes) == {} by { NothingKept(n, sized, nodes); }
    } else {
      var f := n.elements[0];
      assert f.shape == n.shape.elements[0];
      if Inhabited(f.shape) {
        FirstFieldStays(n, sized, nodes);
      } else {
        FirstFieldRefused(n, sized, nodes);
        assert Unshared(f, nodes) by { UnsharedFirst(n, nodes); }
        NextPassesUnshared(f, sized, nodes);
        forall i | 1 <= i < |n.elements|
          ensures Passes(n.elements[i], sized + Kept(f, sized, nodes), nodes) <==> Inhabited(n.shape.elements[i])
        {
          OtherFieldsAlike(n, i, sized, nodes);
        }
      }
    }
  }

  lemma NothingKept(n: FfiType, sized: set<FfiType>, nodes: set<FfiType>)
    requires Closed(nodes) && n in nodes && n.elements == []
    ensures Kept(n, sized, nodes) == {}
  {
  }

  lemma UnsharedFirst(n: FfiType, nodes: set<FfiType>)
    requires Closed(nodes) && n in nodes && Unshared(n, nodes) && n.elements != []
    ensures Unshared(n.elements[0], nodes)
  {
  }

  // The layout of a struct whose fields have the sizes that they have now

  ghost function EndNow(es: seq<FfiType>): nat
    reads es
  {
    if es == [] then 0 else OffsetNow(es, |es| - 1) + es[|es| - 1].size
  }

  ghost function OffsetNow(es: seq<FfiType>, k: nat): nat
    requires k < |es|
    reads es
  {
    AlignTo(EndNow(es[..k]), es[k].alignment)
  }

  ghost function AlignNow(es: seq<FfiType>): nat
    reads es
  {
    if es == [] then 0 else Max(AlignNow(es[..|es| - 1]), es[|es| - 1].alignment)
  }

  ghost function OffsetsNow(es: seq<FfiType>): (r: seq<nat>)
    reads es
    ensures |r| == |es|
  {
    if es == [] then [] else OffsetsNow(es[..|es| - 1]) + [OffsetNow(es, |es| - 1)]
  }

  /** If these are the sizes that the types ask for, so is the layout. */
  lemma {:induction false} LaidOutNow(n: FfiType, k: nat)
    requires n.Consistent() && k <= |n.elements| && forall i :: 0 <= i < k ==> n.elements[i].IsLaidOut()
    ensures EndNow(n.elements[..k]) == End(n.shape, k) && AlignNow(n.elements[..k]) == MaxAlign(n.shape, k)
    ensures OffsetsNow(n.elements[..k]) == Offsets(n.shape, k)
  {
    hide AlignTo, SizeOf, AlignOf, Max;
    if k > 0 {
      LaidOutNow(n, k - 1);
      assert n.elements[..k][..k - 1] == n.elements[..k - 1];
      assert n.elements[k - 1].shape == n.shape.elements[k - 1];
    }
  }
}
